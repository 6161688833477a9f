/**
  One JSON value a line: the encoder of src/outbox.rs:54-69 and the incremental line
  reader of src/protocol.rs:171-195.
 */
module Framing {
  import opened Prelude
  import opened Json
  import opened OutboxModel

  // ----- Encoding -----

  function Encode(v: Value): Option<Bytes> {
    var bytes := Print(v);
    if |bytes| >= MAX_FRAME then None else Some(bytes + [NEWLINE])
  }

  function ErrorOf(code: int, kind: Bytes, message: Bytes): Member {
    Member(Ascii("error"), Object([
      Member(Ascii("code"), Integer(code)),
      Member(Ascii("data"), Object([Member(Ascii("kind"), String(kind))])),
      Member(Ascii("message"), String(message))]))
  }

  function ErrorReply(id: Value, code: int, kind: Bytes, message: Bytes): Value {
    Object([ErrorOf(code, kind, message), Member(Ascii("id"), id), Member(Ascii("jsonrpc"), String(Ascii("2.0")))])
  }

  /** The reply that replaces one too large to send. */
  function TooLargeReply(id: Value): Value {
    ErrorReply(id, -32003, Ascii("RESPONSE_TOO_LARGE"), Ascii("response exceeds frame limit"))
  }

  /** What `control` queues for a value: None is the FrameTooLarge error. */
  function EncodeControl(v: Value): Option<Bytes> {
    if Encode(v).Some? then Encode(v)
    else match Get(v, Ascii("id"))
      case None => None
      case Some(id) => Encode(TooLargeReply(id))
  }

  // ----- Lines -----

  /** A frame on the wire: one line, newline included, within the limit. */
  ghost predicate IsFrame(f: Bytes) {
    0 < |f| <= MAX_FRAME && f[|f| - 1] == NEWLINE && OneLine(f[..|f| - 1])
  }

  datatype Failure = TooLong | Truncated | Broken
  datatype Outcome = Line(bytes: Bytes) | EndOfInput | Failed(failure: Failure)

  /** The position of the first newline, or the length when there is none. */
  function NewlineAt(s: Bytes): (i: nat)
    ensures i <= |s| && forall j :: 0 <= j < i ==> s[j] != NEWLINE
    ensures i < |s| ==> s[i] == NEWLINE
  {
    if s == [] || s[0] == NEWLINE then 0 else 1 + NewlineAt(s[1..])
  }

  /** What the next read owes for a stream of bytes, which ends in an error when broken. */
  function NextLine(stream: Bytes, broken: bool): Outcome {
    var i := NewlineAt(stream);
    if i < |stream| then
      if i + 1 > MAX_FRAME then Failed(TooLong) else Line(stream[..i + 1])
    else if |stream| > MAX_FRAME then Failed(TooLong)
    else if broken then Failed(Broken)
    else if stream == [] then EndOfInput
    else Failed(Truncated)
  }

  /** All lines of a stream, and how it ends. */
  function Lines(stream: Bytes, broken: bool): (seq<Bytes>, Outcome)
    decreases |stream|
  {
    match NextLine(stream, broken)
    case Line(f) =>
      var (rest, end) := Lines(stream[|f|..], broken);
      ([f] + rest, end)
    case last => ([], last)
  }

  /** The first newline, if it is one of the first 262144 bytes, ends the line; otherwise the way the input ends decides. */
  lemma NextLineExactly(stream: Bytes, broken: bool)
    ensures forall f :: NextLine(stream, broken) == Line(f) <==>
      0 < |f| <= 262144 && f <= stream && f[|f| - 1] == 10 && forall j :: 0 <= j < |f| - 1 ==> f[j] != 10
    ensures NextLine(stream, broken) == Failed(TooLong) <==>
      |stream| > 262144 && forall j :: 0 <= j < 262144 ==> stream[j] != 10
    ensures NextLine(stream, broken) == Failed(Broken) <==> broken && |stream| <= 262144 && 10 !in stream
    ensures NextLine(stream, broken) == Failed(Truncated) <==> !broken && 0 < |stream| <= 262144 && 10 !in stream
    ensures NextLine(stream, broken) == EndOfInput <==> !broken && stream == []
  {
    var i := NewlineAt(stream);
    assert i < |stream| ==> stream[i] in stream;
    assert forall j :: 0 <= j < i ==> stream[j] != 10;
    hide NewlineAt;
    forall f | 0 < |f| && f <= stream && f[|f| - 1] == 10 && forall j :: 0 <= j < |f| - 1 ==> f[j] != 10
      ensures |f| == i + 1 && f == stream[..i + 1]
    {
      assert stream[|f| - 1] == f[|f| - 1];
    }
  }

  /** A value is encoded as its printed form and a newline, exactly if that is within 262144 bytes. */
  lemma EncodedExactly(v: Value)
    ensures forall f :: Encode(v) == Some(f) <==> f == Print(v) + [10] && |f| <= 262144
  {
    hide Print;
  }

  lemma NewlineBeyond(a: Bytes, b: Bytes)
    requires OneLine(a)
    ensures NewlineAt(a + b) == |a| + NewlineAt(b)
  {
    var s := a + b;
    assert forall j :: 0 <= j < |s| ==> s[j] == if j < |a| then a[j] else b[j - |a|];
    assert forall j :: 0 <= j < |b| ==> b[j] == s[|a| + j];
  }

  // ----- The reader -----

  /** A buffered input: the buffers it will present, none of them empty, and how it ends. */
  class Reader {
    var buffers: seq<Bytes>
    const broken: bool

    ghost predicate Valid()
      reads this
    {
      forall b :: b in buffers ==> b != []
    }

    ghost function Stream(): Bytes
      reads this
    {
      Flatten(buffers)
    }

    constructor (buffers: seq<Bytes>, broken: bool)
      requires forall b :: b in buffers ==> b != []
      ensures Valid() && this.buffers == buffers && this.broken == broken
    {
      this.buffers, this.broken := buffers, broken;
    }

    /** None is an input error; an empty buffer is the end of input. */
    method FillBuf() returns (r: Option<Bytes>)
      requires Valid()
      ensures r == if buffers != [] then Some(buffers[0]) else if broken then None else Some([])
      ensures buffers != [] ==> r.value != []
    {
      assert buffers != [] ==> buffers[0] in buffers;
      r := if buffers != [] then Some(buffers[0]) else if broken then None else Some([]);
    }

    method Consume(n: nat)
      requires Valid() && buffers != [] && n <= |buffers[0]|
      modifies this
      ensures Valid()
      ensures old(Stream()) == old(buffers)[0][..n] + Stream()
      ensures n > 0 ==> |Stream()| < old(|Stream()|)
    {
      ghost var head, tail := buffers[0], buffers[1..];
      buffers := (if n == |buffers[0]| then [] else [buffers[0][n..]]) + buffers[1..];
      assert [head] + tail == old(buffers);
      if n == |head| {
        assert buffers == tail && head[..n] == head && forall b :: b in tail ==> b in [head] + tail;
      } else {
        assert buffers[0] == head[n..] && buffers[1..] == tail && forall b :: b in tail ==> b in [head] + tail;
        Assoc(head[..n], head[n..], Flatten(tail));
        assert head == head[..n] + head[n..];
      }
    }
  }

  /** A newline in the next buffer, after the bytes already in the frame. */
  lemma NewlineInBuffer(frame: Bytes, bytes: Bytes, tail: Bytes, broken: bool)
    requires OneLine(frame) && NewlineAt(bytes) < |bytes|
    ensures var whole := frame + bytes[..NewlineAt(bytes) + 1];
      && NextLine(frame + (bytes + tail), broken) == (if |whole| > MAX_FRAME then Failed(TooLong) else Line(whole))
      && (|whole| <= MAX_FRAME ==> IsFrame(whole))
  {
    var end, stream := NewlineAt(bytes), frame + (bytes + tail);
    NewlineBeyond(frame, bytes + tail);
    assert (bytes + tail)[end] == NEWLINE;
    assert forall j :: 0 <= j < end ==> (bytes + tail)[j] == bytes[j];
    assert NewlineAt(bytes + tail) == end;
    var whole := frame + bytes[..end + 1];
    assert stream[..|whole|] == whole;
    assert whole[..|whole| - 1] == frame + bytes[..end];
    assert OneLine(bytes[..end]);
  }

  /** No newline in the next buffer: it may still exceed the limit. */
  lemma NoNewlineInBuffer(frame: Bytes, bytes: Bytes, tail: Bytes, broken: bool)
    requires OneLine(frame) && NewlineAt(bytes) == |bytes|
    ensures OneLine(frame + bytes[..|bytes|])
    ensures |frame| + |bytes| > MAX_FRAME ==> NextLine(frame + (bytes + tail), broken) == Failed(TooLong)
  {
    assert bytes[..|bytes|] == bytes && OneLine(bytes);
    NewlineBeyond(frame, bytes + tail);
    NewlineBeyond(bytes, tail);
  }

  /** The incremental read: its result depends on the bytes only, not on how buffers cut them. */
  method ReadFrame(reader: Reader) returns (r: Outcome)
    requires reader.Valid()
    modifies reader
    ensures reader.Valid()
    ensures r == NextLine(old(reader.Stream()), reader.broken)
    ensures r.Line? ==> IsFrame(r.bytes) && old(reader.Stream()) == r.bytes + reader.Stream()
  {
    ghost var stream := reader.Stream();
    var frame: Bytes := [];
    assert stream == [] + reader.Stream();
    hide NextLine, IsFrame;
    while true
      invariant reader.Valid()
      invariant stream == frame + reader.Stream()
      invariant OneLine(frame) && |frame| <= MAX_FRAME
      decreases |reader.Stream()|
    {
      var filled := reader.FillBuf();
      if filled.None? || filled.value == [] {
        NothingLeft(frame, reader.broken);
        assert reader.Stream() == [] && stream == frame + [];
        return if filled.None? then Failed(Broken) else if frame == [] then EndOfInput else Failed(Truncated);
      }
      var bytes := filled.value;
      var end := NewlineAt(bytes);
      if end < |bytes| {
        NewlineInBuffer(frame, bytes, Flatten(reader.buffers[1..]), reader.broken);
      } else {
        NoNewlineInBuffer(frame, bytes, Flatten(reader.buffers[1..]), reader.broken);
      }
      var count := if end < |bytes| then end + 1 else |bytes|;
      if |frame| + count > MAX_FRAME {
        return Failed(TooLong);
      }
      ghost var before := frame;
      frame := frame + bytes[..count];
      reader.Consume(count);
      Assoc(before, bytes[..count], reader.Stream());
      if end < |bytes| {
        return Line(frame);
      }
    }
  }

  lemma NothingLeft(frame: Bytes, broken: bool)
    requires OneLine(frame) && |frame| <= MAX_FRAME
    ensures NextLine(frame + [], broken)
         == if broken then Failed(Broken) else if frame == [] then EndOfInput else Failed(Truncated)
  {
    assert frame + [] == frame;
  }

  /** Reads to the end, however the buffers cut the stream. */
  method ReadLines(reader: Reader) returns (lines: seq<Bytes>, last: Outcome)
    requires reader.Valid()
    modifies reader
    ensures (lines, last) == Lines(old(reader.Stream()), reader.broken)
  {
    lines := [];
    assert [] + Lines(reader.Stream(), reader.broken).0 == Lines(reader.Stream(), reader.broken).0;
    while true
      invariant reader.Valid()
      invariant Lines(old(reader.Stream()), reader.broken)
             == (lines + Lines(reader.Stream(), reader.broken).0, Lines(reader.Stream(), reader.broken).1)
      decreases |reader.Stream()|
    {
      ghost var before := reader.Stream();
      last := ReadFrame(reader);
      if !last.Line? {
        assert lines + [] == lines;
        return;
      }
      assert before[|last.bytes|..] == reader.Stream();
      Assoc(lines, [last.bytes], Lines(reader.Stream(), reader.broken).0);
      lines := lines + [last.bytes];
    }
  }

  // ----- Round trips -----

  lemma NextIsFrame(stream: Bytes, broken: bool)
    ensures var r := NextLine(stream, broken);
      && (r.Line? ==> IsFrame(r.bytes) && stream == r.bytes + stream[|r.bytes|..])
      && (r.EndOfInput? ==> stream == [])
  {
    var r := NextLine(stream, broken);
    if r.Line? {
      assert r.bytes[..|r.bytes| - 1] == stream[..NewlineAt(stream)];
    }
  }

  /** Reading splits a stream into frames and loses nothing before the end. */
  lemma {:induction false} LinesAreFrames(stream: Bytes, broken: bool)
    ensures forall f :: f in Lines(stream, broken).0 ==> IsFrame(f)
    ensures Flatten(Lines(stream, broken).0) <= stream
    ensures Lines(stream, broken).1.EndOfInput? ==> Flatten(Lines(stream, broken).0) == stream
    decreases |stream|
  {
    hide IsFrame, NextLine;
    NextIsFrame(stream, broken);
    var r := NextLine(stream, broken);
    if r.Line? {
      assert |r.bytes| > 0 by { FrameNotEmpty(r.bytes); }
      LinesAreFrames(stream[|r.bytes|..], broken);
    }
  }

  lemma FrameNotEmpty(f: Bytes)
    requires IsFrame(f)
    ensures f != []
  {
  }

  /** Frames written one after another are read back one by one. */
  lemma {:induction false} FramesReadBack(frames: seq<Bytes>)
    requires forall f :: f in frames ==> IsFrame(f)
    ensures Lines(Flatten(frames), false) == (frames, EndOfInput)
  {
    if frames != [] {
      assert frames[0] in frames;
      var f, rest := frames[0], Flatten(frames[1..]);
      var stream := f + rest;
      assert f == f[..|f| - 1] + [NEWLINE];
      Assoc(f[..|f| - 1], [NEWLINE], rest);
      NewlineBeyond(f[..|f| - 1], [NEWLINE] + rest);
      assert NewlineAt([NEWLINE] + rest) == 0;
      assert stream[..|f|] == f && stream[|f|..] == rest;
      assert NextLine(stream, false) == Line(f);
      FramesReadBack(frames[1..]);
      hide NextLine;
      assert Flatten(frames) == stream && frames == [f] + frames[1..];
    }
  }

  lemma EncodeIsFrame(v: Value)
    requires Encode(v).Some?
    ensures IsFrame(Encode(v).value)
  {
    PrintOneLine(v);
    assert Encode(v).value[..|Print(v)|] == Print(v);
  }

  lemma ControlIsFrame(v: Value)
    requires EncodeControl(v).Some?
    ensures IsFrame(EncodeControl(v).value)
  {
    hide TooLargeReply, IsFrame;
    if Encode(v).Some? {
      EncodeIsFrame(v);
    } else {
      EncodeIsFrame(TooLargeReply(Get(v, Ascii("id")).value));
    }
  }

  /** The output of the encoder, concatenated, splits back into exactly its frames. */
  lemma EncodedReadBack(values: seq<Value>, frames: seq<Bytes>)
    requires |frames| == |values|
    requires forall i :: 0 <= i < |values| ==> EncodeControl(values[i]) == Some(frames[i])
    ensures Lines(Flatten(frames), false) == (frames, EndOfInput)
  {
    hide EncodeControl, IsFrame, Lines, Flatten;
    forall f | f in frames ensures IsFrame(f) {
      var i :| 0 <= i < |frames| && frames[i] == f;
      ControlIsFrame(values[i]);
    }
    FramesReadBack(frames);
  }

  /** An oversized reply never loses its request: with an admitted ID the replacement fits. */
  lemma OversizeKeepsRequest(v: Value, id: Bytes)
    requires Get(v, Ascii("id")) == Some(String(id)) && |id| <= MAX_ID
    ensures EncodeControl(v).Some?
    ensures Encode(v).None? ==>
      && EncodeControl(v) == Encode(TooLargeReply(String(id)))
      && Get(TooLargeReply(String(id)), Ascii("id")) == Some(String(id))
  {
    hide Ascii, Encode, Integer;
    ErrorReplyFits(String(id), -32003, Ascii("RESPONSE_TOO_LARGE"), Ascii("response exceeds frame limit"));
    var members, key := TooLargeReply(String(id)).members, Ascii("id");
    assert |members[0].key| == 5 && |key| == 2 && members[1] == Member(key, String(id));
    assert Find(members, key) == Find(members[1..], key);
  }

  lemma PrintTextLength(s: Bytes)
    ensures |PrintText(s)| <= 2 + 6 * |s|
  {
    EscapeOneLine(s);
  }

  lemma {:induction false} MembersLength(members: seq<Member>, each: nat)
    requires forall m :: m in members ==> |PrintMember(m)| <= each
    ensures |PrintMembers(members)| <= (each + 1) * |members|
  {
    hide PrintMember;
    if members != [] {
      assert members[0] in members;
      MembersLength(members[1..], each);
      assert (each + 1) * |members| == (each + 1) + (each + 1) * (|members| - 1);
    }
  }

  lemma TextMemberLength(m: Member)
    requires m.value.String?
    ensures |PrintMember(m)| <= 5 + 6 * |m.key| + 6 * |m.value.text|
  {
    PrintTextLength(m.key);
    PrintTextLength(m.value.text);
  }

  // ----- Error replies always fit a frame -----

  const MAX_KIND: nat := 32

  ghost predicate Brief(code: int, kind: Bytes, message: Bytes) {
    -100000 < code < 100000 && |kind| <= MAX_KIND && |message| <= MAX_MESSAGE
  }

  ghost predicate ShortId(id: Value) {
    id.Null? || (id.String? && |id.text| <= MAX_ID)
  }

  lemma CodePrints(code: int)
    requires -100000 < code < 100000
    ensures |Print(Integer(code))| <= 6
  {
    assert Power(5) == 100000;
    DigitsLength(if code < 0 then -code else code, 5);
  }

  lemma ErrorPrints(code: int, kind: Bytes, message: Bytes)
    requires Brief(code, kind, message)
    ensures |PrintMember(ErrorOf(code, kind, message))| <= 80000
  {
    hide Ascii, Escape, PrintMembers, PrintText, Integer;
    var kindMember := Member(Ascii("kind"), String(kind));
    TextMemberLength(kindMember);
    MembersLength([kindMember], 300);
    var codeMember, data := Member(Ascii("code"), Integer(code)), Member(Ascii("data"), Object([kindMember]));
    var messageMember := Member(Ascii("message"), String(message));
    CodePrints(code);
    PrintTextLength(codeMember.key);
    PrintTextLength(data.key);
    TextMemberLength(messageMember);
    MembersLength([codeMember, data, messageMember], 25000);
    PrintTextLength(Ascii("error"));
  }

  lemma IdPrints(id: Value)
    requires ShortId(id)
    ensures |PrintMember(Member(Ascii("id"), id))| <= 1000
  {
    hide Ascii, Escape, PrintText;
    PrintTextLength(Ascii("id"));
    if id.String? {
      PrintTextLength(id.text);
    }
  }

  /** An error reply fits whatever its message and its ID say. */
  lemma ErrorReplyFits(id: Value, code: int, kind: Bytes, message: Bytes)
    requires ShortId(id) && Brief(code, kind, message)
    ensures Encode(ErrorReply(id, code, kind, message)).Some?
  {
    hide Ascii, Escape, PrintMembers, PrintText, Integer;
    var idMember, version := Member(Ascii("id"), id), Member(Ascii("jsonrpc"), String(Ascii("2.0")));
    ErrorPrints(code, kind, message);
    IdPrints(id);
    TextMemberLength(version);
    MembersLength([ErrorOf(code, kind, message), idMember, version], 80000);
  }
}
