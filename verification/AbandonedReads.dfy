/**
  Reads that the request loop gives up (src/protocol.rs:171-195, 236-246): when a request
  task ends, the loop drops the read it was waiting for, and with it the bytes of an
  unfinished line that the read had consumed already.
 */
module AbandonedReads {
  import opened Prelude
  import opened Json
  import opened OutboxModel
  import opened Framing

  /**
    A read that may be dropped while it waits for its next buffer: None. `patience` is the
    number of buffers it lives to see, each at least a byte. What it loses is part of one line.
   */
  method ReadUnlessDropped(reader: Reader, patience: nat) returns (r: Option<Outcome>, ghost lost: nat)
    requires reader.Valid()
    modifies reader
    ensures reader.Valid()
    ensures r.Some? ==> lost == 0 && r.value == NextLine(old(reader.Stream()), reader.broken)
    ensures r.Some? && r.value.Line? ==> old(reader.Stream()) == r.value.bytes + reader.Stream()
    ensures r.None? ==>
      patience <= lost <= NewlineAt(old(reader.Stream())) && reader.Stream() == old(reader.Stream())[lost..]
  {
    ghost var stream := reader.Stream();
    var frame: Bytes := [];
    lost := 0;
    hide NextLine, IsFrame;
    for n := 0 to patience
      invariant reader.Valid()
      invariant stream == frame + reader.Stream()
      invariant OneLine(frame) && n <= |frame| <= MAX_FRAME
    {
      var filled := reader.FillBuf();
      if filled.None? || filled.value == [] {
        NothingLeft(frame, reader.broken);
        assert reader.Stream() == [] && stream == frame + [];
        r := Some(if filled.None? then Failed(Broken) else if frame == [] then EndOfInput else Failed(Truncated));
        return;
      }
      var bytes := filled.value;
      var end := NewlineAt(bytes);
      if end < |bytes| {
        NewlineInBuffer(frame, bytes, Flatten(reader.buffers[1..]), reader.broken);
      } else {
        NoNewlineInBuffer(frame, bytes, Flatten(reader.buffers[1..]), reader.broken);
      }
      var count := if end < |bytes| then end + 1 else |bytes|;
      if |frame| + count > MAX_FRAME {
        r := Some(Failed(TooLong));
        return;
      }
      ghost var before := frame;
      frame := frame + bytes[..count];
      reader.Consume(count);
      Assoc(before, bytes[..count], reader.Stream());
      if end < |bytes| {
        r := Some(Line(frame));
        return;
      }
    }
    r, lost := None, |frame|;
    NewlineBeyond(frame, reader.Stream());
  }

  // ----- What the loop hears -----

  /** What the abandoned reads before each completed one lost. */
  type Losses = seq<nat>

  /** Reads consume no newline without completing. */
  predicate Possible(stream: Bytes, broken: bool, losses: Losses)
    decreases |losses|, 1
  {
    losses != [] ==> losses[0] <= NewlineAt(stream) && Completes(stream[losses[0]..], broken, losses[1..])
  }

  predicate Completes(rest: Bytes, broken: bool, later: Losses)
    decreases |later|, 2
  {
    match NextLine(rest, broken)
    case Line(f) => Possible(rest[|f|..], broken, later)
    case _ => later == []
  }

  /** The lines the completed reads return, and how the last of them ends, if they got that far. */
  function Heard(stream: Bytes, broken: bool, losses: Losses): (seq<Bytes>, Option<Outcome>)
    requires Possible(stream, broken, losses)
    decreases |losses|, 1
  {
    if losses == [] then ([], None) else HeardFrom(stream[losses[0]..], broken, losses[1..])
  }

  /** From where a completed read begins. */
  function HeardFrom(rest: Bytes, broken: bool, later: Losses): (seq<Bytes>, Option<Outcome>)
    requires Completes(rest, broken, later)
    decreases |later|, 2
  {
    match NextLine(rest, broken)
    case Line(f) =>
      var (lines, end) := Heard(rest[|f|..], broken, later);
      ([f] + lines, end)
    case last => ([], Some(last))
  }

  /** Bytes lost just before, by further reads that were dropped. */
  ghost function Delayed(lost: nat, losses: Losses): Losses {
    if losses == [] then [] else [lost + losses[0]] + losses[1..]
  }

  lemma SliceTwice(stream: Bytes, a: nat, b: nat)
    requires a + b <= |stream|
    ensures stream[a..][b..] == stream[a + b..]
  {
  }

  lemma DelayedParts(lost: nat, losses: Losses)
    ensures losses == [] <==> Delayed(lost, losses) == []
    ensures losses != [] ==> Delayed(lost, losses)[0] == lost + losses[0] && Delayed(lost, losses)[1..] == losses[1..]
  {
  }

  lemma DelayedHeard(stream: Bytes, broken: bool, lost: nat, losses: Losses)
    requires lost <= NewlineAt(stream) && Possible(stream[lost..], broken, losses)
    ensures Possible(stream, broken, Delayed(lost, losses))
    ensures Heard(stream, broken, Delayed(lost, losses)) == Heard(stream[lost..], broken, losses)
  {
    hide NewlineAt, Completes, HeardFrom, Delayed;
    DelayedParts(lost, losses);
    if losses != [] {
      NewlineAfter(stream, lost);
      var more := losses[0];
      SliceTwice(stream, lost, more);
    }
  }

  /**
    The loop's reads, one patience each: what they return is what the abandoned ones leave
    to hear. Every read that meets a buffer consumes something.
   */
  method HearLines(reader: Reader, patience: seq<nat>)
    returns (lines: seq<Bytes>, last: Option<Outcome>, ghost losses: Losses)
    requires reader.Valid()
    modifies reader
    ensures reader.Valid() && Possible(old(reader.Stream()), reader.broken, losses)
    ensures (lines, last) == Heard(old(reader.Stream()), reader.broken, losses)
    ensures last.None? && (forall p :: p in patience ==> p > 0) ==> |reader.Stream()| + |patience| <= old(|reader.Stream()|)
    decreases |patience|
  {
    ghost var stream := reader.Stream();
    if patience == [] {
      return [], None, [];
    }
    hide NextLine, NewlineAt;
    assert stream[0..] == stream;
    var r;
    ghost var lost;
    r, lost := ReadUnlessDropped(reader, patience[0]);
    assert patience[0] in patience && forall p :: p in patience[1..] ==> p in patience;
    if r.Some? && r.value.Line? {
      NextIsFrame(stream, reader.broken);
      FrameNotEmpty(r.value.bytes);
    }
    if r.None? {
      lines, last, losses := HearLines(reader, patience[1..]);
      DelayedHeard(stream, reader.broken, lost, losses);
      losses := Delayed(lost, losses);
    } else if r.value.Line? {
      assert stream[|r.value.bytes|..] == reader.Stream();
      ghost var later;
      lines, last, later := HearLines(reader, patience[1..]);
      lines, losses := [r.value.bytes] + lines, [0] + later;
      assert losses[1..] == later && stream[losses[0]..] == stream;
    } else {
      lines, last, losses := [], Some(r.value), [0];
    }
  }

  ghost predicate Intact(losses: Losses) {
    forall n :: n in losses ==> n == 0
  }

  /**
    A loss is without effect only in a line that fails in the same way with and without
    it, and that ends the session.
   */
  predicate Harmless(stream: Bytes, broken: bool, losses: Losses)
    requires Possible(stream, broken, losses)
  {
    losses == [] ||
    if losses[0] > 0 then !NextLine(stream, broken).Line? && NextLine(stream[losses[0]..], broken) == NextLine(stream, broken)
    else match NextLine(stream, broken)
      case Line(f) => WithoutLoss(stream, broken, losses); Harmless(stream[|f|..], broken, losses[1..])
      case _ => true
  }

  lemma WithoutLoss(stream: Bytes, broken: bool, losses: Losses)
    requires Possible(stream, broken, losses) && losses != [] && losses[0] == 0
    ensures stream[losses[0]..] == stream
    ensures NextLine(stream, broken).Line? ==> Possible(stream[|NextLine(stream, broken).bytes|..], broken, losses[1..])
  {
    assert stream[0..] == stream;
  }

  /** Losing the start of a line leaves its end, which then passes for a line. */
  lemma RestOfLine(stream: Bytes, broken: bool, k: nat)
    requires NextLine(stream, broken).Line? && k <= NewlineAt(stream)
    ensures k < |NextLine(stream, broken).bytes|
    ensures NextLine(stream[k..], broken) == Line(NextLine(stream, broken).bytes[k..])
  {
    NewlineAfter(stream, k);
    hide NewlineAt;
    SliceBoth(stream, k, NewlineAt(stream) + 1);
  }

  lemma SliceBoth(stream: Bytes, k: nat, n: nat)
    requires k <= n <= |stream|
    ensures stream[k..][..n - k] == stream[..n][k..]
  {
  }

  lemma NewlineAfter(stream: Bytes, k: nat)
    requires k <= NewlineAt(stream)
    ensures NewlineAt(stream[k..]) == NewlineAt(stream) - k
  {
    assert stream == stream[..k] + stream[k..];
    NewlineBeyond(stream[..k], stream[k..]);
  }

  /**
    The loop hears what the input says, line by line and with the same end, exactly if the
    reads it abandoned were harmless.
   */
  lemma {:induction false} HeardExactly(stream: Bytes, broken: bool, losses: Losses)
    requires Possible(stream, broken, losses) && Heard(stream, broken, losses).1.Some?
    ensures var (lines, last) := Lines(stream, broken);
      Heard(stream, broken, losses) == (lines, Some(last)) <==> Harmless(stream, broken, losses)
    decreases |losses|
  {
    hide NextLine, NewlineAt;
    var k, whole := losses[0], NextLine(stream, broken);
    if k == 0 {
      WithoutLoss(stream, broken, losses);
      if whole.Line? {
        NextIsFrame(stream, broken);
        HeardExactly(stream[|whole.bytes|..], broken, losses[1..]);
        SameHead(whole.bytes, Heard(stream[|whole.bytes|..], broken, losses[1..]).0, Lines(stream[|whole.bytes|..], broken).0);
      }
    } else if whole.Line? {
      RestOfLine(stream, broken, k);
      NextIsFrame(stream, broken);
      ShorterDiffers(whole.bytes, k);
      assert Heard(stream, broken, losses).0[0] == whole.bytes[k..] && Lines(stream, broken).0[0] == whole.bytes;
    }
  }

  lemma SameHead(f: Bytes, a: seq<Bytes>, b: seq<Bytes>)
    ensures [f] + a == [f] + b <==> a == b
  {
    assert ([f] + a)[1..] == a && ([f] + b)[1..] == b;
  }

  lemma ShorterDiffers(f: Bytes, k: nat)
    requires IsFrame(f) && k > 0
    ensures k <= |f| ==> f[k..] != f
  {
  }

  /** Of input whose lines all fit and end cleanly, every line is heard exactly if no abandoned read consumed a byte. */
  lemma {:induction false} IntactExactly(stream: Bytes, losses: Losses)
    requires Possible(stream, false, losses) && Heard(stream, false, losses).1.Some?
    requires Lines(stream, false).1 == EndOfInput
    ensures Heard(stream, false, losses) == (Lines(stream, false).0, Some(EndOfInput)) <==> Intact(losses)
  {
    HeardExactly(stream, false, losses);
    HarmlessIsIntact(stream, losses);
  }

  lemma {:induction false} HarmlessIsIntact(stream: Bytes, losses: Losses)
    requires Possible(stream, false, losses) && Lines(stream, false).1 == EndOfInput
    ensures Harmless(stream, false, losses) <==> Intact(losses)
    decreases |losses|
  {
    if losses != [] {
      var whole := NextLine(stream, false);
      NextIsFrame(stream, false);
      if losses[0] == 0 {
        WithoutLoss(stream, false, losses);
        hide NextLine, NewlineAt;
        if whole.Line? {
          HarmlessIsIntact(stream[|whole.bytes|..], losses[1..]);
        }
        assert Intact(losses) <==> Intact(losses[1..]) by { FirstZero(losses); }
      } else {
        assert losses[0] in losses;
      }
    }
  }

  lemma FirstZero(losses: Losses)
    requires losses != [] && losses[0] == 0
    ensures Intact(losses) <==> Intact(losses[1..])
  {
    assert forall n :: n in losses <==> n == losses[0] || n in losses[1..];
  }

  /** A request of two bytes is heard without its first one, and passes for a malformed line. */
  lemma RequestMangled()
    ensures var stream, line := [123, 125, NEWLINE], [125, NEWLINE];
      && Possible(stream, false, [1, 0])
      && Heard(stream, false, [1, 0]) == ([line], Some(EndOfInput))
      && Lines(stream, false) == ([stream], EndOfInput)
  {
    var stream: Bytes, line: Bytes, nothing: Bytes := [123, 125, NEWLINE], [125, NEWLINE], [];
    var losses: Losses := [1, 0];
    assert stream[1..] == line && stream[3..] == nothing && stream[..3] == stream && line[..2] == line;
    assert line[1..] == [NEWLINE] && NewlineAt([NEWLINE]) == 0 && NewlineAt(line) == 1 && NewlineAt(stream) == 2;
    assert NextLine(stream, false) == Line(stream) && NextLine(line, false) == Line(line);
    assert NextLine(nothing, false) == EndOfInput && nothing[0..] == nothing;
    assert stream[losses[0]..] == line && line[|line|..] == nothing && stream[|stream|..] == nothing;
    assert [line] + [] == [line] && [stream] + [] == [stream];
    assert losses[1..] == [0] && losses[1..][1..] == [];
    assert Possible(nothing, false, losses[1..]) && Heard(nothing, false, losses[1..]) == ([], Some(EndOfInput));
    assert Lines(nothing, false) == ([], EndOfInput);
  }
}
