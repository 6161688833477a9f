/**
  The streaming keyword matcher of examples/web_keyword.c: a Knuth-Morris-Pratt
  failure table, and a match state carried from one page chunk to the next.
  It is proved against plain substring search on the whole text.
 */
module KeywordMatcher {
  import opened Prelude

  const KEYWORD_CAPACITY: nat := 128
  const CHUNK_CAPACITY: nat := 1024

  // ----- Plain substring search -----

  ghost predicate OccursAt(p: Bytes, text: Bytes, at: nat) {
    at + |p| <= |text| && text[at..at + |p|] == p
  }

  ghost predicate Occurs(p: Bytes, text: Bytes) {
    exists at: nat :: OccursAt(p, text, at)
  }

  /** The first k bytes of p are the last k bytes of the text. */
  ghost predicate Ends(p: Bytes, text: Bytes, k: nat) {
    k <= |p| && k <= |text| && p[..k] == text[|text| - k..]
  }

  ghost predicate Longest(p: Bytes, text: Bytes, k: nat) {
    Ends(p, text, k) && forall j: nat :: Ends(p, text, j) ==> j <= k
  }

  /** k is the length of a proper border of w: a prefix that is also a suffix. */
  ghost predicate Border(w: Bytes, k: nat) {
    k < |w| && w[..k] == w[|w| - k..]
  }

  ghost predicate LongestBorder(w: Bytes, k: nat) {
    Border(w, k) && forall j: nat :: Border(w, j) ==> j <= k
  }

  /** pi[i] is the length of the longest proper border of p[..i+1]. */
  ghost predicate IsFailureTable(p: Bytes, pi: seq<nat>) {
    |pi| <= |p| && forall i :: 0 <= i < |pi| ==> LongestBorder(p[..i + 1], pi[i])
  }

  lemma TableGrows(p: Bytes, pi: seq<nat>, k: nat)
    requires IsFailureTable(p, pi) && |pi| < |p| && LongestBorder(p[..|pi| + 1], k)
    ensures IsFailureTable(p, pi + [k])
  {
  }

  // ----- How matches grow by one byte -----

  lemma EndsGrows(p: Bytes, text: Bytes, c: byte, j: nat)
    ensures Ends(p, text + [c], j + 1) <==> j < |p| && p[j] == c && Ends(p, text, j)
  {
    var longer := text + [c];
    if j < |p| && j <= |text| {
      assert p[..j + 1] == p[..j] + [p[j]];
      assert longer[|longer| - (j + 1)..] == text[|text| - j..] + [c];
      if p[..j + 1] == longer[|longer| - (j + 1)..] {
        assert p[j] == p[..j + 1][j] == c;
        assert p[..j] == p[..j + 1][..j] == text[|text| - j..];
      }
    }
  }

  lemma OccursGrows(p: Bytes, text: Bytes, c: byte)
    ensures Occurs(p, text + [c]) <==> Occurs(p, text) || Ends(p, text + [c], |p|)
  {
    var longer := text + [c];
    if at: nat :| OccursAt(p, text, at) {
      assert longer[at..at + |p|] == text[at..at + |p|];
      assert OccursAt(p, longer, at);
    }
    if Ends(p, longer, |p|) {
      assert p[..|p|] == p;
      assert longer[|longer| - |p|..] == longer[|longer| - |p|..(|longer| - |p|) + |p|];
      assert OccursAt(p, longer, |longer| - |p|);
    }
    if at: nat :| OccursAt(p, longer, at) {
      if at + |p| == |longer| {
        assert p[..|p|] == longer[|longer| - |p|..];
      } else {
        assert longer[at..at + |p|] == text[at..at + |p|];
        assert OccursAt(p, text, at);
      }
    }
  }

  lemma OccursInPrefix(p: Bytes, text: Bytes, more: Bytes)
    requires Occurs(p, text)
    ensures Occurs(p, text + more)
  {
    var at: nat :| OccursAt(p, text, at);
    assert (text + more)[at..at + |p|] == text[at..at + |p|];
    assert OccursAt(p, text + more, at);
  }

  /** Below a match of length m, matches are exactly the borders of p[..m]. */
  lemma EndsInside(p: Bytes, text: Bytes, m: nat, j: nat)
    requires Ends(p, text, m) && j < m
    ensures Ends(p, text, j) <==> Border(p[..m], j)
  {
    assert p[..m][..j] == p[..j];
    assert p[..m][m - j..] == text[|text| - m..][m - j..] == text[|text| - j..];
  }

  /** A proper border of w is the same as a match of w against w without its first byte. */
  lemma BorderIsMatch(p: Bytes, i: nat, j: nat)
    requires i < |p|
    ensures Border(p[..i + 1], j) <==> Ends(p, p[1..i + 1], j)
  {
    if j <= i {
      assert p[..i + 1][..j] == p[..j];
      assert p[..i + 1][i + 1 - j..] == p[1..i + 1][i - j..];
    }
  }

  lemma LongestBorderIsMatch(p: Bytes, i: nat, k: nat)
    requires i < |p|
    ensures LongestBorder(p[..i + 1], k) <==> Longest(p, p[1..i + 1], k)
  {
    var whole, rest := p[..i + 1], p[1..i + 1];
    forall j: nat ensures Border(whole, j) <==> Ends(p, rest, j) {
      BorderIsMatch(p, i, j);
    }
  }

  // ----- One byte of the automaton -----

  /** m is still a match of the text, and no match of the text and c is longer than m + 1. */
  ghost predicate Candidate(p: Bytes, text: Bytes, c: byte, m: nat) {
    && Ends(p, text, m)
    && var longer := text + [c];
       forall j: nat :: Ends(p, longer, j) ==> j <= m + 1
  }

  lemma CandidateStarts(p: Bytes, text: Bytes, c: byte, m: nat)
    requires Longest(p, text, m)
    ensures Candidate(p, text, c, m)
  {
    var longer := text + [c];
    forall j: nat | Ends(p, longer, j) ensures j <= m + 1 {
      if j > 0 {
        EndsGrows(p, text, c, j - 1);
      }
    }
  }

  /** Following the failure table keeps the candidate. */
  lemma CandidateFalls(p: Bytes, text: Bytes, c: byte, m: nat, f: nat)
    requires Candidate(p, text, c, m) && 0 < m < |p| && p[m] != c
    requires LongestBorder(p[..m], f)
    ensures f < m && Candidate(p, text, c, f)
  {
    EndsInside(p, text, m, f);
    var longer := text + [c];
    forall j: nat | Ends(p, longer, j) ensures j <= f + 1 {
      if j > 0 {
        EndsGrows(p, text, c, j - 1);
        if j - 1 < m {
          EndsInside(p, text, m, j - 1);
        }
      }
    }
  }

  lemma CandidateEnds(p: Bytes, text: Bytes, c: byte, m: nat)
    requires Candidate(p, text, c, m) && m < |p|
    requires m == 0 || p[m] == c
    ensures Longest(p, text + [c], if p[m] == c then m + 1 else 0)
  {
    EndsGrows(p, text, c, m);
    var k := if p[m] == c then m + 1 else 0;
    var longer := text + [c];
    assert Ends(p, longer, k);
    forall j: nat | Ends(p, longer, j) ensures j <= k {
      if j > 0 {
        EndsGrows(p, text, c, j - 1);
      }
    }
  }

  // ----- The program -----

  /**
    One byte: fall back along the table while the next keyword byte differs, then
    extend. Both loops of the program do this; `filled` entries of the table exist.
   */
  method Advance(keyword: array<byte>, length: nat, prefix: array<nat>, filled: nat, c: byte, from: nat,
                 ghost seen: Bytes)
    returns (matched: nat, ghost steps: nat)
    requires 0 < length <= keyword.Length && filled <= prefix.Length
    requires IsFailureTable(keyword[..length], prefix[..filled])
    requires from < length && from <= filled
    requires Longest(keyword[..length], seen, from)
    ensures Longest(keyword[..length], seen + [c], matched)
    ensures steps + matched <= from + 1
  {
    ghost var p := keyword[..length];
    matched, steps := from, 0;
    CandidateStarts(p, seen, c, matched);
    while matched != 0 && c != keyword[matched]
      invariant matched <= from
      invariant Candidate(p, seen, c, matched)
      invariant steps + matched <= from
    {
      assert LongestBorder(p[..matched], prefix[..filled][matched - 1]);
      CandidateFalls(p, seen, c, matched, prefix[matched - 1]);
      matched := prefix[matched - 1];
      steps := steps + 1;
    }
    CandidateEnds(p, seen, c, matched);
    if c == keyword[matched] {
      matched := matched + 1;
    }
  }

  /** The failure-table loop. `steps` counts the iterations of the inner loop. */
  method BuildTable(keyword: array<byte>, length: nat, prefix: array<nat>) returns (ghost steps: nat)
    requires 0 < length <= keyword.Length && length <= prefix.Length
    modifies prefix
    ensures IsFailureTable(keyword[..length], prefix[..length])
    ensures steps < length
  {
    ghost var p := keyword[..length];
    prefix[0] := 0;
    steps := 0;
    assert Border(p[..1], 0);
    assert prefix[..1] == [0];
    var j: nat := 0;
    for i := 1 to length
      invariant j < i
      invariant IsFailureTable(p, prefix[..i])
      invariant Longest(p, p[1..i], j)
      invariant steps + j < i
    {
      ghost var before, table := p[1..i], prefix[..i];
      ghost var more;
      j, more := Advance(keyword, length, prefix, i, keyword[i], j, before);
      steps := steps + more;
      assert p[1..i + 1] == before + [p[i]];
      LongestBorderIsMatch(p, i, j);
      TableGrows(p, table, j);
      prefix[i] := j;
      assert prefix[..i + 1] == table + [j];
    }
  }

  /**
    The scan of one chunk. `text` is what earlier chunks of the pass held,
    `scanned` the number of bytes looked at, `steps` the fallback steps taken.
   */
  method ScanChunk(
    keyword: array<byte>, length: nat, prefix: array<nat>,
    chunk: array<byte>, bytes: nat, before: nat, ghost text: Bytes)
    returns (matched: nat, found: bool, ghost scanned: nat, ghost steps: nat)
    requires 0 < length <= keyword.Length && length <= prefix.Length && bytes <= chunk.Length
    requires IsFailureTable(keyword[..length], prefix[..length])
    requires !Occurs(keyword[..length], text)
    requires Longest(keyword[..length], text, before)
    ensures found <==> Occurs(keyword[..length], text + chunk[..bytes])
    ensures scanned <= bytes
    ensures found ==>
      && 0 < scanned
      && Ends(keyword[..length], text + chunk[..scanned], length)
      && !Occurs(keyword[..length], text + chunk[..scanned - 1])
    ensures !found ==> scanned == bytes && matched < length
    ensures Longest(keyword[..length], text + chunk[..scanned], matched)
    ensures steps + matched <= before + scanned
  {
    ghost var p := keyword[..length];
    matched, found, scanned, steps := before, false, 0, 0;
    NotWhole(p, text, before);
    assert text + chunk[..0] == text;
    var i := 0;
    while i < bytes
      invariant 0 <= i <= bytes && i == scanned && matched < length
      invariant Longest(p, text + chunk[..i], matched)
      invariant !Occurs(p, text + chunk[..i])
      invariant steps + matched <= before + i
    {
      ghost var seen, more := text + chunk[..i], 0;
      matched, more := Advance(keyword, length, prefix, length, chunk[i], matched, seen);
      steps := steps + more;
      scanned := i + 1;
      OccursGrows(p, seen, chunk[i]);
      assert text + chunk[..i + 1] == seen + [chunk[i]];
      if matched == length {
        found := true;
        OccursInPrefix(p, seen + [chunk[i]], chunk[i + 1..bytes]);
        assert text + chunk[..bytes] == seen + [chunk[i]] + chunk[i + 1..bytes];
        return;
      }
      i := i + 1;
    }
  }

  lemma NotWhole(p: Bytes, text: Bytes, k: nat)
    requires !Occurs(p, text) && Ends(p, text, k)
    ensures k < |p|
  {
    if k == |p| {
      assert p[..k] == p;
      assert text[|text| - k..] == text[|text| - k..(|text| - k) + |p|];
      assert OccursAt(p, text, |text| - k);
    }
  }

  // ----- One pass over the page, and the whole program -----

  /** A host call either fails with a negative status or yields a page chunk. */
  datatype Reply =
    | Refused(status: int)
    | Page(data: Option<Bytes>, done: bool, next: Option<int>)

  /** How a pass ends when the keyword was not found: Waiting means no reply has come yet. */
  datatype Ending = Refusal | GaveUp | Waiting

  predicate Readable(reply: Reply) {
    reply.Page? && reply.data.Some? && |reply.data.value| <= CHUNK_CAPACITY
  }

  predicate Continues(reply: Reply, offset: int)
    requires Readable(reply)
  {
    !reply.done && reply.next.Some? && reply.next.value > offset
  }

  /** The text a pass reads when it asks first for `offset` and never stops early. */
  function PassText(replies: seq<Reply>, offset: int): Bytes {
    if replies == [] || !Readable(replies[0]) then []
    else
      replies[0].data.value +
      if Continues(replies[0], offset) then PassText(replies[1..], replies[0].next.value) else []
  }

  function PassEnding(replies: seq<Reply>, offset: int): Ending {
    if replies == [] then Waiting
    else if replies[0].Refused? && (replies[0].status == DENIED || replies[0].status == INVALID) then Refusal
    else if !Readable(replies[0]) || !Continues(replies[0], offset) then GaveUp
    else PassEnding(replies[1..], replies[0].next.value)
  }

  /** The offsets such a pass asks for until it has read n bytes, or to its end. */
  function OffsetsFor(replies: seq<Reply>, offset: int, n: nat): seq<int> {
    [offset] +
    if replies != [] && Readable(replies[0]) && Continues(replies[0], offset) && |replies[0].data.value| < n
    then OffsetsFor(replies[1..], replies[0].next.value, n - |replies[0].data.value|)
    else []
  }

  /** All offsets such a pass asks for. */
  function PassOffsets(replies: seq<Reply>, offset: int): seq<int> {
    [offset] +
    if replies != [] && Readable(replies[0]) && Continues(replies[0], offset)
    then PassOffsets(replies[1..], replies[0].next.value)
    else []
  }

  ghost predicate Increasing(s: seq<int>) {
    forall i, j :: 0 <= i < j < |s| ==> s[i] < s[j]
  }

  /** Each request of a pass asks further on, and stopping early only leaves requests out. */
  lemma {:induction false} OffsetsIncrease(replies: seq<Reply>, offset: int, n: nat)
    ensures Increasing(PassOffsets(replies, offset)) && PassOffsets(replies, offset)[0] == offset
    ensures OffsetsFor(replies, offset, n) <= PassOffsets(replies, offset)
  {
    if replies != [] && Readable(replies[0]) && Continues(replies[0], offset) {
      var read, next := |replies[0].data.value|, replies[0].next.value;
      OffsetsIncrease(replies[1..], next, if read < n then n - read else 0);
      var rest := PassOffsets(replies[1..], next);
      forall j | 0 <= j < |rest| ensures next <= rest[j] {
        assert j > 0 ==> rest[0] < rest[j];
      }
    }
  }

  /**
    Offset k + 1 is asked for exactly if reply k is a page with up to 1024 bytes that is
    not done and names a later offset, and then it is that offset.
   */
  lemma {:induction false} AskedExactly(replies: seq<Reply>, offset: int, k: nat)
    requires k < |PassOffsets(replies, offset)|
    ensures var asked := PassOffsets(replies, offset);
      && asked[0] == offset && k <= |replies|
      && (k + 1 < |asked| <==>
            && k < |replies| && replies[k].Page? && replies[k].data.Some? && |replies[k].data.value| <= 1024
            && !replies[k].done && replies[k].next.Some? && replies[k].next.value > asked[k])
      && (k + 1 < |asked| ==> asked[k + 1] == replies[k].next.value)
  {
    var asked := PassOffsets(replies, offset);
    if k > 0 {
      var rest := PassOffsets(replies[1..], replies[0].next.value);
      AskedExactly(replies[1..], replies[0].next.value, k - 1);
      assert asked == [offset] + rest && (k < |replies| ==> replies[1..][k - 1] == replies[k]);
    } else if |asked| > 1 {
      OffsetsIncrease(replies[1..], replies[0].next.value, 0);
    }
  }

  /** How an unfound pass ends is decided by the reply to its last request. */
  lemma {:induction false} EndsBecause(replies: seq<Reply>, offset: int)
    ensures var last := |PassOffsets(replies, offset)| - 1;
      && last <= |replies|
      && (PassEnding(replies, offset) == Waiting <==> last == |replies|)
      && (PassEnding(replies, offset) == Refusal <==>
            last < |replies| && replies[last].Refused? && (replies[last].status == -4 || replies[last].status == -1))
  {
    if replies != [] && Readable(replies[0]) && Continues(replies[0], offset) {
      var rest := replies[1..];
      EndsBecause(rest, replies[0].next.value);
      var last := |PassOffsets(rest, replies[0].next.value)| - 1;
      assert last < |rest| ==> rest[last] == replies[last + 1];
    }
  }

  /** From 0 on, each offset is the next one named by the page before it, which is not done, and is later. */
  ghost predicate FollowsPages(asked: seq<int>, replies: seq<Reply>) {
    && 0 < |asked| <= |replies| + 1 && asked[0] == 0
    && forall k :: 0 <= k < |asked| - 1 ==> LeadsOn(replies[k], asked[k], asked[k + 1])
  }

  predicate LeadsOn(page: Reply, offset: int, later: int) {
    && page.Page? && page.data.Some? && |page.data.value| <= 1024
    && !page.done && page.next == Some(later) && offset < later
  }

  /** Reply n ends a pass: refused, unreadable, done, or without an offset that advances. */
  predicate EndsPass(reply: Reply, offset: int) {
    || reply.Refused? || reply.data.None? || |reply.data.value| > 1024
    || reply.done || reply.next.None? || reply.next.value <= offset
  }

  /** An unfound pass waits for its last reply, or that reply ended it. */
  ghost predicate EndedBy(ending: Ending, asked: seq<int>, replies: seq<Reply>) {
    && 0 < |asked| <= |replies| + 1
    && var last := |asked| - 1;
       if last == |replies| then ending == Waiting
       else
         && EndsPass(replies[last], asked[last])
         && ending == if replies[last].Refused? && (replies[last].status == -4 || replies[last].status == -1) then Refusal else GaveUp
  }

  lemma PassOffsetsMean(replies: seq<Reply>, n: nat)
    ensures var all := PassOffsets(replies, 0);
      FollowsPages(all, replies) && EndedBy(PassEnding(replies, 0), all, replies)
    ensures FollowsPages(OffsetsFor(replies, 0, n), replies)
  {
    var all := PassOffsets(replies, 0);
    EndsBecause(replies, 0);
    forall k | 0 <= k < |all| - 1 ensures LeadsOn(replies[k], all[k], all[k + 1]) {
      AskedExactly(replies, 0, k);
    }
    AskedExactly(replies, 0, |all| - 1);
    OffsetsIncrease(replies, 0, n);
    var some := OffsetsFor(replies, 0, n);
    hide PassOffsets, OffsetsFor, PassEnding, LeadsOn;
    forall k | 0 <= k < |some| - 1 ensures LeadsOn(replies[k], some[k], some[k + 1]) {
      assert some[k] == all[k] && some[k + 1] == all[k + 1];
    }
  }

  /** What the replies hold: the data of each page that fits the buffer. */
  function DataOf(replies: seq<Reply>): seq<Bytes> {
    seq(|replies|, i requires 0 <= i < |replies| =>
      if replies[i].Page? && replies[i].data.Some? && |replies[i].data.value| <= 1024 then replies[i].data.value else [])
  }

  /** A pass reads the data of all replies to its requests, end to end. */
  lemma {:induction false} TextIsData(replies: seq<Reply>, offset: int)
    ensures |PassOffsets(replies, offset)| - 1 <= |replies|
    ensures PassText(replies, offset) == Flatten(DataOf(replies[..Min(|replies|, |PassOffsets(replies, offset)|)]))
  {
    var n := |PassOffsets(replies, offset)|;
    if replies != [] {
      var first := replies[0];
      DataOfFirst(replies, Min(|replies|, n));
      if Readable(first) && Continues(first, offset) {
        TextIsData(replies[1..], first.next.value);
        var m := Min(|replies| - 1, n - 1);
        assert n == 1 + |PassOffsets(replies[1..], first.next.value)| && Min(|replies|, n) - 1 == m;
      } else {
        assert n == 1 && replies[1..][..0] == [];
      }
    }
  }

  lemma DataOfFirst(replies: seq<Reply>, n: nat)
    requires 0 < n <= |replies|
    ensures Flatten(DataOf(replies[..n])) == DataOf([replies[0]])[0] + Flatten(DataOf(replies[1..][..n - 1]))
  {
    assert DataOf(replies[..n])[1..] == DataOf(replies[1..][..n - 1]);
  }

  /** A pass that stops after n bytes has asked up to the reply that holds the last of them, and no further. */
  lemma {:induction false} StopsInChunk(replies: seq<Reply>, offset: int, n: nat)
    requires 0 < n <= |PassText(replies, offset)|
    ensures var m := |OffsetsFor(replies, offset, n)|;
      && 0 < m <= |replies|
      && |Flatten(DataOf(replies[..m - 1]))| < n <= |Flatten(DataOf(replies[..m]))|
  {
    StopsLater(replies, offset, n);
    NoData(replies);
    FirstData(replies);
    var first, read := replies[0], |replies[0].data.value|;
    hide DataOf, Flatten, PassText, OffsetsFor, Continues;
    if Continues(first, offset) && read < n {
      var m := |OffsetsFor(replies[1..], first.next.value, n - read)|;
      StopsInChunk(replies[1..], first.next.value, n - read);
      DataOfFirst(replies, m + 1);
      DataOfFirst(replies, m);
    } else {
      DataOfFirst(replies, 1);
    }
  }

  /** The first page holds the last of the n bytes, or the rest of the pass does. */
  lemma StopsLater(replies: seq<Reply>, offset: int, n: nat)
    requires 0 < n <= |PassText(replies, offset)|
    ensures replies != [] && Readable(replies[0])
    ensures var first, read, m := replies[0], |replies[0].data.value|, |OffsetsFor(replies, offset, n)|;
      if Continues(first, offset) && read < n then
        && n - read <= |PassText(replies[1..], first.next.value)|
        && m == 1 + |OffsetsFor(replies[1..], first.next.value, n - read)|
      else m == 1 && n <= read
  {
  }

  lemma FirstData(replies: seq<Reply>)
    requires replies != [] && Readable(replies[0])
    ensures DataOf([replies[0]])[0] == replies[0].data.value
  {
  }

  lemma NoData(replies: seq<Reply>)
    requires replies != []
    ensures Flatten(DataOf(replies[..0])) == [] && Flatten(DataOf(replies[1..][..0])) == []
  {
  }

  /** p first occurs in the text where its first n bytes end. */
  ghost predicate FirstEnds(p: Bytes, text: Bytes, n: nat) {
    && 0 < n <= |text|
    && var upTo := text[..n]; Ends(p, upTo, |p|) && !Occurs(p, text[..n - 1])
  }

  lemma FirstEndsLater(p: Bytes, text: Bytes, longer: Bytes, n: nat)
    requires FirstEnds(p, text, n) && text <= longer
    ensures FirstEnds(p, longer, n) && Occurs(p, longer)
  {
    assert longer[..n] == text[..n] && longer[..n - 1] == text[..n - 1];
    assert text[..n] == text[..n - 1] + [text[n - 1]];
    OccursGrows(p, text[..n - 1], text[n - 1]);
    assert longer == text[..n] + longer[n..];
    OccursInPrefix(p, text[..n], longer[n..]);
  }

  /** The read of a chunk into the fixed buffer, and its scan. */
  method ReadChunk(keyword: array<byte>, length: nat, prefix: array<nat>, chunk: array<byte>, data: Bytes,
                   before: nat, ghost text: Bytes)
    returns (matched: nat, found: bool, ghost scanned: nat, ghost steps: nat)
    requires 0 < length <= keyword.Length && length <= prefix.Length && |data| <= chunk.Length
    requires chunk != keyword
    requires IsFailureTable(keyword[..length], prefix[..length])
    requires !Occurs(keyword[..length], text)
    requires Longest(keyword[..length], text, before)
    modifies chunk
    ensures found <==> Occurs(keyword[..length], text + data)
    ensures found ==> 0 < scanned <= |data| && FirstEnds(keyword[..length], text + data, |text| + scanned)
    ensures !found ==> scanned == |data| && Longest(keyword[..length], text + data, matched)
    ensures steps + matched <= before + scanned
  {
    ghost var p := keyword[..length];
    forall i | 0 <= i < |data| {
      chunk[i] := data[i];
    }
    assert chunk[..|data|] == data && keyword[..length] == p;
    matched, found, scanned, steps := ScanChunk(keyword, length, prefix, chunk, |data|, before, text);
    if found {
      ghost var whole := text + data;
      assert chunk[..scanned] == data[..scanned] && chunk[..scanned - 1] == data[..scanned - 1];
      assert whole[..|text| + scanned] == text + data[..scanned];
      assert whole[..|text| + scanned - 1] == text + data[..scanned - 1];
    }
  }

  /**
    Where a pass stands before its n-th reply: what it has read and asked for so far,
    and what is still to come, make up the whole pass.
   */
  ghost predicate Reached(replies: seq<Reply>, n: nat, offset: int, text: Bytes, past: seq<int>) {
    && n <= |replies|
    && PassText(replies, 0) == text + PassText(replies[n..], offset)
    && PassEnding(replies, 0) == PassEnding(replies[n..], offset)
    && PassOffsets(replies, 0) == past + PassOffsets(replies[n..], offset)
    && forall k: nat :: k > |text| ==> OffsetsFor(replies, 0, k) == past + OffsetsFor(replies[n..], offset, k - |text|)
  }

  lemma ReachedStart(replies: seq<Reply>)
    ensures Reached(replies, 0, 0, [], [])
  {
    assert replies[0..] == replies;
  }

  lemma OneReply(replies: seq<Reply>, offset: int)
    requires replies != [] && Readable(replies[0]) && Continues(replies[0], offset)
    ensures var data, next, rest := replies[0].data.value, replies[0].next.value, replies[1..];
      && PassText(replies, offset) == data + PassText(rest, next)
      && PassEnding(replies, offset) == PassEnding(rest, next)
      && PassOffsets(replies, offset) == [offset] + PassOffsets(rest, next)
      && forall k: nat :: k > |data| ==> OffsetsFor(replies, offset, k) == [offset] + OffsetsFor(rest, next, k - |data|)
  {
  }

  lemma ReachedStep(replies: seq<Reply>, n: nat, offset: int, text: Bytes, past: seq<int>)
    requires Reached(replies, n, offset, text, past) && n < |replies|
    requires Readable(replies[n]) && Continues(replies[n], offset)
    ensures Reached(replies, n + 1, replies[n].next.value, text + replies[n].data.value, past + [offset])
  {
    hide PassText, PassEnding, PassOffsets, OffsetsFor;
    var data, next, rest := replies[n].data.value, replies[n].next.value, replies[n + 1..];
    assert replies[n..][0] == replies[n] && replies[n..][1..] == rest;
    OneReply(replies[n..], offset);
    Assoc(text, data, PassText(rest, next));
    Assoc(past, [offset], PassOffsets(rest, next));
    forall k: nat | k > |text| + |data|
      ensures OffsetsFor(replies, 0, k) == (past + [offset]) + OffsetsFor(rest, next, k - |text| - |data|)
    {
      var m := k - |text|;
      assert OffsetsFor(replies, 0, k) == past + OffsetsFor(replies[n..], offset, m);
      assert OffsetsFor(replies[n..], offset, m) == [offset] + OffsetsFor(rest, next, m - |data|);
      Assoc(past, [offset], OffsetsFor(rest, next, m - |data|));
    }
  }

  /** The pass finds its keyword in the n-th reply: more may follow, but nothing more is asked for. */
  lemma ReachedFound(replies: seq<Reply>, n: nat, offset: int, text: Bytes, past: seq<int>, k: nat)
    requires Reached(replies, n, offset, text, past) && n < |replies| && Readable(replies[n])
    requires |text| < k <= |text| + |replies[n].data.value|
    ensures text + replies[n].data.value <= PassText(replies, 0)
    ensures OffsetsFor(replies, 0, k) == past + [offset]
  {
    var data := replies[n].data.value;
    assert replies[n..][0] == replies[n] && replies[n..][1..] == replies[n + 1..];
    assert data <= PassText(replies[n..], offset);
  }

  lemma ReachedEnd(replies: seq<Reply>, n: nat, offset: int, text: Bytes, past: seq<int>)
    requires Reached(replies, n, offset, text, past)
    requires n == |replies| || !Readable(replies[n]) || !Continues(replies[n], offset)
    ensures PassText(replies, 0) == if n < |replies| && Readable(replies[n]) then text + replies[n].data.value else text
    ensures PassOffsets(replies, 0) == past + [offset]
    ensures PassEnding(replies, 0)
         == if n == |replies| then Waiting
            else if replies[n].Refused? && (replies[n].status == DENIED || replies[n].status == INVALID) then Refusal
            else GaveUp
  {
    assert n < |replies| ==> replies[n..][0] == replies[n];
  }

  lemma NothingRead(p: Bytes)
    requires p != []
    ensures !Occurs(p, []) && Longest(p, [], 0)
  {
  }

  /**
    One pass: fresh offset and match state, chunk after chunk, up to the end of the first
    occurrence. `asked` lists the offsets requested, `scanned` counts the bytes looked at.
   */
  method ReadPass(keyword: array<byte>, length: nat, prefix: array<nat>, chunk: array<byte>, replies: seq<Reply>)
    returns (found: bool, ending: Ending, asked: seq<int>, ghost scanned: nat, ghost steps: nat)
    requires 0 < length <= keyword.Length && length <= prefix.Length && chunk.Length == CHUNK_CAPACITY
    requires chunk != keyword
    requires IsFailureTable(keyword[..length], prefix[..length])
    modifies chunk
    ensures found <==> Occurs(keyword[..length], PassText(replies, 0))
    ensures found ==> FirstEnds(keyword[..length], PassText(replies, 0), scanned) && asked == OffsetsFor(replies, 0, scanned)
    ensures !found ==>
      ending == PassEnding(replies, 0) && scanned == |PassText(replies, 0)| && asked == PassOffsets(replies, 0)
    ensures FollowsPages(asked, replies)
    ensures !found ==> EndedBy(ending, asked, replies)
    ensures steps <= scanned
  {
    hide FollowsPages, EndedBy, OffsetsFor, PassOffsets, IsFailureTable, Occurs, Longest, FirstEnds, Reached, PassText, PassEnding;
    ghost var p, table := keyword[..length], prefix[..length];
    var offset, n := 0, 0;
    var matched: nat := 0;
    ghost var text: Bytes, past: seq<int> := [], [];
    found, ending, asked, scanned, steps := false, Waiting, [0], 0, 0;
    NothingRead(p);
    ReachedStart(replies);
    while n < |replies|
      invariant 0 <= n <= |replies|
      invariant keyword[..length] == p && prefix[..length] == table
      invariant !Occurs(p, text) && Longest(p, text, matched)
      invariant Reached(replies, n, offset, text, past) && asked == past + [offset]
      invariant scanned == |text| && steps + matched <= scanned
    {
      var reply := replies[n];
      if !Readable(reply) {
        ReachedEnd(replies, n, offset, text, past);
        PassOffsetsMean(replies, 0);
        ending := if reply.Refused? && (reply.status == DENIED || reply.status == INVALID) then Refusal else GaveUp;
        return;
      }
      ghost var some, more;
      matched, found, some, more := ReadChunk(keyword, length, prefix, chunk, reply.data.value, matched, text);
      assert keyword[..length] == p && prefix[..length] == table;
      steps, scanned := steps + more, scanned + some;
      if found {
        ReachedFound(replies, n, offset, text, past, scanned);
        FirstEndsLater(p, text + reply.data.value, PassText(replies, 0), scanned);
        PassOffsetsMean(replies, scanned);
        return;
      }
      if !Continues(reply, offset) {
        ReachedEnd(replies, n, offset, text, past);
        PassOffsetsMean(replies, 0);
        ending := GaveUp;
        return;
      }
      ReachedStep(replies, n, offset, text, past);
      text, past := text + reply.data.value, past + [offset];
      offset, n := reply.next.value, n + 1;
      asked := asked + [offset];
    }
    ReachedEnd(replies, n, offset, text, past);
    PassOffsetsMean(replies, 0);
  }

  /** What the notification loop returns, given the host's answers in order. */
  function Notified(acks: seq<int>): Option<int> {
    if acks == [] then None
    else if acks[0] >= 0 then Some(0)
    else if acks[0] == DENIED || acks[0] == INVALID then Some(3)
    else Notified(acks[1..])
  }

  /** The exit code the program owes for a usable keyword: None while it still runs. */
  ghost function ExitCode(p: Bytes, passes: seq<seq<Reply>>, acks: seq<int>): Option<int> {
    if passes == [] then None
    else if Occurs(p, PassText(passes[0], 0)) then Notified(acks)
    else match PassEnding(passes[0], 0)
      case Refusal => Some(2)
      case Waiting => None
      case GaveUp => ExitCode(p, passes[1..], acks)
  }

  /** No answer yet that ends the notification loop. */
  predicate KeepsTrying(ack: int) {
    ack < 0 && ack != -1 && ack != -4
  }

  /** The loop ends at the first acknowledgement that is a handle, or denied or invalid. */
  lemma {:induction false} NotifiedExactly(acks: seq<int>)
    ensures Notified(acks).None? <==> forall k :: 0 <= k < |acks| ==> KeepsTrying(acks[k])
    ensures Notified(acks) == Some(0) <==> exists k: nat :: Decides(acks, k, 0)
    ensures Notified(acks) == Some(3) <==> exists k: nat :: Decides(acks, k, 3)
  {
    if acks != [] {
      NotifiedExactly(acks[1..]);
      assert forall k :: 0 < k < |acks| ==> acks[k] == acks[1..][k - 1];
      if KeepsTrying(acks[0]) {
        FirstLater(acks, 0);
        FirstLater(acks, 3);
      } else {
        assert Decides(acks, 0, if acks[0] >= 0 then 0 else 3);
      }
    }
  }

  ghost predicate Decides(acks: seq<int>, k: nat, code: int) {
    && k < |acks|
    && (if code == 0 then acks[k] >= 0 else acks[k] < 0 && !KeepsTrying(acks[k]))
    && forall j :: 0 <= j < k ==> KeepsTrying(acks[j])
  }

  lemma FirstLater(acks: seq<int>, code: int)
    requires acks != [] && KeepsTrying(acks[0])
    ensures (exists k: nat :: Decides(acks, k, code)) <==> (exists k: nat :: Decides(acks[1..], k, code))
  {
    if k: nat :| Decides(acks, k, code) {
      assert acks[1..][k - 1] == acks[k] && Decides(acks[1..], k - 1, code);
    }
    if k: nat :| Decides(acks[1..], k, code) {
      assert acks[k + 1] == acks[1..][k];
      forall j | 0 <= j < k + 1 ensures KeepsTrying(acks[j]) {
        assert j > 0 ==> acks[j] == acks[1..][j - 1];
      }
      assert Decides(acks, k + 1, code);
    }
  }

  /** Pass k is the first that finds the keyword or is refused; every one before it gave up unfound. */
  ghost predicate Reaches(p: Bytes, passes: seq<seq<Reply>>, k: nat) {
    && k < |passes|
    && forall j :: 0 <= j < k ==> !Occurs(p, PassText(passes[j], 0)) && PassEnding(passes[j], 0) == GaveUp
  }

  lemma ReachesLater(p: Bytes, passes: seq<seq<Reply>>, k: nat)
    requires passes != [] && !Occurs(p, PassText(passes[0], 0)) && PassEnding(passes[0], 0) == GaveUp
    ensures Reaches(p, passes, k + 1) <==> Reaches(p, passes[1..], k)
  {
    hide Occurs, PassText, PassEnding;
    if k < |passes| - 1 {
      assert forall j :: 0 < j <= k ==> passes[j] == passes[1..][j - 1];
    }
  }

  /** The program exits with 2 at a refused pass, and as the notification says at one that finds the keyword. */
  lemma {:induction false} ExitAt(p: Bytes, passes: seq<seq<Reply>>, acks: seq<int>, k: nat)
    requires Reaches(p, passes, k)
    requires Occurs(p, PassText(passes[k], 0)) || PassEnding(passes[k], 0) == Refusal
    ensures ExitCode(p, passes, acks) == if Occurs(p, PassText(passes[k], 0)) then Notified(acks) else Some(2)
  {
    hide Occurs, PassText, PassEnding;
    if k > 0 {
      ReachesLater(p, passes, k - 1);
      ExitAt(p, passes[1..], acks, k - 1);
    }
  }

  /** Otherwise it goes on. */
  lemma {:induction false} RunsOn(p: Bytes, passes: seq<seq<Reply>>, acks: seq<int>)
    requires forall k: nat :: Reaches(p, passes, k) ==>
      !Occurs(p, PassText(passes[k], 0)) && PassEnding(passes[k], 0) != Refusal
    ensures ExitCode(p, passes, acks).None?
  {
    hide Occurs, PassText, PassEnding;
    if passes != [] {
      assert Reaches(p, passes, 0);
      if PassEnding(passes[0], 0) == GaveUp {
        forall k: nat | Reaches(p, passes[1..], k)
          ensures !Occurs(p, PassText(passes[1..][k], 0)) && PassEnding(passes[1..][k], 0) != Refusal
        {
          ReachesLater(p, passes, k);
        }
        RunsOn(p, passes[1..], acks);
      }
    }
  }

  method WatchPage(keywordValue: Option<Bytes>, passes: seq<seq<Reply>>, acks: seq<int>) returns (code: Option<int>)
    ensures keywordValue.None? || keywordValue.value == [] || |keywordValue.value| > KEYWORD_CAPACITY ==>
      code == Some(1)
    ensures keywordValue.Some? && 0 < |keywordValue.value| <= KEYWORD_CAPACITY ==>
      code == ExitCode(keywordValue.value, passes, acks)
  {
    if keywordValue.None? || keywordValue.value == [] || |keywordValue.value| > KEYWORD_CAPACITY {
      return Some(1);
    }
    var length := |keywordValue.value|;
    var keyword, chunk := new byte[KEYWORD_CAPACITY], new byte[CHUNK_CAPACITY];
    var prefix := new nat[KEYWORD_CAPACITY];
    forall i | 0 <= i < length {
      keyword[i] := keywordValue.value[i];
    }
    ghost var p := keywordValue.value;
    assert keyword[..length] == p;
    ghost var steps := BuildTable(keyword, length, prefix);
    for n := 0 to |passes|
      invariant keyword[..length] == p && IsFailureTable(p, prefix[..length])
      invariant ExitCode(p, passes, acks) == ExitCode(p, passes[n..], acks)
    {
      assert passes[n..][1..] == passes[n + 1..];
      var found, ending, asked;
      ghost var scanned;
      found, ending, asked, scanned, steps := ReadPass(keyword, length, prefix, chunk, passes[n]);
      if found {
        code := None;
        for k := 0 to |acks|
          invariant Notified(acks) == Notified(acks[k..])
        {
          assert acks[k..][1..] == acks[k + 1..];
          if acks[k] >= 0 {
            return Some(0);
          }
          if acks[k] == DENIED || acks[k] == INVALID {
            return Some(3);
          }
        }
        return;
      }
      match ending
      case Refusal => return Some(2);
      case Waiting => return None;
      case GaveUp =>
    }
    code := None;
  }
}
