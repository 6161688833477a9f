/** Error messages are cut at a character boundary (src/error.rs:10-24). */
module RpcErrors {
  import opened Prelude

  /** A Unicode scalar value. */
  type Scalar = c: int | 0 <= c < 0x11_0000 && !(0xD800 <= c < 0xE000)

  function Tail(c: int): byte
    requires 0 <= c
  {
    (0x80 + c % 64) as byte
  }

  function EncodeScalar(c: Scalar): (s: Bytes)
    ensures 1 <= |s| <= 4
  {
    if c < 0x80 then [c as byte]
    else if c < 0x800 then [(0xC0 + c / 64) as byte, Tail(c)]
    else if c < 0x1_0000 then [(0xE0 + c / 4096) as byte, Tail(c / 64), Tail(c)]
    else [(0xF0 + c / 0x4_0000) as byte, Tail(c / 4096), Tail(c / 64), Tail(c)]
  }

  function EncodeText(text: seq<Scalar>): Bytes {
    if text == [] then [] else EncodeScalar(text[0]) + EncodeText(text[1..])
  }

  predicate Continuation(b: byte) {
    0x80 <= b < 0xC0
  }

  predicate IsBoundary(s: Bytes, i: nat)
    requires i <= |s|
  {
    i == 0 || i == |s| || !Continuation(s[i])
  }

  /** The number of whole characters in the first i bytes. */
  function Whole(text: seq<Scalar>, i: nat): (k: nat)
    ensures k <= |text|
  {
    if text == [] || |EncodeScalar(text[0])| > i then 0
    else 1 + Whole(text[1..], i - |EncodeScalar(text[0])|)
  }

  /** The bytes those characters take. */
  function Floor(text: seq<Scalar>, i: nat): nat {
    |EncodeText(text[..Whole(text, i)])|
  }

  lemma LeadingByte(c: Scalar)
    ensures !Continuation(EncodeScalar(c)[0])
    ensures forall j :: 1 <= j < |EncodeScalar(c)| ==> Continuation(EncodeScalar(c)[j])
  {
  }

  lemma FloorStep(text: seq<Scalar>, i: nat)
    requires text != [] && |EncodeScalar(text[0])| <= i
    ensures Floor(text, i) == |EncodeScalar(text[0])| + Floor(text[1..], i - |EncodeScalar(text[0])|)
  {
    var k := Whole(text, i);
    assert text[..k][0] == text[0] && text[..k][1..] == text[1..][..k - 1];
  }

  /** The whole characters of the first i bytes are a prefix of the text, and the next one crosses i. */
  lemma {:induction false} FloorIsPrefix(text: seq<Scalar>, i: nat)
    requires i <= |EncodeText(text)|
    ensures Floor(text, i) <= i
    ensures EncodeText(text)[..Floor(text, i)] == EncodeText(text[..Whole(text, i)])
    ensures Whole(text, i) < |text| ==> i < |EncodeText(text[..Whole(text, i) + 1])| <= Floor(text, i) + 4
    ensures Whole(text, i) == |text| ==> i == |EncodeText(text)|
  {
    if text != [] {
      var head, rest := EncodeScalar(text[0]), EncodeText(text[1..]);
      if |head| <= i {
        var n := i - |head|;
        FloorStep(text, i);
        FloorIsPrefix(text[1..], n);
        PrefixStep(text, Whole(text[1..], n));
        if Whole(text, i) < |text| {
          PrefixStep(text, Whole(text, i));
        }
      } else {
        assert text[..0] == [] && text[..1] == [text[0]] && EncodeText([text[0]]) == head + [];
      }
    }
  }

  lemma PrefixStep(text: seq<Scalar>, k: nat)
    requires k < |text|
    ensures EncodeText(text[..k + 1]) == EncodeScalar(text[0]) + EncodeText(text[1..][..k])
  {
    assert text[..k + 1][0] == text[0] && text[..k + 1][1..] == text[1..][..k];
  }

  /** The boundaries of encoded text are exactly the ends of whole characters. */
  lemma {:induction false} BoundaryIsFloor(text: seq<Scalar>, i: nat)
    requires i <= |EncodeText(text)|
    ensures IsBoundary(EncodeText(text), i) <==> Floor(text, i) == i
  {
    if text != [] {
      var head, rest := EncodeScalar(text[0]), EncodeText(text[1..]);
      LeadingByte(text[0]);
      if |head| <= i {
        FloorStep(text, i);
        BoundaryIsFloor(text[1..], i - |head|);
        if |text| > 1 {
          LeadingByte(text[1]);
        }
      } else {
        assert text[..0] == [];
      }
    }
  }

  lemma {:induction false} FloorBelow(text: seq<Scalar>, i: nat, j: nat)
    requires i <= |EncodeText(text)| && Floor(text, i) <= j <= i
    ensures Floor(text, j) == Floor(text, i) && Whole(text, j) == Whole(text, i)
  {
    if text != [] && |EncodeScalar(text[0])| <= i {
      var n := |EncodeScalar(text[0])|;
      FloorStep(text, i);
      FloorBelow(text[1..], i - n, j - n);
      FloorStep(text, j);
    }
  }

  /**
    The message of an error: whole if it fits, otherwise as many whole characters as fit.
    `text` is the character sequence the message encodes.
   */
  method Message(message: Bytes, ghost text: seq<Scalar>) returns (r: Bytes)
    requires message == EncodeText(text)
    ensures |message| <= MAX_MESSAGE ==> r == message
    ensures |message| > MAX_MESSAGE ==>
      var k := Whole(text, MAX_MESSAGE);
      && r == EncodeText(text[..k])
      && MAX_MESSAGE - 4 < |r| <= MAX_MESSAGE
      && k < |text| && |EncodeText(text[..k + 1])| > MAX_MESSAGE
  {
    r := message;
    if |message| > MAX_MESSAGE {
      FloorIsPrefix(text, MAX_MESSAGE);
      var end := MAX_MESSAGE;
      while !IsBoundary(message, end)
        invariant Floor(text, MAX_MESSAGE) <= end <= MAX_MESSAGE
        decreases end
      {
        FloorBelow(text, MAX_MESSAGE, end);
        BoundaryIsFloor(text, end);
        end := end - 1;
      }
      FloorBelow(text, MAX_MESSAGE, end);
      BoundaryIsFloor(text, end);
      r := message[..end];
    }
  }
}
