/** Types shared by every part of the model. */
module Prelude {

  newtype byte = x: int | 0 <= x < 256

  /** UTF-8 text and wire data alike: the program compares and measures bytes only. */
  type Bytes = seq<byte>

  datatype Option<+T> = None | Some(value: T)

  const NEWLINE: byte := 10

  const U64_MAX: nat := 0xFFFF_FFFF_FFFF_FFFF

  /** IDs of requests and of events are at most this long. */
  const MAX_ID: nat := 128

  /** Error messages are cut to this many bytes. */
  const MAX_MESSAGE: nat := 4096

  // Statuses a guest sees (src/error.rs:36-41).
  const INVALID: int := -1
  const LIMIT: int := -2
  const DENIED: int := -4
  const HOST_ERROR: int := -5

  /** A counter that stays at its maximum. */
  function Saturated(n: nat): nat {
    if n < U64_MAX then n + 1 else n
  }

  function Min(a: int, b: int): int {
    if a <= b then a else b
  }

  function Max(a: int, b: int): int {
    if a <= b then b else a
  }

  /** Byte-wise lexical order, the order of text keys. */
  predicate Before(a: Bytes, b: Bytes) {
    b != [] && (a == [] || a[0] < b[0] || (a[0] == b[0] && Before(a[1..], b[1..])))
  }

  lemma {:induction false} BeforeTotal(a: Bytes, b: Bytes)
    ensures !Before(a, a)
    ensures a != b ==> Before(a, b) || Before(b, a)
  {
    if a != [] {
      BeforeTotal(a[1..], if b == [] then [] else b[1..]);
    }
    if a != [] && b != [] && a[0] == b[0] {
      assert a == [a[0]] + a[1..] && b == [b[0]] + b[1..];
    }
  }

  lemma {:induction false} BeforeTransitive(a: Bytes, b: Bytes, c: Bytes)
    requires Before(a, b) && Before(b, c)
    ensures Before(a, c)
  {
    if a != [] && a[0] == b[0] && b[0] == c[0] {
      BeforeTransitive(a[1..], b[1..], c[1..]);
    }
  }

  /** Keys in strictly ascending order, as the program's maps keep them. */
  ghost predicate Ascending(keys: seq<Bytes>) {
    forall i, j :: 0 <= i < j < |keys| ==> Before(keys[i], keys[j])
  }

  /** Text constants of the program, one byte a character. */
  function Ascii(s: string): (r: Bytes)
    ensures |r| == |s|
  {
    seq(|s|, i requires 0 <= i < |s| => (s[i] as int % 256) as byte)
  }

  lemma AsciiHead(s: string)
    requires s != ""
    ensures Ascii(s)[0] == (s[0] as int % 256) as byte
  {
  }

  /** The elements of a sequence laid end to end. */
  function Flatten(parts: seq<Bytes>): Bytes {
    if parts == [] then [] else parts[0] + Flatten(parts[1..])
  }

  lemma Assoc<T>(a: seq<T>, b: seq<T>, c: seq<T>)
    ensures (a + b) + c == a + (b + c)
  {
  }

  ghost predicate Distinct<T>(s: seq<T>) {
    forall i, j :: 0 <= i < j < |s| ==> s[i] != s[j]
  }
}
