/** JSON values, their compact printed form, and the measures the runtime bounds. */
module Json {
  import opened Prelude

  /** Number literals as the printer writes them: digits, sign, point, exponent. */
  predicate NumberByte(b: byte) {
    48 <= b <= 57 || b == 43 || b == 45 || b == 46 || b == 69 || b == 101
  }

  type Literal = s: Bytes | s != [] && forall b :: b in s ==> NumberByte(b)
    witness [48]

  datatype Member = Member(key: Bytes, value: Value)

  datatype Value =
    | Null
    | Bool(b: bool)
    | Number(literal: Literal)
    | String(text: Bytes)
    | Array(items: seq<Value>)
    | Object(members: seq<Member>)

  // ----- Decimal numbers -----

  function Digits(n: nat): (s: Literal) {
    if n < 10 then [(48 + n) as byte] else Digits(n / 10) + [(48 + n % 10) as byte]
  }

  function ReadDigits(s: Bytes): int {
    if s == [] then 0 else 10 * ReadDigits(s[..|s| - 1]) + (s[|s| - 1] as int - 48)
  }

  lemma {:induction false} DigitsRoundTrip(n: nat)
    ensures ReadDigits(Digits(n)) == n
  {
    if n >= 10 {
      DigitsRoundTrip(n / 10);
      assert Digits(n)[..|Digits(n)| - 1] == Digits(n / 10);
    }
  }

  lemma DigitsInjective(m: nat, n: nat)
    requires Digits(m) == Digits(n)
    ensures m == n
  {
    DigitsRoundTrip(m);
    DigitsRoundTrip(n);
  }

  function Power(k: nat): nat {
    if k == 0 then 1 else 10 * Power(k - 1)
  }

  lemma {:induction false} DigitsLength(n: nat, k: nat)
    requires n < Power(k) && k >= 1
    ensures |Digits(n)| <= k
  {
    if n >= 10 {
      DigitsLength(n / 10, k - 1);
    }
  }

  function Integer(n: int): Value {
    Number(if n < 0 then [45] + Digits(-n) else Digits(n))
  }

  // ----- Printing -----

  const NULL_TEXT: Bytes := [110, 117, 108, 108]
  const TRUE_TEXT: Bytes := [116, 114, 117, 101]
  const FALSE_TEXT: Bytes := [102, 97, 108, 115, 101]

  function HexDigit(n: int): byte
    requires 0 <= n < 16
  {
    if n < 10 then (48 + n) as byte else (87 + n) as byte
  }

  function EscapeByte(b: byte): Bytes {
    if b == 34 || b == 92 then [92, b]
    else if b == 8 then [92, 98]
    else if b == 9 then [92, 116]
    else if b == 10 then [92, 110]
    else if b == 12 then [92, 102]
    else if b == 13 then [92, 114]
    else if b < 32 then [92, 117, 48, 48, HexDigit(b as int / 16), HexDigit(b as int % 16)]
    else [b]
  }

  function Escape(s: Bytes): Bytes {
    if s == [] then [] else EscapeByte(s[0]) + Escape(s[1..])
  }

  function PrintText(s: Bytes): Bytes {
    [34] + Escape(s) + [34]
  }

  function Print(v: Value): Bytes
    decreases v, 1
  {
    match v
    case Null => NULL_TEXT
    case Bool(b) => if b then TRUE_TEXT else FALSE_TEXT
    case Number(literal) => literal
    case String(s) => PrintText(s)
    case Array(items) => [91] + PrintItems(items) + [93]
    case Object(members) => [123] + PrintMembers(members) + [125]
  }

  function PrintItems(items: seq<Value>): Bytes
    decreases items, 0
  {
    if items == [] then []
    else if |items| == 1 then Print(items[0])
    else Print(items[0]) + [44] + PrintItems(items[1..])
  }

  function PrintMember(m: Member): Bytes
    decreases m, 2
  {
    PrintText(m.key) + [58] + Print(m.value)
  }

  function PrintMembers(members: seq<Member>): Bytes
    decreases members, 0
  {
    if members == [] then []
    else if |members| == 1 then PrintMember(members[0])
    else PrintMember(members[0]) + [44] + PrintMembers(members[1..])
  }

  ghost predicate OneLine(s: Bytes) {
    NEWLINE !in s
  }

  lemma {:induction false} EscapeOneLine(s: Bytes)
    ensures OneLine(Escape(s)) && |s| <= |Escape(s)| <= 6 * |s|
  {
    if s != [] {
      EscapeOneLine(s[1..]);
    }
  }

  /** Printed values never contain a newline: strings escape theirs. */
  lemma {:induction false} PrintOneLine(v: Value)
    ensures OneLine(Print(v)) && Print(v) != []
    decreases v, 1
  {
    match v
    case Null =>
    case Bool(b) =>
    case Number(literal) =>
    case String(s) => EscapeOneLine(s);
    case Array(items) => ItemsOneLine(items);
    case Object(members) => MembersOneLine(members);
  }

  lemma {:induction false} ItemsOneLine(items: seq<Value>)
    ensures OneLine(PrintItems(items))
    decreases items, 0
  {
    if items != [] {
      PrintOneLine(items[0]);
      ItemsOneLine(items[1..]);
    }
  }

  lemma {:induction false} MembersOneLine(members: seq<Member>)
    ensures OneLine(PrintMembers(members))
    decreases members, 0
  {
    if members != [] {
      EscapeOneLine(members[0].key);
      PrintOneLine(members[0].value);
      MembersOneLine(members[1..]);
    }
  }

  // ----- Measures -----

  function Nodes(v: Value): nat
    decreases v, 1
  {
    match v
    case Array(items) => 1 + NodesOf(items)
    case Object(members) => 1 + NodesIn(members)
    case _ => 1
  }

  function NodesOf(items: seq<Value>): nat
    decreases items, 0
  {
    if items == [] then 0 else Nodes(items[0]) + NodesOf(items[1..])
  }

  function NodesIn(members: seq<Member>): nat
    decreases members, 0
  {
    if members == [] then 0 else Nodes(members[0].value) + NodesIn(members[1..])
  }

  /** How far below the root the deepest node is. */
  function Depth(v: Value): nat
    decreases v, 1
  {
    match v
    case Array(items) => DepthOf(items)
    case Object(members) => DepthIn(members)
    case _ => 0
  }

  function DepthOf(items: seq<Value>): nat
    decreases items, 0
  {
    if items == [] then 0 else Max(1 + Depth(items[0]), DepthOf(items[1..]))
  }

  function DepthIn(members: seq<Member>): nat
    decreases members, 0
  {
    if members == [] then 0 else Max(1 + Depth(members[0].value), DepthIn(members[1..]))
  }

  /** The measures of a list, one element at a time. */
  lemma FirstMember(m: Member, rest: seq<Member>)
    ensures NodesIn([m] + rest) == Nodes(m.value) + NodesIn(rest)
    ensures DepthIn([m] + rest) == Max(1 + Depth(m.value), DepthIn(rest))
    ensures |PrintMembers([m] + rest)| == |PrintMember(m)| + if rest == [] then 0 else 1 + |PrintMembers(rest)|
  {
    hide Nodes, Depth, PrintMember;
    assert ([m] + rest)[0] == m && ([m] + rest)[1..] == rest;
  }

  lemma ThreeMembers(a: Member, b: Member, c: Member)
    ensures NodesIn([a, b, c]) == Nodes(a.value) + Nodes(b.value) + Nodes(c.value)
    ensures DepthIn([a, b, c]) == 1 + Max(Depth(a.value), Max(Depth(b.value), Depth(c.value)))
    ensures |PrintMembers([a, b, c])| == 2 + |PrintMember(a)| + |PrintMember(b)| + |PrintMember(c)|
  {
    assert NodesIn([]) == 0 && DepthIn([]) == 0;
    hide Nodes, Depth, NodesIn, DepthIn, PrintMember, PrintMembers;
    FirstMember(c, []);
    FirstMember(b, [c]);
    FirstMember(a, [b, c]);
    assert [c] + [] == [c] && [b] + [c] == [b, c] && [a] + [b, c] == [a, b, c];
  }

  lemma ObjectMeasures(members: seq<Member>)
    ensures Nodes(Object(members)) == 1 + NodesIn(members) && Depth(Object(members)) == DepthIn(members)
    ensures |Print(Object(members))| == 2 + |PrintMembers(members)|
  {
    hide NodesIn, DepthIn, PrintMembers;
  }

  lemma ArrayMeasures(items: seq<Value>)
    ensures Nodes(Array(items)) == 1 + NodesOf(items) && Depth(Array(items)) == DepthOf(items)
    ensures |Print(Array(items))| == 2 + |PrintItems(items)|
  {
    hide NodesOf, DepthOf, PrintItems;
  }

  lemma TextMeasures(text: Bytes)
    ensures Nodes(String(text)) == 1 && Depth(String(text)) == 0
  {
  }

  lemma OnlyItem(v: Value)
    ensures NodesOf([v]) == Nodes(v) && DepthOf([v]) == 1 + Depth(v) && PrintItems([v]) == Print(v)
  {
    hide Nodes, Depth, Print;
    assert [v][1..] == [] && NodesOf([]) == 0 && DepthOf([]) == 0;
  }

  function Keys(members: seq<Member>): seq<Bytes> {
    seq(|members|, i requires 0 <= i < |members| => members[i].key)
  }

  /** Every object keeps its members in key order, each key once, as the program's maps do. */
  ghost predicate KeysOrdered(v: Value) {
    match v
    case Array(items) => forall i :: 0 <= i < |items| ==> KeysOrdered(items[i])
    case Object(members) =>
      Ascending(Keys(members)) && forall i :: 0 <= i < |members| ==> KeysOrdered(members[i].value)
    case _ => true
  }

  // ----- Access -----

  function Find(members: seq<Member>, key: Bytes): Option<Value> {
    if members == [] then None
    else if members[0].key == key then Some(members[0].value)
    else Find(members[1..], key)
  }

  /** `value.get(key)` */
  function Get(v: Value, key: Bytes): Option<Value> {
    if v.Object? then Find(v.members, key) else None
  }

  /** `value.get(index)` */
  function At(v: Value, i: nat): Option<Value> {
    if v.Array? && i < |v.items| then Some(v.items[i]) else None
  }

  lemma {:induction false} FoundIsMember(members: seq<Member>, key: Bytes)
    requires Find(members, key).Some?
    ensures exists m :: m in members && m.key == key && m.value == Find(members, key).value
  {
    if members[0].key == key {
      assert members[0] in members;
    } else {
      FoundIsMember(members[1..], key);
    }
  }

  lemma PartsOrdered(v: Value)
    requires KeysOrdered(v)
    ensures forall key :: Get(v, key).Some? ==> KeysOrdered(Get(v, key).value)
    ensures forall i: nat :: At(v, i).Some? ==> KeysOrdered(At(v, i).value)
  {
    forall key | Get(v, key).Some? ensures KeysOrdered(Get(v, key).value) {
      FoundIsMember(v.members, key);
      var m :| m in v.members && m.key == key && m.value == Get(v, key).value;
      var i :| 0 <= i < |v.members| && v.members[i] == m;
    }
  }

  /** No value is larger by any measure. */
  ghost predicate Within(part: Value, whole: Value) {
    Nodes(part) <= Nodes(whole) && Depth(part) <= Depth(whole) && |Print(part)| <= |Print(whole)|
  }

  lemma {:induction false} ItemWithin(items: seq<Value>, i: nat)
    requires i < |items|
    ensures Nodes(items[i]) <= NodesOf(items)
    ensures 1 + Depth(items[i]) <= DepthOf(items)
    ensures |Print(items[i])| <= |PrintItems(items)|
  {
    if i > 0 {
      ItemWithin(items[1..], i - 1);
    }
  }

  lemma {:induction false} FoundWithin(members: seq<Member>, key: Bytes)
    requires Find(members, key).Some?
    ensures var v := Find(members, key).value;
      Nodes(v) <= NodesIn(members) && 1 + Depth(v) <= DepthIn(members) && |Print(v)| <= |PrintMembers(members)|
  {
    if members[0].key != key {
      FoundWithin(members[1..], key);
    }
  }

  /** Every value reached by member or index access is within the value it came from. */
  lemma PartsWithin(v: Value)
    ensures forall key :: Get(v, key).Some? ==> Within(Get(v, key).value, v)
    ensures forall i: nat :: At(v, i).Some? ==> Within(At(v, i).value, v)
  {
    forall key | Get(v, key).Some? ensures Within(Get(v, key).value, v) {
      FoundWithin(v.members, key);
    }
    forall i: nat | At(v, i).Some? ensures Within(At(v, i).value, v) {
      ItemWithin(v.items, i);
    }
  }
}
