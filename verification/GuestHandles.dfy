/**
  The guest's handle table (src/helpers.rs:18-81, 149-175, 222-253, 306-381): values
  owned by one object, named by numbers that the whole process never uses twice.
  Results are the signed numbers the guest sees: a handle is positive, a status negative.
 */
module GuestHandles {
  import opened Prelude
  import opened Json
  import opened JsonLimits

  const MAX_HANDLES: nat := 128
  const I64_MAX: int := 0x7FFF_FFFF_FFFF_FFFF

  datatype Handle = Json(value: Value) | Blob(bytes: Bytes)

  type Table = map<nat, Handle>

  /** A table, the process-wide counter, and what the helper returns. */
  datatype Outcome = Outcome(table: Table, next: nat, result: int)

  function JsonAt(t: Table, h: nat): Option<Value> {
    if h in t && t[h].Json? then Some(t[h].value) else None
  }

  // ----- Helpers -----

  function Inserted(t: Table, next: nat, handle: Handle): Outcome {
    if |t| >= MAX_HANDLES || next >= I64_MAX then Outcome(t, next, LIMIT)
    else Outcome(t[next := handle], next + 1, next)
  }

  function InsertedPart(t: Table, next: nat, found: Option<Value>): Outcome {
    match found
    case Some(v) => Inserted(t, next, Json(v))
    case None => Outcome(t, next, INVALID)
  }

  function Dropped(t: Table, h: nat): (Table, int) {
    if h in t then (t - {h}, 0) else (t, INVALID)
  }

  function MemberOf(t: Table, h: nat, key: Bytes): Option<Value> {
    match JsonAt(t, h) case Some(v) => Get(v, key) case None => None
  }

  function ItemOf(t: Table, h: nat, i: nat): Option<Value> {
    match JsonAt(t, h) case Some(v) => At(v, i) case None => None
  }

  /** Replaces the member of that name, or adds it where the key order puts it. */
  function WithMember(members: seq<Member>, key: Bytes, value: Value): seq<Member> {
    if members == [] then [Member(key, value)]
    else if members[0].key == key then [Member(key, value)] + members[1..]
    else if Before(key, members[0].key) then [Member(key, value)] + members
    else [members[0]] + WithMember(members[1..], key, value)
  }

  /** The target as `sf_json_set` would leave it. */
  function AfterSet(t: Table, h: nat, key: Bytes, source: nat): Option<Value> {
    match (JsonAt(t, source), JsonAt(t, h))
    case (Some(value), Some(Object(members))) => Some(Object(WithMember(members, key, value)))
    case _ => None
  }

  /** The target as `sf_json_push` would leave it. */
  function AfterPush(t: Table, h: nat, source: nat): Option<Value> {
    match (JsonAt(t, source), JsonAt(t, h))
    case (Some(value), Some(Array(items))) => Some(Array(items + [value]))
    case _ => None
  }

  function Store(t: Table, h: nat, target: Option<Value>): (Table, int) {
    if target.None? then (t, INVALID)
    else if !ValidValue(target.value) then (t, LIMIT)
    else (t[h := Json(target.value)], 0)
  }

  // ----- Guests and their calls -----

  /** One helper call. `parsed` is None for text that is not JSON. */
  datatype Op =
    | GetConfig(config: Value)
    | TakeEvent(envelope: Value)
    | TakeAnswer(answer: Value)
    | Parse(parsed: Option<Value>)
    | NewText(text: Bytes)
    | NewNumber(n: int)
    | NewScalar(scalar: Value)
    | NewBlob(bytes: Bytes)
    | GetMember(h: nat, key: Bytes)
    | GetItem(h: nat, i: nat)
    | Dump(h: nat)
    | SetMember(h: nat, key: Bytes, source: nat)
    | PushItem(h: nat, source: nat)
    | DropHandle(h: nat)

  /** An event as `sf.event.deliver` builds it and the mailbox admits it. */
  function Envelope(id: Bytes, payload: Value, topic: Bytes): Value {
    Object([Member(Ascii("event_id"), String(id)), Member(Ascii("payload"), payload), Member(Ascii("topic"), String(topic))])
  }

  ghost predicate AdmittedEvent(v: Value) {
    |Print(v)| <= MAX_VALUE_BYTES && exists id, payload, topic :: ValidValue(payload) && v == Envelope(id, payload, topic)
  }

  /** What other parts of the runtime guarantee about the values they hand over. */
  ghost predicate Admitted(op: Op) {
    match op
    case GetConfig(v) => ValidValue(v)
    case TakeEvent(v) => AdmittedEvent(v)
    case TakeAnswer(v) => ValidValue(v)
    case NewNumber(n) => -I64_MAX - 1 <= n <= I64_MAX
    case NewScalar(v) => v.Null? || v.Bool? || v == Array([]) || v == Object([])
    case _ => true
  }

  function Perform(t: Table, next: nat, op: Op): Outcome {
    match op
    case GetConfig(v) => Inserted(t, next, Json(v))
    case TakeEvent(v) => Inserted(t, next, Json(v))
    case TakeAnswer(v) => Inserted(t, next, Json(v))
    case Parse(v) =>
      if v.None? then Outcome(t, next, INVALID)
      else if !ValidValue(v.value) then Outcome(t, next, LIMIT)
      else Inserted(t, next, Json(v.value))
    case NewText(text) =>
      if !ValidValue(String(text)) then Outcome(t, next, LIMIT) else Inserted(t, next, Json(String(text)))
    case NewNumber(n) => Inserted(t, next, Json(Integer(n)))
    case NewScalar(v) => Inserted(t, next, Json(v))
    case NewBlob(bytes) =>
      if |bytes| > MAX_VALUE_BYTES then Outcome(t, next, LIMIT) else Inserted(t, next, Blob(bytes))
    case GetMember(h, key) => InsertedPart(t, next, MemberOf(t, h, key))
    case GetItem(h, i) => InsertedPart(t, next, ItemOf(t, h, i))
    case Dump(h) =>
      if JsonAt(t, h).None? then Outcome(t, next, INVALID) else Inserted(t, next, Blob(Print(JsonAt(t, h).value)))
    case SetMember(h, key, source) =>
      var (table, result) := Store(t, h, AfterSet(t, h, key, source));
      Outcome(table, next, result)
    case PushItem(h, source) =>
      var (table, result) := Store(t, h, AfterPush(t, h, source));
      Outcome(table, next, result)
    case DropHandle(h) =>
      var (table, result) := Dropped(t, h);
      Outcome(table, next, result)
  }

  // ----- Bounds on what a handle holds -----

  ghost predicate Modest(handle: Handle) {
    match handle
    case Json(v) => |Print(v)| <= MAX_VALUE_BYTES && Depth(v) <= MAX_DEPTH + 1 && Nodes(v) <= MAX_NODES + 3
    case Blob(bytes) => |bytes| <= MAX_VALUE_BYTES
  }

  ghost predicate TableSound(t: Table, next: nat) {
    && 1 <= next <= I64_MAX
    && |t| <= MAX_HANDLES
    && forall h :: h in t ==> 1 <= h < next && Modest(t[h])
  }

  lemma EnvelopeModest(v: Value)
    requires AdmittedEvent(v)
    ensures Modest(Json(v))
  {
    hide Print, ValidValue, Nodes, Depth, Ascii;
    var id, payload, topic :| ValidValue(payload) && v == Envelope(id, payload, topic);
    EnvelopeMeasures(id, payload, topic);
    ValidMeasures(payload);
  }

  lemma ValidMeasures(v: Value)
    requires ValidValue(v)
    ensures Depth(v) <= MAX_DEPTH && Nodes(v) <= MAX_NODES
  {
  }

  lemma EnvelopeMeasures(id: Bytes, payload: Value, topic: Bytes)
    ensures Depth(Envelope(id, payload, topic)) == 1 + Depth(payload)
    ensures Nodes(Envelope(id, payload, topic)) == 3 + Nodes(payload)
  {
    hide Nodes, Depth, NodesIn, DepthIn, Ascii;
    var a, b, c := Member(Ascii("event_id"), String(id)), Member(Ascii("payload"), payload), Member(Ascii("topic"), String(topic));
    TextMeasures(id);
    TextMeasures(topic);
    ThreeMembers(a, b, c);
    ObjectMeasures([a, b, c]);
  }

  lemma NumberModest(n: int)
    requires -I64_MAX - 1 <= n <= I64_MAX
    ensures Modest(Json(Integer(n)))
  {
    PowersOfTen();
    DigitsLength(if n < 0 then -n else n, 19);
  }

  lemma PowersOfTen()
    ensures Power(19) > I64_MAX + 1
  {
    assert Power(5) == 100000;
    assert Power(10) == 10000000000;
    assert Power(15) == 1000000000000000;
  }

  lemma PartModest(t: Table, next: nat, h: nat)
    requires TableSound(t, next)
    ensures forall key :: MemberOf(t, h, key).Some? ==> Modest(Json(MemberOf(t, h, key).value))
    ensures forall i: nat :: ItemOf(t, h, i).Some? ==> Modest(Json(ItemOf(t, h, i).value))
  {
    if JsonAt(t, h).Some? {
      PartsWithin(JsonAt(t, h).value);
    }
  }

  lemma InsertSoundAll(t: Table, next: nat)
    requires TableSound(t, next)
    ensures forall handle | Modest(handle) :: var r := Inserted(t, next, handle); TableSound(r.table, r.next)
  {
    hide Modest;
  }

  /** Every helper keeps the table within bounds. */
  lemma PerformSound(t: Table, next: nat, op: Op)
    requires TableSound(t, next) && Admitted(op)
    ensures var r := Perform(t, next, op); TableSound(r.table, r.next)
  {
    hide TableSound, Modest, Inserted, Store, ValidValue, AfterSet, AfterPush, MemberOf, ItemOf, JsonAt, Integer, Print;
    match op
    case GetMember(h, key) => PartModest(t, next, h); InsertSoundAll(t, next);
    case GetItem(h, i) => PartModest(t, next, h); InsertSoundAll(t, next);
    case Dump(h) => DumpModest(t, next, h); InsertSoundAll(t, next);
    case SetMember(h, key, source) => SetSound(t, next, h, key, source);
    case PushItem(h, source) => PushSound(t, next, h, source);
    case DropHandle(h) => DropSound(t, next, h);
    case _ => NewModest(op); InsertSoundAll(t, next);
  }

  /** The value a helper brings in from outside the table, if it passes the helper's checks. */
  function Brought(op: Op): Option<Handle> {
    match op
    case GetConfig(v) => Some(Json(v))
    case TakeEvent(v) => Some(Json(v))
    case TakeAnswer(v) => Some(Json(v))
    case Parse(parsed) => if parsed.Some? && ValidValue(parsed.value) then Some(Json(parsed.value)) else None
    case NewText(text) => if ValidValue(String(text)) then Some(Json(String(text))) else None
    case NewNumber(n) => Some(Json(Integer(n)))
    case NewScalar(v) => Some(Json(v))
    case NewBlob(bytes) => if |bytes| <= MAX_VALUE_BYTES then Some(Blob(bytes)) else None
    case _ => None
  }

  lemma NewModest(op: Op)
    requires Admitted(op)
    ensures Brought(op).Some? ==> Modest(Brought(op).value)
  {
    hide Print, Nodes, Depth, Integer, AdmittedEvent;
    match op
    case TakeEvent(v) => EnvelopeModest(v);
    case NewNumber(n) => NumberModest(n);
    case NewScalar(v) => ScalarModest(v);
    case _ =>
  }

  lemma DumpModest(t: Table, next: nat, h: nat)
    requires TableSound(t, next)
    ensures JsonAt(t, h).Some? ==> Modest(Blob(Print(JsonAt(t, h).value)))
  {
    hide Print, Nodes, Depth;
  }

  lemma SetSound(t: Table, next: nat, h: nat, key: Bytes, source: nat)
    requires TableSound(t, next)
    ensures TableSound(Store(t, h, AfterSet(t, h, key, source)).0, next)
  {
    hide TableSound, Store, WithMember;
    StoreSound(t, next, h, AfterSet(t, h, key, source));
  }

  lemma PushSound(t: Table, next: nat, h: nat, source: nat)
    requires TableSound(t, next)
    ensures TableSound(Store(t, h, AfterPush(t, h, source)).0, next)
  {
    hide TableSound, Store;
    StoreSound(t, next, h, AfterPush(t, h, source));
  }

  lemma StoreSound(t: Table, next: nat, h: nat, target: Option<Value>)
    requires TableSound(t, next) && (target.Some? ==> h in t)
    ensures TableSound(Store(t, h, target).0, next)
  {
    hide Print, Nodes, Depth;
    if target.Some? {
      var after := t[h := Json(target.value)];
      assert after.Keys == t.Keys;
      assert |after| == |t|;
    }
  }

  lemma ScalarModest(v: Value)
    requires v.Null? || v.Bool? || v == Array([]) || v == Object([])
    ensures Modest(Json(v))
  {
  }

  lemma DropSound(t: Table, next: nat, h: nat)
    requires TableSound(t, next)
    ensures TableSound(Dropped(t, h).0, next)
  {
    if h in t {
      assert (t - {h}).Keys == t.Keys - {h};
      assert |(t - {h}).Keys| == |t.Keys| - 1;
    }
  }

  // ----- What a helper may touch -----

  /**
    A helper adds at most the handle it returns, which is the counter's old value; drops
    at most the one named; and rewrites only the target of a successful set or push.
   */
  lemma PerformTouches(t: Table, next: nat, op: Op)
    requires TableSound(t, next)
    ensures var r := Perform(t, next, op);
      && (r.next == next || (r.next == next + 1 && r.result == next))
      && (r.result < 0 ==> r.table == t && r.next == next)
      && (forall h :: h in r.table && h !in t ==> h == next == r.result)
      && (forall h :: h in t && h !in r.table ==> op == DropHandle(h))
      && (forall h :: h in t && h in r.table && r.table[h] != t[h] ==>
            (op.SetMember? || op.PushItem?) && op.h == h && r.result == 0)
  {
    hide Print, Depth, Nodes, Modest, ValidValue, WithMember, Integer;
  }

  /** A set makes the key read back as the source, and leaves every other key alone. */
  lemma SetReadsBack(t: Table, next: nat, h: nat, key: Bytes, source: nat)
    requires Perform(t, next, SetMember(h, key, source)).result == 0
    ensures var after := Perform(t, next, SetMember(h, key, source)).table;
      && MemberOf(after, h, key) == JsonAt(t, source)
      && forall other :: other != key ==> MemberOf(after, h, other) == MemberOf(t, h, other)
  {
    hide ValidValue, Print;
    var members, value := t[h].value.members, t[source].value;
    forall other ensures Find(WithMember(members, key, value), other)
                      == if other == key then Some(value) else Find(members, other)
    {
      FindWithMember(members, key, value, other);
    }
  }

  lemma {:induction false} FindWithMember(members: seq<Member>, key: Bytes, value: Value, other: Bytes)
    ensures Find(WithMember(members, key, value), other) == if other == key then Some(value) else Find(members, other)
  {
    if members != [] {
      FindWithMember(members[1..], key, value, other);
      assert ([members[0]] + WithMember(members[1..], key, value))[1..] == WithMember(members[1..], key, value);
      assert ([Member(key, value)] + members)[1..] == members;
      assert ([Member(key, value)] + members[1..])[1..] == members[1..];
    }
  }

  /** A push adds the source at the end, and leaves every other item alone. */
  lemma PushReadsBack(t: Table, next: nat, h: nat, source: nat)
    requires Perform(t, next, PushItem(h, source)).result == 0
    ensures var after, n := Perform(t, next, PushItem(h, source)).table, |t[h].value.items|;
      && ItemOf(after, h, n) == JsonAt(t, source)
      && forall i: nat :: i != n ==> ItemOf(after, h, i) == ItemOf(t, h, i)
  {
    hide ValidValue, Print;
  }

  // ----- What a helper hands out -----

  /** The helper adds exactly this handle under the counter's value, or reports LIMIT when there is no room. */
  ghost predicate HandsOut(t: Table, next: nat, op: Op, handle: Handle) {
    Perform(t, next, op)
    == if |t| < 128 && next < 9223372036854775807 then Outcome(t[next := handle], next + 1, next) else Outcome(t, next, -2)
  }

  ghost predicate Reports(t: Table, next: nat, op: Op, status: int) {
    Perform(t, next, op) == Outcome(t, next, status)
  }

  /** Configuration, events, answers and constants are handed out as they are. */
  lemma ValuesHandedOut(t: Table, next: nat, v: Value)
    ensures HandsOut(t, next, GetConfig(v), Json(v)) && HandsOut(t, next, TakeEvent(v), Json(v))
    ensures HandsOut(t, next, TakeAnswer(v), Json(v)) && HandsOut(t, next, NewScalar(v), Json(v))
  {
  }

  /** A number is handed out as a literal that reads as it. */
  lemma NumberHandedOut(t: Table, next: nat, n: int)
    ensures exists literal: Literal ::
      && HandsOut(t, next, NewNumber(n), Json(Number(literal)))
      && (if n >= 0 then ReadDigits(literal) == n else literal[0] == 45 && ReadDigits(literal[1..]) == -n)
  {
    IntegerReads(n);
    hide Digits, ReadDigits, Integer;
    var literal: Literal := Integer(n).literal;
    assert HandsOut(t, next, NewNumber(n), Json(Number(literal)));
  }

  lemma IntegerReads(n: int)
    ensures Integer(n).Number?
    ensures var literal := Integer(n).literal;
      if n >= 0 then ReadDigits(literal) == n else literal[0] == 45 && ReadDigits(literal[1..]) == -n
  {
    DigitsRoundTrip(if n < 0 then -n else n);
    hide Digits, ReadDigits;
    assert n < 0 ==> Integer(n).literal[1..] == Digits(-n);
  }

  /** Text and parsed values are handed out exactly if they are within the limits. */
  lemma ParsedHandedOut(t: Table, next: nat, v: Value, text: Bytes, bytes: Bytes)
    ensures Reports(t, next, Parse(None), -1)
    ensures if WithinLimits(v) then HandsOut(t, next, Parse(Some(v)), Json(v)) else Reports(t, next, Parse(Some(v)), -2)
    ensures if WithinLimits(String(text)) then HandsOut(t, next, NewText(text), Json(String(text))) else Reports(t, next, NewText(text), -2)
    ensures if |bytes| <= 16384 then HandsOut(t, next, NewBlob(bytes), Blob(bytes)) else Reports(t, next, NewBlob(bytes), -2)
  {
    hide Print, Nodes, Depth;
  }

  /** What is asked of a value is handed out exactly if it is there: the member of that name, the item at that place. */
  lemma PartHandedOut(t: Table, next: nat, h: nat, key: Bytes, i: nat)
    ensures if h in t && t[h].Json? && t[h].value.Object? && (exists m :: m in t[h].value.members && m.key == key)
            then exists m :: m in t[h].value.members && m.key == key && HandsOut(t, next, GetMember(h, key), Json(m.value))
            else Reports(t, next, GetMember(h, key), -1)
    ensures if h in t && t[h].Json? && t[h].value.Array? && i < |t[h].value.items|
            then HandsOut(t, next, GetItem(h, i), Json(t[h].value.items[i]))
            else Reports(t, next, GetItem(h, i), -1)
  {
    hide Find;
    if h in t && t[h].Json? && t[h].value.Object? {
      var members := t[h].value.members;
      FoundExactly(members, key);
      if Find(members, key).Some? {
        FoundIsMember(members, key);
        var m :| m in members && m.key == key && m.value == Find(members, key).value;
        assert HandsOut(t, next, GetMember(h, key), Json(m.value));
      }
    }
  }

  lemma {:induction false} FoundExactly(members: seq<Member>, key: Bytes)
    ensures Find(members, key).Some? <==> exists m :: m in members && m.key == key
  {
    if members != [] {
      FoundExactly(members[1..], key);
      assert forall m :: m in members <==> m == members[0] || m in members[1..];
    }
  }

  /** A dump hands out the printed value, a drop takes the handle away. */
  lemma DumpHandedOut(t: Table, next: nat, h: nat)
    ensures if h in t && t[h].Json? then HandsOut(t, next, Dump(h), Blob(Print(t[h].value))) else Reports(t, next, Dump(h), -1)
    ensures Perform(t, next, DropHandle(h)) == if h in t then Outcome(t - {h}, next, 0) else Outcome(t, next, -1)
  {
    hide Print;
  }

  /** A push or a set succeeds exactly on handles of the right kinds and within the limits. */
  lemma StoredExactly(t: Table, next: nat, h: nat, key: Bytes, source: nat)
    ensures
      if !(source in t && t[source].Json? && h in t && t[h].Json? && t[h].value.Array?) then Reports(t, next, PushItem(h, source), -1)
      else
        var grown := Array(t[h].value.items + [t[source].value]);
        if WithinLimits(grown) then Perform(t, next, PushItem(h, source)) == Outcome(t[h := Json(grown)], next, 0)
        else Reports(t, next, PushItem(h, source), -2)
    ensures
      if !(source in t && t[source].Json? && h in t && t[h].Json? && t[h].value.Object?) then Reports(t, next, SetMember(h, key, source), -1)
      else
        var grown := Object(WithMember(t[h].value.members, key, t[source].value));
        if WithinLimits(grown) then Perform(t, next, SetMember(h, key, source)) == Outcome(t[h := Json(grown)], next, 0)
        else Reports(t, next, SetMember(h, key, source), -2)
  {
    hide Print, Nodes, Depth, WithMember;
  }

  // ----- Key order -----

  ghost predicate TableOrdered(t: Table) {
    forall h :: h in t && t[h].Json? ==> KeysOrdered(t[h].value)
  }

  /** The parser and the runtime build objects as ordered maps. */
  ghost predicate InputOrdered(op: Op) {
    match op
    case GetConfig(v) => KeysOrdered(v)
    case TakeEvent(v) => KeysOrdered(v)
    case TakeAnswer(v) => KeysOrdered(v)
    case Parse(parsed) => parsed.Some? ==> KeysOrdered(parsed.value)
    case NewScalar(v) => KeysOrdered(v)
    case _ => true
  }

  lemma {:induction false} SetKeepsOrder(members: seq<Member>, key: Bytes, value: Value)
    requires Ascending(Keys(members))
    ensures var after := WithMember(members, key, value);
      && Ascending(Keys(after))
      && (forall m :: m in after ==> m == Member(key, value) || m in members)
  {
    hide Before;
    if members != [] {
      var m, rest := members[0], members[1..];
      BeforeTotal(key, m.key);
      assert Keys(rest) == Keys(members)[1..];
      if m.key == key {
        assert Keys(WithMember(members, key, value)) == Keys(members);
      } else if Before(key, m.key) {
        forall j | 0 <= j < |members| ensures Before(key, members[j].key) {
          if j > 0 {
            assert Before(Keys(members)[0], Keys(members)[j]);
            BeforeTransitive(key, m.key, members[j].key);
          }
        }
        assert Keys(WithMember(members, key, value)) == [key] + Keys(members);
      } else {
        SetKeepsOrder(rest, key, value);
        var after := WithMember(rest, key, value);
        assert Keys(WithMember(members, key, value)) == [m.key] + Keys(after);
        forall j | 0 <= j < |after| ensures Before(m.key, after[j].key) {
          assert after[j] in after;
          if after[j] != Member(key, value) {
            var n :| 0 <= n < |rest| && rest[n] == after[j];
            assert Before(Keys(members)[0], Keys(members)[n + 1]);
          }
        }
      }
    }
  }

  lemma SetOrdered(members: seq<Member>, key: Bytes, value: Value)
    requires KeysOrdered(Object(members)) && KeysOrdered(value)
    ensures KeysOrdered(Object(WithMember(members, key, value)))
  {
    SetKeepsOrder(members, key, value);
    var after := WithMember(members, key, value);
    hide WithMember, Ascending;
    forall i | 0 <= i < |after| ensures KeysOrdered(after[i].value) {
      assert after[i] in after;
      if after[i] != Member(key, value) {
        var j :| 0 <= j < |members| && members[j] == after[i];
      }
    }
  }

  /** Whatever a guest does, every object it holds keeps its keys in order. */
  lemma PerformOrdered(t: Table, next: nat, op: Op)
    requires TableOrdered(t) && InputOrdered(op)
    ensures TableOrdered(Perform(t, next, op).table)
  {
    hide KeysOrdered, ValidValue, Print, WithMember, Get, At, Integer;
    match op
    case GetMember(h, key) => PartsOrderedAt(t, h);
    case GetItem(h, i) => PartsOrderedAt(t, h);
    case SetMember(h, key, source) =>
      if AfterSet(t, h, key, source).Some? {
        SetOrdered(t[h].value.members, key, t[source].value);
      }
    case PushItem(h, source) =>
      if AfterPush(t, h, source).Some? {
        PushOrdered(t[h].value.items, t[source].value);
      }
    case NewText(text) => assert KeysOrdered(String(text)) by { TextOrdered(text); }
    case NewNumber(n) => NumberOrdered(n);
    case _ =>
  }

  lemma TextOrdered(text: Bytes)
    ensures KeysOrdered(String(text))
  {
  }

  lemma NumberOrdered(n: int)
    ensures KeysOrdered(Integer(n))
  {
  }

  lemma PushOrdered(items: seq<Value>, value: Value)
    requires KeysOrdered(Array(items)) && KeysOrdered(value)
    ensures KeysOrdered(Array(items + [value]))
  {
  }

  lemma PartsOrderedAt(t: Table, h: nat)
    requires TableOrdered(t)
    ensures forall key :: MemberOf(t, h, key).Some? ==> KeysOrdered(MemberOf(t, h, key).value)
    ensures forall i: nat :: ItemOf(t, h, i).Some? ==> KeysOrdered(ItemOf(t, h, i).value)
  {
    hide KeysOrdered, Get, At;
    if JsonAt(t, h).Some? {
      PartsOrdered(JsonAt(t, h).value);
    }
  }

  lemma EnvelopeOrdered(id: Bytes, payload: Value, topic: Bytes)
    requires KeysOrdered(payload)
    ensures KeysOrdered(Envelope(id, payload, topic))
  {
    AsciiHead("event_id");
    AsciiHead("payload");
    AsciiHead("topic");
    hide Ascii;
    assert Keys(Envelope(id, payload, topic).members) == [Ascii("event_id"), Ascii("payload"), Ascii("topic")];
  }

  // ----- Events that exceed the limits -----

  /** An event is a valid value itself only if its payload leaves room for the envelope. */
  lemma EnvelopeValidExactly(id: Bytes, payload: Value, topic: Bytes)
    requires |Print(Envelope(id, payload, topic))| <= MAX_VALUE_BYTES
    ensures ValidValue(Envelope(id, payload, topic)) <==> Depth(payload) < MAX_DEPTH && Nodes(payload) <= MAX_NODES - 3
  {
    hide Print, Nodes, Depth, Ascii, Envelope;
    EnvelopeMeasures(id, payload, topic);
  }

  function Nested(depth: nat): Value {
    if depth == 0 then Null else Array([Nested(depth - 1)])
  }

  lemma {:induction false} NestedMeasures(depth: nat)
    ensures Depth(Nested(depth)) == depth && Nodes(Nested(depth)) == depth + 1 && |Print(Nested(depth))| == 2 * depth + 4
  {
    if depth == 0 {
      assert Nodes(Null) == 1 && Depth(Null) == 0 && |Print(Null)| == 4;
    } else {
      var inner := Nested(depth - 1);
      NestedMeasures(depth - 1);
      OnlyItem(inner);
      assert Nested(depth) == Array([inner]);
      ArrayMeasures([inner]);
    }
  }

  lemma MemberPrints(key: Bytes, v: Value)
    ensures |PrintMember(Member(key, v))| <= 3 + 6 * |key| + |Print(v)|
  {
    hide Escape;
    EscapeOneLine(key);
  }

  lemma EnvelopePrints(id: Bytes, payload: Value, topic: Bytes)
    ensures |Print(Envelope(id, payload, topic))| <= 200 + 6 * |id| + |Print(payload)| + 6 * |topic|
  {
    hide Escape, PrintMember, Ascii, PrintMembers;
    var a, b, c := Member(Ascii("event_id"), String(id)), Member(Ascii("payload"), payload), Member(Ascii("topic"), String(topic));
    MemberPrints(a.key, a.value);
    MemberPrints(b.key, b.value);
    MemberPrints(c.key, c.value);
    EscapeOneLine(id);
    EscapeOneLine(topic);
    ThreeMembers(a, b, c);
    ObjectMeasures([a, b, c]);
  }

  /** An admitted event that no helper would accept as a value: its payload is as deep as values may be. */
  lemma DeepEventAdmitted()
    ensures var payload := Nested(MAX_DEPTH);
      && ValidValue(payload) && AdmittedEvent(Envelope([], payload, []))
      && !ValidValue(Envelope([], payload, []))
  {
    hide Nested, Print, Nodes, Depth;
    NestedMeasures(MAX_DEPTH);
    EnvelopePrints([], Nested(MAX_DEPTH), []);
    EnvelopeValidExactly([], Nested(MAX_DEPTH), []);
  }

  // ----- The table as the program keeps it -----

  /** The process-wide counter. */
  class Counter {
    var next: nat

    constructor ()
      ensures next == 1
    {
      next := 1;
    }
  }

  class GuestContext {
    var handles: Table
    const counter: Counter

    constructor (counter: Counter)
      ensures handles == map[] && this.counter == counter
    {
      handles := map[];
      this.counter := counter;
    }

    method Insert(handle: Handle) returns (result: int)
      modifies this, counter
      ensures Outcome(handles, counter.next, result) == Inserted(old(handles), old(counter.next), handle)
    {
      if |handles| >= MAX_HANDLES {
        return LIMIT;
      }
      if counter.next >= I64_MAX {
        return LIMIT;
      }
      var id := counter.next;
      counter.next := id + 1;
      handles := handles[id := handle];
      result := id;
    }

    method Drop(h: nat) returns (result: int)
      modifies this
      ensures Outcome(handles, counter.next, result) == Perform(old(handles), old(counter.next), DropHandle(h))
    {
      if h in handles {
        handles := handles - {h};
        result := 0;
      } else {
        result := INVALID;
      }
    }

    method ParseText(parsed: Option<Value>) returns (result: int)
      modifies this, counter
      ensures Outcome(handles, counter.next, result) == Perform(old(handles), old(counter.next), Parse(parsed))
    {
      if parsed.None? {
        return INVALID;
      }
      var valid, visits := CheckValue(parsed.value);
      if !valid {
        return LIMIT;
      }
      result := Insert(Json(parsed.value));
    }

    method ReadMember(h: nat, key: Bytes) returns (result: int)
      modifies this, counter
      ensures Outcome(handles, counter.next, result) == Perform(old(handles), old(counter.next), GetMember(h, key))
    {
      var part := if JsonAt(handles, h).Some? then Get(JsonAt(handles, h).value, key) else None;
      if part.None? {
        return INVALID;
      }
      result := Insert(Json(part.value));
    }

    method ReadItem(h: nat, i: nat) returns (result: int)
      modifies this, counter
      ensures Outcome(handles, counter.next, result) == Perform(old(handles), old(counter.next), GetItem(h, i))
    {
      var part := if JsonAt(handles, h).Some? then At(JsonAt(handles, h).value, i) else None;
      if part.None? {
        return INVALID;
      }
      result := Insert(Json(part.value));
    }

    method DumpText(h: nat) returns (result: int)
      modifies this, counter
      ensures Outcome(handles, counter.next, result) == Perform(old(handles), old(counter.next), Dump(h))
    {
      if JsonAt(handles, h).None? {
        return INVALID;
      }
      result := Insert(Blob(Print(JsonAt(handles, h).value)));
    }

    method Set(h: nat, key: Bytes, source: nat) returns (result: int)
      modifies this
      ensures Outcome(handles, counter.next, result) == Perform(old(handles), old(counter.next), SetMember(h, key, source))
    {
      if JsonAt(handles, source).None? || JsonAt(handles, h).None? {
        return INVALID;
      }
      var value, target := JsonAt(handles, source).value, JsonAt(handles, h).value;
      if !target.Object? {
        return INVALID;
      }
      target := Object(WithMember(target.members, key, value));
      var valid, visits := CheckValue(target);
      if !valid {
        return LIMIT;
      }
      handles := handles[h := Json(target)];
      result := 0;
    }

    method Push(h: nat, source: nat) returns (result: int)
      modifies this
      ensures Outcome(handles, counter.next, result) == Perform(old(handles), old(counter.next), PushItem(h, source))
    {
      if JsonAt(handles, source).None? || JsonAt(handles, h).None? {
        return INVALID;
      }
      var value, target := JsonAt(handles, source).value, JsonAt(handles, h).value;
      if !target.Array? {
        return INVALID;
      }
      target := Array(target.items + [value]);
      var valid, visits := CheckValue(target);
      if !valid {
        return LIMIT;
      }
      handles := handles[h := Json(target)];
      result := 0;
    }
  }
}
