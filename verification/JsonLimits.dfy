/** The bounded tree walk of src/helpers.rs:82-95 against its plain specification. */
module JsonLimits {
  import opened Prelude
  import opened Json

  const MAX_VALUE_BYTES: nat := 16 * 1024
  const MAX_DEPTH: nat := 32
  const MAX_NODES: nat := 4096

  /** What the walk is for. */
  predicate Bounded(v: Value) {
    Depth(v) <= MAX_DEPTH && Nodes(v) <= MAX_NODES
  }

  predicate ValidValue(v: Value) {
    Bounded(v) && |Print(v)| <= MAX_VALUE_BYTES
  }

  /** The limits in numbers. */
  predicate WithinLimits(v: Value) {
    Depth(v) <= 32 && Nodes(v) <= 4096 && |Print(v)| <= 16384
  }

  /**
    The walk with its shared counter and early exits. It accepts exactly when the depth
    and the node count stay within bounds, counts every node when it accepts, and never
    visits more than one node past the limit.
   */
  method Visit(v: Value, depth: nat, count: nat) returns (ok: bool, visits: nat)
    requires count <= MAX_NODES
    ensures ok <==> depth + Depth(v) <= MAX_DEPTH && count + Nodes(v) <= MAX_NODES
    ensures ok ==> visits == count + Nodes(v)
    ensures count < visits <= MAX_NODES + 1
    decreases v, 1
  {
    visits := count + 1;
    if depth > MAX_DEPTH || visits > MAX_NODES {
      NodesPositive(v);
      return false, visits;
    }
    match v
    case Array(items) => ok, visits := VisitItems(items, depth, visits);
    case Object(members) => ok, visits := VisitMembers(members, depth, visits);
    case _ => ok := true;
  }

  method VisitItems(items: seq<Value>, depth: nat, count: nat) returns (ok: bool, visits: nat)
    requires count <= MAX_NODES && depth <= MAX_DEPTH
    ensures ok <==> depth + DepthOf(items) <= MAX_DEPTH && count + NodesOf(items) <= MAX_NODES
    ensures ok ==> visits == count + NodesOf(items)
    ensures count <= visits <= MAX_NODES + 1
    decreases items, 0
  {
    visits := count;
    for i := 0 to |items|
      invariant count <= visits <= MAX_NODES
      invariant count + NodesOf(items) == visits + NodesOf(items[i..])
      invariant depth + DepthOf(items) <= MAX_DEPTH <==> depth + DepthOf(items[i..]) <= MAX_DEPTH
    {
      assert items[i..][1..] == items[i + 1..];
      ok, visits := Visit(items[i], depth + 1, visits);
      if !ok {
        return;
      }
    }
    ok := true;
  }

  method VisitMembers(members: seq<Member>, depth: nat, count: nat) returns (ok: bool, visits: nat)
    requires count <= MAX_NODES && depth <= MAX_DEPTH
    ensures ok <==> depth + DepthIn(members) <= MAX_DEPTH && count + NodesIn(members) <= MAX_NODES
    ensures ok ==> visits == count + NodesIn(members)
    ensures count <= visits <= MAX_NODES + 1
    decreases members, 0
  {
    visits := count;
    for i := 0 to |members|
      invariant count <= visits <= MAX_NODES
      invariant count + NodesIn(members) == visits + NodesIn(members[i..])
      invariant depth + DepthIn(members) <= MAX_DEPTH <==> depth + DepthIn(members[i..]) <= MAX_DEPTH
    {
      assert members[i..][1..] == members[i + 1..];
      ok, visits := Visit(members[i].value, depth + 1, visits);
      if !ok {
        return;
      }
    }
    ok := true;
  }

  lemma NodesPositive(v: Value)
    ensures Nodes(v) >= 1
  {
  }

  /** `valid_value`: the walk from the root, then the printed size. */
  method CheckValue(v: Value) returns (ok: bool, visits: nat)
    ensures ok <==> ValidValue(v)
    ensures ok <==> WithinLimits(v)
    ensures visits <= 4097
  {
    ok, visits := Visit(v, 0, 0);
    ok := ok && |Print(v)| <= MAX_VALUE_BYTES;
  }

  /** part is reached from whole by following items and members. */
  ghost predicate PartOf(part: Value, whole: Value)
    decreases whole
  {
    || part == whole
    || (whole.Array? && exists i :: 0 <= i < |whole.items| && PartOf(part, whole.items[i]))
    || (whole.Object? && exists i :: 0 <= i < |whole.members| && PartOf(part, whole.members[i].value))
  }

  lemma {:induction false} MemberWithin(members: seq<Member>, i: nat)
    requires i < |members|
    ensures Nodes(members[i].value) <= NodesIn(members)
    ensures 1 + Depth(members[i].value) <= DepthIn(members)
    ensures |Print(members[i].value)| <= |PrintMembers(members)|
  {
    if i > 0 {
      MemberWithin(members[1..], i - 1);
    }
  }

  lemma ItemInside(whole: Value, i: nat)
    requires whole.Array? && i < |whole.items|
    ensures Within(whole.items[i], whole)
  {
    ItemWithin(whole.items, i);
  }

  lemma MemberInside(whole: Value, i: nat)
    requires whole.Object? && i < |whole.members|
    ensures Within(whole.members[i].value, whole)
  {
    MemberWithin(whole.members, i);
  }

  /** A valid value is valid all the way down. */
  lemma {:induction false} ValidInherited(part: Value, whole: Value)
    requires PartOf(part, whole)
    ensures Within(part, whole)
    ensures ValidValue(whole) ==> ValidValue(part)
    decreases whole
  {
    hide Print, Nodes, Depth;
    if part != whole {
      if whole.Array? {
        var i :| 0 <= i < |whole.items| && PartOf(part, whole.items[i]);
        ItemInside(whole, i);
        ValidInherited(part, whole.items[i]);
      } else {
        var i :| 0 <= i < |whole.members| && PartOf(part, whole.members[i].value);
        MemberInside(whole, i);
        ValidInherited(part, whole.members[i].value);
      }
    }
  }
}
