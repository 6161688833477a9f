/**
  How long a frame can wait in the outbox, counted in calls of `next`, under any
  interleaving of pushes, removals and closing (src/outbox.rs:106-134, 157-216).
 */
module Fairness {
  import opened Prelude
  import opened OutboxModel

  function Calls(ops: seq<Op>): nat {
    if ops == [] then 0 else (if ops[0].Next? then 1 else 0) + Calls(ops[1..])
  }

  function Position(q: Queues, owner: Id): nat {
    LaneIndex(q.lanes, owner)
  }

  /** This operation hands a frame of the object to the writer. */
  predicate Serves(q: Queues, op: Op, owner: Id) {
    op.Next? && Output(q).Some? && Output(q).value.FromLane? && Output(q).value.owner == owner
  }

  // ----- The burst counter -----

  /** The counter passes its limit exactly when a ninth control frame in a row leaves and no object waits. */
  lemma BurstPassesExactly(q: Queues)
    requires WellFormed(q) && q.burst <= BURST
    ensures AfterNext(q).burst > BURST <==> q.burst == BURST && q.control != [] && q.lanes == []
  {
  }

  /** It then grows without bound: n control frames taken while no object waits count n. */
  lemma {:induction false} BurstGrows(n: nat) returns (ops: seq<Op>)
    ensures Run(EMPTY, ops) == Queues([], [], n, false)
  {
    if n == 0 {
      ops := [];
    } else {
      var before := BurstGrows(n - 1);
      var last := [AddControl(Frame([NEWLINE], Other)), Next];
      ops := before + last;
      RunSplit(EMPTY, before, last);
      var q := Queues([], [], n - 1, false);
      var filled := Apply(q, last[0]);
      assert filled.control == [Frame([NEWLINE], Other)] && last[1..] == [Next] && [Next][1..] == [];
      assert Run(filled, [Next]) == Run(Apply(filled, Next), []);
      assert Run(q, last) == Run(filled, [Next]);
    }
  }

  // ----- An object that stays ready is served -----

  /** Until it is first served, the object stays ready: no removal empties its lane. */
  predicate StaysReady(q: Queues, ops: seq<Op>, owner: Id)
    decreases ops
  {
    && Ready(q, owner)
    && (ops == [] || Serves(q, ops[0], owner) || StaysReady(Apply(q, ops[0]), ops[1..], owner))
  }

  /** Calls of `next` the object may still have to wait, itself included. */
  function Wait(q: Queues, owner: Id): nat {
    9 * Position(q, owner) + 9 - Min(q.burst, BURST)
  }

  lemma {:induction false} IndexAt(lanes: seq<Lane>, owner: Id, i: nat)
    requires i < |lanes| && lanes[i].owner == owner
    requires forall j :: 0 <= j < i ==> lanes[j].owner != owner
    ensures LaneIndex(lanes, owner) == i
  {
    if i > 0 {
      IndexAt(lanes[1..], owner, i - 1);
    }
  }

  /** Removing some lane never moves another object back. */
  lemma IndexWithout(lanes: seq<Lane>, i: nat, owner: Id)
    requires LanesApart(lanes) && i < |lanes| && lanes[i].owner != owner && LaneIndex(lanes, owner) < |lanes|
    ensures LaneIndex(Without(lanes, i), owner) == LaneIndex(lanes, owner) - if i < LaneIndex(lanes, owner) then 1 else 0
    ensures LaneIndex(Without(lanes, i), owner) < |lanes| - 1
  {
    var p := LaneIndex(lanes, owner);
    IndexAt(Without(lanes, i), owner, if i < p then p - 1 else p);
  }

  /** No operation moves a waiting object back, and every `next` that does not serve it brings its turn closer. */
  lemma WaitShrinks(q: Queues, op: Op, owner: Id)
    requires WellFormed(q) && Ready(q, owner) && !Serves(q, op, owner) && Ready(Apply(q, op), owner)
    ensures Wait(Apply(q, op), owner) <= Wait(q, owner) - if op.Next? then 1 else 0
  {
    var p := Position(q, owner);
    match op
    case AddControl(f) =>
    case CloseAll =>
    case AddData(o, f) =>
      IndexAt(Apply(q, op).lanes, owner, p);
    case DropRequest(o, id) => RemovalShrinks(q, op, owner);
    case DropObject(o) => RemovalShrinks(q, op, owner);
    case Next =>
      if !ControlTurn(q) {
        IndexAt(AfterNext(q).lanes, owner, p - 1);
      }
  }

  lemma RemovalShrinks(q: Queues, op: Op, owner: Id)
    requires WellFormed(q) && Ready(q, owner) && Ready(Apply(q, op), owner)
    requires op.DropObject? || op.DropRequest?
    ensures Wait(Apply(q, op), owner) <= Wait(q, owner)
  {
    RemovalTrims(q, op);
    hide Apply, LanesFit, Total;
    var i := LaneIndex(q.lanes, op.owner);
    if i < |q.lanes| {
      if op.owner == owner {
        TrimSelf(q.lanes, Apply(q, op).lanes, i);
      } else {
        TrimOther(q.lanes, Apply(q, op).lanes, i, owner);
      }
    }
  }

  /** What both removals do to the ring: lane i goes, or only its frames change. */
  ghost predicate Trimmed(lanes: seq<Lane>, after: seq<Lane>, i: nat) {
    && i < |lanes|
    && (|| after == Without(lanes, i)
        || exists frames :: after == lanes[i := Lane(lanes[i].owner, frames)])
  }

  lemma RemovalTrims(q: Queues, op: Op)
    requires op.DropObject? || op.DropRequest?
    ensures var i := LaneIndex(q.lanes, op.owner);
            if i == |q.lanes| then Apply(q, op) == q
            else Trimmed(q.lanes, Apply(q, op).lanes, i) && Apply(q, op).burst == q.burst
  {
  }

  /** Other objects keep their frames and do not move back. */
  lemma TrimOther(lanes: seq<Lane>, after: seq<Lane>, i: nat, owner: Id)
    requires LanesApart(lanes) && Trimmed(lanes, after, i) && lanes[i].owner != owner
    requires LaneIndex(lanes, owner) < |lanes|
    ensures LaneIndex(after, owner) <= LaneIndex(lanes, owner) && LaneIndex(after, owner) < |after|
    ensures after[LaneIndex(after, owner)] == lanes[LaneIndex(lanes, owner)]
  {
    hide LanesApart;
    if after == Without(lanes, i) {
      IndexWithout(lanes, i, owner);
    } else {
      var frames :| after == lanes[i := Lane(lanes[i].owner, frames)];
      IndexUpdated(lanes, i, frames, owner);
    }
  }

  lemma IndexUpdated(lanes: seq<Lane>, i: nat, frames: seq<Frame>, owner: Id)
    requires i < |lanes| && lanes[i].owner != owner && LaneIndex(lanes, owner) < |lanes|
    ensures var after := lanes[i := Lane(lanes[i].owner, frames)];
      LaneIndex(after, owner) == LaneIndex(lanes, owner) && after[LaneIndex(after, owner)] == lanes[LaneIndex(lanes, owner)]
  {
    IndexAt(lanes[i := Lane(lanes[i].owner, frames)], owner, LaneIndex(lanes, owner));
  }

  /** The object itself, if it stays ready, keeps its place. */
  lemma TrimSelf(lanes: seq<Lane>, after: seq<Lane>, i: nat)
    requires LanesApart(lanes) && Trimmed(lanes, after, i)
    requires LaneIndex(after, lanes[i].owner) < |after|
    ensures LaneIndex(after, lanes[i].owner) == i == LaneIndex(lanes, lanes[i].owner)
  {
    IndexAt(lanes, lanes[i].owner, i);
    if after != Without(lanes, i) {
      IndexAt(after, lanes[i].owner, i);
    }
  }

  /**
    Round-robin fairness: an object that stays ready is served within nine calls of
    `next` for each object ahead of it and nine for itself.
   */
  lemma {:induction false} ServedWithin(q: Queues, ops: seq<Op>, owner: Id)
    requires WellFormed(q) && StaysReady(q, ops, owner)
    requires Calls(ops) >= 9 * (Position(q, owner) + 1)
    ensures exists i :: 0 <= i < |ops| && Serves(Run(q, ops[..i]), ops[i], owner)
                     && Calls(ops[..i + 1]) <= 9 * (Position(q, owner) + 1)
  {
    var i := FirstService(q, ops, owner);
  }

  lemma {:induction false} FirstService(q: Queues, ops: seq<Op>, owner: Id) returns (i: nat)
    requires WellFormed(q) && StaysReady(q, ops, owner)
    requires Calls(ops) >= Wait(q, owner)
    ensures i < |ops| && Serves(Run(q, ops[..i]), ops[i], owner)
    ensures Calls(ops[..i + 1]) <= Wait(q, owner)
    decreases ops
  {
    if Serves(q, ops[0], owner) {
      i := 0;
      assert ops[..1] == [ops[0]];
      return;
    }
    var next := Apply(q, ops[0]);
    WaitShrinks(q, ops[0], owner);
    ApplyKeeps(q, ops[0]);
    var k := FirstService(next, ops[1..], owner);
    i := k + 1;
    assert ops[..i][1..] == ops[1..][..k];
    assert ops[..i + 1][1..] == ops[1..][..k + 1];
  }

  // ----- A frame deep in a lane -----

  /** What becomes of the frame at depth k of an object's lane. */
  datatype Fate = Waiting(depth: nat) | Emitted | Removed

  function Follow(q: Queues, op: Op, owner: Id, k: nat): Fate
    requires k < |FramesOf(q, owner)|
  {
    if Serves(q, op, owner) then
      if k == 0 then Emitted else Waiting(k - 1)
    else if op == DropObject(owner) then Removed
    else if op.DropRequest? && op.owner == owner then
      if FramesOf(q, owner)[k].RequestId() == Some(op.id) then Removed
      else Waiting(|Unrelated(FramesOf(q, owner)[..k], op.id)|)
    else Waiting(k)
  }

  lemma {:induction false} UnrelatedAt(frames: seq<Frame>, id: Id, k: nat)
    requires k < |frames| && frames[k].RequestId() != Some(id)
    ensures |Unrelated(frames[..k], id)| <= k
    ensures |Unrelated(frames[..k], id)| < |Unrelated(frames, id)|
    ensures Unrelated(frames, id)[|Unrelated(frames[..k], id)|] == frames[k]
  {
    if k > 0 {
      assert frames[..k][1..] == frames[1..][..k - 1];
      UnrelatedAt(frames[1..], id, k - 1);
    }
  }

  /** The fate of a frame says where it is now: the very same frame, no deeper than before. */
  ghost predicate FollowsRightly(q: Queues, op: Op, owner: Id, k: nat)
    requires k < |FramesOf(q, owner)|
  {
    match Follow(q, op, owner, k)
    case Waiting(d) =>
      && d <= k
      && d < |FramesOf(Apply(q, op), owner)|
      && FramesOf(Apply(q, op), owner)[d] == FramesOf(q, owner)[k]
    case Emitted => Output(q).value.frame == FramesOf(q, owner)[k]
    case Removed => true
  }

  lemma FollowFinds(q: Queues, op: Op, owner: Id, k: nat)
    requires WellFormed(q) && k < |FramesOf(q, owner)|
    ensures FollowsRightly(q, op, owner, k)
  {
    match op
    case AddControl(f) =>
    case CloseAll =>
    case AddData(o, f) => FollowPush(q, o, f, owner, k);
    case DropRequest(o, id) =>
      if o == owner {
        FollowRetain(q, id, owner, k);
      } else {
        FollowOther(q, op, owner, k);
      }
    case DropObject(o) =>
      if o != owner {
        FollowOther(q, op, owner, k);
      }
    case Next => FollowNext(q, owner, k);
  }

  lemma FollowPush(q: Queues, o: Id, f: Frame, owner: Id, k: nat)
    requires WellFormed(q) && k < |FramesOf(q, owner)|
    ensures FollowsRightly(q, AddData(o, f), owner, k)
  {
    var after := PushData(q, o, f);
    IndexAt(after.lanes, owner, Position(q, owner));
    assert FramesOf(after, owner)[k] == FramesOf(q, owner)[k];
  }

  lemma FollowRetain(q: Queues, id: Id, owner: Id, k: nat)
    requires WellFormed(q) && k < |FramesOf(q, owner)|
    ensures FollowsRightly(q, DropRequest(owner, id), owner, k)
  {
    var frames := FramesOf(q, owner);
    if frames[k].RequestId() != Some(id) {
      UnrelatedAt(frames, id, k);
      IndexAt(RemoveRequest(q, owner, id).lanes, owner, Position(q, owner));
    }
  }

  lemma FollowOther(q: Queues, op: Op, owner: Id, k: nat)
    requires WellFormed(q) && k < |FramesOf(q, owner)|
    requires (op.DropObject? || op.DropRequest?) && op.owner != owner
    ensures FollowsRightly(q, op, owner, k)
  {
    RemovalTrims(q, op);
    hide Apply, LanesFit, Total;
    if Ready(q, op.owner) {
      TrimOther(q.lanes, Apply(q, op).lanes, LaneIndex(q.lanes, op.owner), owner);
    }
  }

  lemma FollowNext(q: Queues, owner: Id, k: nat)
    requires WellFormed(q) && k < |FramesOf(q, owner)|
    ensures FollowsRightly(q, Next, owner, k)
  {
    hide Size, Total;
    var p, after := Position(q, owner), AfterNext(q);
    if !ControlTurn(q) {
      assert LaneTurn(q);
      if p > 0 {
        IndexAt(after.lanes, owner, p - 1);
      } else if k > 0 {
        var last := |after.lanes| - 1;
        assert after.lanes[last] == Lane(owner, q.lanes[0].frames[1..]);
        IndexAt(after.lanes, owner, last);
      }
    }
  }

  /** The frame is not removed before it is emitted, and never more than m objects are ready at once. */
  predicate NeverRemoved(q: Queues, ops: seq<Op>, owner: Id, k: nat, m: nat)
    decreases ops
  {
    && |q.lanes| <= m
    && k < |FramesOf(q, owner)|
    && (ops == [] ||
        match Follow(q, ops[0], owner, k)
        case Waiting(d) => NeverRemoved(Apply(q, ops[0]), ops[1..], owner, d, m)
        case Emitted => true
        case Removed => false)
  }

  /** The number of `next` calls made when the followed frame leaves. */
  function Emission(q: Queues, ops: seq<Op>, owner: Id, k: nat): Option<nat>
    decreases ops
  {
    if ops == [] || k >= |FramesOf(q, owner)| then None
    else match Follow(q, ops[0], owner, k)
      case Emitted => Some(1)
      case Removed => None
      case Waiting(d) =>
        match Emission(Apply(q, ops[0]), ops[1..], owner, d)
        case None => None
        case Some(n) => Some(n + if ops[0].Next? then 1 else 0)
  }

  /** k rounds of at most m objects each. */
  function Rounds(k: nat, m: nat): nat {
    if k == 0 then 0 else m + Rounds(k - 1, m)
  }

  lemma {:induction false} RoundsProduct(k: nat, m: nat)
    ensures Rounds(k, m) == k * m
  {
    if k > 0 {
      RoundsProduct(k - 1, m);
      assert k * m == (k - 1) * m + m;
    }
  }

  lemma {:induction false} RoundsGrow(d: nat, k: nat, m: nat)
    requires d <= k
    ensures Rounds(d, m) <= Rounds(k, m)
  {
    if d < k {
      RoundsGrow(d, k - 1, m);
    }
  }

  /** With at most m objects ready, the frame at depth k leaves within 9((p+1) + km) calls. */
  lemma FrameLeavesWithin(q: Queues, ops: seq<Op>, owner: Id, k: nat, m: nat)
    requires WellFormed(q) && NeverRemoved(q, ops, owner, k, m)
    requires Calls(ops) >= 9 * (Position(q, owner) + 1 + k * m)
    ensures Emission(q, ops, owner, k).Some?
    ensures Emission(q, ops, owner, k).value <= 9 * (Position(q, owner) + 1 + k * m)
  {
    RoundsProduct(k, m);
    FrameLeaves(q, ops, owner, k, m);
  }

  lemma {:induction false} FrameLeaves(q: Queues, ops: seq<Op>, owner: Id, k: nat, m: nat)
    requires WellFormed(q) && NeverRemoved(q, ops, owner, k, m)
    requires Calls(ops) >= Wait(q, owner) + 9 * Rounds(k, m)
    ensures Emission(q, ops, owner, k).Some?
    ensures Emission(q, ops, owner, k).value <= Wait(q, owner) + 9 * Rounds(k, m)
    decreases ops
  {
    hide WellFormed, Apply;
    FollowFinds(q, ops[0], owner, k);
    ApplyKeeps(q, ops[0]);
    match Follow(q, ops[0], owner, k)
    case Emitted =>
    case Removed =>
    case Waiting(d) =>
      RoundsGrow(d, k, m);
      FollowedWaitShrinks(q, ops[0], owner, m, Rounds(d, m), Rounds(k, m));
      FrameLeaves(Apply(q, ops[0]), ops[1..], owner, d, m);
  }

  /** `owedAfter` and `owedBefore` count the calls of the whole rounds still to go. */
  lemma FollowedWaitShrinks(q: Queues, op: Op, owner: Id, m: nat, owedAfter: nat, owedBefore: nat)
    requires WellFormed(q) && Ready(q, owner) && Ready(Apply(q, op), owner) && |Apply(q, op).lanes| <= m
    requires if Serves(q, op, owner) then owedBefore == owedAfter + m else owedAfter <= owedBefore
    ensures Wait(Apply(q, op), owner) + 9 * owedAfter <= Wait(q, owner) + 9 * owedBefore - if op.Next? then 1 else 0
  {
    hide WellFormed;
    if Serves(q, op, owner) {
      assert Position(Apply(q, op), owner) <= m - 1 && Apply(q, op).burst == 0;
    } else {
      WaitShrinks(q, op, owner);
    }
  }

  // ----- Control frames are not starved either -----

  /** The frame at depth c of the control queue leaves after at most this many calls. */
  function ControlWait(q: Queues, c: nat): nat {
    c + 1 + (c + Min(q.burst, BURST)) / BURST
  }

  function ControlEmission(q: Queues, ops: seq<Op>, c: nat): Option<nat>
    decreases ops
  {
    if ops == [] then None
    else if ops[0].Next? && ControlTurn(q) && c == 0 then Some(1)
    else
      var d := if ops[0].Next? && ControlTurn(q) then c - 1 else c;
      match ControlEmission(Apply(q, ops[0]), ops[1..], d)
      case None => None
      case Some(n) => Some(n + if ops[0].Next? then 1 else 0)
  }

  /** Data never delays a control frame by more than one call in eight. */
  lemma {:induction false} ControlLeavesWithin(q: Queues, ops: seq<Op>, c: nat)
    requires WellFormed(q) && c < |q.control|
    requires Calls(ops) >= ControlWait(q, c)
    ensures ControlEmission(q, ops, c).Some? && ControlEmission(q, ops, c).value <= ControlWait(q, c)
    ensures ControlWait(q, c) <= 72
    decreases ops
  {
    var next := Apply(q, ops[0]);
    ApplyKeeps(q, ops[0]);
    if !(ops[0].Next? && ControlTurn(q) && c == 0) {
      ControlLeavesWithin(next, ops[1..], if ops[0].Next? && ControlTurn(q) then c - 1 else c);
    }
  }
}
