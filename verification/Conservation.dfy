/**
  Nothing the outbox accepts is lost, repeated or reordered (src/outbox.rs:95-152, 157-216).
  A reference history of one object's accepted frames marks each of them as queued,
  sent or dropped; the ring and the frames really handed out are proved to agree with it.
 */
module Conservation {
  import opened Prelude
  import opened OutboxModel
  import opened Fairness

  datatype Mark = Queued | Sent | Dropped
  datatype Entry = Entry(frame: Frame, mark: Mark)
  type History = seq<Entry>

  /** The frames with a given mark, in acceptance order. */
  function Marked(h: History, mark: Mark): seq<Frame> {
    if h == [] then []
    else (if h[0].mark == mark then [h[0].frame] else []) + Marked(h[1..], mark)
  }

  function Frames(h: History): seq<Frame> {
    if h == [] then [] else [h[0].frame] + Frames(h[1..])
  }

  function MarkFirstSent(h: History): History {
    if h == [] then []
    else if h[0].mark == Queued then [Entry(h[0].frame, Sent)] + h[1..]
    else [h[0]] + MarkFirstSent(h[1..])
  }

  /** Drops the queued frames of one request, or all of them. */
  function MarkDropped(h: History, id: Option<Id>): History {
    if h == [] then []
    else
      var e := h[0];
      [if Goes(e, id) then Entry(e.frame, Dropped) else e] + MarkDropped(h[1..], id)
  }

  predicate Goes(e: Entry, id: Option<Id>) {
    e.mark == Queued && (id.None? || e.frame.RequestId() == id)
  }

  /** What one operation does to the history of an object. */
  function Record(h: History, q: Queues, op: Op, owner: Id): History {
    if op.AddData? && op.owner == owner && Fits(q, owner, |op.frame.bytes|) then h + [Entry(op.frame, Queued)]
    else if op.DropRequest? && op.owner == owner then MarkDropped(h, Some(op.id))
    else if op == DropObject(owner) then MarkDropped(h, None)
    else if Serves(q, op, owner) then MarkFirstSent(h)
    else h
  }

  function Replay(h: History, q: Queues, ops: seq<Op>, owner: Id): History
    decreases ops
  {
    if ops == [] then h else Replay(Record(h, q, ops[0], owner), Apply(q, ops[0]), ops[1..], owner)
  }

  /** The frames of the object that calls of `next` really return, in order. */
  function SentBy(q: Queues, ops: seq<Op>, owner: Id): seq<Frame>
    decreases ops
  {
    if ops == [] then []
    else HandedOut(q, ops[0], owner) + SentBy(Apply(q, ops[0]), ops[1..], owner)
  }

  /** The pushes for the object that are accepted, in order. */
  function AcceptedBy(q: Queues, ops: seq<Op>, owner: Id): seq<Frame>
    decreases ops
  {
    if ops == [] then []
    else Added(q, ops[0], owner) + AcceptedBy(Apply(q, ops[0]), ops[1..], owner)
  }

  function ControlIn(q: Queues, op: Op): seq<Frame> {
    if op.AddControl? && ControlFits(q) then [op.frame] else []
  }

  function ControlOut(q: Queues, op: Op): seq<Frame> {
    if op.Next? && ControlTurn(q) then [q.control[0]] else []
  }

  function ControlSentBy(q: Queues, ops: seq<Op>): seq<Frame>
    decreases ops
  {
    if ops == [] then []
    else ControlOut(q, ops[0]) + ControlSentBy(Apply(q, ops[0]), ops[1..])
  }

  function ControlAcceptedBy(q: Queues, ops: seq<Op>): seq<Frame>
    decreases ops
  {
    if ops == [] then []
    else ControlIn(q, ops[0]) + ControlAcceptedBy(Apply(q, ops[0]), ops[1..])
  }

  /** First in, first out: no frame is sent while an earlier one is still queued. */
  ghost predicate SentInOrder(h: History) {
    forall i, j :: 0 <= i < j < |h| && h[j].mark == Sent ==> h[i].mark != Queued
  }

  ghost predicate Tracks(h: History, q: Queues, owner: Id) {
    SentInOrder(h) && Marked(h, Queued) == FramesOf(q, owner)
  }

  // ----- Marking -----

  lemma {:induction false} MarkedAppend(a: History, b: History, mark: Mark)
    ensures Marked(a + b, mark) == Marked(a, mark) + Marked(b, mark)
  {
    if a == [] {
      assert a + b == b;
    } else {
      assert (a + b)[1..] == a[1..] + b && (a + b)[0] == a[0];
      MarkedAppend(a[1..], b, mark);
      Assoc(if a[0].mark == mark then [a[0].frame] else [], Marked(a[1..], mark), Marked(b, mark));
    }
  }

  lemma {:induction false} NoneMarked(h: History, mark: Mark)
    requires forall e :: e in h ==> e.mark != mark
    ensures Marked(h, mark) == []
  {
    if h != [] {
      NoneMarked(h[1..], mark);
    }
  }

  lemma {:induction false} FramesAppend(a: History, b: History)
    ensures Frames(a + b) == Frames(a) + Frames(b)
  {
    if a == [] {
      assert a + b == b;
    } else {
      assert (a + b)[1..] == a[1..] + b;
      FramesAppend(a[1..], b);
      Assoc([a[0].frame], Frames(a[1..]), Frames(b));
    }
  }

  lemma {:induction false} FirstSent(h: History)
    requires SentInOrder(h) && Marked(h, Queued) != []
    ensures SentInOrder(MarkFirstSent(h)) && |MarkFirstSent(h)| == |h|
    ensures Marked(MarkFirstSent(h), Queued) == Marked(h, Queued)[1..]
    ensures Marked(MarkFirstSent(h), Sent) == Marked(h, Sent) + [Marked(h, Queued)[0]]
    ensures Frames(MarkFirstSent(h)) == Frames(h)
  {
    if h[0].mark == Queued {
      forall e | e in h[1..] ensures e.mark != Sent {
        var k :| 0 <= k < |h[1..]| && h[1..][k] == e;
        assert h[k + 1] == e;
      }
      NoneMarked(h[1..], Sent);
    } else {
      FirstSent(h[1..]);
    }
  }

  lemma {:induction false} DroppedAt(h: History, id: Option<Id>)
    ensures |MarkDropped(h, id)| == |h|
    ensures forall i :: 0 <= i < |h| ==>
      MarkDropped(h, id)[i] == if Goes(h[i], id) then Entry(h[i].frame, Dropped) else h[i]
  {
    if h != [] {
      DroppedAt(h[1..], id);
    }
  }

  lemma {:induction false} DroppedAll(h: History)
    ensures Marked(MarkDropped(h, None), Queued) == []
    ensures Marked(MarkDropped(h, None), Sent) == Marked(h, Sent)
    ensures Frames(MarkDropped(h, None)) == Frames(h)
  {
    if h != [] {
      DroppedAll(h[1..]);
    }
  }

  lemma {:induction false} DroppedRequest(h: History, id: Id)
    ensures Marked(MarkDropped(h, Some(id)), Queued) == Unrelated(Marked(h, Queued), id)
    ensures Marked(MarkDropped(h, Some(id)), Sent) == Marked(h, Sent)
    ensures Frames(MarkDropped(h, Some(id))) == Frames(h)
  {
    if h != [] {
      DroppedRequest(h[1..], id);
      var rest := MarkDropped(h[1..], Some(id));
      assert MarkDropped(h, Some(id))[1..] == rest;
      if h[0].mark == Queued {
        assert Marked(h, Queued)[0] == h[0].frame && Marked(h, Queued)[1..] == Marked(h[1..], Queued);
      } else {
        assert Marked(h, Queued) == Marked(h[1..], Queued);
      }
    }
  }

  // ----- One step -----

  lemma FramesAfter(q: Queues, op: Op, owner: Id)
    requires WellFormed(q)
    ensures FramesOf(Apply(q, op), owner) ==
      var frames := FramesOf(q, owner);
      if op.AddData? && op.owner == owner && Fits(q, owner, |op.frame.bytes|) then frames + [op.frame]
      else if op.DropRequest? && op.owner == owner then Unrelated(frames, op.id)
      else if op == DropObject(owner) then []
      else if Serves(q, op, owner) then frames[1..]
      else frames
  {
    match op
    case AddControl(f) =>
    case CloseAll =>
    case AddData(o, f) => FramesAfterPush(q, o, f, owner);
    case DropRequest(o, id) => FramesAfterRemoval(q, op, owner);
    case DropObject(o) => FramesAfterRemoval(q, op, owner);
    case Next => FramesAfterNext(q, owner);
  }

  lemma {:induction false} Absent(lanes: seq<Lane>, owner: Id)
    requires forall i :: 0 <= i < |lanes| ==> lanes[i].owner != owner
    ensures LaneIndex(lanes, owner) == |lanes|
  {
    if lanes != [] {
      Absent(lanes[1..], owner);
    }
  }

  lemma FramesAfterPush(q: Queues, o: Id, f: Frame, owner: Id)
    requires WellFormed(q)
    ensures FramesOf(PushData(q, o, f), owner)
         == if o == owner && Fits(q, owner, |f.bytes|) then FramesOf(q, owner) + [f] else FramesOf(q, owner)
  {
    hide WellFormed;
    var after, i := PushData(q, o, f), LaneIndex(q.lanes, owner);
    if i < |after.lanes| && after.lanes[i].owner == owner {
      IndexAt(after.lanes, owner, i);
    } else {
      Absent(after.lanes, owner);
    }
  }

  lemma FramesAfterRemoval(q: Queues, op: Op, owner: Id)
    requires WellFormed(q) && (op.DropObject? || op.DropRequest?)
    ensures FramesOf(Apply(q, op), owner)
         == if op.owner != owner then FramesOf(q, owner)
            else if op.DropObject? then [] else Unrelated(FramesOf(q, owner), op.id)
  {
    hide LanesFit, Total;
    if op.owner == owner {
      FramesAfterOwnRemoval(q, op);
    } else if Ready(q, op.owner) {
      RemovalTrims(q, op);
      hide Apply;
      if Ready(q, owner) {
        TrimOther(q.lanes, Apply(q, op).lanes, LaneIndex(q.lanes, op.owner), owner);
      } else {
        Absent(Apply(q, op).lanes, owner);
      }
    }
  }

  lemma FramesAfterOwnRemoval(q: Queues, op: Op)
    requires WellFormed(q) && (op.DropObject? || op.DropRequest?)
    ensures FramesOf(Apply(q, op), op.owner)
         == if op.DropObject? then [] else Unrelated(FramesOf(q, op.owner), op.id)
  {
    hide LanesFit, Total;
    var i, after := LaneIndex(q.lanes, op.owner), Apply(q, op);
    if i < |q.lanes| {
      if |after.lanes| == |q.lanes| {
        IndexAt(after.lanes, op.owner, i);
      } else {
        assert after.lanes == Without(q.lanes, i);
        Absent(after.lanes, op.owner);
      }
    }
  }

  lemma FramesAfterNext(q: Queues, owner: Id)
    requires WellFormed(q)
    ensures FramesOf(AfterNext(q), owner)
         == if Serves(q, Next, owner) then FramesOf(q, owner)[1..] else FramesOf(q, owner)
    ensures Serves(q, Next, owner) ==> FramesOf(q, owner) != [] && Output(q).value.frame == FramesOf(q, owner)[0]
  {
    if LaneTurn(q) {
      hide Size, Total;
      var p, after := LaneIndex(q.lanes, owner), AfterNext(q);
      if p == 0 && |after.lanes| == |q.lanes| {
        IndexAt(after.lanes, owner, |after.lanes| - 1);
      } else if 0 < p < |q.lanes| {
        IndexAt(after.lanes, owner, p - 1);
      } else {
        Absent(after.lanes, owner);
      }
    }
  }

  /** The frames an operation adds to the object's history, and those it hands out. */
  function Added(q: Queues, op: Op, owner: Id): seq<Frame> {
    if op.AddData? && op.owner == owner && Fits(q, owner, |op.frame.bytes|) then [op.frame] else []
  }

  function HandedOut(q: Queues, op: Op, owner: Id): seq<Frame> {
    if Serves(q, op, owner) then [Output(q).value.frame] else []
  }

  lemma AppendTracks(h: History, frame: Frame)
    requires SentInOrder(h)
    ensures var next := h + [Entry(frame, Queued)];
      && SentInOrder(next)
      && Marked(next, Queued) == Marked(h, Queued) + [frame]
      && Marked(next, Sent) == Marked(h, Sent)
      && Frames(next) == Frames(h) + [frame]
  {
    var e := Entry(frame, Queued);
    MarkedAppend(h, [e], Queued);
    MarkedAppend(h, [e], Sent);
    FramesAppend(h, [e]);
  }

  lemma RecordTracks(h: History, q: Queues, op: Op, owner: Id)
    requires WellFormed(q) && Tracks(h, q, owner)
    ensures Tracks(Record(h, q, op, owner), Apply(q, op), owner)
    ensures Marked(Record(h, q, op, owner), Sent) == Marked(h, Sent) + HandedOut(q, op, owner)
    ensures Frames(Record(h, q, op, owner)) == Frames(h) + Added(q, op, owner)
  {
    FramesAfter(q, op, owner);
    hide WellFormed, Apply, Fits, Marked, Frames, MarkFirstSent, MarkDropped, Unrelated, FramesOf, Output, SentInOrder, Serves;
    if Added(q, op, owner) != [] {
      AppendTracks(h, op.frame);
      NotServedBy(q, op, owner);
    } else if op.DropRequest? && op.owner == owner {
      DropTracks(h, Some(op.id));
      DroppedRequest(h, op.id);
      NotServedBy(q, op, owner);
    } else if op == DropObject(owner) {
      DropTracks(h, None);
      DroppedAll(h);
      NotServedBy(q, op, owner);
    } else if Serves(q, op, owner) {
      ServedFirst(q, op, owner);
      FirstSent(h);
    }
  }

  lemma NotServedBy(q: Queues, op: Op, owner: Id)
    requires !op.Next?
    ensures !Serves(q, op, owner)
  {
  }

  lemma ServedFirst(q: Queues, op: Op, owner: Id)
    requires WellFormed(q) && Serves(q, op, owner)
    ensures op.Next? && Output(q).Some? && FramesOf(q, owner) != [] && Output(q).value.frame == FramesOf(q, owner)[0]
  {
    FramesAfterNext(q, owner);
  }

  lemma DropTracks(h: History, id: Option<Id>)
    requires SentInOrder(h)
    ensures SentInOrder(MarkDropped(h, id))
  {
    DroppedAt(h, id);
  }

  // ----- Whole runs -----

  /**
    Conservation: in every reachable state the frames still queued are those marked
    queued, the frames handed out are those marked sent, in acceptance order, and the
    history lists exactly the accepted frames.
   */
  lemma {:induction false} Conserved(h: History, q: Queues, ops: seq<Op>, owner: Id)
    requires WellFormed(q) && Tracks(h, q, owner)
    ensures Tracks(Replay(h, q, ops, owner), Run(q, ops), owner)
    ensures Marked(Replay(h, q, ops, owner), Sent) == Marked(h, Sent) + SentBy(q, ops, owner)
    ensures Frames(Replay(h, q, ops, owner)) == Frames(h) + AcceptedBy(q, ops, owner)
    decreases ops
  {
    hide WellFormed, Tracks, Apply, Record, Added, HandedOut, Marked, Frames;
    if ops != [] {
      RecordTracks(h, q, ops[0], owner);
      ApplyKeeps(q, ops[0]);
      var next, after := Record(h, q, ops[0], owner), Apply(q, ops[0]);
      Conserved(next, after, ops[1..], owner);
      Assoc(Marked(h, Sent), HandedOut(q, ops[0], owner), SentBy(after, ops[1..], owner));
      Assoc(Frames(h), Added(q, ops[0], owner), AcceptedBy(after, ops[1..], owner));
    }
  }

  lemma {:induction false} MarksSplit(h: History)
    ensures |h| == |Frames(h)| == |Marked(h, Queued)| + |Marked(h, Sent)| + |Marked(h, Dropped)|
  {
    if h != [] {
      MarksSplit(h[1..]);
    }
  }

  /** From an empty outbox: accepted = sent + removed + queued, at every moment. */
  lemma ConservedFromStart(ops: seq<Op>, owner: Id)
    ensures var h := Replay([], EMPTY, ops, owner);
      && |AcceptedBy(EMPTY, ops, owner)|
           == |SentBy(EMPTY, ops, owner)| + |Marked(h, Dropped)| + |FramesOf(Run(EMPTY, ops), owner)|
      && SentBy(EMPTY, ops, owner) == Marked(h, Sent)
      && FramesOf(Run(EMPTY, ops), owner) == Marked(h, Queued)
  {
    Conserved([], EMPTY, ops, owner);
    MarksSplit(Replay([], EMPTY, ops, owner));
  }

  /** Control frames are never removed: what was accepted has been sent or is still queued, in order. */
  lemma {:induction false} ControlConserved(q: Queues, ops: seq<Op>)
    ensures q.control + ControlAcceptedBy(q, ops) == ControlSentBy(q, ops) + Run(q, ops).control
    decreases ops
  {
    hide Apply, ControlIn, ControlOut;
    if ops != [] {
      var next, taken, given := Apply(q, ops[0]), ControlIn(q, ops[0]), ControlOut(q, ops[0]);
      ControlStep(q, ops[0]);
      ControlConserved(next, ops[1..]);
      Assoc(q.control, taken, ControlAcceptedBy(next, ops[1..]));
      Assoc(given, next.control, ControlAcceptedBy(next, ops[1..]));
      Assoc(given, ControlSentBy(next, ops[1..]), Run(q, ops).control);
    }
  }

  lemma ControlStep(q: Queues, op: Op)
    ensures q.control + ControlIn(q, op) == ControlOut(q, op) + Apply(q, op).control
  {
  }

  // ----- Draining after close -----

  function Held(lanes: seq<Lane>): nat {
    if lanes == [] then 0 else |lanes[0].frames| + Held(lanes[1..])
  }

  /** The number of frames queued. */
  function Load(q: Queues): nat {
    |q.control| + Held(q.lanes)
  }

  lemma {:induction false} HeldAppend(a: seq<Lane>, b: seq<Lane>)
    ensures Held(a + b) == Held(a) + Held(b)
  {
    if a == [] {
      assert a + b == b;
    } else {
      assert (a + b)[1..] == a[1..] + b;
      HeldAppend(a[1..], b);
    }
  }

  predicate NoRemovals(ops: seq<Op>) {
    forall i :: 0 <= i < |ops| ==> !ops[i].DropObject? && !ops[i].DropRequest?
  }

  lemma ClosedStep(q: Queues, op: Op)
    requires WellFormed(q) && q.closed && !op.DropObject? && !op.DropRequest?
    ensures Apply(q, op).closed
    ensures Load(Apply(q, op)) == if op.Next? && Load(q) > 0 then Load(q) - 1 else Load(q)
    ensures !op.Next? ==> Apply(q, op) == q
  {
    if op.Next? && LaneTurn(q) {
      var head := q.lanes[0];
      var back := if |head.frames| == 1 then [] else [Lane(head.owner, head.frames[1..])];
      assert Held(back) == |head.frames| - 1;
      HeldAppend(q.lanes[1..], back);
    }
  }

  lemma {:induction false} ClosedDrains(q: Queues, ops: seq<Op>)
    requires WellFormed(q) && q.closed && NoRemovals(ops)
    ensures Load(Run(q, ops)) == Max(0, Load(q) - Calls(ops))
    decreases ops
  {
    hide WellFormed, Load, Apply;
    if ops != [] {
      ClosedStep(q, ops[0]);
      ApplyKeeps(q, ops[0]);
      ClosedDrains(Apply(q, ops[0]), ops[1..]);
    }
  }

  lemma {:induction false} ClosedKeepsHistory(h: History, q: Queues, ops: seq<Op>, owner: Id)
    requires WellFormed(q) && q.closed && NoRemovals(ops) && Tracks(h, q, owner)
    requires forall e :: e in h ==> e.mark != Dropped
    ensures forall e :: e in Replay(h, q, ops, owner) ==> e.mark != Dropped
    ensures AcceptedBy(q, ops, owner) == []
    decreases ops
  {
    if ops != [] {
      var op, next := ops[0], Record(h, q, ops[0], owner);
      ClosedStep(q, op);
      RecordTracks(h, q, op, owner);
      ApplyKeeps(q, op);
      StillNoDrops(h, q, op, owner);
      hide WellFormed, Tracks, Apply, Output, Record, Fits;
      ClosedKeepsHistory(next, Apply(q, op), ops[1..], owner);
    }
  }

  lemma StillNoDrops(h: History, q: Queues, op: Op, owner: Id)
    requires q.closed && !op.DropObject? && !op.DropRequest? && forall e :: e in h ==> e.mark != Dropped
    ensures forall e :: e in Record(h, q, op, owner) ==> e.mark != Dropped
    ensures Added(q, op, owner) == []
  {
    hide Output;
    forall e | e in Record(h, q, op, owner) ensures e.mark != Dropped {
      if Serves(q, op, owner) {
        NoDropsInFirstSent(h, e);
      }
    }
  }

  lemma {:induction false} NoDropsInFirstSent(h: History, e: Entry)
    requires e in MarkFirstSent(h)
    ensures e in h || e.mark == Sent
  {
    if h[0].mark != Queued && e != h[0] {
      NoDropsInFirstSent(h[1..], e);
    }
  }

  function AsQueued(frames: seq<Frame>): History {
    seq(|frames|, i requires 0 <= i < |frames| => Entry(frames[i], Queued))
  }

  lemma {:induction false} AsQueuedMarks(frames: seq<Frame>)
    ensures Marked(AsQueued(frames), Queued) == frames && Marked(AsQueued(frames), Sent) == []
    ensures Frames(AsQueued(frames)) == frames
    ensures SentInOrder(AsQueued(frames)) && forall e :: e in AsQueued(frames) ==> e.mark == Queued
  {
    if frames != [] {
      assert AsQueued(frames)[1..] == AsQueued(frames[1..]);
      AsQueuedMarks(frames[1..]);
    }
  }

  /**
    Once closed, calls of `next` return every remaining frame exactly once, each queue
    in its order, and then None.
   */
  lemma DrainsAfterClose(q: Queues, ops: seq<Op>, owner: Id)
    requires WellFormed(q) && q.closed && NoRemovals(ops)
    requires Calls(ops) >= Load(q)
    ensures Output(Run(q, ops)).None?
    ensures ControlSentBy(q, ops) == q.control
    ensures SentBy(q, ops, owner) == FramesOf(q, owner)
  {
    ControlDrains(q, ops);
    LaneDrains(q, ops, owner);
  }

  lemma ControlDrains(q: Queues, ops: seq<Op>)
    requires WellFormed(q) && q.closed && NoRemovals(ops)
    requires Calls(ops) >= Load(q)
    ensures Run(q, ops).control == [] && Run(q, ops).lanes == [] && Output(Run(q, ops)).None?
    ensures ControlSentBy(q, ops) == q.control
  {
    ClosedDrains(q, ops);
    RunKeeps(q, ops);
    Unloaded(Run(q, ops));
    hide WellFormed;
    ControlConserved(q, ops);
    ClosedTakesNoControl(q, ops);
    assert q.control + [] == q.control && ControlSentBy(q, ops) + [] == ControlSentBy(q, ops);
  }

  lemma Unloaded(q: Queues)
    requires WellFormed(q) && Load(q) == 0
    ensures q.control == [] && q.lanes == [] && Output(q).None?
  {
    if q.lanes != [] {
      assert false;
    }
  }

  lemma LaneDrains(q: Queues, ops: seq<Op>, owner: Id)
    requires WellFormed(q) && q.closed && NoRemovals(ops)
    requires Run(q, ops).lanes == []
    ensures SentBy(q, ops, owner) == FramesOf(q, owner)
  {
    var h := AsQueued(FramesOf(q, owner));
    AsQueuedMarks(FramesOf(q, owner));
    assert Tracks(h, q, owner);
    hide WellFormed, NoRemovals, Marked, Frames, SentBy, AcceptedBy, Replay, AsQueued;
    ClosedKeepsHistory(h, q, ops, owner);
    Conserved(h, q, ops, owner);
    assert Marked(h, Sent) + SentBy(q, ops, owner) == SentBy(q, ops, owner);
    assert Frames(h) + [] == Frames(h);
    AllSent(Replay(h, q, ops, owner));
  }

  lemma {:induction false} AllSent(h: History)
    requires Marked(h, Queued) == [] && forall e :: e in h ==> e.mark != Dropped
    ensures Marked(h, Sent) == Frames(h)
  {
    if h != [] {
      assert h[0] in h;
      AllSent(h[1..]);
    }
  }

  lemma {:induction false} ClosedTakesNoControl(q: Queues, ops: seq<Op>)
    requires q.closed
    ensures ControlAcceptedBy(q, ops) == []
    decreases ops
  {
    if ops != [] {
      ClosedTakesNoControl(Apply(q, ops[0]), ops[1..]);
    }
  }
}
