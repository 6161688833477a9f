/**
  Where the request of each host call is (src/host.rs:32-41, 55-135): in its owner's lane
  or on the wire, exactly once if it was sent. On top of the system of objects this says
  that no request is ever repeated, and when a cancel names one that was never written.
 */
module CallFrames {
  import opened Prelude
  import opened OutboxModel
  import Json
  import Conservation
  import Fairness
  import Runs
  import L = HostLedger
  import M = Lifecycle

  function CallsIn(frames: seq<Frame>, id: Id): nat {
    if frames == [] then 0 else (if L.IsCall(frames[0], id) then 1 else 0) + CallsIn(frames[1..], id)
  }

  function Queued(l: L.Ledger, owner: Id, id: Id): nat {
    CallsIn(FramesOf(l.host.q, owner), id)
  }

  function Written(l: L.Ledger, id: Id): nat {
    CallsIn(l.wire, id)
  }

  /**
    A live call's request is once in its owner's lane or on the wire if it was sent, and
    nowhere if it was not; no request is written twice, and none before it is issued.
   */
  ghost predicate Traced(l: L.Ledger, session: Bytes) {
    && (forall id :: id in l.calls ==> Queued(l, l.calls[id].owner, id) + Written(l, id) == if l.calls[id].sent then 1 else 0)
    && (forall id :: Written(l, id) <= 1)
    && (forall id :: !L.Issued(session, l.host.serial, id) ==> Written(l, id) == 0)
  }

  // ----- Counting -----

  lemma {:induction false} CallsInBoth(a: seq<Frame>, b: seq<Frame>, id: Id)
    ensures CallsIn(a + b, id) == CallsIn(a, id) + CallsIn(b, id)
  {
    if a == [] {
      assert a + b == b;
    } else {
      assert (a + b)[1..] == a[1..] + b;
      CallsInBoth(a[1..], b, id);
    }
  }

  lemma {:induction false} CallsInSome(frames: seq<Frame>, id: Id)
    ensures CallsIn(frames, id) > 0 <==> exists f :: f in frames && L.IsCall(f, id)
  {
    if frames != [] {
      CallsInSome(frames[1..], id);
      assert forall f :: f in frames <==> f == frames[0] || f in frames[1..];
    }
  }

  lemma {:induction false} CallsInUnrelated(frames: seq<Frame>, gone: Id, id: Id)
    requires id != gone
    ensures CallsIn(Unrelated(frames, gone), id) == CallsIn(frames, id)
  {
    if frames != [] {
      CallsInUnrelated(frames[1..], gone, id);
      var rest := Unrelated(frames[1..], gone);
      assert ([frames[0]] + rest)[1..] == rest;
    }
  }

  lemma CallsInOne(f: Frame, id: Id)
    ensures CallsIn([f], id) == if L.IsCall(f, id) then 1 else 0
  {
  }

  // ----- One block at a time -----

  lemma StartTraced(session: Bytes)
    ensures Traced(L.START, session)
  {
  }

  /** Blocks that write nothing and leave the surviving calls' requests where they are. */
  lemma Steady(l: L.Ledger, m: L.Ledger, session: Bytes)
    requires Traced(l, session) && m.wire == l.wire && m.host.serial == l.host.serial
    requires forall id :: id in m.calls ==>
      && id in l.calls && m.calls[id].owner == l.calls[id].owner && m.calls[id].sent == l.calls[id].sent
      && Queued(m, m.calls[id].owner, id) == Queued(l, m.calls[id].owner, id)
    ensures Traced(m, session)
  {
    hide Queued, L.Issued, CallsIn;
    assert forall id :: Written(m, id) == Written(l, id);
  }

  lemma NotQueued(l: L.Ledger, session: Bytes, owner: Id, id: Id)
    requires L.Inv(l, session) && !(id in l.calls && l.calls[id].sent && l.calls[id].owner == owner)
    ensures Queued(l, owner, id) == 0
  {
    hide WellFormed, L.TableSound, L.CancelsSound, L.NoCalls, L.WireOrdered, L.Counted, FramesOf;
    CallsInSome(FramesOf(l.host.q, owner), id);
  }

  lemma BeginTraced(l: L.Ledger, session: Bytes, owner: Id, bytes: Bytes)
    requires L.Inv(l, session) && Traced(l, session)
    ensures Traced(L.BeginCall(l, session, owner, bytes), session)
  {
    hide L.Inv, L.Issued, L.CallId, CallsIn;
    var id, m := L.CallId(session, l.host.serial + 1), L.BeginCall(l, session, owner, bytes);
    assert forall x :: Written(m, x) == Written(l, x);
    L.NextIdIsNew(session, l.host.serial);
    if L.CanRegister(l.host) {
      IssuedLive(l, session, id);
      NotQueued(l, session, owner, id);
    }
  }

  lemma IssuedLive(l: L.Ledger, session: Bytes, id: Id)
    requires L.Inv(l, session) && !L.Issued(session, l.host.serial, id)
    ensures id !in l.calls
  {
    hide L.Issued;
  }

  lemma PushTraced(l: L.Ledger, session: Bytes, id: Id)
    requires L.Inv(l, session) && Traced(l, session) && id in l.calls && !l.calls[id].sent
    ensures Traced(L.PushCall(l, id), session)
  {
    hide L.Inv, L.Issued, CallsIn, PushData, Fits;
    var call, m := l.calls[id], L.PushCall(l, id);
    assert forall x :: Written(m, x) == Written(l, x);
    if Fits(l.host.q, call.owner, |call.frame.bytes|) {
      IsItsCall(l, session, id);
      forall x | x in l.calls
        ensures Queued(m, l.calls[x].owner, x) == Queued(l, l.calls[x].owner, x) + if x == id then 1 else 0
      {
        QueuedAfterPush(l, session, call.owner, call.frame, l.calls[x].owner, x);
      }
    }
  }

  lemma IsItsCall(l: L.Ledger, session: Bytes, id: Id)
    requires L.Inv(l, session) && id in l.calls
    ensures forall x :: L.IsCall(l.calls[id].frame, x) <==> x == id
  {
    hide L.Issued;
  }

  lemma QueuedAfterPush(l: L.Ledger, session: Bytes, o: Id, f: Frame, owner: Id, id: Id)
    requires L.Inv(l, session)
    ensures CallsIn(FramesOf(PushData(l.host.q, o, f), owner), id)
         == Queued(l, owner, id) + if o == owner && Fits(l.host.q, o, |f.bytes|) && L.IsCall(f, id) then 1 else 0
  {
    M.Formed(l, session);
    hide L.Inv, WellFormed, PushData, Fits, FramesOf, CallsIn;
    Conservation.FramesAfterPush(l.host.q, o, f, owner);
    CallsInBoth(FramesOf(l.host.q, owner), [f], id);
    CallsInOne(f, id);
  }

  lemma LogTraced(l: L.Ledger, session: Bytes, owner: Id, bytes: Bytes)
    requires L.Inv(l, session) && Traced(l, session)
    ensures Traced(L.LogFrame(l, owner, bytes), session)
  {
    hide L.Inv, Traced, PushData, FramesOf, CallsIn;
    var m := L.LogFrame(l, owner, bytes);
    forall id | id in m.calls ensures Queued(m, m.calls[id].owner, id) == Queued(l, m.calls[id].owner, id) {
      QueuedAfterPush(l, session, owner, Frame(bytes, Other), l.calls[id].owner, id);
    }
    Steady(l, m, session);
  }

  lemma QueuedAfterRemoval(l: L.Ledger, session: Bytes, op: Op, owner: Id, id: Id)
    requires L.Inv(l, session) && (op.DropRequest? || op.DropObject?)
    requires op.owner != owner || (op.DropRequest? && op.id != id)
    ensures CallsIn(FramesOf(OutboxModel.Apply(l.host.q, op), owner), id) == Queued(l, owner, id)
  {
    M.Formed(l, session);
    hide L.Inv, WellFormed, OutboxModel.Apply, FramesOf, CallsIn, Unrelated;
    Conservation.FramesAfterRemoval(l.host.q, op, owner);
    if op.owner == owner {
      CallsInUnrelated(FramesOf(l.host.q, owner), op.id, id);
    }
  }

  lemma EndTraced(l: L.Ledger, session: Bytes, id: Id)
    requires L.Inv(l, session) && Traced(l, session) && id in l.calls
    ensures Traced(L.EndCall(l, id), session)
  {
    hide L.Inv, Traced, RemoveRequest, FramesOf, CallsIn, L.CancelFrame;
    var m, owner := L.EndCall(l, id), l.calls[id].owner;
    SameLanes(RemoveRequest(l.host.q, owner, id), m.host.q);
    forall x | x in m.calls ensures Queued(m, m.calls[x].owner, x) == Queued(l, m.calls[x].owner, x) {
      QueuedAfterRemoval(l, session, DropRequest(owner, id), l.calls[x].owner, x);
    }
    Steady(l, m, session);
  }

  lemma SameLanes(q: Queues, r: Queues)
    requires q.lanes == r.lanes
    ensures forall o :: FramesOf(q, o) == FramesOf(r, o)
  {
  }

  lemma RemoveLaneTraced(l: L.Ledger, session: Bytes, owner: Id)
    requires L.Inv(l, session) && Traced(l, session) && L.NoCallsOf(l, owner)
    ensures Traced(M.RemoveLane(l, owner), session)
  {
    hide L.Inv, Traced, OutboxModel.RemoveObject, FramesOf, CallsIn;
    var m := M.RemoveLane(l, owner);
    forall x | x in m.calls ensures Queued(m, m.calls[x].owner, x) == Queued(l, m.calls[x].owner, x) {
      QueuedAfterRemoval(l, session, DropObject(owner), l.calls[x].owner, x);
    }
    Steady(l, m, session);
  }

  /** Blocks that touch neither lanes nor wire. */
  lemma LanesAlone(l: L.Ledger, m: L.Ledger, session: Bytes)
    requires Traced(l, session) && m.wire == l.wire && m.host.serial == l.host.serial && m.host.q.lanes == l.host.q.lanes
    requires m.calls.Keys <= l.calls.Keys
    requires forall id :: id in m.calls ==> m.calls[id].owner == l.calls[id].owner && m.calls[id].sent == l.calls[id].sent
    ensures Traced(m, session)
  {
    hide Traced, FramesOf, CallsIn;
    SameLanes(l.host.q, m.host.q);
    Steady(l, m, session);
  }

  lemma EmitTraced(l: L.Ledger, session: Bytes)
    requires L.Inv(l, session) && Traced(l, session)
    ensures Traced(L.EmitNext(l), session)
  {
    if ControlTurn(l.host.q) {
      EmitControlTraced(l, session);
    } else if LaneTurn(l.host.q) {
      EmitLaneTraced(l, session);
    } else {
      hide L.Inv, Traced;
      assert l.wire + [] == l.wire;
      LanesAlone(l, L.EmitNext(l), session);
    }
  }

  /** Writing a frame moves its request, if it is one, from the lane to the wire. */
  lemma Moved(l: L.Ledger, m: L.Ledger, session: Bytes, f: Frame)
    requires Traced(l, session) && m.calls == l.calls && m.host.serial == l.host.serial
    requires forall id :: Written(m, id) == Written(l, id) + if L.IsCall(f, id) then 1 else 0
    requires forall id :: id in l.calls ==>
      Queued(l, l.calls[id].owner, id) == Queued(m, l.calls[id].owner, id) + if L.IsCall(f, id) then 1 else 0
    requires forall id :: L.IsCall(f, id) ==> id in l.calls && l.calls[id].sent && L.Issued(session, l.host.serial, id)
    ensures Traced(m, session)
  {
    hide Written, Queued, L.IsCall, L.Issued;
  }

  lemma EmitControlTraced(l: L.Ledger, session: Bytes)
    requires L.Inv(l, session) && Traced(l, session) && ControlTurn(l.host.q)
    ensures Traced(L.EmitNext(l), session)
  {
    var m, f := L.EmitNext(l), l.host.q.control[0];
    assert m.wire == l.wire + [f] && m.host.q.lanes == l.host.q.lanes;
    NoCallInControl(l, session, f);
    EmitChangesNoCall(l);
    hide L.Inv, L.EmitNext, L.Issued, CallsIn, Queued, Traced;
    WrittenAfter(l, m, f);
    QueuedSame(l, m);
    Moved(l, m, session, f);
  }

  lemma NoCallInControl(l: L.Ledger, session: Bytes, f: Frame)
    requires L.Inv(l, session) && f in l.host.q.control
    ensures !f.subject.HostCall?
  {
    hide WellFormed, L.TableSound, L.QueuesBacked, L.CancelsSound, L.WireOrdered, L.Counted;
  }

  lemma WrittenAfter(l: L.Ledger, m: L.Ledger, f: Frame)
    requires m.wire == l.wire + [f]
    ensures forall id :: Written(m, id) == Written(l, id) + if L.IsCall(f, id) then 1 else 0
  {
    hide CallsIn;
    forall id ensures Written(m, id) == Written(l, id) + if L.IsCall(f, id) then 1 else 0 {
      CallsInBoth(l.wire, [f], id);
      CallsInOne(f, id);
    }
  }

  lemma QueuedSame(l: L.Ledger, m: L.Ledger)
    requires l.host.q.lanes == m.host.q.lanes
    ensures forall o, id :: Queued(l, o, id) == Queued(m, o, id)
  {
    hide FramesOf, CallsIn;
    SameLanes(l.host.q, m.host.q);
  }

  lemma EmitLaneTraced(l: L.Ledger, session: Bytes)
    requires L.Inv(l, session) && Traced(l, session) && LaneTurn(l.host.q)
    ensures Traced(L.EmitNext(l), session)
  {
    var m, f := L.EmitNext(l), l.host.q.lanes[0].frames[0];
    assert m.wire == l.wire + [f] && m.host.q == AfterNext(l.host.q);
    HeadBacked(l, session);
    EmitChangesNoCall(l);
    hide L.Inv, L.EmitNext, L.Issued, CallsIn, Traced, AfterNext, FramesOf;
    WrittenAfter(l, m, f);
    forall id | id in l.calls
      ensures Queued(l, l.calls[id].owner, id) == Queued(m, l.calls[id].owner, id) + if L.IsCall(f, id) then 1 else 0
    {
      QueuedAfterNext(l, session, l.calls[id].owner, id);
    }
    Moved(l, m, session, f);
  }

  lemma EmitChangesNoCall(l: L.Ledger)
    ensures L.EmitNext(l).calls == l.calls && L.EmitNext(l).host.serial == l.host.serial
  {
    hide AfterNext;
  }

  /** The frame a lane hands out is no request, or that of a live, sent call of the lane's owner. */
  lemma HeadBacked(l: L.Ledger, session: Bytes)
    requires L.Inv(l, session) && LaneTurn(l.host.q)
    ensures var owner, f := l.host.q.lanes[0].owner, l.host.q.lanes[0].frames[0];
      forall id :: L.IsCall(f, id) ==>
        id in l.calls && l.calls[id].sent && l.calls[id].owner == owner && L.Issued(session, l.host.serial, id)
  {
    hide WellFormed, L.CancelsSound, L.NoCalls, L.WireOrdered, L.Counted, L.Issued;
    L.BackedNext(l.host.q, l.calls);
  }

  lemma QueuedAfterNext(l: L.Ledger, session: Bytes, owner: Id, id: Id)
    requires L.Inv(l, session) && LaneTurn(l.host.q)
    ensures var f := l.host.q.lanes[0].frames[0];
      Queued(l, owner, id) == CallsIn(FramesOf(AfterNext(l.host.q), owner), id)
        + if l.host.q.lanes[0].owner == owner && L.IsCall(f, id) then 1 else 0
  {
    M.Formed(l, session);
    hide L.Inv, WellFormed, AfterNext, FramesOf;
    Conservation.FramesAfterNext(l.host.q, owner);
  }

  // ----- Whole systems -----

  ghost predicate Sound(s: M.System, session: Bytes) {
    M.Inv(s, session) && Traced(s.ledger, session)
  }

  lemma LedgerSound(s: M.System, session: Bytes)
    requires M.Inv(s, session)
    ensures L.Inv(s.ledger, session)
  {
  }

  lemma {:induction false} EndAllTraced(l: L.Ledger, session: Bytes, ids: seq<Id>)
    requires L.Inv(l, session) && Traced(l, session)
    ensures Traced(M.EndAll(l, ids), session)
    decreases ids
  {
    hide L.Inv, Traced, L.EndCall;
    if ids != [] {
      if ids[0] in l.calls {
        EndTraced(l, session, ids[0]);
        L.EndKeeps(l, session, ids[0]);
      }
      EndAllTraced(if ids[0] in l.calls then L.EndCall(l, ids[0]) else l, session, ids[1..]);
    }
  }

  /** Cancelling and clearing the lane of an object whose calls have all ended. */
  lemma ClearedTraced(l: L.Ledger, session: Bytes, id: Id, pending: seq<Id>)
    requires L.Inv(l, session) && Traced(l, session) && L.NoCallsOf(l, id) && L.Lists(l.host, id, pending)
    ensures Traced(M.RemoveLane(L.CancelCalls(l, pending), id), session)
  {
    hide L.Inv, Traced, L.Lists, L.CancelCalls, M.RemoveLane, L.NoCallsOf;
    L.CancelFindsNothing(l, session, id, pending);
    RemoveLaneTraced(l, session, id);
  }

  lemma FinishTaskTraced(s: M.System, session: Bytes, id: Id, status: M.Status, live: seq<Id>, pending: seq<Id>, note: Bytes)
    requires Sound(s, session) && id in s.objects
    requires M.ListsCalls(s.ledger, id, live) && L.Lists(M.EndAll(s.ledger, live).host, id, pending)
    ensures Traced(M.FinishTask(s, id, status, live, pending, note).ledger, session)
  {
    hide L.Inv, Traced, L.Lists, L.CancelCalls, M.RemoveLane, M.EndAll, M.Hosted, M.ObjectSound;
    var ended := M.EndAll(s.ledger, live);
    EndAllTraced(s.ledger, session, live);
    M.EndAllKeeps(s.ledger, session, live);
    AllEnded(s.ledger, ended, id, live);
    ClearedTraced(ended, session, id, pending);
    var cleaned := M.RemoveLane(L.CancelCalls(ended, pending), id);
    LanesAlone(cleaned, M.Announce(cleaned, note), session);
  }

  lemma AllEnded(l: L.Ledger, m: L.Ledger, id: Id, live: seq<Id>)
    requires M.ListsCalls(l, id, live) && M.Quieter(l, m) && forall call :: call in live ==> call !in m.calls
    ensures L.NoCallsOf(m, id)
  {
  }

  lemma FinishStopTraced(s: M.System, session: Bytes, id: Id, pid: nat, pending: seq<Id>)
    requires Sound(s, session) && id in s.objects && M.Terminal(s.objects[id].status) && L.Lists(s.ledger.host, id, pending)
    ensures Traced(M.FinishStop(s, id, pid, pending).ledger, session)
  {
    hide M.Inv, Traced, L.Lists, L.CancelCalls, M.RemoveLane;
    LedgerSound(s, session);
    M.NoResidue(s, session, id);
    ClearedTraced(s.ledger, session, id, pending);
  }

  lemma StopTraced(s: M.System, session: Bytes, step: M.Step)
    requires Sound(s, session) && M.Enabled(s, step) && (step.Stop? || step.ResumeStop?)
    ensures Traced(M.Apply(s, session, step).ledger, session)
  {
    hide L.Inv, M.Hosted, Traced, L.Lists, L.CancelCalls, M.RemoveLane;
    var o := s.objects[step.id];
    assert M.ObjectSound(o);
    if step.ResumeStop? {
      M.RunnableIsTerminal(o, step.pid);
      FinishStopTraced(s, session, step.id, step.pid, step.pending);
    } else if M.Terminal(o.status) {
      FinishStopTraced(s, session, step.id, step.pid, step.pending);
    } else if o.status.Loaded? {
      StopLoadedTraced(s, session, step.id, step.pid, step.pending);
    }
  }

  lemma StopLoadedTraced(s: M.System, session: Bytes, id: Id, pid: nat, pending: seq<Id>)
    requires Sound(s, session) && id in s.objects && s.objects[id].status.Loaded? && L.Lists(s.ledger.host, id, pending)
    ensures Traced(M.RemoveLane(L.CancelCalls(s.ledger, pending), id), session)
  {
    hide L.Inv, Traced, L.Lists, L.CancelCalls, M.RemoveLane;
    M.NothingHosted(s, id);
    ClearedTraced(s.ledger, session, id, pending);
  }

  lemma PollTraced(s: M.System, session: Bytes, id: Id, poll: M.Poll, live: seq<Id>, pending: seq<Id>, note: Bytes)
    requires Sound(s, session) && M.Enabled(s, M.PollTask(id, poll, live, pending, note))
    ensures Traced(M.Polled(s, id, poll, live, pending, note).ledger, session)
  {
    hide M.Inv, Traced, L.Lists, M.ListsCalls, M.EndAll, M.FinishTask;
    if s.objects[id].cancel {
      FinishTaskTraced(s, session, id, M.Stopped, live, pending, note);
    } else if poll.Returns? {
      FinishTaskTraced(s, session, id, M.Exited, live, pending, note);
    } else if poll.Faults? {
      FinishTaskTraced(s, session, id, M.Failed, live, pending, note);
    }
  }

  lemma AnsweredTraced(l: L.Ledger, session: Bytes, frame: Json.Value)
    requires Traced(l, session)
    ensures Traced(L.Answered(l, frame), session)
  {
    hide Traced, L.ResponseAnswer, L.ResponseId;
    LanesAlone(l, L.Answered(l, frame), session);
  }

  lemma ClosedTraced(l: L.Ledger, session: Bytes)
    requires Traced(l, session)
    ensures Traced(L.CloseOutput(l), session)
  {
    hide Traced;
    LanesAlone(l, L.CloseOutput(l), session);
  }

  /** What each step does to the ledger, in the ledger's own terms. */
  lemma LedgerAfter(s: M.System, session: Bytes, step: M.Step)
    requires M.Enabled(s, step)
    ensures M.Apply(s, session, step).ledger ==
      match step
      case PollTask(id, poll, live, pending, note) => M.Polled(s, id, poll, live, pending, note).ledger
      case GuestCall(id, bytes) => L.BeginCall(s.ledger, session, id, bytes)
      case GuestPush(call) => L.PushCall(s.ledger, call)
      case GuestEnd(call) => L.EndCall(s.ledger, call)
      case GuestLog(id, bytes) => L.LogFrame(s.ledger, id, bytes)
      case Stop(id, pid, pending) => M.StopObject(s, id, pid, pending).ledger
      case ResumeStop(id, pid, pending) => M.Resume(s, id, pid, pending).ledger
      case HostResponse(frame) => L.Answered(s.ledger, frame)
      case Control(bytes) => M.Announce(s.ledger, bytes)
      case WriterEmits => L.EmitNext(s.ledger)
      case CloseOutput => L.CloseOutput(s.ledger)
      case _ => s.ledger
  {
    hide M.Polled, M.StopObject, M.Resume, L.BeginCall, L.PushCall, L.EndCall, L.LogFrame, L.EmitNext, L.Answered,
      L.CloseOutput, M.Announce;
  }

  lemma StepTraced(s: M.System, session: Bytes, step: M.Step)
    requires Sound(s, session) && M.Enabled(s, step)
    ensures Sound(M.Apply(s, session, step), session)
  {
    LedgerSound(s, session);
    hide M.Inv, L.Inv, Traced, M.Enabled, M.Apply, M.Polled, M.StopObject, M.Resume, L.BeginCall, L.PushCall, L.EndCall, L.LogFrame,
      L.EmitNext, L.Answered, L.CloseOutput, M.Announce;
    M.StepKeeps(s, session, step);
    LedgerAfter(s, session, step);
    match step
    case PollTask(id, poll, live, pending, note) => PollTraced(s, session, id, poll, live, pending, note);
    case GuestCall(id, bytes) => BeginTraced(s.ledger, session, id, bytes);
    case GuestPush(call) =>
      Unsent(s, call);
      PushTraced(s.ledger, session, call);
    case GuestEnd(call) =>
      Unended(s, call);
      EndTraced(s.ledger, session, call);
    case GuestLog(id, bytes) => LogTraced(s.ledger, session, id, bytes);
    case Stop(id, pid, pending) => StopTraced(s, session, step);
    case ResumeStop(id, pid, pending) => StopTraced(s, session, step);
    case HostResponse(frame) => AnsweredTraced(s.ledger, session, frame);
    case Control(bytes) => AnnounceTraced(s.ledger, session, bytes);
    case WriterEmits => EmitTraced(s.ledger, session);
    case CloseOutput => ClosedTraced(s.ledger, session);
    case _ =>
  }

  lemma Unsent(s: M.System, call: Id)
    requires M.Enabled(s, M.GuestPush(call))
    ensures call in s.ledger.calls && !s.ledger.calls[call].sent
  {
  }

  lemma Unended(s: M.System, call: Id)
    requires M.Enabled(s, M.GuestEnd(call))
    ensures call in s.ledger.calls
  {
  }

  lemma AnnounceTraced(l: L.Ledger, session: Bytes, note: Bytes)
    requires Traced(l, session)
    ensures Traced(M.Announce(l, note), session)
  {
    hide Traced;
    LanesAlone(l, M.Announce(l, note), session);
  }

  /** In every reachable state each request is where it should be, exactly once. */
  lemma RunTraced(run: seq<M.System>, session: Bytes)
    requires M.IsRun(run, session)
    ensures forall i :: 0 <= i < |run| ==> Sound(run[i], session)
  {
    M.StartSound(session);
    StartTraced(session);
    assert Sound(M.START, session);
    hide Sound, M.Apply, M.Enabled;
    forall s, t | Sound(s, session) && M.Moves(session)(s, t) ensures Sound(t, session) {
      var step :| M.Enabled(s, step) && t == M.Apply(s, session, step);
      StepTraced(s, session, step);
    }
    Runs.Invariant(run, M.START, M.Moves(session), s => Sound(s, session));
  }

  // ----- The wire -----

  ghost predicate CallsOnce(frames: seq<Frame>) {
    forall i, j :: 0 <= i < j < |frames| && frames[i].subject.HostCall? ==> frames[j].subject != frames[i].subject
  }

  lemma OnceIfCounted(frames: seq<Frame>)
    requires forall id :: CallsIn(frames, id) <= 1
    ensures CallsOnce(frames)
  {
    forall i, j | 0 <= i < j < |frames| && frames[i].subject.HostCall? ensures frames[j].subject != frames[i].subject {
      var id, rest := frames[i].subject.id, frames[i + 1..];
      assert frames == (frames[..i] + [frames[i]]) + rest;
      CallsInBoth(frames[..i] + [frames[i]], rest, id);
      CallsInBoth(frames[..i], [frames[i]], id);
      CallsInSome(rest, id);
      assert rest[j - i - 1] in rest;
    }
  }

  /**
    On the wire every request appears at most once, every cancel at most once, and no
    request after its own cancel.
   */
  lemma WireStaysOrdered(run: seq<M.System>, session: Bytes, i: nat)
    requires M.IsRun(run, session) && i < |run|
    ensures CallsOnce(run[i].ledger.wire) && L.WireOrdered(run[i].ledger.wire)
  {
    RunTraced(run, session);
    hide M.IsRun, M.Hosted, M.ObjectSound, L.TableSound, L.QueuesBacked, L.CancelsSound, L.Issued, CallsIn, CallsOnce;
    var wire := run[i].ledger.wire;
    assert forall id :: CallsIn(wire, id) == Written(run[i].ledger, id);
    OnceIfCounted(wire);
  }

  // ----- Cancels of requests never written -----

  predicate Waits(l: L.Ledger, id: Id)
    requires id in l.calls
  {
    exists f :: f in FramesOf(l.host.q, l.calls[id].owner) && L.IsCall(f, id)
  }

  /**
    The end of a call queues a cancel for a request that was never written, and now never
    will be, exactly when the call is still pending, its request was queued and still
    waits in its lane, and a control slot is free.
   */
  lemma CancelsUnwrittenExactly(l: L.Ledger, session: Bytes, id: Id)
    requires L.Inv(l, session) && Traced(l, session) && id in l.calls
    ensures var m := L.EndCall(l, id);
      && L.Forgotten(m, id)
      && (m.host.q.control == l.host.q.control + [L.CancelFrame(id)]
          <==> id in l.host.pending && l.calls[id].sent && ControlFits(l.host.q))
      && (m.host.q.control == l.host.q.control + [L.CancelFrame(id)] && Written(m, id) == 0
          <==> id in l.host.pending && l.calls[id].sent && ControlFits(l.host.q) && Waits(l, id))
  {
    L.EndKeeps(l, session, id);
    hide L.Inv, L.Forgotten, L.CancelFrame, FramesOf, CallsIn, RemoveRequest, L.Issued;
    CallsInSome(FramesOf(l.host.q, l.calls[id].owner), id);
    SameControl(l.host.q, l.calls[id].owner, id);
    assert Written(L.EndCall(l, id), id) == Written(l, id);
  }

  lemma SameControl(q: Queues, owner: Id, id: Id)
    ensures var r := RemoveRequest(q, owner, id); r.control == q.control && r.closed == q.closed
  {
  }

  /** A system with one object whose guest is suspended. */
  function One(id: Id, ledger: L.Ledger): M.System {
    M.System(map[id := M.NEW.(status := M.Running, task := M.Suspended, handle := true, spawns := 1)], ledger)
  }

  lemma GuestStarts(session: Bytes, id: Id) returns (run: seq<M.System>)
    ensures M.IsRun(run, session) && run[|run| - 1] == One(id, L.START)
  {
    hide L.Inv;
    var loaded := M.System(map[id := M.NEW], L.START);
    var starting := M.System(map[id := M.NEW.(status := M.Starting, task := M.Spawned, handle := true, spawns := 1)], L.START);
    var poll := M.PollTask(id, M.Pending, [], [], []);
    assert M.Enabled(M.START, M.Load(id)) && M.Apply(M.START, session, M.Load(id)) == loaded;
    assert M.Enabled(loaded, M.Start(id)) && M.Apply(loaded, session, M.Start(id)) == starting;
    assert M.EndAll(L.START, []) == L.START;
    assert M.Enabled(starting, poll) && M.Apply(starting, session, poll) == One(id, L.START);
    run := [M.START, loaded, starting, One(id, L.START)];
    assert M.Moves(session)(run[0], run[1]) && M.Moves(session)(run[1], run[2]) && M.Moves(session)(run[2], run[3]);
  }

  lemma GuestSteps(run: seq<M.System>, session: Bytes, id: Id, l: L.Ledger, step: M.Step) returns (longer: seq<M.System>)
    requires M.IsRun(run, session) && run[|run| - 1] == One(id, l)
    requires M.Enabled(One(id, l), step) && M.LedgerOnly(step)
    ensures M.IsRun(longer, session) && |longer| > 0
    ensures longer[|longer| - 1] == One(id, M.Apply(One(id, l), session, step).ledger)
  {
    hide M.Enabled, M.Apply;
    var next := M.Apply(One(id, l), session, step);
    M.ObjectsAlone(One(id, l), session, step);
    assert M.Moves(session)(One(id, l), next);
    Runs.Extended(run, M.START, M.Moves(session), next);
    longer := run + [next];
  }

  lemma GuestMay(id: Id, l: L.Ledger, bytes: Bytes)
    ensures M.Enabled(One(id, l), M.GuestCall(id, bytes)) && M.Enabled(One(id, l), M.WriterEmits)
    ensures forall call :: call in l.calls && l.calls[call].owner == id ==>
      M.Enabled(One(id, l), M.GuestEnd(call)) && (!l.calls[call].sent ==> M.Enabled(One(id, l), M.GuestPush(call)))
  {
  }

  lemma RemovesOnly(owner: Id, call: Frame, id: Id)
    requires L.IsCall(call, id)
    ensures RemoveRequest(Queues([], [Lane(owner, [call])], 0, false), owner, id) == EMPTY
  {
    assert Unrelated([call], id) == [];
  }

  /** A ledger with one pending call, unsent or with its request in its lane. */
  function Alone(id: Id, owner: Id, sent: bool): L.Ledger {
    var call := Frame([NEWLINE], HostCall(id));
    L.Ledger(
      L.Host(map[id := owner], 1, 0, Queues([], if sent then [Lane(owner, [call])] else [], 0, false)),
      map[id := L.Call(owner, call, sent, None)], [], 0, 0, 0)
  }

  lemma BeginsAlone(session: Bytes, owner: Id)
    ensures L.BeginCall(L.START, session, owner, [NEWLINE]) == Alone(L.CallId(session, 1), owner, false)
  {
    hide L.CallId;
  }

  lemma PushesAlone(id: Id, owner: Id)
    ensures L.PushCall(Alone(id, owner, false), id) == Alone(id, owner, true)
  {
    L.PushFirst(EMPTY, owner, Frame([NEWLINE], HostCall(id)));
    hide Fits, PushData;
  }

  /** The call times out before the writer comes to it. */
  lemma EndsAlone(id: Id, owner: Id)
    ensures L.EmitNext(L.EndCall(Alone(id, owner, true), id)).wire == [L.CancelFrame(id)]
  {
    hide L.CancelFrame;
    RemovesOnly(owner, Frame([NEWLINE], HostCall(id)), id);
    hide RemoveRequest;
    var ended := L.EndCall(Alone(id, owner, true), id);
    assert ended.host.q == Queues([L.CancelFrame(id)], [], 0, false);
  }

  /** A run of the system that writes a cancel, and not the request it cancels. */
  lemma CancelOfUnwrittenCall(session: Bytes, owner: Id) returns (run: seq<M.System>)
    ensures M.IsRun(run, session)
    ensures run[|run| - 1].ledger.wire == [L.CancelFrame(L.CallId(session, 1))]
  {
    var id := L.CallId(session, 1);
    var begun, pushed := Alone(id, owner, false), Alone(id, owner, true);
    var ended := L.EndCall(pushed, id);
    BeginsAlone(session, owner);
    PushesAlone(id, owner);
    EndsAlone(id, owner);
    hide L.BeginCall, L.PushCall, L.EndCall, L.EmitNext, L.CallId, L.CancelFrame, M.IsRun, M.Apply, M.Enabled;
    run := GuestStarts(session, owner);
    GuestMay(owner, L.START, [NEWLINE]);
    LedgerAfter(One(owner, L.START), session, M.GuestCall(owner, [NEWLINE]));
    run := GuestSteps(run, session, owner, L.START, M.GuestCall(owner, [NEWLINE]));
    GuestMay(owner, begun, []);
    LedgerAfter(One(owner, begun), session, M.GuestPush(id));
    run := GuestSteps(run, session, owner, begun, M.GuestPush(id));
    GuestMay(owner, pushed, []);
    LedgerAfter(One(owner, pushed), session, M.GuestEnd(id));
    run := GuestSteps(run, session, owner, pushed, M.GuestEnd(id));
    GuestMay(owner, ended, []);
    LedgerAfter(One(owner, ended), session, M.WriterEmits);
    run := GuestSteps(run, session, owner, ended, M.WriterEmits);
  }
}
