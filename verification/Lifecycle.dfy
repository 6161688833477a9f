/**
  Objects, their single guest task and any number of concurrent stops
  (src/runtime.rs:129-182, 275-365), on top of the shared host-call ledger. One step is
  one stretch of code between awaits.
 */
module Lifecycle {
  import opened Prelude
  import opened OutboxModel
  import Json
  import Conservation
  import Mailboxes
  import Runs
  import L = HostLedger

  datatype Status = Loaded | Starting | Running | Stopping | Stopped | Exited | Failed

  predicate Terminal(s: Status) {
    s.Stopped? || s.Exited? || s.Failed?
  }

  /** The spawned future: not polled yet, suspended in its select, or done. */
  datatype Task = NotSpawned | Spawned | Suspended | Finished

  /** A parked call of `stop`: waiting for the done notifier, or joining the task. */
  datatype Stopper = AwaitDone(notified: bool) | AwaitTask

  datatype Object = Object(
    status: Status, program: bool, task: Task, handle: bool, cancel: bool,
    stoppers: map<nat, Stopper>, mailbox: Mailboxes.Log, spawns: nat)

  const NEW := Object(Loaded, true, NotSpawned, false, false, map[], Mailboxes.FRESH, 0)

  datatype System = System(objects: map<Id, Object>, ledger: L.Ledger)

  const START := System(map[], L.START)

  /** How a poll of the guest program ends, when it is reached at all. */
  datatype Poll = Pending | Returns | Faults

  datatype Step =
    | Load(id: Id)
    | Start(id: Id)
    | PollTask(id: Id, poll: Poll, live: seq<Id>, pending: seq<Id>, note: Bytes)
    | GuestCall(id: Id, bytes: Bytes)
    | GuestPush(call: Id)
    | GuestEnd(call: Id)
    | GuestLog(id: Id, bytes: Bytes)
    | GuestReceive(id: Id)
    | DeliverEvent(id: Id, event: Json.Value)
    | SetCancel(id: Id)
    | Stop(id: Id, pid: nat, pending: seq<Id>)
    | ResumeStop(id: Id, pid: nat, pending: seq<Id>)
    | DropStop(id: Id, pid: nat)
    | HostResponse(frame: Json.Value)
    | Control(bytes: Bytes)
    | WriterEmits
    | CloseOutput

  // ----- Pieces of a step -----

  predicate LiveTask(o: Object) {
    o.task.Spawned? || o.task.Suspended?
  }

  /** The guest runs only while its task is suspended in the select and not cancelled. */
  predicate GuestMayRun(s: System, id: Id) {
    id in s.objects && s.objects[id].task.Suspended? && !s.objects[id].cancel
  }

  /** Dropping the run future drops the guard of each of the object's live calls. */
  function EndAll(l: L.Ledger, ids: seq<Id>): L.Ledger
    decreases ids
  {
    if ids == [] then l else EndAll(if ids[0] in l.calls then L.EndCall(l, ids[0]) else l, ids[1..])
  }

  ghost predicate ListsCalls(l: L.Ledger, owner: Id, ids: seq<Id>) {
    forall id :: id in ids <==> id in l.calls && l.calls[id].owner == owner
  }

  function RemoveLane(l: L.Ledger, id: Id): L.Ledger {
    l.(host := l.host.(q := OutboxModel.RemoveObject(l.host.q, id)))
  }

  function Announce(l: L.Ledger, note: Bytes): L.Ledger {
    l.(host := l.host.(q := PushControl(l.host.q, Frame(note, Other))))
  }

  function WakeStoppers(stoppers: map<nat, Stopper>): map<nat, Stopper> {
    map pid | pid in stoppers :: if stoppers[pid].AwaitDone? then AwaitDone(true) else stoppers[pid]
  }

  /** The task's last stretch: the run future is already dropped. */
  function FinishTask(s: System, id: Id, status: Status, live: seq<Id>, pending: seq<Id>, note: Bytes): System
    requires id in s.objects
  {
    var o := s.objects[id];
    var cleaned := RemoveLane(L.CancelCalls(EndAll(s.ledger, live), pending), id);
    System(
      s.objects[id := o.(status := status, task := Finished, mailbox := Mailboxes.FRESH, stoppers := WakeStoppers(o.stoppers))],
      Announce(cleaned, note))
  }

  /** The select prefers cancellation; the state is Running only inside the poll. */
  function Polled(s: System, id: Id, poll: Poll, live: seq<Id>, pending: seq<Id>, note: Bytes): System
    requires id in s.objects
  {
    var o := s.objects[id];
    if o.cancel then FinishTask(s, id, Stopped, live, pending, note)
    else match poll
      case Returns => FinishTask(s, id, Exited, live, pending, note)
      case Faults => FinishTask(s, id, Failed, live, pending, note)
      case Pending =>
        s.(objects := s.objects[id := o.(task := Suspended, status := if o.task.Spawned? then Running else o.status)])
  }

  /** The task is spawned, and not polled yet. */
  function Started(s: System, id: Id): System
    requires id in s.objects
  {
    var o := s.objects[id];
    if o.status.Loaded? then
      s.(objects := s.objects[id := o.(status := Starting, task := Spawned, handle := true, spawns := o.spawns + 1)])
    else s
  }

  /** The end of a stop: the object and the shared tables give up what is left of it. */
  function FinishStop(s: System, id: Id, pid: nat, pending: seq<Id>): System
    requires id in s.objects
  {
    var o := s.objects[id];
    System(
      s.objects[id := o.(program := false, mailbox := Mailboxes.FRESH, stoppers := o.stoppers - {pid})],
      RemoveLane(L.CancelCalls(s.ledger, pending), id))
  }

  /** A stop past its first loop takes the join handle, if it is still there, and joins. */
  function JoinOrFinish(s: System, id: Id, pid: nat, pending: seq<Id>): System
    requires id in s.objects
  {
    var o := s.objects[id];
    if o.handle then s.(objects := s.objects[id := o.(handle := false, stoppers := o.stoppers[pid := AwaitTask])])
    else FinishStop(s, id, pid, pending)
  }

  function StopObject(s: System, id: Id, pid: nat, pending: seq<Id>): System
    requires id in s.objects
  {
    var o := s.objects[id];
    if o.status.Loaded? then
      JoinOrFinish(s.(objects := s.objects[id := o.(status := Stopped)]), id, pid, pending)
    else if Terminal(o.status) then JoinOrFinish(s, id, pid, pending)
    else s.(objects := s.objects[id := o.(status := Stopping, cancel := true, stoppers := o.stoppers[pid := AwaitDone(false)])])
  }

  function Resume(s: System, id: Id, pid: nat, pending: seq<Id>): System
    requires id in s.objects && pid in s.objects[id].stoppers
  {
    var o := s.objects[id];
    if o.stoppers[pid].AwaitTask? then FinishStop(s, id, pid, pending)
    else if o.status.Stopping? then s.(objects := s.objects[id := o.(stoppers := o.stoppers[pid := AwaitDone(false)])])
    else JoinOrFinish(s, id, pid, pending)
  }

  // ----- Steps -----

  ghost predicate Enabled(s: System, step: Step) {
    match step
    case Load(id) => id !in s.objects
    case Start(id) => id in s.objects
    case PollTask(id, _, live, pending, _) =>
      && id in s.objects && LiveTask(s.objects[id])
      && ListsCalls(s.ledger, id, live) && L.Lists(EndAll(s.ledger, live).host, id, pending)
    case GuestCall(id, _) => GuestMayRun(s, id)
    case GuestPush(call) =>
      call in s.ledger.calls && GuestMayRun(s, s.ledger.calls[call].owner) && !s.ledger.calls[call].sent
    case GuestEnd(call) => call in s.ledger.calls && GuestMayRun(s, s.ledger.calls[call].owner)
    case GuestLog(id, _) => GuestMayRun(s, id)
    case GuestReceive(id) => GuestMayRun(s, id) && s.objects[id].mailbox.Valid()
    case DeliverEvent(id, _) => id in s.objects && s.objects[id].mailbox.Valid()
    case SetCancel(id) => id in s.objects
    case Stop(id, pid, pending) =>
      id in s.objects && pid !in s.objects[id].stoppers && L.Lists(s.ledger.host, id, pending)
    case ResumeStop(id, pid, pending) =>
      && id in s.objects && pid in s.objects[id].stoppers && L.Lists(s.ledger.host, id, pending)
      && Runnable(s.objects[id], s.objects[id].stoppers[pid])
    case DropStop(id, pid) => id in s.objects && pid in s.objects[id].stoppers
    case _ => true
  }

  /** A parked stop can go on once it was notified, or once the task it joins is done. */
  predicate Runnable(o: Object, stopper: Stopper) {
    match stopper
    case AwaitDone(notified) => notified
    case AwaitTask => o.task.Finished?
  }

  ghost function Apply(s: System, session: Bytes, step: Step): System
    requires Enabled(s, step)
  {
    match step
    case Load(id) => s.(objects := s.objects[id := NEW])
    case Start(id) => Started(s, id)
    case PollTask(id, poll, live, pending, note) => Polled(s, id, poll, live, pending, note)
    case GuestCall(id, bytes) => s.(ledger := L.BeginCall(s.ledger, session, id, bytes))
    case GuestPush(call) => s.(ledger := L.PushCall(s.ledger, call))
    case GuestEnd(call) => s.(ledger := L.EndCall(s.ledger, call))
    case GuestLog(id, bytes) => s.(ledger := L.LogFrame(s.ledger, id, bytes))
    case GuestReceive(id) =>
      var o := s.objects[id];
      s.(objects := s.objects[id := o.(mailbox := Mailboxes.AfterReceive(o.mailbox))])
    case DeliverEvent(id, event) =>
      var o := s.objects[id];
      if o.status.Loaded? || o.status.Starting? || o.status.Running? then
        s.(objects := s.objects[id := o.(mailbox := Mailboxes.AfterDeliver(o.mailbox, event))])
      else s
    case SetCancel(id) => s.(objects := s.objects[id := s.objects[id].(cancel := true)])
    case Stop(id, pid, pending) => StopObject(s, id, pid, pending)
    case ResumeStop(id, pid, pending) => Resume(s, id, pid, pending)
    case DropStop(id, pid) =>
      var o := s.objects[id];
      s.(objects := s.objects[id := o.(stoppers := o.stoppers - {pid})])
    case HostResponse(frame) => s.(ledger := L.Answered(s.ledger, frame))
    case Control(bytes) => s.(ledger := Announce(s.ledger, bytes))
    case WriterEmits => s.(ledger := L.EmitNext(s.ledger))
    case CloseOutput => s.(ledger := L.CloseOutput(s.ledger))
  }

  // ----- What every state keeps -----

  /** The states an object can be in between steps. */
  ghost predicate ObjectSound(o: Object) {
    && Mailboxes.Kept(o.mailbox)
    && (o.status.Loaded? ==> o.program && o.task.NotSpawned? && o.stoppers == map[])
    && (o.status.Starting? ==> o.task.Spawned?)
    && (o.status.Running? ==> o.task.Suspended?)
    && (o.status.Stopping? ==> LiveTask(o) && o.cancel)
    && (Terminal(o.status) ==> !LiveTask(o) && o.mailbox == Mailboxes.FRESH)
    && (o.task.NotSpawned? ==> !o.handle && (o.status.Loaded? || o.status.Stopped?))
    && (o.task.Finished? ==> Terminal(o.status))
    && o.spawns == (if o.task.NotSpawned? then 0 else 1)
    && (forall pid :: pid in o.stoppers ==> StopperSound(o, o.stoppers[pid]))
  }

  /** An un-notified stop waits for a live task told to stop; one that joins holds the handle. */
  ghost predicate StopperSound(o: Object, stopper: Stopper) {
    match stopper
    case AwaitDone(notified) => if notified then Terminal(o.status) else o.status.Stopping?
    case AwaitTask => o.task.Finished? && !o.handle
  }

  /** Calls and queued frames belong to objects whose guest is suspended, not ended. */
  ghost predicate Hosted(s: System) {
    && (forall id :: id in s.ledger.calls ==> HasGuest(s, s.ledger.calls[id].owner))
    && (forall o :: FramesOf(s.ledger.host.q, o) != [] ==> HasGuest(s, o))
  }

  predicate HasGuest(s: System, id: Id) {
    id in s.objects && s.objects[id].task.Suspended?
  }

  ghost predicate Inv(s: System, session: Bytes) {
    && L.Inv(s.ledger, session)
    && Hosted(s)
    && forall id :: id in s.objects ==> ObjectSound(s.objects[id])
  }

  // ----- The ledger only gets quieter when things end -----

  /** No new calls, and no object gets frames it did not have. */
  ghost predicate Quieter(l: L.Ledger, m: L.Ledger) {
    && (forall id :: id in m.calls ==> id in l.calls && m.calls[id].owner == l.calls[id].owner)
    && (forall o :: FramesOf(m.host.q, o) != [] ==> FramesOf(l.host.q, o) != [])
  }

  lemma QuieterThrough(l: L.Ledger, m: L.Ledger, n: L.Ledger)
    requires Quieter(l, m) && Quieter(m, n)
    ensures Quieter(l, n)
  {
  }

  lemma SameLanesQuieter(l: L.Ledger, m: L.Ledger)
    requires m.calls.Keys <= l.calls.Keys && (forall id :: id in m.calls ==> m.calls[id].owner == l.calls[id].owner)
    requires m.host.q.lanes == l.host.q.lanes
    ensures Quieter(l, m)
  {
    assert forall o :: FramesOf(m.host.q, o) == FramesOf(l.host.q, o);
  }

  lemma RemovalQuieter(l: L.Ledger, m: L.Ledger, op: Op)
    requires WellFormed(l.host.q) && (op.DropObject? || op.DropRequest?)
    requires m.host.q.lanes == OutboxModel.Apply(l.host.q, op).lanes
    requires forall id :: id in m.calls ==> id in l.calls && m.calls[id].owner == l.calls[id].owner
    ensures Quieter(l, m)
    ensures op.DropObject? ==> FramesOf(m.host.q, op.owner) == []
  {
    forall o ensures FramesOf(m.host.q, o) == FramesOf(OutboxModel.Apply(l.host.q, op), o) {
    }
    Conservation.FramesAfter(l.host.q, op, op.owner);
    forall o | FramesOf(m.host.q, o) != [] ensures FramesOf(l.host.q, o) != [] {
      Conservation.FramesAfter(l.host.q, op, o);
    }
  }

  lemma EndQuieter(l: L.Ledger, session: Bytes, id: Id)
    requires L.Inv(l, session) && id in l.calls
    ensures Quieter(l, L.EndCall(l, id))
  {
    hide L.Inv, WellFormed;
    Formed(l, session);
    RemovalQuieter(l, L.EndCall(l, id), DropRequest(l.calls[id].owner, id));
  }

  lemma {:induction false} EndAllKeeps(l: L.Ledger, session: Bytes, ids: seq<Id>)
    requires L.Inv(l, session)
    ensures L.Inv(EndAll(l, ids), session) && Quieter(l, EndAll(l, ids))
    ensures forall id :: id in ids ==> id !in EndAll(l, ids).calls
    decreases ids
  {
    hide L.Inv;
    if ids == [] {
      SameLanesQuieter(l, l);
    } else {
      var next := if ids[0] in l.calls then L.EndCall(l, ids[0]) else l;
      if ids[0] in l.calls {
        L.EndKeeps(l, session, ids[0]);
        EndQuieter(l, session, ids[0]);
      } else {
        SameLanesQuieter(l, l);
      }
      EndAllKeeps(next, session, ids[1..]);
      QuieterThrough(l, next, EndAll(l, ids));
      assert ids == [ids[0]] + ids[1..];
    }
  }

  /** Cleaning up after an object leaves the shared tables without any trace of it. */
  ghost predicate Absent(l: L.Ledger, id: Id) {
    L.NoCallsOf(l, id) && FramesOf(l.host.q, id) == []
  }

  lemma RemoveLaneKeeps(l: L.Ledger, session: Bytes, id: Id)
    requires L.Inv(l, session)
    ensures L.Inv(RemoveLane(l, id), session) && Quieter(l, RemoveLane(l, id))
    ensures FramesOf(RemoveLane(l, id).host.q, id) == []
  {
    hide L.Inv, WellFormed, OutboxModel.RemoveObject, Quieter;
    Formed(l, session);
    L.RemoveObjectKeepsInv(l, session, id);
    RemovalQuieter(l, RemoveLane(l, id), DropObject(id));
  }

  lemma Formed(l: L.Ledger, session: Bytes)
    requires L.Inv(l, session)
    ensures WellFormed(l.host.q)
  {
  }

  lemma AnnounceKeeps(l: L.Ledger, session: Bytes, note: Bytes)
    requires L.Inv(l, session)
    ensures L.Inv(Announce(l, note), session) && Quieter(l, Announce(l, note))
    ensures forall o :: FramesOf(Announce(l, note).host.q, o) == FramesOf(l.host.q, o)
  {
    L.ControlKeeps(l, session, Frame(note, Other));
    hide L.Inv;
    SameLanesQuieter(l, Announce(l, note));
  }

  lemma CleanUp(l: L.Ledger, session: Bytes, id: Id, live: seq<Id>, pending: seq<Id>, note: Bytes)
    requires L.Inv(l, session) && ListsCalls(l, id, live) && L.Lists(EndAll(l, live).host, id, pending)
    ensures var m := Announce(RemoveLane(L.CancelCalls(EndAll(l, live), pending), id), note);
      L.Inv(m, session) && Quieter(l, m) && Absent(m, id)
  {
    hide L.Inv, Quieter, L.Lists;
    var ended := EndAll(l, live);
    EndAllKeeps(l, session, live);
    assert L.NoCallsOf(ended, id) by {
      forall call | call in ended.calls ensures ended.calls[call].owner != id {
        assert call in l.calls && ended.calls[call].owner == l.calls[call].owner by { QuieterCall(l, ended, call); }
      }
    }
    L.CancelFindsNothing(ended, session, id, pending);
    RemoveLaneKeeps(ended, session, id);
    AnnounceKeeps(RemoveLane(ended, id), session, note);
    QuieterThrough(l, ended, RemoveLane(ended, id));
    QuieterThrough(l, RemoveLane(ended, id), Announce(RemoveLane(ended, id), note));
  }

  lemma QuieterCall(l: L.Ledger, m: L.Ledger, call: Id)
    requires Quieter(l, m) && call in m.calls
    ensures call in l.calls && m.calls[call].owner == l.calls[call].owner
  {
  }

  // ----- Steps -----

  /** Nothing of an object without a guest is left to clean up. */
  lemma NothingHosted(s: System, id: Id)
    requires Hosted(s) && !HasGuest(s, id)
    ensures Absent(s.ledger, id)
  {
  }

  /** Hosted survives when the ledger quietens and only an absent object loses its guest. */
  lemma HostedKeeps(s: System, t: System, id: Id)
    requires Hosted(s) && Quieter(s.ledger, t.ledger)
    requires HasGuest(t, id) || Absent(t.ledger, id)
    requires forall o :: o != id && HasGuest(s, o) ==> HasGuest(t, o)
    ensures Hosted(t)
  {
  }

  lemma ObjectFinishes(o: Object, status: Status)
    requires ObjectSound(o) && LiveTask(o) && Terminal(status)
    ensures ObjectSound(
      o.(status := status, task := Finished, mailbox := Mailboxes.FRESH, stoppers := WakeStoppers(o.stoppers)))
  {
    hide Mailboxes.Kept;
    FreshKept();
  }

  lemma ObjectReleased(o: Object, pid: nat)
    requires ObjectSound(o) && Terminal(o.status)
    ensures ObjectSound(o.(program := false, mailbox := Mailboxes.FRESH, stoppers := o.stoppers - {pid}))
  {
    hide Mailboxes.Kept;
  }

  lemma FinishTaskKeeps(s: System, session: Bytes, id: Id, status: Status, live: seq<Id>, pending: seq<Id>, note: Bytes)
    requires Inv(s, session) && id in s.objects && LiveTask(s.objects[id]) && Terminal(status)
    requires ListsCalls(s.ledger, id, live) && L.Lists(EndAll(s.ledger, live).host, id, pending)
    ensures Inv(FinishTask(s, id, status, live, pending, note), session)
  {
    hide L.Inv, Quieter, Absent, L.Lists, ListsCalls, EndAll, Hosted, ObjectSound, Announce, RemoveLane, L.CancelCalls;
    CleanUp(s.ledger, session, id, live, pending, note);
    HostedKeeps(s, FinishTask(s, id, status, live, pending, note), id);
    ObjectFinishes(s.objects[id], status);
  }

  lemma FinishStopKeeps(s: System, session: Bytes, id: Id, pid: nat, pending: seq<Id>)
    requires Inv(s, session) && id in s.objects && Terminal(s.objects[id].status)
    requires L.Lists(s.ledger.host, id, pending)
    ensures Inv(FinishStop(s, id, pid, pending), session)
  {
    hide L.Inv, Quieter, L.NoCallsOf, L.Lists, Hosted, ObjectSound, RemoveLane, L.CancelCalls;
    NoGuestLeft(s.objects[id]);
    NothingHosted(s, id);
    L.CancelFindsNothing(s.ledger, session, id, pending);
    RemoveLaneKeeps(s.ledger, session, id);
    QuieterAbsent(s.ledger, RemoveLane(s.ledger, id), id);
    HostedKeeps(s, FinishStop(s, id, pid, pending), id);
    ObjectReleased(s.objects[id], pid);
  }

  lemma NoGuestLeft(o: Object)
    requires ObjectSound(o) && Terminal(o.status)
    ensures !LiveTask(o)
  {
    hide Mailboxes.Kept;
  }

  lemma QuieterAbsent(l: L.Ledger, m: L.Ledger, id: Id)
    requires Quieter(l, m) && Absent(l, id)
    ensures Absent(m, id)
  {
  }

  lemma ObjectJoins(o: Object, pid: nat)
    requires ObjectSound(o) && Terminal(o.status) && o.handle
    ensures ObjectSound(o.(handle := false, stoppers := o.stoppers[pid := AwaitTask]))
  {
    hide Mailboxes.Kept;
  }

  lemma JoinOrFinishKeeps(s: System, session: Bytes, id: Id, pid: nat, pending: seq<Id>)
    requires Inv(s, session) && id in s.objects && Terminal(s.objects[id].status)
    requires L.Lists(s.ledger.host, id, pending)
    ensures Inv(JoinOrFinish(s, id, pid, pending), session)
  {
    hide L.Inv, L.Lists, ObjectSound, FinishStop;
    if s.objects[id].handle {
      ObjectJoins(s.objects[id], pid);
      ObjectOnly(s, session, id, s.objects[id].(handle := false, stoppers := s.objects[id].stoppers[pid := AwaitTask]));
    } else {
      hide Inv;
      FinishStopKeeps(s, session, id, pid, pending);
    }
  }

  /** A step that changes one object record and keeps its guest, if it has one. */
  lemma ObjectOnly(s: System, session: Bytes, id: Id, o: Object)
    requires Inv(s, session) && ObjectSound(o)
    requires id in s.objects && s.objects[id].task.Suspended? ==> o.task.Suspended?
    ensures Inv(s.(objects := s.objects[id := o]), session)
  {
    hide L.Inv, ObjectSound;
    var t := s.(objects := s.objects[id := o]);
    SameLanesQuieter(s.ledger, t.ledger);
    if HasGuest(s, id) {
      HostedKeeps(s, t, id);
    } else {
      NothingHosted(s, id);
      HostedKeeps(s, t, id);
    }
  }

  /** Stopping an object that never started: it is terminal at once. */
  lemma StopLoadedKeeps(s: System, session: Bytes, id: Id, pid: nat, pending: seq<Id>)
    requires Inv(s, session) && id in s.objects && s.objects[id].status.Loaded?
    requires L.Lists(s.ledger.host, id, pending)
    ensures Inv(StopObject(s, id, pid, pending), session)
  {
    hide L.Inv, L.Lists, Hosted, Quieter, L.NoCallsOf, L.CancelCalls, RemoveLane;
    var o := s.objects[id];
    LoadedStops(o, pid);
    hide ObjectSound;
    NothingHosted(s, id);
    L.CancelFindsNothing(s.ledger, session, id, pending);
    RemoveLaneKeeps(s.ledger, session, id);
    QuieterAbsent(s.ledger, RemoveLane(s.ledger, id), id);
    HostedKeeps(s, StopObject(s, id, pid, pending), id);
  }

  lemma LoadedStops(o: Object, pid: nat)
    requires ObjectSound(o) && o.status.Loaded?
    ensures !o.handle && !o.task.Suspended?
    ensures ObjectSound(o.(status := Stopped, program := false, mailbox := Mailboxes.FRESH, stoppers := o.stoppers - {pid}))
  {
    hide Mailboxes.Kept;
    FreshKept();
  }

  lemma StopLiveKeeps(s: System, session: Bytes, id: Id, pid: nat, pending: seq<Id>)
    requires Inv(s, session) && id in s.objects && !s.objects[id].status.Loaded? && !Terminal(s.objects[id].status)
    ensures Inv(StopObject(s, id, pid, pending), session)
  {
    hide L.Inv, Hosted;
    var o := s.objects[id];
    ObjectStopping(o, pid);
    hide ObjectSound;
    ObjectOnly(s, session, id, o.(status := Stopping, cancel := true, stoppers := o.stoppers[pid := AwaitDone(false)]));
  }

  lemma ObjectStopping(o: Object, pid: nat)
    requires ObjectSound(o) && !o.status.Loaded? && !Terminal(o.status)
    ensures ObjectSound(o.(status := Stopping, cancel := true, stoppers := o.stoppers[pid := AwaitDone(false)]))
  {
    hide Mailboxes.Kept;
  }

  lemma StopKeeps(s: System, session: Bytes, id: Id, pid: nat, pending: seq<Id>)
    requires Inv(s, session) && id in s.objects && L.Lists(s.ledger.host, id, pending)
    ensures Inv(StopObject(s, id, pid, pending), session)
  {
    hide Inv, L.Lists, JoinOrFinish;
    var o := s.objects[id];
    if o.status.Loaded? {
      StopLoadedKeeps(s, session, id, pid, pending);
    } else if Terminal(o.status) {
      JoinOrFinishKeeps(s, session, id, pid, pending);
    } else {
      StopLiveKeeps(s, session, id, pid, pending);
    }
  }

  lemma ResumeKeeps(s: System, session: Bytes, id: Id, pid: nat, pending: seq<Id>)
    requires Inv(s, session) && id in s.objects && pid in s.objects[id].stoppers
    requires L.Lists(s.ledger.host, id, pending) && Runnable(s.objects[id], s.objects[id].stoppers[pid])
    ensures Inv(Resume(s, id, pid, pending), session)
  {
    hide L.Inv, Hosted, L.Lists, JoinOrFinish, FinishStop;
    RunnableIsTerminal(s.objects[id], pid);
    hide Inv;
    if s.objects[id].stoppers[pid].AwaitTask? {
      FinishStopKeeps(s, session, id, pid, pending);
    } else {
      JoinOrFinishKeeps(s, session, id, pid, pending);
    }
  }

  /** A stop that can go on finds its object terminal. */
  lemma RunnableIsTerminal(o: Object, pid: nat)
    requires ObjectSound(o) && pid in o.stoppers && Runnable(o, o.stoppers[pid])
    ensures Terminal(o.status)
  {
    hide Mailboxes.Kept;
    assert StopperSound(o, o.stoppers[pid]);
  }

  // ----- The task and the guest -----

  lemma PollKeeps(s: System, session: Bytes, id: Id, poll: Poll, live: seq<Id>, pending: seq<Id>, note: Bytes)
    requires Inv(s, session) && Enabled(s, PollTask(id, poll, live, pending, note))
    ensures Inv(Polled(s, id, poll, live, pending, note), session)
  {
    hide L.Inv, Hosted, L.Lists, ListsCalls, FinishTask;
    var o := s.objects[id];
    if o.cancel {
      hide Inv;
      FinishTaskKeeps(s, session, id, Stopped, live, pending, note);
    } else {
      match poll
      case Returns =>
        hide Inv;
        FinishTaskKeeps(s, session, id, Exited, live, pending, note);
      case Faults =>
        hide Inv;
        FinishTaskKeeps(s, session, id, Failed, live, pending, note);
      case Pending =>
        ObjectPolled(o);
        hide ObjectSound;
        ObjectOnly(s, session, id, o.(task := Suspended, status := if o.task.Spawned? then Running else o.status));
    }
  }

  lemma ObjectPolled(o: Object)
    requires ObjectSound(o) && LiveTask(o) && !o.cancel
    ensures ObjectSound(o.(task := Suspended, status := if o.task.Spawned? then Running else o.status))
  {
    hide Mailboxes.Kept;
  }

  /** Ledger steps that add nothing keep the objects as they are. */
  lemma LedgerQuietens(s: System, session: Bytes, l: L.Ledger)
    requires Inv(s, session) && L.Inv(l, session) && Quieter(s.ledger, l)
    ensures Inv(s.(ledger := l), session)
  {
    hide L.Inv, ObjectSound, Mailboxes.Kept;
  }

  lemma GuestCallKeeps(s: System, session: Bytes, id: Id, bytes: Bytes)
    requires Inv(s, session) && GuestMayRun(s, id)
    ensures Inv(s.(ledger := L.BeginCall(s.ledger, session, id, bytes)), session)
  {
    hide L.Inv, ObjectSound, L.CallId;
    var l := L.BeginCall(s.ledger, session, id, bytes);
    L.BeginKeeps(s.ledger, session, id, bytes);
    assert forall o :: FramesOf(l.host.q, o) == FramesOf(s.ledger.host.q, o);
  }

  lemma GuestPushKeeps(s: System, session: Bytes, call: Id)
    requires Inv(s, session) && Enabled(s, GuestPush(call))
    ensures Inv(s.(ledger := L.PushCall(s.ledger, call)), session)
  {
    hide L.Inv, ObjectSound, WellFormed;
    var l := L.PushCall(s.ledger, call);
    var owner := s.ledger.calls[call].owner;
    L.PushCallKeeps(s.ledger, session, call);
    Formed(s.ledger, session);
    forall o | FramesOf(l.host.q, o) != [] ensures HasGuest(s, o) {
      Conservation.FramesAfterPush(s.ledger.host.q, owner, s.ledger.calls[call].frame, o);
      assert o == owner || FramesOf(s.ledger.host.q, o) != [];
    }
  }

  lemma GuestLogKeeps(s: System, session: Bytes, id: Id, bytes: Bytes)
    requires Inv(s, session) && GuestMayRun(s, id)
    ensures Inv(s.(ledger := L.LogFrame(s.ledger, id, bytes)), session)
  {
    hide L.Inv, ObjectSound, WellFormed;
    var l := L.LogFrame(s.ledger, id, bytes);
    L.LogKeeps(s.ledger, session, id, bytes);
    Formed(s.ledger, session);
    forall o | FramesOf(l.host.q, o) != [] ensures HasGuest(s, o) {
      Conservation.FramesAfterPush(s.ledger.host.q, id, Frame(bytes, Other), o);
      assert o == id || FramesOf(s.ledger.host.q, o) != [];
    }
  }

  lemma GuestEndKeeps(s: System, session: Bytes, call: Id)
    requires Inv(s, session) && call in s.ledger.calls
    ensures Inv(s.(ledger := L.EndCall(s.ledger, call)), session)
  {
    hide L.Inv, ObjectSound, Hosted, Quieter, L.EndCall;
    L.EndKeeps(s.ledger, session, call);
    EndQuieter(s.ledger, session, call);
    LedgerQuietens(s, session, L.EndCall(s.ledger, call));
  }

  lemma ResponseKeeps(s: System, session: Bytes, frame: Json.Value)
    requires Inv(s, session)
    ensures Inv(s.(ledger := L.Answered(s.ledger, frame)), session)
  {
    hide L.Inv, ObjectSound, Hosted, Quieter, L.ResponseAnswer;
    L.ResponseKeeps(s.ledger, session, frame);
    SameLanesQuieter(s.ledger, L.Answered(s.ledger, frame));
    LedgerQuietens(s, session, L.Answered(s.ledger, frame));
  }

  lemma EmitKeeps(s: System, session: Bytes)
    requires Inv(s, session)
    ensures Inv(s.(ledger := L.EmitNext(s.ledger)), session)
  {
    hide L.Inv, ObjectSound, Hosted, WellFormed;
    var l := L.EmitNext(s.ledger);
    L.EmitKeeps(s.ledger, session);
    Formed(s.ledger, session);
    forall o | FramesOf(l.host.q, o) != [] ensures FramesOf(s.ledger.host.q, o) != [] {
      Conservation.FramesAfter(s.ledger.host.q, Next, o);
    }
    assert Quieter(s.ledger, l);
    hide Quieter;
    LedgerQuietens(s, session, l);
  }

  lemma CloseKeeps(s: System, session: Bytes)
    requires Inv(s, session)
    ensures Inv(s.(ledger := L.CloseOutput(s.ledger)), session)
  {
    hide L.Inv, ObjectSound, Hosted;
    var l := L.CloseOutput(s.ledger);
    L.CloseKeeps(s.ledger, session);
    SameLanesQuieter(s.ledger, l);
    hide Quieter;
    LedgerQuietens(s, session, l);
  }

  lemma ControlKeeps(s: System, session: Bytes, bytes: Bytes)
    requires Inv(s, session)
    ensures Inv(s.(ledger := Announce(s.ledger, bytes)), session)
  {
    hide L.Inv, ObjectSound, Hosted, Quieter, Announce;
    AnnounceKeeps(s.ledger, session, bytes);
    LedgerQuietens(s, session, Announce(s.ledger, bytes));
  }

  // ----- The mailbox and the rest of an object -----

  lemma ObjectStarts(o: Object)
    requires ObjectSound(o) && o.status.Loaded?
    ensures ObjectSound(o.(status := Starting, task := Spawned, handle := true, spawns := o.spawns + 1))
  {
    hide Mailboxes.Kept;
  }

  lemma ObjectGetsMail(o: Object, mailbox: Mailboxes.Log)
    requires ObjectSound(o) && !Terminal(o.status) && Mailboxes.Kept(mailbox)
    ensures ObjectSound(o.(mailbox := mailbox))
  {
    hide Mailboxes.Kept;
  }

  lemma RecordStepKeeps(s: System, session: Bytes, step: Step)
    requires Inv(s, session) && Enabled(s, step)
    requires step.Load? || step.Start? || step.SetCancel? || step.DropStop?
    ensures Inv(Apply(s, session, step), session)
  {
    hide L.Inv, Hosted, Mailboxes.Kept;
    match step
    case Load(id) =>
      assert Mailboxes.Kept(Mailboxes.FRESH) by { FreshKept(); }
      ObjectOnly(s, session, id, NEW);
    case Start(id) =>
      if s.objects[id].status.Loaded? {
        ObjectStarts(s.objects[id]);
        ObjectOnly(s, session, id, Apply(s, session, step).objects[id]);
      }
    case SetCancel(id) => ObjectOnly(s, session, id, s.objects[id].(cancel := true));
    case DropStop(id, pid) =>
      ObjectOnly(s, session, id, s.objects[id].(stoppers := s.objects[id].stoppers - {pid}));
  }

  lemma FreshKept()
    ensures Mailboxes.Kept(Mailboxes.FRESH)
  {
  }

  lemma MailStepKeeps(s: System, session: Bytes, step: Step)
    requires Inv(s, session) && Enabled(s, step) && (step.GuestReceive? || step.DeliverEvent?)
    ensures Inv(Apply(s, session, step), session)
  {
    hide L.Inv, Hosted, Mailboxes.AfterDeliver, Mailboxes.AfterReceive;
    var o := s.objects[step.id];
    match step
    case GuestReceive(id) =>
      Mailboxes.ReceiveKeeps(o.mailbox);
      SuspendedIsLive(o);
      ObjectGetsMail(o, Mailboxes.AfterReceive(o.mailbox));
      hide ObjectSound;
      ObjectOnly(s, session, id, o.(mailbox := Mailboxes.AfterReceive(o.mailbox)));
    case DeliverEvent(id, event) =>
      if o.status.Loaded? || o.status.Starting? || o.status.Running? {
        Mailboxes.DeliverKeeps(o.mailbox, event);
        ObjectGetsMail(o, Mailboxes.AfterDeliver(o.mailbox, event));
        hide ObjectSound;
        ObjectOnly(s, session, id, o.(mailbox := Mailboxes.AfterDeliver(o.mailbox, event)));
      }
  }

  lemma SuspendedIsLive(o: Object)
    requires ObjectSound(o) && o.task.Suspended?
    ensures !Terminal(o.status)
  {
    hide Mailboxes.Kept;
  }

  lemma StepKeeps(s: System, session: Bytes, step: Step)
    requires Inv(s, session) && Enabled(s, step)
    ensures Inv(Apply(s, session, step), session)
  {
    hide Inv, L.Lists, ListsCalls, EndAll;
    match step
    case PollTask(id, poll, live, pending, note) => PollKeeps(s, session, id, poll, live, pending, note);
    case GuestCall(id, bytes) => GuestCallKeeps(s, session, id, bytes);
    case GuestPush(call) => GuestPushKeeps(s, session, call);
    case GuestEnd(call) => GuestEndKeeps(s, session, call);
    case GuestLog(id, bytes) => GuestLogKeeps(s, session, id, bytes);
    case GuestReceive(id) => MailStepKeeps(s, session, step);
    case DeliverEvent(id, event) => MailStepKeeps(s, session, step);
    case Stop(id, pid, pending) => StopKeeps(s, session, id, pid, pending);
    case ResumeStop(id, pid, pending) => ResumeKeeps(s, session, id, pid, pending);
    case HostResponse(frame) => ResponseKeeps(s, session, frame);
    case Control(bytes) => ControlKeeps(s, session, bytes);
    case WriterEmits => EmitKeeps(s, session);
    case CloseOutput => CloseKeeps(s, session);
    case _ => RecordStepKeeps(s, session, step);
  }

  // ----- Runs -----

  ghost predicate Steps(s: System, t: System, session: Bytes) {
    exists step :: Enabled(s, step) && t == Apply(s, session, step)
  }

  ghost function Moves(session: Bytes): (System, System) -> bool {
    (s: System, t: System) => Steps(s, t, session)
  }

  ghost predicate IsRun(run: seq<System>, session: Bytes) {
    Runs.IsRun(run, START, Moves(session))
  }

  lemma StartSound(session: Bytes)
    ensures Inv(START, session)
  {
    L.StartSound(session);
    hide L.Inv;
    L.NoFrames();
  }

  lemma RunSound(run: seq<System>, session: Bytes)
    requires IsRun(run, session)
    ensures forall i :: 0 <= i < |run| ==> Inv(run[i], session)
  {
    StartSound(session);
    hide Inv, Apply, Enabled;
    forall s, t | Inv(s, session) && Moves(session)(s, t) ensures Inv(t, session) {
      var step :| Enabled(s, step) && t == Apply(s, session, step);
      StepKeeps(s, session, step);
    }
    Runs.Invariant(run, START, Moves(session), s => Inv(s, session));
  }

  // ----- What the runtime promises -----

  /** A loaded object still has its program, so starting it cannot fail on that account. */
  lemma LoadedHasProgram(run: seq<System>, session: Bytes, i: nat, id: Id)
    requires IsRun(run, session) && i < |run| && id in run[i].objects
    ensures run[i].objects[id].status.Loaded? ==> run[i].objects[id].program
    ensures run[i].objects[id].spawns <= 1
  {
    RunSound(run, session);
    hide L.Inv, Hosted, Mailboxes.Kept, IsRun;
  }

  /**
    What one step may do to an object: terminal states are final, a cancelled task can only
    stop, and until the end the mailbox forgets nothing it accepted.
   */
  ghost predicate Follows(o: Object, t: Object) {
    && (Terminal(o.status) ==> t.status == o.status && t.mailbox == o.mailbox)
    && (LiveTask(o) && o.cancel ==> (LiveTask(t) && t.cancel) || t.status.Stopped?)
    && o.spawns <= t.spawns
    && (!Terminal(t.status) ==> o.mailbox.accepted <= t.mailbox.accepted && o.mailbox.taken <= t.mailbox.taken)
  }

  /** Steps of guests, host and writer that change no object. */
  predicate LedgerOnly(step: Step) {
    || step.GuestCall? || step.GuestPush? || step.GuestEnd? || step.GuestLog?
    || step.HostResponse? || step.Control? || step.WriterEmits? || step.CloseOutput?
  }

  lemma ObjectsAlone(s: System, session: Bytes, step: Step)
    requires Enabled(s, step) && LedgerOnly(step)
    ensures Apply(s, session, step).objects == s.objects
  {
    hide L.BeginCall, L.PushCall, L.EndCall, L.LogFrame, L.Answered, L.EmitNext, L.CloseOutput, Announce;
  }

  lemma StepFollows(s: System, session: Bytes, step: Step, id: Id)
    requires Inv(s, session) && Enabled(s, step) && id in s.objects
    ensures id in Apply(s, session, step).objects
    ensures Follows(s.objects[id], Apply(s, session, step).objects[id])
  {
    hide Inv, Apply, Enabled, Follows;
    if LedgerOnly(step) {
      ObjectsAlone(s, session, step);
      SameFollows(s.objects[id]);
    } else if step.Stop? || step.ResumeStop? {
      StopFollows(s, session, step, id);
    } else if step.PollTask? {
      PollFollows(s, session, step, id);
    } else if step.GuestReceive? || step.DeliverEvent? {
      MailFollows(s, session, step, id);
    } else {
      RecordFollows(s, session, step, id);
    }
  }

  lemma SameFollows(o: Object)
    ensures Follows(o, o)
  {
  }

  lemma StopFollows(s: System, session: Bytes, step: Step, id: Id)
    requires Inv(s, session) && (step.Stop? || step.ResumeStop?) && Enabled(s, step) && id in s.objects
    ensures var t := Apply(s, session, step); id in t.objects && Follows(s.objects[id], t.objects[id])
  {
    hide L.Inv, Hosted, L.Lists, ObjectSound, StopObject, Resume, Follows;
    assert ObjectSound(s.objects[step.id]);
    if step.Stop? {
      StopObjectFollows(s, step.id, step.pid, step.pending, id);
    } else {
      RunnableIsTerminal(s.objects[step.id], step.pid);
      ResumeFollows(s, step.id, step.pid, step.pending, id);
    }
  }

  lemma StopObjectFollows(s: System, stopped: Id, pid: nat, pending: seq<Id>, id: Id)
    requires stopped in s.objects && ObjectSound(s.objects[stopped]) && id in s.objects
    ensures var t := StopObject(s, stopped, pid, pending); id in t.objects && Follows(s.objects[id], t.objects[id])
  {
    hide Mailboxes.Kept, RemoveLane, L.CancelCalls, StopperSound;
  }

  lemma ResumeFollows(s: System, stopped: Id, pid: nat, pending: seq<Id>, id: Id)
    requires stopped in s.objects && ObjectSound(s.objects[stopped]) && id in s.objects
    requires pid in s.objects[stopped].stoppers && Terminal(s.objects[stopped].status)
    ensures var t := Resume(s, stopped, pid, pending); id in t.objects && Follows(s.objects[id], t.objects[id])
  {
    hide Mailboxes.Kept, RemoveLane, L.CancelCalls, StopperSound;
  }

  lemma PollFollows(s: System, session: Bytes, step: Step, id: Id)
    requires Inv(s, session) && step.PollTask? && Enabled(s, step) && id in s.objects
    ensures var t := Apply(s, session, step); id in t.objects && Follows(s.objects[id], t.objects[id])
  {
    hide L.Inv, Hosted, L.Lists, ListsCalls, EndAll, Mailboxes.Kept, RemoveLane, L.CancelCalls, Announce, WakeStoppers;
    assert ObjectSound(s.objects[id]) && ObjectSound(s.objects[step.id]);
    hide StopperSound;
  }

  lemma MailFollows(s: System, session: Bytes, step: Step, id: Id)
    requires Inv(s, session) && (step.GuestReceive? || step.DeliverEvent?) && Enabled(s, step) && id in s.objects
    ensures var t := Apply(s, session, step); id in t.objects && Follows(s.objects[id], t.objects[id])
  {
    hide L.Inv, Hosted, Mailboxes.Kept, Mailboxes.Verdict, StopperSound;
    assert ObjectSound(s.objects[id]) && ObjectSound(s.objects[step.id]);
  }

  lemma RecordFollows(s: System, session: Bytes, step: Step, id: Id)
    requires Inv(s, session) && Enabled(s, step) && id in s.objects
    requires step.Load? || step.Start? || step.SetCancel? || step.DropStop?
    ensures var t := Apply(s, session, step); id in t.objects && Follows(s.objects[id], t.objects[id])
  {
    hide L.Inv, Hosted, Mailboxes.Kept, StopperSound;
    assert ObjectSound(s.objects[id]) && (!step.Load? ==> ObjectSound(s.objects[step.id]));
  }

  lemma FollowsAt(run: seq<System>, session: Bytes, k: nat, id: Id)
    requires IsRun(run, session) && k + 1 < |run| && id in run[k].objects
    ensures id in run[k + 1].objects && Follows(run[k].objects[id], run[k + 1].objects[id])
  {
    RunSound(run, session);
    hide Inv, Apply, Enabled, Follows;
    assert Steps(run[k], run[k + 1], session);
    var step :| Enabled(run[k], step) && run[k + 1] == Apply(run[k], session, step);
    StepFollows(run[k], session, step, id);
  }

  /**
    Deduplication lasts for the object's life: until its end an accepted event, received or
    not, is answered as a duplicate unless 128 later events were accepted.
   */
  lemma RemembersForLife(run: seq<System>, session: Bytes, i: nat, j: nat, id: Id, k: nat)
    requires IsRun(run, session) && i <= j < |run| && id in run[i].objects
    requires id in run[j].objects && !Terminal(run[j].objects[id].status)
    requires k < |run[i].objects[id].mailbox.accepted| && |run[j].objects[id].mailbox.accepted| - k <= Mailboxes.WINDOW
    ensures run[i].objects[id].mailbox.accepted <= run[j].objects[id].mailbox.accepted
    ensures run[j].objects[id].mailbox.Valid()
    ensures Mailboxes.Verdict(run[j].objects[id].mailbox, run[i].objects[id].mailbox.accepted[k]) == Mailboxes.Duplicate
  {
    NeverForgets(run, session, i, j, id);
    MailboxKept(run, session, i, id);
    MailboxKept(run, session, j, id);
    hide IsRun, Mailboxes.Kept, Mailboxes.Verdict;
    Mailboxes.KeptValid(run[j].objects[id].mailbox);
    Mailboxes.RemembersLong(run[i].objects[id].mailbox, k, run[j].objects[id].mailbox);
  }

  lemma MailboxKept(run: seq<System>, session: Bytes, i: nat, id: Id)
    requires IsRun(run, session) && i < |run| && id in run[i].objects
    ensures Mailboxes.Kept(run[i].objects[id].mailbox)
  {
    RunSound(run, session);
    hide IsRun, L.Inv, Hosted, Mailboxes.Kept;
    assert ObjectSound(run[i].objects[id]);
  }

  /** Until an object ends, its mailbox only adds to what it accepted and what it handed out. */
  lemma NeverForgets(run: seq<System>, session: Bytes, i: nat, j: nat, id: Id)
    requires IsRun(run, session) && i <= j < |run| && id in run[i].objects
    ensures id in run[j].objects
    ensures !Terminal(run[j].objects[id].status) ==>
      && run[i].objects[id].mailbox.accepted <= run[j].objects[id].mailbox.accepted
      && run[i].objects[id].mailbox.taken <= run[j].objects[id].mailbox.taken
  {
    hide IsRun, Terminal, LiveTask;
    var log := run[i].objects[id].mailbox;
    var holds := (s: System) => id in s.objects && (Terminal(s.objects[id].status) ||
      (log.accepted <= s.objects[id].mailbox.accepted && log.taken <= s.objects[id].mailbox.taken));
    forall k | i <= k < j && holds(run[k]) ensures holds(run[k + 1]) {
      FollowsAt(run, session, k, id);
    }
    Runs.Onward(run, holds, i, j);
  }

  /** Stopped, Exited and Failed are final. */
  lemma TerminalIsFinal(run: seq<System>, session: Bytes, i: nat, j: nat, id: Id)
    requires IsRun(run, session) && i <= j < |run| && id in run[i].objects && Terminal(run[i].objects[id].status)
    ensures id in run[j].objects && run[j].objects[id].status == run[i].objects[id].status
  {
    hide IsRun, LiveTask;
    var status := run[i].objects[id].status;
    var holds := (s: System) => id in s.objects && s.objects[id].status == status;
    forall k | i <= k < j && holds(run[k]) ensures holds(run[k + 1]) {
      FollowsAt(run, session, k, id);
    }
    Runs.Onward(run, holds, i, j);
  }

  /** What a stop cleared stays clear in every later state. */
  lemma StopLeavesNothing(run: seq<System>, session: Bytes, i: nat, j: nat, id: Id)
    requires IsRun(run, session) && i <= j < |run| && id in run[i].objects && Terminal(run[i].objects[id].status)
    ensures id in run[j].objects && run[j].objects[id].mailbox == Mailboxes.FRESH
    ensures Absent(run[j].ledger, id)
    ensures forall call :: call in run[j].ledger.host.pending ==> run[j].ledger.host.pending[call] != id
  {
    RunSound(run, session);
    TerminalIsFinal(run, session, i, j, id);
    hide IsRun, Inv, Absent;
    NoResidue(run[j], session, id);
  }

  /** A terminal object leaves nothing behind: no call, no pending entry, no queued frame, no mail. */
  lemma NoResidue(s: System, session: Bytes, id: Id)
    requires Inv(s, session) && id in s.objects && Terminal(s.objects[id].status)
    ensures Absent(s.ledger, id) && s.objects[id].mailbox == Mailboxes.FRESH
    ensures forall call :: call in s.ledger.host.pending ==> s.ledger.host.pending[call] != id
  {
    hide L.Inv, Hosted, Mailboxes.Kept, Absent;
    NoGuestLeft(s.objects[id]);
    NothingHosted(s, id);
    AbsentNonePending(s.ledger, session, id);
  }

  lemma AbsentNonePending(l: L.Ledger, session: Bytes, id: Id)
    requires L.Inv(l, session) && Absent(l, id)
    ensures forall call :: call in l.host.pending ==> l.host.pending[call] != id
  {
    hide L.Inv;
    L.NonePending(l, session, id);
  }

  /** A cancellation that arrives while the task is live always ends in Stopped. */
  lemma CancelMeansStopped(run: seq<System>, session: Bytes, i: nat, j: nat, id: Id)
    requires IsRun(run, session) && i <= j < |run| && id in run[i].objects
    requires LiveTask(run[i].objects[id]) && run[i].objects[id].cancel
    ensures id in run[j].objects
    ensures var o := run[j].objects[id]; (LiveTask(o) && o.cancel) || o.status.Stopped?
  {
    hide IsRun;
    var holds := (s: System) => id in s.objects &&
      ((LiveTask(s.objects[id]) && s.objects[id].cancel) || s.objects[id].status.Stopped?);
    forall k | i <= k < j && holds(run[k]) ensures holds(run[k + 1]) {
      FollowsAt(run, session, k, id);
    }
    Runs.Onward(run, holds, i, j);
  }

  ghost predicate NextPollReleases(s: System, id: Id, pid: nat, step: Step)
    requires step.PollTask? && step.id == id && id in s.objects
  {
    Enabled(s, step) ==>
      var o := Polled(s, id, step.poll, step.live, step.pending, step.note).objects[id];
      o.status.Stopped? && pid in o.stoppers && Runnable(o, o.stoppers[pid])
  }

  /**
    Nobody is stranded: a stop that cannot go on yet waits for a live, cancelled task,
    and the task's very next poll lets it go on.
   */
  lemma StopIsNotStranded(run: seq<System>, session: Bytes, i: nat, id: Id, pid: nat)
    requires IsRun(run, session) && i < |run| && id in run[i].objects && pid in run[i].objects[id].stoppers
    ensures var o := run[i].objects[id];
      Runnable(o, o.stoppers[pid]) || (o.status.Stopping? && LiveTask(o) && o.cancel)
    ensures !Runnable(run[i].objects[id], run[i].objects[id].stoppers[pid]) ==>
      forall poll, live, pending, note :: NextPollReleases(run[i], id, pid, PollTask(id, poll, live, pending, note))
  {
    RunSound(run, session);
    hide IsRun, L.Inv, Hosted, ObjectSound, NextPollReleases;
    var o := run[i].objects[id];
    StopperHeld(o, pid);
    if !Runnable(o, o.stoppers[pid]) {
      forall poll, live, pending, note ensures NextPollReleases(run[i], id, pid, PollTask(id, poll, live, pending, note)) {
        PollReleases(run[i], id, pid, poll, live, pending, note);
      }
    }
  }

  lemma StopperHeld(o: Object, pid: nat)
    requires ObjectSound(o) && pid in o.stoppers
    ensures Runnable(o, o.stoppers[pid]) || (o.status.Stopping? && LiveTask(o) && o.cancel && o.stoppers[pid].AwaitDone?)
  {
    hide Mailboxes.Kept;
    assert StopperSound(o, o.stoppers[pid]);
  }

  lemma PollReleases(s: System, id: Id, pid: nat, poll: Poll, live: seq<Id>, pending: seq<Id>, note: Bytes)
    requires id in s.objects && s.objects[id].cancel && pid in s.objects[id].stoppers && s.objects[id].stoppers[pid].AwaitDone?
    ensures NextPollReleases(s, id, pid, PollTask(id, poll, live, pending, note))
  {
    hide Enabled, EndAll, RemoveLane, L.CancelCalls, Announce;
  }
}
