/**
  `Runtime::shutdown` (src/runtime.rs:356-365): every loaded object is told to stop, then
  each is stopped in turn, and the map is cleared; polls, stops and the writer go on in
  between. By then the request tasks are gone, so nothing new is loaded.
 */
module Shutdown {
  import opened Prelude
  import opened OutboxModel
  import L = HostLedger
  import M = Lifecycle
  import O = ObjectMap
  import Runs

  /** `pid` is the shutdown's own call of stop on the first object left to do, while it waits. */
  datatype Plan = Open | Stopping(todo: seq<Id>, pid: Option<nat>) | Cleared

  datatype State = State(loaded: O.State, plan: Plan)

  const START := State(O.START, Open)

  datatype Step =
    | Inside(step: O.Step)
    | Begin(ids: seq<Id>)
    | StopNext(pid: nat, pending: seq<Id>)
    | ResumeStop(pending: seq<Id>)
    | Clear

  /** Others cannot resume or drop the shutdown's own call. */
  predicate Own(plan: Plan, step: O.Step) {
    && plan.Stopping? && plan.pid.Some? && plan.todo != [] && step.Inside?
    && (step.step.ResumeStop? || step.step.DropStop?)
    && step.step.id == plan.todo[0] && step.step.pid == plan.pid.value
  }

  ghost predicate Enabled(s: State, step: Step) {
    match step
    case Inside(inner) => O.Enabled(s.loaded, inner) && (s.plan.Open? || (!inner.Insert? && !Own(s.plan, inner)))
    case Begin(ids) => s.plan.Open? && forall id :: id in ids <==> id in s.loaded.listed
    case StopNext(pid, pending) =>
      && s.plan.Stopping? && s.plan.pid.None? && s.plan.todo != []
      && M.Enabled(s.loaded.system, M.Stop(s.plan.todo[0], pid, pending))
    case ResumeStop(pending) =>
      && s.plan.Stopping? && s.plan.pid.Some? && s.plan.todo != []
      && M.Enabled(s.loaded.system, M.ResumeStop(s.plan.todo[0], s.plan.pid.value, pending))
    case Clear => s.plan.Stopping? && s.plan.todo == []
  }

  function CancelEach(s: M.System, ids: seq<Id>): M.System
    decreases ids
  {
    if ids == [] then s
    else CancelEach(if ids[0] in s.objects then s.(objects := s.objects[ids[0] := s.objects[ids[0]].(cancel := true)]) else s, ids[1..])
  }

  /** The next object's turn comes when the call on this one returns. */
  function AfterStop(todo: seq<Id>, after: M.System, step: M.Step): Plan
    requires todo != [] && (step.Stop? || step.ResumeStop?)
  {
    if O.Returned(after, step) then Stopping(todo[1..], None) else Stopping(todo, Some(step.pid))
  }

  ghost function Stopped(s: State, session: Bytes, step: M.Step): State
    requires s.plan.Stopping? && s.plan.todo != [] && (step.Stop? || step.ResumeStop?) && M.Enabled(s.loaded.system, step)
  {
    var after := M.Apply(s.loaded.system, session, step);
    State(s.loaded.(system := after), AfterStop(s.plan.todo, after, step))
  }

  ghost function Apply(s: State, session: Bytes, step: Step): State
    requires Enabled(s, step)
  {
    match step
    case Inside(inner) => s.(loaded := O.Apply(s.loaded, session, inner))
    case Begin(ids) => State(s.loaded.(system := CancelEach(s.loaded.system, ids)), Stopping(ids, None))
    case StopNext(pid, pending) => Stopped(s, session, M.Stop(s.plan.todo[0], pid, pending))
    case ResumeStop(pending) => Stopped(s, session, M.ResumeStop(s.plan.todo[0], s.plan.pid.value, pending))
    case Clear => State(s.loaded.(listed := {}), Cleared)
  }

  // ----- What every state keeps -----

  /** While the shutdown runs, every object in the map is still to do or has ended. */
  ghost predicate Planned(s: State) {
    match s.plan
    case Open => true
    case Stopping(todo, _) =>
      && (forall id :: id in todo ==> id in s.loaded.system.objects)
      && (forall id :: id in s.loaded.listed ==>
            id in s.loaded.system.objects && (id in todo || M.Terminal(s.loaded.system.objects[id].status)))
    case Cleared => s.loaded.listed == {}
  }

  ghost predicate Sound(s: State, session: Bytes) {
    O.Sound(s.loaded, session) && Planned(s)
  }

  /** Nothing is listed that was not, no object goes, and what had ended stays ended. */
  ghost predicate Onward(a: O.State, b: O.State) {
    && b.listed <= a.listed
    && (forall id :: id in a.system.objects ==> id in b.system.objects)
    && (forall id :: id in a.system.objects && M.Terminal(a.system.objects[id].status) ==> M.Terminal(b.system.objects[id].status))
  }

  lemma InnerOnward(a: O.State, session: Bytes, inner: O.Step)
    requires O.Sound(a, session) && O.Enabled(a, inner) && !inner.Insert?
    ensures Onward(a, O.Apply(a, session, inner))
  {
    hide O.Sound, M.Enabled, M.Apply, O.LooksUp, O.Returned, M.Terminal;
    if inner.Inside? {
      O.SystemKeeps(a, session, inner.step);
    }
  }

  lemma StillPlanned(s: State, loaded: O.State)
    requires Planned(s) && Onward(s.loaded, loaded)
    ensures Planned(s.(loaded := loaded))
  {
    hide M.Terminal;
  }

  lemma InsideKeeps(s: State, session: Bytes, inner: O.Step)
    requires Sound(s, session) && Enabled(s, Inside(inner))
    ensures Sound(s.(loaded := O.Apply(s.loaded, session, inner)), session)
  {
    hide O.Sound, O.Enabled, O.Apply, Onward, Own;
    O.StepKeeps(s.loaded, session, inner);
    if !inner.Insert? {
      InnerOnward(s.loaded, session, inner);
      StillPlanned(s, O.Apply(s.loaded, session, inner));
    }
  }

  lemma {:induction false} CancelEachKeeps(loaded: O.State, session: Bytes, ids: seq<Id>)
    requires O.Sound(loaded, session)
    ensures O.Sound(loaded.(system := CancelEach(loaded.system, ids)), session)
    ensures CancelEach(loaded.system, ids).objects.Keys == loaded.system.objects.Keys
    decreases ids
  {
    hide O.Sound, M.Terminal;
    if ids != [] {
      var next := if ids[0] in loaded.system.objects then M.Apply(loaded.system, session, M.SetCancel(ids[0])) else loaded.system;
      if ids[0] in loaded.system.objects {
        O.SystemKeeps(loaded, session, M.SetCancel(ids[0]));
      }
      CancelEachKeeps(loaded.(system := next), session, ids[1..]);
    }
  }

  /** Every listed object is told to stop before the first of them is waited for. */
  lemma BeginTellsAll(s: State, session: Bytes, ids: seq<Id>, id: Id)
    requires Sound(s, session) && Enabled(s, Begin(ids)) && id in s.loaded.system.objects
    ensures var t := Apply(s, session, Begin(ids));
      && t.plan == Stopping(ids, None) && id in t.loaded.system.objects
      && t.loaded.system.objects[id]
         == if id in s.loaded.listed then s.loaded.system.objects[id].(cancel := true) else s.loaded.system.objects[id]
  {
    hide O.Sound, CancelEach;
    CancelEachExactly(s.loaded.system, ids, id);
  }

  lemma {:induction false} CancelEachExactly(s: M.System, ids: seq<Id>, id: Id)
    requires id in s.objects
    ensures var t := CancelEach(s, ids);
      id in t.objects && t.objects[id] == if id in ids then s.objects[id].(cancel := true) else s.objects[id]
    decreases ids
  {
    if ids != [] {
      var next := if ids[0] in s.objects then s.(objects := s.objects[ids[0] := s.objects[ids[0]].(cancel := true)]) else s;
      CancelEachExactly(next, ids[1..], id);
    }
  }

  lemma BeginKeeps(s: State, session: Bytes, ids: seq<Id>)
    requires Sound(s, session) && Enabled(s, Begin(ids))
    ensures Sound(Apply(s, session, Begin(ids)), session)
  {
    hide O.Sound, M.Terminal, CancelEach, Planned;
    ListedLoaded(s.loaded, session);
    CancelEachKeeps(s.loaded, session, ids);
    AllToDo(s.loaded.(system := CancelEach(s.loaded.system, ids)), ids);
  }

  lemma AllToDo(loaded: O.State, ids: seq<Id>)
    requires forall id :: id in ids <==> id in loaded.listed
    requires forall id :: id in loaded.listed ==> id in loaded.system.objects
    ensures Planned(State(loaded, Stopping(ids, None)))
  {
    hide M.Terminal;
  }

  lemma ListedLoaded(loaded: O.State, session: Bytes)
    requires O.Sound(loaded, session)
    ensures forall id :: id in loaded.listed ==> id in loaded.system.objects
  {
    hide M.Inv, O.UnlistedEnded, O.Used;
  }

  lemma StoppedKeeps(s: State, session: Bytes, step: M.Step)
    requires Sound(s, session) && s.plan.Stopping? && s.plan.todo != [] && (step.Stop? || step.ResumeStop?)
    requires M.Enabled(s.loaded.system, step) && step.id == s.plan.todo[0]
    ensures Sound(Stopped(s, session, step), session)
  {
    hide O.Sound, M.Enabled, M.Apply, M.Terminal, M.Inv, O.Returned, AfterStop, Planned;
    SystemSound(s.loaded, session);
    var after := M.Apply(s.loaded.system, session, step);
    O.SystemKeeps(s.loaded, session, step);
    if O.Returned(after, step) {
      O.ReturnedHasEnded(s.loaded.system, session, step);
    }
    PlanMoves(s, after, step);
  }

  lemma PlanMoves(s: State, after: M.System, step: M.Step)
    requires Planned(s) && s.plan.Stopping? && s.plan.todo != [] && (step.Stop? || step.ResumeStop?) && step.id == s.plan.todo[0]
    requires Onward(s.loaded, s.loaded.(system := after))
    requires O.Returned(after, step) ==> step.id in after.objects && M.Terminal(after.objects[step.id].status)
    ensures Planned(State(s.loaded.(system := after), AfterStop(s.plan.todo, after, step)))
  {
    hide M.Terminal, O.Returned;
    assert forall id :: id in s.plan.todo <==> id == s.plan.todo[0] || id in s.plan.todo[1..];
  }

  lemma SystemSound(loaded: O.State, session: Bytes)
    requires O.Sound(loaded, session)
    ensures M.Inv(loaded.system, session)
  {
    hide M.Inv;
  }

  /** With nothing left to do, every object has ended, listed or not. */
  lemma AllEnded(s: State, session: Bytes)
    requires Sound(s, session) && (s.plan.Cleared? || (s.plan.Stopping? && s.plan.todo == []))
    ensures forall id :: id in s.loaded.system.objects ==> M.Terminal(s.loaded.system.objects[id].status)
  {
    hide M.Inv, O.IdsSound, M.Terminal;
  }

  lemma ClearKeeps(s: State, session: Bytes)
    requires Sound(s, session) && Enabled(s, Clear)
    ensures Sound(Apply(s, session, Clear), session)
  {
    hide M.Inv, M.Terminal, O.Sound;
    AllEnded(s, session);
    ClearedSound(s.loaded, session);
  }

  lemma ClearedSound(loaded: O.State, session: Bytes)
    requires O.Sound(loaded, session)
    requires forall id :: id in loaded.system.objects ==> M.Terminal(loaded.system.objects[id].status)
    ensures O.Sound(loaded.(listed := {}), session)
  {
    hide M.Inv, M.Terminal, O.Used;
  }

  lemma StepKeeps(s: State, session: Bytes, step: Step)
    requires Sound(s, session) && Enabled(s, step)
    ensures Sound(Apply(s, session, step), session)
  {
    hide Sound, O.Enabled, M.Enabled, Stopped, O.Apply, CancelEach;
    match step
    case Inside(inner) => InsideKeeps(s, session, inner);
    case Begin(ids) => BeginKeeps(s, session, ids);
    case StopNext(pid, pending) => StoppedKeeps(s, session, M.Stop(s.plan.todo[0], pid, pending));
    case ResumeStop(pending) => StoppedKeeps(s, session, M.ResumeStop(s.plan.todo[0], s.plan.pid.value, pending));
    case Clear => ClearKeeps(s, session);
  }

  /**
    The shutdown stops objects without the cleanup of the shared tables that a stop request
    adds. It makes no difference: of an object that is ending there is nothing to clean.
   */
  lemma StopCleansNothing(s: M.System, session: Bytes, id: Id, pending: seq<Id>)
    requires M.Inv(s, session) && id in s.objects && L.Lists(s.ledger.host, id, pending)
    requires M.Terminal(s.objects[id].status) || s.objects[id].status.Loaded?
    ensures M.RemoveLane(L.CancelCalls(s.ledger, pending), id) == s.ledger
  {
    LedgerSound(s, session);
    NothingOf(s, session, id);
    hide M.Inv, L.Inv, L.Lists, L.CancelCalls, L.NoCallsOf, FramesOf, WellFormed;
    L.CancelFindsNothing(s.ledger, session, id, pending);
    M.Formed(s.ledger, session);
    NoLaneToRemove(s.ledger.host.q, id);
  }

  lemma NothingOf(s: M.System, session: Bytes, id: Id)
    requires M.Inv(s, session) && id in s.objects && (M.Terminal(s.objects[id].status) || s.objects[id].status.Loaded?)
    ensures L.NoCallsOf(s.ledger, id) && FramesOf(s.ledger.host.q, id) == []
  {
    hide L.Inv;
    if M.Terminal(s.objects[id].status) {
      EndedAt(s, session, id);
    }
    M.NothingHosted(s, id);
  }

  lemma NoLaneToRemove(q: Queues, id: Id)
    requires WellFormed(q) && FramesOf(q, id) == []
    ensures OutboxModel.RemoveObject(q, id) == q
  {
    hide Total, Size, LanesApart;
  }

  // ----- Runs -----

  ghost predicate Steps(s: State, t: State, session: Bytes) {
    exists step :: Enabled(s, step) && t == Apply(s, session, step)
  }

  ghost function Moves(session: Bytes): (State, State) -> bool {
    (s: State, t: State) => Steps(s, t, session)
  }

  ghost predicate IsRun(run: seq<State>, session: Bytes) {
    Runs.IsRun(run, START, Moves(session))
  }

  lemma RunSound(run: seq<State>, session: Bytes)
    requires IsRun(run, session)
    ensures forall i :: 0 <= i < |run| ==> Sound(run[i], session)
  {
    O.StartSound(session);
    hide O.Sound;
    assert Sound(START, session);
    hide Sound, Apply, Enabled;
    forall s, t | Sound(s, session) && Moves(session)(s, t) ensures Sound(t, session) {
      var step :| Enabled(s, step) && t == Apply(s, session, step);
      StepKeeps(s, session, step);
    }
    Runs.Invariant(run, START, Moves(session), s => Sound(s, session));
  }

  /**
    When the shutdown has stopped the last object, every object has ended, and nothing is
    left of any of them: no call, no pending entry, no object output.
   */
  lemma ShutdownLeavesNothing(run: seq<State>, session: Bytes, i: nat)
    requires IsRun(run, session) && i < |run|
    requires run[i].plan.Cleared? || (run[i].plan.Stopping? && run[i].plan.todo == [])
    ensures forall id :: id in run[i].loaded.system.objects ==> M.Terminal(run[i].loaded.system.objects[id].status)
    ensures run[i].loaded.system.ledger.calls == map[] && run[i].loaded.system.ledger.host.pending == map[]
    ensures run[i].loaded.system.ledger.host.q.lanes == []
    ensures run[i].plan.Cleared? ==> run[i].loaded.listed == {}
  {
    RunSound(run, session);
    hide IsRun, M.Terminal, O.Sound;
    AllEnded(run[i], session);
    SystemSound(run[i].loaded, session);
    NothingLeft(run[i].loaded.system, session);
  }

  lemma NothingLeft(s: M.System, session: Bytes)
    requires M.Inv(s, session)
    requires forall id :: id in s.objects ==> M.Terminal(s.objects[id].status)
    ensures s.ledger.calls == map[] && s.ledger.host.pending == map[] && s.ledger.host.q.lanes == []
  {
    forall o ensures !M.HasGuest(s, o) {
      if o in s.objects {
        EndedAt(s, session, o);
      }
    }
    LedgerSound(s, session);
    hide M.Inv, M.HasGuest, L.Issued, FramesOf, WellFormed, L.CancelsSound, L.QueuesBacked, L.WireOrdered, L.NoCalls, L.Counted;
    NoLanes(s.ledger.host.q);
  }

  lemma EndedAt(s: M.System, session: Bytes, id: Id)
    requires M.Inv(s, session) && id in s.objects && M.Terminal(s.objects[id].status)
    ensures !M.HasGuest(s, id)
  {
    hide L.Inv, M.Hosted, M.ObjectSound;
    M.NoGuestLeft(s.objects[id]);
  }

  lemma NoLanes(q: Queues)
    requires WellFormed(q) && forall o :: FramesOf(q, o) == []
    ensures q.lanes == []
  {
    hide Total, Size, LanesApart, FramesOf;
    if q.lanes != [] {
      HeadFrames(q);
    }
  }

  lemma HeadFrames(q: Queues)
    requires q.lanes != []
    ensures FramesOf(q, q.lanes[0].owner) == q.lanes[0].frames
  {
  }

  lemma LedgerSound(s: M.System, session: Bytes)
    requires M.Inv(s, session)
    ensures L.Inv(s.ledger, session) && M.Hosted(s)
  {
  }
}
