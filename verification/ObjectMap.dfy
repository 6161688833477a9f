/**
  The map of loaded objects (src/runtime.rs:210-274, 340-355) around the system of
  objects: serials reserved before a load and inserted after it, lookups by ID, and
  removal by the stop that unloads. Objects taken out of the map live on in the system
  for as long as someone still holds them.
 */
module ObjectMap {
  import opened Prelude
  import opened OutboxModel
  import Json
  import Mailboxes
  import Runs
  import HostLedger
  import M = Lifecycle

  /** `listed` are the keys of the map, `loading` the serials whose load is under way. */
  datatype State = State(system: M.System, listed: set<Id>, serial: nat, loading: set<nat>)

  const START := State(M.START, {}, 0, {})

  function ObjectId(serial: nat): Id {
    Ascii("o") + Json.Digits(serial)
  }

  datatype Step =
    | Reserve
    | Insert(serial: nat)
    | Reject(serial: nat)
    | Inside(step: M.Step, unload: bool)

  /** The object a request names, if the step begins with a lookup. */
  function LooksUp(step: M.Step): Option<Id> {
    match step
    case Start(id) => Some(id)
    case DeliverEvent(id, _) => Some(id)
    case SetCancel(id) => Some(id)
    case Stop(id, _, _) => Some(id)
    case _ => None
  }

  ghost predicate Enabled(s: State, step: Step) {
    match step
    case Reserve => s.serial < U64_MAX
    case Insert(n) => n in s.loading
    case Reject(n) => n in s.loading
    case Inside(inner, _) =>
      && !inner.Load? && M.Enabled(s.system, inner)
      && (LooksUp(inner).Some? ==> LooksUp(inner).value in s.listed)
  }

  /** A call of stop that returned in this step. */
  predicate Returned(after: M.System, step: M.Step) {
    (step.Stop? || step.ResumeStop?) && step.id in after.objects && step.pid !in after.objects[step.id].stoppers
  }

  ghost function Apply(s: State, session: Bytes, step: Step): State
    requires Enabled(s, step)
  {
    match step
    case Reserve => s.(serial := s.serial + 1, loading := s.loading + {s.serial + 1})
    case Insert(n) =>
      s.(system := s.system.(objects := s.system.objects[ObjectId(n) := M.NEW]),
         listed := s.listed + {ObjectId(n)}, loading := s.loading - {n})
    case Reject(n) => s.(loading := s.loading - {n})
    case Inside(inner, unload) =>
      var after := M.Apply(s.system, session, inner);
      s.(system := after, listed := if unload && Returned(after, inner) then s.listed - {inner.id} else s.listed)
  }

  // ----- What every state keeps -----

  ghost predicate Used(id: Id, serial: nat, loading: set<nat>) {
    exists k: nat :: 1 <= k <= serial && k !in loading && id == ObjectId(k)
  }

  ghost predicate IdsSound(objects: map<Id, M.Object>, listed: set<Id>, serial: nat, loading: set<nat>) {
    && (forall n :: n in loading ==> 1 <= n <= serial)
    && (forall id :: id in objects ==> Used(id, serial, loading))
    && (forall id :: id in listed ==> id in objects)
  }

  /** Whatever left the map had ended before. */
  ghost predicate UnlistedEnded(s: State) {
    forall id :: id in s.system.objects && id !in s.listed ==> M.Terminal(s.system.objects[id].status)
  }

  ghost predicate Sound(s: State, session: Bytes) {
    && M.Inv(s.system, session)
    && IdsSound(s.system.objects, s.listed, s.serial, s.loading)
    && UnlistedEnded(s)
  }

  lemma ObjectIdsDiffer(m: nat, n: nat)
    requires ObjectId(m) == ObjectId(n)
    ensures m == n
  {
    assert ObjectId(m)[1..] == Json.Digits(m) && ObjectId(n)[1..] == Json.Digits(n);
    Json.DigitsInjective(m, n);
  }

  /** An object is never inserted over another: its ID was never used before. */
  lemma InsertIsFresh(s: State, session: Bytes, n: nat)
    requires Sound(s, session) && n in s.loading
    ensures ObjectId(n) !in s.system.objects && ObjectId(n) !in s.listed
  {
    hide M.Inv, ObjectId, UnlistedEnded;
    if ObjectId(n) in s.system.objects {
      var k: nat :| 1 <= k <= s.serial && k !in s.loading && ObjectId(n) == ObjectId(k);
      ObjectIdsDiffer(n, k);
      assert false;
    }
  }

  /** To the system of objects, every step is one of its own steps, or none. */
  lemma StepRefines(s: State, session: Bytes, step: Step)
    requires Sound(s, session) && Enabled(s, step)
    ensures var after := Apply(s, session, step).system;
      match step
      case Insert(n) => M.Enabled(s.system, M.Load(ObjectId(n))) && after == M.Apply(s.system, session, M.Load(ObjectId(n)))
      case Inside(inner, _) => after == M.Apply(s.system, session, inner)
      case _ => after == s.system
  {
    if step.Insert? {
      InsertIsFresh(s, session, step.serial);
    }
    hide M.Inv, ObjectId, Sound;
  }

  lemma KeysKept(s: M.System, session: Bytes, step: M.Step)
    requires M.Enabled(s, step) && !step.Load?
    ensures M.Apply(s, session, step).objects.Keys == s.objects.Keys
  {
    hide M.EndAll, HostLedger.CancelCalls, M.RemoveLane, M.Announce, HostLedger.Lists, M.ListsCalls, M.WakeStoppers;
  }

  /** Only a stop of an ended object returns. */
  lemma ReturnedHasEnded(s: M.System, session: Bytes, step: M.Step)
    requires M.Inv(s, session) && M.Enabled(s, step) && Returned(M.Apply(s, session, step), step)
    ensures var after := M.Apply(s, session, step); step.id in after.objects && M.Terminal(after.objects[step.id].status)
  {
    hide HostLedger.Inv, M.Hosted, HostLedger.Lists, HostLedger.CancelCalls, M.RemoveLane, Mailboxes.Kept;
    assert M.ObjectSound(s.objects[step.id]);
    if step.ResumeStop? {
      M.RunnableIsTerminal(s.objects[step.id], step.pid);
    }
  }

  lemma StepKeeps(s: State, session: Bytes, step: Step)
    requires Sound(s, session) && Enabled(s, step)
    ensures Sound(Apply(s, session, step), session)
  {
    hide M.Inv, ObjectId, IdsSound;
    match step
    case Reserve => ReservedIds(s.system.objects, s.listed, s.serial, s.loading);
    case Insert(n) => InsertKeeps(s, session, n);
    case Reject(n) => LoadedSerial(s.system.objects, s.listed, s.serial, s.loading, n);
    case Inside(inner, unload) => InsideKeeps(s, session, inner, unload);
  }

  lemma ReservedIds(objects: map<Id, M.Object>, listed: set<Id>, serial: nat, loading: set<nat>)
    requires IdsSound(objects, listed, serial, loading)
    ensures IdsSound(objects, listed, serial + 1, loading + {serial + 1})
  {
    hide ObjectId;
    forall id | id in objects ensures Used(id, serial + 1, loading + {serial + 1}) {
      var k: nat :| 1 <= k <= serial && k !in loading && id == ObjectId(k);
    }
  }

  lemma LoadedSerial(objects: map<Id, M.Object>, listed: set<Id>, serial: nat, loading: set<nat>, n: nat)
    requires IdsSound(objects, listed, serial, loading) && n in loading
    ensures IdsSound(objects, listed, serial, loading - {n}) && Used(ObjectId(n), serial, loading - {n})
  {
    hide ObjectId;
    forall id | id in objects ensures Used(id, serial, loading - {n}) {
      var k: nat :| 1 <= k <= serial && k !in loading && id == ObjectId(k);
    }
  }

  lemma InsertedIds(objects: map<Id, M.Object>, listed: set<Id>, serial: nat, loading: set<nat>, n: nat)
    requires IdsSound(objects, listed, serial, loading) && n in loading
    ensures IdsSound(objects[ObjectId(n) := M.NEW], listed + {ObjectId(n)}, serial, loading - {n})
  {
    hide ObjectId, Used;
    LoadedSerial(objects, listed, serial, loading, n);
  }

  lemma InsertKeeps(s: State, session: Bytes, n: nat)
    requires Sound(s, session) && n in s.loading
    ensures Sound(Apply(s, session, Insert(n)), session)
  {
    StepRefines(s, session, Insert(n));
    hide M.Inv, ObjectId, M.Apply, M.Enabled, IdsSound, M.Terminal;
    M.StepKeeps(s.system, session, M.Load(ObjectId(n)));
    InsertedIds(s.system.objects, s.listed, s.serial, s.loading, n);
  }

  /** The system moves on under the map: no object goes, and what had ended stays ended. */
  lemma SystemKeeps(s: State, session: Bytes, inner: M.Step)
    requires Sound(s, session) && M.Enabled(s.system, inner) && !inner.Load?
    ensures Sound(s.(system := M.Apply(s.system, session, inner)), session)
    ensures M.Apply(s.system, session, inner).objects.Keys == s.system.objects.Keys
    ensures forall id :: id in s.system.objects && M.Terminal(s.system.objects[id].status) ==>
      M.Terminal(M.Apply(s.system, session, inner).objects[id].status)
  {
    hide M.Inv, M.Enabled, M.Apply, ObjectId, Used, M.LiveTask;
    var after := M.Apply(s.system, session, inner);
    M.StepKeeps(s.system, session, inner);
    KeysKept(s.system, session, inner);
    forall id | id in s.system.objects && M.Terminal(s.system.objects[id].status)
      ensures M.Terminal(after.objects[id].status)
    {
      M.StepFollows(s.system, session, inner, id);
    }
  }

  lemma InsideKeeps(s: State, session: Bytes, inner: M.Step, unload: bool)
    requires Sound(s, session) && Enabled(s, Inside(inner, unload))
    ensures Sound(Apply(s, session, Inside(inner, unload)), session)
  {
    hide M.Inv, M.Enabled, M.Apply, ObjectId, Used, M.LiveTask;
    var after := M.Apply(s.system, session, inner);
    SystemKeeps(s, session, inner);
    if Returned(after, inner) {
      ReturnedHasEnded(s.system, session, inner);
    }
  }

  // ----- What an unload does -----

  /** An unload whose stop returns takes its object out of the map, and no other. */
  lemma UnloadUnlists(s: State, session: Bytes, inner: M.Step)
    requires Enabled(s, Inside(inner, true)) && (inner.Stop? || inner.ResumeStop?)
    requires var after := M.Apply(s.system, session, inner);
      inner.id in after.objects && inner.pid !in after.objects[inner.id].stoppers
    ensures Unlisted(Apply(s, session, Inside(inner, true)), inner.id)
    ensures forall id :: id != inner.id ==> (id in Apply(s, session, Inside(inner, true)).listed <==> id in s.listed)
  {
    hide M.Enabled, M.Apply;
  }

  /** Nothing else does: a plain stop, an unload still waiting, and every other step leave the map alone but for a load. */
  lemma OthersStayListed(s: State, session: Bytes, step: Step, id: Id)
    requires Enabled(s, step) && !(step.Inside? && step.unload && (step.step.Stop? || step.step.ResumeStop?) && step.step.id == id)
    ensures id in Apply(s, session, step).listed <==> id in s.listed || (step.Insert? && id == ObjectId(step.serial))
  {
    hide M.Enabled, M.Apply, ObjectId;
  }

  lemma WaitingStaysListed(s: State, session: Bytes, inner: M.Step)
    requires Enabled(s, Inside(inner, true)) && (inner.Stop? || inner.ResumeStop?)
    requires var after := M.Apply(s.system, session, inner);
      inner.id in after.objects && inner.pid in after.objects[inner.id].stoppers
    ensures Apply(s, session, Inside(inner, true)).listed == s.listed
  {
    hide M.Enabled, M.Apply;
  }

  // ----- Runs -----

  ghost predicate Steps(s: State, t: State, session: Bytes) {
    exists step :: Enabled(s, step) && t == Apply(s, session, step)
  }

  ghost function Moves(session: Bytes): (State, State) -> bool {
    (s: State, t: State) => Steps(s, t, session)
  }

  ghost predicate IsRun(run: seq<State>, session: Bytes) {
    Runs.IsRun(run, START, Moves(session))
  }

  lemma StartSound(session: Bytes)
    ensures Sound(START, session)
  {
    M.StartSound(session);
  }

  lemma RunSound(run: seq<State>, session: Bytes)
    requires IsRun(run, session)
    ensures forall i :: 0 <= i < |run| ==> Sound(run[i], session)
  {
    StartSound(session);
    hide Sound, Apply, Enabled;
    forall s, t | Sound(s, session) && Moves(session)(s, t) ensures Sound(t, session) {
      var step :| Enabled(s, step) && t == Apply(s, session, step);
      StepKeeps(s, session, step);
    }
    Runs.Invariant(run, START, Moves(session), s => Sound(s, session));
  }

  /** Loaded once, and taken out of the map since. */
  ghost predicate Unlisted(s: State, id: Id) {
    id in s.system.objects && id !in s.listed
  }

  lemma StepStaysUnlisted(s: State, session: Bytes, step: Step, id: Id)
    requires Sound(s, session) && Enabled(s, step) && Unlisted(s, id)
    ensures Unlisted(Apply(s, session, step), id)
  {
    hide Sound, M.Enabled, M.Apply, ObjectId, Returned, LooksUp;
    match step
    case Insert(n) => InsertIsFresh(s, session, n);
    case Inside(inner, _) => KeysKept(s.system, session, inner);
    case _ =>
  }

  lemma UnlistedAt(run: seq<State>, session: Bytes, k: nat, id: Id)
    requires IsRun(run, session) && k + 1 < |run| && Unlisted(run[k], id)
    ensures Unlisted(run[k + 1], id)
  {
    RunSound(run, session);
    hide Sound, Apply, Enabled, Unlisted;
    assert Steps(run[k], run[k + 1], session);
    var step :| Enabled(run[k], step) && run[k + 1] == Apply(run[k], session, step);
    StepStaysUnlisted(run[k], session, step, id);
  }

  lemma UnlistedStays(run: seq<State>, session: Bytes, i: nat, j: nat, id: Id)
    requires IsRun(run, session) && i <= j < |run| && Unlisted(run[i], id)
    ensures Unlisted(run[j], id)
  {
    hide IsRun, Unlisted;
    forall k | i <= k < j && Unlisted(run[k], id) ensures Unlisted(run[k + 1], id) {
      UnlistedAt(run, session, k, id);
    }
    Runs.Onward(run, s => Unlisted(s, id), i, j);
  }

  lemma NothingLeft(s: State, session: Bytes, id: Id)
    requires Sound(s, session) && Unlisted(s, id)
    ensures M.Terminal(s.system.objects[id].status)
    ensures M.Absent(s.system.ledger, id) && s.system.objects[id].mailbox == Mailboxes.FRESH
    ensures forall call :: call in s.system.ledger.host.pending ==> s.system.ledger.host.pending[call] != id
  {
    hide M.Inv, M.Absent, IdsSound;
    M.NoResidue(s.system, session, id);
  }

  /**
    An unloaded object never comes back under its ID, and from then on nothing of it is
    left: it has ended, and no call, queued frame, pending entry or event of it remains.
   */
  lemma UnloadedIsGone(run: seq<State>, session: Bytes, i: nat, j: nat, id: Id)
    requires IsRun(run, session) && i <= j < |run| && Unlisted(run[i], id)
    ensures Unlisted(run[j], id) && M.Terminal(run[j].system.objects[id].status)
    ensures M.Absent(run[j].system.ledger, id) && run[j].system.objects[id].mailbox == Mailboxes.FRESH
    ensures forall call :: call in run[j].system.ledger.host.pending ==> run[j].system.ledger.host.pending[call] != id
  {
    RunSound(run, session);
    hide IsRun, Sound, M.Absent;
    UnlistedStays(run, session, i, j, id);
    NothingLeft(run[j], session, id);
  }

  /** From the step on in which an unload returns, its object is not found again and nothing of it remains. */
  lemma UnloadForgets(run: seq<State>, session: Bytes, i: nat, j: nat, inner: M.Step)
    requires IsRun(run, session) && i < j < |run| && Enabled(run[i], Inside(inner, true))
    requires run[i + 1] == Apply(run[i], session, Inside(inner, true)) && (inner.Stop? || inner.ResumeStop?)
    requires inner.id in run[i + 1].system.objects && inner.pid !in run[i + 1].system.objects[inner.id].stoppers
    ensures Unlisted(run[j], inner.id) && M.Absent(run[j].system.ledger, inner.id)
  {
    MovedSystem(run[i], session, inner);
    hide IsRun, M.Absent, M.Enabled, M.Apply, Apply, Unlisted;
    UnloadUnlists(run[i], session, inner);
    UnloadedIsGone(run, session, i + 1, j, inner.id);
  }

  lemma MovedSystem(s: State, session: Bytes, inner: M.Step)
    requires Enabled(s, Inside(inner, true))
    ensures Apply(s, session, Inside(inner, true)).system == M.Apply(s.system, session, inner)
  {
    hide M.Enabled, M.Apply, Returned;
  }
}
