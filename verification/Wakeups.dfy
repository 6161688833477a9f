/**
  Blocking on the outbox (src/outbox.rs:62-82, 135-152, 186-216): producers wait on the
  `space` notifier, the single writer on `changed`. One step is one stretch of code
  between awaits. Tokio's `Notify` keeps at most one permit for `notify_one`, hands
  it to a parked waiter if there is one, and `notify_waiters` wakes all parked waiters
  and stores nothing.
 */
module Wakeups {
  import opened Prelude
  import opened OutboxModel
  import Runs
  import Conservation

  datatype Want = ToControl(frame: Frame) | ToLane(owner: Id, frame: Frame)

  /** A call of `control` or `data`; parked means no notification is pending for it. */
  datatype Producer = Producer(want: Want, parked: bool)

  /** Writing covers the time outside `next`; Woken is parked with a notification. */
  datatype Writer = Writing | Parked | Woken | Gone

  datatype State = State(q: Queues, permit: bool, writer: Writer, producers: map<nat, Producer>)

  datatype Step =
    | Arrive(pid: nat, want: Want)
    | Attempt(pid: nat)
    | Abandon(pid: nat)
    | TryPush(want: Want)
    | RemoveRequest(owner: Id, id: Id)
    | RemoveObject(owner: Id)
    | Close
    | WriterNext
    | WriterGivesUp
    | WriterFails

  predicate Accepts(q: Queues, want: Want) {
    match want
    case ToControl(_) => ControlFits(q)
    case ToLane(o, f) => Fits(q, o, |f.bytes|)
  }

  function Push(q: Queues, want: Want): Queues {
    match want
    case ToControl(f) => PushControl(q, f)
    case ToLane(o, f) => PushData(q, o, f)
  }

  /** `data` refuses at once a frame no object could ever queue. */
  predicate Admissible(want: Want) {
    want.ToLane? ==> |want.frame.bytes| <= OBJECT_BYTES
  }

  /** `changed.notify_one()` */
  function NotifyWriter(s: State): State {
    if s.writer == Parked then s.(writer := Woken) else s.(permit := true)
  }

  /** `space.notify_waiters()` */
  function NotifyProducers(s: State): State {
    s.(producers := map pid | pid in s.producers :: Producer(s.producers[pid].want, false))
  }

  function Drop(s: State, pid: nat): State {
    s.(producers := s.producers - {pid})
  }

  predicate Enabled(s: State, step: Step) {
    match step
    case Arrive(pid, want) => pid !in s.producers && Admissible(want)
    case Attempt(pid) => pid in s.producers && (!s.producers[pid].parked || s.q.closed)
    case Abandon(pid) => pid in s.producers
    case WriterNext => s.writer == Writing || s.writer == Woken
    case WriterGivesUp => s.q.closed && (s.writer == Parked || s.writer == Woken)
    case WriterFails => s.writer == Writing
    case _ => true
  }

  function Apply(s: State, step: Step): State
    requires Enabled(s, step)
  {
    match step
    case Arrive(pid, want) => s.(producers := s.producers[pid := Producer(want, false)])
    case Attempt(pid) =>
      var want := s.producers[pid].want;
      if s.q.closed then Drop(s, pid)
      else if Accepts(s.q, want) then NotifyWriter(Drop(s.(q := Push(s.q, want)), pid))
      else s.(producers := s.producers[pid := Producer(want, true)])
    case Abandon(pid) => Drop(s, pid)
    case TryPush(want) =>
      if Accepts(s.q, want) then NotifyWriter(s.(q := Push(s.q, want))) else s
    case RemoveRequest(o, id) =>
      if Ready(s.q, o) then NotifyProducers(s.(q := OutboxModel.RemoveRequest(s.q, o, id))) else s
    case RemoveObject(o) => NotifyProducers(s.(q := OutboxModel.RemoveObject(s.q, o)))
    case Close => s.(q := OutboxModel.Close(s.q))
    case WriterNext =>
      if Output(s.q).Some? then NotifyProducers(s.(q := AfterNext(s.q), writer := Writing))
      else if s.q.closed then s.(writer := Gone)
      else s.(writer := Parked, permit := false) // a stored permit only makes the loop look once more
    case WriterGivesUp => s.(writer := Gone)
    case WriterFails => s.(writer := Gone, q := OutboxModel.Close(s.q))
  }

  const START := State(EMPTY, false, Writing, map[])

  /** A run: each state follows from the one before by an enabled step. */
  ghost predicate IsRun(run: seq<State>) {
    Runs.IsRun(run, START, Steps)
  }

  ghost predicate Steps(s: State, t: State) {
    exists step :: Enabled(s, step) && t == Apply(s, step)
  }

  /** What a step does to the queues, as operations of the outbox. */
  function OpsOf(s: State, step: Step): seq<Op>
    requires Enabled(s, step)
  {
    match step
    case Attempt(pid) => if s.q.closed then [] else [AsOp(s.producers[pid].want)]
    case TryPush(want) => [AsOp(want)]
    case RemoveRequest(o, id) => [DropRequest(o, id)]
    case RemoveObject(o) => [DropObject(o)]
    case Close => [CloseAll]
    case WriterFails => [CloseAll]
    case WriterNext => [Next]
    case _ => []
  }

  function AsOp(want: Want): Op {
    match want
    case ToControl(f) => AddControl(f)
    case ToLane(o, f) => AddData(o, f)
  }

  /**
    Every step is the outbox's own operations, so what is proved of them holds here. A
    producer is done exactly when its frame was taken or the outbox is closed.
   */
  lemma StepIsOps(s: State, step: Step)
    requires Enabled(s, step)
    ensures Apply(s, step).q == Run(s.q, OpsOf(s, step))
    ensures step.Attempt? ==>
      (step.pid !in Apply(s, step).producers <==> s.q.closed || Accepts(s.q, s.producers[step.pid].want))
  {
    hide Accepts, ControlFits, Fits, OutboxModel.RemoveRequest, OutboxModel.RemoveObject, AfterNext, Output, PushData, PushControl;
    if OpsOf(s, step) != [] {
      RunOne(s.q, OpsOf(s, step)[0]);
    }
    match step
    case Attempt(pid) => RefusedAlone(s.q, s.producers[pid].want);
    case TryPush(want) => RefusedAlone(s.q, want);
    case RemoveRequest(o, id) => AbsentAlone(s.q, o, id);
    case WriterNext => IdleAlone(s.q);
    case _ =>
  }

  lemma RunOne(q: Queues, op: Op)
    ensures Run(q, [op]) == OutboxModel.Apply(q, op)
  {
    hide OutboxModel.Apply;
    assert Run(OutboxModel.Apply(q, op), []) == OutboxModel.Apply(q, op);
  }

  lemma RefusedAlone(q: Queues, want: Want)
    ensures Push(q, want) == OutboxModel.Apply(q, AsOp(want))
    ensures !Accepts(q, want) ==> Push(q, want) == q
  {
  }

  lemma AbsentAlone(q: Queues, owner: Id, id: Id)
    ensures !Ready(q, owner) ==> OutboxModel.RemoveRequest(q, owner, id) == q
  {
  }

  lemma IdleAlone(q: Queues)
    ensures Output(q).None? ==> AfterNext(q) == q
  {
  }

  /** Whoever sleeps without a pending notification has nothing to do. */
  ghost predicate NoLostWakeup(s: State) {
    && (forall pid :: pid in s.producers && s.producers[pid].parked ==> !Accepts(s.q, s.producers[pid].want))
    && (s.writer == Parked ==> s.q.control == [] && s.q.lanes == [] && !s.permit)
  }

  ghost predicate Inv(s: State) {
    && WellFormed(s.q)
    && NoLostWakeup(s)
    && forall pid :: pid in s.producers ==> Admissible(s.producers[pid].want)
  }

  /** Pushing never makes room. */
  lemma PushMakesNoRoom(q: Queues, pushed: Want, want: Want)
    requires WellFormed(q) && !Accepts(q, want)
    ensures !Accepts(Push(q, pushed), want) && WellFormed(Push(q, pushed))
  {
    if pushed.ToLane? {
      PushDataKeeps(q, pushed.owner, pushed.frame);
      if want.ToLane? {
        Conservation.FramesAfterPush(q, pushed.owner, pushed.frame, want.owner);
        SizeAppend(FramesOf(q, want.owner), [pushed.frame]);
      }
    }
  }

  lemma PushKeeps(q: Queues, pushed: Want)
    requires WellFormed(q)
    ensures WellFormed(Push(q, pushed))
  {
    if pushed.ToLane? {
      PushDataKeeps(q, pushed.owner, pushed.frame);
    }
  }

  lemma StepKeeps(s: State, step: Step)
    requires Inv(s) && Enabled(s, step)
    ensures Inv(Apply(s, step))
  {
    match step
    case Attempt(pid) => PushStepKeeps(s, s.producers[pid].want);
    case TryPush(want) => PushStepKeeps(s, want);
    case RemoveRequest(o, id) => RemoveRequestKeeps(s.q, o, id);
    case RemoveObject(o) => RemoveObjectKeeps(s.q, o);
    case WriterNext => NextKeeps(s.q);
    case _ =>
  }

  lemma PushStepKeeps(s: State, want: Want)
    requires Inv(s)
    ensures WellFormed(Push(s.q, want))
    ensures forall pid :: pid in s.producers && s.producers[pid].parked ==>
      !Accepts(Push(s.q, want), s.producers[pid].want)
  {
    PushKeeps(s.q, want);
    forall pid | pid in s.producers && s.producers[pid].parked
      ensures !Accepts(Push(s.q, want), s.producers[pid].want)
    {
      PushMakesNoRoom(s.q, want, s.producers[pid].want);
    }
  }

  /** No wakeup is lost in any reachable state. */
  lemma NoneLost(run: seq<State>)
    requires IsRun(run)
    ensures forall i :: 0 <= i < |run| ==> Inv(run[i])
  {
    assert Inv(START);
    hide Inv, Apply, Enabled;
    forall s, t | Inv(s) && Steps(s, t) ensures Inv(t) {
      var step :| Enabled(s, step) && t == Apply(s, step);
      StepKeeps(s, step);
    }
    Runs.Invariant(run, START, Steps, Inv);
  }

  /**
    No deadlock: while some producer sleeps, the writer is awake, unless it has gone
    or the session is closing, and then the producer is awake too.
   */
  lemma SleepersHaveAWriter(run: seq<State>, i: nat, pid: nat)
    requires IsRun(run) && i < |run|
    requires pid in run[i].producers && run[i].producers[pid].parked
    ensures run[i].writer != Parked || run[i].q.closed
    ensures run[i].q.closed ==> Enabled(run[i], Attempt(pid))
    ensures !run[i].q.closed && run[i].writer != Gone ==>
      Enabled(run[i], WriterNext) && Output(run[i].q).Some?
  {
    NoneLost(run);
    var s := run[i];
    NextKeeps(s.q);
  }

  // ----- Closing -----

  predicate Empty(q: Queues) {
    q.control == [] && q.lanes == []
  }

  /**
    When the writer ends, frames stay behind exactly if there are any and it either
    failed to write or gave up with a notification still pending.
   */
  lemma ExitLosesExactly(run: seq<State>, i: nat, step: Step)
    requires IsRun(run) && i < |run| && Enabled(run[i], step)
    requires run[i].writer != Gone && Apply(run[i], step).writer == Gone
    ensures !Empty(Apply(run[i], step).q) <==>
      !Empty(run[i].q) && (step.WriterFails? || (step.WriterGivesUp? && run[i].writer == Woken))
  {
    NoneLost(run);
    NextKeeps(run[i].q);
  }

  /** Such a race happens: closing lands between a push and the writer's next poll. */
  lemma RacingExitLosesAFrame()
    ensures exists run: seq<State> ::
      IsRun(run) && run[|run| - 1].writer == Gone && !Empty(run[|run| - 1].q)
  {
    var frame := Frame([NEWLINE], Other);
    var parked := Apply(START, WriterNext);
    var pushed := Apply(parked, TryPush(ToControl(frame)));
    var closing := Apply(pushed, Close);
    var gone := Apply(closing, WriterGivesUp);
    var run := [START, parked, pushed, closing, gone];
    assert Steps(START, parked) && Steps(parked, pushed) && Steps(pushed, closing) && Steps(closing, gone);
    assert IsRun(run);
  }
}
