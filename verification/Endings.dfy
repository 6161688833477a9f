/**
  What an object's state says about its past (src/runtime.rs:147-182, 275-339): each state
  is entered in one way only, and each way leads to one state.
 */
module Endings {
  import opened Prelude
  import opened Lifecycle
  import Json
  import OutboxModel
  import Mailboxes
  import L = HostLedger
  import Runs

  /** The guest returned or faulted in a poll that found no cancel. */
  predicate Ran(s: System, step: Step, id: Bytes, poll: Poll)
    requires id in s.objects
  {
    step.PollTask? && step.id == id && step.poll == poll && !s.objects[id].cancel
  }

  predicate CancelledPoll(s: System, step: Step, id: Bytes)
    requires id in s.objects
  {
    step.PollTask? && step.id == id && s.objects[id].cancel
  }

  predicate Stops(step: Step, id: Bytes) {
    step.Stop? && step.id == id
  }

  predicate Starts(step: Step, id: Bytes) {
    step.Start? && step.id == id
  }

  /** The state of an object after a step, told from the step alone. */
  function Told(s: System, step: Step, id: Bytes): Status
    requires id in s.objects
  {
    var status := s.objects[id].status;
    if status == Stopped || status == Exited || status == Failed then status
    else if Ran(s, step, id, Returns) then Exited
    else if Ran(s, step, id, Faults) then Failed
    else if CancelledPoll(s, step, id) then Stopped
    else if Stops(step, id) then (if status == Loaded then Stopped else Stopping)
    else if Starts(step, id) then (if status == Loaded then Starting else status)
    else if Ran(s, step, id, Pending) then Running
    else status
  }

  /** Every step, with any effect it may have on any object's state. */
  lemma StepTells(s: System, session: Bytes, step: Step, id: Bytes)
    requires Inv(s, session) && Enabled(s, step) && id in s.objects
    ensures var t := Apply(s, session, step); id in t.objects && t.objects[id].status == Told(s, step, id)
  {
    hide Inv, Apply, Enabled, Told;
    if LedgerOnly(step) {
      ObjectsAlone(s, session, step);
      LedgerTells(s, step, id);
    } else if step.Stop? || step.ResumeStop? {
      StopTells(s, session, step, id);
    } else if step.PollTask? {
      PollTells(s, session, step, id);
    } else {
      RecordTells(s, session, step, id);
    }
  }

  lemma LedgerTells(s: System, step: Step, id: Bytes)
    requires id in s.objects && LedgerOnly(step)
    ensures Told(s, step, id) == s.objects[id].status
  {
  }

  lemma StopTells(s: System, session: Bytes, step: Step, id: Bytes)
    requires Inv(s, session) && (step.Stop? || step.ResumeStop?) && Enabled(s, step) && id in s.objects
    ensures var t := Apply(s, session, step); id in t.objects && t.objects[id].status == Told(s, step, id)
  {
    hide L.Inv, Hosted, L.Lists, ObjectSound, StopObject, Resume;
    assert ObjectSound(s.objects[step.id]);
    if step.Stop? {
      StopObjectTells(s, step.id, step.pid, step.pending, id);
    } else {
      RunnableIsTerminal(s.objects[step.id], step.pid);
      ResumeTells(s, step.id, step.pid, step.pending, id);
    }
  }

  lemma StopObjectTells(s: System, stopped: Bytes, pid: nat, pending: seq<Bytes>, id: Bytes)
    requires stopped in s.objects && id in s.objects
    ensures var t := StopObject(s, stopped, pid, pending);
      id in t.objects && t.objects[id].status == Told(s, Stop(stopped, pid, pending), id)
  {
    hide RemoveLane, L.CancelCalls;
  }

  lemma ResumeTells(s: System, stopped: Bytes, pid: nat, pending: seq<Bytes>, id: Bytes)
    requires stopped in s.objects && id in s.objects
    requires pid in s.objects[stopped].stoppers && Terminal(s.objects[stopped].status)
    ensures var t := Resume(s, stopped, pid, pending);
      id in t.objects && t.objects[id].status == s.objects[id].status
  {
    hide RemoveLane, L.CancelCalls;
  }

  lemma PollTells(s: System, session: Bytes, step: Step, id: Bytes)
    requires Inv(s, session) && step.PollTask? && Enabled(s, step) && id in s.objects
    ensures var t := Apply(s, session, step); id in t.objects && t.objects[id].status == Told(s, step, id)
  {
    hide L.Inv, Hosted, L.Lists, ListsCalls, EndAll, Mailboxes.Kept, RemoveLane, L.CancelCalls, Announce, WakeStoppers;
    assert ObjectSound(s.objects[step.id]);
    hide StopperSound;
  }

  lemma RecordTells(s: System, session: Bytes, step: Step, id: Bytes)
    requires Inv(s, session) && Enabled(s, step) && id in s.objects
    requires step.Load? || step.Start? || step.SetCancel? || step.DropStop? || step.GuestReceive? || step.DeliverEvent?
    ensures var t := Apply(s, session, step); id in t.objects && t.objects[id].status == Told(s, step, id)
  {
    hide L.Inv, Hosted, Mailboxes.Kept, StopperSound, Mailboxes.AfterDeliver, Mailboxes.AfterReceive;
    assert ObjectSound(s.objects[id]);
  }

  // ----- Over runs -----

  /** A step of the run that ended the object in this way. */
  ghost predicate EndedIn(s: System, t: System, session: Bytes, id: Bytes, end: Status) {
    exists step :: Enabled(s, step) && t == Apply(s, session, step) && id in s.objects && EndsAs(s, step, id, end)
  }

  /** The only ways to each final state. */
  predicate EndsAs(s: System, step: Step, id: Bytes, end: Status)
    requires id in s.objects
  {
    match end
    case Exited => step.PollTask? && step.id == id && step.poll == Returns && !s.objects[id].cancel
    case Failed => step.PollTask? && step.id == id && step.poll == Faults && !s.objects[id].cancel
    case Stopped =>
      || (step.PollTask? && step.id == id && s.objects[id].cancel)
      || (step.Stop? && step.id == id && s.objects[id].status == Loaded)
    case _ => false
  }

  /** A step ends an object in a state exactly if it is of the one kind that does. */
  lemma EndsExactly(s: System, session: Bytes, step: Step, id: Bytes, end: Status)
    requires Inv(s, session) && Enabled(s, step) && id in s.objects
    requires !Terminal(s.objects[id].status) && Terminal(end)
    ensures id in Apply(s, session, step).objects
    ensures Apply(s, session, step).objects[id].status == end <==> EndsAs(s, step, id, end)
  {
    hide Inv, Apply, Enabled, Told, EndsAs;
    StepTells(s, session, step, id);
    ToldEnd(s, step, id, end);
  }

  lemma ToldEnd(s: System, step: Step, id: Bytes, end: Status)
    requires id in s.objects && !Terminal(s.objects[id].status) && Terminal(end)
    ensures Told(s, step, id) == end <==> EndsAs(s, step, id, end)
  {
  }

  lemma FirstKnown(s: System, session: Bytes, step: Step, id: Bytes)
    requires Enabled(s, step) && id !in s.objects && id in Apply(s, session, step).objects
    ensures Apply(s, session, step).objects[id].status == Loaded
  {
    hide RemoveLane, L.CancelCalls, EndAll, Announce, WakeStoppers, L.BeginCall, L.PushCall, L.EndCall, L.LogFrame, L.Answered,
      L.EmitNext, Mailboxes.AfterDeliver, Mailboxes.AfterReceive, L.Lists, ListsCalls;
  }

  lemma LastStep(run: seq<System>, session: Bytes, k: nat, id: Bytes)
    requires IsRun(run, session) && k + 1 < |run| && id in run[k + 1].objects && Terminal(run[k + 1].objects[id].status)
    ensures id in run[k].objects
    ensures run[k].objects[id].status != run[k + 1].objects[id].status ==>
      EndedIn(run[k], run[k + 1], session, id, run[k + 1].objects[id].status)
  {
    RunSound(run, session);
    hide Inv, Apply, Enabled, EndsAs;
    assert Moves(session)(run[k], run[k + 1]);
    var step :| Enabled(run[k], step) && run[k + 1] == Apply(run[k], session, step);
    hide IsRun;
    if id !in run[k].objects {
      FirstKnown(run[k], session, step, id);
    } else {
      EndStep(run[k], session, step, id);
    }
  }

  lemma EndStep(s: System, session: Bytes, step: Step, id: Bytes)
    requires Inv(s, session) && Enabled(s, step) && id in s.objects
    ensures var t := Apply(s, session, step);
      && id in t.objects
      && (t.objects[id].status != s.objects[id].status && Terminal(t.objects[id].status) ==>
            EndedIn(s, t, session, id, t.objects[id].status))
  {
    hide Inv, Apply, Enabled, EndsAs;
    if Terminal(s.objects[id].status) {
      TerminalStays(s, session, step, id);
    } else {
      StepTells(s, session, step, id);
      if Terminal(Apply(s, session, step).objects[id].status) {
        EndsExactly(s, session, step, id, Apply(s, session, step).objects[id].status);
      }
    }
  }

  lemma TerminalStays(s: System, session: Bytes, step: Step, id: Bytes)
    requires Inv(s, session) && Enabled(s, step) && id in s.objects && Terminal(s.objects[id].status)
    ensures id in Apply(s, session, step).objects
    ensures Apply(s, session, step).objects[id].status == s.objects[id].status
  {
    hide Inv, Apply, Enabled;
    StepTells(s, session, step, id);
  }

  /**
    An object that is Exited ended in a poll in which its uncancelled guest returned, one
    that is Failed in a poll in which it faulted, one that is Stopped in a poll that found
    the cancel token set or in a stop of the object before it ever started.
   */
  lemma {:induction false} EndedBecause(run: seq<System>, session: Bytes, j: nat, id: Bytes)
    requires IsRun(run, session) && j < |run| && id in run[j].objects && Terminal(run[j].objects[id].status)
    ensures exists i :: 0 <= i < j && EndedIn(run[i], run[i + 1], session, id, run[j].objects[id].status)
    decreases j
  {
    FirstIsStart(run, session);
    hide IsRun, EndedIn, Terminal;
    LastStep(run, session, j - 1, id);
    if run[j - 1].objects[id].status == run[j].objects[id].status {
      EndedBecause(run, session, j - 1, id);
      var i :| 0 <= i < j - 1 && EndedIn(run[i], run[i + 1], session, id, run[j].objects[id].status);
    } else {
      assert EndedIn(run[j - 1], run[j - 1 + 1], session, id, run[j].objects[id].status);
    }
  }

  lemma FirstIsStart(run: seq<System>, session: Bytes)
    requires IsRun(run, session)
    ensures |run| > 0 && run[0].objects == map[]
  {
  }

  // ----- What an end leaves -----

  /** The end of a task is announced if a control slot is free. */
  lemma EndIsAnnounced(s: System, session: Bytes, id: Bytes, poll: Poll, live: seq<Bytes>, pending: seq<Bytes>, note: Bytes)
    requires id in s.objects && (s.objects[id].cancel || !poll.Pending?)
    ensures var q := RemoveLane(L.CancelCalls(EndAll(s.ledger, live), pending), id).host.q;
      Polled(s, id, poll, live, pending, note).ledger.host.q.control
      == q.control + if !q.closed && |q.control| < 64 then [OutboxModel.Frame(note, OutboxModel.Other)] else []
  {
    hide RemoveLane, L.CancelCalls, EndAll, WakeStoppers;
    var q := RemoveLane(L.CancelCalls(EndAll(s.ledger, live), pending), id).host.q;
    assert q.control + [] == q.control;
  }

  /** A stop that returns has released the object's program, and the task was joined. */
  lemma StopReleases(s: System, session: Bytes, step: Step)
    requires Inv(s, session) && Enabled(s, step) && (step.Stop? || step.ResumeStop?)
    ensures var t := Apply(s, session, step);
      step.id in t.objects && (step.pid !in t.objects[step.id].stoppers ==> !t.objects[step.id].program && !t.objects[step.id].handle)
  {
    hide L.Inv, Hosted, L.Lists, Mailboxes.Kept, RemoveLane, L.CancelCalls, StopperSound;
    var o := s.objects[step.id];
    if step.ResumeStop? && o.stoppers[step.pid].AwaitTask? {
      HandleTaken(o, step.pid);
    }
  }

  lemma HandleTaken(o: Object, pid: nat)
    requires ObjectSound(o) && pid in o.stoppers && o.stoppers[pid].AwaitTask?
    ensures !o.handle
  {
    hide Mailboxes.Kept;
    assert StopperSound(o, o.stoppers[pid]);
  }

  // ----- What the other steps do -----

  /** Loading adds a loaded object, a token once set stays set, and a dropped stop waits no more. */
  lemma RecordsChange(s: System, session: Bytes, id: Bytes, pid: nat)
    ensures Enabled(s, Load(id)) ==>
      var t := Apply(s, session, Load(id));
      id in t.objects && t.objects[id].status == Loaded && t.objects[id].mailbox.accepted == [] && t.objects[id].stoppers == map[]
    ensures Enabled(s, SetCancel(id)) ==>
      var t := Apply(s, session, SetCancel(id)); id in t.objects && t.objects[id] == s.objects[id].(cancel := true)
    ensures Enabled(s, DropStop(id, pid)) ==>
      var t := Apply(s, session, DropStop(id, pid)); id in t.objects && pid !in t.objects[id].stoppers
  {
  }

  /**
    An event is added to the mailbox of a loaded, starting or running object exactly if the
    mailbox takes it; a guest that receives takes the oldest pending event.
   */
  lemma EventsMove(s: System, session: Bytes, id: Bytes, event: Json.Value)
    requires Inv(s, session) && id in s.objects
    ensures Enabled(s, DeliverEvent(id, event)) ==>
      var t, o := Apply(s, session, DeliverEvent(id, event)), s.objects[id];
      && id in t.objects && t.objects[id].mailbox.taken == o.mailbox.taken
      && t.objects[id].mailbox.accepted
         == o.mailbox.accepted +
            if (o.status == Loaded || o.status == Starting || o.status == Running) && Mailboxes.Verdict(o.mailbox, event) == Mailboxes.Accepted
            then [event] else []
    ensures Enabled(s, GuestReceive(id)) ==>
      var t, o := Apply(s, session, GuestReceive(id)), s.objects[id];
      && id in t.objects && t.objects[id].mailbox.accepted == o.mailbox.accepted
      && t.objects[id].mailbox.taken == o.mailbox.taken + if o.mailbox.taken < |o.mailbox.accepted| then 1 else 0
  {
    hide Inv, Mailboxes.Verdict;
    assert s.objects[id].mailbox.accepted + [] == s.objects[id].mailbox.accepted;
  }
}
