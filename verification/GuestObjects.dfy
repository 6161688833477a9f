/**
  One loaded object as src/runtime.rs:129-182 and 275-365 keep it: cells changed in place,
  a mailbox and the shared host. Every method is one stretch between awaits, proved to do
  to each system that shows this object what the system's own step does.
 */
module GuestObjects {
  import opened Prelude
  import opened Lifecycle
  import Json
  import OutboxModel
  import Mailboxes
  import HostCalls
  import Outbox
  import L = HostLedger

  class GuestObject {
    const id: Bytes
    const mailbox: Mailboxes.Mailbox
    const host: HostCalls.Host
    var status: Status
    var program: bool
    var task: Task
    var handle: bool
    var cancel: bool
    var stoppers: map<nat, Stopper>
    ghost var spawns: nat

    ghost predicate Valid()
      reads this, mailbox, host, host.out
    {
      mailbox.Valid() && host.Valid()
    }

    ghost function Model(): Object
      reads this, mailbox
    {
      Object(status, program, task, handle, cancel, stoppers, mailbox.log, spawns)
    }

    /** A system in which this object and the host's tables look just as they are here. */
    ghost predicate Shows(s: System)
      requires Valid()
      reads this, mailbox, host, host.out
    {
      id in s.objects && s.objects[id] == Model() && s.ledger.host == host.State()
    }

    constructor (id: Bytes, host: HostCalls.Host)
      requires host.Valid()
      ensures Valid() && Model() == NEW && this.id == id && this.host == host
    {
      var box := new Mailboxes.Mailbox();
      this.id, this.host, mailbox := id, host, box;
      status, program, task, handle, cancel, stoppers, spawns := Loaded, true, NotSpawned, false, false, map[], 0;
    }

    /** None when the object no longer accepts events. */
    method Deliver(event: Json.Value) returns (reply: Option<Mailboxes.Reply>)
      requires Valid()
      modifies mailbox
      ensures Valid()
      ensures reply == if status.Loaded? || status.Starting? || status.Running?
                       then Some(Mailboxes.Verdict(old(mailbox.log), event)) else None
      ensures mailbox.log == if reply.Some? then Mailboxes.AfterDeliver(old(mailbox.log), event) else old(mailbox.log)
    {
      if !(status.Loaded? || status.Starting? || status.Running?) {
        return None;
      }
      var verdict := mailbox.Deliver(event);
      reply := Some(verdict);
    }

    /** `expect("loaded program")` holds by the invariant of the system. */
    method Start() returns (ok: bool)
      requires Valid() && (status.Loaded? ==> program)
      modifies this
      ensures Valid() && ok == old(status.Loaded?)
      ensures forall s :: old(Shows(s)) ==> Shows(Started(s, id))
    {
      hide Mailboxes.Mailbox.Valid, HostCalls.Host.Valid;
      if !status.Loaded? {
        return false;
      }
      assert program;
      status, task, handle, spawns := Starting, Spawned, true, spawns + 1;
      ok := true;
    }
  
    // ----- Stopping -----

    /** A call of `stop` up to its first wait, or to its end. */
    method BeginStop(pid: nat) returns (ghost pending: seq<Bytes>)
      requires Valid()
      modifies this, mailbox, host, host.out
      ensures Valid()
      ensures forall s :: old(Shows(s)) ==> Shows(StopObject(s, id, pid, pending))
    {
      hide Mailboxes.Mailbox.Valid, HostCalls.Host.Valid, JoinOrFinish;
      ghost var was := Model();
      if status.Loaded? {
        status := Stopped;
      }
      if status.Starting? || status.Running? || status.Stopping? {
        status, cancel, stoppers := Stopping, true, stoppers[pid := AwaitDone(false)];
        return [];
      }
      label joining:
      pending := Join(pid);
      forall s | old(Shows(s)) ensures Shows(StopObject(s, id, pid, pending)) {
        var t := if was.status.Loaded? then s.(objects := s.objects[id := was.(status := Stopped)]) else s;
        assert old@joining(Shows(t));
      }
    }

    /** Past the first loop: take the join handle and wait for the task, or finish. */
    method Join(pid: nat) returns (ghost pending: seq<Bytes>)
      requires Valid()
      modifies this, mailbox, host, host.out
      ensures Valid()
      ensures forall s :: old(Shows(s)) ==> Shows(JoinOrFinish(s, id, pid, pending))
    {
      hide Mailboxes.Mailbox.Valid, HostCalls.Host.Valid, FinishStop;
      if handle {
        handle, stoppers := false, stoppers[pid := AwaitTask];
        return [];
      }
      pending := Finish(pid);
    }

    method Finish(pid: nat) returns (ghost pending: seq<Bytes>)
      requires Valid()
      modifies this, mailbox, host, host.out
      ensures Valid() && L.Lists(old(host.State()), id, pending)
      ensures forall s :: old(Shows(s)) ==> Shows(FinishStop(s, id, pid, pending))
    {
      hide Mailboxes.Mailbox.Valid, L.CancelAll, L.Lists, OutboxModel.RemoveObject,
        OutboxModel.WellFormed, OutboxModel.Total, Outbox.Keyed, Outbox.LanesOf, Mailboxes.EventId;
      program, stoppers := false, stoppers - {pid};
      mailbox.Clear();
      pending := host.CancelObject(id);
      host.out.RemoveObject(id);
    }

    /** A parked stop that was notified, or whose task is done. */
    method ResumeStop(pid: nat) returns (ghost pending: seq<Bytes>)
      requires Valid() && pid in stoppers
      modifies this, mailbox, host, host.out
      ensures Valid()
      ensures forall s :: old(Shows(s)) ==> Shows(Resume(s, id, pid, pending))
    {
      hide Mailboxes.Mailbox.Valid, HostCalls.Host.Valid, FinishStop, JoinOrFinish;
      if stoppers[pid].AwaitTask? {
        pending := Finish(pid);
        return;
      }
      if status.Stopping? {
        stoppers := stoppers[pid := AwaitDone(false)];
        return [];
      }
      pending := Join(pid);
    }

    // ----- The task -----

    /** The task's last stretch, after the run future is dropped. */
    method EndTask(end: Status, note: Bytes) returns (ghost pending: seq<Bytes>)
      requires Valid()
      modifies this, mailbox, host, host.out
      ensures Valid() && L.Lists(old(host.State()), id, pending)
      ensures forall s: System, live: seq<Bytes> :: old(Shows(System(s.objects, EndAll(s.ledger, live)))) ==>
        Shows(FinishTask(s, id, end, live, pending, note))
    {
      hide Mailboxes.Mailbox.Valid, L.CancelAll, L.Lists, OutboxModel.RemoveObject, OutboxModel.PushControl, EndAll, WakeStoppers,
        OutboxModel.WellFormed, OutboxModel.Total, Outbox.Keyed, Outbox.LanesOf, Mailboxes.EventId;
      status, task := end, Finished;
      pending := host.CancelObject(id);
      host.out.RemoveObject(id);
      mailbox.Clear();
      var queued := host.out.PushControl(OutboxModel.Frame(note, OutboxModel.Other));
      stoppers := WakeStoppers(stoppers);
    }

    /** A poll in which the guest is still pending: the state is Running from the first one on. */
    method Suspend()
      requires Valid() && !cancel
      modifies this
      ensures Valid()
      ensures forall s, live, pending, note :: old(Shows(s)) ==> Shows(Polled(s, id, Pending, live, pending, note))
    {
      hide Mailboxes.Mailbox.Valid, HostCalls.Host.Valid, FinishTask;
      if task.Spawned? {
        status := Running;
      }
      task := Suspended;
    }
  
    /** One poll of the task; its select prefers the cancel token. */
    method Poll(poll: Lifecycle.Poll, note: Bytes) returns (ghost pending: seq<Bytes>)
      requires Valid()
      modifies this, mailbox, host, host.out
      ensures Valid()
      ensures old(cancel) || !poll.Pending? ==>
        forall s: System, live: seq<Bytes> :: old(Shows(System(s.objects, EndAll(s.ledger, live)))) ==>
          Shows(Polled(s, id, poll, live, pending, note))
      ensures !old(cancel) && poll.Pending? ==>
        forall s: System, live: seq<Bytes> :: old(Shows(s)) ==> Shows(Polled(s, id, poll, live, pending, note))
    {
      hide Mailboxes.Mailbox.Valid, HostCalls.Host.Valid, FinishTask, EndAll;
      pending := [];
      if cancel {
        pending := EndTask(Stopped, note);
        return;
      }
      match poll
      case Returns => pending := EndTask(Exited, note);
      case Faults => pending := EndTask(Failed, note);
      case Pending => Suspend();
    }
  }
}
