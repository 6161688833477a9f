/** The host object as src/host.rs keeps it, sharing the outbox with the rest of the runtime. */
module HostCalls {
  import opened Prelude
  import opened OutboxModel
  import Json
  import Outbox
  import Ledger = HostLedger

  class Host {
    var pending: map<Id, Id>
    var next: nat
    var ignored: nat
    const session: Bytes
    const out: Outbox.Outbox

    ghost predicate Valid()
      reads this, out
    {
      out.Valid()
    }

    ghost function State(): Ledger.Host
      requires Valid()
      reads this, out
    {
      Ledger.Host(pending, next, ignored, out.Model())
    }

    constructor (session: Bytes, out: Outbox.Outbox)
      requires out.Valid()
      ensures Valid() && this.session == session && this.out == out
      ensures State() == Ledger.Host(map[], 0, 0, out.Model())
    {
      pending, next, ignored := map[], 0, 0;
      this.session, this.out := session, out;
    }

    /** The first block of `call`: None is the LIMIT status. */
    method Register(owner: Id) returns (id: Option<Id>)
      requires Valid()
      modifies this
      ensures Valid() && State() == Ledger.Register(old(State()), session, owner)
      ensures id == if Ledger.CanRegister(old(State())) then Some(Ledger.CallId(session, old(next) + 1)) else None
    {
      if |pending| >= Ledger.MAX_PENDING {
        return None;
      }
      if next >= U64_MAX {
        return None;
      }
      next := next + 1;
      id := Some(Ledger.CallId(session, next));
      pending := pending[id.value := owner];
    }

    /** The drop of a call's guard. */
    method DropGuard(id: Id, owner: Id, sent: bool)
      requires Valid()
      modifies this, out
      ensures Valid() && State() == Ledger.DropGuard(old(State()), id, owner, sent)
    {
      out.RemoveRequest(owner, id);
      if id in pending {
        pending := pending - {id};
        if sent {
          var queued := out.PushControl(Ledger.CancelFrame(id));
        }
      } else {
        assert pending - {id} == pending;
      }
    }

    /** Routes a response; the result is the call it resolves and what that call returns. */
    method Response(frame: Json.Value) returns (resolved: Option<(Id, Ledger.Answer)>)
      requires Valid()
      modifies this
      ensures Valid() && State() == Ledger.Respond(old(State()), frame)
      ensures resolved == if Ledger.Routable(old(State()), frame)
                          then Some((Ledger.ResponseId(frame).value, Ledger.ResponseAnswer(frame))) else None
    {
      var id := Ledger.ResponseId(frame);
      if id.None? {
        ignored := Saturated(ignored);
        return None;
      }
      if id.value !in pending {
        ignored := Saturated(ignored);
        return None;
      }
      pending := pending - {id.value};
      resolved := Some((id.value, Ledger.ResponseAnswer(frame)));
    }

    method CancelIfPending(id: Id)
      requires Valid()
      modifies this, out
      ensures Valid() && State() == Ledger.CancelIfPending(old(State()), id)
    {
      if id in pending {
        pending := pending - {id};
        var queued := out.PushControl(Ledger.CancelFrame(id));
      }
    }

    /** Cancels every pending call of an object, in the order the table lists them. */
    method CancelObject(owner: Id) returns (ids: seq<Id>)
      requires Valid()
      modifies this, out
      ensures Valid() && Ledger.Lists(old(State()), owner, ids)
      ensures State() == Ledger.CancelAll(old(State()), ids)
    {
      ids := Collect(pending, owner);
      var n := 0;
      while n < |ids|
        invariant 0 <= n <= |ids| && Valid()
        invariant Ledger.CancelAll(old(State()), ids) == Ledger.CancelAll(State(), ids[n..])
        modifies this, out
      {
        assert ids[n..][0] == ids[n] && ids[n..][1..] == ids[n + 1..];
        CancelIfPending(ids[n]);
        n := n + 1;
      }
    }
  }

  /** Lists an object's pending calls, each once. */
  method Collect(pending: map<Id, Id>, owner: Id) returns (ids: seq<Id>)
    ensures Distinct(ids)
    ensures forall id :: id in ids <==> id in pending && pending[id] == owner
  {
    var todo := set id | id in pending && pending[id] == owner;
    ids := [];
    while todo != {}
      invariant Distinct(ids)
      invariant forall id :: id in ids ==> id !in todo
      invariant forall id :: id in ids || id in todo <==> id in pending && pending[id] == owner
      decreases todo
    {
      var id :| id in todo;
      todo := todo - {id};
      ids := ids + [id];
    }
  }
}
