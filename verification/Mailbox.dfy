/**
  An object's mailbox (src/runtime.rs:72-128): a bounded queue with a window of recent
  event IDs. It is proved to behave like a log of accepted events read from a cursor.
 */
module Mailboxes {
  import opened Prelude
  import opened Json
  import JsonLimits
  import Runs

  const MAX_EVENTS: nat := 32
  const MAX_BYTES: nat := 32 * 1024
  const WINDOW: nat := 128

  datatype Reply = Accepted | Duplicate | BadParams | Full

  /** `event["event_id"].as_str()` */
  function EventId(event: Value): Option<Bytes> {
    match Get(event, Ascii("event_id"))
    case Some(String(id)) => Some(id)
    case _ => None
  }

  // ----- The log -----

  /** Every event accepted since the last clear, and how many have been received. */
  datatype Log = Log(accepted: seq<Value>, taken: nat) {
    ghost predicate Valid() {
      taken <= |accepted|
    }

    function Pending(): seq<Value>
      requires Valid()
    {
      accepted[taken..]
    }

    /** The last 128 accepted events. */
    function Recent(): seq<Value> {
      accepted[|accepted| - Min(WINDOW, |accepted|)..]
    }
  }

  const FRESH := Log([], 0)

  function Sizes(events: seq<Value>): nat {
    if events == [] then 0 else |Print(events[0])| + Sizes(events[1..])
  }

  function Ids(events: seq<Value>): seq<Option<Bytes>> {
    seq(|events|, i requires 0 <= i < |events| => EventId(events[i]))
  }

  function Verdict(log: Log, event: Value): Reply
    requires log.Valid()
  {
    var id := EventId(event);
    if id.None? || |id.value| > MAX_ID then BadParams
    else if id in Ids(log.Recent()) then Duplicate
    else if |Print(event)| > JsonLimits.MAX_VALUE_BYTES then BadParams
    else if |log.Pending()| >= MAX_EVENTS || Sizes(log.Pending()) + |Print(event)| > MAX_BYTES then Full
    else Accepted
  }

  function AfterDeliver(log: Log, event: Value): (r: Log)
    requires log.Valid()
    ensures r.Valid()
  {
    if Verdict(log, event) == Accepted then log.(accepted := log.accepted + [event]) else log
  }

  function AfterReceive(log: Log): (r: Log)
    requires log.Valid()
    ensures r.Valid()
  {
    if log.Pending() == [] then log else log.(taken := log.taken + 1)
  }

  // ----- What every log keeps -----

  /** Every event the mailbox ever took: a short ID, and at most 16 KiB. */
  ghost predicate Acceptable(event: Value) {
    && EventId(event).Some? && |EventId(event).value| <= MAX_ID
    && |Print(event)| <= JsonLimits.MAX_VALUE_BYTES
  }

  ghost predicate AllAcceptable(events: seq<Value>) {
    forall i :: 0 <= i < |events| ==> Acceptable(events[i])
  }

  /** No two events within the window have the same ID. */
  ghost predicate NoRepeats(events: seq<Value>) {
    forall i, j :: 0 <= i < j < |events| && j - i <= WINDOW ==> EventId(events[i]) != EventId(events[j])
  }

  ghost predicate Kept(log: Log) {
    && log.Valid()
    && |log.Pending()| <= MAX_EVENTS
    && Sizes(log.Pending()) <= MAX_BYTES
    && AllAcceptable(log.accepted)
    && NoRepeats(log.accepted)
  }

  lemma {:induction false} SizesAppend(a: seq<Value>, b: seq<Value>)
    ensures Sizes(a + b) == Sizes(a) + Sizes(b)
  {
    if a == [] {
      assert a + b == b;
    } else {
      assert (a + b)[1..] == a[1..] + b;
      SizesAppend(a[1..], b);
    }
  }

  lemma DeliverKeeps(log: Log, event: Value)
    requires Kept(log)
    ensures Kept(AfterDeliver(log, event))
  {
    if Verdict(log, event) == Accepted {
      var next := AfterDeliver(log, event);
      hide EventId, Print, Verdict, Sizes, Acceptable, AllAcceptable, NoRepeats;
      AcceptedFits(log, event);
      AcceptedIsNew(log, event);
      PendingGrows(log, event);
      OneMoreAcceptable(log.accepted, event);
      assert next.accepted == log.accepted + [event];
    }
  }

  lemma OneMoreAcceptable(events: seq<Value>, event: Value)
    requires AllAcceptable(events) && NoRepeats(events) && Acceptable(event)
    requires forall i :: 0 <= i < |events| && |events| - i <= WINDOW ==> EventId(events[i]) != EventId(event)
    ensures AllAcceptable(events + [event]) && NoRepeats(events + [event])
  {
    hide EventId, Acceptable;
  }

  lemma AcceptedFits(log: Log, event: Value)
    requires log.Valid() && Verdict(log, event) == Accepted
    ensures Acceptable(event)
    ensures |log.Pending()| < MAX_EVENTS && Sizes(log.Pending()) + |Print(event)| <= MAX_BYTES
  {
    hide EventId, Print, Sizes;
  }

  /** None of the last 128 accepted events has the ID of an event accepted now. */
  lemma AcceptedIsNew(log: Log, event: Value)
    requires log.Valid() && Verdict(log, event) == Accepted
    ensures forall i :: 0 <= i < |log.accepted| && |log.accepted| - i <= WINDOW ==> EventId(log.accepted[i]) != EventId(event)
  {
    NotDuplicate(log, event);
    hide EventId, Verdict, Ids;
    InWindow(log, EventId(event));
  }

  lemma NotDuplicate(log: Log, event: Value)
    requires log.Valid() && Verdict(log, event) == Accepted
    ensures EventId(event) !in Ids(log.Recent())
  {
    hide EventId, Print, Sizes, Ids;
  }

  lemma PendingGrows(log: Log, event: Value)
    requires log.Valid()
    ensures var next := Log(log.accepted + [event], log.taken);
      && next.Pending() == log.Pending() + [event]
      && Sizes(next.Pending()) == Sizes(log.Pending()) + |Print(event)|
  {
    hide Print;
    assert Log(log.accepted + [event], log.taken).Pending() == log.Pending() + [event];
    SizesAppend(log.Pending(), [event]);
  }

  lemma ReceiveKeeps(log: Log)
    requires Kept(log)
    ensures Kept(AfterReceive(log))
    ensures log.Pending() != [] ==> AfterReceive(log).Pending() == log.Pending()[1..]
  {
    if log.Pending() != [] {
      assert AfterReceive(log).Pending() == log.Pending()[1..];
    }
  }

  /**
    What is queued is the tail of the window of recent events, and no two events in
    the window share an ID.
   */
  lemma QueueIsTailOfWindow(log: Log)
    requires Kept(log)
    ensures |log.Pending()| <= |log.Recent()| <= WINDOW
    ensures log.Pending() == log.Recent()[|log.Recent()| - |log.Pending()|..]
    ensures forall i, j :: 0 <= i < j < |log.Recent()| ==> EventId(log.Recent()[i]) != EventId(log.Recent()[j])
  {
  }

  // ----- Runs -----

  datatype Op = DeliverEvent(event: Value) | ReceiveEvent

  function Apply(log: Log, op: Op): (r: Log)
    requires log.Valid()
    ensures r.Valid()
  {
    match op
    case DeliverEvent(event) => AfterDeliver(log, event)
    case ReceiveEvent => AfterReceive(log)
  }

  function Run(log: Log, ops: seq<Op>): (r: Log)
    requires log.Valid()
    ensures r.Valid()
    decreases ops
  {
    if ops == [] then log else Run(Apply(log, ops[0]), ops[1..])
  }

  /** The events the guest receives, in order. */
  function ReceivedBy(log: Log, ops: seq<Op>): seq<Value>
    requires log.Valid()
    decreases ops
  {
    if ops == [] then []
    else Given(log, ops[0]) + ReceivedBy(Apply(log, ops[0]), ops[1..])
  }

  /** The events the mailbox accepts, in order. */
  function AcceptedBy(log: Log, ops: seq<Op>): seq<Value>
    requires log.Valid()
    decreases ops
  {
    if ops == [] then []
    else Taken(log, ops[0]) + AcceptedBy(Apply(log, ops[0]), ops[1..])
  }

  function Taken(log: Log, op: Op): seq<Value>
    requires log.Valid()
  {
    if op.DeliverEvent? && Verdict(log, op.event) == Accepted then [op.event] else []
  }

  function Given(log: Log, op: Op): seq<Value>
    requires log.Valid()
  {
    if op.ReceiveEvent? && log.Pending() != [] then [log.Pending()[0]] else []
  }

  lemma StepInOrder(log: Log, op: Op)
    requires Kept(log)
    ensures Kept(Apply(log, op))
    ensures log.Pending() + Taken(log, op) == Given(log, op) + Apply(log, op).Pending()
  {
    hide EventId, Print, Sizes, Verdict;
    match op
    case DeliverEvent(event) => DeliverKeeps(log, event);
    case ReceiveEvent => ReceiveKeeps(log);
  }

  /** First in, first out, each at most once: what was pending or accepted is received or pending. */
  lemma {:induction false} ReceivedInOrder(log: Log, ops: seq<Op>)
    requires Kept(log)
    ensures Kept(Run(log, ops))
    ensures log.Pending() + AcceptedBy(log, ops) == ReceivedBy(log, ops) + Run(log, ops).Pending()
    decreases ops
  {
    if ops != [] {
      StepInOrder(log, ops[0]);
      hide Kept, Apply, Taken, Given;
      var next := Apply(log, ops[0]);
      ReceivedInOrder(next, ops[1..]);
      Assoc(log.Pending(), Taken(log, ops[0]), AcceptedBy(next, ops[1..]));
      Assoc(Given(log, ops[0]), next.Pending(), AcceptedBy(next, ops[1..]));
      Assoc(Given(log, ops[0]), ReceivedBy(next, ops[1..]), Run(next, ops[1..]).Pending());
    }
  }

  /** A delivered event counts as a duplicate exactly when its ID is among the last 128 accepted. */
  lemma DuplicateExactly(log: Log, event: Value)
    requires Kept(log)
    ensures Verdict(log, event) == Duplicate <==>
      && EventId(event).Some? && |EventId(event).value| <= MAX_ID
      && exists i :: Max(0, |log.accepted| - WINDOW) <= i < |log.accepted|
                  && EventId(log.accepted[i]) == EventId(event)
  {
    hide EventId, Print, Sizes, Ids, Kept;
    InWindow(log, EventId(event));
  }

  /** An event is remembered, taken or not, until 128 later ones were accepted. */
  lemma RemembersLong(log: Log, k: nat, later: Log)
    requires Kept(log) && Kept(later) && log.accepted <= later.accepted
    requires k < |log.accepted| && |later.accepted| - k <= WINDOW
    ensures Verdict(later, log.accepted[k]) == Duplicate
  {
    hide EventId, Print, Sizes, Verdict;
    assert later.accepted[k] == log.accepted[k] && Acceptable(log.accepted[k]);
    DuplicateExactly(later, log.accepted[k]);
  }

  lemma InWindow(log: Log, id: Option<Bytes>)
    ensures id in Ids(log.Recent()) <==>
      exists i :: Max(0, |log.accepted| - WINDOW) <= i < |log.accepted| && EventId(log.accepted[i]) == id
  {
    hide EventId;
    var ids, start := Ids(log.Recent()), Max(0, |log.accepted| - WINDOW);
    assert forall k :: 0 <= k < |ids| ==> ids[k] == EventId(log.accepted[start + k]);
    if id in ids {
      var k :| 0 <= k < |ids| && ids[k] == id;
      assert EventId(log.accepted[start + k]) == id;
    }
    forall i | start <= i < |log.accepted| && EventId(log.accepted[i]) == id ensures id in ids {
      assert ids[i - start] == id;
    }
  }

  // ----- When an event is taken -----

  function Printed(events: seq<Value>): Bytes {
    if events == [] then [] else Print(events[0]) + Printed(events[1..])
  }

  lemma {:induction false} SizesIsLength(events: seq<Value>)
    ensures Sizes(events) == |Printed(events)|
  {
    hide Print;
    if events != [] {
      SizesIsLength(events[1..]);
    }
  }

  /** One of the last 128 accepted events has this event's ID. */
  ghost predicate Recalled(log: Log, event: Value) {
    exists i :: Max(0, |log.accepted| - 128) <= i < |log.accepted| && EventId(log.accepted[i]) == EventId(event)
  }

  predicate ShortNamed(event: Value) {
    EventId(event).Some? && |EventId(event).value| <= 128
  }

  /**
    An event with a short ID that is not remembered is taken exactly if it prints within
    16 KiB, fewer than 32 events are pending, and the pending ones and it print within
    32 KiB together. What is refused is malformed or too large, or finds the mailbox full.
   */
  lemma VerdictExactly(log: Log, event: Value)
    requires Kept(log)
    ensures Verdict(log, event) == Duplicate <==> ShortNamed(event) && Recalled(log, event)
    ensures Verdict(log, event) == BadParams <==>
      !ShortNamed(event) || (!Recalled(log, event) && |Print(event)| > 16384)
    ensures Verdict(log, event) == Full <==>
      && ShortNamed(event) && !Recalled(log, event) && |Print(event)| <= 16384
      && (|log.Pending()| >= 32 || |Printed(log.Pending())| + |Print(event)| > 32768)
    ensures Verdict(log, event) == Accepted <==>
      && ShortNamed(event) && !Recalled(log, event) && |Print(event)| <= 16384
      && |log.Pending()| < 32 && |Printed(log.Pending())| + |Print(event)| <= 32768
  {
    SizesIsLength(log.Pending());
    DuplicateExactly(log, event);
    hide EventId, Print, Sizes, Ids, Kept, Printed;
  }

  /** An empty mailbox takes any event of its own size limit that it does not remember. */
  lemma EmptyTakes(log: Log, event: Value)
    requires Kept(log) && log.Pending() == [] && ShortNamed(event) && !Recalled(log, event) && |Print(event)| <= 16384
    ensures AfterDeliver(log, event).accepted == log.accepted + [event]
    ensures AfterDeliver(log, event).Pending() == [event]
  {
    assert Printed([]) == [];
    VerdictExactly(log, event);
    hide EventId, Print, Verdict, Kept, Printed, Recalled;
    assert (log.accepted + [event])[log.taken..] == [event];
  }

  // ----- The mailbox as the program keeps it -----

  ghost predicate Queues(entries: seq<(Value, nat)>, bytes: nat, log: Log)
    requires log.Valid()
  {
    && |entries| == |log.Pending()|
    && (forall i :: 0 <= i < |entries| ==> entries[i] == (log.Pending()[i], |Print(log.Pending()[i])|))
    && bytes == Sizes(log.Pending())
  }

  ghost predicate Remembers(recent: seq<Bytes>, log: Log) {
    && |recent| == |log.Recent()|
    && (forall i :: 0 <= i < |recent| ==> Some(recent[i]) == EventId(log.Recent()[i]))
  }

  lemma QueuesMore(entries: seq<(Value, nat)>, bytes: nat, log: Log, event: Value)
    requires log.Valid() && Queues(entries, bytes, log)
    ensures Queues(entries + [(event, |Print(event)|)], bytes + |Print(event)|, Log(log.accepted + [event], log.taken))
  {
    hide Print;
    SizesAppend(log.Pending(), [event]);
    assert Log(log.accepted + [event], log.taken).Pending() == log.Pending() + [event];
  }

  lemma RemembersMore(recent: seq<Bytes>, log: Log, event: Value, id: Bytes)
    requires Remembers(recent, log) && EventId(event) == Some(id)
    ensures var kept := if |recent| == WINDOW then recent[1..] else recent;
            Remembers(kept + [id], Log(log.accepted + [event], log.taken))
  {
    hide EventId;
    var next := Log(log.accepted + [event], log.taken);
    var kept, past := if |recent| == WINDOW then recent[1..] else recent, if |recent| == WINDOW then log.Recent()[1..] else log.Recent();
    assert next.Recent() == past + [event];
    forall i | 0 <= i < |kept| ensures Some(kept[i]) == EventId(past[i]) {
    }
  }

  lemma KeptValid(log: Log)
    requires Kept(log)
    ensures log.Valid()
  {
  }

  lemma AcceptKeeps(entries: seq<(Value, nat)>, bytes: nat, recent: seq<Bytes>, log: Log, event: Value, id: Bytes)
    requires Kept(log) && Queues(entries, bytes, log) && Remembers(recent, log)
    requires Verdict(log, event) == Accepted && EventId(event) == Some(id)
    ensures var next := AfterDeliver(log, event);
      && Kept(next)
      && Queues(entries + [(event, |Print(event)|)], bytes + |Print(event)|, next)
      && Remembers((if |recent| == WINDOW then recent[1..] else recent) + [id], next)
  {
    hide Kept, Queues, Remembers, Verdict, Print, EventId;
    KeptValid(log);
    DeliverKeeps(log, event);
    QueuesMore(entries, bytes, log, event);
    RemembersMore(recent, log, event, id);
  }

  lemma RemembersId(recent: seq<Bytes>, log: Log, id: Bytes)
    requires Remembers(recent, log)
    ensures id in recent <==> Some(id) in Ids(log.Recent())
  {
    if id in recent {
      var i :| 0 <= i < |recent| && recent[i] == id;
      assert Ids(log.Recent())[i] == Some(id);
    }
  }

  lemma FreshValid()
    ensures Kept(FRESH) && FRESH.Valid() && Queues([], 0, FRESH) && Remembers([], FRESH)
  {
    hide EventId, Print;
  }

  class Mailbox {
    var entries: seq<(Value, nat)>
    var bytes: nat
    var recent: seq<Bytes>
    ghost var log: Log

    ghost predicate Valid()
      reads this
    {
      Kept(log) && Queues(entries, bytes, log) && Remembers(recent, log)
    }

    constructor ()
      ensures Valid() && log == FRESH
    {
      hide Kept, Queues, Remembers;
      FreshValid();
      entries, bytes, recent, log := [], 0, [], FRESH;
    }

    method Deliver(event: Value) returns (reply: Reply)
      requires Valid()
      modifies this
      ensures Valid()
      ensures reply == Verdict(old(log), event)
      ensures log == AfterDeliver(old(log), event)
    {
      assert |entries| == |log.Pending()| && bytes == Sizes(log.Pending()) && log.Valid();
      hide Kept, Queues, Remembers, Ids, Sizes, Print, EventId;
      var id := EventId(event);
      if id.None? || |id.value| > MAX_ID {
        return BadParams;
      }
      RemembersId(recent, log, id.value);
      if id.value in recent {
        return Duplicate;
      }
      var size := |Print(event)|;
      if size > JsonLimits.MAX_VALUE_BYTES {
        return BadParams;
      }
      if |entries| >= MAX_EVENTS || bytes + size > MAX_BYTES {
        return Full;
      }
      Accept(event, id.value, size);
      reply := Accepted;
    }

    /** Queues an event that passed every check, and slides the window of recent IDs. */
    method Accept(event: Value, id: Bytes, size: nat)
      requires Valid() && Verdict(log, event) == Accepted
      requires EventId(event) == Some(id) && size == |Print(event)|
      modifies this
      ensures Valid() && log == AfterDeliver(old(log), event)
    {
      hide Kept, Queues, Remembers, Verdict, Print, EventId, AfterDeliver;
      KeptValid(log);
      ghost var next := AfterDeliver(log, event);
      AcceptKeeps(entries, bytes, recent, log, event, id);
      entries, bytes := entries + [(event, size)], bytes + size;
      recent := (if |recent| == WINDOW then recent[1..] else recent) + [id];
      log := next;
    }

    /** The synchronous part of `receive`: None stands for waiting. */
    method Receive() returns (event: Option<Value>)
      requires Valid()
      modifies this
      ensures Valid()
      ensures event == if old(log).Pending() == [] then None else Some(old(log).Pending()[0])
      ensures log == AfterReceive(old(log))
    {
      if entries == [] {
        return None;
      }
      ReceiveKeeps(log);
      event := Some(entries[0].0);
      bytes := bytes - entries[0].1;
      entries := entries[1..];
      log := AfterReceive(log);
    }

    method Clear()
      modifies this
      ensures Valid() && log == FRESH
    {
      hide Kept, Queues, Remembers;
      FreshValid();
      entries, bytes, recent, log := [], 0, [], FRESH;
    }
  }

  // ----- Waiting for an event -----

  /** One guest waits at a time; Woken is parked with a notification. */
  datatype Receiver = Idle | Parked | Woken

  datatype Waiting = Waiting(log: Log, permit: bool, receiver: Receiver)

  const ASLEEP := Waiting(FRESH, false, Idle)

  datatype Step = Arrive(event: Value) | Poll | TimeOut | ClearAll

  predicate Enabled(w: Waiting, step: Step) {
    match step
    case Poll => w.receiver != Parked
    case TimeOut => w.receiver != Idle
    case _ => true
  }

  /** A dropped waiter that was already notified hands its notification on. */
  function Next(w: Waiting, step: Step): Waiting
    requires w.log.Valid() && Enabled(w, step)
  {
    match step
    case Arrive(event) =>
      if Verdict(w.log, event) != Accepted then w
      else if w.receiver == Parked then w.(log := AfterDeliver(w.log, event), receiver := Woken)
      else w.(log := AfterDeliver(w.log, event), permit := true)
    case Poll =>
      if w.log.Pending() != [] then w.(log := AfterReceive(w.log), receiver := Idle)
      else w.(receiver := Parked, permit := false)
    case TimeOut => w.(receiver := Idle, permit := w.permit || w.receiver == Woken)
    case ClearAll => w.(log := FRESH)
  }

  ghost predicate Sound(w: Waiting) {
    Kept(w.log) && (w.receiver == Parked ==> w.log.Pending() == [] && !w.permit)
  }

  ghost predicate IsRun(run: seq<Waiting>) {
    Runs.IsRun(run, ASLEEP, Steps)
  }

  ghost predicate Steps(w: Waiting, v: Waiting) {
    w.log.Valid() && exists step :: Enabled(w, step) && v == Next(w, step)
  }

  /** Every step is one of the log's own: an arrival delivers, a poll receives, and a receiver sleeps only when nothing is pending. */
  lemma StepIsOp(w: Waiting, step: Step)
    requires w.log.Valid() && Enabled(w, step)
    ensures Next(w, step).log
      == match step
         case Arrive(event) => AfterDeliver(w.log, event)
         case Poll => AfterReceive(w.log)
         case TimeOut => w.log
         case ClearAll => FRESH
    ensures step.Poll? ==> (Next(w, step).receiver == Parked <==> w.log.Pending() == [])
  {
    hide Verdict;
  }

  lemma StepSound(w: Waiting, step: Step)
    requires Sound(w) && Enabled(w, step)
    ensures Sound(Next(w, step))
  {
    match step
    case Arrive(event) => DeliverKeeps(w.log, event);
    case Poll => ReceiveKeeps(w.log);
    case _ =>
  }

  /** No event is overlooked: a guest asleep without a notification has an empty mailbox. */
  lemma NoEventOverlooked(run: seq<Waiting>)
    requires IsRun(run)
    ensures forall i :: 0 <= i < |run| ==> Sound(run[i])
  {
    assert Sound(ASLEEP);
    hide Kept, Next;
    forall w, v | Sound(w) && Steps(w, v) ensures Sound(v) {
      var step :| Enabled(w, step) && v == Next(w, step);
      StepSound(w, step);
    }
    Runs.Invariant(run, ASLEEP, Steps, Sound);
  }
}
