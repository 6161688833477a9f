/**
  Guests with their configuration, mailbox and handle table in one state
  (src/helpers.rs:18-81, 149-204; src/runtime.rs:79-121, 216-218; src/protocol.rs:110-126).
  Every value a guest is handed comes from the checks that really guard it.
 */
module Guests {
  import opened Prelude
  import opened Json
  import opened JsonLimits
  import opened GuestHandles
  import Mailboxes
  import HostLedger
  import Runs

  const MAX_TOPIC: nat := 128

  datatype Guest = Guest(config: Value, mailbox: Mailboxes.Log, table: Table)

  datatype World = World(next: nat, guests: map<Bytes, Guest>)

  const START := World(1, map[])

  datatype Step =
    | Load(id: Bytes, config: Value)
    | Unload(id: Bytes)
    | Deliver(id: Bytes, event: Bytes, payload: Value, topic: Bytes)
    | ReadConfig(id: Bytes)
    | ReceiveEvent(id: Bytes)
    | ReceiveAnswer(id: Bytes, frame: Value)
    | Help(id: Bytes, op: Op)

  /** Helpers that bring in nothing but the guest's own arguments. */
  ghost predicate Own(op: Op) {
    !op.GetConfig? && !op.TakeEvent? && !op.TakeAnswer? && Admitted(op) && InputOrdered(op)
  }

  /** Values from outside are what the parser builds: objects in key order. */
  ghost predicate Enabled(w: World, step: Step) {
    match step
    case Load(id, config) => id !in w.guests && KeysOrdered(config)
    case Deliver(id, _, payload, _) => id in w.guests && w.guests[id].mailbox.Valid() && KeysOrdered(payload)
    case ReceiveEvent(id) => id in w.guests && w.guests[id].mailbox.Valid() && w.guests[id].mailbox.Pending() != []
    case ReceiveAnswer(id, frame) => id in w.guests && KeysOrdered(frame)
    case Help(id, op) => id in w.guests && Own(op)
    case Unload(id) => id in w.guests
    case ReadConfig(id) => id in w.guests
  }

  /** A helper of a guest, whose mailbox is left as given. */
  function Performed(w: World, id: Bytes, op: Op, mailbox: Mailboxes.Log): World
    requires id in w.guests
  {
    var g := w.guests[id];
    var r := Perform(g.table, w.next, op);
    World(r.next, w.guests[id := Guest(g.config, mailbox, r.table)])
  }

  /** `sf_event_next` takes the oldest event out of the mailbox, then asks for a handle. */
  function Received(w: World, id: Bytes): World
    requires id in w.guests && w.guests[id].mailbox.Valid() && w.guests[id].mailbox.Pending() != []
  {
    var log := w.guests[id].mailbox;
    Performed(w, id, TakeEvent(log.Pending()[0]), Mailboxes.AfterReceive(log))
  }

  ghost function Apply(w: World, step: Step): World
    requires Enabled(w, step)
  {
    match step
    case Load(id, config) =>
      if ValidValue(config) then w.(guests := w.guests[id := Guest(config, Mailboxes.FRESH, map[])]) else w
    case Unload(id) => w.(guests := w.guests - {id})
    case Deliver(id, event, payload, topic) =>
      var g := w.guests[id];
      if |topic| > MAX_TOPIC || !ValidValue(payload) then w
      else
        w.(guests := w.guests[id := g.(mailbox := Mailboxes.AfterDeliver(g.mailbox, Envelope(event, payload, topic)))])
    case ReadConfig(id) => Performed(w, id, GetConfig(w.guests[id].config), w.guests[id].mailbox)
    case ReceiveEvent(id) => Received(w, id)
    case ReceiveAnswer(id, frame) =>
      var answer := HostLedger.ResponseAnswer(frame);
      if answer.Value? then Performed(w, id, TakeAnswer(answer.value), w.guests[id].mailbox) else w
    case Help(id, op) => Performed(w, id, op, w.guests[id].mailbox)
  }

  /**
    A load is accepted exactly if its configuration is within the limits, and an event is
    passed on exactly if its topic has at most 128 bytes and its payload is within them.
   */
  lemma RequestsChecked(w: World, id: Bytes, config: Value, event: Bytes, payload: Value, topic: Bytes)
    ensures Enabled(w, Load(id, config)) ==>
      (id in Apply(w, Load(id, config)).guests <==> WithinLimits(config))
      && (WithinLimits(config) ==> Apply(w, Load(id, config)).guests[id] == Guest(config, Mailboxes.FRESH, map[]))
    ensures Enabled(w, Deliver(id, event, payload, topic)) ==>
      Apply(w, Deliver(id, event, payload, topic))
      == if |topic| <= 128 && WithinLimits(payload)
         then w.(guests := w.guests[id := w.guests[id].(mailbox := Mailboxes.AfterDeliver(w.guests[id].mailbox, Envelope(event, payload, topic)))])
         else w
  {
    hide Print, Nodes, Depth, KeysOrdered, Envelope, Mailboxes.AfterDeliver;
  }

  // ----- What every state keeps -----

  ghost predicate EventSound(e: Value) {
    exists id, payload, topic :: ValidValue(payload) && KeysOrdered(payload) && e == Envelope(id, payload, topic)
  }

  ghost predicate MailSound(log: Mailboxes.Log) {
    Mailboxes.Kept(log) && forall e :: e in log.accepted ==> EventSound(e)
  }

  ghost predicate GuestSound(g: Guest, next: nat) {
    && ValidValue(g.config) && KeysOrdered(g.config)
    && MailSound(g.mailbox)
    && TableSound(g.table, next) && TableOrdered(g.table)
  }

  predicate Holds(w: World, id: Bytes, h: nat) {
    id in w.guests && h in w.guests[id].table
  }

  /** Bounded tables of bounded, ordered values, and no handle in two of them. */
  ghost predicate Sound(w: World) {
    && 1 <= w.next <= I64_MAX
    && (forall id :: id in w.guests ==> GuestSound(w.guests[id], w.next))
    && Disjoint(w)
  }

  ghost predicate Disjoint(w: World) {
    forall a, b, h: nat :: Holds(w, a, h) && Holds(w, b, h) ==> a == b
  }

  lemma FewerDisjoint(w: World, v: World)
    requires Disjoint(w) && forall a, h: nat :: Holds(v, a, h) ==> Holds(w, a, h)
    ensures Disjoint(v)
  {
    hide Holds;
  }

  // ----- Values handed over are within their bounds -----

  /** An event taken from the mailbox is one that was admitted. */
  lemma ReceivedIsAdmitted(log: Mailboxes.Log)
    requires MailSound(log) && log.Pending() != []
    ensures Admitted(TakeEvent(log.Pending()[0])) && InputOrdered(TakeEvent(log.Pending()[0]))
  {
    var e := log.Pending()[0];
    assert e == log.accepted[log.taken] && Mailboxes.Acceptable(e) && EventSound(e);
    hide Print, ValidValue, KeysOrdered, Envelope, Mailboxes.Kept;
    var id, payload, topic :| ValidValue(payload) && KeysOrdered(payload) && e == Envelope(id, payload, topic);
    EnvelopeOrdered(id, payload, topic);
  }

  /** An answer is a valid value whatever the host replied. */
  lemma AnswerIsAdmitted(frame: Value)
    requires KeysOrdered(frame) && HostLedger.ResponseAnswer(frame).Value?
    ensures var op := TakeAnswer(HostLedger.ResponseAnswer(frame).value); Admitted(op) && InputOrdered(op)
  {
    hide KeysOrdered, Get, Print, Nodes, Depth;
    PartsOrdered(frame);
  }

  lemma DeliveredMailSound(log: Mailboxes.Log, event: Bytes, payload: Value, topic: Bytes)
    requires MailSound(log) && ValidValue(payload) && KeysOrdered(payload)
    ensures MailSound(Mailboxes.AfterDeliver(log, Envelope(event, payload, topic)))
  {
    hide ValidValue, KeysOrdered, Envelope, Mailboxes.Verdict, Mailboxes.Kept;
    assert log.Valid() by { Mailboxes.KeptValid(log); }
    Mailboxes.DeliverKeeps(log, Envelope(event, payload, topic));
    assert EventSound(Envelope(event, payload, topic));
  }

  lemma ReceivedMailSound(log: Mailboxes.Log)
    requires MailSound(log)
    ensures MailSound(Mailboxes.AfterReceive(log))
  {
    hide EventSound, Mailboxes.Kept;
    assert log.Valid() by { Mailboxes.KeptValid(log); }
    Mailboxes.ReceiveKeeps(log);
  }

  // ----- Steps -----

  lemma NextGrows(g: Guest, next: nat, later: nat)
    requires GuestSound(g, next) && next <= later <= I64_MAX
    ensures GuestSound(g, later)
  {
    hide MailSound, TableOrdered, ValidValue, KeysOrdered, Modest;
  }

  lemma PerformedSound(w: World, id: Bytes, op: Op, mailbox: Mailboxes.Log)
    requires Sound(w) && id in w.guests && Admitted(op) && InputOrdered(op) && MailSound(mailbox)
    ensures Sound(Performed(w, id, op, mailbox))
  {
    hide Perform, Admitted, InputOrdered, MailSound, TableOrdered, ValidValue, KeysOrdered, Modest;
    var t := w.guests[id].table;
    PerformSound(t, w.next, op);
    PerformOrdered(t, w.next, op);
    PerformTouches(t, w.next, op);
    var v := Performed(w, id, op, mailbox);
    forall other | other in w.guests && other != id ensures GuestSound(v.guests[other], v.next) {
      NextGrows(w.guests[other], w.next, v.next);
    }
    forall a, b, h: nat | Holds(v, a, h) && Holds(v, b, h) ensures a == b {
      assert a != id ==> Holds(w, a, h) && h < w.next;
      assert b != id ==> Holds(w, b, h) && h < w.next;
      assert h < w.next ==> (a == id ==> Holds(w, a, h)) && (b == id ==> Holds(w, b, h));
    }
  }

  lemma StepSound(w: World, step: Step)
    requires Sound(w) && Enabled(w, step)
    ensures Sound(Apply(w, step))
  {
    hide Sound, Perform, MailSound, ValidValue, Admitted, InputOrdered;
    match step
    case Load(id, config) => LoadSound(w, id, config);
    case Unload(id) => UnloadSound(w, id);
    case Deliver(id, event, payload, topic) => DeliverSound(w, id, event, payload, topic);
    case ReadConfig(id) =>
      GuestAt(w, id);
      PerformedSound(w, id, GetConfig(w.guests[id].config), w.guests[id].mailbox);
    case ReceiveEvent(id) =>
      GuestAt(w, id);
      ReceivedIsAdmitted(w.guests[id].mailbox);
      ReceivedMailSound(w.guests[id].mailbox);
      PerformedSound(w, id, TakeEvent(w.guests[id].mailbox.Pending()[0]), Mailboxes.AfterReceive(w.guests[id].mailbox));
    case ReceiveAnswer(id, frame) =>
      GuestAt(w, id);
      if HostLedger.ResponseAnswer(frame).Value? {
        AnswerIsAdmitted(frame);
        PerformedSound(w, id, TakeAnswer(HostLedger.ResponseAnswer(frame).value), w.guests[id].mailbox);
      }
    case Help(id, op) =>
      GuestAt(w, id);
      PerformedSound(w, id, op, w.guests[id].mailbox);
  }

  lemma GuestAt(w: World, id: Bytes)
    requires Sound(w) && id in w.guests
    ensures MailSound(w.guests[id].mailbox)
    ensures Admitted(GetConfig(w.guests[id].config)) && InputOrdered(GetConfig(w.guests[id].config))
  {
    hide MailSound, ValidValue, KeysOrdered;
  }

  lemma UnloadSound(w: World, id: Bytes)
    requires Sound(w) && id in w.guests
    ensures Sound(w.(guests := w.guests - {id}))
  {
    hide GuestSound;
    FewerDisjoint(w, w.(guests := w.guests - {id}));
  }

  lemma FreshMailSound()
    ensures MailSound(Mailboxes.FRESH)
  {
  }

  lemma LoadSound(w: World, id: Bytes, config: Value)
    requires Sound(w) && Enabled(w, Load(id, config))
    ensures Sound(Apply(w, Load(id, config)))
  {
    hide MailSound, ValidValue, KeysOrdered, Modest, Disjoint;
    FreshMailSound();
    FewerDisjoint(w, Apply(w, Load(id, config)));
  }

  lemma DeliverSound(w: World, id: Bytes, event: Bytes, payload: Value, topic: Bytes)
    requires Sound(w) && Enabled(w, Deliver(id, event, payload, topic))
    ensures Sound(Apply(w, Deliver(id, event, payload, topic)))
  {
    hide MailSound, TableSound, TableOrdered, ValidValue, KeysOrdered, Envelope, Mailboxes.AfterDeliver, Disjoint;
    FewerDisjoint(w, Apply(w, Deliver(id, event, payload, topic)));
    if ValidValue(payload) {
      DeliveredMailSound(w.guests[id].mailbox, event, payload, topic);
    }
  }

  ghost predicate Steps(w: World, v: World) {
    exists step :: Enabled(w, step) && v == Apply(w, step)
  }

  ghost predicate IsRun(run: seq<World>) {
    Runs.IsRun(run, START, Steps)
  }

  /** In every reachable state: bounded tables, bounded and ordered values, no shared handle. */
  lemma RunSound(run: seq<World>)
    requires IsRun(run)
    ensures forall i :: 0 <= i < |run| ==> Sound(run[i])
  {
    hide Sound, Apply, Enabled;
    StartSound();
    forall w, v | Sound(w) && Steps(w, v) ensures Sound(v) {
      var step :| Enabled(w, step) && v == Apply(w, step);
      StepSound(w, step);
    }
    Runs.Invariant(run, START, Steps, Sound);
  }

  lemma StartSound()
    ensures Sound(START)
  {
  }

  // ----- Handles are never used twice -----

  /** A handle a guest does not hold, once below the counter, is never given to it later. */
  ghost predicate Gone(w: World, id: Bytes, h: nat) {
    Sound(w) && h < w.next && !Holds(w, id, h)
  }

  lemma StepNeverRevives(w: World, step: Step, id: Bytes, h: nat)
    requires Gone(w, id, h) && Enabled(w, step)
    ensures Gone(Apply(w, step), id, h)
  {
    hide Sound, Apply, Enabled;
    StepSound(w, step);
    if step.Load? || step.Unload? || step.Deliver? {
      TablesAlone(w, step);
    } else {
      HelperGone(w, step, id, h);
    }
  }

  /** Loading, unloading and delivering give no guest a handle. */
  lemma TablesAlone(w: World, step: Step)
    requires Enabled(w, step) && (step.Load? || step.Unload? || step.Deliver?)
    ensures Apply(w, step).next == w.next
    ensures forall id, h: nat :: Holds(Apply(w, step), id, h) ==> Holds(w, id, h)
  {
    hide ValidValue, KeysOrdered, Envelope, Mailboxes.AfterDeliver;
  }

  lemma HelperGone(w: World, step: Step, id: Bytes, h: nat)
    requires Gone(w, id, h) && Enabled(w, step) && !step.Load? && !step.Unload? && !step.Deliver?
    ensures h < Apply(w, step).next && !Holds(Apply(w, step), id, h)
  {
    hide Gone, Performed, Holds, Own, KeysOrdered, HostLedger.ResponseAnswer, Mailboxes.AfterReceive;
    match step
    case ReadConfig(g) => PerformedGone(w, g, GetConfig(w.guests[g].config), w.guests[g].mailbox, id, h);
    case ReceiveEvent(g) =>
      var log := w.guests[g].mailbox;
      PerformedGone(w, g, TakeEvent(log.Pending()[0]), Mailboxes.AfterReceive(log), id, h);
    case ReceiveAnswer(g, frame) =>
      var answer := HostLedger.ResponseAnswer(frame);
      if answer.Value? {
        PerformedGone(w, g, TakeAnswer(answer.value), w.guests[g].mailbox, id, h);
      } else {
        GoneAlready(w, id, h);
      }
    case Help(g, op) => PerformedGone(w, g, op, w.guests[g].mailbox, id, h);
  }

  lemma GoneAlready(w: World, id: Bytes, h: nat)
    requires Gone(w, id, h)
    ensures h < w.next && !Holds(w, id, h)
  {
  }

  lemma PerformedGone(w: World, g: Bytes, op: Op, mailbox: Mailboxes.Log, id: Bytes, h: nat)
    requires Gone(w, id, h) && g in w.guests
    ensures var v := Performed(w, g, op, mailbox); h < v.next && !Holds(v, id, h)
  {
    hide Perform, Disjoint, MailSound, TableOrdered, ValidValue, KeysOrdered, Modest;
    assert GuestSound(w.guests[g], w.next);
    PerformTouches(w.guests[g].table, w.next, op);
  }

  /** A dropped or foreign handle is absent forever. */
  lemma NeverRevived(run: seq<World>, i: nat, j: nat, id: Bytes, h: nat)
    requires IsRun(run) && i <= j < |run| && h < run[i].next && !Holds(run[i], id, h)
    ensures h < run[j].next && !Holds(run[j], id, h)
  {
    RunSound(run);
    hide Sound, Apply, Enabled, Holds;
    forall k | i <= k < j && Gone(run[k], id, h) ensures Gone(run[k + 1], id, h) {
      assert Steps(run[k], run[k + 1]);
      var step :| Enabled(run[k], step) && run[k + 1] == Apply(run[k], step);
      StepNeverRevives(run[k], step, id, h);
    }
    Runs.Onward(run, w => Gone(w, id, h), i, j);
  }

  // ----- Events lost to a full table -----

  predicate NoRoom(w: World, id: Bytes)
    requires id in w.guests
  {
    |w.guests[id].table| >= MAX_HANDLES || w.next >= I64_MAX
  }

  /**
    A received event leaves the mailbox in any case. It ends in no table exactly when the
    guest's table is full or the counter used up; either way its ID is remembered, so
    that delivering it again is answered as a duplicate.
   */
  lemma EventLostExactly(w: World, id: Bytes)
    requires Sound(w) && Enabled(w, ReceiveEvent(id))
    ensures var log, v := w.guests[id].mailbox, Received(w, id);
      && v.guests[id].mailbox.Valid() && v.guests[id].mailbox.Pending() == log.Pending()[1..]
      && Mailboxes.Verdict(v.guests[id].mailbox, log.Pending()[0]) == Mailboxes.Duplicate
      && (v.guests[id].table == if NoRoom(w, id) then w.guests[id].table
                                else w.guests[id].table[w.next := Json(log.Pending()[0])])
      && ((forall a, h: nat :: Holds(v, a, h) ==> Holds(w, a, h)) <==> NoRoom(w, id))
  {
    hide Sound, Performed, Holds, NoRoom, MailSound, Mailboxes.Verdict, Mailboxes.Kept, Mailboxes.AfterReceive;
    var log := w.guests[id].mailbox;
    GuestAt(w, id);
    Remembered(log);
    TakenExactly(w, id, log.Pending()[0], Mailboxes.AfterReceive(log));
  }

  lemma TakenExactly(w: World, id: Bytes, e: Value, mailbox: Mailboxes.Log)
    requires Sound(w) && id in w.guests
    ensures var v := Performed(w, id, TakeEvent(e), mailbox);
      && id in v.guests && v.guests[id].mailbox == mailbox
      && (v.guests[id].table == if NoRoom(w, id) then w.guests[id].table else w.guests[id].table[w.next := Json(e)])
      && ((forall a, h: nat :: Holds(v, a, h) ==> Holds(w, a, h)) <==> NoRoom(w, id))
  {
    hide Disjoint, MailSound, TableOrdered, ValidValue, KeysOrdered, Modest;
    assert GuestSound(w.guests[id], w.next);
    var v := Performed(w, id, TakeEvent(e), mailbox);
    if !NoRoom(w, id) {
      assert Holds(v, id, w.next) && !Holds(w, id, w.next);
    }
  }

  lemma Remembered(log: Mailboxes.Log)
    requires MailSound(log) && log.Pending() != []
    ensures var after := Mailboxes.AfterReceive(log);
      && after.Valid() && after.Pending() == log.Pending()[1..]
      && Mailboxes.Verdict(after, log.Pending()[0]) == Mailboxes.Duplicate
  {
    hide Mailboxes.Verdict, EventSound;
    Mailboxes.ReceiveKeeps(log);
    Mailboxes.QueueIsTailOfWindow(log);
    Mailboxes.RemembersLong(log, log.taken, Mailboxes.AfterReceive(log));
  }

  /** A run that fills a guest's table with n nulls. */
  lemma {:induction false} Filled(id: Bytes, n: nat) returns (run: seq<World>, table: Table)
    requires n <= MAX_HANDLES
    ensures IsRun(run) && run[|run| - 1] == World(1 + n, map[id := Guest(Null, Mailboxes.FRESH, table)])
    ensures |table| == n && forall h :: h in table ==> h <= n && table[h] == Json(Null)
  {
    if n == 0 {
      table := map[];
      var loaded := World(1, map[id := Guest(Null, Mailboxes.FRESH, table)]);
      assert Enabled(START, Load(id, Null)) && Apply(START, Load(id, Null)) == loaded by { NullLoads(id); }
      run := [START, loaded];
      assert Steps(START, loaded);
    } else {
      var before, t := Filled(id, n - 1);
      var w, step := before[|before| - 1], Help(id, NewScalar(Null));
      table := t[n := Json(Null)];
      var after := World(1 + n, map[id := Guest(Null, Mailboxes.FRESH, table)]);
      assert Enabled(w, step) && Apply(w, step) == after;
      Runs.Extended(before, START, Steps, after);
      run := before + [after];
    }
  }

  lemma NullLoads(id: Bytes)
    ensures Enabled(START, Load(id, Null))
    ensures Apply(START, Load(id, Null)) == World(1, map[id := Guest(Null, Mailboxes.FRESH, map[])])
  {
  }

  /** A reachable loss: 128 handles are held when the event is received. */
  lemma LossHappens(id: Bytes) returns (run: seq<World>, before: World, after: World, event: Value)
    ensures IsRun(run) && |run| >= 2 && before == run[|run| - 2] && after == run[|run| - 1]
    ensures Enabled(before, ReceiveEvent(id)) && after == Apply(before, ReceiveEvent(id))
    ensures before.guests[id].mailbox.Pending() == [event] && NoRoom(before, id)
    ensures id in after.guests && after.guests[id].mailbox.Valid() && after.guests[id].mailbox.Pending() == []
    ensures forall h :: h in after.guests[id].table ==> after.guests[id].table[h] != Json(event)
    ensures Mailboxes.Verdict(after.guests[id].mailbox, event) == Mailboxes.Duplicate
  {
    var filled, table := Filled(id, MAX_HANDLES);
    event := Envelope([], Null, []);
    before, after := Holding(id, [event], 0, table), Holding(id, [event], 1, table);
    assert event.Object? by { EnvelopeIsObject([], Null, []); }
    hide Sound, Enabled, Apply, Envelope, Mailboxes.Verdict, Received, Holds, Holding, IsRun;
    FirstEventArrives(id, table);
    assert filled[|filled| - 1] == Holding(id, [], 0, table) by { HoldingFresh(id, table); }
    ReachedNext(filled, before);
    FullTableReceives(id, table, event);
    ReachedNext(filled + [before], after);
    run := (filled + [before]) + [after];
    SoundAt(run, |run| - 2);
    EventLostExactly(before, id);
    HoldsNoObject(table, event);
    HoldingIs(id, [event], 1, table);
  }

  /** A guest that was handed so many of its events and holds these handles. */
  function Holding(id: Bytes, events: seq<Value>, taken: nat, table: Table): World {
    World(1 + MAX_HANDLES, map[id := Guest(Null, Mailboxes.Log(events, taken), table)])
  }

  lemma HoldingFresh(id: Bytes, table: Table)
    ensures Holding(id, [], 0, table) == World(1 + MAX_HANDLES, map[id := Guest(Null, Mailboxes.FRESH, table)])
  {
  }

  lemma HoldingIs(id: Bytes, events: seq<Value>, taken: nat, table: Table)
    ensures var w := Holding(id, events, taken, table); id in w.guests && w.guests[id].table == table
  {
  }

  lemma HoldsNoObject(table: Table, event: Value)
    requires event.Object? && forall h :: h in table ==> table[h] == Json(Null)
    ensures forall h :: h in table ==> table[h] != Json(event)
  {
  }

  lemma ReachedNext(run: seq<World>, next: World)
    requires IsRun(run) && Steps(run[|run| - 1], next)
    ensures IsRun(run + [next])
  {
    hide Steps;
    Runs.Extended(run, START, Steps, next);
  }

  lemma SoundAt(run: seq<World>, i: nat)
    requires IsRun(run) && i < |run|
    ensures Sound(run[i])
  {
    RunSound(run);
  }

  lemma EnvelopeIsObject(id: Bytes, payload: Value, topic: Bytes)
    ensures Envelope(id, payload, topic).Object?
  {
    hide Ascii;
  }

  lemma FirstEventArrives(id: Bytes, table: Table)
    ensures var event := Envelope([], Null, []);
      Steps(Holding(id, [], 0, table), Holding(id, [event], 0, table))
  {
    EmptyEventAccepted();
    hide Envelope, Mailboxes.Verdict, ValidValue;
    var w, step, event := Holding(id, [], 0, table), Deliver(id, [], Null, []), Envelope([], Null, []);
    assert Mailboxes.FRESH.accepted + [event] == [event];
    assert Mailboxes.AfterDeliver(Mailboxes.FRESH, event) == Mailboxes.Log([event], 0);
    assert Enabled(w, step);
    assert Apply(w, step).guests == Holding(id, [event], 0, table).guests;
  }

  lemma FullTableReceives(id: Bytes, table: Table, event: Value)
    requires |table| == MAX_HANDLES
    ensures var before, after := Holding(id, [event], 0, table), Holding(id, [event], 1, table);
      && Enabled(before, ReceiveEvent(id)) && Apply(before, ReceiveEvent(id)) == after && Received(before, id) == after
      && Steps(before, after) && NoRoom(before, id)
      && before.guests[id].mailbox.Pending() == [event]
      && id in after.guests && after.guests[id].mailbox.Valid() && after.guests[id].mailbox.Pending() == []
  {
    var w := Holding(id, [event], 0, table);
    assert w.guests[id].mailbox.Pending() == [event];
    assert Received(w, id).guests == Holding(id, [event], 1, table).guests;
  }

  lemma EmptyEventAccepted()
    ensures Mailboxes.Verdict(Mailboxes.FRESH, Envelope([], Null, [])) == Mailboxes.Accepted
    ensures ValidValue(Null) && KeysOrdered(Null)
  {
    EnvelopePrints([], Null, []);
    assert Mailboxes.FRESH.Recent() == [] && Mailboxes.FRESH.Pending() == [];
  }
}
