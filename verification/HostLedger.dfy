/**
  Calls from guests to the host (src/host.rs): a table of pending calls, a guard per
  call, a router for responses, all sharing the outbox. The functions here are one
  synchronous block each; module HostCalls proves that the program's table follows them.
 */
module HostLedger {
  import opened Prelude
  import opened Json
  import opened OutboxModel
  import Conservation
  import JsonLimits
  import Runs

  const MAX_PENDING: nat := 16384

  // ----- Identifiers -----

  function CallId(session: Bytes, serial: nat): Id {
    Ascii("sf:") + session + [58] + Digits(serial)
  }

  /** The ID of one of the first `serial` calls of the session. */
  ghost predicate Issued(session: Bytes, serial: nat, id: Id) {
    exists k: nat :: 1 <= k <= serial && id == CallId(session, k)
  }

  lemma CallIdsDiffer(session: Bytes, m: nat, n: nat)
    requires CallId(session, m) == CallId(session, n)
    ensures m == n
  {
    var prefix := Ascii("sf:") + session + [58];
    assert CallId(session, m)[|prefix|..] == Digits(m);
    assert CallId(session, n)[|prefix|..] == Digits(n);
    DigitsInjective(m, n);
  }

  // ----- State -----

  /** What a finished call returns to the guest. */
  datatype Answer = Value(value: Json.Value) | Status(code: int)

  /** The part of a call's future that outlives its registration: its guard and receiver. */
  datatype Call = Call(owner: Id, frame: Frame, sent: bool, answer: Option<Answer>)

  datatype Host = Host(pending: map<Id, Id>, serial: nat, ignored: nat, q: Queues)

  /**
    `calls` holds the calls whose guard is alive and `wire` the frames already handed to
    the writer. The counters say how entries left the pending table.
   */
  datatype Ledger = Ledger(
    host: Host, calls: map<Id, Call>, wire: seq<Frame>, answered: nat, dropped: nat, cancelled: nat)

  const START := Ledger(Host(map[], 0, 0, EMPTY), map[], [], 0, 0, 0)

  function CancelNotice(id: Id): Json.Value {
    Object([
      Member(Ascii("jsonrpc"), String(Ascii("2.0"))),
      Member(Ascii("method"), String(Ascii("host.cancel"))),
      Member(Ascii("params"), Object([Member(Ascii("id"), String(id))]))])
  }

  function CancelFrame(id: Id): Frame {
    Frame(Print(CancelNotice(id)) + [NEWLINE], HostCancel(id))
  }

  // ----- The table -----

  predicate CanRegister(h: Host) {
    |h.pending| < MAX_PENDING && h.serial < U64_MAX
  }

  function Register(h: Host, session: Bytes, owner: Id): Host {
    if CanRegister(h) then
      h.(serial := h.serial + 1, pending := h.pending[CallId(session, h.serial + 1) := owner])
    else h
  }

  /** The guard's drop: the queued request goes, and a sent pending call is cancelled. */
  function DropGuard(h: Host, id: Id, owner: Id, sent: bool): Host {
    var removed := h.(q := RemoveRequest(h.q, owner, id), pending := h.pending - {id});
    if id in h.pending && sent then removed.(q := PushControl(removed.q, CancelFrame(id))) else removed
  }

  /** The string ID of a response frame. */
  function ResponseId(frame: Json.Value): Option<Id> {
    match Get(frame, Ascii("id"))
    case Some(String(id)) => Some(id)
    case _ => None
  }

  /** What a response frame says: a bounded result, or a status. */
  function ResponseAnswer(frame: Json.Value): Answer {
    var result := Get(frame, Ascii("result"));
    if result.Some? && Get(frame, Ascii("error")).None? then
      if JsonLimits.ValidValue(result.value) then Value(result.value) else Status(LIMIT)
    else Status(HOST_ERROR)
  }

  predicate Routable(h: Host, frame: Json.Value) {
    ResponseId(frame).Some? && ResponseId(frame).value in h.pending
  }

  function Respond(h: Host, frame: Json.Value): Host {
    if Routable(h, frame) then h.(pending := h.pending - {ResponseId(frame).value})
    else h.(ignored := Saturated(h.ignored))
  }

  /** `cancel_object` after it has listed the object's pending calls in some order. */
  function CancelAll(h: Host, ids: seq<Id>): (r: Host)
    ensures |r.pending| <= |h.pending|
    decreases ids
  {
    if ids == [] then h else CancelAll(CancelIfPending(h, ids[0]), ids[1..])
  }

  function CancelIfPending(h: Host, id: Id): (r: Host)
    ensures |r.pending| <= |h.pending|
  {
    if id in h.pending then
      RemoveOne(h.pending, id);
      h.(pending := h.pending - {id}, q := PushControl(h.q, CancelFrame(id)))
    else h
  }

  /** A listing of exactly the object's pending calls. */
  ghost predicate Lists(h: Host, owner: Id, ids: seq<Id>) {
    Distinct(ids) && forall id :: id in ids <==> id in h.pending && h.pending[id] == owner
  }

  // ----- Steps -----

  datatype Step =
    | Begin(owner: Id, bytes: Bytes)
    | Push(id: Id)
    | End(id: Id)
    | Response(frame: Json.Value)
    | CancelObject(owner: Id, ids: seq<Id>)
    | RemoveObject(owner: Id)
    | Notify(bytes: Bytes)
    | Log(owner: Id, bytes: Bytes)
    | Emit
    | Close

  ghost predicate NoCallsOf(l: Ledger, owner: Id) {
    forall id :: id in l.calls ==> l.calls[id].owner != owner
  }

  /**
    The task of an object drops the run future, and with it every guard of the object,
    before it cancels the object's calls (src/runtime.rs:308-335).
   */
  ghost predicate Enabled(l: Ledger, step: Step) {
    match step
    case Push(id) => id in l.calls && !l.calls[id].sent
    case End(id) => id in l.calls
    case CancelObject(owner, ids) => Lists(l.host, owner, ids) && NoCallsOf(l, owner)
    case _ => true
  }

  function BeginCall(l: Ledger, session: Bytes, owner: Id, bytes: Bytes): Ledger {
    if CanRegister(l.host) then
      var id := CallId(session, l.host.serial + 1);
      l.(host := Register(l.host, session, owner),
         calls := l.calls[id := Call(owner, Frame(bytes, HostCall(id)), false, None)])
    else l
  }

  function Answered(l: Ledger, frame: Json.Value): Ledger {
    var id := ResponseId(frame);
    l.(host := Respond(l.host, frame),
       calls := if Routable(l.host, frame) && id.value in l.calls
                then l.calls[id.value := l.calls[id.value].(answer := Some(ResponseAnswer(frame)))]
                else l.calls,
       answered := l.answered + if Routable(l.host, frame) then 1 else 0)
  }

  function LogFrame(l: Ledger, owner: Id, bytes: Bytes): Ledger {
    l.(host := l.host.(q := PushData(l.host.q, owner, Frame(bytes, Other))))
  }

  function CloseOutput(l: Ledger): Ledger {
    l.(host := l.host.(q := OutboxModel.Close(l.host.q)))
  }

  function EmitNext(l: Ledger): Ledger {
    l.(host := l.host.(q := AfterNext(l.host.q)),
       wire := l.wire + match Output(l.host.q) case Some(e) => [e.frame] case None => [])
  }

  function PushCall(l: Ledger, id: Id): Ledger
    requires id in l.calls
  {
    var call := l.calls[id];
    if Fits(l.host.q, call.owner, |call.frame.bytes|) then
      l.(host := l.host.(q := PushData(l.host.q, call.owner, call.frame)), calls := l.calls[id := call.(sent := true)])
    else l
  }

  function EndCall(l: Ledger, id: Id): Ledger
    requires id in l.calls
  {
    var call := l.calls[id];
    l.(host := DropGuard(l.host, id, call.owner, call.sent),
       calls := l.calls - {id},
       dropped := l.dropped + if id in l.host.pending then 1 else 0)
  }

  function CancelCalls(l: Ledger, ids: seq<Id>): Ledger {
    l.(host := CancelAll(l.host, ids), cancelled := l.cancelled + |l.host.pending| - |CancelAll(l.host, ids).pending|)
  }

  ghost function Apply(l: Ledger, session: Bytes, step: Step): Ledger
    requires Enabled(l, step)
  {
    match step
    case Begin(owner, bytes) => BeginCall(l, session, owner, bytes)
    case Push(id) => PushCall(l, id)
    case End(id) => EndCall(l, id)
    case Response(frame) => Answered(l, frame)
    case CancelObject(owner, ids) => CancelCalls(l, ids)
    case RemoveObject(owner) => l.(host := l.host.(q := OutboxModel.RemoveObject(l.host.q, owner)))
    case Notify(bytes) => l.(host := l.host.(q := PushControl(l.host.q, Frame(bytes, Other))))
    case Log(owner, bytes) => LogFrame(l, owner, bytes)
    case Emit => EmitNext(l)
    case Close => CloseOutput(l)
  }

  // ----- What every state keeps -----

  predicate IsCall(f: Frame, id: Id) {
    f.subject == HostCall(id)
  }

  /** A queued data frame that asks the host for something belongs to a live, sent call. */
  predicate Backed(calls: map<Id, Call>, owner: Id, f: Frame) {
    match f.subject
    case HostCall(id) => id in calls && calls[id].sent && calls[id].owner == owner
    case HostCancel(_) => false
    case Other => true
  }

  ghost predicate QueuesBacked(q: Queues, calls: map<Id, Call>) {
    forall o: Id, f: Frame :: f in FramesOf(q, o) ==> Backed(calls, o, f)
  }

  /** Each pending call has a live guard, and every live call was issued in this session. */
  ghost predicate TableSound(pending: map<Id, Id>, calls: map<Id, Call>, serial: nat, session: Bytes) {
    && |pending| <= MAX_PENDING
    && (forall id :: id in pending ==> id in calls && calls[id].owner == pending[id])
    && (forall id :: id in calls ==> Issued(session, serial, id) && IsCall(calls[id].frame, id))
  }

  /** Every entry left the pending table exactly once, or is still there. */
  predicate Counted(l: Ledger) {
    l.host.serial == |l.host.pending| + l.answered + l.dropped + l.cancelled
  }

  /** Control frames on the wire and queued, in the order they leave. */
  function Outgoing(l: Ledger): seq<Frame> {
    l.wire + l.host.q.control
  }

  /** No call is cancelled twice. */
  ghost predicate CancelsOnce(frames: seq<Frame>) {
    forall i, j :: 0 <= i < j < |frames| && frames[i].subject.HostCancel? ==> frames[j].subject != frames[i].subject
  }

  /** Cancels name calls that were issued and have ended. */
  ghost predicate CancelsSound(frames: seq<Frame>, calls: map<Id, Call>, serial: nat, session: Bytes) {
    && CancelsOnce(frames)
    && forall f :: f in frames && f.subject.HostCancel? ==>
         f.subject.id !in calls && Issued(session, serial, f.subject.id)
  }

  ghost predicate NoCalls(frames: seq<Frame>) {
    forall f :: f in frames ==> !f.subject.HostCall?
  }

  /** On the wire each call is cancelled at most once and never follows its own cancel. */
  ghost predicate WireOrdered(wire: seq<Frame>) {
    forall i, j :: 0 <= i < j < |wire| && wire[i].subject.HostCancel? ==>
      wire[j].subject != wire[i].subject && wire[j].subject != HostCall(wire[i].subject.id)
  }

  ghost predicate Inv(l: Ledger, session: Bytes) {
    && WellFormed(l.host.q)
    && TableSound(l.host.pending, l.calls, l.host.serial, session)
    && Counted(l)
    && QueuesBacked(l.host.q, l.calls)
    && CancelsSound(Outgoing(l), l.calls, l.host.serial, session)
    && NoCalls(l.host.q.control)
    && WireOrdered(l.wire)
  }

  lemma NoFrames()
    ensures forall o :: FramesOf(EMPTY, o) == []
  {
  }

  lemma NoCancels()
    ensures CancelsOnce([])
  {
  }

  lemma StartSound(session: Bytes)
    ensures Inv(START, session)
  {
    hide FramesOf, Issued, CancelsOnce;
    assert QueuesBacked(EMPTY, map[]) by { NoFrames(); }
    assert Outgoing(START) == [];
    assert CancelsOnce([]) by { NoCancels(); }
  }

  // ----- Queues -----

  lemma BackedLanes(q: Queues, r: Queues, calls: map<Id, Call>)
    requires QueuesBacked(q, calls) && r.lanes == q.lanes
    ensures QueuesBacked(r, calls)
  {
    assert forall o :: FramesOf(r, o) == FramesOf(q, o);
  }

  lemma BackedPush(q: Queues, calls: map<Id, Call>, owner: Id, frame: Frame)
    requires WellFormed(q) && QueuesBacked(q, calls) && Backed(calls, owner, frame)
    ensures QueuesBacked(PushData(q, owner, frame), calls)
  {
    forall o, f | f in FramesOf(PushData(q, owner, frame), o) ensures Backed(calls, o, f) {
      Conservation.FramesAfterPush(q, owner, frame, o);
      assert f in FramesOf(q, o) || (f == frame && o == owner);
    }
  }

  lemma BackedRelease(q: Queues, calls: map<Id, Call>, id: Id)
    requires WellFormed(q) && QueuesBacked(q, calls) && id in calls
    ensures QueuesBacked(RemoveRequest(q, calls[id].owner, id), calls - {id})
    ensures forall o, f :: f in FramesOf(RemoveRequest(q, calls[id].owner, id), o) ==> !IsCall(f, id)
  {
    var owner := calls[id].owner;
    forall o, f | f in FramesOf(RemoveRequest(q, owner, id), o) ensures Backed(calls - {id}, o, f) && !IsCall(f, id) {
      Conservation.FramesAfter(q, DropRequest(owner, id), o);
      UnrelatedSize(FramesOf(q, o), id);
      assert f in FramesOf(q, o);
    }
  }

  lemma BackedRemove(q: Queues, calls: map<Id, Call>, owner: Id)
    requires WellFormed(q) && QueuesBacked(q, calls)
    ensures QueuesBacked(OutboxModel.RemoveObject(q, owner), calls)
    ensures FramesOf(OutboxModel.RemoveObject(q, owner), owner) == []
  {
    Conservation.FramesAfter(q, DropObject(owner), owner);
    forall o, f | f in FramesOf(OutboxModel.RemoveObject(q, owner), o) ensures Backed(calls, o, f) {
      Conservation.FramesAfter(q, DropObject(owner), o);
      assert f in FramesOf(q, o);
    }
  }

  lemma BackedNext(q: Queues, calls: map<Id, Call>)
    requires WellFormed(q) && QueuesBacked(q, calls)
    ensures QueuesBacked(AfterNext(q), calls)
    ensures LaneTurn(q) ==> Backed(calls, q.lanes[0].owner, q.lanes[0].frames[0])
  {
    if LaneTurn(q) {
      assert q.lanes[0].frames[0] in FramesOf(q, q.lanes[0].owner);
    }
    forall o, f | f in FramesOf(AfterNext(q), o) ensures Backed(calls, o, f) {
      Conservation.FramesAfter(q, Next, o);
      assert f in FramesOf(q, o);
    }
  }

  // ----- Cancels and the wire -----

  lemma OnceMore(frames: seq<Frame>, f: Frame)
    requires CancelsOnce(frames)
    requires f.subject.HostCancel? ==> forall g :: g in frames ==> g.subject != f.subject
    ensures CancelsOnce(frames + [f])
  {
    var longer := frames + [f];
    forall i, j | 0 <= i < j < |longer| && longer[i].subject.HostCancel?
      ensures longer[j].subject != longer[i].subject
    {
      assert frames[i] in frames;
    }
  }

  lemma OnceBetween(a: seq<Frame>, f: Frame, b: seq<Frame>)
    requires CancelsOnce(a + b) && !f.subject.HostCancel?
    ensures CancelsOnce((a + [f]) + b)
  {
    var all, without := (a + [f]) + b, a + b;
    forall i, j | 0 <= i < j < |all| && all[i].subject.HostCancel?
      ensures all[j].subject != all[i].subject
    {
      var x := if i < |a| then i else i - 1;
      assert all[i] == without[x];
      if j != |a| {
        assert all[j] == without[if j < |a| then j else j - 1];
      }
    }
  }

  lemma WireGrows(wire: seq<Frame>, f: Frame)
    requires WireOrdered(wire)
    requires forall g :: g in wire && g.subject.HostCancel? ==> f.subject != g.subject && !IsCall(f, g.subject.id)
    ensures WireOrdered(wire + [f])
  {
    var longer := wire + [f];
    forall i, j | 0 <= i < j < |longer| && longer[i].subject.HostCancel?
      ensures longer[j].subject != longer[i].subject && longer[j].subject != HostCall(longer[i].subject.id)
    {
      assert wire[i] in wire;
    }
  }

  /** The next control frame on the wire is no repeated cancel. */
  lemma ControlFollowsWire(wire: seq<Frame>, control: seq<Frame>)
    requires CancelsOnce(wire + control) && NoCalls(control) && control != [] && WireOrdered(wire)
    ensures WireOrdered(wire + [control[0]])
  {
    var all, f := wire + control, control[0];
    assert all[|wire|] == f;
    forall g | g in wire && g.subject.HostCancel? ensures f.subject != g.subject {
      var i :| 0 <= i < |wire| && wire[i] == g;
      assert all[i] == g;
    }
    WireGrows(wire, f);
  }

  /** A live call's frame on the wire follows no cancel of that call. */
  lemma CallFollowsWire(wire: seq<Frame>, control: seq<Frame>, f: Frame, calls: map<Id, Call>, serial: nat, session: Bytes)
    requires CancelsSound(wire + control, calls, serial, session) && WireOrdered(wire)
    requires !f.subject.HostCancel? && (f.subject.HostCall? ==> f.subject.id in calls)
    ensures WireOrdered(wire + [f])
    ensures CancelsSound((wire + [f]) + control, calls, serial, session)
  {
    forall g | g in wire && g.subject.HostCancel? ensures f.subject != g.subject && !IsCall(f, g.subject.id) {
      assert g in wire + control;
    }
    WireGrows(wire, f);
    OnceBetween(wire, f, control);
    assert forall g :: g in (wire + [f]) + control ==> g == f || g in wire + control;
  }

  // ----- Steps that touch the table -----

  lemma NextIdIsNew(session: Bytes, serial: nat)
    ensures !Issued(session, serial, CallId(session, serial + 1))
    ensures forall id :: Issued(session, serial, id) ==> Issued(session, serial + 1, id)
    ensures Issued(session, serial + 1, CallId(session, serial + 1))
  {
    forall k: nat | 1 <= k <= serial ensures CallId(session, k) != CallId(session, serial + 1) {
      if CallId(session, k) == CallId(session, serial + 1) {
        CallIdsDiffer(session, k, serial + 1);
      }
    }
  }

  /** A new call with a new ID. */
  lemma Registered(l: Ledger, session: Bytes, owner: Id, call: Call)
    requires Inv(l, session) && CanRegister(l.host)
    requires call.owner == owner && IsCall(call.frame, CallId(session, l.host.serial + 1))
    ensures var id := CallId(session, l.host.serial + 1);
      && id !in l.calls && id !in l.host.pending
      && TableSound(l.host.pending[id := owner], l.calls[id := call], l.host.serial + 1, session)
      && QueuesBacked(l.host.q, l.calls[id := call])
      && CancelsSound(Outgoing(l), l.calls[id := call], l.host.serial + 1, session)
  {
    hide WellFormed, CallId, Issued, CancelsOnce, WireOrdered, NoCalls, FramesOf, Outgoing;
    NextIdIsNew(session, l.host.serial);
  }

  lemma BeginKeeps(l: Ledger, session: Bytes, owner: Id, bytes: Bytes)
    requires Inv(l, session)
    ensures Inv(Apply(l, session, Begin(owner, bytes)), session)
  {
    hide WellFormed, CallId, TableSound, QueuesBacked, CancelsSound, WireOrdered, NoCalls;
    if CanRegister(l.host) {
      var id := CallId(session, l.host.serial + 1);
      Registered(l, session, owner, Call(owner, Frame(bytes, HostCall(id)), false, None));
      assert Outgoing(Apply(l, session, Begin(owner, bytes))) == Outgoing(l);
    }
  }

  lemma RemoveOne(m: map<Id, Id>, id: Id)
    ensures |m - {id}| == |m| - if id in m then 1 else 0
  {
    assert (m - {id}).Keys == m.Keys - {id};
    assert |(m - {id}).Keys| == |m.Keys| - if id in m then 1 else 0;
  }

  /** A live call changes without changing hands. */
  lemma Updated(l: Ledger, session: Bytes, id: Id, call: Call)
    requires Inv(l, session) && id in l.calls
    requires call.owner == l.calls[id].owner && call.frame == l.calls[id].frame && (l.calls[id].sent ==> call.sent)
    ensures TableSound(l.host.pending, l.calls[id := call], l.host.serial, session)
    ensures QueuesBacked(l.host.q, l.calls[id := call])
    ensures CancelsSound(Outgoing(l), l.calls[id := call], l.host.serial, session)
  {
    hide WellFormed, CancelsOnce, WireOrdered, NoCalls, FramesOf, Issued, Outgoing;
  }

  lemma ResponseKeeps(l: Ledger, session: Bytes, frame: Json.Value)
    requires Inv(l, session)
    ensures Inv(Apply(l, session, Response(frame)), session)
  {
    hide Inv, ResponseAnswer, ResponseId;
    if Routable(l.host, frame) {
      PendingIsLive(l, session, frame);
      AnswerKeeps(l, session, ResponseId(frame).value, ResponseAnswer(frame));
    } else {
      IgnoredKeeps(l, session);
    }
  }

  lemma AnswerKeeps(l: Ledger, session: Bytes, id: Id, answer: Answer)
    requires Inv(l, session) && id in l.host.pending && id in l.calls
    ensures Inv(l.(host := l.host.(pending := l.host.pending - {id}),
                   calls := l.calls[id := l.calls[id].(answer := Some(answer))],
                   answered := l.answered + 1), session)
  {
    hide WellFormed, WireOrdered, CancelsSound, NoCalls, QueuesBacked, TableSound;
    var calls := l.calls[id := l.calls[id].(answer := Some(answer))];
    Updated(l, session, id, calls[id]);
    StillPending(l.host.pending, calls, l.host.serial, session, id);
  }

  lemma StillPending(pending: map<Id, Id>, calls: map<Id, Call>, serial: nat, session: Bytes, id: Id)
    requires TableSound(pending, calls, serial, session) && id in pending
    ensures TableSound(pending - {id}, calls, serial, session) && |pending - {id}| == |pending| - 1
  {
    hide Issued, IsCall;
    RemoveOne(pending, id);
  }

  lemma IgnoredKeeps(l: Ledger, session: Bytes)
    requires Inv(l, session)
    ensures Inv(l.(host := l.host.(ignored := Saturated(l.host.ignored))), session)
  {
    hide WellFormed, WireOrdered, CancelsSound, NoCalls, QueuesBacked, TableSound;
  }

  /**
    A response resolves exactly the live call that waits under its ID, once, or counts
    as ignored and changes nothing else.
   */
  lemma ResponseExactly(l: Ledger, session: Bytes, frame: Json.Value)
    requires Inv(l, session)
    ensures var next := Apply(l, session, Response(frame));
      if Routable(l.host, frame) then
        var id := ResponseId(frame).value;
        && id in l.calls
        && next.calls == l.calls[id := l.calls[id].(answer := Some(ResponseAnswer(frame)))]
        && next.host == l.host.(pending := l.host.pending - {id})
        && next.wire == l.wire
        && !Routable(next.host, frame)
      else
        next == l.(host := l.host.(ignored := Saturated(l.host.ignored)))
  {
    hide WellFormed, WireOrdered, CancelsOnce, NoCalls, Issued, ResponseAnswer, ResponseId, FramesOf;
  }

  /** A response never meets a call that has ended: what is pending is live, and its owner's. */
  lemma PendingIsLive(l: Ledger, session: Bytes, frame: Json.Value)
    requires Inv(l, session) && Routable(l.host, frame)
    ensures var id := ResponseId(frame).value; id in l.calls && l.calls[id].owner == l.host.pending[id]
  {
    hide Issued, WellFormed, CancelsSound, WireOrdered, QueuesBacked;
  }

  /** A repeated response changes nothing but the ignored count. */
  lemma SecondAnswerIgnored(l: Ledger, frame: Json.Value)
    ensures var once := Answered(l, frame);
      Answered(once, frame) == once.(host := once.host.(ignored := Saturated(once.host.ignored)))
  {
    hide ResponseAnswer, Get;
  }

  /** No pending call belongs to an object without live calls. */
  lemma NonePending(l: Ledger, session: Bytes, owner: Id)
    requires Inv(l, session) && NoCallsOf(l, owner)
    ensures forall id :: id in l.host.pending ==> l.host.pending[id] != owner
  {
    hide WellFormed, WireOrdered, CancelsSound, NoCalls, Issued, QueuesBacked;
  }

  lemma HeadIn<T>(s: seq<T>)
    requires s != []
    ensures s[0] in s
  {
  }

  /** By the time an object's calls are cancelled none is pending any more. */
  lemma CancelFindsNothing(l: Ledger, session: Bytes, owner: Id, ids: seq<Id>)
    requires Inv(l, session) && Enabled(l, CancelObject(owner, ids))
    ensures ids == [] && CancelCalls(l, ids) == l
  {
    hide Inv, NoCallsOf;
    NonePending(l, session, owner);
    NothingListed(l.host, owner, ids);
  }

  lemma NothingListed(h: Host, owner: Id, ids: seq<Id>)
    requires Lists(h, owner, ids) && forall id :: id in h.pending ==> h.pending[id] != owner
    ensures ids == []
  {
    hide Distinct;
    if ids != [] {
      HeadIn(ids);
      assert false;
    }
  }

  // ----- Steps that touch the queues -----

  lemma PushCallKeeps(l: Ledger, session: Bytes, id: Id)
    requires Inv(l, session) && Enabled(l, Push(id))
    ensures Inv(PushCall(l, id), session)
  {
    hide WellFormed, WireOrdered, CancelsSound, TableSound, QueuesBacked, NoCalls, Fits, LaneIndex;
    var call := l.calls[id];
    Updated(l, session, id, call.(sent := true));
    SentIsBacked(l, session, id);
    PushDataKeeps(l.host.q, call.owner, call.frame);
    BackedPush(l.host.q, l.calls[id := call.(sent := true)], call.owner, call.frame);
    assert PushData(l.host.q, call.owner, call.frame).control == l.host.q.control;
    assert Outgoing(PushCall(l, id)) == Outgoing(l);
  }

  lemma SentIsBacked(l: Ledger, session: Bytes, id: Id)
    requires Inv(l, session) && id in l.calls
    ensures Backed(l.calls[id := l.calls[id].(sent := true)], l.calls[id].owner, l.calls[id].frame)
  {
    hide WellFormed, WireOrdered, CancelsSound, QueuesBacked, NoCalls, Issued;
  }

  lemma LogKeeps(l: Ledger, session: Bytes, owner: Id, bytes: Bytes)
    requires Inv(l, session)
    ensures Inv(Apply(l, session, Log(owner, bytes)), session)
  {
    hide WellFormed, WireOrdered, CancelsSound, NoCalls, TableSound, QueuesBacked, Fits, LaneIndex;
    PushDataKeeps(l.host.q, owner, Frame(bytes, Other));
    BackedPush(l.host.q, l.calls, owner, Frame(bytes, Other));
    assert PushData(l.host.q, owner, Frame(bytes, Other)).control == l.host.q.control;
    assert Outgoing(Apply(l, session, Log(owner, bytes))) == Outgoing(l);
  }

  /** A control frame about an ended call, or about nothing in particular, may be queued. */
  lemma ControlKeeps(l: Ledger, session: Bytes, f: Frame)
    requires Inv(l, session) && !f.subject.HostCall?
    requires f.subject.HostCancel? ==>
      && f.subject.id !in l.calls && Issued(session, l.host.serial, f.subject.id)
      && forall g :: g in Outgoing(l) ==> g.subject != f.subject
    ensures Inv(l.(host := l.host.(q := PushControl(l.host.q, f))), session)
  {
    hide WellFormed, WireOrdered, TableSound, QueuesBacked, CancelsSound, NoCalls, Issued;
    var next := l.(host := l.host.(q := PushControl(l.host.q, f)));
    ApplyKeeps(l.host.q, AddControl(f));
    assert OutboxModel.Apply(l.host.q, AddControl(f)) == next.host.q;
    BackedLanes(l.host.q, next.host.q, l.calls);
    if ControlFits(l.host.q) {
      OneMoreControl(Outgoing(l), l.host.q.control, f, l.calls, l.host.serial, session);
      assert Outgoing(next) == Outgoing(l) + [f] by { Assoc(l.wire, l.host.q.control, [f]); }
    }
  }

  lemma OneMoreControl(outgoing: seq<Frame>, control: seq<Frame>, f: Frame, calls: map<Id, Call>, serial: nat, session: Bytes)
    requires CancelsSound(outgoing, calls, serial, session) && NoCalls(control) && !f.subject.HostCall?
    requires f.subject.HostCancel? ==>
      && f.subject.id !in calls && Issued(session, serial, f.subject.id)
      && forall g :: g in outgoing ==> g.subject != f.subject
    ensures CancelsSound(outgoing + [f], calls, serial, session) && NoCalls(control + [f])
  {
    OnceMore(outgoing, f);
    hide CancelsOnce, Issued;
  }

  /** Ending a call leaves no trace of it in the table, among the live calls or in any queue. */
  ghost predicate Forgotten(l: Ledger, id: Id) {
    && id !in l.host.pending
    && id !in l.calls
    && forall o, f :: f in FramesOf(l.host.q, o) ==> !IsCall(f, id)
  }

  /** The guard's drop before its notice is queued. */
  function Released(l: Ledger, id: Id): Ledger
    requires id in l.calls
  {
    l.(host := l.host.(q := OutboxModel.RemoveRequest(l.host.q, l.calls[id].owner, id), pending := l.host.pending - {id}),
       calls := l.calls - {id},
       dropped := l.dropped + if id in l.host.pending then 1 else 0)
  }

  lemma ReleasedTable(pending: map<Id, Id>, calls: map<Id, Call>, serial: nat, session: Bytes, id: Id)
    requires TableSound(pending, calls, serial, session) && id in calls
    ensures TableSound(pending - {id}, calls - {id}, serial, session)
    ensures Issued(session, serial, id)
  {
    hide Issued, IsCall;
    RemoveOne(pending, id);
    var p, c := pending - {id}, calls - {id};
    forall x | x in p ensures x in c && c[x].owner == p[x] {
      assert x in pending && p[x] == pending[x] && c[x] == calls[x];
    }
    forall x | x in c ensures Issued(session, serial, x) && IsCall(c[x].frame, x) {
      assert x in calls && c[x] == calls[x];
    }
  }

  lemma ReleasedCancels(frames: seq<Frame>, calls: map<Id, Call>, serial: nat, session: Bytes, id: Id)
    requires CancelsSound(frames, calls, serial, session) && id in calls
    ensures CancelsSound(frames, calls - {id}, serial, session)
    ensures forall g :: g in frames ==> g.subject != HostCancel(id)
  {
    hide CancelsOnce, Issued;
  }

  lemma ReleasedKeeps(l: Ledger, session: Bytes, id: Id)
    requires Inv(l, session) && id in l.calls
    ensures Inv(Released(l, id), session) && Forgotten(Released(l, id), id)
    ensures Outgoing(Released(l, id)) == Outgoing(l)
  {
    hide WellFormed, WireOrdered, QueuesBacked, CancelsSound, TableSound, NoCalls, LaneIndex, FramesOf;
    RemoveRequestKeeps(l.host.q, l.calls[id].owner, id);
    RemoveOne(l.host.pending, id);
    BackedRelease(l.host.q, l.calls, id);
    ReleasedTable(l.host.pending, l.calls, l.host.serial, session, id);
    ReleasedCancels(Outgoing(l), l.calls, l.host.serial, session, id);
    assert RemoveRequest(l.host.q, l.calls[id].owner, id).control == l.host.q.control;
  }

  lemma EndKeeps(l: Ledger, session: Bytes, id: Id)
    requires Inv(l, session) && id in l.calls
    ensures Inv(EndCall(l, id), session) && Forgotten(EndCall(l, id), id)
  {
    var next := Released(l, id);
    hide WellFormed, WireOrdered, CancelsSound, TableSound, QueuesBacked, NoCalls, RemoveRequest, Issued, LaneIndex;
    ReleasedKeeps(l, session, id);
    ReleasedTable(l.host.pending, l.calls, l.host.serial, session, id);
    ReleasedCancels(Outgoing(l), l.calls, l.host.serial, session, id);
    if id in l.host.pending && l.calls[id].sent {
      ControlKeeps(next, session, CancelFrame(id));
      assert EndCall(l, id) == next.(host := next.host.(q := PushControl(next.host.q, CancelFrame(id))));
    } else {
      assert EndCall(l, id) == next;
    }
  }

  lemma SameControl(q: Queues, owner: Id)
    ensures var r := OutboxModel.RemoveObject(q, owner); r.control == q.control && r.closed == q.closed
  {
  }

  lemma RemoveObjectKeepsInv(l: Ledger, session: Bytes, owner: Id)
    requires Inv(l, session)
    ensures Inv(Apply(l, session, RemoveObject(owner)), session)
    ensures FramesOf(OutboxModel.RemoveObject(l.host.q, owner), owner) == []
  {
    hide WellFormed, WireOrdered, CancelsSound, TableSound, QueuesBacked, NoCalls, LaneIndex, OutboxModel.RemoveObject;
    SameControl(l.host.q, owner);
    RemoveObjectKeeps(l.host.q, owner);
    BackedRemove(l.host.q, l.calls, owner);
    assert Outgoing(Apply(l, session, RemoveObject(owner))) == Outgoing(l);
  }

  lemma EmitControlKeeps(l: Ledger, session: Bytes)
    requires Inv(l, session) && ControlTurn(l.host.q)
    ensures Inv(Apply(l, session, Emit), session)
  {
    hide WellFormed, WireOrdered, TableSound, QueuesBacked, CancelsOnce, Issued, FramesOf;
    var next, q := Apply(l, session, Emit), l.host.q;
    NextKeeps(q);
    BackedNext(q, l.calls);
    ControlFollowsWire(l.wire, q.control);
    hide CancelsSound;
    assert q.control == [q.control[0]] + q.control[1..];
    Assoc(l.wire, [q.control[0]], q.control[1..]);
    assert Outgoing(next) == Outgoing(l);
  }

  lemma EmitLaneKeeps(l: Ledger, session: Bytes)
    requires Inv(l, session) && LaneTurn(l.host.q)
    ensures Inv(Apply(l, session, Emit), session)
  {
    hide WellFormed, WireOrdered, TableSound, QueuesBacked, CancelsSound, FramesOf, NoCalls;
    var next, q := Apply(l, session, Emit), l.host.q;
    NextKeeps(q);
    BackedNext(q, l.calls);
    CallFollowsWire(l.wire, q.control, q.lanes[0].frames[0], l.calls, l.host.serial, session);
    assert next.wire == l.wire + [q.lanes[0].frames[0]] && next.host.q.control == q.control;
  }

  lemma EmitKeeps(l: Ledger, session: Bytes)
    requires Inv(l, session)
    ensures Inv(Apply(l, session, Emit), session)
  {
    hide Inv, Apply;
    if ControlTurn(l.host.q) {
      EmitControlKeeps(l, session);
    } else if LaneTurn(l.host.q) {
      EmitLaneKeeps(l, session);
    } else {
      EmitNothing(l, session);
    }
  }

  lemma EmitNothing(l: Ledger, session: Bytes)
    requires !ControlTurn(l.host.q) && !LaneTurn(l.host.q)
    ensures Apply(l, session, Emit) == l
  {
    assert l.wire + [] == l.wire;
  }

  lemma CloseKeeps(l: Ledger, session: Bytes)
    requires Inv(l, session)
    ensures Inv(Apply(l, session, Close), session)
  {
    hide WireOrdered, CancelsSound, TableSound, QueuesBacked;
    BackedLanes(l.host.q, OutboxModel.Close(l.host.q), l.calls);
    assert Outgoing(Apply(l, session, Close)) == Outgoing(l);
  }

  // ----- Every step, every run -----

  lemma StepKeeps(l: Ledger, session: Bytes, step: Step)
    requires Inv(l, session) && Enabled(l, step)
    ensures Inv(Apply(l, session, step), session)
  {
    hide Inv;
    match step
    case Begin(owner, bytes) => BeginKeeps(l, session, owner, bytes);
    case Push(id) => PushCallKeeps(l, session, id);
    case End(id) => EndKeeps(l, session, id);
    case Response(frame) => ResponseKeeps(l, session, frame);
    case CancelObject(owner, ids) => CancelFindsNothing(l, session, owner, ids);
    case RemoveObject(owner) => RemoveObjectKeepsInv(l, session, owner);
    case Notify(bytes) => ControlKeeps(l, session, Frame(bytes, Other));
    case Log(owner, bytes) => LogKeeps(l, session, owner, bytes);
    case Emit => EmitKeeps(l, session);
    case Close => CloseKeeps(l, session);
  }

  ghost predicate Steps(l: Ledger, m: Ledger, session: Bytes) {
    exists step :: Enabled(l, step) && m == Apply(l, session, step)
  }

  ghost function Moves(session: Bytes): (Ledger, Ledger) -> bool {
    (s: Ledger, t: Ledger) => Steps(s, t, session)
  }

  ghost predicate IsRun(run: seq<Ledger>, session: Bytes) {
    Runs.IsRun(run, START, Moves(session))
  }

  /** The table, the queues and the wire stay sound in every reachable state. */
  lemma RunSound(run: seq<Ledger>, session: Bytes)
    requires IsRun(run, session)
    ensures forall i :: 0 <= i < |run| ==> Inv(run[i], session)
  {
    StartSound(session);
    hide Inv, Apply, Enabled;
    forall s, t | Inv(s, session) && Moves(session)(s, t) ensures Inv(t, session) {
      var step :| Enabled(s, step) && t == Apply(s, session, step);
      StepKeeps(s, session, step);
    }
    Runs.Invariant(run, START, Moves(session), s => Inv(s, session));
  }

  /** A call that was issued and has ended. */
  ghost predicate Ended(l: Ledger, session: Bytes, id: Id) {
    Issued(session, l.host.serial, id) && id !in l.calls
  }

  lemma EndedIsForgotten(l: Ledger, session: Bytes, id: Id)
    requires Inv(l, session) && Ended(l, session, id)
    ensures Forgotten(l, id)
  {
    hide WellFormed, WireOrdered, CancelsSound, NoCalls, Issued, FramesOf;
  }

  lemma CallsOnlyBegin(l: Ledger, session: Bytes, step: Step)
    requires Enabled(l, step) && !step.Begin?
    ensures Apply(l, session, step).host.serial == l.host.serial
    ensures forall id :: id in Apply(l, session, step).calls ==> id in l.calls
  {
    match step
    case CancelObject(owner, ids) => CancelKeepsSerial(l.host, ids);
    case _ =>
  }

  lemma {:induction false} CancelKeepsSerial(h: Host, ids: seq<Id>)
    ensures CancelAll(h, ids).serial == h.serial
    decreases ids
  {
    if ids != [] {
      CancelKeepsSerial(CancelIfPending(h, ids[0]), ids[1..]);
    }
  }

  lemma EndedStays(l: Ledger, session: Bytes, step: Step, id: Id)
    requires Enabled(l, step) && Ended(l, session, id)
    ensures Ended(Apply(l, session, step), session, id)
  {
    hide Issued, CallId;
    if step.Begin? {
      NextIdIsNew(session, l.host.serial);
    } else {
      CallsOnlyBegin(l, session, step);
      hide Apply;
    }
  }

  /** IDs are never reused: once a call has ended, no later state holds any trace of it. */
  lemma NeverReused(run: seq<Ledger>, session: Bytes, i: nat, j: nat, id: Id)
    requires IsRun(run, session) && i <= j < |run| && Ended(run[i], session, id)
    ensures Ended(run[j], session, id) && Forgotten(run[j], id)
  {
    RunSound(run, session);
    hide Inv, Apply, Enabled, Ended, Forgotten;
    forall k | i <= k < j && Ended(run[k], session, id) ensures Ended(run[k + 1], session, id) {
      assert Moves(session)(run[k], run[k + 1]);
      var step :| Enabled(run[k], step) && run[k + 1] == Apply(run[k], session, step);
      EndedStays(run[k], session, step, id);
    }
    Runs.Onward(run, l => Ended(l, session, id), i, j);
    EndedIsForgotten(run[j], session, id);
  }

  lemma {:induction false} CancelAllKeeps(h: Host, ids: seq<Id>)
    ensures var r := CancelAll(h, ids);
      && h.q.control <= r.q.control && r.q == h.q.(control := r.q.control)
      && (!ControlFits(h.q) ==> r.q == h.q)
      && (forall id :: id in r.pending ==> id in h.pending && r.pending[id] == h.pending[id])
    decreases ids
  {
    hide CancelFrame;
    if ids != [] {
      CancelAllKeeps(CancelIfPending(h, ids[0]), ids[1..]);
    }
  }

  /**
    Cancelling an object's calls keeps the ledger sound exactly if it queues nothing: the
    object has no pending call left, as after the drop of its guards, or there is no room.
   */
  lemma CancelKeepsExactly(l: Ledger, session: Bytes, owner: Id, ids: seq<Id>)
    requires Inv(l, session) && Lists(l.host, owner, ids)
    ensures Inv(CancelCalls(l, ids), session) <==> ids == [] || !ControlFits(l.host.q)
  {
    hide Inv, CancelCalls, Lists;
    if ids != [] && ControlFits(l.host.q) {
      CancelBreaks(l, session, owner, ids);
    } else {
      QuietCancelKeeps(l, session, ids);
    }
  }

  /** A queued cancel of a live call is one the ledger may not hold. */
  lemma CancelBreaks(l: Ledger, session: Bytes, owner: Id, ids: seq<Id>)
    requires Inv(l, session) && Lists(l.host, owner, ids) && ids != [] && ControlFits(l.host.q)
    ensures !Inv(CancelCalls(l, ids), session)
  {
    var m := CancelCalls(l, ids);
    FirstIsLive(l, session, owner, ids);
    CancelQueued(l.host, ids);
    CancelNames(ids[0]);
    hide WellFormed, TableSound, QueuesBacked, NoCalls, CancelsOnce, WireOrdered, Issued, CancelFrame, CancelAll;
    assert CancelFrame(ids[0]) in Outgoing(m);
  }

  lemma FirstIsLive(l: Ledger, session: Bytes, owner: Id, ids: seq<Id>)
    requires Inv(l, session) && Lists(l.host, owner, ids) && ids != []
    ensures ids[0] in l.host.pending && ids[0] in l.calls
  {
    hide WellFormed, QueuesBacked, CancelsSound, NoCalls, WireOrdered, Issued, Distinct;
    HeadIn(ids);
  }

  lemma QuietCancelKeeps(l: Ledger, session: Bytes, ids: seq<Id>)
    requires Inv(l, session) && (ids == [] || !ControlFits(l.host.q))
    ensures Inv(CancelCalls(l, ids), session)
  {
    CancelAllKeeps(l.host, ids);
    CancelKeepsSerial(l.host, ids);
    assert ids == [] ==> CancelAll(l.host, ids) == l.host;
    hide WellFormed, QueuesBacked, CancelsSound, NoCalls, WireOrdered, CancelAll;
    FewerPending(l.host.pending, CancelAll(l.host, ids).pending, l.calls, l.host.serial, session);
  }

  lemma FewerPending(pending: map<Id, Id>, fewer: map<Id, Id>, calls: map<Id, Call>, serial: nat, session: Bytes)
    requires TableSound(pending, calls, serial, session) && |fewer| <= |pending|
    requires forall id :: id in fewer ==> id in pending && fewer[id] == pending[id]
    ensures TableSound(fewer, calls, serial, session)
  {
    hide Issued, IsCall;
  }

  lemma CancelNames(id: Id)
    ensures CancelFrame(id).subject == HostCancel(id)
  {
    hide Print, CancelNotice;
  }

  lemma CancelQueued(h: Host, ids: seq<Id>)
    requires ids != [] && ids[0] in h.pending && ControlFits(h.q)
    ensures CancelFrame(ids[0]) in CancelAll(h, ids).q.control
  {
    hide CancelFrame;
    var first := CancelIfPending(h, ids[0]);
    CancelAllKeeps(first, ids[1..]);
    assert CancelFrame(ids[0]) in first.q.control;
  }

  /**
    The order of cleanup matters: cancelling an object's calls while one of them still
    waits for room lets the call follow its own cancel onto the wire.
   */
  lemma CancelBeforeDropMisorders(session: Bytes, owner: Id)
    returns (begun: Ledger, cancelled: Ledger, pushed: Ledger, sent: Ledger)
    ensures begun == BeginCall(START, session, owner, [NEWLINE])
    ensures Lists(begun.host, owner, [CallId(session, 1)]) && cancelled == CancelCalls(begun, [CallId(session, 1)])
    ensures CallId(session, 1) in cancelled.calls && pushed == PushCall(cancelled, CallId(session, 1))
    ensures sent == EmitNext(EmitNext(pushed)) && !WireOrdered(sent.wire)
  {
    var id := CallId(session, 1);
    hide CallId;
    begun, cancelled := CancelWhileWaiting(START, session, owner, id);
    var call, cancel := Frame([NEWLINE], HostCall(id)), CancelFrame(id);
    assert cancel.subject == HostCancel(id);
    hide CancelFrame, CancelCalls, BeginCall, Lists;
    pushed := PushCall(cancelled, id);
    PushFirst(cancelled.host.q, owner, call);
    hide PushData, Fits, FramesOf;
    sent := EmitNext(EmitNext(pushed));
    EmitBoth(pushed, cancel, owner, call);
    assert sent.wire[1].subject == HostCall(sent.wire[0].subject.id);
  }

  lemma CancelWhileWaiting(l: Ledger, session: Bytes, owner: Id, id: Id) returns (begun: Ledger, cancelled: Ledger)
    requires l.host.pending == map[] && l.calls == map[] && l.wire == [] && l.host.serial < U64_MAX
    requires l.host.q.control == [] && !l.host.q.closed && id == CallId(session, l.host.serial + 1)
    ensures begun == BeginCall(l, session, owner, [NEWLINE])
    ensures Lists(begun.host, owner, [id]) && cancelled == CancelCalls(begun, [id])
    ensures cancelled.host.q == l.host.q.(control := [CancelFrame(id)]) && cancelled.wire == []
    ensures cancelled.calls == map[id := Call(owner, Frame([NEWLINE], HostCall(id)), false, None)]
  {
    hide CallId, CancelFrame, CancelAll, Lists;
    begun := BeginCall(l, session, owner, [NEWLINE]);
    assert begun.host.pending == map[id := owner];
    ListsOne(begun.host, owner, id);
    cancelled := CancelCalls(begun, [id]);
    CancelOne(begun.host, id);
  }

  lemma ListsOne(h: Host, owner: Id, id: Id)
    requires h.pending == map[id := owner]
    ensures Lists(h, owner, [id])
  {
  }

  lemma PushFirst(q: Queues, owner: Id, call: Frame)
    requires q.lanes == [] && !q.closed && |call.bytes| == 1
    ensures Fits(q, owner, |call.bytes|) && PushData(q, owner, call) == q.(lanes := [Lane(owner, [call])])
  {
  }

  lemma EmitBoth(l: Ledger, cancel: Frame, owner: Id, call: Frame)
    requires l.wire == [] && l.host.q == Queues([cancel], [Lane(owner, [call])], 0, false)
    ensures EmitNext(EmitNext(l)).wire == [cancel, call]
  {
    var first := EmitNext(l);
    assert first.wire == [cancel] && first.host.q == Queues([], [Lane(owner, [call])], 1, false);
    assert LaneTurn(first.host.q) && Output(first.host.q) == Some(FromLane(owner, call));
  }

  lemma CancelOne(h: Host, id: Id)
    requires id in h.pending
    ensures CancelAll(h, [id]).q == PushControl(h.q, CancelFrame(id))
  {
    var next := h.(pending := h.pending - {id}, q := PushControl(h.q, CancelFrame(id)));
    assert [id][1..] == [] && CancelAll(next, []) == next;
  }
}
