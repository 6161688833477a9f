/**
  The request loop of src/protocol.rs:196-204 and 230-294: outstanding IDs, 48 permits,
  one task a request and the shared outbox. Each line the loop reads, each answer of a
  task and the end of the loop is one step; between them anything may happen to the
  outbox. `frames`, `replies`, `written` and `results` record the past and decide nothing.
 */
module Admission {
  import opened Prelude
  import opened Json
  import opened OutboxModel
  import opened Framing
  import opened Messages
  import Conservation
  import Runs
  import Outbox

  const SLOTS: nat := 48

  /** A request being handled. */
  datatype Task = Task(id: Bytes, name: Bytes, params: Value)

  /** A queued reply: the line it answers, and its place among all control frames. */
  datatype Reply = Reply(cause: nat, body: Value, at: nat)

  /** Tasks are named by the line that asked for them. */
  datatype Session = Session(
    open: bool, stopping: bool, ids: set<Bytes>, permits: nat, tasks: map<nat, Task>, q: Queues,
    routed: seq<Value>, frames: seq<Parsed>, replies: seq<Reply>, written: seq<Frame>, results: map<nat, Result>)

  const START := Session(true, false, {}, SLOTS, map[], EMPTY, [], [], [], [], map[])

  // ----- Operations -----

  function QueueReply(s: Session, cause: nat, body: Value, bytes: Bytes): Session {
    s.(q := PushControl(s.q, Frame(bytes, Other)),
       replies := s.replies + [Reply(cause, body, |s.written| + |s.q.control|)])
  }

  /** The loop is left and every task aborted. */
  function Ended(s: Session): Session {
    s.(open := false, ids := {}, permits := SLOTS, tasks := map[])
  }

  /** `try_control`: the loop cannot go on when the reply does not fit. */
  function Refused(s: Session, cause: nat, id: Value, error: Result): Session {
    var body := Response(id, error);
    if Encode(body).Some? && ControlFits(s.q) then QueueReply(s, cause, body, Encode(body).value) else Ended(s)
  }

  function Logged(s: Session, p: Parsed): Session {
    s.(frames := s.frames + [p])
  }

  predicate NoPermit(s: Session, name: Bytes) {
    name != Compile() && s.permits == 0
  }

  function Spawned(s: Session, cause: nat, task: Task): Session
    requires !NoPermit(s, task.name)
  {
    s.(ids := s.ids + {task.id},
       permits := if task.name == Compile() then s.permits else s.permits - 1,
       tasks := s.tasks[cause := task])
  }

  function Received(s: Session, p: Parsed): Session {
    var cause, t := |s.frames|, Logged(s, p);
    match Classify(p)
    case Refusal(error) => Refused(t, cause, Null, error)
    case HostReply => t.(routed := t.routed + [p.value])
    case Notice => t
    case Request(id, name, params) =>
      if id in s.ids then Refused(t, cause, String(id), Duplicate())
      else if NoPermit(s, name) then Refused(t, cause, String(id), Busy())
      else Spawned(t, cause, Task(id, name, params))
  }

  /** The end of a task gives back its ID and its permit. */
  function Released(s: Session, c: nat, result: Result): Session
    requires c in s.tasks
  {
    s.(ids := s.ids - {s.tasks[c].id},
       permits := if s.tasks[c].name == Compile() then s.permits else s.permits + 1,
       tasks := s.tasks - {c},
       stopping := s.stopping || Stops(s.tasks[c], result),
       results := s.results[c := result])
  }

  function Sendable(v: Value, id: Bytes): Value {
    if Encode(v).Some? then v else TooLargeReply(String(id))
  }

  predicate Stops(task: Task, result: Result) {
    task.name == Shutdown() && result.Ok?
  }

  /** One pass of a task's `control`: it parks, unchanged, while the control queue is full. */
  function Answered(s: Session, c: nat, result: Result): Session
    requires c in s.tasks
  {
    var task := s.tasks[c];
    var body := Response(String(task.id), result);
    var bytes := EncodeControl(body);
    var released := Released(s, c, result);
    if bytes.None? || s.q.closed then released
    else if !ControlFits(s.q) then s
    else QueueReply(released, c, Sendable(body, task.id), bytes.value)
  }

  /** Anything that happens to the outbox elsewhere. */
  function Observed(s: Session, op: Op): Session {
    s.(q := OutboxModel.Apply(s.q, op), written := s.written + Conservation.ControlOut(s.q, op))
  }

  /** A shutdown that succeeds has one result only. */
  predicate Plausible(task: Task, result: Result) {
    task.name == Shutdown() && result.Ok? ==> result.value == Goodbye()
  }

  datatype Step =
    | Receive(p: Parsed)
    | Answer(c: nat, result: Result)
    | Outside(op: Op)
    | Leave

  /** The loop looks for shutdown and a closed outbox before it reads. */
  predicate Enabled(s: Session, step: Step) {
    match step
    case Receive(p) => s.open && !s.stopping && !s.q.closed && (p.Bad? ==> |p.detail| <= MAX_MESSAGE)
    case Answer(c, result) => s.open && c in s.tasks && Plausible(s.tasks[c], result)
    case Outside(_) => true
    case Leave => s.open
  }

  function Apply(s: Session, step: Step): Session
    requires Enabled(s, step)
  {
    match step
    case Receive(p) => Received(s, p)
    case Answer(c, result) => Answered(s, c, result)
    case Outside(op) => Observed(s, op)
    case Leave => Ended(s)
  }

  // ----- What every state keeps -----

  /** The outstanding IDs are those of the live tasks, pairwise distinct. */
  ghost predicate IdsExact(ids: set<Bytes>, tasks: map<nat, Task>) {
    && (forall c :: c in tasks ==> tasks[c].id in ids)
    && (forall id :: id in ids ==> exists c :: c in tasks && tasks[c].id == id)
    && (forall c, d :: c in tasks && d in tasks && tasks[c].id == tasks[d].id ==> c == d)
  }

  function Holders(tasks: map<nat, Task>): set<nat> {
    set c | c in tasks && tasks[c].name != Compile()
  }

  /** Permits held and permits left are the slots. */
  predicate PermitsExact(permits: nat, tasks: map<nat, Task>) {
    permits + |Holders(tasks)| == SLOTS
  }

  ghost predicate TasksSound(tasks: map<nat, Task>, frames: seq<Parsed>) {
    forall c :: c in tasks ==>
      c < |frames| && Classify(frames[c]) == Request(tasks[c].id, tasks[c].name, tasks[c].params)
  }

  ghost predicate RepliesSound(replies: seq<Reply>, tasks: map<nat, Task>, frames: seq<Parsed>) {
    && (forall i :: 0 <= i < |replies| ==> ReplySound(replies[i], tasks, frames))
    && (forall i, j :: 0 <= i < j < |replies| ==> replies[i].cause != replies[j].cause)
  }

  ghost predicate ReplySound(r: Reply, tasks: map<nat, Task>, frames: seq<Parsed>) {
    && r.cause < |frames| && r.cause !in tasks
    && CallsForReply(frames[r.cause]) && Answers(frames[r.cause], r.body)
  }

  ghost predicate Replied(replies: seq<Reply>, n: nat) {
    exists i :: 0 <= i < |replies| && replies[i].cause == n
  }

  /** Every line that calls for a reply has it, or a live task that owes it. */
  ghost predicate NoneForgotten(s: Session) {
    forall n :: 0 <= n < |s.frames| && CallsForReply(s.frames[n]) ==> n in s.tasks || Replied(s.replies, n)
  }

  /** Replies were queued as control frames, in order. */
  ghost predicate Placed(replies: seq<Reply>, outgoing: seq<Frame>) {
    && (forall i :: 0 <= i < |replies| ==> replies[i].at < |outgoing| && Encode(replies[i].body) == Some(outgoing[replies[i].at].bytes))
    && (forall i, j :: 0 <= i < j < |replies| ==> replies[i].at < replies[j].at)
  }

  /** The responses among the lines, in order. */
  function HostReplies(frames: seq<Parsed>): seq<Value> {
    if frames == [] then []
    else
      var last := frames[|frames| - 1];
      HostReplies(frames[..|frames| - 1]) + if IsResponse(last) then [last.value] else []
  }

  ghost predicate Sound(s: Session) {
    && IdsExact(s.ids, s.tasks)
    && PermitsExact(s.permits, s.tasks)
    && TasksSound(s.tasks, s.frames)
    && RepliesSound(s.replies, s.tasks, s.frames)
    && Placed(s.replies, s.written + s.q.control)
    && s.routed == HostReplies(s.frames)
    && (s.open && !s.q.closed ==> NoneForgotten(s))
  }

  // ----- Steps keep it -----

  lemma StartSound()
    ensures Sound(START)
  {
    hide Compile, Classify, CallsForReply, Answers, Encode;
    assert Holders(START.tasks) == {};
    hide Holders;
  }

  lemma LoggedKeeps(s: Session, p: Parsed)
    requires Sound(s)
    ensures var t := Logged(s, p);
      && TasksSound(t.tasks, t.frames)
      && RepliesSound(t.replies, t.tasks, t.frames)
      && HostReplies(t.frames) == s.routed + (if IsResponse(p) then [p.value] else [])
      && (forall r :: r in s.replies ==> r.cause < |s.frames|)
      && |s.frames| !in s.tasks
  {
    hide Classify, CallsForReply, Answers, IsResponse, IdsExact, PermitsExact, Placed, NoneForgotten;
    var t := Logged(s, p);
    assert t.frames[..|t.frames| - 1] == s.frames;
    forall i | 0 <= i < |s.replies| ensures ReplySound(s.replies[i], t.tasks, t.frames) && s.replies[i].cause < |s.frames| {
      assert ReplySound(s.replies[i], s.tasks, s.frames);
    }
  }

  lemma EndedKeeps(s: Session)
    requires RepliesSound(s.replies, s.tasks, s.frames)
    requires Placed(s.replies, s.written + s.q.control) && s.routed == HostReplies(s.frames)
    ensures Sound(Ended(s))
  {
    hide RepliesSound, HostReplies, Placed, NoneForgotten, Classify, Compile;
    RepliesWithout(s.replies, s.tasks, s.frames);
    assert Holders(map[]) == {};
    hide Holders;
  }

  lemma RepliesWithout(replies: seq<Reply>, tasks: map<nat, Task>, frames: seq<Parsed>)
    requires RepliesSound(replies, tasks, frames)
    ensures RepliesSound(replies, map[], frames)
  {
    hide CallsForReply, Answers;
    forall i | 0 <= i < |replies| ensures ReplySound(replies[i], map[], frames) {
      assert ReplySound(replies[i], tasks, frames);
    }
  }

  lemma PlacedAfter(replies: seq<Reply>, outgoing: seq<Frame>, cause: nat, body: Value, frame: Frame)
    requires Placed(replies, outgoing) && Encode(body) == Some(frame.bytes)
    ensures Placed(replies + [Reply(cause, body, |outgoing|)], outgoing + [frame])
  {
    hide Encode;
  }

  lemma RepliesAfter(replies: seq<Reply>, tasks: map<nat, Task>, frames: seq<Parsed>, r: Reply)
    requires RepliesSound(replies, tasks, frames) && ReplySound(r, tasks, frames)
    requires !Replied(replies, r.cause)
    ensures RepliesSound(replies + [r], tasks, frames)
    ensures forall n: nat :: Replied(replies + [r], n) <==> n == r.cause || Replied(replies, n)
  {
    hide ReplySound;
    var after := replies + [r];
    assert after[|replies|] == r;
    forall n: nat | Replied(replies, n) ensures Replied(after, n) {
      var i :| 0 <= i < |replies| && replies[i].cause == n;
      assert after[i].cause == n;
    }
  }

  lemma NotYetReplied(s: Session, n: nat)
    requires RepliesSound(s.replies, s.tasks, s.frames) && (n in s.tasks || n >= |s.frames|)
    ensures !Replied(s.replies, n)
  {
    hide Classify, CallsForReply, Answers;
  }

  lemma Outgoing(s: Session, frame: Frame)
    requires ControlFits(s.q)
    ensures var q := PushControl(s.q, frame);
      s.written + q.control == (s.written + s.q.control) + [frame] && q.closed == s.q.closed
  {
  }

  lemma ErrorAnswers(p: Parsed, error: Result)
    ensures Answers(p, Response(ReplyId(p), error))
  {
    hide Ascii, Get, Response;
    ResponseFields(ReplyId(p), error);
  }

  /** A new line, answered or taken on, leaves no line forgotten. */
  lemma Covered(s: Session, t: Session, p: Parsed)
    requires NoneForgotten(s) && t.frames == s.frames + [p]
    requires forall n :: n in s.tasks ==> n in t.tasks
    requires forall n: nat :: Replied(s.replies, n) ==> Replied(t.replies, n)
    requires |s.frames| in t.tasks || Replied(t.replies, |s.frames|)
    ensures NoneForgotten(t)
  {
    hide CallsForReply, Replied;
    forall n | 0 <= n < |t.frames| && CallsForReply(t.frames[n]) ensures n in t.tasks || Replied(t.replies, n) {
      assert n < |s.frames| ==> t.frames[n] == s.frames[n];
    }
  }

  lemma QueuedKeeps(s: Session, cause: nat, body: Value, bytes: Bytes)
    requires RepliesSound(s.replies, s.tasks, s.frames) && Placed(s.replies, s.written + s.q.control)
    requires cause < |s.frames| && cause !in s.tasks && !Replied(s.replies, cause)
    requires CallsForReply(s.frames[cause]) && Answers(s.frames[cause], body)
    requires Encode(body) == Some(bytes) && ControlFits(s.q)
    ensures var t := QueueReply(s, cause, body, bytes);
      && RepliesSound(t.replies, t.tasks, t.frames)
      && Placed(t.replies, t.written + t.q.control)
      && t.q.closed == s.q.closed
      && (forall n: nat :: Replied(t.replies, n) <==> n == cause || Replied(s.replies, n))
  {
    hide Answers, CallsForReply, Encode, Replied, RepliesSound, Placed;
    var frame := Frame(bytes, Other);
    RepliesAfter(s.replies, s.tasks, s.frames, Reply(cause, body, |s.written + s.q.control|));
    PlacedAfter(s.replies, s.written + s.q.control, cause, body, frame);
    Outgoing(s, frame);
  }

  /** A refusal answers the line it refuses, or ends the loop. */
  lemma RefusedKeeps(s: Session, p: Parsed, error: Result)
    requires Sound(s) && s.open && !s.q.closed && CallsForReply(p)
    ensures Sound(Refused(Logged(s, p), |s.frames|, ReplyId(p), error))
  {
    hide TasksSound, Classify, Answers, HostReplies, Placed, Encode, Response, CallsForReply, IsResponse, IsNotification, ReplyId, Replied, PushControl;
    var t, cause, body := Logged(s, p), |s.frames|, Response(ReplyId(p), error);
    CallsExclude(p);
    LoggedKeeps(s, p);
    NotYetReplied(s, cause);
    hide RepliesSound, IdsExact, PermitsExact, NoneForgotten;
    if Encode(body).Some? && ControlFits(s.q) {
      ErrorAnswers(p, error);
      assert t.frames[cause] == p;
      QueuedKeeps(t, cause, body, Encode(body).value);
      Covered(s, Refused(t, cause, ReplyId(p), error), p);
    } else {
      EndedKeeps(t);
    }
  }

  lemma CallsExclude(p: Parsed)
    ensures CallsForReply(p) <==> !IsResponse(p) && !IsNotification(p)
    ensures IsRequest(p) ==> CallsForReply(p)
  {
  }

  /** A response or a notification owes nothing. */
  lemma QuietKeeps(s: Session, p: Parsed)
    requires Sound(s) && !CallsForReply(p)
    ensures Sound(Logged(s, p).(routed := s.routed + if IsResponse(p) then [p.value] else []))
  {
    LoggedKeeps(s, p);
    hide IdsExact, PermitsExact, TasksSound, RepliesSound, IsResponse, HostReplies, Placed, CallsForReply;
    var t := Logged(s, p);
    if s.open && !s.q.closed {
      forall n | 0 <= n < |t.frames| && CallsForReply(t.frames[n]) ensures n in t.tasks || Replied(t.replies, n) {
        assert t.frames[n] == if n < |s.frames| then s.frames[n] else p;
      }
    }
  }

  lemma HoldersAdd(tasks: map<nat, Task>, c: nat, task: Task)
    requires c !in tasks
    ensures |Holders(tasks[c := task])| == |Holders(tasks)| + if task.name == Compile() then 0 else 1
  {
    hide Compile;
    assert Holders(tasks[c := task]) == Holders(tasks) + if task.name == Compile() then {} else {c};
  }

  lemma HoldersDrop(tasks: map<nat, Task>, c: nat)
    requires c in tasks
    ensures |Holders(tasks)| == |Holders(tasks - {c})| + if tasks[c].name == Compile() then 0 else 1
  {
    hide Compile;
    assert Holders(tasks) == Holders(tasks - {c}) + if tasks[c].name == Compile() then {} else {c};
  }

  lemma IdsAdd(ids: set<Bytes>, tasks: map<nat, Task>, c: nat, task: Task)
    requires IdsExact(ids, tasks) && c !in tasks && task.id !in ids
    ensures IdsExact(ids + {task.id}, tasks[c := task])
  {
    var after := tasks[c := task];
    forall id | id in ids + {task.id} ensures exists d :: d in after && after[d].id == id {
      if id in ids {
        var d :| d in tasks && tasks[d].id == id;
        assert d in after && after[d].id == id;
      } else {
        assert c in after && after[c].id == id;
      }
    }
  }

  lemma IdsDrop(ids: set<Bytes>, tasks: map<nat, Task>, c: nat)
    requires IdsExact(ids, tasks) && c in tasks
    ensures IdsExact(ids - {tasks[c].id}, tasks - {c})
  {
    var after := tasks - {c};
    forall id | id in ids - {tasks[c].id} ensures exists d :: d in after && after[d].id == id {
      var d :| d in tasks && tasks[d].id == id;
      assert d in after && after[d].id == id;
    }
  }

  /** An admitted request owes its reply to its own line. */
  lemma SpawnedKeeps(s: Session, p: Parsed, task: Task)
    requires Sound(s) && Classify(p) == Request(task.id, task.name, task.params)
    requires task.id !in s.ids && !NoPermit(s, task.name)
    ensures Sound(Spawned(Logged(s, p), |s.frames|, task))
  {
    hide Classify, IsRequest, IsResponse, IsNotification, HostReplies, Placed, CallsForReply, Compile, Replied, NoneForgotten,
      RepliesSound, TasksSound, IdsExact, Holders;
    var t, c := Logged(s, p), |s.frames|;
    ClassifyMeaning(p);
    CallsExclude(p);
    LoggedKeeps(s, p);
    IdsAdd(s.ids, s.tasks, c, task);
    HoldersAdd(s.tasks, c, task);
    var after := Spawned(t, c, task);
    NewTaskReplies(s.replies, s.tasks, t.frames, c, task);
    NewTaskSound(s.tasks, s.frames, p, task);
    if NoneForgotten(s) {
      Covered(s, after, p);
    }
  }

  lemma NewTaskSound(tasks: map<nat, Task>, frames: seq<Parsed>, p: Parsed, task: Task)
    requires TasksSound(tasks, frames) && Classify(p) == Request(task.id, task.name, task.params)
    ensures TasksSound(tasks[|frames| := task], frames + [p])
  {
    hide Classify;
  }

  lemma NewTaskReplies(replies: seq<Reply>, tasks: map<nat, Task>, frames: seq<Parsed>, c: nat, task: Task)
    requires RepliesSound(replies, tasks, frames) && forall r :: r in replies ==> r.cause != c
    ensures RepliesSound(replies, tasks[c := task], frames)
  {
    hide Answers, CallsForReply;
    forall i | 0 <= i < |replies| ensures ReplySound(replies[i], tasks[c := task], frames) {
      assert ReplySound(replies[i], tasks, frames) && replies[i] in replies;
    }
  }

  lemma ReceivedKeeps(s: Session, p: Parsed)
    requires Sound(s) && Enabled(s, Receive(p))
    ensures Sound(Received(s, p))
  {
    ClassifyMeaning(p);
    CallsExclude(p);
    hide Sound, Classify, CallsForReply, IsRequest, IsResponse, IsNotification, Refused, Spawned, Duplicate, Busy, ReplyId, Compile;
    match Classify(p)
    case Refusal(error) => RefusedKeeps(s, p, error);
    case HostReply => QuietKeeps(s, p);
    case Notice =>
      QuietKeeps(s, p);
      assert s.routed + [] == s.routed;
    case Request(id, name, params) =>
      if id in s.ids {
        RefusedKeeps(s, p, Duplicate());
      } else if NoPermit(s, name) {
        RefusedKeeps(s, p, Busy());
      } else {
        SpawnedKeeps(s, p, Task(id, name, params));
      }
  }

  // ----- Answers -----

  /** However large its result, an admitted request gets a response that carries its ID. */
  lemma AnswerFits(p: Parsed, id: Bytes, result: Result)
    requires ReplyId(p) == String(id) && |id| <= MAX_ID
    ensures var body := Response(String(id), result);
      && EncodeControl(body).Some?
      && EncodeControl(body) == Encode(Sendable(body, id))
      && Answers(p, Sendable(body, id))
  {
    hide Ascii, Encode, Get, Response, TooLargeReply, ReplyId;
    var body := Response(String(id), result);
    ResponseFields(String(id), result);
    OversizeKeepsRequest(body, id);
    ErrorAnswers(p, result);
    TooLargeAnswers(p);
  }

  lemma TooLargeAnswers(p: Parsed)
    ensures Answers(p, TooLargeReply(ReplyId(p)))
  {
    hide Ascii, Get, Integer;
    ErrorAnswers(p, Err(-32003, Ascii("RESPONSE_TOO_LARGE"), Ascii("response exceeds frame limit")));
  }

  lemma ReleasedKeeps(s: Session, c: nat, result: Result)
    requires Sound(s) && c in s.tasks
    ensures var t := Released(s, c, result);
      && IdsExact(t.ids, t.tasks) && PermitsExact(t.permits, t.tasks) && TasksSound(t.tasks, t.frames)
      && RepliesSound(t.replies, t.tasks, t.frames) && !Replied(t.replies, c)
  {
    hide Classify, CallsForReply, Answers, Compile, Placed, NoneForgotten, HostReplies, Holders;
    IdsDrop(s.ids, s.tasks, c);
    HoldersDrop(s.tasks, c);
    NotYetReplied(s, c);
    hide IdsExact, Replied;
    var tasks := s.tasks - {c};
    forall i | 0 <= i < |s.replies| ensures ReplySound(s.replies[i], tasks, s.frames) {
      assert ReplySound(s.replies[i], s.tasks, s.frames);
    }
  }

  lemma TaskOwes(s: Session, c: nat)
    requires TasksSound(s.tasks, s.frames) && c in s.tasks
    ensures c < |s.frames| && CallsForReply(s.frames[c]) && IsRequest(s.frames[c])
    ensures ReplyId(s.frames[c]) == String(s.tasks[c].id) && |s.tasks[c].id| <= MAX_ID
  {
    hide Classify, CallsForReply;
    ClassifyMeaning(s.frames[c]);
    CallsExclude(s.frames[c]);
  }

  lemma AnsweredKeeps(s: Session, c: nat, result: Result)
    requires Sound(s) && c in s.tasks
    ensures Sound(Answered(s, c, result))
  {
    hide Classify, CallsForReply, IsRequest, ReplyId, Answers, Compile, HostReplies, Encode, EncodeControl, Response, Sendable,
      Shutdown, IdsExact, PermitsExact, RepliesSound, Replied, Placed, TasksSound, PushControl, NoneForgotten;
    var task, t := s.tasks[c], Answered(s, c, result);
    var body, released := Response(String(task.id), result), Released(s, c, result);
    TaskOwes(s, c);
    ReleasedKeeps(s, c, result);
    AnswerFits(s.frames[c], task.id, result);
    if !s.q.closed && ControlFits(s.q) {
      QueuedKeeps(released, c, Sendable(body, task.id), EncodeControl(body).value);
      if NoneForgotten(s) {
        AnsweredCovers(s, t, c);
      }
    }
  }

  lemma AnsweredCovers(s: Session, t: Session, c: nat)
    requires NoneForgotten(s) && t.frames == s.frames
    requires forall n :: n in s.tasks && n != c ==> n in t.tasks
    requires forall n: nat :: n == c || Replied(s.replies, n) ==> Replied(t.replies, n)
    ensures NoneForgotten(t)
  {
    hide CallsForReply, Replied;
  }

  // ----- Whole runs -----

  lemma ObservedKeeps(s: Session, op: Op)
    requires Sound(s)
    ensures Sound(Observed(s, op))
  {
    hide IdsExact, PermitsExact, TasksSound, RepliesSound, HostReplies, NoneForgotten, Placed, OutboxModel.Apply,
      Conservation.ControlOut, Conservation.ControlIn;
    OutgoingGrows(s, op);
    PlacedLonger(s.replies, s.written + s.q.control, Conservation.ControlIn(s.q, op));
    var t := Observed(s, op);
    if t.open && !t.q.closed {
      SameDebts(s, t);
    }
  }

  lemma SameDebts(s: Session, t: Session)
    requires NoneForgotten(s) && t.frames == s.frames && t.tasks == s.tasks && t.replies == s.replies
    ensures NoneForgotten(t)
  {
    hide CallsForReply, Replied;
  }

  lemma Regroup(written: seq<Frame>, control: seq<Frame>, more: seq<Frame>, out: seq<Frame>, rest: seq<Frame>)
    requires control + more == out + rest
    ensures (written + out) + rest == (written + control) + more
  {
    Assoc(written, control, more);
    Assoc(written, out, rest);
  }

  lemma OutgoingGrows(s: Session, op: Op)
    ensures (s.written + Conservation.ControlOut(s.q, op)) + OutboxModel.Apply(s.q, op).control
         == (s.written + s.q.control) + Conservation.ControlIn(s.q, op)
    ensures s.q.closed ==> OutboxModel.Apply(s.q, op).closed
  {
    hide OutboxModel.Apply, Conservation.ControlIn, Conservation.ControlOut;
    var q := OutboxModel.Apply(s.q, op);
    ClosedStays(s.q, op);
    Conservation.ControlStep(s.q, op);
    Regroup(s.written, s.q.control, Conservation.ControlIn(s.q, op), Conservation.ControlOut(s.q, op), q.control);
  }

  lemma ClosedStays(q: Queues, op: Op)
    ensures q.closed ==> OutboxModel.Apply(q, op).closed
  {
  }

  lemma PlacedLonger(replies: seq<Reply>, outgoing: seq<Frame>, more: seq<Frame>)
    requires Placed(replies, outgoing)
    ensures Placed(replies, outgoing + more)
  {
    hide Encode;
  }

  lemma StepKeeps(s: Session, step: Step)
    requires Sound(s) && Enabled(s, step)
    ensures Sound(Apply(s, step))
  {
    match step
    case Receive(p) => ReceivedKeeps(s, p);
    case Answer(c, result) => AnsweredKeeps(s, c, result);
    case Outside(op) => ObservedKeeps(s, op);
    case Leave => EndedKeeps(s);
  }

  ghost predicate Steps(s: Session, t: Session) {
    exists step :: Enabled(s, step) && t == Apply(s, step)
  }

  ghost predicate IsRun(run: seq<Session>) {
    Runs.IsRun(run, START, Steps)
  }

  lemma RunSound(run: seq<Session>)
    requires IsRun(run)
    ensures forall i :: 0 <= i < |run| ==> Sound(run[i])
  {
    StartSound();
    hide Sound, Apply, Enabled;
    forall s, t | Sound(s) && Steps(s, t) ensures Sound(t) {
      var step :| Enabled(s, step) && t == Apply(s, step);
      StepKeeps(s, step);
    }
    Runs.Invariant(run, START, Steps, Sound);
  }

  // ----- What the session promises -----

  predicate InSession(s: Session) {
    s.open && !s.q.closed
  }

  /** A request whose reply was not queued yet. */
  ghost predicate Unanswered(s: Session, n: nat) {
    n < |s.frames| && IsRequest(s.frames[n]) && !Replied(s.replies, n)
  }

  /** While the session lasts, the unanswered requests are the live tasks. */
  lemma UnansweredAreTasks(s: Session, n: nat)
    requires Sound(s) && InSession(s)
    ensures Unanswered(s, n) <==> n in s.tasks
    ensures n in s.tasks ==> n < |s.frames| && ReplyId(s.frames[n]) == String(s.tasks[n].id)
  {
    hide IdsExact, PermitsExact, Placed, HostReplies, IsRequest, Replied, ReplyId, RepliesSound, CallsForReply, TasksSound;
    if n in s.tasks {
      TaskOwes(s, n);
      NotYetReplied(s, n);
    } else if Unanswered(s, n) {
      CallsExclude(s.frames[n]);
    }
  }

  /**
    Every line that calls for a reply gets exactly one, a response object carrying its ID
    and queued as a control frame, or is a request still being handled; no other line
    gets any.
   */
  lemma ExactlyOneReply(s: Session, n: nat)
    requires Sound(s) && n < |s.frames|
    ensures forall i, j :: (0 <= i < j < |s.replies| && s.replies[i].cause == n) ==> s.replies[j].cause != n
    ensures forall i :: 0 <= i < |s.replies| && s.replies[i].cause == n ==>
      && CallsForReply(s.frames[n]) && n !in s.tasks && Answers(s.frames[n], s.replies[i].body)
      && s.replies[i].at < |s.written + s.q.control|
      && Encode(s.replies[i].body) == Some((s.written + s.q.control)[s.replies[i].at].bytes)
    ensures InSession(s) && CallsForReply(s.frames[n]) ==> Replied(s.replies, n) || (n in s.tasks && IsRequest(s.frames[n]))
  {
    hide IdsExact, PermitsExact, HostReplies, IsRequest, Answers, CallsForReply, TasksSound, Encode, Replied, ReplyId, NoneForgotten,
      RepliesSound, Placed;
    RepliesOf(s.replies, s.tasks, s.frames, s.written + s.q.control);
    if n in s.tasks {
      TaskOwes(s, n);
    }
    if InSession(s) && CallsForReply(s.frames[n]) {
      Debt(s, n);
    }
  }

  lemma RepliesOf(replies: seq<Reply>, tasks: map<nat, Task>, frames: seq<Parsed>, outgoing: seq<Frame>)
    requires RepliesSound(replies, tasks, frames) && Placed(replies, outgoing)
    ensures forall i, j :: 0 <= i < j < |replies| ==> replies[i].cause != replies[j].cause
    ensures forall i :: 0 <= i < |replies| ==>
      && replies[i].cause < |frames| && replies[i].cause !in tasks
      && CallsForReply(frames[replies[i].cause]) && Answers(frames[replies[i].cause], replies[i].body)
      && replies[i].at < |outgoing| && Encode(replies[i].body) == Some(outgoing[replies[i].at].bytes)
  {
    hide Encode, CallsForReply, Answers;
    forall i | 0 <= i < |replies| ensures ReplySound(replies[i], tasks, frames) {
    }
  }

  lemma Debt(s: Session, n: nat)
    requires NoneForgotten(s) && n < |s.frames| && CallsForReply(s.frames[n])
    ensures n in s.tasks || Replied(s.replies, n)
  {
  }

  /** A queued reply carries its line's own ID exactly if that is a short string or null. */
  lemma EchoExactly(s: Session, i: nat)
    requires Sound(s) && i < |s.replies|
    ensures var r := s.replies[i]; var p := s.frames[r.cause];
      NamesMethod(p) && Field(p, "id").Some? ==>
        (Get(r.body, Ascii("id")) == Field(p, "id") <==> IsRequest(p) || Field(p, "id").value.Null?)
  {
    hide IdsExact, PermitsExact, HostReplies, CallsForReply, TasksSound, Encode, NoneForgotten, Ascii, Get;
    RepliesOf(s.replies, s.tasks, s.frames, s.written + s.q.control);
    var p := s.frames[s.replies[i].cause];
    if NamesMethod(p) && Field(p, "id").Some? {
      EchoedId(p);
    }
  }

  /** An ID is refused as a duplicate exactly while an earlier request with it is unanswered. */
  lemma DuplicateExactly(s: Session, id: Bytes)
    requires Sound(s) && InSession(s)
    ensures id in s.ids <==> exists n: nat :: Unanswered(s, n) && ReplyId(s.frames[n]) == String(id)
  {
    assert forall n: nat :: Unanswered(s, n) ==> n < |s.frames|;
    hide Sound, Unanswered, ReplyId;
    TaskIds(s);
    if id in s.ids {
      var c :| c in s.tasks && s.tasks[c].id == id;
      UnansweredAreTasks(s, c);
    } else if n: nat :| Unanswered(s, n) && n < |s.frames| && ReplyId(s.frames[n]) == String(id) {
      UnansweredAreTasks(s, n);
    }
  }

  lemma TaskIds(s: Session)
    requires Sound(s)
    ensures forall id :: id in s.ids <==> exists c :: c in s.tasks && s.tasks[c].id == id
  {
  }

  /** Requests other than compilations in progress never exceed the slots; at the limit they are refused. */
  lemma BusyExactly(s: Session, name: Bytes)
    requires Sound(s)
    ensures |Holders(s.tasks)| <= SLOTS
    ensures NoPermit(s, name) <==> name != Compile() && |Holders(s.tasks)| == SLOTS
  {
    hide Compile, IdsExact, TasksSound, RepliesSound, Placed, HostReplies, NoneForgotten;
  }

  /** When a request is taken on, every earlier request with its ID has had its reply queued. */
  lemma ReusedAfterReply(s: Session, p: Parsed, n: nat)
    requires Sound(s) && Enabled(s, Receive(p)) && |s.frames| in Received(s, p).tasks
    requires n < |s.frames| && IsRequest(s.frames[n]) && ReplyId(s.frames[n]) == ReplyId(p)
    ensures IsRequest(p) && Replied(s.replies, n)
  {
    hide Sound, Received, Classify, Unanswered, Enabled, ReplyId, IsRequest;
    TakenOn(s, p);
    var id := Classify(p).id;
    ClassifyMeaning(p);
    StillReading(s, p);
    DuplicateExactly(s, id);
    assert !Unanswered(s, n);
    AnsweredBy(s, n);
  }

  lemma StillReading(s: Session, p: Parsed)
    requires Enabled(s, Receive(p))
    ensures InSession(s)
  {
  }

  lemma AnsweredBy(s: Session, n: nat)
    requires n < |s.frames| && IsRequest(s.frames[n]) && !Unanswered(s, n)
    ensures Replied(s.replies, n)
  {
  }

  lemma TakenOn(s: Session, p: Parsed)
    requires Sound(s) && Enabled(s, Receive(p)) && |s.frames| in Received(s, p).tasks
    ensures Classify(p).Request? && Classify(p).id !in s.ids && !NoPermit(s, Classify(p).name)
  {
    hide Classify, Response, Encode, Duplicate, Busy, Compile, CallsForReply, HostReplies, Placed, Answers;
  }

  /** A line answered at once: refused, a duplicate, or one request too many. */
  predicate RefusedNow(s: Session, p: Parsed) {
    CallsForReply(p) && (IsRequest(p) ==> Classify(p).Request? && (Classify(p).id in s.ids || NoPermit(s, Classify(p).name)))
  }

  /** Reading a line ends the session only when its immediate reply finds 64 control frames queued. */
  lemma LeavesExactly(s: Session, p: Parsed)
    requires Sound(s) && Enabled(s, Receive(p))
    ensures !Received(s, p).open <==> RefusedNow(s, p) && |s.q.control| >= CONTROL_SLOTS
  {
    hide Response, Encode, Duplicate, Busy, Compile, Classify, CallsForReply, IsRequest, Sound;
    ClassifyMeaning(p);
    CallsExclude(p);
    RefusalsBrief(p);
    match Classify(p)
    case Refusal(error) => RefusalFits(Null, error);
    case Request(id, name, _) =>
      RequestIdShort(p);
      RefusalFits(String(id), Duplicate());
      RefusalFits(String(id), Busy());
    case _ =>
  }

  lemma RequestIdShort(p: Parsed)
    requires Classify(p).Request?
    ensures |Classify(p).id| <= MAX_ID
  {
    hide Ascii;
  }

  // ----- Shutdown -----

  /** The acknowledgement of a shutdown request: no refusal, and no other error. */
  ghost predicate ShutdownReply(frames: seq<Parsed>, r: Reply) {
    && r.cause < |frames| && Classify(frames[r.cause]).Request? && Classify(frames[r.cause]).name == Shutdown()
    && r.body == Response(String(Classify(frames[r.cause]).id), Ok(Goodbye()))
  }

  /** The loop is told to stop only after the reply to `sf.shutdown` was queued. */
  ghost predicate StopAnswered(s: Session) {
    s.stopping && !s.q.closed ==> exists i :: 0 <= i < |s.replies| && ShutdownReply(s.frames, s.replies[i])
  }

  lemma OnlyGrows(s: Session, step: Step)
    requires Enabled(s, step)
    ensures var t := Apply(s, step);
      && s.frames <= t.frames && s.replies <= t.replies && (s.q.closed ==> t.q.closed)
      && (t.stopping != s.stopping ==> step.Answer?)
  {
    hide Response, Encode, EncodeControl, Sendable, Duplicate, Busy, Compile, Shutdown, Classify;
    if step.Outside? {
      ClosedStays(s.q, step.op);
    }
  }

  lemma StopInherited(s: Session, t: Session)
    requires StopAnswered(s) && s.stopping && !s.q.closed && s.frames <= t.frames && s.replies <= t.replies
    ensures StopAnswered(t)
  {
    hide Classify, Shutdown, Response, Goodbye;
    var i :| 0 <= i < |s.replies| && ShutdownReply(s.frames, s.replies[i]);
    assert ShutdownReply(t.frames, t.replies[i]);
  }

  lemma AnswerStops(s: Session, c: nat, result: Result)
    requires Sound(s) && c in s.tasks && !s.stopping && !s.q.closed && Plausible(s.tasks[c], result)
    ensures StopAnswered(Answered(s, c, result))
  {
    hide Response, Encode, EncodeControl, Sendable, Compile, Shutdown, Classify, CallsForReply, ReplyId, PushControl, Placed,
      IdsExact, PermitsExact, RepliesSound, NoneForgotten, HostReplies, Answers;
    var t, task := Answered(s, c, result), s.tasks[c];
    TaskOwes(s, c);
    AnswerFits(s.frames[c], task.id, result);
    if t.stopping {
      assert t.replies[|s.replies|].cause == c;
      GoodbyeFits(task.id);
      assert t.replies[|s.replies|].body == Sendable(Response(String(task.id), Ok(Goodbye())), task.id);
      FittingSent(Response(String(task.id), Ok(Goodbye())), task.id);
      assert ShutdownReply(t.frames, t.replies[|s.replies|]);
    }
  }

  lemma FittingSent(v: Value, id: Bytes)
    requires Encode(v).Some?
    ensures Sendable(v, id) == v
  {
    hide Encode;
  }

  lemma StopKeeps(s: Session, step: Step)
    requires Sound(s) && StopAnswered(s) && Enabled(s, step)
    ensures StopAnswered(Apply(s, step))
  {
    hide Sound, Enabled, Apply, Answered, StopAnswered;
    OnlyGrows(s, step);
    if s.stopping && !s.q.closed {
      StopInherited(s, Apply(s, step));
    } else if step.Answer? && !s.q.closed {
      EnabledAnswer(s, step);
      AnswerStops(s, step.c, step.result);
    } else {
      NothingToAnswer(Apply(s, step));
    }
  }

  /** In every reachable session a stop was answered first, unless the outbox is closed. */
  lemma StopsAnswered(run: seq<Session>)
    requires IsRun(run)
    ensures forall i :: 0 <= i < |run| ==> StopAnswered(run[i])
  {
    StartSound();
    NothingToAnswer(START);
    hide Sound, Apply, Enabled, StopAnswered;
    forall s, t | Sound(s) && StopAnswered(s) && Steps(s, t) ensures Sound(t) && StopAnswered(t) {
      var step :| Enabled(s, step) && t == Apply(s, step);
      StepKeeps(s, step);
      StopKeeps(s, step);
    }
    Runs.Invariant(run, START, Steps, s => Sound(s) && StopAnswered(s));
  }

  lemma NothingToAnswer(s: Session)
    requires !s.stopping || s.q.closed
    ensures StopAnswered(s)
  {
    hide ShutdownReply;
  }

  lemma EnabledAnswer(s: Session, step: Step)
    requires step.Answer? && Enabled(s, step)
    ensures step.c in s.tasks && Plausible(s.tasks[step.c], step.result) && Apply(s, step) == Answered(s, step.c, step.result)
  {
    hide Answered;
  }

  // ----- The loop as the program runs it -----

  class Loop {
    var open: bool
    var stopping: bool
    var ids: set<Bytes>
    var permits: nat
    var tasks: map<nat, Task>
    var routed: seq<Value>
    var lines: nat
    const out: Outbox.Outbox
    ghost var frames: seq<Parsed>
    ghost var replies: seq<Reply>
    ghost var written: seq<Frame>
    ghost var results: map<nat, Result>

    ghost predicate Valid()
      reads this, out
    {
      out.Valid() && lines == |frames|
    }

    ghost function State(): Session
      requires Valid()
      reads this, out
    {
      Session(open, stopping, ids, permits, tasks, out.Model(), routed, frames, replies, written, results)
    }

    constructor (out: Outbox.Outbox)
      requires out.Valid() && out.Model() == EMPTY
      ensures Valid() && State() == START && this.out == out
    {
      open, stopping, ids, permits, tasks, routed, lines := true, false, {}, SLOTS, map[], [], 0;
      this.out, frames, replies, written, results := out, [], [], [], map[];
    }

    /** Queues an encoded reply to a line if there is room. */
    method TryFrame(cause: nat, body: Value, bytes: Bytes) returns (ok: bool)
      requires Valid()
      modifies out, this`replies
      ensures Valid() && ok == ControlFits(old(State()).q)
      ensures State() == if ok then QueueReply(old(State()), cause, body, bytes) else old(State())
    {
      hide WellFormed, Total, Outbox.Keyed, Outbox.LanesOf;
      ghost var at := |written| + |out.control|;
      ok := out.PushControl(Frame(bytes, Other));
      if ok {
        replies := replies + [Reply(cause, body, at)];
      }
    }

    /** Queues a reply to a line without waiting. */
    method TryControl(cause: nat, body: Value) returns (ok: bool)
      requires Valid()
      modifies out, this`replies
      ensures Valid() && ok == (Encode(body).Some? && ControlFits(old(State()).q))
      ensures State() == if ok then QueueReply(old(State()), cause, body, Encode(body).value) else old(State())
    {
      hide Encode, QueueReply;
      var bytes := Encode(body);
      if bytes.None? {
        return false;
      }
      ok := TryFrame(cause, body, bytes.value);
    }

    method Refuse(cause: nat, id: Value, error: Result)
      requires Valid()
      modifies out, this
      ensures Valid() && State() == Refused(old(State()), cause, id, error)
    {
      var ok := TryControl(cause, Response(id, error));
      if !ok {
        Leave();
      }
    }

    method Leave()
      requires Valid()
      modifies this
      ensures Valid() && State() == Ended(old(State()))
    {
      open, ids, permits, tasks := false, {}, SLOTS, map[];
    }

    /** One line, branch by branch. */
    method Receive(p: Parsed)
      requires Valid() && Enabled(State(), Step.Receive(p))
      modifies this, out
      ensures Valid() && State() == Received(old(State()), p)
    {
      hide Response, Ascii, Get, Encode, Refused, Spawned, Compile, Duplicate, Busy, WellFormed, Total, Outbox.Keyed, Outbox.LanesOf;
      var cause := lines;
      frames, lines := frames + [p], lines + 1;
      if p.Bad? {
        Refuse(cause, Null, ParseError(p.detail));
        return;
      }
      var value := p.value;
      if !value.Object? || TextOf(Get(value, Ascii("jsonrpc"))) != Some(Ascii("2.0")) {
        Refuse(cause, Null, Invalid("expected JSON-RPC 2.0 object"));
        return;
      }
      var called := Get(value, Ascii("method"));
      var id := Get(value, Ascii("id"));
      if called.None? && id.Some? && (Get(value, Ascii("result")).Some? || Get(value, Ascii("error")).Some?) {
        routed := routed + [value];
        return;
      }
      var name := TextOf(called);
      if name.None? {
        Refuse(cause, Null, Invalid("method must be a string"));
        return;
      }
      if id.Some? && (TextOf(id).None? || |TextOf(id).value| > MAX_ID) {
        Refuse(cause, Null, Invalid("IDs must be strings up to 128 bytes"));
        return;
      }
      var params := match Get(value, Ascii("params")) case Some(v) => v case None => Object([]);
      if id.None? {
        return;
      }
      Admit(cause, Task(TextOf(id).value, name.value, params));
    }

    /** A well-formed request: refused as a duplicate, refused without a permit, or taken on. */
    method Admit(cause: nat, task: Task)
      requires Valid()
      modifies this, out
      ensures Valid()
      ensures State() == var s := old(State());
        if task.id in s.ids then Refused(s, cause, String(task.id), Duplicate())
        else if NoPermit(s, task.name) then Refused(s, cause, String(task.id), Busy())
        else Spawned(s, cause, task)
    {
      hide Refused, Duplicate, Busy, Compile;
      if task.id in ids {
        Refuse(cause, String(task.id), Duplicate());
        return;
      }
      if task.name != Compile() {
        if permits == 0 {
          Refuse(cause, String(task.id), Busy());
          return;
        }
        permits := permits - 1;
      }
      ids := ids + {task.id};
      tasks := tasks[cause := task];
    }

    /** The end of a task, which tells the loop to stop after a shutdown. */
    method Release(c: nat, result: Result)
      requires Valid() && c in tasks
      modifies this
      ensures Valid() && State() == Released(old(State()), c, result)
    {
      hide Compile, Shutdown, WellFormed, Total, Outbox.Keyed, Outbox.LanesOf;
      if tasks[c].name == Shutdown() && result.Ok? {
        stopping := true;
      }
      ids := ids - {tasks[c].id};
      if tasks[c].name != Compile() {
        permits := permits + 1;
      }
      tasks, results := tasks - {c}, results[c := result];
    }

    /** A pass of a task's `control`, with what the task does once it is over. */
    method Answer(c: nat, result: Result) returns (done: bool)
      requires Valid() && c in tasks
      modifies this, out
      ensures Valid() && State() == Answered(old(State()), c, result)
    {
      hide Response, Encode, EncodeControl, Sendable, Compile, Shutdown, Released, QueueReply;
      ghost var before := State();
      var task := tasks[c];
      var body := Response(String(task.id), result);
      var bytes := EncodeControl(body);
      if bytes.Some? && !out.closed {
        var ok := TryFrame(c, Sendable(body, task.id), bytes.value);
        if !ok {
          return false;
        }
        QueuedThenReleased(before, c, result, Sendable(body, task.id), bytes.value);
      }
      Release(c, result);
      done := true;
    }
  }

  /** What a task queues and what it gives back do not meet. */
  lemma QueuedThenReleased(s: Session, c: nat, result: Result, body: Value, bytes: Bytes)
    requires c in s.tasks
    ensures c in QueueReply(s, c, body, bytes).tasks
    ensures Released(QueueReply(s, c, body, bytes), c, result) == QueueReply(Released(s, c, result), c, body, bytes)
  {
    hide Compile, PushControl;
  }
}
