/**
  What the replies of a session say (src/protocol.rs:163-168, 246-289; src/outbox.rs:62-69):
  each is the handler's own result for its request, or the refusal its line deserved.
 */
module Replies {
  import opened Prelude
  import opened Json
  import opened Framing
  import opened Messages
  import opened Admission
  import OutboxModel
  import Runs

  // ----- Errors and results as they read on the wire -----

  /** The reply has an error with this code, kind and message, and no result. */
  ghost predicate ErrorSays(body: Value, code: int, kind: Bytes, message: Bytes) {
    && Get(body, Ascii("result")).None?
    && exists error, data ::
         && Get(body, Ascii("error")) == Some(error)
         && Get(error, Ascii("code")) == Some(Integer(code)) && Get(error, Ascii("message")) == Some(String(message))
         && Get(error, Ascii("data")) == Some(data) && Get(data, Ascii("kind")) == Some(String(kind))
  }

  /** The reply has this result, and no error. */
  ghost predicate ResultSays(body: Value, v: Value) {
    Get(body, Ascii("result")) == Some(v) && Get(body, Ascii("error")).None?
  }

  /** What a handler's outcome makes the reply say. */
  ghost predicate Says(body: Value, result: Result) {
    match result
    case Ok(v) => ResultSays(body, v)
    case Err(code, kind, message) => ErrorSays(body, code, kind, message)
  }

  lemma ErrorReads(code: int, kind: Bytes, message: Bytes)
    ensures var error := ErrorOf(code, kind, message).value;
      && Get(error, Ascii("code")) == Some(Integer(code)) && Get(error, Ascii("message")) == Some(String(message))
      && exists data :: Get(error, Ascii("data")) == Some(data) && Get(data, Ascii("kind")) == Some(String(kind))
  {
    AsciiHead("code");
    AsciiHead("data");
    hide Ascii, Find, Integer;
    assert |Ascii("code")| == 4 && |Ascii("data")| == 4 && |Ascii("message")| == 7;
    var inner := Member(Ascii("kind"), String(kind));
    var a, b := Member(Ascii("code"), Integer(code)), Member(Ascii("data"), Object([inner]));
    var c := Member(Ascii("message"), String(message));
    FindInThree(a, b, c, Ascii("code"));
    FindInThree(a, b, c, Ascii("data"));
    FindInThree(a, b, c, Ascii("message"));
    OnlyFound(inner);
    assert Get(Object([inner]), Ascii("kind")) == Some(String(kind));
  }

  lemma OnlyFound(m: Member)
    ensures Find([m], m.key) == Some(m.value)
  {
  }

  lemma ResponseSays(id: Value, result: Result)
    ensures Says(Response(id, result), result)
  {
    hide Ascii, Get, Response, Integer, ErrorOf;
    ResponseFields(id, result);
    if result.Err? {
      ErrorReads(result.code, result.kind, result.message);
    }
  }

  // ----- Every reply is explained -----

  ghost predicate ResultsPast(results: map<nat, Result>, tasks: map<nat, Task>, frames: seq<Parsed>) {
    forall c :: c in results ==> c < |frames| && IsRequest(frames[c])
  }

  /** The refusal a line deserves: by its kind, or because its ID or the permits were taken. */
  predicate Deserves(p: Parsed, error: Result) {
    if IsRequest(p) then error == Duplicate() || error == Busy()
    else Classify(p).Refusal? && error == Classify(p).error
  }

  ghost predicate ReplyExplained(r: Reply, frames: seq<Parsed>, results: map<nat, Result>) {
    && r.cause < |frames|
    && var p := frames[r.cause];
       if r.cause in results then
         IsRequest(p) && r.body == Sendable(Response(ReplyId(p), results[r.cause]), ReplyId(p).text)
       else exists error :: Deserves(p, error) && r.body == Response(ReplyId(p), error)
  }

  ghost predicate Explained(s: Session) {
    && ResultsPast(s.results, s.tasks, s.frames)
    && forall i :: 0 <= i < |s.replies| ==> ReplyExplained(s.replies[i], s.frames, s.results)
  }

  /** Old replies stay explained when lines are added, and results of lines not yet answered. */
  lemma StillExplained(r: Reply, frames: seq<Parsed>, results: map<nat, Result>, more: seq<Parsed>, later: map<nat, Result>)
    requires ReplyExplained(r, frames, results) && frames <= more
    requires if r.cause in results then r.cause in later && later[r.cause] == results[r.cause] else r.cause !in later
    ensures ReplyExplained(r, more, later)
  {
    hide IsRequest, Sendable, Response, ReplyId, Deserves;
    assert more[r.cause] == frames[r.cause];
  }

  lemma LaterExplained(s: Session, p: Parsed)
    requires Explained(s)
    ensures ResultsPast(s.results, s.tasks, s.frames + [p]) && |s.frames| !in s.results
    ensures forall i :: 0 <= i < |s.replies| ==> ReplyExplained(s.replies[i], s.frames + [p], s.results)
  {
    hide IsRequest, ReplyExplained;
    forall i | 0 <= i < |s.replies| ensures ReplyExplained(s.replies[i], s.frames + [p], s.results) {
      StillExplained(s.replies[i], s.frames, s.results, s.frames + [p], s.results);
    }
  }

  lemma RefusedExplained(s: Session, p: Parsed, error: Result)
    requires Explained(s) && Deserves(p, error)
    ensures Explained(Refused(Logged(s, p), |s.frames|, ReplyId(p), error))
  {
    hide IsRequest, Deserves, ReplyId, Response, Encode, Explained, OutboxModel.PushControl;
    LoggedExplained(s, p);
    if Encode(Response(ReplyId(p), error)).Some? && OutboxModel.ControlFits(s.q) {
      FreshReply(Logged(s, p), |s.frames|, error, Encode(Response(ReplyId(p), error)).value);
    } else {
      SameExplained(Logged(s, p), Ended(Logged(s, p)));
    }
  }

  lemma LoggedExplained(s: Session, p: Parsed)
    requires Explained(s)
    ensures Explained(Logged(s, p)) && |s.frames| !in s.results
  {
    LaterExplained(s, p);
    hide IsRequest, ReplyExplained;
  }

  /** A refusal queued for a line that has no result. */
  lemma FreshReply(s: Session, cause: nat, error: Result, bytes: Bytes)
    requires Explained(s) && cause < |s.frames| && cause !in s.results && Deserves(s.frames[cause], error)
    ensures Explained(QueueReply(s, cause, Response(ReplyId(s.frames[cause]), error), bytes))
  {
    hide IsRequest, Deserves, ReplyId, Response, Sendable, OutboxModel.PushControl;
    var body := Response(ReplyId(s.frames[cause]), error);
    var t := QueueReply(s, cause, body, bytes);
    assert ReplyExplained(t.replies[|s.replies|], t.frames, t.results);
    hide ReplyExplained;
    forall i | 0 <= i < |t.replies| ensures ReplyExplained(t.replies[i], t.frames, t.results) {
      assert i < |s.replies| ==> t.replies[i] == s.replies[i];
    }
  }

  lemma ReceivedExplained(s: Session, p: Parsed)
    requires Explained(s) && Enabled(s, Receive(p))
    ensures Explained(Received(s, p))
  {
    ClassifyMeaning(p);
    LaterExplained(s, p);
    hide Classify, Refused, ReplyExplained, ResultsPast, Duplicate, Busy, Compile, ReplyId, IsResponse, IsNotification, IsRequest, CallsForReply;
    match Classify(p)
    case Refusal(error) =>
      KindDeserves(p, error);
      RefusedExplained(s, p, error);
    case Request(id, name, _) =>
      RequestDeserves(p);
      if id in s.ids {
        RefusedExplained(s, p, Duplicate());
      } else if NoPermit(s, name) {
        RefusedExplained(s, p, Busy());
      }
    case _ =>
  }

  lemma KindDeserves(p: Parsed, error: Result)
    requires Classify(p) == Refusal(error)
    ensures Deserves(p, error)
  {
    hide Classify;
    ClassifyMeaning(p);
  }

  lemma RequestDeserves(p: Parsed)
    requires IsRequest(p)
    ensures Deserves(p, Duplicate()) && Deserves(p, Busy())
  {
  }

  lemma AnsweredExplained(s: Session, c: nat, result: Result)
    requires Sound(s) && Explained(s) && c in s.tasks
    ensures Explained(Answered(s, c, result))
  {
    hide IdsExact, PermitsExact, Placed, NoneForgotten, HostReplies, Classify, CallsForReply, IsRequest, ReplyId, Answers,
      Response, Encode, EncodeControl, Sendable, Compile, Shutdown, OutboxModel.PushControl, Deserves;
    TaskOwes(s, c);
    NotYetReplied(s, c);
    OwesText(s.frames[c], s.tasks[c].id);
    hide RepliesSound;
    var t := Answered(s, c, result);
    forall i | 0 <= i < |t.replies| ensures ReplyExplained(t.replies[i], t.frames, t.results) {
      if i < |s.replies| {
        assert t.replies[i] == s.replies[i] && s.replies[i].cause != c;
        StillExplained(s.replies[i], s.frames, s.results, t.frames, t.results);
      }
    }
  }

  lemma OwesText(p: Parsed, id: Bytes)
    requires ReplyId(p) == String(id)
    ensures ReplyId(p).text == id
  {
  }

  lemma StepExplained(s: Session, step: Step)
    requires Sound(s) && Explained(s) && Enabled(s, step)
    ensures Explained(Apply(s, step))
  {
    hide Sound, Explained, Received, Answered;
    match step
    case Receive(p) => ReceivedExplained(s, p);
    case Answer(c, result) => AnsweredExplained(s, c, result);
    case Outside(op) => SameExplained(s, Observed(s, op));
    case Leave => SameExplained(s, Ended(s));
  }

  lemma SameExplained(s: Session, t: Session)
    requires Explained(s) && t.frames == s.frames && t.replies == s.replies && t.results == s.results
    ensures Explained(t)
  {
    hide ReplyExplained, IsRequest;
  }

  /** In every reachable session, every reply is explained. */
  lemma RunExplained(run: seq<Session>)
    requires IsRun(run)
    ensures forall i :: 0 <= i < |run| ==> Sound(run[i]) && Explained(run[i])
  {
    StartSound();
    assert Explained(START);
    hide Sound, Explained, Apply, Enabled;
    forall s, t | Sound(s) && Explained(s) && Steps(s, t) ensures Sound(t) && Explained(t) {
      var step :| Enabled(s, step) && t == Apply(s, step);
      StepKeeps(s, step);
      StepExplained(s, step);
    }
    Runs.Invariant(run, START, Steps, s => Sound(s) && Explained(s));
  }

  // ----- What that means -----

  /**
    The reply to a request that was handled says what the handler returned, if that fits a
    frame, and otherwise that the response is too large.
   */
  lemma AnswerSaysResult(s: Session, i: nat)
    requires Explained(s) && i < |s.replies| && s.replies[i].cause in s.results
    ensures var r := s.replies[i]; var result := s.results[r.cause];
      if |Print(Response(ReplyId(s.frames[r.cause]), result))| < 262144 then Says(r.body, result)
      else ErrorSays(r.body, -32003, Ascii("RESPONSE_TOO_LARGE"), Ascii("response exceeds frame limit"))
  {
    var r := s.replies[i];
    var p, result := s.frames[r.cause], s.results[r.cause];
    assert ReplyExplained(r, s.frames, s.results);
    ShortText(p);
    hide IsRequest, Ascii, Response, Integer, ReplyId, Print, Says, ErrorSays, Deserves;
    ResponseSays(ReplyId(p), result);
    TooLargeSays(ReplyId(p));
  }

  lemma ShortText(p: Parsed)
    requires IsRequest(p)
    ensures ReplyId(p).String?
  {
  }

  lemma TooLargeSays(id: Value)
    ensures ErrorSays(TooLargeReply(id), -32003, Ascii("RESPONSE_TOO_LARGE"), Ascii("response exceeds frame limit"))
  {
    ResponseSays(id, Err(-32003, Ascii("RESPONSE_TOO_LARGE"), Ascii("response exceeds frame limit")));
    hide Ascii, Get, Integer;
  }

  /** A line that was refused is told why: by its kind, or because its ID or the permits were taken. */
  lemma RefusalSaysWhy(s: Session, i: nat)
    requires Explained(s) && i < |s.replies| && s.replies[i].cause !in s.results
    ensures var r := s.replies[i]; var p := s.frames[r.cause];
      if IsRequest(p) then
        || ErrorSays(r.body, -32600, Ascii("DUPLICATE_ID"), Ascii("request ID already outstanding"))
        || ErrorSays(r.body, -32001, Ascii("BUSY"), Ascii("too many requests"))
      else if p.Bad? then ErrorSays(r.body, -32700, Ascii("PARSE_ERROR"), p.detail)
      else exists message :: ErrorSays(r.body, -32600, Ascii("INVALID_REQUEST"), message)
  {
    var r := s.replies[i];
    var p := s.frames[r.cause];
    assert ReplyExplained(r, s.frames, s.results);
    var error :| Deserves(p, error) && r.body == Response(ReplyId(p), error);
    ResponseSays(ReplyId(p), error);
    RefusalMeaning(p, error);
    hide IsRequest, Ascii, Response, Integer, ReplyId, ErrorSays, Deserves;
  }

  lemma RefusalMeaning(p: Parsed, error: Result)
    requires Deserves(p, error)
    ensures error.Err?
    ensures IsRequest(p) ==>
      || error == Err(-32600, Ascii("DUPLICATE_ID"), Ascii("request ID already outstanding"))
      || error == Err(-32001, Ascii("BUSY"), Ascii("too many requests"))
    ensures !IsRequest(p) && p.Bad? ==> error == Err(-32700, Ascii("PARSE_ERROR"), p.detail)
    ensures !IsRequest(p) && p.Good? ==> error.code == -32600 && error.kind == Ascii("INVALID_REQUEST")
  {
    hide Ascii, Get;
  }

  /** The end of a task records what its handler returned and queues the reply, or parks. */
  lemma AnswerRecords(s: Session, c: nat, result: Result)
    requires Sound(s) && c in s.tasks && !s.q.closed
    ensures var t := Answered(s, c, result);
      if |s.q.control| < 64 then
        && c !in t.tasks && t.results == s.results[c := result]
        && |t.replies| == |s.replies| + 1 && t.replies[|s.replies|].cause == c
      else t == s
  {
    TaskOwes(s, c);
    AnswerFits(s.frames[c], s.tasks[c].id, result);
    hide Sound, Classify, CallsForReply, IsRequest, ReplyId, Answers, Response, Encode, EncodeControl, Sendable, Compile, Shutdown;
  }

  /** A request taken on goes on being handled, or was answered with its handler's result and stays so. */
  ghost predicate CarriedOn(s: Session, t: Session, step: Step, c: nat) {
    if c in s.tasks then
      c in t.tasks || (step.Answer? && step.c == c && c in t.results && t.results[c] == step.result)
    else c in t.results && c in s.results && t.results[c] == s.results[c]
  }

  lemma TakenIsKept(s: Session, step: Step, c: nat)
    requires Enabled(s, step) && Apply(s, step).open && (c in s.tasks || c in s.results)
    ensures CarriedOn(s, Apply(s, step), step, c)
  {
    hide Apply, Enabled, Answered;
    if step.Answer? {
      EnabledAnswer(s, step);
      AnswerTakes(s, step.c, step.result, c);
    } else {
      FreshResults(s, step);
    }
  }

  lemma AnswerTakes(s: Session, answered: nat, result: Result, c: nat)
    requires answered in s.tasks && (c in s.tasks || c in s.results)
    ensures var t := Answered(s, answered, result);
      && (c in t.tasks || c in t.results)
      && (c !in s.tasks ==> c in t.results && t.results[c] == s.results[c])
      && (c in s.tasks && c !in t.tasks ==> c == answered && t.results[c] == result)
  {
    hide Response, EncodeControl, Sendable, Compile, Shutdown, OutboxModel.PushControl;
  }

  /** Every step but the answer of a task leaves the results, and an answer is of a task. */
  lemma FreshResults(s: Session, step: Step)
    requires Enabled(s, step)
    ensures !step.Answer? ==> Apply(s, step).results == s.results
    ensures !step.Answer? && Apply(s, step).open ==> forall c :: c in s.tasks ==> c in Apply(s, step).tasks
  {
    hide Response, Encode, Compile, Shutdown, Classify, OutboxModel.PushControl, Duplicate, Busy, OutboxModel.Apply;
  }

  // ----- What becomes of a request -----

  /** The last reply of the session answers line n. */
  ghost predicate LastAnswers(s: Session, before: Session, n: nat) {
    && |s.replies| == |before.replies| + 1 && s.replies[..|before.replies|] == before.replies
    && s.replies[|before.replies|].cause == n
  }

  /**
    A request with a free control slot before it is refused as a duplicate while an earlier
    one with its ID is unanswered, else refused as one too many while 48 others that do not
    compile are in progress, unless it compiles itself, and else taken on as it stands.
   */
  lemma RequestOutcome(s: Session, p: Parsed)
    requires Sound(s) && Explained(s) && Enabled(s, Receive(p)) && IsRequest(p) && |s.q.control| < 64
    ensures var t, n := Received(s, p), |s.frames|;
      if exists m: nat :: Unanswered(s, m) && ReplyId(s.frames[m]) == ReplyId(p) then
        LastAnswers(t, s, n)
        && ErrorSays(t.replies[|s.replies|].body, -32600, Ascii("DUPLICATE_ID"), Ascii("request ID already outstanding"))
      else if Field(p, "method").value != String(Ascii("sf.build.compile")) && |Holders(s.tasks)| == 48 then
        LastAnswers(t, s, n)
        && ErrorSays(t.replies[|s.replies|].body, -32001, Ascii("BUSY"), Ascii("too many requests"))
      else
        && n in t.tasks && t.replies == s.replies
        && String(t.tasks[n].id) == ReplyId(p) && String(t.tasks[n].name) == Field(p, "method").value
        && t.tasks[n].params == if Field(p, "params").Some? then Field(p, "params").value else Object([])
  {
    StillReading(s, p);
    ClassifyMeaning(p);
    RequestIdShort(p);
    var id, name := Classify(p).id, Classify(p).name;
    SameQuestion(s, p, id);
    BusyExactly(s, name);
    CompileIsCompile(name);
    hide Sound, Explained, Classify, IsRequest, Unanswered, ReplyId, Refused, Duplicate, Busy, Compile, ErrorSays, LastAnswers, Enabled,
      Holders, Ascii, NoPermit, Field;
    if id in s.ids {
      DuplicateSays(s, p, id);
    } else if NoPermit(s, name) {
      BusySays(s, p, id);
    }
  }

  lemma CompileIsCompile(name: Bytes)
    ensures name == Compile() <==> String(name) == String(Ascii("sf.build.compile"))
  {
  }

  /** The ID is taken exactly while an unanswered line asks for it. */
  lemma SameQuestion(s: Session, p: Parsed, id: Bytes)
    requires Sound(s) && InSession(s) && ReplyId(p) == String(id)
    ensures id in s.ids <==> exists m: nat :: Unanswered(s, m) && ReplyId(s.frames[m]) == ReplyId(p)
  {
    hide Sound, ReplyId;
    DuplicateExactly(s, id);
    assert forall m: nat :: Unanswered(s, m) ==> m < |s.frames|;
  }

  lemma RefusedLast(s: Session, p: Parsed, id: Value, error: Result)
    requires Encode(Response(id, error)).Some? && OutboxModel.ControlFits(s.q)
    ensures var t := Refused(Logged(s, p), |s.frames|, id, error);
      LastAnswers(t, s, |s.frames|) && t.replies[|s.replies|].body == Response(id, error)
  {
    hide Encode, Response, OutboxModel.PushControl;
    var t := Refused(Logged(s, p), |s.frames|, id, error);
    assert t.replies[..|s.replies|] == s.replies;
  }

  lemma DuplicateSays(s: Session, p: Parsed, id: Bytes)
    requires |id| <= MAX_ID && !s.q.closed && |s.q.control| < 64
    ensures var t := Refused(Logged(s, p), |s.frames|, String(id), Duplicate());
      && LastAnswers(t, s, |s.frames|)
      && ErrorSays(t.replies[|s.replies|].body, -32600, Ascii("DUPLICATE_ID"), Ascii("request ID already outstanding"))
  {
    hide Ascii, Encode, Response, LastAnswers, ErrorSays, Refused;
    DuplicateBrief();
    RefusalFits(String(id), Duplicate());
    RefusedLast(s, p, String(id), Duplicate());
    ResponseSays(String(id), Duplicate());
  }

  lemma BusySays(s: Session, p: Parsed, id: Bytes)
    requires |id| <= MAX_ID && !s.q.closed && |s.q.control| < 64
    ensures var t := Refused(Logged(s, p), |s.frames|, String(id), Busy());
      && LastAnswers(t, s, |s.frames|)
      && ErrorSays(t.replies[|s.replies|].body, -32001, Ascii("BUSY"), Ascii("too many requests"))
  {
    hide Ascii, Encode, Response, LastAnswers, ErrorSays, Refused;
    DuplicateBrief();
    RefusalFits(String(id), Busy());
    RefusedLast(s, p, String(id), Busy());
    ResponseSays(String(id), Busy());
  }

  lemma DuplicateBrief()
    ensures BriefError(Duplicate()) && BriefError(Busy())
  {
    hide Ascii;
  }

  // ----- Stopping -----

  /** The handler of a shutdown request succeeded. */
  ghost predicate ShutdownDone(s: Session, c: nat) {
    && c in s.results && s.results[c].Ok? && c < |s.frames|
    && Classify(s.frames[c]).Request? && Classify(s.frames[c]).name == Ascii("sf.shutdown")
  }

  /** The loop is told to stop exactly if a shutdown was handled with success. */
  ghost predicate StopsExactly(s: Session) {
    s.stopping <==> exists c: nat :: ShutdownDone(s, c)
  }

  lemma SameStops(s: Session, t: Session)
    requires StopsExactly(s) && t.stopping == s.stopping && t.results == s.results && s.frames <= t.frames
    requires forall c :: c in s.results ==> c < |s.frames|
    ensures StopsExactly(t)
  {
    hide Classify, Ascii;
    assert forall c: nat :: ShutdownDone(t, c) <==> ShutdownDone(s, c);
  }

  lemma AnsweredStops(s: Session, c: nat, result: Result)
    requires Sound(s) && Explained(s) && StopsExactly(s) && c in s.tasks && c !in s.results
    ensures StopsExactly(Answered(s, c, result))
  {
    hide Sound, Explained, Classify, Answered, Ascii, StopsExactly;
    TaskNamed(s, c);
    AnsweredEffect(s, c, result);
    var t := Answered(s, c, result);
    if t != s {
      StopsMore(s, t, c, result);
    }
  }

  lemma AnsweredEffect(s: Session, c: nat, result: Result)
    requires c in s.tasks
    ensures var t := Answered(s, c, result);
      t != s ==>
        && t.results == s.results[c := result] && t.frames == s.frames
        && t.stopping == (s.stopping || (s.tasks[c].name == Ascii("sf.shutdown") && result.Ok?))
  {
    hide Response, EncodeControl, Sendable, Compile, Ascii, OutboxModel.PushControl;
  }

  lemma StopsMore(s: Session, t: Session, c: nat, result: Result)
    requires StopsExactly(s) && c !in s.results && c < |s.frames| && Classify(s.frames[c]).Request?
    requires t.results == s.results[c := result] && t.frames == s.frames
    requires t.stopping == (s.stopping || (Classify(s.frames[c]).name == Ascii("sf.shutdown") && result.Ok?))
    ensures StopsExactly(t)
  {
    hide Classify, Ascii;
    assert forall d: nat :: d != c ==> (ShutdownDone(t, d) <==> ShutdownDone(s, d));
    assert !ShutdownDone(s, c);
    assert ShutdownDone(t, c) <==> Classify(s.frames[c]).name == Ascii("sf.shutdown") && result.Ok?;
  }

  lemma TaskNamed(s: Session, c: nat)
    requires Sound(s) && c in s.tasks
    ensures c < |s.frames| && Classify(s.frames[c]).Request? && Classify(s.frames[c]).name == s.tasks[c].name
  {
    hide IdsExact, PermitsExact, RepliesSound, Placed, NoneForgotten, HostReplies, Classify;
  }

  /** A task that is live has no result yet. */
  ghost predicate ResultsApart(s: Session) {
    forall c :: c in s.tasks ==> c !in s.results
  }

  ghost predicate Stoppable(s: Session) {
    Sound(s) && Explained(s) && ResultsApart(s) && StopsExactly(s)
  }

  lemma StepStops(s: Session, step: Step)
    requires Stoppable(s) && Enabled(s, step)
    ensures Stoppable(Apply(s, step))
  {
    StepKeeps(s, step);
    StepExplained(s, step);
    ResultsBounded(s);
    StepApart(s, step);
    hide Sound, Explained, ResultsApart, Apply, Enabled, StopsExactly;
    if step.Answer? {
      EnabledAnswer(s, step);
      LiveApart(s, step.c);
      AnsweredStops(s, step.c, step.result);
    } else {
      OnlyGrows(s, step);
      FreshResults(s, step);
      SameStops(s, Apply(s, step));
    }
  }

  lemma ResultsBounded(s: Session)
    requires Explained(s)
    ensures forall c :: c in s.results ==> c < |s.frames|
  {
    hide ReplyExplained, IsRequest;
  }

  lemma LiveApart(s: Session, c: nat)
    requires ResultsApart(s) && c in s.tasks
    ensures c !in s.results
  {
  }

  lemma StepApart(s: Session, step: Step)
    requires Explained(s) && ResultsApart(s) && Enabled(s, step)
    ensures ResultsApart(Apply(s, step))
  {
    hide Explained, Apply, Enabled, Received, Answered;
    ResultsBounded(s);
    match step
    case Receive(p) =>
      FreshResults(s, step);
      ReceivedTasks(s, p);
      ReceiveApplied(s, p);
    case Answer(c, result) =>
      EnabledAnswer(s, step);
      AnsweredApart(s, c, result);
    case Outside(op) => FewerTasks(s, step);
    case Leave => FewerTasks(s, step);
  }

  lemma ReceiveApplied(s: Session, p: Parsed)
    requires Enabled(s, Receive(p))
    ensures Apply(s, Receive(p)) == Received(s, p)
  {
    hide Received;
  }

  lemma ReceivedTasks(s: Session, p: Parsed)
    ensures forall c :: c in Received(s, p).tasks ==> c in s.tasks || c == |s.frames|
  {
    hide Response, Encode, Compile, Classify, OutboxModel.PushControl, Duplicate, Busy;
  }

  lemma AnsweredApart(s: Session, c: nat, result: Result)
    requires ResultsApart(s) && c in s.tasks
    ensures ResultsApart(Answered(s, c, result))
  {
    hide Response, EncodeControl, Sendable, Compile, Shutdown, OutboxModel.PushControl;
  }

  lemma FewerTasks(s: Session, step: Step)
    requires Enabled(s, step) && (step.Outside? || step.Leave?)
    ensures Apply(s, step).results == s.results
    ensures forall c :: c in Apply(s, step).tasks ==> c in s.tasks
  {
    hide Received, Answered, OutboxModel.Apply;
  }

  /** Once a shutdown was handled with success, in whatever reachable session, no further line is read. */
  lemma ShutdownStopsReading(run: seq<Session>, i: nat, p: Parsed)
    requires IsRun(run) && i < |run|
    ensures StopsExactly(run[i])
    ensures (exists c: nat :: ShutdownDone(run[i], c)) ==> !Enabled(run[i], Receive(p))
  {
    StartSound();
    assert Stoppable(START);
    hide Stoppable, Apply, Enabled;
    forall s, t | Stoppable(s) && Steps(s, t) ensures Stoppable(t) {
      var step :| Enabled(s, step) && t == Apply(s, step);
      StepStops(s, step);
    }
    Runs.Invariant(run, START, Steps, Stoppable);
    StoppedReadsNothing(run[i], p);
  }

  lemma StoppedReadsNothing(s: Session, p: Parsed)
    requires Stoppable(s)
    ensures StopsExactly(s) && (s.stopping ==> !Enabled(s, Receive(p)))
  {
    hide Sound, Explained, ResultsApart;
  }

  /** Leaving the loop aborts every request still in progress, in whatever reachable session. */
  lemma LeftHasNoTasks(run: seq<Session>, i: nat)
    requires IsRun(run) && i < |run| && !run[i].open
    ensures run[i].tasks == map[] && run[i].ids == {} && run[i].permits == 48
  {
    hide Apply, Enabled;
    forall s, t | Cleared(s) && Steps(s, t) ensures Cleared(t) {
      var step :| Enabled(s, step) && t == Apply(s, step);
      StepClears(s, step);
    }
    Runs.Invariant(run, START, Steps, Cleared);
  }

  ghost predicate Cleared(s: Session) {
    !s.open ==> s.tasks == map[] && s.ids == {} && s.permits == 48
  }

  lemma StepClears(s: Session, step: Step)
    requires Cleared(s) && Enabled(s, step)
    ensures Cleared(Apply(s, step))
  {
    hide Response, Encode, EncodeControl, Sendable, Compile, Shutdown, Classify, OutboxModel.PushControl, OutboxModel.Apply, Duplicate, Busy;
  }
}
