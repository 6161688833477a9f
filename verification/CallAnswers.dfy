/**
  What a host call returns, and what its cancel says (src/host.rs:32-41, 62-76, 95-114):
  the answer of a live call is what the one response received for it says.
 */
module CallAnswers {
  import opened Prelude
  import opened Json
  import opened Messages
  import opened JsonLimits
  import OutboxModel
  import L = HostLedger
  import Runs

  type Id = Bytes

  /**
    A response answers with its own result if that is within the limits and no error is
    given, with LIMIT if the result breaks them, and with HOST_ERROR in every other case.
   */
  lemma AnswerExactly(frame: Value)
    ensures forall v :: L.ResponseAnswer(frame) == L.Value(v) <==>
      Get(frame, Ascii("result")) == Some(v) && Get(frame, Ascii("error")).None? && WithinLimits(v)
    ensures L.ResponseAnswer(frame) == L.Status(-2) <==>
      && Get(frame, Ascii("result")).Some? && Get(frame, Ascii("error")).None?
      && !WithinLimits(Get(frame, Ascii("result")).value)
    ensures L.ResponseAnswer(frame) == L.Status(-5) <==>
      Get(frame, Ascii("result")).None? || Get(frame, Ascii("error")).Some?
  {
    hide Get, Ascii, Print, Nodes, Depth;
  }

  /** A call is registered, under the next serial, exactly if fewer than 16384 are pending and serials are left. */
  lemma RegisteredExactly(h: L.Host, session: Bytes, owner: Id)
    ensures var id := L.CallId(session, h.serial + 1);
      L.Register(h, session, owner)
      == if |h.pending| < 16384 && h.serial < 18446744073709551615
         then h.(serial := h.serial + 1, pending := h.pending[id := owner]) else h
  {
    hide L.CallId;
  }

  // ----- Where an answer comes from -----

  /** A response with this ID was received while the call was pending, and says this. */
  ghost predicate AnsweredIn(l: L.Ledger, m: L.Ledger, session: Bytes, id: Id, answer: L.Answer) {
    exists frame :: m == L.Apply(l, session, L.Response(frame)) && Says(l, frame, id, answer)
  }

  ghost predicate Says(l: L.Ledger, frame: Value, id: Id, answer: L.Answer) {
    Get(frame, Ascii("id")) == Some(String(id)) && id in l.host.pending && answer == L.ResponseAnswer(frame)
  }

  /** Who has an answer is pending no longer. */
  ghost predicate Settled(l: L.Ledger) {
    forall id :: id in l.calls && l.calls[id].answer.Some? ==> id !in l.host.pending
  }

  ghost predicate Sound(l: L.Ledger, session: Bytes) {
    L.Inv(l, session) && Settled(l)
  }

  lemma RoutedSays(l: L.Ledger, frame: Value)
    ensures L.Routable(l.host, frame) ==> Says(l, frame, L.ResponseId(frame).value, L.ResponseAnswer(frame))
  {
    hide Get, Ascii, L.ResponseAnswer;
  }

  /** An answer is given by a response, and by nothing else; once given it does not change. */
  lemma AnswerStep(l: L.Ledger, session: Bytes, step: L.Step, id: Id)
    requires Sound(l, session) && L.Enabled(l, step) && id in L.Apply(l, session, step).calls
    ensures var m := L.Apply(l, session, step);
      && (m.calls[id].answer.Some? ==>
            (id in l.calls && l.calls[id].answer == m.calls[id].answer) || AnsweredIn(l, m, session, id, m.calls[id].answer.value))
      && (id in l.calls && l.calls[id].answer.Some? ==> m.calls[id].answer == l.calls[id].answer)
  {
    match step
    case Begin(owner, bytes) => BeginAnswers(l, session, owner, bytes, id);
    case Response(frame) => ResponseAnswers(l, session, frame, id);
    case _ => OtherAnswers(l, session, step, id);
  }

  lemma BeginAnswers(l: L.Ledger, session: Bytes, owner: Id, bytes: Bytes, id: Id)
    requires L.Inv(l, session) && id in L.BeginCall(l, session, owner, bytes).calls
    ensures var m := L.BeginCall(l, session, owner, bytes);
      if id in l.calls then m.calls[id].answer == l.calls[id].answer else m.calls[id].answer.None?
  {
    L.NextIdIsNew(session, l.host.serial);
    hide L.CallId;
    CallsIssued(l, session);
    hide L.Inv, L.Issued;
  }

  lemma CallsIssued(l: L.Ledger, session: Bytes)
    requires L.Inv(l, session)
    ensures forall id :: id in l.calls ==> L.Issued(session, l.host.serial, id)
  {
    hide L.Issued;
  }

  lemma ResponseAnswers(l: L.Ledger, session: Bytes, frame: Value, id: Id)
    requires Sound(l, session) && id in L.Answered(l, frame).calls
    ensures var m := L.Answered(l, frame);
      && id in l.calls
      && (m.calls[id].answer != l.calls[id].answer ==>
            l.calls[id].answer.None? && AnsweredIn(l, m, session, id, m.calls[id].answer.value))
  {
    RoutedSays(l, frame);
    hide L.Inv, Get, Ascii, L.ResponseAnswer, L.ResponseId;
    assert L.Apply(l, session, L.Response(frame)) == L.Answered(l, frame);
  }

  lemma OtherAnswers(l: L.Ledger, session: Bytes, step: L.Step, id: Id)
    requires L.Enabled(l, step) && !step.Begin? && !step.Response? && id in L.Apply(l, session, step).calls
    ensures id in l.calls && L.Apply(l, session, step).calls[id].answer == l.calls[id].answer
  {
    hide L.DropGuard, L.CancelAll, L.Lists, OutboxModel.PushData, OutboxModel.Fits, OutboxModel.RemoveObject, OutboxModel.AfterNext;
  }

  lemma StepKeeps(l: L.Ledger, session: Bytes, step: L.Step)
    requires Sound(l, session) && L.Enabled(l, step)
    ensures Sound(L.Apply(l, session, step), session)
  {
    L.StepKeeps(l, session, step);
    SettledStays(l, session, step);
    hide L.Inv, Settled, L.Apply;
  }

  lemma SettledStays(l: L.Ledger, session: Bytes, step: L.Step)
    requires Sound(l, session) && L.Enabled(l, step)
    ensures Settled(L.Apply(l, session, step))
  {
    match step
    case Begin(owner, bytes) => BeginSettles(l, session, owner, bytes);
    case Response(frame) => ResponseSettles(l, frame);
    case _ => OtherSettles(l, session, step);
  }

  lemma BeginSettles(l: L.Ledger, session: Bytes, owner: Id, bytes: Bytes)
    requires Sound(l, session)
    ensures Settled(L.BeginCall(l, session, owner, bytes))
  {
    hide L.Inv, L.CallId;
  }

  lemma ResponseSettles(l: L.Ledger, frame: Value)
    requires Settled(l)
    ensures Settled(L.Answered(l, frame))
  {
    hide L.ResponseAnswer, L.ResponseId, Get;
  }

  lemma OtherSettles(l: L.Ledger, session: Bytes, step: L.Step)
    requires Settled(l) && L.Enabled(l, step) && !step.Begin? && !step.Response?
    ensures Settled(L.Apply(l, session, step))
  {
    PendingShrinks(l, session, step);
    forall id | id in L.Apply(l, session, step).calls
      ensures id in l.calls && L.Apply(l, session, step).calls[id].answer == l.calls[id].answer
    {
      OtherAnswers(l, session, step, id);
    }
    hide L.Apply, L.Enabled;
  }

  lemma PendingShrinks(l: L.Ledger, session: Bytes, step: L.Step)
    requires L.Enabled(l, step) && !step.Begin? && !step.Response?
    ensures forall id :: id in L.Apply(l, session, step).host.pending ==> id in l.host.pending
  {
    hide OutboxModel.PushData, OutboxModel.Fits, OutboxModel.RemoveObject, OutboxModel.AfterNext, L.Lists, L.CancelAll;
    if step.CancelObject? {
      L.CancelAllKeeps(l.host, step.ids);
    }
  }

  lemma RunSound(run: seq<L.Ledger>, session: Bytes)
    requires L.IsRun(run, session)
    ensures forall i :: 0 <= i < |run| ==> Sound(run[i], session)
  {
    L.StartSound(session);
    hide L.Inv;
    assert Sound(L.START, session);
    hide Sound, L.Apply, L.Enabled;
    forall l, m | Sound(l, session) && L.Moves(session)(l, m) ensures Sound(m, session) {
      var step :| L.Enabled(l, step) && m == L.Apply(l, session, step);
      StepKeeps(l, session, step);
    }
    Runs.Invariant(run, L.START, L.Moves(session), l => Sound(l, session));
  }

  lemma AnswerFollows(run: seq<L.Ledger>, session: Bytes, k: nat, id: Id)
    requires L.IsRun(run, session) && k + 1 < |run| && id in run[k + 1].calls && run[k + 1].calls[id].answer.Some?
    ensures (id in run[k].calls && run[k].calls[id].answer == run[k + 1].calls[id].answer)
      || AnsweredIn(run[k], run[k + 1], session, id, run[k + 1].calls[id].answer.value)
  {
    RunSound(run, session);
    hide Sound, L.Apply, L.Enabled, AnsweredIn;
    assert L.Moves(session)(run[k], run[k + 1]);
    var step :| L.Enabled(run[k], step) && run[k + 1] == L.Apply(run[k], session, step);
    AnswerStep(run[k], session, step, id);
  }

  /** The answer a live call holds is what a response received for it says. */
  lemma {:induction false} AnswerComesFromResponse(run: seq<L.Ledger>, session: Bytes, j: nat, id: Id)
    requires L.IsRun(run, session) && j < |run| && id in run[j].calls && run[j].calls[id].answer.Some?
    ensures exists i :: 0 <= i < j && AnsweredIn(run[i], run[i + 1], session, id, run[j].calls[id].answer.value)
    decreases j
  {
    NoCallsFirst(run, session);
    hide L.IsRun, AnsweredIn;
    AnswerFollows(run, session, j - 1, id);
    if id in run[j - 1].calls && run[j - 1].calls[id].answer == run[j].calls[id].answer {
      AnswerComesFromResponse(run, session, j - 1, id);
      var i :| 0 <= i < j - 1 && AnsweredIn(run[i], run[i + 1], session, id, run[j].calls[id].answer.value);
    } else {
      assert AnsweredIn(run[j - 1], run[j - 1 + 1], session, id, run[j].calls[id].answer.value);
    }
  }

  lemma NoCallsFirst(run: seq<L.Ledger>, session: Bytes)
    requires L.IsRun(run, session)
    ensures |run| > 0 && run[0].calls == map[]
  {
  }

  // ----- What a cancel says -----

  /** A cancel is a notification of host.cancel that names the call, printed on a line. */
  lemma CancelSays(id: Id)
    ensures var notice := L.CancelNotice(id);
      && IsNotification(Good(notice))
      && Get(notice, Ascii("method")) == Some(String(Ascii("host.cancel")))
      && (exists params :: Get(notice, Ascii("params")) == Some(params) && Get(params, Ascii("id")) == Some(String(id)))
      && L.CancelFrame(id).bytes == Print(notice) + [NEWLINE]
  {
    AsciiHead("method");
    AsciiHead("params");
    hide Ascii, Print, Find;
    assert |Ascii("id")| == 2 && |Ascii("jsonrpc")| == 7 && |Ascii("method")| == 6 && |Ascii("params")| == 6;
    var inner := Member(Ascii("id"), String(id));
    var a, b := Member(Ascii("jsonrpc"), String(Ascii("2.0"))), Member(Ascii("method"), String(Ascii("host.cancel")));
    var c := Member(Ascii("params"), Object([inner]));
    FindInThree(a, b, c, Ascii("jsonrpc"));
    FindInThree(a, b, c, Ascii("method"));
    FindInThree(a, b, c, Ascii("params"));
    FindInThree(a, b, c, Ascii("id"));
    OnlyMember(inner);
    assert Get(Object([inner]), Ascii("id")) == Some(String(id));
  }

  lemma OnlyMember(m: Member)
    ensures Find([m], m.key) == Some(m.value)
  {
  }

  // ----- The outbox under the calls -----

  /** What a step does to the outbox, as operations of the outbox. */
  function OpsOf(l: L.Ledger, step: L.Step): seq<OutboxModel.Op>
    requires (step.Push? || step.End?) ==> step.id in l.calls
  {
    match step
    case Push(id) => [OutboxModel.AddData(l.calls[id].owner, l.calls[id].frame)]
    case End(id) =>
      [OutboxModel.DropRequest(l.calls[id].owner, id)] +
      if id in l.host.pending && l.calls[id].sent then [OutboxModel.AddControl(L.CancelFrame(id))] else []
    case RemoveObject(owner) => [OutboxModel.DropObject(owner)]
    case Notify(bytes) => [OutboxModel.AddControl(OutboxModel.Frame(bytes, OutboxModel.Other))]
    case Log(owner, bytes) => [OutboxModel.AddData(owner, OutboxModel.Frame(bytes, OutboxModel.Other))]
    case Emit => [OutboxModel.Next]
    case Close => [OutboxModel.CloseAll]
    case _ => []
  }

  /**
    Every step does to the outbox just these operations, and what `next` hands out is
    written, so all that is proved of the outbox holds of the one the calls share.
   */
  lemma StepIsOps(l: L.Ledger, session: Bytes, step: L.Step)
    requires L.Inv(l, session) && L.Enabled(l, step)
    ensures L.Apply(l, session, step).host.q == OutboxModel.Run(l.host.q, OpsOf(l, step))
    ensures L.Apply(l, session, step).wire
      == l.wire + if step.Emit? && OutboxModel.Output(l.host.q).Some? then [OutboxModel.Output(l.host.q).value.frame] else []
  {
    assert l.wire + [] == l.wire;
    match step
    case CancelObject(owner, ids) =>
      L.CancelFindsNothing(l, session, owner, ids);
    case End(id) =>
      EndIsOps(l, session, id);
    case Push(id) =>
      RunOne(l.host.q, OpsOf(l, step)[0]);
      PushIsOp(l, session, id);
    case _ =>
      OthersAreOps(l, session, step);
  }

  lemma RunOne(q: OutboxModel.Queues, op: OutboxModel.Op)
    ensures OutboxModel.Run(q, [op]) == OutboxModel.Apply(q, op)
  {
    hide OutboxModel.Apply;
    assert OutboxModel.Run(OutboxModel.Apply(q, op), []) == OutboxModel.Apply(q, op);
  }

  lemma EndIsOps(l: L.Ledger, session: Bytes, id: Id)
    requires id in l.calls
    ensures L.EndCall(l, id).host.q == OutboxModel.Run(l.host.q, OpsOf(l, L.End(id))) && L.EndCall(l, id).wire == l.wire
  {
    hide L.CancelFrame, OutboxModel.RemoveRequest;
    var first, cancel := OutboxModel.DropRequest(l.calls[id].owner, id), OutboxModel.AddControl(L.CancelFrame(id));
    RunOne(l.host.q, first);
    RunOne(OutboxModel.RemoveRequest(l.host.q, l.calls[id].owner, id), cancel);
    OutboxModel.RunSplit(l.host.q, [first], [cancel]);
    assert [first] + [] == [first];
  }

  lemma PushIsOp(l: L.Ledger, session: Bytes, id: Id)
    requires id in l.calls
    ensures L.PushCall(l, id).host.q == OutboxModel.PushData(l.host.q, l.calls[id].owner, l.calls[id].frame)
    ensures L.PushCall(l, id).wire == l.wire
  {
  }

  lemma OthersAreOps(l: L.Ledger, session: Bytes, step: L.Step)
    requires L.Enabled(l, step) && !step.Push? && !step.End? && !step.CancelObject?
    ensures L.Apply(l, session, step).host.q == OutboxModel.Run(l.host.q, OpsOf(l, step))
    ensures L.Apply(l, session, step).wire
      == l.wire + if step.Emit? && OutboxModel.Output(l.host.q).Some? then [OutboxModel.Output(l.host.q).value.frame] else []
  {
    hide L.CallId, L.ResponseAnswer, L.ResponseId, OutboxModel.PushData, OutboxModel.RemoveObject, OutboxModel.AfterNext, OutboxModel.Output;
    assert l.wire + [] == l.wire;
    if OpsOf(l, step) != [] {
      RunOne(l.host.q, OpsOf(l, step)[0]);
    }
  }

  /**
    A call begins live and unsent exactly if it is registered; its request counts as sent
    exactly when the outbox took it, in bytes; its end takes it out of the live calls.
   */
  lemma CallsMove(l: L.Ledger, session: Bytes, owner: Id, bytes: Bytes, id: Id)
    ensures var m, added := L.BeginCall(l, session, owner, bytes), L.CallId(session, l.host.serial + 1);
      m.calls == if |l.host.pending| < 16384 && l.host.serial < 18446744073709551615
                 then l.calls[added := L.Call(owner, OutboxModel.Frame(bytes, OutboxModel.HostCall(added)), false, None)]
                 else l.calls
    ensures id in l.calls ==>
      && L.EndCall(l, id).calls == l.calls - {id}
      && L.PushCall(l, id).calls
         == if OutboxModel.Fits(l.host.q, l.calls[id].owner, |l.calls[id].frame.bytes|)
            then l.calls[id := l.calls[id].(sent := true)] else l.calls
  {
    hide L.CallId, L.PushCall, L.EndCall;
    if id in l.calls {
      CallMoves(l, id);
    }
  }

  lemma CallMoves(l: L.Ledger, id: Id)
    requires id in l.calls
    ensures L.EndCall(l, id).calls == l.calls - {id}
    ensures L.PushCall(l, id).calls
      == if OutboxModel.Fits(l.host.q, l.calls[id].owner, |l.calls[id].frame.bytes|)
         then l.calls[id := l.calls[id].(sent := true)] else l.calls
  {
    hide OutboxModel.Fits, OutboxModel.PushData, L.DropGuard;
  }
}
