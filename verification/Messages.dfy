/**
  What crosses the wire (src/protocol.rs:163-168, 246-277): one JSON value a line, taken
  apart as sections 4 and 5 of JSON-RPC 2.0 ask, and the replies the request loop builds.
 */
module Messages {
  import opened Prelude
  import opened Json
  import opened Framing
  import HostLedger
  import JsonLimits


  // ----- Messages -----

  /** A line after parsing; the detail is the parser's message, cut to the limit. */
  datatype Parsed = Bad(detail: Bytes) | Good(value: Value)

  datatype Result = Ok(value: Value) | Err(code: int, kind: Bytes, message: Bytes)

  function TextOf(v: Option<Value>): Option<Bytes> {
    match v
    case Some(String(s)) => Some(s)
    case _ => None
  }

  function Response(id: Value, result: Result): Value {
    var idMember, version := Member(Ascii("id"), id), Member(Ascii("jsonrpc"), String(Ascii("2.0")));
    match result
    case Ok(v) => Object([idMember, version, Member(Ascii("result"), v)])
    case Err(code, kind, message) => ErrorReply(id, code, kind, message)
  }

  function ParseError(detail: Bytes): Result {
    Err(-32700, Ascii("PARSE_ERROR"), detail)
  }

  function Invalid(message: string): Result {
    Err(-32600, Ascii("INVALID_REQUEST"), Ascii(message))
  }

  function Duplicate(): Result {
    Err(-32600, Ascii("DUPLICATE_ID"), Ascii("request ID already outstanding"))
  }

  function Busy(): Result {
    Err(-32001, Ascii("BUSY"), Ascii("too many requests"))
  }

  function Compile(): Bytes {
    Ascii("sf.build.compile")
  }

  function Shutdown(): Bytes {
    Ascii("sf.shutdown")
  }

  /** The only result of a shutdown. */
  function Goodbye(): Value {
    Object([Member(Ascii("shutdown"), Bool(true))])
  }

  /** What the loop makes of one line, before it looks at the session. */
  datatype Incoming =
    | Refusal(error: Result)
    | HostReply
    | Notice
    | Request(id: Bytes, name: Bytes, params: Value)

  function Field(p: Parsed, key: string): Option<Value> {
    if p.Good? then Get(p.value, Ascii(key)) else None
  }

  function Classify(p: Parsed): Incoming {
    if p.Bad? then Refusal(ParseError(p.detail))
    else if !p.value.Object? || TextOf(Field(p, "jsonrpc")) != Some(Ascii("2.0")) then
      Refusal(Invalid("expected JSON-RPC 2.0 object"))
    else if Field(p, "method").None? && Field(p, "id").Some? && (Field(p, "result").Some? || Field(p, "error").Some?) then
      HostReply
    else match TextOf(Field(p, "method"))
      case None => Refusal(Invalid("method must be a string"))
      case Some(name) =>
        var id := Field(p, "id");
        if id.Some? && (TextOf(id).None? || |TextOf(id).value| > MAX_ID) then
          Refusal(Invalid("IDs must be strings up to 128 bytes"))
        else if id.None? then Notice
        else Request(TextOf(id).value, name, match Field(p, "params") case Some(v) => v case None => Object([]))
  }

  // ----- The standard's own terms -----

  predicate Versioned(p: Parsed) {
    p.Good? && p.value.Object? && Field(p, "jsonrpc") == Some(String(Ascii("2.0")))
  }

  predicate IsResponse(p: Parsed) {
    && Versioned(p) && Field(p, "method").None? && Field(p, "id").Some?
    && (Field(p, "result").Some? || Field(p, "error").Some?)
  }

  predicate NamesMethod(p: Parsed) {
    Versioned(p) && Field(p, "method").Some? && Field(p, "method").value.String?
  }

  predicate IsNotification(p: Parsed) {
    NamesMethod(p) && Field(p, "id").None?
  }

  /** A request of this profile: its ID is a short string. */
  predicate IsRequest(p: Parsed) {
    && NamesMethod(p) && Field(p, "id").Some? && Field(p, "id").value.String?
    && |Field(p, "id").value.text| <= MAX_ID
  }

  predicate CallsForReply(p: Parsed) {
    !IsResponse(p) && !IsNotification(p)
  }

  /** The ID a reply must carry: the request's own, or null when there is none to echo. */
  function ReplyId(p: Parsed): Value {
    if IsRequest(p) then Field(p, "id").value else Null
  }

  /** Every line is exactly one of request, notification, response, or refused. */
  lemma ClassifyMeaning(p: Parsed)
    ensures Classify(p).HostReply? <==> IsResponse(p)
    ensures Classify(p).Notice? <==> IsNotification(p)
    ensures Classify(p).Request? <==> IsRequest(p)
    ensures Classify(p).Request? ==>
      String(Classify(p).id) == ReplyId(p) && String(Classify(p).name) == Field(p, "method").value
    ensures Classify(p).Request? ==>
      Classify(p).params == (if Field(p, "params").Some? then Field(p, "params").value else Object([]))
    ensures Classify(p).Refusal? ==>
      && CallsForReply(p) && ReplyId(p) == Null && Classify(p).error.Err?
      && Classify(p).error.code == (if p.Bad? then -32700 else -32600)
  {
    hide Ascii, Get;
  }

  /** The kinds of line exclude each other. */
  lemma KindsExclude(p: Parsed)
    ensures !(IsResponse(p) && NamesMethod(p)) && !(IsNotification(p) && IsRequest(p))
  {
    hide Ascii, Get;
  }

  /** A line that names a method and an ID gets that ID back exactly if it is a request or the ID is null. */
  lemma EchoedId(p: Parsed)
    requires NamesMethod(p) && Field(p, "id").Some?
    ensures ReplyId(p) == Field(p, "id").value <==> IsRequest(p) || Field(p, "id").value.Null?
  {
    hide Ascii, Get;
  }

  /** A response yields a value exactly if it has a valid result and no error; with both it is an error. */
  lemma ResponseYieldsExactly(p: Parsed)
    requires Classify(p).HostReply?
    ensures HostLedger.ResponseAnswer(p.value).Value? <==>
      Field(p, "result").Some? && Field(p, "error").None? && JsonLimits.ValidValue(Field(p, "result").value)
    ensures Field(p, "result").Some? && Field(p, "error").Some? ==>
      HostLedger.ResponseAnswer(p.value) == HostLedger.Status(HOST_ERROR)
  {
    hide Ascii, Get, JsonLimits.ValidValue;
    ClassifyMeaning(p);
  }

  /** A line with an error and a result passes for a response, and its call ends in an error. */
  lemma BothIsRouted(id: Value, result: Value, error: Value)
    ensures var p := Good(Object([
        Member(Ascii("error"), error), Member(Ascii("id"), id),
        Member(Ascii("jsonrpc"), String(Ascii("2.0"))), Member(Ascii("result"), result)]));
      && Classify(p).HostReply? && Field(p, "result") == Some(result) && Field(p, "error") == Some(error)
      && HostLedger.ResponseAnswer(p.value) == HostLedger.Status(HOST_ERROR)
  {
    AsciiHead("method");
    AsciiHead("result");
    hide Ascii, Find, Classify, HostLedger.ResponseAnswer;
    assert |Ascii("id")| == 2 && |Ascii("error")| == 5 && |Ascii("result")| == 6 && |Ascii("jsonrpc")| == 7 && |Ascii("method")| == 6;
    var a, b := Member(Ascii("error"), error), Member(Ascii("id"), id);
    var c, d := Member(Ascii("jsonrpc"), String(Ascii("2.0"))), Member(Ascii("result"), result);
    forall key ensures Find([a, b, c, d], key) == if key == a.key then Some(a.value) else Find([b, c, d], key) {
      FindInFour(a, b, c, d, key);
    }
    FindInThree(b, c, d, Ascii("id"));
    FindInThree(b, c, d, Ascii("jsonrpc"));
    FindInThree(b, c, d, Ascii("result"));
    FindInThree(b, c, d, Ascii("method"));
    var p := Good(Object([a, b, c, d]));
    ClassifyMeaning(p);
    ResponseYieldsExactly(p);
  }

  lemma FindInFour(a: Member, b: Member, c: Member, d: Member, key: Bytes)
    ensures Find([a, b, c, d], key) == if key == a.key then Some(a.value) else Find([b, c, d], key)
  {
    assert [a, b, c, d][1..] == [b, c, d];
  }

  /** A request that names itself by a number is answered with null. */
  lemma NumberedRequestRefused()
    ensures var p := Good(Object([
        Member(Ascii("id"), Integer(1)), Member(Ascii("jsonrpc"), String(Ascii("2.0"))), Member(Ascii("method"), String([]))]));
      NamesMethod(p) && Classify(p).Refusal? && ReplyId(p) == Null && Field(p, "id").value != Null
  {
    AsciiHead("id");
    AsciiHead("jsonrpc");
    AsciiHead("method");
    hide Ascii;
    var a, b, c := Member(Ascii("id"), Integer(1)), Member(Ascii("jsonrpc"), String(Ascii("2.0"))), Member(Ascii("method"), String([]));
    var p := Good(Object([a, b, c]));
    hide Find, Integer;
    forall key ensures Find([a, b, c], key)
      == if key == a.key then Some(a.value) else if key == b.key then Some(b.value)
         else if key == c.key then Some(c.value) else None
    {
      FindInThree(a, b, c, key);
    }
    assert a.value.Number? by { IntegerIsNumber(1); }
    ClassifyMeaning(p);
  }

  lemma IntegerIsNumber(n: int)
    ensures Integer(n).Number?
  {
  }

  /** A response object of the standard: the version, the ID, and one of result and error. */
  ghost predicate Answers(p: Parsed, body: Value) {
    && Get(body, Ascii("jsonrpc")) == Some(String(Ascii("2.0")))
    && Get(body, Ascii("id")) == Some(ReplyId(p))
    && (Get(body, Ascii("result")).Some? <==> Get(body, Ascii("error")).None?)
  }

  lemma ResponseFields(id: Value, result: Result)
    ensures var body := Response(id, result);
      && Get(body, Ascii("jsonrpc")) == Some(String(Ascii("2.0")))
      && Get(body, Ascii("id")) == Some(id)
      && Get(body, Ascii("result")) == (if result.Ok? then Some(result.value) else None)
      && Get(body, Ascii("error")) == (if result.Err? then Some(ErrorOf(result.code, result.kind, result.message).value) else None)
  {
    hide Ascii, Find, Integer;
    var members := Response(id, result).members;
    forall key ensures Find(members, key)
      == if key == members[0].key then Some(members[0].value)
         else if key == members[1].key then Some(members[1].value)
         else if key == members[2].key then Some(members[2].value)
         else None
    {
      FindInThree(members[0], members[1], members[2], key);
      assert members == [members[0], members[1], members[2]];
    }
    assert |Ascii("id")| == 2 && |Ascii("error")| == 5 && |Ascii("result")| == 6 && |Ascii("jsonrpc")| == 7;
  }

  lemma FindInThree(a: Member, b: Member, c: Member, key: Bytes)
    ensures Find([a, b, c], key)
         == if key == a.key then Some(a.value) else if key == b.key then Some(b.value)
            else if key == c.key then Some(c.value) else None
  {
    assert [a, b, c][1..] == [b, c] && [b, c][1..] == [c];
    assert Find([c], key) == if key == c.key then Some(c.value) else None;
    assert Find([b, c], key) == if key == b.key then Some(b.value) else Find([c], key);
  }

  lemma NoMethodInResponse(id: Value, result: Result)
    ensures Get(Response(id, result), Ascii("method")).None?
  {
    hide Ascii, Find, Integer;
    AsciiHead("method");
    AsciiHead("result");
    assert |Ascii("id")| == 2 && |Ascii("error")| == 5 && |Ascii("jsonrpc")| == 7 && |Ascii("method")| == 6;
    var members := Response(id, result).members;
    assert members == [members[0], members[1], members[2]];
    FindInThree(members[0], members[1], members[2], Ascii("method"));
  }

  /** The replies of one side are what the other side takes for a response. */
  lemma ResponseIsResponse(id: Value, result: Result)
    ensures Classify(Good(Response(id, result))).HostReply?
  {
    hide Ascii, Get, Classify;
    ResponseFields(id, result);
    NoMethodInResponse(id, result);
    ClassifyMeaning(Good(Response(id, result)));
  }

  // ----- The loop's own replies fit a frame -----

  /** Every refusal of the loop itself is brief. */
  lemma RefusalsBrief(p: Parsed)
    requires p.Bad? ==> |p.detail| <= MAX_MESSAGE
    ensures Classify(p).Refusal? ==> BriefError(Classify(p).error)
    ensures BriefError(Duplicate()) && BriefError(Busy())
  {
    hide Ascii, Get;
  }

  ghost predicate BriefError(result: Result) {
    result.Err? && Brief(result.code, result.kind, result.message)
  }

  lemma RefusalFits(id: Value, error: Result)
    requires ShortId(id) && BriefError(error)
    ensures Encode(Response(id, error)).Some?
  {
    hide Ascii, Encode, Integer;
    ErrorReplyFits(id, error.code, error.kind, error.message);
  }

  /** The acknowledgement of a shutdown is never too large to send. */
  lemma GoodbyeFits(id: Bytes)
    requires |id| <= MAX_ID
    ensures Encode(Response(String(id), Ok(Goodbye()))).Some?
  {
    hide Ascii, Escape, PrintMembers, PrintText;
    var idMember, version := Member(Ascii("id"), String(id)), Member(Ascii("jsonrpc"), String(Ascii("2.0")));
    var shutdown := Member(Ascii("shutdown"), Bool(true));
    IdPrints(String(id));
    TextMemberLength(version);
    PrintTextLength(shutdown.key);
    MembersLength([shutdown], 100);
    var result := Member(Ascii("result"), Goodbye());
    PrintTextLength(result.key);
    MembersLength([idMember, version, result], 1000);
  }
}
