/** One runtime process: how it answers one request and when it stops (api/runtime.py). */
module Runtime {
  import opened Common
  import opened Json
  import opened Frames

  const IDLE_SECONDS: int := 900
  const IDLE_POLL_SECONDS: int := 15
  const MAX_CONCURRENT: nat := 4
  const PROTOCOL: int := 1

  /** What the handler read from the connection. */
  datatype Incoming =
    | TooLarge
    | Unreadable
    | NotAnObject
    | Request(token: Json, protocol: Json, build: Json, database: Json, op: Json)

  /** What dispatching the operation came to. */
  datatype Outcome = Computed(result: Json) | Raised(code: string)

  datatype Reply =
    | Refused(code: string)
    | Described
    | Stopping
    | Answered(result: Json)
    | Failed(code: string)

  predicate Ascii(s: string) {
    forall i :: 0 <= i < |s| ==> s[i] as int < 128
  }

  /** The shared token, which the runtime makes of hexadecimal digits. */
  type Token = s: string | Ascii(s)

  /** The memoised build id, the database id and the shared token of a process. */
  datatype Identity = Identity(token: Token, build: string, database: string)

  /** What the handler makes of the bytes of a request; None while it waits for more. */
  function ReadRequest(stream: seq<Byte>, decode: seq<Byte> -> Incoming): Option<Incoming> {
    match Receive(stream)
    case Waiting => None
    case Oversized => Some(TooLarge)
    case Body(body, _) => Some(decode(body))
  }

  /** A framed request reaches the handler as it was sent, or as too large. */
  lemma RequestArrives(body: seq<Byte>, decode: seq<Byte> -> Incoming)
    requires Frame(body).Some?
    ensures ReadRequest(Frame(body).value, decode) == Some(if |body| <= 33554432 then decode(body) else TooLarge)
  {
    var frame := Frame(body).value;
    ReceivesUpToLimit(body, [], |frame|);
    assert frame + [] == frame && frame[..|frame|] == frame;
  }

  datatype Counters = Counters(stopping: bool, lastRequest: int, requests: nat)

  /** `asked and asked != own` */
  predicate Mismatch(asked: Json, own: string) {
    Truthy(asked) && asked != Str(own)
  }

  /** The refusals, in the order in which they are made. Comparing a token that is not ASCII raises. */
  function Refusal(id: Identity, request: Incoming): Option<string> {
    match request
    case TooLarge => Some("invalid_request")
    case Unreadable => Some("invalid_request")
    case NotAnObject => Some("runtime_failed")
    case Request(token, protocol, build, database, _) =>
      if !token.Str? then Some("forbidden")
      else if !Ascii(token.s) then Some("runtime_failed")
      else if token.s != id.token then Some("forbidden")
      else if !PyEq(protocol, Num(PROTOCOL)) then Some("protocol_mismatch")
      else if Mismatch(build, id.build) then Some("build_mismatch")
      else if Mismatch(database, id.database) then Some("database_mismatch")
      else None
  }

  function Respond(id: Identity, request: Incoming, outcome: Outcome): Reply {
    match Refusal(id, request)
    case Some(code) => Refused(code)
    case None =>
      if request.op == Str("status") then Described
      else if request.op == Str("shutdown") then Stopping
      else
        match outcome
        case Computed(result) => Answered(result)
        case Raised(code) => Failed(code)
  }

  /** A request that reaches an operation of the product: it alone counts as activity. */
  predicate IsOperation(id: Identity, request: Incoming) {
    Refusal(id, request).None? && request.op != Str("status") && request.op != Str("shutdown")
  }

  predicate IsShutdown(id: Identity, request: Incoming) {
    Refusal(id, request).None? && request.op == Str("shutdown")
  }

  function AfterServing(c: Counters, id: Identity, now: int, request: Incoming): Counters {
    if IsShutdown(id, request) then c.(stopping := true)
    else if IsOperation(id, request) then c.(lastRequest := now, requests := c.requests + 1)
    else c
  }

  /** One round of the idle watch. */
  function AfterPoll(c: Counters, now: int): Counters {
    if now - c.lastRequest > IDLE_SECONDS then c.(stopping := true) else c
  }

  /** The mutable server state of one process, with its stop event. */
  class Server {
    const id: Identity
    var stopping: bool
    var lastRequest: int
    var requests: nat

    function Now(): Counters
      reads this
    {
      Counters(stopping, lastRequest, requests)
    }

    constructor (id: Identity, now: int)
      ensures this.id == id && Now() == Counters(false, now, 0)
    {
      this.id := id;
      stopping, lastRequest, requests := false, now, 0;
    }

    method Touch(now: int)
      modifies this`lastRequest, this`requests
      ensures Now() == old(Now()).(lastRequest := now, requests := old(requests) + 1)
    {
      lastRequest := now;
      requests := requests + 1;
    }

    /** `_serve_one`, with the outcome of dispatching supplied by the caller. */
    method ServeOne(now: int, request: Incoming, outcome: Outcome) returns (reply: Reply)
      modifies this
      ensures reply == Respond(id, request, outcome)
      ensures Now() == AfterServing(old(Now()), id, now, request)
    {
      match request {
        case TooLarge => return Refused("invalid_request");
        case Unreadable => return Refused("invalid_request");
        case NotAnObject => return Refused("runtime_failed");
        case Request(_, _, _, _, _) =>
      }
      if !request.token.Str? {
        return Refused("forbidden");
      }
      if !Ascii(request.token.s) {
        return Refused("runtime_failed");
      }
      if request.token.s != id.token {
        return Refused("forbidden");
      }
      if !PyEq(request.protocol, Num(PROTOCOL)) {
        return Refused("protocol_mismatch");
      }
      if Mismatch(request.build, id.build) {
        return Refused("build_mismatch");
      }
      if Mismatch(request.database, id.database) {
        return Refused("database_mismatch");
      }
      if request.op == Str("status") {
        return Described;
      }
      if request.op == Str("shutdown") {
        stopping := true;
        return Stopping;
      }
      Touch(now);
      match outcome
      case Computed(result) => return Answered(result);
      case Raised(code) => return Failed(code);
    }

    /** One round of `_idle_watch`. */
    method Poll(now: int)
      modifies this`stopping
      ensures Now() == AfterPoll(old(Now()), now)
    {
      if now - lastRequest > IDLE_SECONDS {
        stopping := true;
      }
    }
  }

  /** The envelope that every call of a client carries. */
  function Envelope(token: Token, build: string, database: string, op: string): Incoming {
    Request(Str(token), Num(PROTOCOL), Str(build), Str(database), Str(op))
  }

  /** A process answers a client (with a result, an error, a status or a shutdown) exactly when it runs the
      client's build against the client's database under the shared token. */
  lemma AnswersOnlyItsOwn(id: Identity, token: Token, build: string, database: string, op: string, outcome: Outcome)
    requires build != "" && database != ""
    ensures !Respond(id, Envelope(token, build, database, op), outcome).Refused? <==>
            id == Identity(token, build, database)
  {
    assert PyEq(Num(PROTOCOL), Num(PROTOCOL));
  }

  /** The request carries the token of the process. */
  predicate Trusted(id: Identity, request: Incoming) {
    request.Request? && request.token == Str(id.token)
  }

  /** A build or database that the request names, if it does. */
  predicate NamesNoOther(named: Json, own: string) {
    Truthy(named) ==> named == Str(own)
  }

  predicate Admitted(id: Identity, request: Incoming) {
    Trusted(id, request) && PyEq(request.protocol, Num(1)) && NamesNoOther(request.build, id.build) &&
    NamesNoOther(request.database, id.database)
  }

  predicate IsWork(id: Identity, request: Incoming) {
    Admitted(id, request) && request.op != Str("status") && request.op != Str("shutdown")
  }

  /** Every reply, with the condition under which it is given. */
  lemma RepliesExactly(id: Identity, request: Incoming, outcome: Outcome)
    ensures var reply := Respond(id, request, outcome);
            (reply == Refused("invalid_request") <==> request.TooLarge? || request.Unreadable?) &&
            (reply == Refused("runtime_failed") <==>
               request.NotAnObject? || (request.Request? && request.token.Str? && !Ascii(request.token.s))) &&
            (reply == Refused("forbidden") <==>
               request.Request? && !Trusted(id, request) && (request.token.Str? ==> Ascii(request.token.s))) &&
            (reply == Refused("protocol_mismatch") <==> Trusted(id, request) && !PyEq(request.protocol, Num(1))) &&
            (reply == Refused("build_mismatch") <==>
               Trusted(id, request) && PyEq(request.protocol, Num(1)) && !NamesNoOther(request.build, id.build)) &&
            (reply == Refused("database_mismatch") <==>
               Trusted(id, request) && PyEq(request.protocol, Num(1)) && NamesNoOther(request.build, id.build) &&
               !NamesNoOther(request.database, id.database))
    ensures var reply := Respond(id, request, outcome);
            (reply == Described <==> Admitted(id, request) && request.op == Str("status")) &&
            (reply == Stopping <==> Admitted(id, request) && request.op == Str("shutdown")) &&
            (forall x :: reply == Answered(x) <==> IsWork(id, request) && outcome == Computed(x)) &&
            (forall code :: reply == Failed(code) <==> IsWork(id, request) && outcome == Raised(code))
  {
  }

  /** What serving a request and watching for idleness leave behind. */
  lemma CountersExactly(c: Counters, id: Identity, now: int, request: Incoming)
    ensures AfterServing(c, id, now, request) ==
            Counters(c.stopping || (Admitted(id, request) && request.op == Str("shutdown")),
                     if IsWork(id, request) then now else c.lastRequest,
                     if IsWork(id, request) then c.requests + 1 else c.requests)
    ensures AfterPoll(c, now) == Counters(c.stopping || now > c.lastRequest + 900, c.lastRequest, c.requests)
  {
  }

  /** The stop request that a client sends after a mismatch is refused for the same mismatch: it changes
      nothing, so a stale process is not discarded by it. A shutdown takes effect exactly on a process that
      would have answered. */
  lemma ShutdownNeedsAMatch(c: Counters, id: Identity, now: int, token: Token, build: string, database: string)
    requires build != "" && database != "" && !c.stopping
    ensures AfterServing(c, id, now, Envelope(token, build, database, "shutdown")).stopping <==>
            id == Identity(token, build, database)
    ensures id != Identity(token, build, database) ==>
              AfterServing(c, id, now, Envelope(token, build, database, "shutdown")) == c
  {
    AnswersOnlyItsOwn(id, token, build, database, "shutdown", Raised(""));
  }

  // ---- the client's side (verilore_sdk.py) ----

  datatype Path = Reading | Writing

  /** What a call comes to: the runtime's answer, an error raised to the caller, or the work done in process. */
  datatype Settled = Accepted(result: Json) | RaisedError(code: string) | InProcess

  /** The errors that a client takes for a runtime to discard. */
  predicate Discards(path: Path, code: string) {
    code == "database_mismatch" || (path.Writing? && code == "build_mismatch")
  }

  /** `_through_runtime` and `_remember_via_runtime`; None is a call that failed to reach a runtime. */
  function Settle(path: Path, reply: Option<Reply>): Settled {
    match reply
    case None => InProcess
    case Some(Answered(result)) => Accepted(result)
    case Some(Refused(code)) =>
      if Discards(path, code) then InProcess else RaisedError(code)
    case Some(Failed(code)) =>
      if Discards(path, code) then InProcess else RaisedError(code)
    case Some(Described) => RaisedError("error")
    case Some(Stopping) => RaisedError("error")
  }

  predicate IsProductOp(op: string) {
    op != "status" && op != "shutdown"
  }

  /** When a running process has another build or database, a write always ends in the in-process result. A
      read does so for another database, but surfaces another build as an error. */
  lemma MismatchSettles(path: Path, id: Identity, token: Token, build: string, database: string, op: string,
                        outcome: Outcome)
    requires build != "" && database != "" && id.token == token && IsProductOp(op)
    requires id.build != build || id.database != database
    ensures var settled := Settle(path, Some(Respond(id, Envelope(token, build, database, op), outcome)));
            settled == if path.Writing? || id.build == build then InProcess else RaisedError("build_mismatch")
  {
    assert PyEq(Num(PROTOCOL), Num(PROTOCOL));
  }

  /** When a call surfaces an error instead of falling back: the token is not the runtime's, a read meets another build,
      or a runtime that matches fails with an error that the client does not take for a reason to discard it. */
  lemma SettlesInError(path: Path, id: Identity, token: Token, build: string, database: string, op: string,
                       outcome: Outcome)
    requires build != "" && database != "" && IsProductOp(op)
    ensures Settle(path, Some(Respond(id, Envelope(token, build, database, op), outcome))).RaisedError? <==>
            id.token != token || (path.Reading? && id.build != build) ||
            (id == Identity(token, build, database) && outcome.Raised? && outcome.code != "database_mismatch" &&
             !(path.Writing? && outcome.code == "build_mismatch"))
    ensures forall x ::
              Settle(path, Some(Respond(id, Envelope(token, build, database, op), outcome))) == Accepted(x) <==>
              id == Identity(token, build, database) && outcome == Computed(x)
  {
    AnswersOnlyItsOwn(id, token, build, database, op, outcome);
  }
}
