/** The daemon's `dispatch`: one goroutine per request, answering with the request's own id. */
module Daemon {
  import opened Wrappers
  import opened Frames

  datatype Options = Options(allowWrite: bool, allowExec: bool)

  /** What a handler hands to `setResult`: an error, a value, or a value that does not marshal. */
  datatype Answer = Fails(err: RpcError) | Value(json: Json) | Unencodable(msg: string)

  const READ_METHODS: set<string> := {"stat", "readdir", "read"}
  const WRITE_METHODS: set<string> := {"write", "create", "mkdir", "remove", "rename", "chmod"}

  predicate Known(name: string) {
    name == "hello" || name in READ_METHODS || name in WRITE_METHODS || name == "exec"
  }

  predicate Permitted(opts: Options, name: string) {
    (name in WRITE_METHODS ==> opts.allowWrite) && (name == "exec" ==> opts.allowExec)
  }

  /** The error `dispatch` answers with before any handler runs, if it does. */
  function Refusal(opts: Options, req: Frame, badParams: Option<string>): Option<RpcError>
    requires req.Req?
  {
    if !Known(req.name) then
      Some(RpcError("unsupported", "unknown method: " + req.name))
    else if req.name != "hello" && badParams.Some? then
      Some(RpcError("invalid_argument", badParams.value))
    else if req.name in WRITE_METHODS && !opts.allowWrite then
      Some(RpcError("permission_denied",
                    if req.name == "write" then "writes disabled on this bridge" else "writes disabled"))
    else if req.name == "exec" && !opts.allowExec then
      Some(RpcError("permission_denied", "exec disabled (start daemon with --allow-exec)"))
    else None
  }

  function Filled(id: nat, answer: Answer): Frame {
    match answer
    case Fails(e) => Resp(id, None, Some(e))
    case Value(j) => Resp(id, Some(j), None)
    case Unencodable(m) => Resp(id, None, Some(RpcError("internal", "marshal: " + m)))
  }

  /** The frame the daemon writes for `req` when its handler, if reached, answers `answer`. */
  function Response(opts: Options, req: Frame, badParams: Option<string>, answer: Answer): Frame
    requires req.Req?
  {
    match Refusal(opts, req, badParams)
    case Some(e) => Resp(req.id, None, Some(e))
    case None => Filled(req.id, answer)
  }

  /** A well-formed answer to `req`: its id, exactly one of result and error, and no result for a
      method that is unknown or not permitted. */
  predicate Answers(opts: Options, req: Frame, resp: Frame) {
    && resp.Resp? && resp.id == req.id && req.Req?
    && (resp.result.None? <==> resp.error.Some?)
    && (resp.result.Some? ==> Known(req.name) && Permitted(opts, req.name))
  }

  lemma ResponseAnswers(opts: Options, req: Frame, badParams: Option<string>, answer: Answer)
    requires req.Req?
    ensures Answers(opts, req, Response(opts, req, badParams, answer))
  {
    match answer
    case Fails(_) =>
    case Value(_) =>
    case Unencodable(_) =>
  }

  /** What each method is answered with, by the daemon's options: nothing but a hello, and what reads
      with well-formed parameters, is done unconditionally; the six that write need writing to be
      allowed, exec needs executing to be allowed, and anything else is not known. */
  lemma MethodsAllowed(opts: Options, id: nat, name: string, params: Json, bad: Option<string>, answer: Answer)
    ensures var resp := Response(opts, Req(id, name, params), bad, answer);
      var code := if resp.error.Some? then resp.error.value.code else "";
      if name == "hello" || (name in {"stat", "readdir", "read"} && bad.None?) then resp == Filled(id, answer)
      else if name in {"write", "create", "mkdir", "remove", "rename", "chmod"} then
        if bad.Some? then code == "invalid_argument"
        else if opts.allowWrite then resp == Filled(id, answer)
        else code == "permission_denied"
      else if name == "exec" then
        if bad.Some? then code == "invalid_argument"
        else if opts.allowExec then resp == Filled(id, answer)
        else code == "permission_denied"
      else code == if name in {"stat", "readdir", "read"} then "invalid_argument" else "unsupported"
  {
  }

  /** And the answer goes out unchanged: a value as the result, an error as the error, and a value that
      cannot be encoded as an internal error. */
  lemma AnswersGoOut(id: nat, json: Json, err: RpcError, msg: string)
    ensures Filled(id, Value(json)) == Resp(id, Some(json), None)
    ensures Filled(id, Fails(err)) == Resp(id, None, Some(err))
    ensures Filled(id, Unencodable(msg)) == Resp(id, None, Some(RpcError("internal", "marshal: " + msg)))
  {
  }

  /** `dispatch` itself: the response frame is made first and filled in place, and `ran` says
      whether a handler was invoked. A handler that touches files for writing, or executes,
      never runs unless the daemon was started with the matching permission. */
  method Dispatch(opts: Options, req: Frame, badParams: Option<string>, answer: Answer)
    returns (resp: Frame, ran: bool)
    requires req.Req?
    ensures resp == Response(opts, req, badParams, answer)
    ensures Answers(opts, req, resp)
    ensures ran ==> Known(req.name) && Permitted(opts, req.name)
    ensures ran <==> Refusal(opts, req, badParams).None?
    ensures ran && answer.Value? ==> resp.result == Some(answer.json)
  {
    resp := Resp(req.id, None, None);
    ran := false;
    if req.name == "hello" {
      ran := true;
      resp := SetResult(resp, Some(answer));
    } else if !Known(req.name) {
      resp := resp.(error := Some(RpcError("unsupported", "unknown method: " + req.name)));
    } else if badParams.Some? {
      resp := resp.(error := Some(RpcError("invalid_argument", badParams.value)));
    } else if req.name in WRITE_METHODS && !opts.allowWrite {
      var msg := "writes disabled";
      if req.name == "write" { msg := "writes disabled on this bridge"; }
      resp := resp.(error := Some(RpcError("permission_denied", msg)));
    } else if req.name == "exec" && !opts.allowExec {
      resp := resp.(error := Some(RpcError("permission_denied", "exec disabled (start daemon with --allow-exec)")));
    } else {
      ran := true;
      resp := SetResult(resp, Some(answer));
    }
  }

  /** `setResult`. With neither an error nor a value it leaves the frame empty; no handler of
      `dispatch` does that, since each of them returns a record. */
  method SetResult(resp: Frame, answer: Option<Answer>) returns (out: Frame)
    requires resp.Resp? && resp.result.None? && resp.error.None?
    ensures out == match answer case Some(a) => Filled(resp.id, a) case None => resp
  {
    match answer {
      case Some(Fails(e)) => out := resp.(error := Some(e));
      case Some(Value(j)) => out := resp.(result := Some(j));
      case Some(Unencodable(m)) => out := resp.(error := Some(RpcError("internal", "marshal: " + m)));
      case None => out := resp;
    }
  }
}
