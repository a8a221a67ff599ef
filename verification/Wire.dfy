/**
 * Messages, frames, resource identifiers and the parts of shvrpc the client calls but does not define.
 */
module Wire {
  import opened Basics

  datatype ApiVersion = V2 | V3

  datatype Ri = Ri(path: string, meth: string, signal: Option<string>)

  datatype ErrorCode =
    | InvalidRequest | MethodNotFound | InvalidParam | InternalError | ParseError
    | MethodCallTimeout | MethodCallException | PermissionDenied

  datatype MetaMethod = MetaMethod(name: string, access: int, info: string)

  datatype DirParam = Brief | Full | DirExists(name: string)
  datatype LsParam = List | LsExists(child: string)

  datatype Param =
    | NoParam
    | V2Subscription(signal: Option<string>, paths: string)
    | V3Subscription(ri: Ri)
    | Other(text: string)

  datatype Value =
    | Unit
    | Bool(holds: bool)
    | Names(names: seq<string>)
    | Methods(full: bool, methods: seq<MetaMethod>)
    | OneMethod(meth: MetaMethod)
    | Text(text: string)

  datatype Body = Success(value: Value) | Delay(progress: real) | Error(code: ErrorCode)

  /** An outgoing RpcMessage. Responses carry the id of the request they answer. */
  datatype Message =
    | Request(id: Option<int>, path: string, meth: string, param: Param)
    | Response(id: Option<int>, body: Body)
    | Signal(path: string, name: string, value: Value)
  {
    predicate IsRequest() { Request? && id.Some? }
    function RequestId(): Option<int> { if Signal? then None else id }
  }

  /** An incoming RpcFrame; `parses` / `body.None?` say whether `to_rpcmesage` succeeds on it. */
  datatype Frame =
    | RequestFrame(requestId: int, path: string, meth: string, access: Option<int>, param: Param, parses: bool)
    | ResponseFrame(id: Option<int>, body: Option<Body>)
    | SignalFrame(shvPath: Option<string>, source: Option<string>, name: Option<string>, value: Value)
    | OtherFrame
  {
    predicate IsDelay() { ResponseFrame? && body.Some? && body.value.Delay? }
  }

  type Path = seq<string>

  /** What the model takes from shvrpc and from the application without looking inside. */
  datatype Library = Library(
    validRi: (string, string, Option<string>) -> bool,  // ShvRI::from_path_method_signal succeeds
    validGlob: Ri -> bool,                              // ShvRI::to_glob succeeds
    globMatch: (Ri, Ri) -> bool,                        // Glob::match_shv_ri
    answersIdless: bool,                                // prepare_response succeeds without a request id
    dirParam: Param -> DirParam,
    lsParam: Param -> LsParam,
    mounts: seq<Path>)                                  // keys of the mount table, in table order
}
