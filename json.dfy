/**
  The values that cross the HTTP boundary of the two API routes: parsed JSON
  values, the responses the routes build with `NextResponse.json`, and the
  error codes that Node's file-system calls report.
*/
module Http {
  import opened Wrappers

  /** A parsed JSON value. Numbers are kept as integers. */
  datatype Json =
    | JNull
    | JBool(b: bool)
    | JNumber(n: int)
    | JString(s: string)
    | JArray(items: seq<Json>)
    | JObject(members: map<string, Json>)

  /**
    Property access `v.key` on a parsed value: an own member of an object,
    and `undefined` (None) for every other value and every absent key.
  */
  function Field(v: Json, key: string): Option<Json> {
    if v.JObject? && key in v.members then Some(v.members[key]) else None
  }

  /** A response: the HTTP status and the JSON body. */
  datatype Response = Response(status: int, body: Json)

  /** `NextResponse.json({ error: message }, { status })`. */
  function ErrorResponse(status: int, message: string): Response {
    Response(status, JObject(map["error" := JString(message)]))
  }

  /** The error codes a file-system call can report; other codes are folded into OtherCode. */
  datatype ErrCode = EEXIST | ENOENT | EACCES | OtherCode

  /**
    What `ensureDirectoryExists` lets escape from `mkdir(dir, { recursive: true })`:
    success and EEXIST are swallowed, any other error is re-thrown.
  */
  function EnsureDirResult(mkdirError: Option<ErrCode>): (thrown: Option<ErrCode>)
    ensures thrown.None? <==> mkdirError.None? || mkdirError == Some(EEXIST)
    ensures thrown.Some? ==> thrown == mkdirError
  {
    match mkdirError
    case None => None
    case Some(code) => if code == EEXIST then None else Some(code)
  }

  /**
    What the file-system calls report on one request: `mkdir`, `readFile`
    and `writeFile` (None: the call succeeds). A route ignores the calls it
    does not make.
  */
  datatype FsEnv = FsEnv(mkdirError: Option<ErrCode>, readError: Option<ErrCode>, writeError: Option<ErrCode>)

  /** A request on which every file-system call succeeds. */
  const Healthy: FsEnv := FsEnv(None, None, None)

  /**
    The error thrown by `ensureDirectoryExists` followed by `writeFile`, if
    any: the one from `mkdir` first, else the one from `writeFile`.
  */
  function WriteOutcome(env: FsEnv): (thrown: Option<ErrCode>)
    ensures thrown.None? <==> EnsureDirResult(env.mkdirError).None? && env.writeError.None?
    ensures EnsureDirResult(env.mkdirError).Some? ==> thrown == env.mkdirError
    ensures EnsureDirResult(env.mkdirError).None? ==> thrown == env.writeError
  {
    var fromMkdir := EnsureDirResult(env.mkdirError);
    if fromMkdir.Some? then fromMkdir else env.writeError
  }
}
