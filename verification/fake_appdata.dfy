/**
 * The in-memory stand-in for `osapi.appdata` the adapter is exercised against:
 * one user's flat key/value store plus an error switch. `execute` runs its
 * callback at once, so each request is a single state transition.
 */
module FakeAppData {
  import opened Wrappers

  type KeyValues = map<string, string>

  /** `{code, message}` as carried in a reply's `error` field. */
  datatype TransportError = TransportError(code: int, message: string)

  /** What `execute` hands its callback: `{error: …}` or the request's own result object. */
  datatype Reply<T> = ErrorReply(error: TransportError) | Result(body: T)

  /** A `get` result: user id to that user's requested key/value pairs. */
  type UserData = map<string, KeyValues>

  /**
   * The fake's `_userId`: the constant 2002, which becomes the string key "2002".
   * It is not `"error"`, so a `get` result is never mistaken for an error reply.
   */
  const FakeUserId: string := "2002"

  /** The fake's mutable state: `_appdata` and `_error`. */
  datatype Backend = Backend(appdata: KeyValues, error: Option<TransportError>)

  /** The backend after a request, and the reply its callback received. */
  datatype Exchange<T> = Exchange(backend: Backend, reply: Reply<T>)

  /** The requests a caller issues, as the adapter's tests observe them. */
  datatype Request = GetRequest(fields: seq<string>) | UpdateRequest(data: KeyValues) | DeleteRequest(keys: seq<string>)

  /**
   * `_generateExecuteMethod(request).execute(callback)`: with the error switch
   * set the request body never runs; otherwise its store and result are taken.
   */
  function Execute<T>(b: Backend, after: KeyValues, result: T): (x: Exchange<T>)
    ensures x.backend.error == b.error
    ensures b.error.Some? ==> x.backend == b && x.reply == ErrorReply(b.error.value)
    ensures b.error.None? ==> x.backend.appdata == after && x.reply == Result(result)
  {
    match b.error
    case Some(e) => Exchange(b, ErrorReply(e))
    case None => Exchange(b.(appdata := after), Result(result))
  }

  /** The key/value pairs `get` collects: the listed fields that exist, or everything. */
  function Selected(appdata: KeyValues, fields: seq<string>): KeyValues
  {
    if |fields| > 0 then map k | k in fields && k in appdata :: appdata[k] else appdata
  }

  /** `get({fields})`: the selected pairs nested under the single key `_userId`. */
  function Get(b: Backend, fields: seq<string>): (x: Exchange<UserData>)
    ensures x.backend == b
    ensures x.reply.ErrorReply? <==> b.error.Some?
    ensures x.reply.ErrorReply? ==> x.reply.error == b.error.value
    ensures x.reply.Result? ==> x.reply.body.Keys == {FakeUserId}
    ensures x.reply.Result? && |fields| > 0 ==>
      forall k :: k in x.reply.body[FakeUserId] <==> k in fields && k in b.appdata
    ensures x.reply.Result? ==>
      forall k :: k in x.reply.body[FakeUserId] ==> k in b.appdata && x.reply.body[FakeUserId][k] == b.appdata[k]
    ensures x.reply.Result? && |fields| == 0 ==> x.reply.body[FakeUserId] == b.appdata
  {
    Execute(b, b.appdata, map[FakeUserId := Selected(b.appdata, fields)])
  }

  /** `update({data})`: every given key set to its value; the result is `{}`. */
  function Update(b: Backend, data: KeyValues): (x: Exchange<KeyValues>)
    ensures x.backend.error == b.error
    ensures x.reply.ErrorReply? <==> b.error.Some?
    ensures x.reply.ErrorReply? ==> x.backend == b && x.reply.error == b.error.value
    ensures x.reply.Result? ==> x.reply.body == map[]
    ensures x.reply.Result? ==> x.backend.appdata.Keys == b.appdata.Keys + data.Keys
    ensures x.reply.Result? ==> forall k :: k in data ==> x.backend.appdata[k] == data[k]
    ensures x.reply.Result? ==>
      forall k :: k in b.appdata && k !in data ==> x.backend.appdata[k] == b.appdata[k]
  {
    Execute(b, b.appdata + data, map[])
  }

  /** `delete({keys})`: the listed keys that exist are removed and returned with their prior values. */
  function Delete(b: Backend, keys: seq<string>): (x: Exchange<KeyValues>)
    ensures x.backend.error == b.error
    ensures x.reply.ErrorReply? <==> b.error.Some?
    ensures x.reply.ErrorReply? ==> x.backend == b && x.reply.error == b.error.value
    ensures x.reply.Result? ==> x.backend.appdata.Keys == b.appdata.Keys - set k | k in keys
    ensures x.reply.Result? ==>
      forall k :: k in x.backend.appdata ==> x.backend.appdata[k] == b.appdata[k]
    ensures x.reply.Result? ==> x.reply.body.Keys == b.appdata.Keys * set k | k in keys
    ensures x.reply.Result? ==> forall k :: k in x.reply.body ==> x.reply.body[k] == b.appdata[k]
  {
    var removed := map k | k in keys && k in b.appdata :: b.appdata[k];
    Execute(b, map k | k in b.appdata && k !in keys :: b.appdata[k], removed)
  }
}
