/** The chain-indexer client's transport, reduced to what the coin clients
    rely on: a GET or POST of `base + path` that either yields a decoded JSON
    value or fails. The HTTP client itself is an oracle. */
module Http {
  import opened Wrappers
  import opened Protocol

  /** The base URL both coin clients hand to the shared client. */
  const BASE_URL := "http://127.0.0.1:50001/api/"

  datatype Body = SignedTransactionBlob(blob: string) | NemSubmission(data: string, signature: string)

  datatype HttpRequest = Get(url: string) | Post(url: string, body: Body)

  /** The request a client operation issued and what it made of the answer. */
  datatype Fetched<+R> = Fetched(request: HttpRequest, result: Result<R, Error>)

  /** The server for GET requests: the decoded JSON for a URL, or a failure reason. */
  type Getter<T> = string -> Result<T, string>

  /** The server for POST requests. */
  type Poster<T> = (string, Body) -> Result<T, string>

  /** `GetFromServer`: GET `base + path`; a failure surfaces as a backend error. */
  function GetFromServer<T>(path: string, get: Getter<T>): (f: Fetched<T>)
    ensures f.request == Get(BASE_URL + path)
    ensures f.result.Success? <==> get(BASE_URL + path).Success?
    ensures f.result.Success? ==> f.result.value == get(BASE_URL + path).value
    ensures f.result.Failure? ==> f.result.error == BackendFailure(get(BASE_URL + path).error)
  {
    var url := BASE_URL + path;
    match get(url)
    case Success(v) => Fetched(Get(url), Success(v))
    case Failure(e) => Fetched(Get(url), Failure(BackendFailure(e)))
  }

  /** `PostToServer`: POST `body` to `base + path`. */
  function PostToServer<T>(path: string, body: Body, post: Poster<T>): (f: Fetched<T>)
    ensures f.request == Post(BASE_URL + path, body)
    ensures f.result.Success? <==> post(BASE_URL + path, body).Success?
    ensures f.result.Success? ==> f.result.value == post(BASE_URL + path, body).value
    ensures f.result.Failure? ==> f.result.error == BackendFailure(post(BASE_URL + path, body).error)
  {
    var url := BASE_URL + path;
    match post(url, body)
    case Success(v) => Fetched(Post(url, body), Success(v))
    case Failure(e) => Fetched(Post(url, body), Failure(BackendFailure(e)))
  }

  /** A GET whose every failure is read as `null`: the request never fails,
      and it yields a value exactly when the server answered with one. */
  function GetOrNull<T>(path: string, get: Getter<Option<T>>): (f: Fetched<Option<T>>)
    ensures f.request == Get(BASE_URL + path)
    ensures f.result.Success?
    ensures f.result.value.Some? <==> get(BASE_URL + path).Success? && get(BASE_URL + path).value.Some?
    ensures f.result.value.Some? ==> f.result.value == get(BASE_URL + path).value
  {
    var f := GetFromServer(path, get);
    Fetched(f.request, if f.result.Success? then f.result else Success(None))
  }
}
