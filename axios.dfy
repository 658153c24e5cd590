/** The shared HTTP client's two interceptors. The request interceptor reads
    the stored token and rewrites the outgoing headers; the response
    interceptor passes every outcome on and, when the server answered 401,
    wipes the storage and sends the browser to the login page.

    Together they form a small transition system over the storage contents,
    the page address and the headers of each request: `RequestHeaders` is
    the request step (it changes no state), `AfterResponse` the response
    step. The class methods below perform the steps on the objects. */
module Api {
  import opened Common
  import Storage

  const TokenKey := "token"
  const AuthorizationHeader := "Authorization"
  const CookieHeader := "Cookie"
  const Unauthorized := 401

  /** `getToken()`: the value stored under `token`, if there is one. */
  function GetToken(storage: map<string, string>): (r: Option<string>)
    ensures r.Some? <==> TokenKey in storage
    ensures r.Some? ==> r.value == storage[TokenKey]
  {
    if TokenKey in storage then Some(storage[TokenKey]) else None
  }

  /** The headers the request interceptor leaves on an outgoing request.
      A present, non-empty token sets `Authorization` to a bearer
      credential; an absent or empty one leaves `Authorization` exactly as
      the caller had it. `Cookie` is gone whatever came in, and every other
      header is untouched. */
  function RequestHeaders(storage: map<string, string>, headers: map<string, string>): (r: map<string, string>)
    ensures CookieHeader !in r
    ensures PresentAndTruthy(GetToken(storage)) ==>
      AuthorizationHeader in r && r[AuthorizationHeader] == "Bearer " + storage[TokenKey]
    ensures !PresentAndTruthy(GetToken(storage)) ==>
      (AuthorizationHeader in r <==> AuthorizationHeader in headers) &&
      (AuthorizationHeader in r ==> r[AuthorizationHeader] == headers[AuthorizationHeader])
    ensures forall k :: k != AuthorizationHeader && k != CookieHeader ==>
      (k in r <==> k in headers) && (k in r ==> r[k] == headers[k])
  {
    var token := GetToken(storage);
    var authorized := if PresentAndTruthy(token) then headers[AuthorizationHeader := "Bearer " + token.value] else headers;
    authorized - {CookieHeader}
  }

  /** Running the request interceptor on headers it has already processed
      changes nothing more. */
  lemma RequestHeadersIdempotent(storage: map<string, string>, headers: map<string, string>)
    ensures RequestHeaders(storage, RequestHeaders(storage, headers)) == RequestHeaders(storage, headers)
  {
    var once := RequestHeaders(storage, headers);
    var twice := RequestHeaders(storage, once);
    assert twice.Keys == once.Keys;
  }

  /** What a request promise settles with, as the response interceptor sees
      it: a response, or an error that may carry the response the server
      sent (none for a network failure). */
  datatype HttpResponse = HttpResponse(status: int, data: string)
  datatype HttpError = HttpError(response: Option<HttpResponse>)
  datatype Settled = Fulfilled(response: HttpResponse) | Rejected(error: HttpError)

  /** `error.response?.status === 401` */
  predicate IsUnauthorized(s: Settled) {
    s.Rejected? && s.error.response.Some? && s.error.response.value.status == Unauthorized
  }

  /** The state the response interceptor changes: the storage contents and
      the address the browser shows. */
  datatype State = State(storage: map<string, string>, href: string)

  /** The response step. Only an error that carries a 401 response changes
      anything, and it leaves the storage empty and the browser on the
      login page; successes, network failures and other statuses leave the
      state as it was. */
  function AfterResponse(s: State, settled: Settled): (r: State)
    ensures IsUnauthorized(settled) ==> r.storage == map[] && r.href == LoginPath
    ensures !IsUnauthorized(settled) ==> r == s
    ensures GetToken(r.storage).Some? ==> GetToken(r.storage) == GetToken(s.storage)
  {
    if IsUnauthorized(settled) then State(map[], LoginPath) else s
  }

  /** A second 401 after a first one changes nothing more. */
  lemma UnauthorizedTwice(s: State, first: Settled, second: Settled)
    requires IsUnauthorized(first) && IsUnauthorized(second)
    ensures AfterResponse(AfterResponse(s, first), second) == AfterResponse(s, first)
  {
  }

  /** `config` as the request interceptor receives it. */
  class RequestConfig {
    var headers: map<string, string>

    constructor (headers: map<string, string>)
      ensures this.headers == headers
    {
      this.headers := headers;
    }
  }

  /** `window.location` */
  class Location {
    var href: string

    constructor (href: string)
      ensures this.href == href
    {
      this.href := href;
    }
  }

  /** The request interceptor: rewrites `config.headers` in place and hands
      the same config on; the storage is only read. */
  method InterceptRequest(store: Storage.Store, config: RequestConfig) returns (r: RequestConfig)
    modifies config
    ensures r == config
    ensures config.headers == RequestHeaders(store.entries, old(config.headers))
  {
    var token := GetToken(store.entries);
    if PresentAndTruthy(token) {
      config.headers := config.headers[AuthorizationHeader := "Bearer " + token.value];
    }
    config.headers := config.headers - {CookieHeader};
    r := config;
  }

  /** The response interceptor: a response is handed on as it came and an
      error is rejected again as it came, after the 401 case has cleared
      the storage and moved the browser to the login page. */
  method InterceptResponse(store: Storage.Store, location: Location, settled: Settled) returns (r: Settled)
    modifies store, location
    ensures r == settled
    ensures State(store.entries, location.href) == AfterResponse(State(old(store.entries), old(location.href)), settled)
  {
    match settled
    case Fulfilled(_) =>
      r := settled;
    case Rejected(error) =>
      if error.response.Some? && error.response.value.status == Unauthorized {
        store.Clear();
        location.href := LoginPath;
      }
      r := Rejected(error);
  }
}
