/**
 * The request gateway of src/util/axios.ts: one HTTP client whose request
 * interceptor reads the session token at the moment a request leaves and,
 * when there is one, sets the bearer header on the request configuration in
 * place.
 */
module Gateway {
  import opened Optional
  import opened AuthStore

  const Authorization := "Authorization"
  const BearerPrefix := "Bearer "

  /** The headers after the interceptor: the bearer header set when the token is non-empty, nothing else touched. */
  function WithBearer(headers: map<string, string>, token: Option<string>): (r: map<string, string>)
    ensures forall k | k != Authorization :: (k in r <==> k in headers) && (k in r ==> r[k] == headers[k])
    ensures token.Some? && token.value != "" ==> Authorization in r && r[Authorization] == BearerPrefix + token.value
    ensures token.None? || token.value == "" ==> r == headers
  {
    if Truthy(token) then headers[Authorization := BearerPrefix + token.value] else headers
  }

  /** How a server reads the header back: the token after the "Bearer " prefix. */
  function ParseBearer(value: string): Option<string>
  {
    if |value| >= |BearerPrefix| && value[..|BearerPrefix|] == BearerPrefix then Some(value[|BearerPrefix|..]) else None
  }

  /** The header carries the token itself: reading it back yields the token. */
  lemma BearerRoundTrip(headers: map<string, string>, t: string)
    requires t != ""
    ensures ParseBearer(WithBearer(headers, Some(t))[Authorization]) == Some(t)
  {
    var v := BearerPrefix + t;
    assert v[..|BearerPrefix|] == BearerPrefix;
    assert v[|BearerPrefix|..] == t;
  }

  /** The header is overwritten, not appended: intercepting twice is intercepting once. */
  lemma {:induction false} WithBearerIdempotent(headers: map<string, string>, token: Option<string>)
    ensures WithBearer(WithBearer(headers, token), token) == WithBearer(headers, token)
  {
    var once := WithBearer(headers, token);
    var twice := WithBearer(once, token);
    assert twice.Keys == once.Keys;
  }

  /** After `logout`, requests leave with their headers untouched. */
  lemma NoHeaderAfterSignOut(s: Session, headers: map<string, string>)
    ensures WithBearer(headers, Apply(s, SignOut).token) == headers
  {
  }

  /** An outgoing request configuration, changed in place by the interceptor. */
  class RequestConfig {
    var url: string
    var verb: string
    var headers: map<string, string>

    constructor (url: string, verb: string, headers: map<string, string>)
      ensures this.url == url && this.verb == verb && this.headers == headers
    {
      this.url, this.verb, this.headers := url, verb, headers;
    }
  }

  /** The request interceptor: reads the token from the store now and returns the same configuration. */
  method Intercept(config: RequestConfig, store: Store) returns (out: RequestConfig)
    modifies config
    ensures out == config
    ensures config.headers == WithBearer(old(config.headers), store.token)
    ensures config.url == old(config.url) && config.verb == old(config.verb)
  {
    var token := store.token;
    if Truthy(token) {
      config.headers := config.headers[Authorization := BearerPrefix + token.value];
    }
    out := config;
  }

  /** A request sent after `logout` carries no bearer header it did not already have. */
  method RequestAfterLogout(store: Store, config: RequestConfig) returns (out: RequestConfig)
    requires store.Valid()
    modifies store, config
    ensures store.Valid() && !store.isAuthenticated
    ensures out == config && config.headers == old(config.headers)
  {
    store.Logout();
    out := Intercept(config, store);
  }
}
