/** The OAuth 2.0 authorization-code helpers of the addon: the redirect URI
    rule, the authorize URL (section 4.1.1 of RFC 6749), the code exchange
    (section 4.1.3) and the refresh request (section 6), each with the
    configuration injected as a record instead of read from the environment.
    The POST to the token endpoint is a function parameter; the random
    `state` and `encodeURIComponent` are inputs. */
module TraktSession {

  import opened Wrappers
  import opened JsStrings

  /** The environment the module reads: `TRAKT_CLIENT_ID`,
      `TRAKT_CLIENT_SECRET`, `TRAKT_REDIRECT_URI` and `HOST_NAME`. */
  datatype Config = Config(
    clientId: Option<string>,
    clientSecret: Option<string>,
    redirectUriEnv: Option<string>,
    hostName: Option<string>)

  const DefaultHost: string := "http://localhost:1337"
  const ConfigurePath: string := "/configure"
  const AuthorizeEndpoint: string := "https://trakt.tv/oauth/authorize?"
  const TokenEndpoint: string := "https://api.trakt.tv/oauth/token"
  const ExchangeFailureDefault: string := "Error authenticating with Trakt"
  const RefreshFailureDefault: string := "Error refreshing Trakt token"

  /** The errors thrown when the client credentials are not configured. */
  datatype ConfigError = ClientIdMissing | CredentialsMissing

  /** `s.replace(/\/$/, '')`: drops one `/` at the very end, if there is one. */
  function StripTrailingSlash(s: string): (r: string)
    ensures s == r || s == r + "/"
    ensures s == r + "/" <==> |s| > 0 && s[|s| - 1] == '/'
  {
    if |s| > 0 && s[|s| - 1] == '/' then s[..|s| - 1] else s
  }

  /** `getRedirectUri(requestHost)`. */
  function RedirectUri(cfg: Config, requestHost: Option<string>): (r: string)
    ensures IsTruthy(requestHost) ==> r == StripTrailingSlash(requestHost.value) + ConfigurePath
    ensures !IsTruthy(requestHost) && IsTruthy(cfg.redirectUriEnv) ==> r == cfg.redirectUriEnv.value
    ensures !IsTruthy(requestHost) && !IsTruthy(cfg.redirectUriEnv) ==>
      r == (if IsTruthy(cfg.hostName) then cfg.hostName.value else DefaultHost) + ConfigurePath
  {
    if IsTruthy(requestHost) then
      StripTrailingSlash(requestHost.value) + ConfigurePath
    else if IsTruthy(cfg.redirectUriEnv) then
      cfg.redirectUriEnv.value
    else
      (if IsTruthy(cfg.hostName) then cfg.hostName.value else DefaultHost) + ConfigurePath
  }

  /** With a request host, the redirect URI is the host with at most one
      trailing `/` removed, followed by `/configure`; the configuration plays
      no part. */
  lemma RedirectUriFromHost(cfg: Config, other: Config, host: string)
    requires host != ""
    ensures var r := RedirectUri(cfg, Some(host));
      && |r| >= |ConfigurePath|
      && r[|r| - |ConfigurePath|..] == ConfigurePath
      && var base := r[..|r| - |ConfigurePath|];
         (host == base + "/" <==> host[|host| - 1] == '/')
         && (host[|host| - 1] != '/' ==> host == base)
    ensures RedirectUri(other, Some(host)) == RedirectUri(cfg, Some(host))
  {
    var base := StripTrailingSlash(host);
    var r := base + ConfigurePath;
    assert r[..|r| - |ConfigurePath|] == base;
    assert r[|r| - |ConfigurePath|..] == ConfigurePath;
  }

  /** One trailing slash on the host makes no difference; a second one is kept. */
  lemma RedirectUriSlashInsensitive(cfg: Config, host: string)
    requires host != "" && host[|host| - 1] != '/'
    ensures RedirectUri(cfg, Some(host + "/")) == RedirectUri(cfg, Some(host)) == host + ConfigurePath
    ensures RedirectUri(cfg, Some(host + "//")) == host + "/" + ConfigurePath
  {
    assert (host + "/")[..|host|] == host;
    assert (host + "//")[..|host| + 1] == host + "/";
  }

  /** An example: `https://host.example/` gives
      `https://host.example/configure`. */
  lemma RedirectUriExample(cfg: Config)
    ensures RedirectUri(cfg, Some("https://host.example/")) == "https://host.example/configure"
  {
    RedirectUriSlashInsensitive(cfg, "https://host.example");
  }

  /** What `getTraktAuthUrl` returns. */
  datatype AuthRequest = AuthRequest(authUrl: string, state: string, redirectUri: string)

  /** `getTraktAuthUrl(requestHost)`, with the random `state` and
      `encodeURIComponent` supplied by the caller. */
  function TraktAuthUrl(cfg: Config, requestHost: Option<string>, state: string,
                        encode: string -> string): (r: Result<AuthRequest, ConfigError>)
    ensures r.Failure? <==> !IsTruthy(cfg.clientId)
    ensures r.Failure? ==> r.error == ClientIdMissing
    ensures r.Success? ==>
      && r.value.redirectUri == RedirectUri(cfg, requestHost)
      && r.value.state == state
      && StartsWith(r.value.authUrl, AuthorizeEndpoint)
  {
    if !IsTruthy(cfg.clientId) then
      Failure(ClientIdMissing)
    else
      var redirectUri := RedirectUri(cfg, requestHost);
      var authUrl := AuthorizeEndpoint + AuthQuery(cfg.clientId.value, encode(redirectUri), state);
      assert authUrl[..|AuthorizeEndpoint|] == AuthorizeEndpoint;
      Success(AuthRequest(authUrl, state, redirectUri))
  }

  /** The query part of the authorize URL. */
  function AuthQuery(clientId: string, encodedRedirectUri: string, state: string): string {
    "response_type=code&client_id=" + clientId + "&redirect_uri=" + encodedRedirectUri + "&state=" + state
  }

  /** The parameters written into the authorize URL, in order. */
  function AuthParams(clientId: string, encodedRedirectUri: string, state: string): seq<(string, string)> {
    [("response_type", "code"), ("client_id", clientId), ("redirect_uri", encodedRedirectUri), ("state", state)]
  }

  lemma AuthQueryIsJoin(clientId: string, encodedRedirectUri: string, state: string)
    ensures var ps := AuthParams(clientId, encodedRedirectUri, state);
      AuthQuery(clientId, encodedRedirectUri, state) ==
      Join([Param(ps[0]), Param(ps[1]), Param(ps[2]), Param(ps[3])], '&')
  {
    var pieces := ["response_type=code", "client_id=" + clientId, "redirect_uri=" + encodedRedirectUri, "state=" + state];
    assert Join(pieces[3..], '&') == pieces[3];
    assert Join(pieces[2..], '&') == pieces[2] + "&" + pieces[3];
    assert Join(pieces[1..], '&') == pieces[1] + "&" + pieces[2] + "&" + pieces[3];
    assert "response_type=code&client_id=" == "response_type=code" + "&" + "client_id=";
    assert "&redirect_uri=" == "&" + "redirect_uri=";
    assert "&state=" == "&" + "state=";
    assert "response_type=code" == "response_type" + "=" + "code";
    assert "client_id=" == "client_id" + "=";
    assert "redirect_uri=" == "redirect_uri" + "=";
    assert "state=" == "state" + "=";
  }

  /** The query of an authorize URL, when it has the authorize-endpoint prefix. */
  function AuthorizeQuery(url: string): Option<seq<(string, string)>> {
    if StartsWith(url, AuthorizeEndpoint) then Some(QueryParams(url[|AuthorizeEndpoint|..])) else None
  }

  /** Reading the authorize URL back yields exactly the four parameters of an
      authorization request, in order: `response_type=code`, the client id,
      the encoded redirect URI and the state that `TraktAuthUrl` also returns.
      This needs the three values to be free of `&`, as the output of
      `encodeURIComponent` and the base-36 state are. */
  lemma AuthUrlRoundTrip(cfg: Config, requestHost: Option<string>, state: string, encode: string -> string)
    requires IsTruthy(cfg.clientId)
    requires '&' !in cfg.clientId.value && '&' !in state
    requires '&' !in encode(RedirectUri(cfg, requestHost))
    ensures var r := TraktAuthUrl(cfg, requestHost, state, encode);
      && r.Success?
      && AuthorizeQuery(r.value.authUrl) == Some([
           ("response_type", "code"),
           ("client_id", cfg.clientId.value),
           ("redirect_uri", encode(r.value.redirectUri)),
           ("state", r.value.state)])
  {
    var r := TraktAuthUrl(cfg, requestHost, state, encode);
    var id, enc := cfg.clientId.value, encode(RedirectUri(cfg, requestHost));
    var ps := AuthParams(id, enc, state);
    assert r.value.authUrl[|AuthorizeEndpoint|..] == AuthQuery(id, enc, state);
    AuthQueryIsJoin(id, enc, state);
    assert ps == [ps[0], ps[1], ps[2], ps[3]];
    assert '=' !in ps[0].0 && '=' !in ps[1].0 && '=' !in ps[2].0 && '=' !in ps[3].0;
    assert '&' !in ps[0].0 && '&' !in ps[1].0 && '&' !in ps[2].0 && '&' !in ps[3].0;
    assert '&' !in ps[0].1;
    QueryParamsOfJoin(ps);
  }

  /** The credential a token request carries. */
  datatype Grant = AuthorizationCode(code: string) | RefreshToken(refreshToken: string)

  /** The body of a POST to the token endpoint, before JSON encoding. */
  datatype TokenRequest = TokenRequest(grant: Grant, clientId: string, clientSecret: string, redirectUri: string)

  function GrantType(g: Grant): string {
    match g
    case AuthorizationCode(_) => "authorization_code"
    case RefreshToken(_) => "refresh_token"
  }

  /** The field that carries the grant's credential. */
  function CredentialField(g: Grant): (string, string) {
    match g
    case AuthorizationCode(code) => ("code", code)
    case RefreshToken(token) => ("refresh_token", token)
  }

  /** The JSON fields of the POST body, in the order `getTraktAccessToken` and `refreshTraktAccessToken` write them. */
  function TokenBody(req: TokenRequest): seq<(string, string)> {
    [CredentialField(req.grant),
     ("client_id", req.clientId),
     ("client_secret", req.clientSecret),
     ("redirect_uri", req.redirectUri),
     ("grant_type", GrantType(req.grant))]
  }

  /** Both grants send the client id, the client secret, the redirect URI and
      the `grant_type` of their grant. */
  lemma TokenBodySharedFields(req: TokenRequest)
    ensures FirstValue(TokenBody(req), "client_id") == Some(req.clientId)
    ensures FirstValue(TokenBody(req), "client_secret") == Some(req.clientSecret)
    ensures FirstValue(TokenBody(req), "redirect_uri") == Some(req.redirectUri)
    ensures FirstValue(TokenBody(req), "grant_type") == Some(GrantType(req.grant))
  {
    var fields := TokenBody(req);
    FirstValueAt(fields, 1);
    FirstValueAt(fields, 2);
    FirstValueAt(fields, 3);
    FirstValueAt(fields, 4);
  }

  /** The code exchange sends `code` and the refresh sends `refresh_token`;
      neither sends the other's credential field. */
  lemma TokenBodyCredential(req: TokenRequest)
    ensures req.grant.AuthorizationCode? ==>
      FirstValue(TokenBody(req), "code") == Some(req.grant.code) && FirstValue(TokenBody(req), "refresh_token") == None
    ensures req.grant.RefreshToken? ==>
      FirstValue(TokenBody(req), "refresh_token") == Some(req.grant.refreshToken) && FirstValue(TokenBody(req), "code") == None
  {
    var fields := TokenBody(req);
    var other := if req.grant.AuthorizationCode? then "refresh_token" else "code";
    assert fields[0].0 != other && fields[1].0 != other && fields[2].0 != other;
    assert fields[3].0 != other && fields[4].0 != other;
    FirstValueAbsent(fields, other);
    FirstValueAt(fields, 0);
  }

  /** The guard and body construction shared by `getTraktAccessToken` and
      `refreshTraktAccessToken`: a failure here is the thrown configuration
      error, and no request exists to be posted. */
  function BuildTokenRequest(cfg: Config, grant: Grant, redirectUri: Option<string>): (r: Result<TokenRequest, ConfigError>)
    ensures r.Failure? <==> !IsTruthy(cfg.clientId) || !IsTruthy(cfg.clientSecret)
    ensures r.Failure? ==> r.error == CredentialsMissing
    ensures r.Success? ==>
      && r.value.grant == grant
      && r.value.clientId == cfg.clientId.value
      && r.value.clientSecret == cfg.clientSecret.value
      && r.value.redirectUri == (if IsTruthy(redirectUri) then redirectUri.value else RedirectUri(cfg, None))
  {
    if !IsTruthy(cfg.clientId) || !IsTruthy(cfg.clientSecret) then
      Failure(CredentialsMissing)
    else
      var finalRedirectUri := if IsTruthy(redirectUri) then redirectUri.value else RedirectUri(cfg, None);
      Success(TokenRequest(grant, cfg.clientId.value, cfg.clientSecret.value, finalRedirectUri))
  }

  /** A response of the HTTP client: its status and the parsed body, if any.
      The status is never read, but it belongs to the object that is
      returned whole when the body is falsy. */
  datatype HttpResponse<D> = HttpResponse(status: int, data: Option<D>)

  /** What the POST does: the client's promise rejects, with the error's
      `message` (possibly absent or empty), or resolves with a response. */
  datatype PostOutcome<D> = PostRejected(message: Option<string>) | PostResolved(response: HttpResponse<D>)

  /** What the two token calls return without throwing: `response.data`,
      the whole `response` when it has no data, or `{success: false, error}`. */
  datatype TokenReply<D> = Data(data: D) | WholeResponse(response: HttpResponse<D>) | Failed(error: string) {
    /** The `success` field of the returned object, where `getTraktAccessToken` or `refreshTraktAccessToken` sets one. */
    function SuccessField(): Option<bool> {
      if Failed? then Some(false) else None
    }
  }

  /** The try/catch around the POST: a rejection never escapes, it becomes
      `{success: false, error}` with the error's message or the fixed default,
      so the error text is never empty; a resolved call yields its data when
      that is truthy (`response.data || response`, with JavaScript truthiness
      of the body given as `truthy`) and otherwise the response itself. */
  function Reply<D>(outcome: PostOutcome<D>, defaultMessage: string, truthy: D -> bool): (r: TokenReply<D>)
    requires defaultMessage != ""
    ensures outcome.PostRejected? <==> r.Failed?
    ensures r.Failed? ==> r.error != "" && r.SuccessField() == Some(false)
    ensures r.Failed? ==> r.error == if IsTruthy(outcome.message) then outcome.message.value else defaultMessage
    ensures outcome.PostResolved? && outcome.response.data.Some? && truthy(outcome.response.data.value) ==>
      r == Data(outcome.response.data.value)
    ensures outcome.PostResolved? && (outcome.response.data.None? || !truthy(outcome.response.data.value)) ==>
      r == WholeResponse(outcome.response)
    ensures r.Data? ==> truthy(r.data)
  {
    match outcome
    case PostRejected(message) => Failed(if IsTruthy(message) then message.value else defaultMessage)
    case PostResolved(response) =>
      if response.data.Some? && truthy(response.data.value) then Data(response.data.value) else WholeResponse(response)
  }

  /** `getTraktAccessToken(code, redirectUri)`, with the POST as `post`. */
  function TraktAccessToken<D>(cfg: Config, code: string, redirectUri: Option<string>,
                               post: TokenRequest -> PostOutcome<D>, truthy: D -> bool): (r: Result<TokenReply<D>, ConfigError>)
    ensures r.Failure? <==> BuildTokenRequest(cfg, AuthorizationCode(code), redirectUri).Failure?
    ensures r.Success? ==>
      var req := BuildTokenRequest(cfg, AuthorizationCode(code), redirectUri).value;
      && FirstValue(TokenBody(req), "grant_type") == Some("authorization_code")
      && r.value == Reply(post(req), ExchangeFailureDefault, truthy)
  {
    match BuildTokenRequest(cfg, AuthorizationCode(code), redirectUri)
    case Failure(e) => Failure(e)
    case Success(req) =>
      TokenBodySharedFields(req);
      Success(Reply(post(req), ExchangeFailureDefault, truthy))
  }

  /** `refreshTraktAccessToken(refreshToken, redirectUri)`, with the POST as `post`. */
  function RefreshTraktAccessToken<D>(cfg: Config, refreshToken: string, redirectUri: Option<string>,
                                      post: TokenRequest -> PostOutcome<D>, truthy: D -> bool): (r: Result<TokenReply<D>, ConfigError>)
    ensures r.Failure? <==> BuildTokenRequest(cfg, RefreshToken(refreshToken), redirectUri).Failure?
    ensures r.Success? ==>
      var req := BuildTokenRequest(cfg, RefreshToken(refreshToken), redirectUri).value;
      && FirstValue(TokenBody(req), "grant_type") == Some("refresh_token")
      && r.value == Reply(post(req), RefreshFailureDefault, truthy)
  {
    match BuildTokenRequest(cfg, RefreshToken(refreshToken), redirectUri)
    case Failure(e) => Failure(e)
    case Success(req) =>
      TokenBodySharedFields(req);
      Success(Reply(post(req), RefreshFailureDefault, truthy))
  }

  /** Without both credentials the exchange and the refresh throw the
      configuration error whatever the transport would have done: no POST
      takes part in the result. */
  lemma MissingCredentialsIssueNoPost<D>(cfg: Config, code: string, token: string, redirectUri: Option<string>,
                                         post1: TokenRequest -> PostOutcome<D>, post2: TokenRequest -> PostOutcome<D>,
                                         truthy: D -> bool)
    requires !IsTruthy(cfg.clientId) || !IsTruthy(cfg.clientSecret)
    ensures TraktAccessToken(cfg, code, redirectUri, post1, truthy) == TraktAccessToken(cfg, code, redirectUri, post2, truthy) == Failure(CredentialsMissing)
    ensures RefreshTraktAccessToken(cfg, token, redirectUri, post1, truthy) == RefreshTraktAccessToken(cfg, token, redirectUri, post2, truthy) == Failure(CredentialsMissing)
  {
  }

  /** A rejected exchange POST comes back as `{success: false, error}`
      rather than a thrown error. */
  lemma ExchangeHttpErrorIsReturned<D>(cfg: Config, code: string, message: string, truthy: D -> bool)
    requires IsTruthy(cfg.clientId) && IsTruthy(cfg.clientSecret)
    requires message != ""
    ensures TraktAccessToken<D>(cfg, code, None, (_: TokenRequest) => PostRejected(Some(message)), truthy) == Success(Failed(message))
  {
  }
}
