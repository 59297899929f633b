/** The password-grant OAuth2 client that obtains the access token used by
    the streaming session (section 4.3 of RFC 6749, with the client
    credentials sent in the request body as section 2.3.1 allows). */
module OAuth {
  import opened Wrappers

  /** The environment selector; only the exact value "sandbox" is special. */
  type Environment = string

  const EnvironmentSandbox: Environment := "sandbox"
  const GrantType := "password"
  const LoginURI := "https://login.salesforce.com/services/oauth2/token"
  const TestLoginURI := "https://test.salesforce.com/services/oauth2/token"

  /** The credentials a client holds; they are never changed after
      construction. */
  datatype Client = Client(
    environment: Environment,
    clientID: string,
    clientSecret: string,
    username: string,
    password: string,
    securityToken: string)

  /** A client holding exactly the six given values. */
  function NewClient(
    environment: Environment,
    clientID: string,
    clientSecret: string,
    username: string,
    password: string,
    securityToken: string
  ): (c: Client)
    ensures c.environment == environment
    ensures c.clientID == clientID && c.clientSecret == clientSecret
    ensures c.username == username && c.password == password
    ensures c.securityToken == securityToken
  {
    Client(environment, clientID, clientSecret, username, password, securityToken)
  }

  /** Form values, each key mapped to its list of values (`url.Values`). */
  type Values = map<string, seq<string>>

  /** The form fields of the token request. */
  function Payload(c: Client): (p: Values)
    ensures p.Keys == {"grant_type", "client_id", "client_secret", "username", "password"}
    ensures forall k :: k in p ==> |p[k]| == 1
    ensures p["grant_type"] == [GrantType]
    ensures p["client_id"] == [c.clientID]
    ensures p["client_secret"] == [c.clientSecret]
    ensures p["username"] == [c.username]
    ensures |p["password"][0]| == |c.password| + |c.securityToken|
    ensures p["password"][0][..|c.password|] == c.password
    ensures p["password"][0][|c.password|..] == c.securityToken
  {
    map[
      "grant_type" := [GrantType],
      "client_id" := [c.clientID],
      "client_secret" := [c.clientSecret],
      "username" := [c.username],
      "password" := [c.password + c.securityToken]]
  }

  /** Without a security token the password is sent on its own. */
  lemma PasswordWithoutToken(c: Client)
    requires c.securityToken == ""
    ensures Payload(c)["password"] == [c.password]
  {
    var sent := Payload(c)["password"][0];
    assert sent == sent[..|c.password|];
  }

  /** The token endpoint: the test host exactly for the sandbox environment,
      the production host for every other value, the empty one included. */
  function TokenURI(environment: Environment): (uri: string)
    ensures uri == TestLoginURI <==> environment == EnvironmentSandbox
    ensures uri == LoginURI <==> environment != EnvironmentSandbox
  {
    assert LoginURI[8] != TestLoginURI[8];
    if EnvironmentSandbox == environment then TestLoginURI else LoginURI
  }

  /** An HTTP request as the transport receives it. */
  datatype Request = Request(verb: string, uri: string, form: Values, headers: map<string, string>)

  /** The fixed headers set on the token request. */
  const Headers: map<string, string> := map[
    "Accept" := "application/json",
    "Accept-Encoding" := "gzip;q=1.0, *;q=0.1",
    "Content-Type" := "application/x-www-form-urlencoded",
    "User-Agent" := "ConduitIO/Salesforce-v0.1.0"]

  /** The request as first prepared: a POST of the form to the endpoint. */
  function Prepared(c: Client): (req: Request)
    ensures req.verb == "POST" && req.headers == map[]
    ensures req.uri == TokenURI(c.environment) && req.form == Payload(c)
  {
    Request("POST", TokenURI(c.environment), Payload(c), map[])
  }

  /** The prepared request with its headers, as it is sent. */
  function WithHeaders(req: Request): (sent: Request)
    ensures sent.verb == req.verb && sent.uri == req.uri && sent.form == req.form
    ensures sent.headers == Headers
  {
    req.(headers := Headers)
  }

  type byte = x: int | 0 <= x < 256

  /** The fields of a token response. The response package is not part of
      this model; only the fields the session uses are kept. */
  datatype TokenResponse = TokenResponse(accessToken: string, instanceURL: string)

  /** The zero token returned beside every error. */
  const EmptyToken := TokenResponse("", "")

  /** A structured failure payload from the token endpoint. */
  datatype FailureResponse = FailureResponse(error: string, errorDescription: string)

  /** The errors `Authenticate` returns: a step failure wrapped with the
      context it happened in, or the failure payload itself. */
  datatype AuthError =
    | Wrapped(context: string, cause: string)
    | AuthFailure(failure: FailureResponse)

  const PrepareContext := "failed to prepare authentication request"
  const SendContext := "failed to send authentication request"
  const ReadContext := "could not read response data"
  const ProcessContext := "unable to process authentication response"

  /** The outcomes of the steps `Authenticate` delegates to the HTTP library
      and the JSON decoder, as uninterpreted functions: preparing the request
      (an error or none), sending it, reading the body of the response, and
      decoding that body as a token or as a failure payload. */
  datatype Steps<!Resp> = Steps(
    prepare: Request -> Option<string>,
    send: Request -> Result<Resp, string>,
    read: Resp -> Result<seq<byte>, string>,
    parseToken: seq<byte> -> Option<TokenResponse>,
    parseFailure: seq<byte> -> Result<FailureResponse, string>)

  /** The body the exchange obtains, if preparing, sending and reading all
      succeed. */
  function Body<Resp>(c: Client, steps: Steps<Resp>): (body: Option<seq<byte>>)
    ensures body.Some? <==>
      steps.prepare(Prepared(c)).None? && steps.send(WithHeaders(Prepared(c))).Success? &&
      steps.read(steps.send(WithHeaders(Prepared(c))).value).Success?
  {
    if steps.prepare(Prepared(c)).Some? then None
    else match steps.send(WithHeaders(Prepared(c)))
      case Failure(_) => None
      case Success(resp) =>
        match steps.read(resp)
        case Failure(_) => None
        case Success(bytes) => Some(bytes)
  }

  /** One token exchange: prepare, send, read, then try the body as a token,
      then as a failure payload, returning at the first step that decides. */
  method Authenticate<Resp>(c: Client, steps: Steps<Resp>) returns (token: TokenResponse, err: Option<AuthError>)
    // a token is never returned together with an error
    ensures err.Some? ==> token == EmptyToken
    // success exactly when every step succeeds and the body decodes as a token
    ensures err.None? <==> Body(c, steps).Some? && steps.parseToken(Body(c, steps).value).Some?
    ensures err.None? ==> token == steps.parseToken(Body(c, steps).value).value
    // the step that fails first is the one reported
    ensures var req := Prepared(c);
      steps.prepare(req).Some? ==> err == Some(Wrapped(PrepareContext, steps.prepare(req).value))
    ensures var req := Prepared(c);
      steps.prepare(req).None? && steps.send(WithHeaders(req)).Failure? ==>
        err == Some(Wrapped(SendContext, steps.send(WithHeaders(req)).error))
    ensures var req := Prepared(c);
      steps.prepare(req).None? && steps.send(WithHeaders(req)).Success? &&
      steps.read(steps.send(WithHeaders(req)).value).Failure? ==>
        err == Some(Wrapped(ReadContext, steps.read(steps.send(WithHeaders(req)).value).error))
    // a body that is not a token is reported as a failure payload if it is one
    ensures Body(c, steps).Some? && steps.parseToken(Body(c, steps).value).None? ==>
      err == Some(match steps.parseFailure(Body(c, steps).value)
                  case Success(failure) => AuthFailure(failure)
                  case Failure(cause) => Wrapped(ProcessContext, cause))
  {
    var req := Prepared(c);
    var prepError := steps.prepare(req);
    if prepError.Some? {
      return EmptyToken, Some(Wrapped(PrepareContext, prepError.value));
    }
    req := WithHeaders(req);

    var sent := steps.send(req);
    if sent.Failure? {
      return EmptyToken, Some(Wrapped(SendContext, sent.error));
    }

    var read := steps.read(sent.value);
    if read.Failure? {
      return EmptyToken, Some(Wrapped(ReadContext, read.error));
    }
    var body := read.value;

    var parsed := steps.parseToken(body);
    if parsed.Some? {
      return parsed.value, None;
    }

    var failure := steps.parseFailure(body);
    if failure.Failure? {
      return EmptyToken, Some(Wrapped(ProcessContext, failure.error));
    }
    return EmptyToken, Some(AuthFailure(failure.value));
  }
}
