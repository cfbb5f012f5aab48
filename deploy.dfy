/** The deploy dispatcher of `src/deploy/mod.rs`: `worker` picks the publication strategy for a
    deploy configuration, `publish_zoneless` makes a script public on the account's workers.dev
    subdomain, and `build_subdomain_request` is the JSON body of that request.

    Everything the Rust code asks of the outside world is a field of `Collaborators`: the
    subdomain lookup, sending the POST, reading the response text, publishing zone routes and
    displaying a published route. `PublishZoneless` also returns the log of the calls it made,
    so that "no request is sent" and "the lookup comes first" are statements about that log. */
module Deploy {
  import opened Wrappers
  import opened Text

  /** `Zoneless` of the settings: where a workers.dev deploy goes. */
  datatype Zoneless = Zoneless(accountId: string, scriptName: string)

  /** `Zoned` of the settings; its routes are consumed by the route publisher only. */
  datatype Zoned = Zoned(zoneId: string, routePatterns: seq<string>)

  /** `DeployConfig`: exactly one of the two deploy targets. */
  datatype DeployConfig = ZonelessDeploy(zoneless: Zoneless) | ZonedDeploy(zoned: Zoned)

  /** `failure::Error`: either raised here by `bail!` with a message, or produced by a
      collaborator (transport, authentication, API lookup) and passed on by `?`. */
  datatype Error = Bail(message: string) | Fault(cause: string)

  /** The codes an HTTP status can take (`StatusCode::from_u16` accepts 100 to 999). */
  type StatusCode = c: int | 100 <= c <= 999 witness 200

  /** A response status: its code and the HTTP library's canonical reason phrase, if it has one. */
  datatype Status = Status(code: StatusCode, canonicalReason: Option<string>)

  /** The answer to a request; reading its text is a further step that may fail on its own. */
  datatype Response = Response(status: Status, text: Result<string, Error>)

  /** A POST with its content type header and body; authentication headers are the HTTP
      client's business. */
  datatype Request = Post(url: string, contentType: string, body: string)

  /** One call to a collaborator made while publishing to workers.dev. */
  datatype Call = GetSubdomain(accountId: string) | Send(request: Request) | ReadBody

  /** What `publish_zoneless` returns, together with the calls it made, in order. */
  datatype Publication = Publication(result: Result<string, Error>, calls: seq<Call>)

  /** The outside world, as seen by this module, with `R` the route publisher's route type. */
  datatype Collaborators<!R> = Collaborators(
    subdomainOf: string -> Result<Option<string>, Error>,  // `Subdomain::get` for an account
    send: Request -> Result<Response, Error>,               // `client.post(..).send()`
    publishRoutes: Zoned -> Result<seq<R>, Error>,          // `publish_routes`
    display: R -> string)                                   // `format!("{}", route)`

  const NotRegisteredMessage: string :=
    "Before publishing to workers.dev, you must register a subdomain. Please choose a name for your subdomain and run `wrangler subdomain <name>`."

  /** The remedy the unregistered-subdomain error tells the user about. */
  const RegisterHint: string := "`wrangler subdomain <name>`"

  const ApiAccountsPrefix: string := "https://api.cloudflare.com/client/v4/accounts/"
  const ScriptsSegment: string := "/workers/scripts/"
  const SubdomainSegment: string := "/subdomain"
  const WorkersDevSuffix: string := ".workers.dev"

  /** The control-plane endpoint that turns on the workers.dev route of a script. */
  function SubdomainEndpoint(accountId: string, scriptName: string): string {
    ApiAccountsPrefix + accountId + ScriptsSegment + scriptName + SubdomainSegment
  }

  /** The address under which a script is reachable on the account's subdomain. */
  function WorkersDevAddress(scriptName: string, subdomain: string): string {
    "https://" + scriptName + "." + subdomain + WorkersDevSuffix
  }

  /** `build_subdomain_request`: `json!({"enabled": true}).to_string()`. */
  function BuildSubdomainRequest(): string {
    "{\"enabled\":true}"
  }

  /** The one request `publish_zoneless` sends. */
  function SubdomainRequest(config: Zoneless): Request {
    Post(SubdomainEndpoint(config.accountId, config.scriptName), "application/json", BuildSubdomainRequest())
  }

  /** `StatusCode::is_success`. */
  predicate IsSuccess(status: Status) {
    200 <= status.code <= 299
  }

  /** How `{}` displays a status: the code, a space, and the reason phrase. */
  function StatusDisplay(status: Status): string {
    Decimal(status.code) + " " +
    (match status.canonicalReason
     case Some(reason) => reason
     case None => "<unknown status code>")
  }

  function StatusFailureMessage(status: Status, details: string): string {
    "Something went wrong! Status: " + StatusDisplay(status) + ", Details " + details
  }

  /** The requests sent, in order, among a log of calls. */
  function Posts(calls: seq<Call>): (posts: seq<Request>)
    ensures |posts| <= |calls|
    ensures forall i :: 0 <= i < |posts| ==> Send(posts[i]) in calls
    ensures forall r :: Send(r) in calls ==> r in posts
  {
    if calls == [] then []
    else
      var rest := Posts(calls[1..]);
      assert forall i :: 0 <= i < |rest| ==> Send(rest[i]) in calls[1..];
      match calls[0]
      case Send(request) => [request] + rest
      case _ => rest
  }

  /** `publish_zoneless`: check that the account has a subdomain, send the request that makes
      the script public on it, fail on a non-2xx status with the status and the response text,
      and otherwise answer with the workers.dev address. */
  function PublishZoneless<R>(config: Zoneless, env: Collaborators<R>): Publication {
    var looked := [GetSubdomain(config.accountId)];
    match env.subdomainOf(config.accountId)
    case Err(e) => Publication(Err(e), looked)
    case Ok(None) => Publication(Err(Bail(NotRegisteredMessage)), looked)
    case Ok(Some(subdomain)) =>
      var request := SubdomainRequest(config);
      var sent := looked + [Send(request)];
      match env.send(request)
      case Err(e) => Publication(Err(e), sent)
      case Ok(response) => (
        if IsSuccess(response.status) then
          Publication(Ok(WorkersDevAddress(config.scriptName, subdomain)), sent)
        else
          var read := sent + [ReadBody];
          match response.text
          case Err(e) => Publication(Err(e), read)
          case Ok(details) => Publication(Err(Bail(StatusFailureMessage(response.status, details))), read))
  }

  /** `published_routes.iter().map(|r| format!("{}", r)).collect()`. */
  function RenderRoutes<R>(routes: seq<R>, display: R -> string): (rendered: seq<string>)
    ensures |rendered| == |routes|
    ensures forall i :: 0 <= i < |routes| ==> rendered[i] == display(routes[i])
  {
    if routes == [] then [] else [display(routes[0])] + RenderRoutes(routes[1..], display)
  }

  /** `worker`: dispatch on the deploy target and collect the published addresses. */
  function Worker<R>(config: DeployConfig, env: Collaborators<R>): Result<seq<string>, Error> {
    match config
    case ZonelessDeploy(zoneless) =>
      (match PublishZoneless(zoneless, env).result
       case Err(e) => Err(e)
       case Ok(address) => Ok([address]))
    case ZonedDeploy(zoned) =>
      match env.publishRoutes(zoned)
      case Err(e) => Err(e)
      case Ok(routes) => Ok(RenderRoutes(routes, env.display))
  }

  // ---------------------------------------------------------------------------------------
  // Reading the formatted strings back

  /** Recovers account and script from a subdomain endpoint. */
  function ParseSubdomainEndpoint(url: string): Option<(string, string)> {
    if !HasPrefix(url, ApiAccountsPrefix) then None
    else
      var rest := url[|ApiAccountsPrefix|..];
      var k := IndexOf(rest, '/');
      var tail := rest[k..];
      if |ScriptsSegment| + |SubdomainSegment| <= |tail| && HasPrefix(tail, ScriptsSegment)
         && HasSuffix(tail, SubdomainSegment)
      then Some((rest[..k], tail[|ScriptsSegment|..|tail| - |SubdomainSegment|]))
      else None
  }

  /** Recovers script and subdomain from a workers.dev address. */
  function ParseWorkersDevAddress(address: string): Option<(string, string)> {
    if |"https://"| + |WorkersDevSuffix| <= |address| && HasPrefix(address, "https://")
       && HasSuffix(address, WorkersDevSuffix)
    then
      var middle := address[|"https://"|..|address| - |WorkersDevSuffix|];
      var k := IndexOf(middle, '.');
      if k < |middle| then Some((middle[..k], middle[k + 1..])) else None
    else None
  }

  /** The endpoint names the account and the script it was built from: no two accounts (whose
      ids hold no `/`) or two scripts share an endpoint. */
  lemma SubdomainEndpointRoundTrip(accountId: string, scriptName: string)
    requires '/' !in accountId
    ensures ParseSubdomainEndpoint(SubdomainEndpoint(accountId, scriptName)) == Some((accountId, scriptName))
  {
    var url := SubdomainEndpoint(accountId, scriptName);
    var tail := ScriptsSegment + scriptName + SubdomainSegment;
    var rest := accountId + tail;
    assert url == ApiAccountsPrefix + rest;
    DropPrefix(ApiAccountsPrefix, rest);
    assert rest == accountId + ['/'] + tail[1..];
    IndexOfJoin(accountId, '/', tail[1..]);
    DropPrefix(accountId, tail);
    DropSuffix(accountId, tail);
    DropPrefix(ScriptsSegment, scriptName + SubdomainSegment);
    DropSuffix(ScriptsSegment + scriptName, SubdomainSegment);
    ConcatAssociative(ScriptsSegment, scriptName, SubdomainSegment);
    assert HasPrefix(url, ApiAccountsPrefix);
    assert url[|ApiAccountsPrefix|..] == rest;
    assert IndexOf(rest, '/') == |accountId|;
    assert rest[|accountId|..] == tail;
    assert rest[..|accountId|] == accountId;
    assert |ScriptsSegment| + |SubdomainSegment| <= |tail|;
    assert HasPrefix(tail, ScriptsSegment);
    assert HasSuffix(tail, SubdomainSegment);
    assert tail[|ScriptsSegment|..|tail| - |SubdomainSegment|] == scriptName;
  }

  /** The address names the script and the subdomain it was built from, for script names
      without a `.` (the subdomain may hold dots). */
  lemma WorkersDevAddressRoundTrip(scriptName: string, subdomain: string)
    requires '.' !in scriptName
    ensures ParseWorkersDevAddress(WorkersDevAddress(scriptName, subdomain)) == Some((scriptName, subdomain))
  {
    var address := WorkersDevAddress(scriptName, subdomain);
    var middle := scriptName + ['.'] + subdomain;
    assert address == "https://" + middle + WorkersDevSuffix;
    assert address[|"https://"|..|address| - |WorkersDevSuffix|] == middle;
    IndexOfJoin(scriptName, '.', subdomain);
    assert middle[..|scriptName|] == scriptName;
    assert middle[|scriptName| + 1..] == subdomain;
  }

  /** A status is displayed with its three-digit code first. */
  lemma StatusDisplayLeadsWithCode(status: Status)
    ensures |Decimal(status.code)| == 3
    ensures HasPrefix(StatusDisplay(status), Decimal(status.code))
    ensures ParseDecimal(StatusDisplay(status)[..3]) == status.code
  {
    DecimalOfThreeDigits(status.code);
    ParseDecimalOfDecimal(status.code);
    assert StatusDisplay(status)[..3] == Decimal(status.code);
  }

  // ---------------------------------------------------------------------------------------
  // The zoneless publication pipeline

  /** Whatever happens, the log is one of three: the lookup alone; the lookup then the request;
      or the lookup, the request and the read of the response text. The request is sent exactly
      when the lookup found a subdomain. */
  lemma PublishZonelessCallOrder<R>(config: Zoneless, env: Collaborators<R>)
    ensures var calls := PublishZoneless(config, env).calls;
      && 1 <= |calls| <= 3
      && calls[0] == GetSubdomain(config.accountId)
      && (Posts(calls) == [] || Posts(calls) == [SubdomainRequest(config)])
      && (ReadBody in calls ==> |calls| == 3 && calls[1] == Send(SubdomainRequest(config)))
      && (|| calls == [GetSubdomain(config.accountId)]
          || calls == [GetSubdomain(config.accountId), Send(SubdomainRequest(config))]
          || calls == [GetSubdomain(config.accountId), Send(SubdomainRequest(config)), ReadBody])
      && (2 <= |calls| <==> env.subdomainOf(config.accountId).Ok? && env.subdomainOf(config.accountId).value.Some?)
  {
    var calls := PublishZoneless(config, env).calls;
    var request := SubdomainRequest(config);
    assert Posts([GetSubdomain(config.accountId)]) == [];
    assert Posts([Send(request)]) == [request];
    assert Posts([Send(request), ReadBody]) == [request];
    assert |calls| >= 2 ==> calls[1..] == [Send(request)] || calls[1..] == [Send(request), ReadBody];
  }

  /** A failed subdomain lookup is handed back unchanged and nothing is sent. */
  lemma LookupErrorPropagates<R>(config: Zoneless, env: Collaborators<R>, e: Error)
    requires env.subdomainOf(config.accountId) == Err(e)
    ensures PublishZoneless(config, env).result == Err(e)
    ensures PublishZoneless(config, env).calls == [GetSubdomain(config.accountId)]
  {
  }

  /** Without a registered subdomain the publication fails, telling the user to run
      `wrangler subdomain <name>`, and nothing is sent. */
  lemma UnregisteredFailsBeforePost<R>(config: Zoneless, env: Collaborators<R>)
    requires env.subdomainOf(config.accountId) == Ok(None)
    ensures var p := PublishZoneless(config, env);
      && p.result == Err(Bail(NotRegisteredMessage))
      && Contains(p.result.error.message, RegisterHint)
      && Posts(p.calls) == []
  {
    var front := "Before publishing to workers.dev, you must register a subdomain. Please choose a name for your subdomain and run ";
    assert NotRegisteredMessage == front + RegisterHint + ".";
    ContainsMiddle(front, RegisterHint, ".");
    assert Posts([GetSubdomain(config.accountId)]) == [];
  }

  /** Without a subdomain the outcome does not depend on the server at all: two environments that
      agree on the lookup give the same publication, whatever each would answer to a POST. */
  lemma NoSubdomainIgnoresServer<R>(config: Zoneless, first: Collaborators<R>, second: Collaborators<R>)
    requires first.subdomainOf(config.accountId) == second.subdomainOf(config.accountId)
    requires first.subdomainOf(config.accountId).Err? || first.subdomainOf(config.accountId) == Ok(None)
    ensures PublishZoneless(config, first) == PublishZoneless(config, second)
  {
  }

  /** A registered subdomain leads to exactly one POST, to the script's subdomain endpoint, with
      the JSON body `{"enabled":true}`. */
  lemma RegisteredSendsOneRequest<R>(config: Zoneless, env: Collaborators<R>, subdomain: string)
    requires env.subdomainOf(config.accountId) == Ok(Some(subdomain))
    ensures var posts := Posts(PublishZoneless(config, env).calls);
      && |posts| == 1
      && posts[0].url == ApiAccountsPrefix + config.accountId + "/workers/scripts/" + config.scriptName + "/subdomain"
      && posts[0].contentType == "application/json"
      && posts[0].body == "{\"enabled\":true}"
  {
    var request := SubdomainRequest(config);
    assert Posts([Send(request)]) == [request];
    assert Posts([Send(request), ReadBody]) == [request];
    var calls := PublishZoneless(config, env).calls;
    assert calls[1..] == [Send(request)] || calls[1..] == [Send(request), ReadBody];
  }

  /** The request does not depend on the subdomain or on anything the server answered before:
      two publications of the same script send identical requests, and when both succeed they
      answer with the same address. */
  lemma RepeatedPublicationSendsSameRequest<R>(config: Zoneless, first: Collaborators<R>, second: Collaborators<R>)
    requires first.subdomainOf(config.accountId).Ok? && first.subdomainOf(config.accountId).value.Some?
    requires second.subdomainOf(config.accountId).Ok? && second.subdomainOf(config.accountId).value.Some?
    ensures Posts(PublishZoneless(config, first).calls) == Posts(PublishZoneless(config, second).calls)
    ensures first.subdomainOf(config.accountId) == second.subdomainOf(config.accountId)
            && PublishZoneless(config, first).result.Ok? && PublishZoneless(config, second).result.Ok?
            ==> PublishZoneless(config, first).result == PublishZoneless(config, second).result
  {
    RegisteredSendsOneRequest(config, first, first.subdomainOf(config.accountId).value.value);
    RegisteredSendsOneRequest(config, second, second.subdomainOf(config.accountId).value.value);
  }

  /** A transport failure of the POST is handed back unchanged. */
  lemma SendErrorPropagates<R>(config: Zoneless, env: Collaborators<R>, e: Error)
    requires env.subdomainOf(config.accountId).Ok? && env.subdomainOf(config.accountId).value.Some?
    requires env.send(SubdomainRequest(config)) == Err(e)
    ensures PublishZoneless(config, env).result == Err(e)
    ensures ReadBody !in PublishZoneless(config, env).calls
  {
  }

  /** A non-2xx status is an error whose message holds the status code and the full response
      text; no address is returned. */
  lemma NonSuccessReportsStatusAndDetails<R>(config: Zoneless, env: Collaborators<R>, response: Response, details: string)
    requires env.subdomainOf(config.accountId).Ok? && env.subdomainOf(config.accountId).value.Some?
    requires env.send(SubdomainRequest(config)) == Ok(response)
    requires !IsSuccess(response.status)
    requires response.text == Ok(details)
    ensures var r := PublishZoneless(config, env).result;
      && r.Err? && r.error.Bail?
      && Contains(r.error.message, Decimal(response.status.code))
      && Contains(r.error.message, details)
  {
    var message := PublishZoneless(config, env).result.error.message;
    var reason := StatusDisplay(response.status)[|Decimal(response.status.code)|..];
    assert StatusDisplay(response.status) == Decimal(response.status.code) + reason;
    assert message == "Something went wrong! Status: " + Decimal(response.status.code) + (reason + ", Details " + details);
    ContainsMiddle("Something went wrong! Status: ", Decimal(response.status.code), reason + ", Details " + details);
    assert message == ("Something went wrong! Status: " + StatusDisplay(response.status) + ", Details ") + details + "";
    ContainsMiddle("Something went wrong! Status: " + StatusDisplay(response.status) + ", Details ", details, "");
  }

  /** On a non-2xx status the response text is read; when that read fails, its error replaces
      the status error. */
  lemma BodyReadErrorPropagates<R>(config: Zoneless, env: Collaborators<R>, response: Response, e: Error)
    requires env.subdomainOf(config.accountId).Ok? && env.subdomainOf(config.accountId).value.Some?
    requires env.send(SubdomainRequest(config)) == Ok(response)
    requires !IsSuccess(response.status)
    requires response.text == Err(e)
    ensures PublishZoneless(config, env).result == Err(e)
    ensures PublishZoneless(config, env).calls[|PublishZoneless(config, env).calls| - 1] == ReadBody
  {
  }

  /** On a 2xx status the result is `https://<script>.<subdomain>.workers.dev`, and the response
      text is never read. */
  lemma SuccessYieldsWorkersDevAddress<R>(config: Zoneless, env: Collaborators<R>, subdomain: string, response: Response)
    requires env.subdomainOf(config.accountId) == Ok(Some(subdomain))
    requires env.send(SubdomainRequest(config)) == Ok(response)
    requires IsSuccess(response.status)
    ensures PublishZoneless(config, env).result == Ok("https://" + config.scriptName + "." + subdomain + ".workers.dev")
    ensures ReadBody !in PublishZoneless(config, env).calls
  {
  }

  /** Publication succeeds exactly when the subdomain is registered, the request goes through
      and the status is 2xx. */
  lemma PublishZonelessSucceedsIff<R>(config: Zoneless, env: Collaborators<R>)
    ensures PublishZoneless(config, env).result.Ok? <==>
      && env.subdomainOf(config.accountId).Ok?
      && env.subdomainOf(config.accountId).value.Some?
      && env.send(SubdomainRequest(config)).Ok?
      && IsSuccess(env.send(SubdomainRequest(config)).value.status)
  {
  }

  // ---------------------------------------------------------------------------------------
  // The dispatcher

  /** A zoneless deploy yields the zoneless publication's error, or a one-element list holding
      its address. */
  lemma WorkerZoneless<R>(zoneless: Zoneless, env: Collaborators<R>)
    ensures var r := Worker(ZonelessDeploy(zoneless), env);
      var p := PublishZoneless(zoneless, env).result;
      && r.Ok? == p.Ok?
      && (r.Ok? ==> |r.value| == 1 && r.value[0] == p.value)
      && (r.Err? ==> r.error == p.error)
  {
  }

  /** A zoned deploy yields the route publisher's error unchanged, or one displayed route per
      published route, in the publisher's order. */
  lemma WorkerZoned<R>(zoned: Zoned, env: Collaborators<R>)
    ensures var r := Worker(ZonedDeploy(zoned), env);
      var routes := env.publishRoutes(zoned);
      && r.Ok? == routes.Ok?
      && (r.Err? ==> r.error == routes.error)
      && (r.Ok? ==> |r.value| == |routes.value|
                    && forall i :: 0 <= i < |routes.value| ==> r.value[i] == env.display(routes.value[i]))
  {
  }

  /** Account `acct1`, script `my-worker`, subdomain `myteam` and status 200 deploy to
      `https://my-worker.myteam.workers.dev`. */
  lemma RegisteredDeployExample<R>(env: Collaborators<R>)
    requires env.subdomainOf("acct1") == Ok(Some("myteam"))
    requires env.send(SubdomainRequest(Zoneless("acct1", "my-worker"))).Ok?
    requires env.send(SubdomainRequest(Zoneless("acct1", "my-worker"))).value.status.code == 200
    ensures Worker(ZonelessDeploy(Zoneless("acct1", "my-worker")), env) == Ok(["https://my-worker.myteam.workers.dev"])
  {
    var config := Zoneless("acct1", "my-worker");
    SuccessYieldsWorkersDevAddress(config, env, "myteam", env.send(SubdomainRequest(config)).value);
    assert WorkersDevAddress("my-worker", "myteam") == "https://my-worker.myteam.workers.dev";
  }

  /** A 403 answer with text `forbidden` is reported with both in the message. */
  lemma ForbiddenDeployExample<R>(env: Collaborators<R>, reason: Option<string>)
    requires env.subdomainOf("acct1") == Ok(Some("myteam"))
    requires env.send(SubdomainRequest(Zoneless("acct1", "my-worker"))) == Ok(Response(Status(403, reason), Ok("forbidden")))
    ensures var r := Worker(ZonelessDeploy(Zoneless("acct1", "my-worker")), env);
      r.Err? && r.error.Bail? && Contains(r.error.message, "403") && Contains(r.error.message, "forbidden")
  {
    var config := Zoneless("acct1", "my-worker");
    NonSuccessReportsStatusAndDetails(config, env, Response(Status(403, reason), Ok("forbidden")), "forbidden");
    DecimalOfThreeDigits(403);
  }
}
