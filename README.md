# Deploy dispatcher of wrangler, modelled in Dafny

This project models `src/deploy/mod.rs` of wrangler, the Cloudflare Workers CLI. The file
publishes a worker script in one of two ways:

- **`worker`** dispatches on the deploy configuration. A *zoneless* deploy publishes to the
  account's `workers.dev` subdomain and answers with that one address. A *zoned* deploy hands the
  work to the route publisher and answers with every published route, displayed as text, in the
  publisher's order.
- **`publish_zoneless`** is a linear pipeline:
  1. it looks up the account's subdomain, and fails with a "register a subdomain first" message
     when there is none;
  2. it builds the endpoint
     `https://api.cloudflare.com/client/v4/accounts/<account>/workers/scripts/<script>/subdomain`;
  3. it sends one POST with content type `application/json` and body `{"enabled":true}`;
  4. on a non-2xx status it reads the response text and fails with a message holding the status
     and that text;
  5. on a 2xx status it answers `https://<script>.<subdomain>.workers.dev`.
- **`build_subdomain_request`** is the constant JSON body.

Everything the Rust code asks of the outside world is a field of the datatype
`Deploy.Collaborators`:

- `subdomainOf` is `Subdomain::get`;
- `send` is the POST through the HTTP client, and its `Response` carries the result of reading
  the text;
- `publishRoutes` is `publish_routes`;
- `display` is the `Display` of a published route.

`Deploy.PublishZoneless` returns the result together with the log of calls it made
(`GetSubdomain`, `Send(request)`, `ReadBody`). "No request is sent" and "the lookup comes first"
are statements about that log.

The flow is also described a second time, independently, in `ZonelessProtocol`. There it is a
state machine:

    Start -> CheckingSubdomain -> {Unregistered -> Failed | Registered -> Requesting -> {Succeeded | Failed} | Failed}

The lemma `ZonelessProtocol.PublishZonelessFollowsProtocol` proves that both definitions give the
same result and send the same requests on every input.

Files:

- `wrappers.dfy`: the `Option` and `Result` datatypes.
- `text.dfy`: the parts of `format!` used here. This covers decimal rendering with its parser and
  round trip, infix, prefix and suffix views, and the first occurrence of a character.
- `deploy.dfy`: the source file and its properties.
- `protocol.dfy`: the state machine and the equivalence proof.

## Model

| member | source | states |
|---|---|---|
| Deploy.WorkerZoneless | src/deploy/mod.rs:14-19 | A zoneless deploy fails exactly when the zoneless publication fails, with the same error. Otherwise it yields a list of length exactly 1 whose element is the published address. |
| Deploy.WorkerZoned | src/deploy/mod.rs:21-30 | A zoned deploy returns an error from the route publisher unchanged, with no partial list. Otherwise it yields one string per published route, with the same length and order, and element i is the display of route i. |
| Deploy.RenderRoutes | src/deploy/mod.rs:27-28 | Mapping the display over the routes keeps the length, and element i is the display of route i. |
| Deploy.PublishZonelessCallOrder | src/deploy/mod.rs:40-65 | On every input the call log is exactly one of three: the lookup alone; the lookup then the subdomain request; or the lookup, the subdomain request and the read of the response text. So there is one lookup, it comes first, and the POST is the second call. The request is sent exactly when the lookup found a subdomain. |
| Deploy.LookupErrorPropagates | src/deploy/mod.rs:40 | An error from the subdomain lookup is returned unchanged, and the lookup is the only call made. |
| Deploy.UnregisteredFailsBeforePost | src/deploy/mod.rs:40-43 | With no registered subdomain the result is the "must register a subdomain" error. Its message contains `` `wrangler subdomain <name>` `` and no POST is sent. |
| Deploy.SubdomainEndpointRoundTrip | src/deploy/mod.rs:45-48 | The endpoint is `https://api.cloudflare.com/client/v4/accounts/` + account + `/workers/scripts/` + script + `/subdomain`. The account and the script can be read back from it when the account id holds no `/`, so distinct scripts get distinct endpoints. |
| Deploy.NoSubdomainIgnoresServer | src/deploy/mod.rs:40-43 | When the lookup fails or finds no subdomain, the whole publication, result and calls alike, is the same for any two environments that agree on the lookup. Nothing the server would answer can influence it. |
| Deploy.RegisteredSendsOneRequest | src/deploy/mod.rs:45-57 | With a registered subdomain exactly one POST is sent. It goes to the account's script endpoint, with content type `application/json` and body `{"enabled":true}`. |
| Deploy.RepeatedPublicationSendsSameRequest | src/deploy/mod.rs:53-57 | Two publications of the same script send identical requests, whatever subdomain or server state each one meets. When both succeed with the same subdomain, they return the same address. |
| Deploy.SendErrorPropagates | src/deploy/mod.rs:53-57 | A transport failure of the POST is returned unchanged, and the response text is never read. |
| Deploy.NonSuccessReportsStatusAndDetails | src/deploy/mod.rs:59-65 | A non-2xx status makes the result a `bail!` error and no address is returned. The error message contains the decimal status code and the full response text. |
| Deploy.BodyReadErrorPropagates | src/deploy/mod.rs:59-65 | On a non-2xx status the response text is read last. If that read fails, its error is returned in place of the status error. |
| Deploy.StatusDisplayLeadsWithCode | src/deploy/mod.rs:60-62 | The status is displayed starting with its three-digit code, and that code can be parsed back from the display. |
| Deploy.SuccessYieldsWorkersDevAddress | src/deploy/mod.rs:67-70 | On a 2xx status with registered subdomain s the result is exactly `https://` + script + `.` + s + `.workers.dev`, and the response text is never read. |
| Deploy.WorkersDevAddressRoundTrip | src/deploy/mod.rs:67-70 | The script and the subdomain can be read back from the address when the script name holds no `.`. |
| Deploy.PublishZonelessSucceedsIff | src/deploy/mod.rs:35-71 | Publication succeeds if and only if three things hold: the subdomain is registered, the POST goes through, and its status is 2xx. |
| Deploy.RegisteredDeployExample | src/deploy/mod.rs:14-19 | Account `acct1`, script `my-worker`, subdomain `myteam` and status 200 deploy to `["https://my-worker.myteam.workers.dev"]`. |
| Deploy.ForbiddenDeployExample | src/deploy/mod.rs:59-65 | A 403 answer with text `forbidden` fails the deploy, and the message mentions both `403` and `forbidden`. |
| ZonelessProtocol.Step | src/deploy/mod.rs:35-71 | Every transition of the state machine moves strictly closer to a terminal state. A `Requesting` state is reached only from `Registered` with the same subdomain, and `Succeeded` only from `Requesting`. |
| ZonelessProtocol.Run | src/deploy/mod.rs:35-71 | A run starts at the given state and ends in a terminal state. It visits at most rank + 1 states, each one the step of the one before. |
| ZonelessProtocol.RunPaths | src/deploy/mod.rs:40-57 | Every run takes one of three paths: lookup error, then failed; unregistered, then the register-first error; or registered, then requesting the subdomain request, then terminal. |
| ZonelessProtocol.PublishZonelessFollowsProtocol | src/deploy/mod.rs:35-71 | On every input the state machine's terminal outcome equals `PublishZoneless`'s result, and the requests it sends equal the POSTs in `PublishZoneless`'s call log. |

## Left out

- The HTTP client (`http::legacy_auth_client`) and its authentication headers are not modelled. Transport is the `send` collaborator, which gives a response or an error.
- `Subdomain::get` is not modelled internally. Only its result is, as a function of the account id: a subdomain, none, or an error.
- `publish_routes`, the `route` module and the `Display` of a route are not part of this model. Each is an opaque collaborator.
- `GlobalUser` credentials and the parsing of `DeployConfig` are not modelled. `Zoned` keeps its zone id and route patterns only as data.
- The `log::info!` calls are left out because they are only observability.
- The `json!` macro and serialisation are not modelled. The body is the fixed string `{"enabled":true}` that they produce.
- The HTTP library's table of canonical reason phrases is not modelled. A `Status` carries its own reason phrase, or none, in which case the display uses `<unknown status code>` as the library does.
- `failure::Error` is modelled as a value with two forms: a `bail!` message, or an opaque error from a collaborator. Backtraces are not modelled, and neither is the conversion that `?` performs, so a propagated error is the same value.
- Concurrency between overlapping deploys is not modelled, because the code makes no ordering promise about it.
- Deploy.SubdomainEndpointRoundTrip and Deploy.WorkersDevAddressRoundTrip only read the parts back under a separator-free condition: an account id without `/`, or a script name without `.`. The source does not check identifiers, and without those conditions the formatted strings can be ambiguous.

## Notes on the code's behaviour

- The code has a single error type. An unregistered subdomain and a non-2xx status are `bail!` messages, and errors from collaborators are passed on by `?`. The model treats the converted error as the same value (see Left out).
- The request body is the compact `{"enabled":true}`, with no space.
- The status is checked first, and the response text is read afterwards inside the `bail!` arguments with `?`. A failed read therefore replaces the status error (Deploy.BodyReadErrorPropagates).
- The status appears in the message as its code followed by its reason phrase, for example `403 Forbidden`.
