/** The zoneless publication as a small-step state machine:

      Start -> CheckingSubdomain -> Unregistered -> Failed
                                 -> Registered -> Requesting -> Succeeded | Failed
                                 -> Failed

    Each step sends at most one request (the `Requesting` step also reads the response text on a
    non-2xx status), no state is visited twice, and the terminal
    states are `Succeeded` and `Failed`. This is an independent description of the flow of
    `publish_zoneless`; `PublishZonelessFollowsProtocol` shows the two agree on every input. */
module ZonelessProtocol {
  import opened Wrappers
  import opened Text
  import opened Deploy

  datatype Phase =
    | Start
    | CheckingSubdomain
    | Unregistered
    | Registered(subdomain: string)
    | Requesting(subdomain: string, request: Request)
    | Succeeded(address: string)
    | Failed(error: Error)

  predicate Terminal(p: Phase) {
    p.Succeeded? || p.Failed?
  }

  /** How many steps at most remain before a terminal state. */
  function Rank(p: Phase): nat {
    match p
    case Start => 4
    case CheckingSubdomain => 3
    case Registered(_) => 2
    case Unregistered => 1
    case Requesting(_, _) => 1
    case Succeeded(_) => 0
    case Failed(_) => 0
  }

  /** One transition; terminal states stay where they are. */
  function Step<R>(p: Phase, config: Zoneless, env: Collaborators<R>): (q: Phase)
    ensures Terminal(p) ==> q == p
    ensures !Terminal(p) ==> Rank(q) < Rank(p)
    ensures q.Requesting? ==> p.Registered? && q.subdomain == p.subdomain
    ensures q.Succeeded? && !Terminal(p) ==> p.Requesting?
  {
    match p
    case Start => CheckingSubdomain
    case CheckingSubdomain => (
      match env.subdomainOf(config.accountId)
      case Err(e) => Failed(e)
      case Ok(None) => Unregistered
      case Ok(Some(subdomain)) => Registered(subdomain))
    case Unregistered => Failed(Bail(NotRegisteredMessage))
    case Registered(subdomain) => Requesting(subdomain, SubdomainRequest(config))
    case Requesting(subdomain, request) => (
      match env.send(request)
      case Err(e) => Failed(e)
      case Ok(response) =>
        if IsSuccess(response.status) then Succeeded(WorkersDevAddress(config.scriptName, subdomain))
        else match response.text
          case Err(e) => Failed(e)
          case Ok(details) => Failed(Bail(StatusFailureMessage(response.status, details))))
    case Succeeded(_) => p
    case Failed(_) => p
  }

  /** The states visited from `p` on, up to and including the terminal one. */
  function Run<R>(p: Phase, config: Zoneless, env: Collaborators<R>): (trace: seq<Phase>)
    ensures 1 <= |trace| <= Rank(p) + 1
    ensures trace[0] == p && Terminal(trace[|trace| - 1])
    ensures forall i :: 0 <= i < |trace| - 1 ==> !Terminal(trace[i]) && trace[i + 1] == Step(trace[i], config, env)
    decreases Rank(p)
  {
    if Terminal(p) then [p] else [p] + Run(Step(p, config, env), config, env)
  }

  /** What a terminal state hands back to the caller. */
  function Outcome(p: Phase): Result<string, Error>
    requires Terminal(p)
  {
    if p.Succeeded? then Ok(p.address) else Err(p.error)
  }

  /** The requests sent along a trace: one per `Requesting` state. */
  function RequestsSent(trace: seq<Phase>): seq<Request> {
    if trace == [] then []
    else (if trace[0].Requesting? then [trace[0].request] else []) + RequestsSent(trace[1..])
  }

  /** Every run takes one of the three paths of the diagram, and a request is only ever sent
      from a registered subdomain. */
  lemma {:induction false} RunPaths<R>(config: Zoneless, env: Collaborators<R>)
    ensures var t := Run(Start, config, env);
      && 3 <= |t| <= 5
      && t[0] == Start && t[1] == CheckingSubdomain
      && (|t| == 3 ==> t[2].Failed? && env.subdomainOf(config.accountId).Err?)
      && (|t| == 4 ==> t[2] == Unregistered && t[3] == Failed(Bail(NotRegisteredMessage)))
      && (|t| == 5 ==> t[2].Registered? && t[3] == Requesting(t[2].subdomain, SubdomainRequest(config)))
  {
    var t := Run(Start, config, env);
    assert t[1] == CheckingSubdomain;
    assert !Terminal(t[1]);
    if |t| == 3 {
      assert t[2] == Step(CheckingSubdomain, config, env);
    } else if |t| == 4 {
      assert t[2] == Step(CheckingSubdomain, config, env);
      assert !t[2].Failed?;
    } else {
      assert t[2] == Step(CheckingSubdomain, config, env);
      assert t[3] == Step(t[2], config, env);
    }
  }

  /** The direct definition and the state machine agree: same result, same requests sent. */
  lemma {:induction false} PublishZonelessFollowsProtocol<R>(config: Zoneless, env: Collaborators<R>)
    ensures var t := Run(Start, config, env);
      && Outcome(t[|t| - 1]) == PublishZoneless(config, env).result
      && RequestsSent(t) == Posts(PublishZoneless(config, env).calls)
  {
    var t := Run(Start, config, env);
    var p := PublishZoneless(config, env);
    var request := SubdomainRequest(config);
    RunPaths(config, env);
    PublishZonelessCallOrder(config, env);
    RegisteredRequestsSent(t, request);
    if |t| == 5 {
      RegisteredSendsOneRequest(config, env, t[2].subdomain);
      assert t[4] == Step(t[3], config, env);
    } else {
      assert env.subdomainOf(config.accountId).Err? || env.subdomainOf(config.accountId) == Ok(None);
      assert Posts(p.calls) == [] by {
        assert p.calls == [GetSubdomain(config.accountId)];
      }
    }
  }

  /** A path of the diagram sends the request of its `Requesting` state, or nothing. */
  lemma RegisteredRequestsSent(t: seq<Phase>, request: Request)
    requires 3 <= |t| <= 5 && t[0] == Start && t[1] == CheckingSubdomain
    requires |t| == 3 ==> t[2].Failed?
    requires |t| == 4 ==> t[2] == Unregistered && t[3].Failed?
    requires |t| == 5 ==> t[2].Registered? && t[3] == Requesting(t[2].subdomain, request) && Terminal(t[4])
    ensures RequestsSent(t) == if |t| == 5 then [request] else []
  {
    var n := |t|;
    assert RequestsSent(t[n..]) == [];
    assert RequestsSent(t[n - 1..]) == [] by {
      assert t[n - 1..] == [t[n - 1]] + t[n..];
    }
    if n == 5 {
      assert RequestsSent(t[3..]) == [request] by {
        assert t[3..] == [t[3]] + t[4..];
      }
    }
    if n >= 4 {
      assert RequestsSent(t[2..]) == RequestsSent(t[3..]) by {
        assert t[2..] == [t[2]] + t[3..];
      }
    }
    assert RequestsSent(t[1..]) == RequestsSent(t[2..]) by {
      assert t[1..] == [t[1]] + t[2..];
    }
  }
}
