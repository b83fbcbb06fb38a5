/**
 * The gates of the `/chat` endpoint in the order they run: the credential
 * check, then the rate limiter, then validation of the request body. A
 * request that fails a gate is rejected at once; only the rate limiter
 * changes state, so a request with a wrong credential never touches the
 * quota table.
 *
 * The order is that in which the web framework resolves the endpoint's
 * dependencies (`verify_token` is declared before `rate_limit_check`, and
 * the body is validated after both); it is an assumption of this model.
 */
module Admission {
  import opened Text
  import Payload
  import Credentials
  import opened RateLimit

  const RATE_LIMITED_STATUS: int := 429
  const UNPROCESSABLE_STATUS: int := 422

  /** Configuration read once at start-up. */
  datatype Config = Config(validToken: string, limit: int)

  /** What the transport layer hands over: the bearer credential, the client
      address, and the body fields. */
  datatype RawRequest = RawRequest(credential: string, client: string, message: string, model: Payload.Option<string>)

  datatype Reason = Unauthorized | RateLimitExceeded(limit: int) | InvalidInput | SecurityRisk {
    /** The HTTP status the rejection is answered with: 401 for a wrong
        credential, 429 for an exhausted quota, 422 for a body that fails
        validation. */
    function Status(): (code: int)
      ensures code == Credentials.UNAUTHORIZED_STATUS <==> Unauthorized?
      ensures code == RATE_LIMITED_STATUS <==> RateLimitExceeded?
      ensures code == UNPROCESSABLE_STATUS <==> InvalidInput? || SecurityRisk?
    {
      match this
      case Unauthorized => Credentials.UNAUTHORIZED_STATUS
      case RateLimitExceeded(_) => RATE_LIMITED_STATUS
      case _ => UNPROCESSABLE_STATUS
    }
  }

  datatype Outcome = Admitted(request: Payload.ChatRequest) | Rejected(reason: Reason)

  datatype Transition = Transition(outcome: Outcome, table: Table)

  /** One request through the three gates. A wrong credential is rejected
      with 401 and leaves the table as it was; otherwise the limiter runs and
      its update of the table stands whatever happens next, so a request
      denied with 429 and a request whose body is then rejected both leave
      the limiter's new table. A request is admitted exactly when all three
      gates pass, and then carries the validated body: a stripped, non-blank
      message of 1 to 1000 characters without a dangerous marker in any
      casing, and a well-formed model name. */
  function Decide(table: Table, cfg: Config, req: RawRequest, now: real): (t: Transition)
    ensures t.outcome == Rejected(Unauthorized) <==> req.credential != cfg.validToken
    ensures req.credential != cfg.validToken ==> t.table == table
    ensures req.credential == cfg.validToken ==> t.table == Step(table, req.client, now, cfg.limit).table
    ensures t.outcome == Rejected(RateLimitExceeded(cfg.limit)) <==>
      req.credential == cfg.validToken && LiveCount(table, req.client, now) >= cfg.limit
    ensures t.outcome.Admitted? <==>
      && req.credential == cfg.validToken
      && LiveCount(table, req.client, now) < cfg.limit
      && Payload.ParseChatRequest(req.message, req.model).Ok?
    ensures t.outcome == Rejected(SecurityRisk) <==>
      && req.credential == cfg.validToken
      && LiveCount(table, req.client, now) < cfg.limit
      && Payload.ParseChatRequest(req.message, req.model).SecurityRisk?
    ensures t.outcome == Rejected(InvalidInput) <==>
      && req.credential == cfg.validToken
      && LiveCount(table, req.client, now) < cfg.limit
      && Payload.ParseChatRequest(req.message, req.model).InvalidInput?
    ensures t.outcome.Rejected? ==>
      && (t.outcome.reason.Status() == Credentials.UNAUTHORIZED_STATUS <==> req.credential != cfg.validToken)
      && (t.outcome.reason.Status() == RATE_LIMITED_STATUS <==>
            req.credential == cfg.validToken && LiveCount(table, req.client, now) >= cfg.limit)
      && (t.outcome.reason.Status() == UNPROCESSABLE_STATUS <==>
            req.credential == cfg.validToken && LiveCount(table, req.client, now) < cfg.limit)
    ensures t.outcome.Admitted? ==> t.outcome.request == Payload.ParseChatRequest(req.message, req.model).value
    ensures t.outcome.Rejected? ==> t.outcome.reason.RateLimitExceeded? ==> t.outcome.reason.limit == cfg.limit
    ensures t.outcome.Admitted? ==>
      && Payload.MIN_MESSAGE_LENGTH <= |req.message| <= Payload.MAX_MESSAGE_LENGTH
      && Payload.MIN_MESSAGE_LENGTH <= |t.outcome.request.message| <= Payload.MAX_MESSAGE_LENGTH
      && t.outcome.request.message == Strip(t.outcome.request.message)
      && !Payload.HasMarker(Lower(t.outcome.request.message))
      && Payload.IsModelName(t.outcome.request.model)
  {
    match Credentials.VerifyToken(req.credential, cfg.validToken)
    case Unauthorized(_) => Transition(Rejected(Unauthorized), table)
    case Authorized =>
      var d := Step(table, req.client, now, cfg.limit);
      if !d.allowed then Transition(Rejected(RateLimitExceeded(cfg.limit)), d.table)
      else
        match Payload.ParseChatRequest(req.message, req.model)
        case Ok(body) => Transition(Admitted(body), d.table)
        case InvalidInput => Transition(Rejected(InvalidInput), d.table)
        case SecurityRisk => Transition(Rejected(SecurityRisk), d.table)
  }

  /** The `/chat` dependencies and body validation run against the live
      limiter. */
  method Admit(limiter: RateLimiter, cfg: Config, req: RawRequest, now: real) returns (outcome: Outcome)
    modifies limiter
    ensures var t := Decide(old(limiter.requests), cfg, req, now);
      outcome == t.outcome && limiter.requests == t.table
    ensures req.credential != cfg.validToken ==> outcome == Rejected(Unauthorized) && limiter.requests == old(limiter.requests)
  {
    var verdict := Credentials.VerifyToken(req.credential, cfg.validToken);
    if verdict.Unauthorized? {
      outcome := Rejected(Unauthorized);
      return;
    }
    var allowed := limiter.Check(req.client, now, cfg.limit);
    if !allowed {
      outcome := Rejected(RateLimitExceeded(cfg.limit));
      return;
    }
    match Payload.ParseChatRequest(req.message, req.model)
    case Ok(body) => outcome := Admitted(body);
    case InvalidInput => outcome := Rejected(InvalidInput);
    case SecurityRisk => outcome := Rejected(SecurityRisk);
  }

  /** A request and the time it reaches the limiter. */
  datatype Arrival = Arrival(request: RawRequest, at: real)

  datatype Trace = Trace(outcomes: seq<Outcome>, table: Table)

  /** Requests served one after another, each seeing the table the previous
      one left. */
  function Serve(table: Table, cfg: Config, arrivals: seq<Arrival>): (tr: Trace)
    ensures |tr.outcomes| == |arrivals|
    ensures table.Keys <= tr.table.Keys
    decreases |arrivals|
  {
    if arrivals == [] then Trace([], table)
    else
      var t := Decide(table, cfg, arrivals[0].request, arrivals[0].at);
      var rest := Serve(t.table, cfg, arrivals[1..]);
      Trace([t.outcome] + rest.outcomes, rest.table)
  }

  /** How many of the arrivals from `client` were admitted. */
  function AdmittedFrom(arrivals: seq<Arrival>, outcomes: seq<Outcome>, client: string): (n: nat)
    requires |outcomes| == |arrivals|
    ensures n <= |arrivals|
  {
    if arrivals == [] then 0
    else
      (if outcomes[0].Admitted? && arrivals[0].request.client == client then 1 else 0)
      + AdmittedFrom(arrivals[1..], outcomes[1..], client)
  }

  /** However many requests with a wrong credential arrive, all are rejected
      as unauthorized and the quota table stays exactly as it was. */
  lemma {:induction false} BadCredentialsNeverTouchQuota(table: Table, cfg: Config, arrivals: seq<Arrival>)
    requires forall i | 0 <= i < |arrivals| :: arrivals[i].request.credential != cfg.validToken
    ensures var tr := Serve(table, cfg, arrivals);
      && tr.table == table
      && forall i | 0 <= i < |arrivals| :: tr.outcomes[i] == Rejected(Unauthorized)
  {
    if arrivals != [] {
      BadCredentialsNeverTouchQuota(table, cfg, arrivals[1..]);
      var rest := Serve(table, cfg, arrivals[1..]);
      var tr := Serve(table, cfg, arrivals);
      assert tr.outcomes == [Rejected(Unauthorized)] + rest.outcomes;
      forall i | 0 <= i < |arrivals| ensures tr.outcomes[i] == Rejected(Unauthorized) {
        if i > 0 { assert tr.outcomes[i] == rest.outcomes[i - 1]; }
      }
    }
  }

  /** Requests from other clients never change a client's entry. */
  lemma {:induction false} OtherClientsUntouched(table: Table, cfg: Config, arrivals: seq<Arrival>, other: string)
    requires forall i | 0 <= i < |arrivals| :: arrivals[i].request.client != other
    ensures var tr := Serve(table, cfg, arrivals);
      && (other in tr.table <==> other in table)
      && (other in table ==> tr.table[other] == table[other])
    decreases |arrivals|
  {
    if arrivals != [] {
      var t := Decide(table, cfg, arrivals[0].request, arrivals[0].at);
      OtherClientsUntouched(t.table, cfg, arrivals[1..], other);
    }
  }

  /** If no entry exceeds the limit, none does after any run of requests. */
  lemma {:induction false} ServeKeepsBounded(table: Table, cfg: Config, arrivals: seq<Arrival>)
    requires Bounded(table, cfg.limit)
    ensures Bounded(Serve(table, cfg, arrivals).table, cfg.limit)
    decreases |arrivals|
  {
    if arrivals != [] {
      var req := arrivals[0].request;
      if req.credential == cfg.validToken {
        StepKeepsBounded(table, req.client, arrivals[0].at, cfg.limit);
      }
      var t := Decide(table, cfg, req, arrivals[0].at);
      ServeKeepsBounded(t.table, cfg, arrivals[1..]);
    }
  }

  /** Within one window of a client (each of its requests at or before the
      window's reset time), the pipeline admits that client at most as many
      times as the limiter has slots left, whatever requests from other
      clients are mixed in, and the window does not move. Requests turned
      away by a later gate still use up a slot. */
  lemma {:induction false} WindowQuota(table: Table, cfg: Config, arrivals: seq<Arrival>, client: string)
    requires client in table
    requires forall i | 0 <= i < |arrivals| ::
      arrivals[i].request.client == client ==> arrivals[i].at <= table[client].resetTime
    ensures var tr := Serve(table, cfg, arrivals);
      && client in tr.table
      && tr.table[client].resetTime == table[client].resetTime
      && AdmittedFrom(arrivals, tr.outcomes, client) <= tr.table[client].count - table[client].count
      && tr.table[client].count <= table[client].count + Room(table[client].count, cfg.limit)
    decreases |arrivals|
  {
    if arrivals != [] {
      var a := arrivals[0];
      var t := Decide(table, cfg, a.request, a.at);
      assert client in t.table && t.table[client].resetTime == table[client].resetTime;
      assert t.table[client].count <= table[client].count + Room(table[client].count, cfg.limit);
      assert forall i | 0 <= i < |arrivals[1..]| ::
        arrivals[1..][i].request.client == client ==> arrivals[1..][i].at <= t.table[client].resetTime
      by {
        forall i | 0 <= i < |arrivals[1..]|
          ensures arrivals[1..][i].request.client == client ==> arrivals[1..][i].at <= t.table[client].resetTime
        {
          assert arrivals[1..][i] == arrivals[i + 1];
        }
      }
      WindowQuota(t.table, cfg, arrivals[1..], client);
      var tr := Serve(table, cfg, arrivals);
      var rest := Serve(t.table, cfg, arrivals[1..]);
      assert tr.outcomes[1..] == rest.outcomes;
    }
  }
}
