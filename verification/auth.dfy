/**
 * The poller's ZoneMinder login (`login_bauth`). The process keeps one access
 * token with an expiry time and a flag that records that the server runs with
 * authentication switched off. A login request is made only when there is no
 * usable token; the server's answer is an input here.
 */
module Auth {
  import opened Wrappers

  /** A token from the login call is trusted for one hour. */
  const TokenLifetime := 3600
  /** With authentication off, the dummy token is trusted for ten years. */
  const DisabledLifetime := 10 * 365 * 24 * 3600
  const DisabledToken := "AUTH_DISABLED"

  /** The decoded body of a 200 answer: the `access_token` entry and whether `version` and `apiversion` are present. */
  datatype LoginJson = LoginJson(accessToken: Option<string>, hasVersion: bool, hasApiVersion: bool)

  /** What the login request yields: an exception, or a status code with a body that is JSON or not. */
  datatype Reply = Unreachable | Answer(status: int, json: Option<LoginJson>)

  /** The globals `access_token`, `TOKEN_EXPIRY` and `AUTH_DISABLED`. */
  datatype TokenState = TokenState(token: Option<string>, expiry: int, disabled: bool)

  /** What one call to the login routine did. */
  datatype Outcome =
    | NoRequest          // the token was still usable, or authentication is off
    | Refused            // a non-200 answer, a body that is not JSON, or a 200 without token or version
    | Granted(token: string)
    | Raised             // the request raised; the exception leaves the routine

  /** The state at start-up: no token, expiry 1, authentication assumed on. */
  const Initial := TokenState(None, 1, false)

  /** Python truthiness of an optional string. */
  predicate HasToken(t: Option<string>) {
    t.Some? && t.value != ""
  }

  /** The guard at the top of the routine: a non-empty unexpired token, or authentication off. */
  predicate Usable(s: TokenState, now: int) {
    (HasToken(s.token) && now < s.expiry) || s.disabled
  }

  /** One call at time `now`, given the answer `r` the server would give. */
  function Step(s: TokenState, now: int, r: Reply): (res: (TokenState, Outcome))
    ensures res.1 == NoRequest <==> Usable(s, now)
    ensures !res.1.Granted? ==> res.0 == s
    ensures res.1.Granted? ==> HasToken(res.0.token) && res.0.token == Some(res.1.token)
    ensures res.1.Granted? ==> forall t | now <= t < now + TokenLifetime :: Usable(res.0, t)
    ensures res.1.Granted? ==> res.0.expiry == now + (if res.0.disabled then DisabledLifetime else TokenLifetime)
    ensures res.0.disabled <==> s.disabled || (res.1 == Granted(DisabledToken) && res.0.expiry == now + DisabledLifetime)
    // Without a usable token, the answer decides the outcome.
    ensures !Usable(s, now) && r.Unreachable? ==> res == (s, Raised)
    ensures !Usable(s, now) && r.Answer? && (r.status != 200 || r.json.None?) ==> res == (s, Refused)
    ensures !Usable(s, now) && r.Answer? && r.status == 200 && r.json.Some? && HasToken(r.json.value.accessToken) ==>
      res == (TokenState(r.json.value.accessToken, now + TokenLifetime, s.disabled), Granted(r.json.value.accessToken.value))
    ensures !Usable(s, now) && r.Answer? && r.status == 200 && r.json.Some? && !HasToken(r.json.value.accessToken) ==>
      res == (if r.json.value.hasVersion && r.json.value.hasApiVersion
              then (TokenState(Some(DisabledToken), now + DisabledLifetime, true), Granted(DisabledToken))
              else (s, Refused))
    // A grant happens exactly on a 200 JSON answer carrying a token, or carrying both version fields.
    ensures res.1.Granted? <==>
      !Usable(s, now) && r.Answer? && r.status == 200 && r.json.Some? &&
      (HasToken(r.json.value.accessToken) || (r.json.value.hasVersion && r.json.value.hasApiVersion))
  {
    if Usable(s, now) then (s, NoRequest)
    else match r
      case Unreachable => (s, Raised)
      case Answer(status, json) =>
        if status != 200 || json.None? then (s, Refused)
        else if HasToken(json.value.accessToken) then
          var t := json.value.accessToken.value;
          (TokenState(Some(t), now + TokenLifetime, s.disabled), Granted(t))
        else if json.value.hasVersion && json.value.hasApiVersion then
          (TokenState(Some(DisabledToken), now + DisabledLifetime, true), Granted(DisabledToken))
        else (s, Refused)
  }

  /** The state after a sequence of calls, each at a time with the answer the server would give. */
  function Run(s: TokenState, calls: seq<(int, Reply)>): TokenState
    decreases |calls|
  {
    if calls == [] then s else Run(Step(s, calls[0].0, calls[0].1).0, calls[1..])
  }

  /** How many of those calls sent a login request. */
  function Requests(s: TokenState, calls: seq<(int, Reply)>): nat
    decreases |calls|
  {
    if calls == [] then 0
    else
      var res := Step(s, calls[0].0, calls[0].1);
      (if res.1 == NoRequest then 0 else 1) + Requests(res.0, calls[1..])
  }

  /** Once the server is found to run without authentication, no login request is ever sent again. */
  lemma {:induction false} DisabledIsFinal(s: TokenState, calls: seq<(int, Reply)>)
    requires s.disabled
    ensures Run(s, calls) == s && Requests(s, calls) == 0
    decreases |calls|
  {
    if calls != [] {
      DisabledIsFinal(s, calls[1..]);
    }
  }

  /** After a token is granted at `now`, calls made within the following hour send no request and keep the state. */
  lemma {:induction false} NoRequestWithinTheHour(s: TokenState, now: int, r: Reply, calls: seq<(int, Reply)>)
    requires Step(s, now, r).1.Granted?
    requires forall i | 0 <= i < |calls| :: now <= calls[i].0 < now + TokenLifetime
    ensures Requests(Step(s, now, r).0, calls) == 0
    ensures Run(Step(s, now, r).0, calls) == Step(s, now, r).0
  {
    var g := Step(s, now, r).0;
    var k := 0;
    while k < |calls|
      invariant 0 <= k <= |calls|
      invariant Requests(g, calls) == Requests(g, calls[k..])
      invariant Run(g, calls) == Run(g, calls[k..])
    {
      assert Usable(g, calls[k..][0].0);
      assert calls[k..][1..] == calls[k + 1..];
      k := k + 1;
    }
    assert calls[k..] == [];
  }

  /**
   * A token granted at `now` with authentication on is spent after the hour:
   * any call at or after `now + TokenLifetime` sends a new login request.
   */
  lemma RequestAfterTheHour(s: TokenState, now: int, r: Reply, later: int, r': Reply)
    requires Step(s, now, r).1.Granted? && !Step(s, now, r).0.disabled
    requires later >= now + TokenLifetime
    ensures Step(Step(s, now, r).0, later, r').1 != NoRequest
  {
  }

  /** The process's login state, updated in place by each call. */
  class Session {
    var accessToken: Option<string>
    var tokenExpiry: int
    var authDisabled: bool

    function State(): TokenState
      reads this
    {
      TokenState(accessToken, tokenExpiry, authDisabled)
    }

    constructor()
      ensures State() == Initial
    {
      accessToken := None;
      tokenExpiry := 1;
      authDisabled := false;
    }

    /** `login_bauth`, given the clock reading and the answer the request would get. */
    method Login(now: int, r: Reply) returns (outcome: Outcome)
      modifies this
      ensures (State(), outcome) == Step(old(State()), now, r)
    {
      if (HasToken(accessToken) && now < tokenExpiry) || authDisabled {
        return NoRequest;
      }
      if r.Unreachable? {
        return Raised;
      }
      if r.status != 200 || r.json.None? {
        return Refused;
      }
      var a := r.json.value;
      if HasToken(a.accessToken) {
        accessToken := a.accessToken;
        tokenExpiry := now + TokenLifetime;
        return Granted(a.accessToken.value);
      }
      if a.hasVersion && a.hasApiVersion {
        authDisabled := true;
        accessToken := Some(DisabledToken);
        tokenExpiry := now + DisabledLifetime;
        return Granted(DisabledToken);
      }
      return Refused;
    }
  }
}
