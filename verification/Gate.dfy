/**
 The order of the gates in front of a backend: the ban, the route, the rate limit, then access control.
 What each visit leaves in the limiter, the session store and the event log, and the handlers that do it.
 */
module Gate {
  import opened Prelude
  import Text
  import T = Throttle
  import S = Sessions
  import A = AuthGate
  import L = Limiter
  import M = Metrics

  const OUTCOME_DENIED := "denied"
  const OUTCOME_RATE_LIMITED := "rate_limited"
  const OUTCOME_BANNED := "banned"
  const OUTCOME_NOT_FOUND := "not_found"
  const OUTCOME_NO_LISTENER := "no_listener"
  const OUTCOME_TLS_ERROR := "tls_error"
  const OUTCOME_TCP_REJECTED := "tcp_rejected"
  const OUTCOME_DIAL_ERROR := "dial_error"

  const API_PREFIX := "/api/"

  /**
   What the router finds for a request. `injectApi` and `path` tell whether the built-in API answers it,
   `route` is the auth cache's entry for the handler's key.
   */
  datatype Site =
    | NoListener
    | NoHandler
    | Site(injectApi: bool, path: string, route: Option<S.Access>, listed: bool, cookie: Option<string>)

  datatype Protocol = Tcp | Udp

  /**
   A visit from an address: an HTTP request, a raw connection or the first datagram of a flow, whose backend
   may fail to be dialled, or a failed TLS handshake.
   */
  datatype Visit =
    | Web(ip: string, key: string, site: Site)
    | Flow(ip: string, key: string, route: Option<S.Access>, listed: bool, protocol: Protocol, dials: bool)
    | TlsError(ip: string, key: string)

  datatype Reply =
    | Blocked
    | Throttled(retry: int)
    | Refused(status: nat)
    | Answered
    | Passed(session: Option<S.Session>)
    | Unreachable(session: Option<S.Session>)
    | Dropped

  /** `apis` holds the names of the built-in API handlers. */
  datatype World = World(limiter: T.State, store: S.Store, events: seq<M.Event>, apis: set<string>)

  /** `withAPIInject` hands the request to a built-in handler. */
  predicate AsksApi(site: Site, apis: set<string>) {
    site.Site? && site.injectApi && API_PREFIX <= site.path && site.path[|API_PREFIX|..] in apis
  }

  /** The first of the user's groups with an enabled policy, else the signed-in tier. */
  function ResolveTier(ps: T.Policies, groups: seq<Text.Int64>): string {
    if groups == [] then T.TIER_SIGNED_IN
    else
      var tier := "group:" + Text.Itoa(groups[0]);
      if tier in ps && ps[tier].enabled then tier else ResolveTier(ps, groups[1..])
  }

  function Did(w: World, now: real, op: T.Op): World {
    w.(limiter := T.Step(w.limiter, T.Event(now, op)).0)
  }

  function Logged(w: World, v: Visit, now: real, outcome: string): World {
    w.(events := w.events + [M.Event(now, v.ip, v.key, outcome)])
  }

  function Failing(w: World, v: Visit, now: real, outcome: string): World {
    Did(Logged(w, v, now, outcome), now, T.RecordFailure(v.ip))
  }

  function Passing(w: World, v: Visit, now: real, tier: Option<string>): World {
    var w' := Logged(w, v, now, M.OUTCOME_SERVED);
    if tier.None? then w' else Did(w', now, T.SetTier(v.ip, tier.value))
  }

  /** `withAuthForKey` after its gates. */
  function Authorize(w: World, v: Visit, now: real): (World, Reply)
    requires v.Web? && v.site.Site?
  {
    var (store, answer) := S.HttpAccess(w.store, v.site.route, v.site.listed, v.ip, v.site.cookie, now);
    var w' := w.(store := store);
    match answer
    case Denied(status) => (Failing(w', v, now, OUTCOME_DENIED), Refused(status))
    case ByIp(session) => (Passing(w', v, now, Some(ResolveTier(w.limiter.policies, session.groups))), Passed(Some(session)))
    case ByCookie(session) => (Passing(w', v, now, Some(ResolveTier(w.limiter.policies, session.groups))), Passed(Some(session)))
    case _ => (Passing(w', v, now, None), Passed(None))
  }

  /** `withAuthForKey`: the ban, then a token, then access control. */
  function WithAuth(w: World, v: Visit, now: real): (World, Reply)
    requires v.Web? && v.site.Site?
  {
    if T.InForce(w.limiter.banned, v.ip, now) then (Logged(w, v, now, OUTCOME_BANNED), Blocked)
    else
      var w1 := Did(w, now, T.IsBanned(v.ip));
      var w2 := Did(w1, now, T.Allow(v.ip));
      var verdict := T.Step(w1.limiter, T.Event(now, T.Allow(v.ip))).1;
      if verdict.Verdict? && !verdict.allowed
      then (Failing(w2, v, now, OUTCOME_RATE_LIMITED), Throttled(verdict.retryAfter))
      else Authorize(w2, v, now)
  }

  /** A TCP connection is let in, and promotes its address, before its backend is dialled, a UDP flow after. */
  function Forwarded(w: World, v: Visit, now: real, session: Option<S.Session>): (World, Reply)
    requires v.Flow?
  {
    var tier := if session.Some? then Some(T.TIER_SIGNED_IN) else None;
    if v.dials then (Passing(w, v, now, tier), Passed(session))
    else
      var w' := if v.protocol.Tcp? then Passing(w, v, now, tier) else w;
      (Logged(w', v, now, OUTCOME_DIAL_ERROR), Unreachable(session))
  }

  /** A raw flow after its ban check. */
  function Admit(w: World, v: Visit, now: real): (World, Reply)
    requires v.Flow?
  {
    var (store, answer) := S.RawAccess(w.store, v.route, v.listed, v.ip, now);
    var w' := w.(store := store);
    match answer
    case Denied(status) => (Failing(w', v, now, OUTCOME_TCP_REJECTED), Refused(status))
    case ByIp(session) => Forwarded(w', v, now, Some(session))
    case _ => Forwarded(w', v, now, None)
  }

  /**
   One visit. A failed TLS handshake is counted without asking for the ban; a request for the built-in API
   meets the ban but neither the rate limit nor access control.
   */
  function Serve(w: World, v: Visit, now: real): (World, Reply) {
    if v.TlsError? then (Failing(w, v, now, OUTCOME_TLS_ERROR), Dropped)
    else if T.InForce(w.limiter.banned, v.ip, now) then (Logged(w, v, now, OUTCOME_BANNED), Blocked)
    else
      var w' := Did(w, now, T.IsBanned(v.ip));
      if v.Flow? then Admit(w', v, now)
      else
        match v.site
        case NoListener => (Failing(w', v, now, OUTCOME_NO_LISTENER), Refused(503))
        case NoHandler => (Failing(w', v, now, OUTCOME_NOT_FOUND), Refused(404))
        case Site(_, _, _, _, _) => if AsksApi(v.site, w.apis) then (w', Answered) else WithAuth(w', v, now)
  }

  // ---- the handlers --------------------------------------------------------------------

  class Gateway {
    const limiter: L.Limiter
    const storage: A.Storage
    const log: M.EventLog
    const apis: set<string>

    ghost predicate Valid()
      reads limiter, limiter.repr, log, log.ring
    {
      limiter.Valid() && log.Valid()
    }

    ghost function View(): World
      reads limiter, limiter.banned, storage, log
    {
      World(limiter.Snapshot(), storage.View(), log.history, apis)
    }

    constructor (limiter: L.Limiter, storage: A.Storage, log: M.EventLog, apis: set<string>)
      ensures this.limiter == limiter && this.storage == storage && this.log == log && this.apis == apis
    {
      this.limiter, this.storage, this.log, this.apis := limiter, storage, log, apis;
    }

    method ResolvedTier(groups: seq<Text.Int64>) returns (tier: string)
      ensures tier == ResolveTier(limiter.policies, groups)
    {
      var m := limiter.policies;
      for i := 0 to |groups|
        invariant ResolveTier(m, groups) == ResolveTier(m, groups[i..])
      {
        var key := "group:" + Text.Itoa(groups[i]);
        if key in m && m[key].enabled {
          return key;
        }
        assert groups[i..][1..] == groups[i + 1..];
      }
      return T.TIER_SIGNED_IN;
    }

    method IsBanned(ip: string, now: real) returns (r: bool)
      requires Valid()
      modifies limiter.banned
      ensures Valid()
      ensures r == T.InForce(old(limiter.banned.m), ip, now)
      ensures View() == Did(old(View()), now, T.IsBanned(ip))
    {
      r := limiter.IsBanned(ip, now);
    }

    /** Logs a rejected visit and counts the failure. */
    method Fail(v: Visit, outcome: string, now: real)
      requires Valid()
      modifies limiter, limiter.repr, limiter.banned, log, log.ring
      ensures Valid() && fresh(limiter.repr - old(limiter.repr))
      ensures View() == Failing(old(View()), v, now, outcome)
    {
      hide T.Step;
      log.RecordEvent(now, v.ip, v.key, outcome);
      limiter.RecordFailure(v.ip, now);
    }

    method Pass(v: Visit, tier: Option<string>, now: real)
      requires Valid()
      modifies limiter, limiter.repr, log, log.ring
      ensures Valid() && fresh(limiter.repr - old(limiter.repr))
      ensures View() == Passing(old(View()), v, now, tier)
    {
      hide T.Step;
      log.RecordEvent(now, v.ip, v.key, M.OUTCOME_SERVED);
      if tier.Some? {
        limiter.SetTier(v.ip, tier.value, now);
      }
    }

    method PassSession(v: Visit, session: S.Session, now: real)
      requires Valid()
      modifies limiter, limiter.repr, log, log.ring
      ensures Valid() && fresh(limiter.repr - old(limiter.repr))
      ensures View() == Passing(old(View()), v, now, Some(ResolveTier(old(limiter.policies), session.groups)))
    {
      hide Passing, ResolveTier;
      var tier := ResolvedTier(session.groups);
      Pass(v, Some(tier), now);
    }

    /** Access control, once the ban and the rate limit let the visit through. */
    method CheckAccess(v: Visit, cached: Option<A.CachedRoute>, now: real) returns (reply: Reply)
      requires Valid() && v.Web? && v.site.Site? && v.site.route == A.AccessOf(cached)
      requires cached.Some? ==> A.Parsed(cached.value)
      modifies limiter, limiter.repr, limiter.banned, storage, log, log.ring
      ensures Valid() && fresh(limiter.repr - old(limiter.repr))
      ensures (View(), reply) == Authorize(old(View()), v, now)
    {
      hide T.Step, S.HttpAccess, Failing, Passing, ResolveTier;
      var answer := storage.WithAuth(cached, v.site.listed, v.ip, v.site.cookie, now);
      match answer
      case Denied(status) =>
        Fail(v, OUTCOME_DENIED, now);
        reply := Refused(status);
      case ByIp(session) =>
        PassSession(v, session, now);
        reply := Passed(Some(session));
      case ByCookie(session) =>
        PassSession(v, session, now);
        reply := Passed(Some(session));
      case _ =>
        Pass(v, None, now);
        reply := Passed(None);
    }

    method ServeWithAuth(v: Visit, cached: Option<A.CachedRoute>, now: real) returns (reply: Reply)
      requires Valid() && v.Web? && v.site.Site? && v.site.route == A.AccessOf(cached)
      requires cached.Some? ==> A.Parsed(cached.value)
      modifies limiter, limiter.repr, limiter.banned, storage, log, log.ring
      ensures Valid() && fresh(limiter.repr - old(limiter.repr))
      ensures (View(), reply) == WithAuth(old(View()), v, now)
    {
      hide T.Step, T.InForce, Authorize, Failing;
      BannedStays(View(), v.ip, now);
      var isBanned := IsBanned(v.ip, now);
      if isBanned {
        log.RecordEvent(now, v.ip, v.key, OUTCOME_BANNED);
        return Blocked;
      }
      var allowed, retry := limiter.Allow(v.ip, now);
      if !allowed {
        Fail(v, OUTCOME_RATE_LIMITED, now);
        return Throttled(retry);
      }
      reply := CheckAccess(v, cached, now);
    }

    /** A raw flow that access control let in. */
    method Forward(v: Visit, session: Option<S.Session>, now: real) returns (reply: Reply)
      requires Valid() && v.Flow?
      modifies limiter, limiter.repr, log, log.ring
      ensures Valid() && fresh(limiter.repr - old(limiter.repr))
      ensures (View(), reply) == Forwarded(old(View()), v, now, session)
    {
      hide Passing;
      var tier := if session.Some? then Some(T.TIER_SIGNED_IN) else None;
      if v.protocol.Tcp? {
        Pass(v, tier, now);
        if !v.dials {
          log.RecordEvent(now, v.ip, v.key, OUTCOME_DIAL_ERROR);
          return Unreachable(session);
        }
        return Passed(session);
      }
      if !v.dials {
        log.RecordEvent(now, v.ip, v.key, OUTCOME_DIAL_ERROR);
        return Unreachable(session);
      }
      Pass(v, tier, now);
      return Passed(session);
    }

    method AdmitFlow(v: Visit, cached: Option<A.CachedRoute>, now: real) returns (reply: Reply)
      requires Valid() && v.Flow? && v.route == A.AccessOf(cached)
      requires cached.Some? ==> A.Parsed(cached.value)
      modifies limiter, limiter.repr, limiter.banned, storage, log, log.ring
      ensures Valid() && fresh(limiter.repr - old(limiter.repr))
      ensures (View(), reply) == Admit(old(View()), v, now)
    {
      hide T.Step, S.RawAccess, Failing, Forwarded;
      var answer := storage.AuthorizeIP(cached, v.listed, v.ip, now);
      match answer
      case Denied(status) =>
        Fail(v, OUTCOME_TCP_REJECTED, now);
        reply := Refused(status);
      case ByIp(session) =>
        reply := Forward(v, Some(session), now);
      case _ =>
        reply := Forward(v, None, now);
    }

    /** A raw connection, or the first datagram of a flow. */
    method HandleFlow(v: Visit, cached: Option<A.CachedRoute>, now: real) returns (reply: Reply)
      requires Valid() && v.Flow? && v.route == A.AccessOf(cached)
      requires cached.Some? ==> A.Parsed(cached.value)
      modifies limiter, limiter.repr, limiter.banned, storage, log, log.ring
      ensures Valid() && fresh(limiter.repr - old(limiter.repr))
      ensures (View(), reply) == Serve(old(View()), v, now)
    {
      hide T.Step, T.InForce, Admit;
      BannedStays(View(), v.ip, now);
      var isBanned := IsBanned(v.ip, now);
      if isBanned {
        log.RecordEvent(now, v.ip, v.key, OUTCOME_BANNED);
        return Blocked;
      }
      reply := AdmitFlow(v, cached, now);
    }

    /** The router, in front of the handlers' own gates. */
    method ServeHTTP(v: Visit, cached: Option<A.CachedRoute>, now: real) returns (reply: Reply)
      requires Valid() && v.Web? && (v.site.Site? ==> v.site.route == A.AccessOf(cached))
      requires cached.Some? ==> A.Parsed(cached.value)
      modifies limiter, limiter.repr, limiter.banned, storage, log, log.ring
      ensures Valid() && fresh(limiter.repr - old(limiter.repr))
      ensures (View(), reply) == Serve(old(View()), v, now)
    {
      hide T.Step, T.InForce, WithAuth, Failing;
      BannedStays(View(), v.ip, now);
      var isBanned := IsBanned(v.ip, now);
      if isBanned {
        log.RecordEvent(now, v.ip, v.key, OUTCOME_BANNED);
        return Blocked;
      }
      match v.site
      case NoListener =>
        Fail(v, OUTCOME_NO_LISTENER, now);
        reply := Refused(503);
      case NoHandler =>
        Fail(v, OUTCOME_NOT_FOUND, now);
        reply := Refused(404);
      case Site(injectApi, path, _, _, _) =>
        if injectApi && API_PREFIX <= path && path[|API_PREFIX|..] in apis {
          return Answered;
        }
        reply := ServeWithAuth(v, cached, now);
    }

    method TlsHandshakeError(v: Visit, now: real) returns (reply: Reply)
      requires Valid() && v.TlsError?
      modifies limiter, limiter.repr, limiter.banned, log, log.ring
      ensures Valid() && fresh(limiter.repr - old(limiter.repr))
      ensures (View(), reply) == Serve(old(View()), v, now)
    {
      Fail(v, OUTCOME_TLS_ERROR, now);
      reply := Dropped;
    }
  }

  /** Asking whether an address in the ban set is banned changes nothing while it is. */
  lemma BannedStays(w: World, ip: string, now: real)
    ensures T.InForce(w.limiter.banned, ip, now) ==> Did(w, now, T.IsBanned(ip)) == w
  {
  }
}
