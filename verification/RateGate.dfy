/** Which visits meet the rate limit at all, and which of them it turns away. */
module RateGate {
  import opened Prelude
  import opened Gate
  import opened GateRuns
  import T = Throttle
  import S = Sessions
  import Admission
  import Tiers

  /**
   The visit asks for a token: an HTTP request of an address that is not banned, to a host with a handler, and
   not for the built-in API. Raw flows, requests to no route and failed handshakes never do.
   */
  predicate MeetsLimit(w: World, v: Visit, now: real) {
    v.Web? && v.site.Site? && !AsksApi(v.site, w.apis) && !T.InForce(w.limiter.banned, v.ip, now)
  }

  /** What the bucket of the visit's address would answer to one more call. */
  function TokenAnswer(s: T.State, ip: string, now: real): T.Answer {
    T.AllowBucket(T.BucketOf(s, ip, now), s.policies, now).1
  }

  lemma AskedIsSame(w: World, ip: string, now: real)
    ensures var s := Did(w, now, T.IsBanned(ip)).limiter;
            s.buckets == w.limiter.buckets && s.policies == w.limiter.policies
  {
  }

  lemma AuthThrottles(w: World, v: Visit, now: real)
    requires v.Web? && v.site.Site? && !T.InForce(w.limiter.banned, v.ip, now)
    ensures WithAuth(w, v, now).1.Throttled? <==> TokenAnswer(w.limiter, v.ip, now) != T.Verdict(true, 0)
    ensures WithAuth(w, v, now).1.Throttled? ==>
              TokenAnswer(w.limiter, v.ip, now) == T.Verdict(false, WithAuth(w, v, now).1.retry)
  {
    AskedIsSame(w, v.ip, now);
    hide S.HttpAccess, ResolveTier, T.Refilled, T.RetryAfter;
  }

  lemma FlowsAreNotThrottled(w: World, v: Visit, now: real)
    requires v.Flow?
    ensures !Admit(w, v, now).1.Throttled?
  {
    hide T.Step, S.RawAccess;
  }

  /** A visit is throttled if and only if it meets the rate limit and its address has no token left; the answer is the bucket's. */
  lemma ThrottledExactly(w: World, v: Visit, now: real)
    ensures Serve(w, v, now).1.Throttled? <==> MeetsLimit(w, v, now) && TokenAnswer(w.limiter, v.ip, now) != T.Verdict(true, 0)
    ensures Serve(w, v, now).1.Throttled? ==> TokenAnswer(w.limiter, v.ip, now) == T.Verdict(false, Serve(w, v, now).1.retry)
  {
    if !v.TlsError? && !T.InForce(w.limiter.banned, v.ip, now) {
      var w' := Did(w, now, T.IsBanned(v.ip));
      AskedIsSame(w, v.ip, now);
      StillNotBanned(w, v.ip, now);
      if v.Flow? {
        FlowsAreNotThrottled(w', v, now);
      } else if v.site.Site? {
        AuthThrottles(w', v, now);
      }
    }
    hide T.Step, T.InForce, WithAuth, Admit, T.AllowBucket, AsksApi;
  }

  /** The limiter as it would be if the address had made just this call. */
  function Called(s: T.State, ip: string, now: real): T.State {
    T.Step(s, T.Event(now, T.Allow(ip))).0
  }

  lemma WeighedTokens(w: World, v: Visit, now: real)
    requires !T.InForce(w.limiter.banned, v.ip, now)
    ensures Admission.Fill(Weighed(w, v, now), v.ip)
         == Admission.Fill(if MeetsLimit(w, v, now) then Called(w.limiter, v.ip, now) else w.limiter, v.ip)
  {
    AskedIsSame(w, v.ip, now);
    AskedIsSame(Did(w, now, T.IsBanned(v.ip)), v.ip, now);
    hide T.AllowBucket, AsksApi;
  }

  lemma CountedTokens(s: T.State, ip: string, now: real, tier: string)
    ensures Admission.Fill(T.Step(s, T.Event(now, T.RecordFailure(ip))).0, ip) == Admission.Fill(s, ip)
    ensures Admission.Fill(T.Step(s, T.Event(now, T.SetTier(ip, tier))).0, ip) == Admission.Fill(s, ip)
  {
    Admission.OtherStep(s, T.Event(now, T.RecordFailure(ip)), ip);
    Admission.OtherStep(s, T.Event(now, T.SetTier(ip, tier)), ip);
  }

  /** What a call leaves of the tokens, limited or not. */
  function AfterCall(s: T.State, ip: string, now: real): (real, Option<real>) {
    if Admission.Limited(s, ip) then
      var level := Admission.Level(s, ip, now);
      (if level >= 1.0 then level - 1.0 else level, Some(now))
    else Admission.Fill(s, ip)
  }

  lemma CalledTokens(s: T.State, ip: string, now: real)
    ensures Admission.Fill(Called(s, ip, now), ip) == AfterCall(s, ip, now)
  {
    if Admission.Limited(s, ip) {
      Admission.CallStep(s, ip, now);
      hide T.Step, Admission.Level, Admission.Limited, Admission.Fill;
    }
  }

  lemma VisitTokens(w: World, v: Visit, now: real)
    ensures Admission.Fill(Serve(w, v, now).0.limiter, v.ip)
         == Admission.Fill(if MeetsLimit(w, v, now) then Called(w.limiter, v.ip, now) else w.limiter, v.ip)
  {
    VisitEffect(w, v, now);
    var s, s' := Weighed(w, v, now), Serve(w, v, now).0.limiter;
    if T.InForce(w.limiter.banned, v.ip, now) {
      assert v.TlsError? ==> s == w.limiter;
    } else {
      WeighedTokens(w, v, now);
    }
    hide Serve, T.Step, T.InForce, Admission.Fill, Weighed, Called;
    CountedTokens(s, v.ip, now, "");
    if MayPromote(s, s', v.ip, now) && s' != s {
      var tier :| s' == T.Step(s, T.Event(now, T.SetTier(v.ip, tier))).0;
      CountedTokens(s, v.ip, now, tier);
    }
  }

  /**
   Exactly which visits touch the tokens of their address, and how: one that meets the rate limit of a limiting
   policy refills the bucket to now and takes a token if there is one; any other leaves tokens and refill time alone.
   */
  lemma TokensExactly(w: World, v: Visit, now: real)
    ensures Admission.Fill(Serve(w, v, now).0.limiter, v.ip)
         == if MeetsLimit(w, v, now) then AfterCall(w.limiter, v.ip, now) else Admission.Fill(w.limiter, v.ip)
  {
    hide *;
    VisitTokens(w, v, now);
    CalledTokens(w.limiter, v.ip, now);
  }

  // ---- one input ---------------------------------------------------------------------------

  /** An address whose only token is spent, and a proxy whose login page has the built-in API. */
  function SpentWorld(): World {
    World(T.State(map["ip" := Tiers.SPENT], Tiers.AnonymousOnly(), map[], map[]), S.Store(map[], 0, map[], true, 0), [], {"auth/login"})
  }

  function LoginRequest(injectApi: bool): Visit {
    Web("ip", "auth:443", Site(injectApi, "/api/auth/login", None, false, None))
  }

  /** One input: without a token left, a request is throttled, and the same request to the login API is answered. */
  lemma LoginIsAnswered()
    ensures Serve(SpentWorld(), LoginRequest(true), 0.0).1 == Answered
    ensures Serve(SpentWorld(), LoginRequest(false), 0.0).1 == Throttled(2)
  {
    Tiers.SpentIsThrottled();
    assert "/api/auth/login"[|API_PREFIX|..] == "auth/login";
    assert API_PREFIX <= "/api/auth/login";
    assert T.BucketOf(SpentWorld().limiter, "ip", 0.0) == Tiers.SPENT;
    ThrottledExactly(SpentWorld(), LoginRequest(false), 0.0);
    EventsTellReplies(SpentWorld(), LoginRequest(true), 0.0);
    hide Serve, T.AllowBucket;
  }
}
