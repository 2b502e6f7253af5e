/** Every reply of the gates, and exactly which visits get it. */
module GateReplies {
  import opened Prelude
  import opened Gate
  import opened GateRuns
  import opened AccessDecisions
  import T = Throttle
  import S = Sessions
  import RateGate

  /** A ban stands on the address: without an end, or not past it. */
  predicate IsBarred(w: World, ip: string, now: real) {
    ip in w.limiter.banned && (w.limiter.banned[ip].None? || now <= w.limiter.banned[ip].value)
  }

  /** The visit asks a host that takes API requests for one of the built-in handlers. */
  predicate AsksBuiltIn(w: World, v: Visit) {
    v.Web? && v.site.Site? && v.site.injectApi && exists name :: name in w.apis && v.site.path == "/api/" + name
  }

  /** The visit gets as far as access control: an HTTP request past ban, built-in API and rate limit. */
  predicate IsChecked(w: World, v: Visit, now: real) {
    && v.Web? && v.site.Site? && !IsBarred(w, v.ip, now) && !AsksBuiltIn(w, v)
    && RateGate.TokenAnswer(w.limiter, v.ip, now) == T.Verdict(true, 0)
  }

  lemma BuiltInIsAsked(w: World, v: Visit)
    requires v.Web?
    ensures AsksApi(v.site, w.apis) <==> AsksBuiltIn(w, v)
  {
    if AsksApi(v.site, w.apis) {
      assert v.site.path == "/api/" + v.site.path[5..];
    }
    if AsksBuiltIn(w, v) {
      var name :| name in w.apis && v.site.path == "/api/" + name;
      assert v.site.path[5..] == name;
    }
  }

  lemma UpkeepOnly(w: World, ip: string, now: real)
    ensures var w' := Did(w, now, T.IsBanned(ip));
            w'.store == w.store && w'.limiter.policies == w.limiter.policies && w'.limiter.buckets == w.limiter.buckets
  {
  }

  lemma CallOnly(w: World, ip: string, now: real)
    ensures var w' := Did(w, now, T.Allow(ip));
            w'.store == w.store && w'.limiter.policies == w.limiter.policies
  {
    hide T.AllowBucket;
  }

  /** What access control replies. */
  function ReplyTo(a: S.Answer): Reply {
    match a
    case Denied(status) => Refused(status)
    case ByIp(session) => Passed(Some(session))
    case ByCookie(session) => Passed(Some(session))
    case _ => Passed(None)
  }

  lemma AuthorizeReplies(w: World, v: Visit, now: real)
    requires v.Web? && v.site.Site?
    ensures Authorize(w, v, now).1 == ReplyTo(S.HttpAccess(w.store, v.site.route, v.site.listed, v.ip, v.site.cookie, now).1)
  {
    hide S.HttpAccess, T.Step, ResolveTier;
  }

  lemma WithAuthReplies(w: World, v: Visit, now: real)
    requires v.Web? && v.site.Site? && !T.InForce(w.limiter.banned, v.ip, now)
    ensures var token := RateGate.TokenAnswer(w.limiter, v.ip, now);
            && (token == T.Verdict(true, 0) ==>
                  WithAuth(w, v, now).1 == ReplyTo(S.HttpAccess(w.store, v.site.route, v.site.listed, v.ip, v.site.cookie, now).1))
            && (token != T.Verdict(true, 0) ==> WithAuth(w, v, now).1.Throttled?)
  {
    RateGate.AuthThrottles(w, v, now);
    var w1 := Did(w, now, T.IsBanned(v.ip));
    UpkeepOnly(w, v.ip, now);
    CallOnly(w1, v.ip, now);
    AuthorizeReplies(Did(w1, now, T.Allow(v.ip)), v, now);
    hide S.HttpAccess, T.Step, Authorize, RateGate.TokenAnswer, T.InForce;
  }

  /** An HTTP request that is checked gets the reply of access control; others that find a handler are told why not. */
  lemma WebReplies(w: World, v: Visit, now: real)
    requires v.Web?
    ensures var r := Serve(w, v, now).1;
            if IsBarred(w, v.ip, now) then r == Blocked
            else if v.site.NoListener? then r == Refused(503)
            else if v.site.NoHandler? then r == Refused(404)
            else if AsksBuiltIn(w, v) then r == Answered
            else if !IsChecked(w, v, now) then r.Throttled?
            else r == ReplyTo(S.HttpAccess(w.store, v.site.route, v.site.listed, v.ip, v.site.cookie, now).1)
  {
    assert IsBarred(w, v.ip, now) <==> T.InForce(w.limiter.banned, v.ip, now);
    if !IsBarred(w, v.ip, now) {
      BuiltInIsAsked(w, v);
      UpkeepOnly(w, v.ip, now);
      RateGate.AskedIsSame(w, v.ip, now);
      StillNotBanned(w, v.ip, now);
      if v.site.Site? {
        WithAuthReplies(Did(w, now, T.IsBanned(v.ip)), v, now);
      }
    }
    hide T.Step, WithAuth, S.HttpAccess, AsksApi, AsksBuiltIn, IsBarred, T.InForce, T.AllowBucket, T.BucketOf;
  }

  /** The built-in API answers exactly the unbanned requests for it, whatever the limiter and access control hold. */
  lemma AnsweredExactly(w: World, v: Visit, now: real)
    ensures Serve(w, v, now).1.Answered? <==> !IsBarred(w, v.ip, now) && AsksBuiltIn(w, v)
  {
    if v.Web? {
      WebReplies(w, v, now);
    } else if v.Flow? {
      FlowReplies(w, v, now);
    }
    hide Serve, IsBarred, IsChecked, S.HttpAccess, S.RawAccess;
  }

  lemma FlowReplies(w: World, v: Visit, now: real)
    requires v.Flow?
    ensures var r := Serve(w, v, now).1;
            var a := S.RawAccess(w.store, v.route, v.listed, v.ip, now).1;
            if IsBarred(w, v.ip, now) then r == Blocked
            else if a.Denied? then r == Refused(a.status)
            else r == if v.dials then Passed(if a.ByIp? then Some(a.session) else None)
                      else Unreachable(if a.ByIp? then Some(a.session) else None)
  {
    UpkeepOnly(w, v.ip, now);
    hide T.Step, S.RawAccess, ResolveTier;
  }

  /**
   Exactly what each status of a refusal tells: 503 no listener, 404 no handler, 407 a login is wanted, and 403 a
   session of another group, or a raw flow that its route is not open to. There is no other.
   */
  lemma RefusedExactly(w: World, v: Visit, now: real)
    requires S.Consistent(w.store)
    ensures var r := Serve(w, v, now).1;
            var shut := IsChecked(w, v, now) && !HttpOpens(w.store, v.site.route, v.site.listed, v.ip, v.site.cookie, now);
            var wanting := shut && v.site.route.Some? && WantsGroup(w.store, v.site.route.value, v.site.cookie, now);
            && (r == Refused(503) <==> v.Web? && v.site.NoListener? && !IsBarred(w, v.ip, now))
            && (r == Refused(404) <==> v.Web? && v.site.NoHandler? && !IsBarred(w, v.ip, now))
            && (r == Refused(407) <==> shut && !wanting)
            && (r == Refused(403) <==>
                 wanting || (v.Flow? && !IsBarred(w, v.ip, now) && !RawOpens(w.store, v.route, v.listed, v.ip, now)))
            && (r.Refused? ==> r.status == 503 || r.status == 404 || r.status == 407 || r.status == 403)
  {
    if v.Web? {
      WebReplies(w, v, now);
      if v.site.Site? {
        HttpAnswersExactly(w.store, v.site.route, v.site.listed, v.ip, v.site.cookie, now);
        HttpGrantedExactly(w.store, v.site.route, v.site.listed, v.ip, v.site.cookie, now);
      }
    } else if v.Flow? {
      FlowReplies(w, v, now);
      RawAnswersExactly(w.store, v.route, v.listed, v.ip, now);
      RawGrantedExactly(w.store, v.route, v.listed, v.ip, now);
    }
    hide Serve, IsBarred, S.HttpAccess, S.RawAccess, HttpOpens, RawOpens, WantsGroup, SessionHere, CookieOpens, S.Consistent;
  }

  /** Exactly who gets through to a backend, and on what session. */
  lemma PassedExactly(w: World, v: Visit, now: real)
    requires S.Consistent(w.store)
    ensures var r := Serve(w, v, now).1;
            && (r.Passed? <==>
                 || (IsChecked(w, v, now) && HttpOpens(w.store, v.site.route, v.site.listed, v.ip, v.site.cookie, now))
                 || (v.Flow? && !IsBarred(w, v.ip, now) && RawOpens(w.store, v.route, v.listed, v.ip, now) && v.dials))
            && (r.Unreachable? <==>
                 v.Flow? && !IsBarred(w, v.ip, now) && RawOpens(w.store, v.route, v.listed, v.ip, now) && !v.dials)
  {
    if v.Web? {
      WebReplies(w, v, now);
      if v.site.Site? {
        HttpAnswersExactly(w.store, v.site.route, v.site.listed, v.ip, v.site.cookie, now);
        HttpGrantedExactly(w.store, v.site.route, v.site.listed, v.ip, v.site.cookie, now);
      }
    } else if v.Flow? {
      FlowReplies(w, v, now);
      RawAnswersExactly(w.store, v.route, v.listed, v.ip, now);
      RawGrantedExactly(w.store, v.route, v.listed, v.ip, now);
    }
    hide Serve, IsBarred, S.HttpAccess, S.RawAccess, HttpOpens, RawOpens, WantsGroup, SessionHere, CookieOpens, S.Consistent;
  }
}
