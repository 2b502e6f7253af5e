/**
 A run at the gates is a run of the limiter and a run of the session store at once: what each visit and act asks of
 them, so that what holds over their runs holds at the gates. Who is turned away as banned, from the history.
 */
module GateHistory {
  import opened Prelude
  import opened Gate
  import opened GateRuns
  import opened GateReplies
  import T = Throttle
  import S = Sessions
  import RateGate
  import Tiers
  import History

  // ---- what a visit asks of the limiter ----------------------------------------------------

  /** Before a visit is judged: the ban, asked again by the handler, and a token. */
  function Asked(v: Visit, r: Reply): seq<T.Op> {
    if v.TlsError? then []
    else if v.Web? && v.site.Site? && !r.Answered? && !r.Blocked? then [T.IsBanned(v.ip), T.IsBanned(v.ip), T.Allow(v.ip)]
    else [T.IsBanned(v.ip)]
  }

  /** After it: a failure if it is rejected, a promotion if a session let it through. */
  function Judged(ps: T.Policies, v: Visit, r: Reply): Option<T.Op> {
    if Rejected(r) then Some(T.RecordFailure(v.ip))
    else if SessionOf(r).None? then None
    else
      var tier := Tiers.Promotion(ps, v, SessionOf(r).value);
      if tier.None? then None else Some(T.SetTier(v.ip, tier.value))
  }

  function VisitOps(w: World, v: Visit, now: real): seq<T.Op> {
    var r := Serve(w, v, now).1;
    var last := Judged(w.limiter.policies, v, r);
    Asked(v, r) + (if last.Some? then [last.value] else [])
  }

  function Ops(w: World, act: Act, now: real): seq<T.Op> {
    match act
    case Arrives(v) => VisitOps(w, v, now)
    case Sweeps => [T.Sweep]
    case Reloads(policies) => [T.Reload(policies)]
    case CleansBans => [T.CleanupBans]
    case Bans(ip, durationSec) => [T.Ban(ip, T.Manual, "manual", durationSec)]
    case Unbans(ip) => [T.Unban(ip)]
    case Stores(_) => []
  }

  /** The operations one after the other, at one time. */
  function Timed(ops: seq<T.Op>, now: real): seq<T.Event> {
    seq(|ops|, i requires 0 <= i < |ops| => T.Event(now, ops[i]))
  }

  function Fold(s: T.State, ops: seq<T.Op>, now: real): T.State {
    T.At(s, Timed(ops, now), |ops|)
  }

  lemma {:induction false} PrefixAt(s: T.State, run: seq<T.Event>, more: seq<T.Event>, n: nat)
    requires n <= |run|
    ensures T.At(s, run + more, n) == T.At(s, run, n)
  {
    if n > 0 {
      PrefixAt(s, run, more, n - 1);
      assert (run + more)[n - 1] == run[n - 1];
    }
    hide T.Step;
  }

  lemma {:induction false} JoinedAt(s: T.State, a: seq<T.Event>, b: seq<T.Event>, n: nat)
    requires n <= |b|
    ensures T.At(s, a + b, |a| + n) == T.At(T.At(s, a, |a|), b, n)
  {
    if n == 0 {
      PrefixAt(s, a, b, |a|);
    } else {
      JoinedAt(s, a, b, n - 1);
      assert (a + b)[|a| + n - 1] == b[n - 1];
    }
    hide T.Step;
  }

  lemma {:induction false} FoldNone(s: T.State, now: real)
    ensures Fold(s, [], now) == s
  {
  }

  lemma {:induction false} FoldMore(s: T.State, ops: seq<T.Op>, op: T.Op, now: real)
    ensures Fold(s, ops + [op], now) == T.Step(Fold(s, ops, now), T.Event(now, op)).0
  {
    assert Timed(ops + [op], now) == Timed(ops, now) + [T.Event(now, op)];
    PrefixAt(s, Timed(ops, now), [T.Event(now, op)], |ops|);
    hide T.Step;
  }

  lemma {:induction false} FoldOne(s: T.State, op: T.Op, now: real)
    ensures Fold(s, [op], now) == T.Step(s, T.Event(now, op)).0
  {
    FoldNone(s, now);
    FoldMore(s, [], op, now);
    assert [] + [op] == [op];
    hide T.Step;
  }

  lemma WeighedIsAsked(w: World, v: Visit, now: real)
    requires !T.InForce(w.limiter.banned, v.ip, now) || v.TlsError?
    ensures Weighed(w, v, now) == Fold(w.limiter, Asked(v, Serve(w, v, now).1), now)
  {
    var ip := v.ip;
    FoldNone(w.limiter, now);
    FoldOne(w.limiter, T.IsBanned(ip), now);
    FoldMore(w.limiter, [T.IsBanned(ip)], T.IsBanned(ip), now);
    FoldMore(w.limiter, [T.IsBanned(ip)] + [T.IsBanned(ip)], T.Allow(ip), now);
    assert [T.IsBanned(ip)] + [T.IsBanned(ip)] + [T.Allow(ip)] == [T.IsBanned(ip), T.IsBanned(ip), T.Allow(ip)];
    EventsTellReplies(w, v, now);
    VisitEffect(w, v, now);
    hide Serve, T.Step, Fold, T.InForce, AsksApi, Rejected, SessionOf, Outcomes, EventsOf;
  }

  /** A visit that a session let through promotes its address as the session's tier says, and does nothing else. */
  lemma VisitPromotes(w: World, v: Visit, now: real)
    requires SessionOf(Serve(w, v, now).1).Some?
    ensures var tier := Tiers.Promotion(w.limiter.policies, v, SessionOf(Serve(w, v, now).1).value);
            var weighed := Weighed(w, v, now);
            Serve(w, v, now).0.limiter == if tier.None? then weighed else T.Step(weighed, T.Event(now, T.SetTier(v.ip, tier.value))).0
  {
    UpkeepOnly(w, v.ip, now);
    var w1 := Did(w, now, T.IsBanned(v.ip));
    UpkeepOnly(w1, v.ip, now);
    CallOnly(Did(w1, now, T.IsBanned(v.ip)), v.ip, now);
    hide T.InForce, T.Step, S.HttpAccess, S.RawAccess, ResolveTier, AsksApi;
  }

  lemma VisitRefines(w: World, v: Visit, now: real)
    ensures Serve(w, v, now).0.limiter == Fold(w.limiter, VisitOps(w, v, now), now)
  {
    VisitEffect(w, v, now);
    var r := Serve(w, v, now).1;
    if r.Blocked? {
      BannedStays(w, v.ip, now);
      FoldOne(w.limiter, T.IsBanned(v.ip), now);
      assert VisitOps(w, v, now) == [T.IsBanned(v.ip)];
    } else {
      WeighedIsAsked(w, v, now);
      if SessionOf(r).Some? {
        VisitPromotes(w, v, now);
      }
      var last := Judged(w.limiter.policies, v, r);
      if last.Some? {
        FoldMore(w.limiter, Asked(v, r), last.value, now);
      } else {
        assert VisitOps(w, v, now) == Asked(v, r);
      }
    }
    hide Serve, T.Step, Fold, T.InForce, Weighed, Asked, Tiers.Promotion;
  }

  lemma ActRefines(w: World, act: Act, now: real)
    ensures Perform(w, act, now).0.limiter == Fold(w.limiter, Ops(w, act, now), now)
  {
    hide Serve, T.Step, Fold, VisitOps;
    match act
    case Arrives(v) => VisitRefines(w, v, now);
    case Stores(_) => FoldNone(w.limiter, now);
    case Sweeps => FoldOne(w.limiter, T.Sweep, now);
    case Reloads(policies) => FoldOne(w.limiter, T.Reload(policies), now);
    case CleansBans => FoldOne(w.limiter, T.CleanupBans, now);
    case Bans(ip, durationSec) => FoldOne(w.limiter, T.Ban(ip, T.Manual, "manual", durationSec), now);
    case Unbans(ip) => FoldOne(w.limiter, T.Unban(ip), now);
  }

  /** What the first `n` moments of a run ask of the limiter, in order. */
  function LimiterRun(w0: World, run: seq<Moment>, n: nat): seq<T.Event>
    requires n <= |run|
    decreases n
  {
    if n == 0 then []
    else LimiterRun(w0, run, n - 1) + Timed(Ops(At(w0, run, n - 1), run[n - 1].act, run[n - 1].now), run[n - 1].now)
  }

  lemma {:induction false} NextMoment(w0: World, run: seq<Moment>, n: nat)
    requires n < |run|
    ensures var (w, m) := (At(w0, run, n), run[n]);
            && At(w0, run, n + 1) == Perform(w, m.act, m.now).0
            && LimiterRun(w0, run, n + 1) == LimiterRun(w0, run, n) + Timed(Ops(w, m.act, m.now), m.now)
            && |Timed(Ops(w, m.act, m.now), m.now)| == |Ops(w, m.act, m.now)|
  {
    hide Perform, Ops;
  }

  lemma {:induction false} NothingAsked(w0: World, run: seq<Moment>)
    ensures At(w0, run, 0).limiter == T.At(w0.limiter, LimiterRun(w0, run, 0), |LimiterRun(w0, run, 0)|)
  {
  }

  /** The limiter at the gates is the limiter after exactly those operations. */
  lemma {:induction false} LimiterRefines(w0: World, run: seq<Moment>, n: nat)
    requires n <= |run|
    ensures At(w0, run, n).limiter == T.At(w0.limiter, LimiterRun(w0, run, n), |LimiterRun(w0, run, n)|)
  {
    hide At, T.At, LimiterRun, Perform, Ops, Timed;
    if n == 0 {
      NothingAsked(w0, run);
    } else {
      LimiterRefines(w0, run, n - 1);
      NextMoment(w0, run, n - 1);
      var (w, m) := (At(w0, run, n - 1), run[n - 1]);
      var before, more := LimiterRun(w0, run, n - 1), Timed(Ops(w, m.act, m.now), m.now);
      ActRefines(w, m.act, m.now);
      JoinedAt(w0.limiter, before, more, |more|);
      assert |before + more| == |before| + |more|;
    }
  }

  /** They come in the order of the moments, none later than the last. */
  lemma {:induction false} LimiterRunIsMonotone(w0: World, run: seq<Moment>, n: nat)
    requires n < |run| && GateRuns.Monotone(run)
    ensures T.Monotone(LimiterRun(w0, run, n))
    ensures forall k :: 0 <= k < |LimiterRun(w0, run, n)| ==> LimiterRun(w0, run, n)[k].now <= run[n].now
  {
    hide Ops, At;
    if n > 0 {
      LimiterRunIsMonotone(w0, run, n - 1);
      assert run[n - 1].now <= run[n].now;
    }
  }

  // ---- what it asks of the session store -----------------------------------------------------

  function Requests(w: World, act: Act, now: real): seq<S.Request> {
    match act
    case Arrives(v) =>
      if v.Flow? && !IsBarred(w, v.ip, now) then [S.Raw(v.route, v.listed, v.ip)]
      else if IsChecked(w, v, now) then [S.Http(v.site.route, v.site.listed, v.ip, v.site.cookie)]
      else []
    case Stores(request) => [request]
    case _ => []
  }

  lemma CheckedStores(w: World, v: Visit, now: real)
    requires v.Web? && v.site.Site? && !T.InForce(w.limiter.banned, v.ip, now)
    ensures WithAuth(w, v, now).0.store
         == if RateGate.TokenAnswer(w.limiter, v.ip, now) == T.Verdict(true, 0)
            then S.HttpAccess(w.store, v.site.route, v.site.listed, v.ip, v.site.cookie, now).0 else w.store
  {
    RateGate.AuthThrottles(w, v, now);
    var w1 := Did(w, now, T.IsBanned(v.ip));
    UpkeepOnly(w, v.ip, now);
    CallOnly(w1, v.ip, now);
    hide S.HttpAccess, T.Step, T.InForce, ResolveTier, RateGate.TokenAnswer;
  }

  /** A visit reaches the store through its access check alone. */
  lemma VisitStores(w: World, v: Visit, now: real)
    ensures Serve(w, v, now).0.store
         == if v.Flow? && !IsBarred(w, v.ip, now) then S.RawAccess(w.store, v.route, v.listed, v.ip, now).0
            else if IsChecked(w, v, now) then S.HttpAccess(w.store, v.site.route, v.site.listed, v.ip, v.site.cookie, now).0
            else w.store
  {
    assert IsBarred(w, v.ip, now) <==> T.InForce(w.limiter.banned, v.ip, now);
    if !IsBarred(w, v.ip, now) {
      UpkeepOnly(w, v.ip, now);
      RateGate.AskedIsSame(w, v.ip, now);
      StillNotBanned(w, v.ip, now);
      if v.Web? {
        BuiltInIsAsked(w, v);
        if v.site.Site? {
          CheckedStores(Did(w, now, T.IsBanned(v.ip)), v, now);
        }
      }
    }
    hide T.Step, WithAuth, S.HttpAccess, S.RawAccess, AsksApi, AsksBuiltIn, IsBarred, T.InForce, T.AllowBucket, T.BucketOf, ResolveTier;
  }

  function StoreAfter(s: S.Store, requests: seq<S.Request>, now: real): S.Store
    requires |requests| <= 1
  {
    if requests == [] then s else S.Step(s, S.Event(now, requests[0])).0
  }

  lemma ActStores(w: World, act: Act, now: real)
    ensures |Requests(w, act, now)| <= 1
    ensures Perform(w, act, now).0.store == StoreAfter(w.store, Requests(w, act, now), now)
  {
    if act.Arrives? {
      VisitStores(w, act.visit, now);
    }
    hide Serve, T.Step, IsBarred, IsChecked, S.HttpAccess, S.RawAccess;
  }

  function Asks(requests: seq<S.Request>, now: real): seq<S.Event> {
    seq(|requests|, i requires 0 <= i < |requests| => S.Event(now, requests[i]))
  }

  /** What the first `n` moments of a run ask of the session store, in order. */
  function StoreRun(w0: World, run: seq<Moment>, n: nat): seq<S.Event>
    requires n <= |run|
    decreases n
  {
    if n == 0 then []
    else StoreRun(w0, run, n - 1) + Asks(Requests(At(w0, run, n - 1), run[n - 1].act, run[n - 1].now), run[n - 1].now)
  }

  lemma {:induction false} SamePrefix(s: S.Store, run: seq<S.Event>, more: seq<S.Event>, n: nat)
    requires n <= |run|
    ensures S.At(s, run + more, n) == S.At(s, run, n)
  {
    if n > 0 {
      SamePrefix(s, run, more, n - 1);
      assert (run + more)[n - 1] == run[n - 1];
    }
    hide S.Step;
  }

  lemma {:induction false} OneMoreRequest(s: S.Store, run: seq<S.Event>, requests: seq<S.Request>, now: real)
    requires |requests| <= 1
    ensures S.At(s, run + Asks(requests, now), |run + Asks(requests, now)|) == StoreAfter(S.At(s, run, |run|), requests, now)
  {
    SamePrefix(s, run, Asks(requests, now), |run|);
    if requests == [] {
      assert run + Asks(requests, now) == run;
    } else {
      assert (run + Asks(requests, now))[|run|] == S.Event(now, requests[0]);
    }
    hide S.Step;
  }

  lemma {:induction false} NextStore(w0: World, run: seq<Moment>, n: nat)
    requires n < |run|
    ensures var (w, m) := (At(w0, run, n), run[n]);
            && At(w0, run, n + 1) == Perform(w, m.act, m.now).0
            && StoreRun(w0, run, n + 1) == StoreRun(w0, run, n) + Asks(Requests(w, m.act, m.now), m.now)
  {
    hide Perform, Requests;
  }

  lemma {:induction false} NothingStored(w0: World, run: seq<Moment>)
    ensures At(w0, run, 0).store == S.At(w0.store, StoreRun(w0, run, 0), |StoreRun(w0, run, 0)|)
  {
  }

  /** The sessions at the gates are those after exactly these requests. */
  lemma {:induction false} StoreRefines(w0: World, run: seq<Moment>, n: nat)
    requires n <= |run|
    ensures At(w0, run, n).store == S.At(w0.store, StoreRun(w0, run, n), |StoreRun(w0, run, n)|)
  {
    hide At, S.At, StoreRun, Perform, Requests, Asks, StoreAfter;
    if n == 0 {
      NothingStored(w0, run);
    } else {
      StoreRefines(w0, run, n - 1);
      NextStore(w0, run, n - 1);
      var (w, m) := (At(w0, run, n - 1), run[n - 1]);
      ActStores(w, m.act, m.now);
      OneMoreRequest(w0.store, StoreRun(w0, run, n - 1), Requests(w, m.act, m.now), m.now);
    }
  }

  // ---- who is turned away as banned ------------------------------------------------------------

  /** The operations so far, and then the question whether this address is banned. */
  function Inquiry(w0: World, run: seq<Moment>, n: nat, ip: string): seq<T.Event>
    requires n < |run|
  {
    LimiterRun(w0, run, n) + [T.Event(run[n].now, T.IsBanned(ip))]
  }

  lemma {:induction false} InquiryAnswers(w0: World, run: seq<Moment>, n: nat, ip: string)
    requires n < |run|
    ensures var all := Inquiry(w0, run, n, ip);
            && T.AnswerAt(w0.limiter, all, |all| - 1) == T.Standing(IsBarred(At(w0, run, n), ip, run[n].now))
  {
    var before := LimiterRun(w0, run, n);
    LimiterRefines(w0, run, n);
    PrefixAt(w0.limiter, before, [T.Event(run[n].now, T.IsBanned(ip))], |before|);
    History.LookupAnswers(At(w0, run, n).limiter, T.Event(run[n].now, T.IsBanned(ip)));
    hide At, T.At, LimiterRun, T.Step;
  }

  lemma {:induction false} InquiryIsMonotone(w0: World, run: seq<Moment>, n: nat, ip: string)
    requires n < |run| && GateRuns.Monotone(run)
    ensures T.Monotone(Inquiry(w0, run, n, ip))
  {
    LimiterRunIsMonotone(w0, run, n);
    hide LimiterRun, GateRuns.Monotone;
  }

  /**
   Over runs of visits, upkeep and admin acts from an empty limiter: a visit is answered with the ban if and only if
   it is no failed handshake and the last ruling on its address, by the admin or by a failure that tripped, is a ban
   that has not ended, or that ends at this instant with no reload at it in between.
   */
  lemma {:induction false} BlockedExactly(w0: World, run: seq<Moment>, n: nat, v: Visit)
    requires n < |run| && GateRuns.Monotone(run) && w0.limiter == History.EMPTY && run[n].act == Arrives(v)
    ensures var all := Inquiry(w0, run, n, v.ip);
            var k := History.LastRuling(History.EMPTY, all, v.ip, |all| - 1);
            var now := run[n].now;
            ReplyAt(w0, run, n) == Some(Blocked) <==>
            && !v.TlsError? && k.Some? && History.Bans(History.EMPTY, all, v.ip, k.value)
            && var seconds := History.BanSeconds(History.EMPTY, all, v.ip, k.value);
               || History.Lasts(all[k.value].now, seconds, now)
               || (now == all[k.value].now + seconds as real
                   && forall j :: k.value < j < |all| - 1 && all[j].op.Reload? ==> all[j].now < now)
  {
    InquiryAnswers(w0, run, n, v.ip);
    InquiryIsMonotone(w0, run, n, v.ip);
    var all := Inquiry(w0, run, n, v.ip);
    assert all[|all| - 1] == T.Event(run[n].now, T.IsBanned(v.ip));
    History.BannedExactly(all, v.ip, |all| - 1);
    VisitEffect(At(w0, run, n), v, run[n].now);
    assert IsBarred(At(w0, run, n), v.ip, run[n].now) <==> T.InForce(At(w0, run, n).limiter.banned, v.ip, run[n].now);
    hide At, Serve, Inquiry, T.AnswerAt, T.Monotone, History.LastRuling, History.Bans, History.BanSeconds, T.Step, IsBarred, T.InForce;
  }
}
