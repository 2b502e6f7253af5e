/**
 How often an address that does not log in can be refused before the ban answers for it, over runs that mix
 its visits with everybody else's and with upkeep; and exactly which policies keep it in check.
 */
module Refusals {
  import opened Prelude
  import opened Gate
  import opened GateRuns
  import T = Throttle
  import S = Sessions
  import M = Metrics
  import AutoBan

  /** The anonymous policy is `p`, and it is what governs this address. */
  predicate Watched(s: T.State, ip: string, p: T.Policy) {
    Lookup(s.policies, T.TIER_ANONYMOUS) == Some(p) && (ip in s.buckets ==> s.buckets[ip].tier == T.TIER_ANONYMOUS)
  }

  function MostRefusals(p: T.Policy): int {
    AutoBan.Max(p.banThreshold, 2 * p.banThreshold - 2)
  }

  function WindowOf(p: T.Policy): real {
    p.banWindowSec as real
  }

  /** The sweep forgets no failure of the window, and a ban outlasts the window. */
  predicate Contains(p: T.Policy) {
    && (p.banThreshold == 1 || WindowOf(p) <= T.BUCKET_IDLE)
    && (p.banDurationSec <= 0 || p.banDurationSec > p.banWindowSec)
  }

  /** A refused visit of the address. */
  predicate IsRefusal(w: World, act: Act, now: real, ip: string) {
    act.Arrives? && act.visit.ip == ip
    && (Serve(w, act.visit, now).1.Refused? || Serve(w, act.visit, now).1.Throttled?)
  }

  function Refusals(w0: World, run: seq<Moment>, ip: string, n: nat): nat
    requires n <= |run|
    decreases n
  {
    if n == 0 then 0
    else Refusals(w0, run, ip, n - 1) + (if IsRefusal(At(w0, run, n - 1), run[n - 1].act, run[n - 1].now, ip) then 1 else 0)
  }

  /** The act lets the address in on no session, and the admin leaves its bans and the anonymous policy alone. */
  predicate LeavesBe(w: World, act: Act, now: real, ip: string, p: T.Policy) {
    match act
    case Arrives(v) => v.ip == ip ==> SessionOf(Serve(w, v, now).1).None?
    case Reloads(policies) => Lookup(policies, T.TIER_ANONYMOUS) == Some(p)
    case Bans(who, _) => who != ip
    case Unbans(who) => who != ip
    case _ => true
  }

  /** A run within one ban window from `a` on, by an address under the anonymous policy that never logs in. */
  ghost predicate Stretch(w0: World, run: seq<Moment>, ip: string, p: T.Policy, a: real, start: real) {
    && Watched(w0.limiter, ip, p) && T.Sound(w0.limiter, start) && Monotone(run)
    && (forall k :: 0 <= k < |run| ==> a <= run[k].now <= a + WindowOf(p))
    && (forall k :: 0 <= k < |run| ==> LeavesBe(At(w0, run, k), run[k].act, run[k].now, ip, p))
  }

  /** No address without a login is refused more often than `max(T, 2T - 2)` times within one ban window. */
  ghost predicate KeepsInCheck(p: T.Policy) {
    forall w0: World, run: seq<Moment>, ip: string, a: real, start: real ::
      Stretch(w0, run, ip, p, a, start) ==> Refusals(w0, run, ip, |run|) <= MostRefusals(p)
  }

  // ---- a policy that contains keeps in check -------------------------------------------------

  /** Memory and table both ban beyond `t`. */
  predicate BannedPast(s: T.State, ip: string, t: real) {
    && ip in s.banned && (s.banned[ip].None? || s.banned[ip].value > t)
    && ip in s.bans && (s.bans[ip].expires.None? || s.bans[ip].expires.value > t)
  }

  /** `m` refusals in, the failures are counted in a bucket last seen since `a`. */
  ghost predicate Counting(s: T.State, ip: string, p: T.Policy, m: nat, a: real) {
    && AutoBan.CountKeepsUp(s, ip, p.banThreshold, m, a)
    && (m > 0 ==> ip in s.buckets && s.buckets[ip].lastSeen >= a)
  }

  /** After `m` refusals in the interval that starts at `a`: still counted, or banned past its end. */
  ghost predicate InCheck(s: T.State, ip: string, p: T.Policy, m: nat, a: real) {
    && Watched(s, ip, p)
    && (Counting(s, ip, p, m, a) || (BannedPast(s, ip, a + WindowOf(p)) && m <= MostRefusals(p)))
  }

  predicate Sensible(p: T.Policy) {
    T.AutoBans(p) && p.banWindowSec > 0
  }

  lemma QuietOp(s: T.State, now: real, op: T.Op, ip: string, p: T.Policy, m: nat, a: real)
    requires Watched(s, ip, p) && op in {T.IsBanned(ip), T.Allow(ip)} && Counting(s, ip, p, m, a) && a <= now
    ensures Watched(T.Step(s, T.Event(now, op)).0, ip, p) && Counting(T.Step(s, T.Event(now, op)).0, ip, p, m, a)
  {
    AutoBan.NoFailureStep(s, T.Event(now, op), ip);
  }

  /** The gates before the count leave the failure window alone. */
  lemma QuietUntilWeighed(w: World, v: Visit, now: real, p: T.Policy, m: nat, a: real)
    requires Watched(w.limiter, v.ip, p) && Counting(w.limiter, v.ip, p, m, a) && a <= now
    ensures Watched(Weighed(w, v, now), v.ip, p) && Counting(Weighed(w, v, now), v.ip, p, m, a)
  {
    hide T.Step, Watched, Counting, AsksApi;
    var s1 := Did(w, now, T.IsBanned(v.ip));
    QuietOp(w.limiter, now, T.IsBanned(v.ip), v.ip, p, m, a);
    QuietOp(s1.limiter, now, T.IsBanned(v.ip), v.ip, p, m, a);
    QuietOp(Did(s1, now, T.IsBanned(v.ip)).limiter, now, T.Allow(v.ip), v.ip, p, m, a);
  }

  lemma FailureOutcome(s: T.State, ip: string, p: T.Policy, now: real)
    requires Watched(s, ip, p) && T.AutoBans(p)
    ensures var (s', answer) := T.Step(s, T.Event(now, T.RecordFailure(ip)));
            && Watched(s', ip, p) && answer.Recorded? && ip in s'.buckets && s'.buckets[ip].lastSeen == now
            && (answer.tripped ==>
                  && ip in s'.banned && s'.banned[ip] == T.Expiry(p.banDurationSec, now)
                  && ip in s'.bans && s'.bans[ip].expires == T.Expiry(p.banDurationSec, now))
            && (!answer.tripped ==> s'.banned == s.banned && s'.bans == s.bans)
  {
  }

  /** A failure while counting adds one or trips, and a trip bans past the end of the interval. */
  lemma CountedFailure(s: T.State, ip: string, p: T.Policy, m: nat, a: real, now: real)
    requires Watched(s, ip, p) && Sensible(p) && Contains(p) && a <= now <= a + WindowOf(p)
    requires Counting(s, ip, p, m, a)
    ensures var s' := T.Step(s, T.Event(now, T.RecordFailure(ip))).0;
            InCheck(s', ip, p, m + 1, a) && InCheck(s', ip, p, m, a)
  {
    assert T.Governing(s, ip) == Some(p);
    AutoBan.FailureStep(s, ip, now);
    FailureOutcome(s, ip, p, now);
    if T.Step(s, T.Event(now, T.RecordFailure(ip))).1 == T.Recorded(false) {
      AutoBan.KeepsUpFailure(s, ip, m, a, now);
    }
    hide T.Step, T.Governing, AutoBan.Window, Watched;
  }

  /** A failed handshake while banned leaves the ban or replaces it by one past the end of the interval. */
  lemma FailureWhileBanned(s: T.State, ip: string, p: T.Policy, m: nat, a: real, now: real)
    requires Watched(s, ip, p) && Sensible(p) && Contains(p) && a <= now <= a + WindowOf(p)
    requires BannedPast(s, ip, a + WindowOf(p)) && m <= MostRefusals(p)
    ensures InCheck(T.Step(s, T.Event(now, T.RecordFailure(ip))).0, ip, p, m, a)
  {
    FailureOutcome(s, ip, p, now);
    hide T.Step, Watched, Counting, MostRefusals;
  }

  lemma OwnVisit(w: World, v: Visit, now: real, p: T.Policy, m: nat, a: real)
    requires Sensible(p) && Contains(p) && a <= now <= a + WindowOf(p)
    requires InCheck(w.limiter, v.ip, p, m, a)
    requires SessionOf(Serve(w, v, now).1).None?
    ensures InCheck(Serve(w, v, now).0.limiter, v.ip, p, if IsRefusal(w, Arrives(v), now, v.ip) then m + 1 else m, a)
  {
    VisitEffect(w, v, now);
    hide Serve, T.Step, Watched, Counting, Weighed, Contains, MostRefusals;
    if Counting(w.limiter, v.ip, p, m, a) {
      QuietUntilWeighed(w, v, now, p, m, a);
      CountedFailure(Weighed(w, v, now), v.ip, p, m, a, now);
      if T.InForce(w.limiter.banned, v.ip, now) && !v.TlsError? {
        assert Serve(w, v, now).1.Blocked?;
      }
    } else {
      assert T.InForce(w.limiter.banned, v.ip, now);
      FailureWhileBanned(w.limiter, v.ip, p, m, a, now);
      if v.TlsError? {
        TlsIsWeighedAsIs(w, v, now);
      }
    }
  }

  lemma TlsIsWeighedAsIs(w: World, v: Visit, now: real)
    requires v.TlsError?
    ensures Weighed(w, v, now) == w.limiter
  {
  }

  lemma SameForInCheck(s: T.State, s': T.State, ip: string, p: T.Policy, m: nat, a: real)
    requires InCheck(s, ip, p, m, a) && SameFor(s, s', ip)
    ensures InCheck(s', ip, p, m, a)
  {
    assert ip in s.buckets <==> ip in s'.buckets;
    assert AutoBan.Window(s, ip) == AutoBan.Window(s', ip);
    assert ip in s.banned <==> ip in s'.banned;
    assert ip in s.bans <==> ip in s'.bans;
  }

  /** The sweep takes no bucket that has counted in the interval, and upkeep of the bans keeps active ones. */
  lemma UpkeepInCheck(s: T.State, act: Act, now: real, ip: string, p: T.Policy, m: nat, a: real)
    requires Sensible(p) && Contains(p) && a <= now <= a + WindowOf(p)
    requires InCheck(s, ip, p, m, a) && (act.Sweeps? || act.CleansBans? || act.Reloads?)
    requires act.Reloads? ==> Lookup(act.policies, T.TIER_ANONYMOUS) == Some(p)
    ensures InCheck(T.Step(s, T.Event(now, OpOf(act))).0, ip, p, m, a)
  {
    var s' := T.Step(s, T.Event(now, OpOf(act))).0;
    if act.Sweeps? && Counting(s, ip, p, m, a) && ip in s.buckets && ip !in s'.buckets {
      assert m == 0;
    }
  }

  lemma ActInCheck(w: World, act: Act, now: real, ip: string, p: T.Policy, m: nat, a: real)
    requires Sensible(p) && Contains(p) && a <= now <= a + WindowOf(p)
    requires InCheck(w.limiter, ip, p, m, a) && LeavesBe(w, act, now, ip, p)
    ensures InCheck(Perform(w, act, now).0.limiter, ip, p, if IsRefusal(w, act, now, ip) then m + 1 else m, a)
  {
    hide Serve, InCheck, T.Step, Contains;
    match act
    case Arrives(v) =>
      if v.ip == ip {
        OwnVisit(w, v, now, p, m, a);
      } else {
        OtherVisit(w, v, now, ip);
        SameForInCheck(w.limiter, Serve(w, v, now).0.limiter, ip, p, m, a);
      }
    case Bans(who, _) =>
      OtherOp(w.limiter, now, OpOf(act), who, ip);
      SameForInCheck(w.limiter, T.Step(w.limiter, T.Event(now, OpOf(act))).0, ip, p, m, a);
    case Unbans(who) =>
      OtherOp(w.limiter, now, OpOf(act), who, ip);
      SameForInCheck(w.limiter, T.Step(w.limiter, T.Event(now, OpOf(act))).0, ip, p, m, a);
    case Stores(_) =>
    case _ =>
      UpkeepInCheck(w.limiter, act, now, ip, p, m, a);
  }

  lemma StartsInCheck(s: T.State, ip: string, p: T.Policy, a: real, start: real)
    requires Watched(s, ip, p) && T.Sound(s, start)
    ensures InCheck(s, ip, p, 0, a)
  {
  }

  lemma NextMoment(w0: World, run: seq<Moment>, ip: string, n: nat)
    requires n < |run|
    ensures At(w0, run, n + 1) == Perform(At(w0, run, n), run[n].act, run[n].now).0
    ensures Refusals(w0, run, ip, n + 1)
         == Refusals(w0, run, ip, n) + (if IsRefusal(At(w0, run, n), run[n].act, run[n].now, ip) then 1 else 0)
  {
    hide Perform, IsRefusal;
  }

  lemma {:induction false} StaysInCheck(w0: World, run: seq<Moment>, ip: string, p: T.Policy, a: real, start: real, n: nat)
    requires n <= |run| && Stretch(w0, run, ip, p, a, start) && Sensible(p) && Contains(p)
    ensures InCheck(At(w0, run, n).limiter, ip, p, Refusals(w0, run, ip, n), a)
  {
    hide Perform, InCheck, IsRefusal, Contains, LeavesBe, Watched;
    if n == 0 {
      StartsInCheck(w0.limiter, ip, p, a, start);
    } else {
      StaysInCheck(w0, run, ip, p, a, start, n - 1);
      NextMoment(w0, run, ip, n - 1);
      ActInCheck(At(w0, run, n - 1), run[n - 1].act, run[n - 1].now, ip, p, Refusals(w0, run, ip, n - 1), a);
    }
  }

  lemma FewEnough(s: T.State, ip: string, p: T.Policy, m: nat, a: real)
    requires InCheck(s, ip, p, m, a) && p.banThreshold >= 1
    ensures m <= MostRefusals(p)
  {
  }

  /** In a stretch under a policy that contains, the ban answers after `max(T, 2T - 2)` refusals at the latest. */
  lemma {:induction false} RefusalsAreBounded(w0: World, run: seq<Moment>, ip: string, p: T.Policy, a: real, start: real)
    requires Stretch(w0, run, ip, p, a, start) && Sensible(p) && Contains(p)
    ensures Refusals(w0, run, ip, |run|) <= MostRefusals(p)
  {
    hide At, Refusals, Stretch, Contains;
    StaysInCheck(w0, run, ip, p, a, start, |run|);
    FewEnough(At(w0, run, |run|).limiter, ip, p, Refusals(w0, run, ip, |run|), a);
  }

  // ---- a policy that does not contain does not ---------------------------------------------------

  /** A request to a host without a route, which is refused unless banned. */
  const STRAY := Web("", "", NoHandler)

  /** `n` stray requests at 0, an act at `t`, and `m` more at `t`. */
  function Bursts(n: nat, act: Act, t: real, m: nat): (run: seq<Moment>)
    ensures |run| == n + 1 + m
  {
    seq(n + 1 + m, (k: nat) =>
      if k < n then Moment(0.0, Arrives(STRAY)) else if k == n then Moment(t, act) else Moment(t, Arrives(STRAY)))
  }

  function Quiet(p: T.Policy): World {
    World(AutoBan.OnlyAnonymous(p), S.Store(map[], 0, map[], true, 0), [], {})
  }

  /** The address "" has `c` failures counted at `since` and is not banned in memory. */
  predicate CountedSo(s: T.State, p: T.Policy, c: nat, since: real) {
    && s.policies == map[T.TIER_ANONYMOUS := p]
    && ("" in s.buckets ==> s.buckets[""].tier == T.TIER_ANONYMOUS)
    && AutoBan.Window(s, "") == (c, if c == 0 then None else Some(since))
    && (c > 0 ==> "" in s.buckets && s.buckets[""].lastSeen == since)
    && "" !in s.banned
  }

  /** The address "" has just been banned. */
  predicate JustBanned(s: T.State, p: T.Policy, now: real) {
    && s.policies == map[T.TIER_ANONYMOUS := p]
    && ("" in s.buckets ==> s.buckets[""].tier == T.TIER_ANONYMOUS)
    && AutoBan.Window(s, "") == (0, None)
    && "" in s.bans && s.bans[""].expires == T.Expiry(p.banDurationSec, now)
  }

  lemma StrayCounted(s: T.State, p: T.Policy, c: nat, now: real)
    requires Sensible(p) && c < p.banThreshold && CountedSo(s, p, c, now)
    ensures var s' := T.Step(s, T.Event(now, T.RecordFailure(""))).0;
            if c + 1 < p.banThreshold then CountedSo(s', p, c + 1, now) else JustBanned(s', p, now)
  {
    assert T.Governing(s, "") == Some(p);
    AutoBan.FailureStep(s, "", now);
    FailureOutcome(s, "", p, now);
    StrayKeeps(s, now);
    hide T.Step, T.Governing;
  }

  lemma StrayKeeps(s: T.State, now: real)
    ensures T.Step(s, T.Event(now, T.RecordFailure(""))).0.policies == s.policies
  {
  }

  lemma StrayRefused(w: World, p: T.Policy, c: nat, now: real)
    requires Sensible(p) && c < p.banThreshold && CountedSo(w.limiter, p, c, now)
    ensures IsRefusal(w, Arrives(STRAY), now, "") && SessionOf(Serve(w, STRAY, now).1).None?
    ensures var s' := Serve(w, STRAY, now).0.limiter;
            if c + 1 < p.banThreshold then CountedSo(s', p, c + 1, now) else JustBanned(s', p, now)
  {
    StrayCounted(w.limiter, p, c, now);
    assert Did(w, now, T.IsBanned("")).limiter == w.limiter;
    hide T.Step;
  }

  /** Up to the threshold, each of `j` stray requests in a row is refused. */
  lemma {:induction false} BurstRefused(w0: World, run: seq<Moment>, p: T.Policy, lo: nat, j: nat, now: real)
    requires lo + j <= |run| && j <= p.banThreshold && Sensible(p)
    requires forall k :: lo <= k < lo + j ==> run[k] == Moment(now, Arrives(STRAY))
    requires CountedSo(At(w0, run, lo).limiter, p, 0, now)
    ensures Refusals(w0, run, "", lo + j) == Refusals(w0, run, "", lo) + j
    ensures var s := At(w0, run, lo + j).limiter;
            if j < p.banThreshold then CountedSo(s, p, j, now) else JustBanned(s, p, now)
    ensures forall k :: lo <= k < lo + j ==> LeavesBe(At(w0, run, k), run[k].act, run[k].now, "", p)
  {
    hide Serve, IsRefusal, CountedSo, JustBanned, At, Refusals;
    if j == 0 {
      assert lo + j == lo;
    } else {
      BurstRefused(w0, run, p, lo, j - 1, now);
      NextMoment(w0, run, "", lo + j - 1);
      assert run[lo + j - 1] == Moment(now, Arrives(STRAY));
      StrayRefused(At(w0, run, lo + j - 1), p, j - 1, now);
    }
  }

  /** The first burst and the act at the end of the window: a sweep before the last failure, or a reload after the ban. */
  predicate Escapes(p: T.Policy, n: nat, act: Act) {
    || (act == Sweeps && n + 1 == p.banThreshold && WindowOf(p) > T.BUCKET_IDLE)
    || (act == Reloads(map[T.TIER_ANONYMOUS := p]) && n == p.banThreshold && 0 < p.banDurationSec <= p.banWindowSec)
  }

  lemma ActForgets(s: T.State, p: T.Policy, n: nat, act: Act)
    requires Sensible(p) && Escapes(p, n, act)
    requires if n < p.banThreshold then CountedSo(s, p, n, 0.0) else JustBanned(s, p, 0.0)
    ensures CountedSo(T.Step(s, T.Event(WindowOf(p), OpOf(act))).0, p, 0, WindowOf(p))
  {
  }

  lemma BurstsInOrder(n: nat, act: Act, t: real, m: nat)
    requires t >= 0.0
    ensures Monotone(Bursts(n, act, t, m))
    ensures forall k :: 0 <= k < n ==> Bursts(n, act, t, m)[k] == Moment(0.0, Arrives(STRAY))
    ensures Bursts(n, act, t, m)[n] == Moment(t, act)
    ensures forall k :: n + 1 <= k < n + 1 + m ==> Bursts(n, act, t, m)[k] == Moment(t, Arrives(STRAY))
    ensures forall k :: 0 <= k < n + 1 + m ==> 0.0 <= Bursts(n, act, t, m)[k].now <= t
  {
  }

  /** The first burst and the act after it: each visit refused, and nothing counted against the second. */
  lemma {:induction false} FirstBurst(p: T.Policy, run: seq<Moment>, n: nat, act: Act)
    requires Sensible(p) && Escapes(p, n, act)
    requires run == Bursts(n, act, WindowOf(p), p.banThreshold)
    ensures Refusals(Quiet(p), run, "", n + 1) == n && CountedSo(At(Quiet(p), run, n + 1).limiter, p, 0, WindowOf(p))
    ensures forall k :: 0 <= k < n + 1 ==> LeavesBe(At(Quiet(p), run, k), run[k].act, run[k].now, "", p)
  {
    hide *;
    StartsQuiet(p, run);
    EscapesHow(p, n, act);
    BurstsInOrder(n, act, WindowOf(p), p.banThreshold);
    BurstRefused(Quiet(p), run, p, 0, n, 0.0);
    NextMoment(Quiet(p), run, "", n);
    NotRefusal(At(Quiet(p), run, n), p, n, act, WindowOf(p));
    ActForgets(At(Quiet(p), run, n).limiter, p, n, act);
  }

  lemma {:induction false} BurstsCounted(p: T.Policy, run: seq<Moment>, n: nat, act: Act)
    requires Sensible(p) && Escapes(p, n, act)
    requires run == Bursts(n, act, WindowOf(p), p.banThreshold)
    ensures Refusals(Quiet(p), run, "", |run|) == n + p.banThreshold
  {
    hide *;
    EscapesHow(p, n, act);
    FirstBurst(p, run, n, act);
    SecondBurst(p, run, n, act);
  }

  lemma {:induction false} SecondBurst(p: T.Policy, run: seq<Moment>, n: nat, act: Act)
    requires Sensible(p) && p.banThreshold >= 0 && WindowOf(p) >= 0.0
    requires run == Bursts(n, act, WindowOf(p), p.banThreshold)
    requires CountedSo(At(Quiet(p), run, n + 1).limiter, p, 0, WindowOf(p))
    ensures Refusals(Quiet(p), run, "", |run|) == Refusals(Quiet(p), run, "", n + 1) + p.banThreshold
    ensures forall k :: n + 1 <= k < |run| ==> LeavesBe(At(Quiet(p), run, k), run[k].act, run[k].now, "", p)
  {
    hide *;
    BurstsInOrder(n, act, WindowOf(p), p.banThreshold);
    BurstRefused(Quiet(p), run, p, n + 1, p.banThreshold, WindowOf(p));
    assert |run| == n + 1 + p.banThreshold;
  }

  lemma {:induction false} StartsQuiet(p: T.Policy, run: seq<Moment>)
    ensures At(Quiet(p), run, 0) == Quiet(p) && Refusals(Quiet(p), run, "", 0) == 0
    ensures CountedSo(Quiet(p).limiter, p, 0, 0.0)
    ensures Watched(Quiet(p).limiter, "", p) && T.Sound(Quiet(p).limiter, 0.0)
  {
  }

  lemma NotRefusal(w: World, p: T.Policy, n: nat, act: Act, t: real)
    requires Sensible(p) && Escapes(p, n, act)
    ensures !IsRefusal(w, act, t, "") && LeavesBe(w, act, t, "", p)
    ensures Perform(w, act, t).0.limiter == T.Step(w.limiter, T.Event(t, OpOf(act))).0
  {
    hide Serve;
  }

  lemma EscapesHow(p: T.Policy, n: nat, act: Act)
    requires Sensible(p) && Escapes(p, n, act)
    ensures 0 <= n <= p.banThreshold && p.banThreshold >= 1 && WindowOf(p) > 0.0
    ensures act.Sweeps? || act == Reloads(map[T.TIER_ANONYMOUS := p])
    ensures n + p.banThreshold > 1 ==> n + p.banThreshold > MostRefusals(p)
  {
  }

  lemma {:induction false} BurstsAreStretch(p: T.Policy, n: nat, act: Act)
    requires Sensible(p) && Escapes(p, n, act)
    ensures Stretch(Quiet(p), Bursts(n, act, WindowOf(p), p.banThreshold), "", p, 0.0, 0.0)
  {
    StartsQuiet(p, Bursts(n, act, WindowOf(p), p.banThreshold));
    EscapesHow(p, n, act);
    BurstsInOrder(n, act, WindowOf(p), p.banThreshold);
    FirstBurst(p, Bursts(n, act, WindowOf(p), p.banThreshold), n, act);
    SecondBurst(p, Bursts(n, act, WindowOf(p), p.banThreshold), n, act);
    hide LeavesBe, At, Refusals, Watched, Escapes, Bursts, Monotone, T.Sound, Quiet;
  }

  /** An act that forgets within the window lets more than `max(T, 2T - 2)` refusals in. */
  lemma {:induction false} EscapeShows(p: T.Policy, n: nat, act: Act)
    requires Sensible(p) && Escapes(p, n, act) && n + p.banThreshold > 1
    ensures !KeepsInCheck(p)
  {
    var run := Bursts(n, act, WindowOf(p), p.banThreshold);
    BurstsCounted(p, run, n, act);
    BurstsAreStretch(p, n, act);
    EscapesHow(p, n, act);
    hide Stretch, Refusals, Escapes, MostRefusals, Bursts, Sensible;
    assert Stretch(Quiet(p), run, "", p, 0.0, 0.0);
    assert Refusals(Quiet(p), run, "", |run|) > MostRefusals(p);
  }

  /**
   A policy that bans by a window keeps every address without a login at `max(T, 2T - 2)` refusals within one
   window, whatever visits and upkeep mix in, if and only if its window is at most the half hour after which
   buckets are swept, or its threshold is one, and its bans outlast the window.
   */
  lemma RefusalsAreBoundedExactly(p: T.Policy)
    requires T.AutoBans(p) && p.banWindowSec > 0
    ensures KeepsInCheck(p) <==> Contains(p)
  {
    if Contains(p) {
      forall w0: World, run: seq<Moment>, ip: string, a: real, start: real | Stretch(w0, run, ip, p, a, start)
        ensures Refusals(w0, run, ip, |run|) <= MostRefusals(p)
      {
        RefusalsAreBounded(w0, run, ip, p, a, start);
      }
    } else if 0 < p.banDurationSec <= p.banWindowSec {
      EscapeShows(p, p.banThreshold, Reloads(map[T.TIER_ANONYMOUS := p]));
    } else {
      EscapeShows(p, p.banThreshold - 1, Sweeps);
    }
  }
}
