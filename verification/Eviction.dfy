/**
 The sweep that drops idle buckets bounds memory. For an IP that was never promoted, it cannot be told
 from a limiter that never forgets, exactly when half an hour is long enough to refill the bucket and
 to lapse the failure window.
 */
module Eviction {
  import opened Prelude
  import opened Throttle
  import Admission
  import AutoBan

  /** The limiter without a sweeper. */
  function StepUnswept(s: State, e: Event): (State, Answer) {
    if e.op.Sweep? then (s, Done) else Step(s, e)
  }

  function AtUnswept(s0: State, run: seq<Event>, n: nat): State
    requires n <= |run|
    decreases n
  {
    if n == 0 then s0 else StepUnswept(AtUnswept(s0, run, n - 1), run[n - 1]).0
  }

  function AnswerUnswept(s0: State, run: seq<Event>, n: nat): Answer
    requires n < |run|
  {
    StepUnswept(AtUnswept(s0, run, n), run[n]).1
  }

  /** Half an hour refills the bucket, and it lapses the window unless each failure bans on its own. */
  predicate Forgettable(p: Policy) {
    && (RateLimits(p) ==> p.ratePerSec * BUCKET_IDLE >= Capacity(p))
    && (AutoBans(p) ==> p.banThreshold == 1 || 0.0 < p.banWindowSec as real <= BUCKET_IDLE)
  }

  predicate ForgettableIn(ps: Policies) {
    TIER_ANONYMOUS in ps ==> Forgettable(ps[TIER_ANONYMOUS])
  }

  predicate PromotesFrom(op: Op, ip: string) {
    op.SetTier? && op.ip == ip && op.tier != TIER_ANONYMOUS
  }

  /** The operation reads or changes what the limiter knows about this IP alone. */
  predicate Concerns(op: Op, ip: string) {
    (op.Allow? || op.RecordFailure? || op.SetTier? || op.IsBanned? || op.Ban? || op.Unban?) && op.ip == ip
  }

  predicate LongAgo(t: Option<real>, now: real) {
    t.None? || t.value < now - BUCKET_IDLE
  }

  /** Same fill, or an unfilled bucket against one last refilled over half an hour ago. */
  predicate SameFill(b: Bucket, kept: Bucket, now: real) {
    || (b.tokens == kept.tokens && b.lastRefill == kept.lastRefill)
    || (b.lastRefill.None? && LongAgo(kept.lastRefill, now))
  }

  predicate SameWindow(b: Bucket, kept: Bucket, now: real) {
    || (b.failCount == kept.failCount && b.windowStart == kept.windowStart)
    || (b.failCount == 0 && b.windowStart.None? && LongAgo(kept.windowStart, now))
  }

  /** `b` and `kept` answer alike from `now` on. */
  predicate Alike(b: Bucket, kept: Bucket, now: real) {
    && b.tier == kept.tier == TIER_ANONYMOUS
    && SoundBucket(kept, now) && SoundBucket(b, now)
    && SameFill(b, kept, now) && SameWindow(b, kept, now)
  }

  /** What the swept limiter and the one that keeps everything agree on about `ip`. */
  predicate Agree(s: State, kept: State, ip: string, now: real) {
    && s.policies == kept.policies
    && Lookup(s.banned, ip) == Lookup(kept.banned, ip)
    && Lookup(s.bans, ip) == Lookup(kept.bans, ip)
    && (ip in s.buckets ==> ip in kept.buckets && s.buckets[ip].lastSeen == kept.buckets[ip].lastSeen)
    && Alike(BucketOf(s, ip, now), BucketOf(kept, ip, now), now)
  }

  lemma AlikeLater(b: Bucket, kept: Bucket, now: real, later: real)
    requires Alike(b, kept, now) && now <= later
    ensures Alike(b, kept, later)
  {
  }

  lemma AlikeRefilled(b: Bucket, kept: Bucket, p: Policy, now: real)
    requires Alike(b, kept, now) && Forgettable(p) && RateLimits(p)
    ensures Refilled(b, p, now) == Refilled(kept, p, now)
  {
    if b.lastRefill.None? && kept.lastRefill.Some? {
      AccruedMonotone(BUCKET_IDLE, now - kept.lastRefill.value, p.ratePerSec, p.ratePerSec);
      assert Accrued(BUCKET_IDLE, p.ratePerSec) == p.ratePerSec * BUCKET_IDLE;
    }
  }

  lemma AlikeAllow(b: Bucket, kept: Bucket, ps: Policies, now: real)
    requires Alike(b, kept, now) && ForgettableIn(ps)
    ensures AllowBucket(b, ps, now).1 == AllowBucket(kept, ps, now).1
    ensures Alike(AllowBucket(b, ps, now).0, AllowBucket(kept, ps, now).0, now)
    ensures AllowBucket(b, ps, now).0.lastSeen == AllowBucket(kept, ps, now).0.lastSeen == now
  {
    AllowKeepsSound(b, ps, now);
    AllowKeepsSound(kept, ps, now);
    if b.tier in ps && RateLimits(ps[b.tier]) {
      AlikeRefilled(b, kept, ps[b.tier], now);
    }
  }

  lemma AlikeFailure(b: Bucket, kept: Bucket, ps: Policies, now: real)
    requires Alike(b, kept, now) && ForgettableIn(ps)
    ensures FailBucket(b, ps, now).1 == FailBucket(kept, ps, now).1
    ensures Alike(FailBucket(b, ps, now).0, FailBucket(kept, ps, now).0, now)
    ensures FailBucket(b, ps, now).0.lastSeen == FailBucket(kept, ps, now).0.lastSeen == now
  {
    FailKeepsSound(b, ps, now);
    FailKeepsSound(kept, ps, now);
  }

  lemma AgreeLater(s: State, kept: State, ip: string, now: real, later: real)
    requires Agree(s, kept, ip, now) && now <= later
    ensures Agree(s, kept, ip, later)
  {
    if ip in kept.buckets {
      AlikeLater(BucketOf(s, ip, now), BucketOf(kept, ip, now), now, later);
    }
  }

  /** A sweep may take the bucket: what it forgets happened over half an hour ago. */
  lemma SweepAgrees(s: State, kept: State, ip: string, now: real)
    requires Agree(s, kept, ip, now)
    ensures Agree(Step(s, Event(now, Sweep)).0, kept, ip, now)
  {
  }

  /** Replacing both buckets by alike ones keeps the states in agreement. */
  lemma ReplacedAgree(s: State, kept: State, ip: string, b: Bucket, k: Bucket, now: real)
    requires Agree(s, kept, ip, now) && Alike(b, k, now) && b.lastSeen == k.lastSeen
    ensures Agree(s.(buckets := s.buckets[ip := b]), kept.(buckets := kept.buckets[ip := k]), ip, now)
  {
    hide Alike;
  }

  lemma AllowAgrees(s: State, kept: State, ip: string, now: real)
    requires Agree(s, kept, ip, now) && ForgettableIn(s.policies)
    ensures var e := Event(now, Allow(ip));
            Step(s, e).1 == Step(kept, e).1 && Agree(Step(s, e).0, Step(kept, e).0, ip, now)
  {
    hide AllowBucket, Alike;
    var b, k := BucketOf(s, ip, now), BucketOf(kept, ip, now);
    AlikeAllow(b, k, s.policies, now);
    ReplacedAgree(s, kept, ip, AllowBucket(b, s.policies, now).0, AllowBucket(k, s.policies, now).0, now);
  }

  /** A ban sets the same entry and row on both sides. */
  lemma BanAgrees(s: State, kept: State, ip: string, who: string, reason: Reason, tier: string, durationSec: int, now: real)
    requires Agree(s, kept, ip, now)
    ensures Agree(WithBan(s, who, reason, tier, durationSec, now), WithBan(kept, who, reason, tier, durationSec, now), ip, now)
  {
    hide Alike;
  }

  lemma FailureAgrees(s: State, kept: State, ip: string, now: real)
    requires Agree(s, kept, ip, now) && ForgettableIn(s.policies)
    ensures var e := Event(now, RecordFailure(ip));
            Step(s, e).1 == Step(kept, e).1 && Agree(Step(s, e).0, Step(kept, e).0, ip, now)
  {
    var b, k := BucketOf(s, ip, now), BucketOf(kept, ip, now);
    assert b.tier == k.tier;
    hide FailBucket, Alike, WithBan;
    AlikeFailure(b, k, s.policies, now);
    var (b', trip) := FailBucket(b, s.policies, now);
    var (k', _) := FailBucket(k, s.policies, now);
    ReplacedAgree(s, kept, ip, b', k', now);
    if trip.Some? {
      var p := trip.value;
      BanAgrees(s.(buckets := s.buckets[ip := b']), kept.(buckets := kept.buckets[ip := k']), ip,
                ip, Auto(p.banThreshold, p.banWindowSec, b.tier), b.tier, p.banDurationSec, now);
    }
  }

  lemma SetTierAgrees(s: State, kept: State, ip: string, now: real)
    requires Agree(s, kept, ip, now)
    ensures var e := Event(now, SetTier(ip, TIER_ANONYMOUS));
            Step(s, e).1 == Step(kept, e).1 && Agree(Step(s, e).0, Step(kept, e).0, ip, now)
  {
    var b, k := BucketOf(s, ip, now).(lastSeen := now), BucketOf(kept, ip, now).(lastSeen := now);
    ReplacedAgree(s, kept, ip, b, k, now);
    assert b == BucketOf(s, ip, now).(tier := TIER_ANONYMOUS, lastSeen := now);
  }

  lemma OwnBucketAgrees(s: State, kept: State, ip: string, e: Event)
    requires Agree(s, kept, ip, e.now) && ForgettableIn(s.policies)
    requires e.op == Allow(ip) || e.op == RecordFailure(ip) || e.op == SetTier(ip, TIER_ANONYMOUS)
    ensures Step(s, e).1 == Step(kept, e).1 && Agree(Step(s, e).0, Step(kept, e).0, ip, e.now)
  {
    hide Agree, Step;
    assert e == Event(e.now, e.op);
    match e.op
    case Allow(_) => AllowAgrees(s, kept, ip, e.now);
    case RecordFailure(_) => FailureAgrees(s, kept, ip, e.now);
    case _ => SetTierAgrees(s, kept, ip, e.now);
  }

  /** Bucket work for another IP may ban that IP, and changes nothing about this one. */
  lemma OtherBucketUntouched(s: State, ip: string, e: Event)
    requires (e.op.Allow? || e.op.RecordFailure? || e.op.SetTier?) && e.op.ip != ip
    ensures var s' := Step(s, e).0;
            && s'.policies == s.policies
            && Lookup(s'.buckets, ip) == Lookup(s.buckets, ip)
            && Lookup(s'.banned, ip) == Lookup(s.banned, ip)
            && Lookup(s'.bans, ip) == Lookup(s.bans, ip)
  {
  }

  lemma OtherBucketAgrees(s: State, kept: State, ip: string, e: Event)
    requires Agree(s, kept, ip, e.now)
    requires (e.op.Allow? || e.op.RecordFailure? || e.op.SetTier?) && e.op.ip != ip
    ensures Agree(Step(s, e).0, Step(kept, e).0, ip, e.now)
  {
    OtherBucketUntouched(s, ip, e);
    OtherBucketUntouched(kept, ip, e);
    hide Alike, Step;
  }

  lemma BanOpAgrees(s: State, kept: State, ip: string, e: Event)
    requires Agree(s, kept, ip, e.now)
    requires e.op.IsBanned? || e.op.Ban? || e.op.Unban? || e.op.Reload? || e.op.CleanupBans?
    ensures Concerns(e.op, ip) ==> Step(s, e).1 == Step(kept, e).1
    ensures Agree(Step(s, e).0, Step(kept, e).0, ip, e.now)
  {
    hide Alike;
  }

  /** The run up to event `n` never promotes `ip`, and every snapshot of policies it loads is forgettable. */
  ghost predicate Eligible(s0: State, run: seq<Event>, ip: string, n: nat)
    requires n <= |run|
  {
    && ForgettableIn(s0.policies)
    && (ip in s0.buckets ==> s0.buckets[ip].tier == TIER_ANONYMOUS)
    && (forall k :: 0 <= k < n ==> !PromotesFrom(run[k].op, ip))
    && (forall k :: 0 <= k < n && run[k].op.Reload? ==> ForgettableIn(run[k].op.policies))
  }

  lemma AgreeStep(s: State, kept: State, ip: string, e: Event)
    requires Agree(s, kept, ip, e.now) && ForgettableIn(s.policies)
    requires !PromotesFrom(e.op, ip)
    ensures Concerns(e.op, ip) ==> Step(s, e).1 == StepUnswept(kept, e).1
    ensures Agree(Step(s, e).0, StepUnswept(kept, e).0, ip, e.now)
  {
    if e.op.Sweep? {
      SweepAgrees(s, kept, ip, e.now);
      assert e == Event(e.now, Sweep);
    } else if (e.op.Allow? || e.op.RecordFailure? || e.op.SetTier?) && e.op.ip == ip {
      OwnBucketAgrees(s, kept, ip, e);
    } else if e.op.Allow? || e.op.RecordFailure? || e.op.SetTier? {
      OtherBucketAgrees(s, kept, ip, e);
    } else {
      BanOpAgrees(s, kept, ip, e);
    }
  }

  lemma {:induction false} RunsAgree(s0: State, run: seq<Event>, ip: string, n: nat)
    requires Monotone(run) && n < |run| && Sound(s0, run[0].now) && Eligible(s0, run, ip, n)
    ensures ForgettableIn(At(s0, run, n).policies)
    ensures Agree(At(s0, run, n), AtUnswept(s0, run, n), ip, run[n].now)
  {
    if n > 0 {
      RunsAgree(s0, run, ip, n - 1);
      var s, kept, e := At(s0, run, n - 1), AtUnswept(s0, run, n - 1), run[n - 1];
      AgreeStep(s, kept, ip, e);
      AgreeLater(Step(s, e).0, StepUnswept(kept, e).0, ip, e.now, run[n].now);
    }
  }

  /**
   Sweeps anywhere in a run change no answer about an IP that was never promoted (`Allow` with its
   Retry-After, the trips of `RecordFailure`, `IsBanned`) and none of its bans.
   */
  lemma {:induction false} EvictionUnobservable(s0: State, run: seq<Event>, ip: string, n: nat)
    requires Monotone(run) && n < |run| && Sound(s0, run[0].now) && Eligible(s0, run, ip, n + 1)
    ensures Concerns(run[n].op, ip) ==> AnswerAt(s0, run, n) == AnswerUnswept(s0, run, n)
    ensures Lookup(At(s0, run, n + 1).banned, ip) == Lookup(AtUnswept(s0, run, n + 1).banned, ip)
    ensures Lookup(At(s0, run, n + 1).bans, ip) == Lookup(AtUnswept(s0, run, n + 1).bans, ip)
  {
    RunsAgree(s0, run, ip, n);
    AgreeStep(At(s0, run, n), AtUnswept(s0, run, n), ip, run[n]);
  }

  // ---- the condition is exact ---------------------------------------------------

  /** Under the fixed anonymous policy `p`, no run tells a limiter that sweeps from one that does not. */
  ghost predicate Unobservable(p: Policy) {
    forall ip: string, run: seq<Event>, n: nat ::
      n < |run| && Monotone(run) && Concerns(run[n].op, ip)
      && (forall k :: 0 <= k <= n ==> !run[k].op.Reload? && !PromotesFrom(run[k].op, ip)) ==>
        AnswerAt(AutoBan.OnlyAnonymous(p), run, n) == AnswerUnswept(AutoBan.OnlyAnonymous(p), run, n)
  }

  /** `n` operations at 0, a sweep at `t`, and `m` more operations at `t`. */
  function Pause(op: Op, n: nat, t: real, m: nat): (run: seq<Event>)
    ensures |run| == n + 1 + m
  {
    seq(n + 1 + m, (k: nat) => if k < n then Event(0.0, op) else if k == n then Event(t, Sweep) else Event(t, op))
  }

  function Whole(p: Policy): (c: nat)
    ensures c >= 1 && c as real == Capacity(p)
  {
    if p.burst < 1 then 1 else p.burst
  }

  /** Draining `c` tokens at 0, and `c` fresh ones at `t`. */
  function Drained(c: nat, t: real, n: nat): Bucket {
    if n <= c then Bucket(TIER_ANONYMOUS, (c - n) as real, Some(0.0), 0, None, 0.0)
    else Bucket(TIER_ANONYMOUS, (c - (n - c - 1)) as real, Some(t), 0, None, t)
  }

  /** The bucket of the swept run: drained once, forgotten, and drained again. */
  lemma {:induction false} DrainedTwice(p: Policy, t: real, n: nat)
    requires RateLimits(p) && t > BUCKET_IDLE && n <= 2 * Whole(p)
    ensures var c := Whole(p);
            var s := At(AutoBan.OnlyAnonymous(p), Pause(Allow(""), c, t, c), n);
            && s.policies == map[TIER_ANONYMOUS := p]
            && (n == 0 || n == c + 1 ==> "" !in s.buckets)
            && (n != 0 && n != c + 1 ==> "" in s.buckets && s.buckets[""] == Drained(c, t, n))
  {
    var c := Whole(p);
    var run := Pause(Allow(""), c, t, c);
    if n > 0 {
      DrainedTwice(p, t, n - 1);
      assert Accrued(0.0, p.ratePerSec) == 0.0;
      assert run[n - 1] == if n - 1 == c then Event(t, Sweep) else Event(if n - 1 < c then 0.0 else t, Allow(""));
    }
  }

  /** The bucket of the unswept run: drained once, and too slowly refilled to be drained again. */
  lemma {:induction false} DrainedOnce(p: Policy, t: real, n: nat)
    requires RateLimits(p) && t > BUCKET_IDLE && Accrued(t, p.ratePerSec) < Capacity(p) && n <= 2 * Whole(p)
    ensures var c := Whole(p);
            var s := AtUnswept(AutoBan.OnlyAnonymous(p), Pause(Allow(""), c, t, c), n);
            && s.policies == map[TIER_ANONYMOUS := p]
            && (n == 0 ==> "" !in s.buckets)
            && (n > 0 ==> "" in s.buckets && s.buckets[""].tier == TIER_ANONYMOUS)
            && (0 < n <= c + 1 ==> s.buckets[""].lastRefill == Some(0.0) && s.buckets[""].tokens == (c - if n > c then c else n) as real)
            && (n > c + 1 ==>
                 && s.buckets[""].lastRefill == Some(t)
                 && (s.buckets[""].tokens < 1.0 || s.buckets[""].tokens <= Accrued(t, p.ratePerSec) - (n - c - 1) as real))
  {
    var c := Whole(p);
    var run := Pause(Allow(""), c, t, c);
    if n > 0 {
      DrainedOnce(p, t, n - 1);
      assert Accrued(0.0, p.ratePerSec) == 0.0;
      assert run[n - 1] == if n - 1 == c then Event(t, Sweep) else Event(if n - 1 < c then 0.0 else t, Allow(""));
    }
  }

  /** The last call is admitted after the sweep and denied without it. */
  lemma LastCallDiffers(p: Policy, t: real)
    requires RateLimits(p) && t > BUCKET_IDLE && Accrued(t, p.ratePerSec) < Capacity(p)
    ensures var c := Whole(p);
            var run := Pause(Allow(""), c, t, c);
            AnswerAt(AutoBan.OnlyAnonymous(p), run, 2 * c) != AnswerUnswept(AutoBan.OnlyAnonymous(p), run, 2 * c)
  {
    var c := Whole(p);
    var run := Pause(Allow(""), c, t, c);
    var s, kept := At(AutoBan.OnlyAnonymous(p), run, 2 * c), AtUnswept(AutoBan.OnlyAnonymous(p), run, 2 * c);
    DrainedTwice(p, t, 2 * c);
    DrainedOnce(p, t, 2 * c);
    assert Accrued(0.0, p.ratePerSec) == 0.0;
    assert run[2 * c] == Event(t, Allow(""));
    Admission.CallStep(s, "", t);
    Admission.CallStep(kept, "", t);
  }

  lemma SlowRefillTime(p: Policy) returns (t: real)
    requires RateLimits(p) && p.ratePerSec * BUCKET_IDLE < Capacity(p)
    ensures t > BUCKET_IDLE && Accrued(t, p.ratePerSec) < Capacity(p)
  {
    var gap := Capacity(p) - p.ratePerSec * BUCKET_IDLE;
    var extra := gap / p.ratePerSec / 2.0;
    assert extra * p.ratePerSec == gap / 2.0;
    t := BUCKET_IDLE + extra;
  }

  /** A refill slower than one capacity in half an hour shows: the sweep grants a second full burst. */
  lemma SlowRefillShows(p: Policy)
    requires RateLimits(p) && p.ratePerSec * BUCKET_IDLE < Capacity(p)
    ensures !Unobservable(p)
  {
    var t := SlowRefillTime(p);
    var c := Whole(p);
    var run := Pause(Allow(""), c, t, c);
    LastCallDiffers(p, t);
    assert Concerns(run[2 * c].op, "");
  }

  /** All but one failure of a ban at 0, a sweep, and the last failure while the window still runs. */
  lemma FailureBeforePause(p: Policy, s: State, n: nat)
    requires AutoBans(p) && n + 1 < p.banThreshold && s.policies == map[TIER_ANONYMOUS := p]
    requires if n == 0 then "" !in s.buckets else "" in s.buckets && s.buckets[""] == Bucket(TIER_ANONYMOUS, 0.0, None, n, Some(0.0), 0.0)
    ensures var s' := Step(s, Event(0.0, RecordFailure(""))).0;
            && s'.policies == s.policies && "" in s'.buckets
            && s'.buckets[""] == Bucket(TIER_ANONYMOUS, 0.0, None, n + 1, Some(0.0), 0.0)
  {
  }

  lemma {:induction false} FailuresBeforePause(p: Policy, t: real, n: nat)
    requires AutoBans(p) && p.banThreshold >= 2 && n < p.banThreshold
    ensures var run := Pause(RecordFailure(""), p.banThreshold - 1, t, 1);
            var s := At(AutoBan.OnlyAnonymous(p), run, n);
            && s == AtUnswept(AutoBan.OnlyAnonymous(p), run, n)
            && s.policies == map[TIER_ANONYMOUS := p]
            && (n == 0 ==> "" !in s.buckets)
            && (n > 0 ==> "" in s.buckets && s.buckets[""] == Bucket(TIER_ANONYMOUS, 0.0, None, n, Some(0.0), 0.0))
  {
    hide Step;
    if n > 0 {
      var s0, run := AutoBan.OnlyAnonymous(p), Pause(RecordFailure(""), p.banThreshold - 1, t, 1);
      FailuresBeforePause(p, t, n - 1);
      assert run[n - 1] == Event(0.0, RecordFailure(""));
      hide Pause, AutoBan.OnlyAnonymous;
      FailureBeforePause(p, At(s0, run, n - 1), n - 1);
    }
  }

  /** The last failure trips if the window still holds the earlier ones, and not after the sweep. */
  lemma LastFailureDiffers(p: Policy, t: real)
    requires AutoBans(p) && p.banThreshold >= 2 && t > BUCKET_IDLE
    requires p.banWindowSec > 0 ==> t <= p.banWindowSec as real
    ensures var run := Pause(RecordFailure(""), p.banThreshold - 1, t, 1);
            AnswerAt(AutoBan.OnlyAnonymous(p), run, p.banThreshold) != AnswerUnswept(AutoBan.OnlyAnonymous(p), run, p.banThreshold)
  {
    var n := p.banThreshold;
    var run := Pause(RecordFailure(""), n - 1, t, 1);
    var s0 := AutoBan.OnlyAnonymous(p);
    FailuresBeforePause(p, t, n - 1);
    assert run[n - 1] == Event(t, Sweep) && run[n] == Event(t, RecordFailure(""));
    var before := At(s0, run, n - 1);
    assert "" !in Step(before, Event(t, Sweep)).0.buckets;
    AutoBan.FailureStep(Step(before, Event(t, Sweep)).0, "", t);
    AutoBan.FailureStep(before, "", t);
  }

  /** A window over half an hour, or one that never lapses, shows: the sweep forgets its failures. */
  lemma LongWindowShows(p: Policy)
    requires AutoBans(p) && p.banThreshold >= 2 && !(0.0 < p.banWindowSec as real <= BUCKET_IDLE)
    ensures !Unobservable(p)
  {
    var w := p.banWindowSec as real;
    var t := if w <= 0.0 then BUCKET_IDLE + 1.0 else (BUCKET_IDLE + w) / 2.0;
    var run := Pause(RecordFailure(""), p.banThreshold - 1, t, 1);
    LastFailureDiffers(p, t);
    assert Concerns(run[p.banThreshold].op, "");
  }

  /** Eviction cannot be observed under a fixed anonymous policy if and only if half an hour forgets it. */
  lemma EvictionExact(p: Policy)
    ensures Unobservable(p) <==> Forgettable(p)
  {
    var s0 := AutoBan.OnlyAnonymous(p);
    if Forgettable(p) {
      forall ip: string, run: seq<Event>, n: nat |
        n < |run| && Monotone(run) && Concerns(run[n].op, ip)
        && (forall k :: 0 <= k <= n ==> !run[k].op.Reload? && !PromotesFrom(run[k].op, ip))
        ensures AnswerAt(s0, run, n) == AnswerUnswept(s0, run, n)
      {
        EvictionUnobservable(s0, run, ip, n);
      }
    } else if RateLimits(p) && p.ratePerSec * BUCKET_IDLE < Capacity(p) {
      SlowRefillShows(p);
    } else {
      LongWindowShows(p);
    }
  }
}
