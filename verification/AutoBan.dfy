/**
 What the failure window guarantees. It is one window that restarts at the first failure after it
 lapses, so a trip is always backed by enough recent failures, while a full sliding window of them
 is only sure to hold a trip from `max(T, 2T - 2)` failures on, and that bound is tight.
 */
module AutoBan {
  import opened Prelude
  import opened Throttle

  predicate IsFailure(run: seq<Event>, ip: string, k: nat)
    requires k < |run|
  {
    run[k].op == RecordFailure(ip)
  }

  /** How many failures of `ip` among events `lo..hi` fall into the closed time interval `from..to`. */
  function Failures(run: seq<Event>, ip: string, lo: nat, hi: nat, from: real, to: real): nat
    requires lo <= hi <= |run|
    decreases hi
  {
    if lo == hi then 0
    else
      Failures(run, ip, lo, hi - 1, from, to)
      + (if IsFailure(run, ip, hi - 1) && from <= run[hi - 1].now <= to then 1 else 0)
  }

  predicate Trips(s0: State, run: seq<Event>, ip: string, k: nat)
    requires k < |run|
  {
    IsFailure(run, ip, k) && AnswerAt(s0, run, k) == Recorded(true)
  }

  /** The first event after the last trip of `ip` before event `n`. */
  function SinceTrip(s0: State, run: seq<Event>, ip: string, n: nat): (m: nat)
    requires n <= |run|
    ensures m <= n
  {
    if n == 0 then 0
    else if Trips(s0, run, ip, n - 1) then n
    else SinceTrip(s0, run, ip, n - 1)
  }

  /** The failure part of an IP's bucket; a missing bucket has counted nothing. */
  function Window(s: State, ip: string): (int, Option<real>) {
    if ip in s.buckets then (s.buckets[ip].failCount, s.buckets[ip].windowStart) else (0, None)
  }

  predicate BanWatched(s: State, ip: string) {
    Governing(s, ip).Some? && AutoBans(Governing(s, ip).value)
  }

  /** One counted failure in terms of the window it sees. */
  lemma FailureStep(s: State, ip: string, now: real)
    requires BanWatched(s, ip)
    ensures var p := Governing(s, ip).value;
            var (count, start) := Window(s, ip);
            var lapsed := start.None? || (p.banWindowSec > 0 && now - start.value > p.banWindowSec as real);
            var count' := if lapsed then 1 else count + 1;
            var (s', answer) := Step(s, Event(now, RecordFailure(ip)));
            && answer == Recorded(count' >= p.banThreshold)
            && Window(s', ip) == if count' >= p.banThreshold then (0, None) else (count', if lapsed then Some(now) else start)
  {
    var b := BucketOf(s, ip, now);
    assert Governing(s, ip) == Lookup(s.policies, b.tier);
  }

  /** An operation that counts no failure of `ip` leaves its window alone, or evicts it. */
  lemma NoFailureStep(s: State, e: Event, ip: string)
    requires e.op == RecordFailure(ip) ==> !BanWatched(s, ip)
    ensures Window(Step(s, e).0, ip) == Window(s, ip)
         || (e.op.Sweep? && Window(Step(s, e).0, ip) == (0, None))
    ensures ip in s.buckets ==> ip in Step(s, e).0.buckets || e.op.Sweep?
    ensures e.op == RecordFailure(ip) ==> Step(s, e).1 == Recorded(false)
  {
  }

  // ---- soundness --------------------------------------------------------------------

  lemma {:induction false} FailuresSince(run: seq<Event>, ip: string, lo: nat, hi: nat, from: real, from': real, to: real)
    requires lo <= hi <= |run| && from' <= from
    ensures Failures(run, ip, lo, hi, from, to) <= Failures(run, ip, lo, hi, from', to)
    decreases hi
  {
    if lo < hi {
      FailuresSince(run, ip, lo, hi - 1, from, from', to);
    }
  }

  /** The failures counted since the window opened really were recorded, after the last trip. */
  ghost predicate CountIsBacked(s0: State, run: seq<Event>, ip: string, n: nat, to: real)
    requires n <= |run|
  {
    var (count, start) := Window(At(s0, run, n), ip);
    match start
    case None => count == 0
    case Some(w) =>
      && count <= Failures(run, ip, SinceTrip(s0, run, ip, n), n, w, to)
      && n > 0 && w <= run[n - 1].now
  }

  lemma BackedStep(s0: State, run: seq<Event>, ip: string, n: nat, to: real)
    requires n < |run| && Monotone(run) && run[n].now <= to
    requires CountIsBacked(s0, run, ip, n, to)
    ensures CountIsBacked(s0, run, ip, n + 1, to)
  {
    var s := At(s0, run, n);
    if IsFailure(run, ip, n) && BanWatched(s, ip) {
      FailureStep(s, ip, run[n].now);
      assert run[n] == Event(run[n].now, RecordFailure(ip));
      assert Failures(run, ip, n, n, run[n].now, to) == 0;
    } else {
      NoFailureStep(s, run[n], ip);
    }
  }

  lemma {:induction false} CountStaysBacked(s0: State, run: seq<Event>, ip: string, n: nat, to: real)
    requires n <= |run| && Monotone(run) && ip !in s0.buckets
    requires forall k :: 0 <= k < n ==> run[k].now <= to
    ensures CountIsBacked(s0, run, ip, n, to)
  {
    if n > 0 {
      CountStaysBacked(s0, run, ip, n - 1, to);
      BackedStep(s0, run, ip, n - 1, to);
    }
  }

  /**
   A trip at time `t` under a policy with window `W > 0` is backed by at least the threshold's number
   of failures recorded in `[t - W, t]` since the previous trip, whatever tiers and policies were in
   force before and whatever was swept.
   */
  lemma {:induction false} BanSoundness(s0: State, run: seq<Event>, ip: string, n: nat)
    requires n < |run| && Monotone(run) && ip !in s0.buckets
    requires Trips(s0, run, ip, n)
    ensures BanWatched(At(s0, run, n), ip)
    ensures var p := Governing(At(s0, run, n), ip).value;
            var t := run[n].now;
            p.banWindowSec > 0 ==>
              Failures(run, ip, SinceTrip(s0, run, ip, n), n + 1, t - p.banWindowSec as real, t) >= p.banThreshold
  {
    hide At, SinceTrip;
    var s := At(s0, run, n);
    var t := run[n].now;
    if !BanWatched(s, ip) {
      NoFailureStep(s, run[n], ip);
    } else {
      var p := Governing(s, ip).value;
      var (_, start) := Window(s, ip);
      CountStaysBacked(s0, run, ip, n, t);
      FailureStep(s, ip, t);
      assert run[n] == Event(t, RecordFailure(ip));
      if p.banWindowSec > 0 && start.Some? && t - start.value <= p.banWindowSec as real {
        FailuresSince(run, ip, SinceTrip(s0, run, ip, n), n, start.value, t - p.banWindowSec as real, t);
      }
    }
  }

  // ---- completeness -----------------------------------------------------------------

  /** Every failure of `ip` in `lo..hi` meets an auto-ban policy with this threshold and window. */
  ghost predicate OneBanPolicy(s0: State, run: seq<Event>, ip: string, threshold: int, window: int, lo: nat, hi: nat)
    requires lo <= hi <= |run|
  {
    forall k :: lo <= k < hi && IsFailure(run, ip, k) ==>
      var s := At(s0, run, k);
      BanWatched(s, ip) && Governing(s, ip).value.banThreshold == threshold && Governing(s, ip).value.banWindowSec == window
  }

  /** Every failure of `ip` in `lo..hi` happens in the closed time interval `a..a + window`. */
  ghost predicate AllWithin(run: seq<Event>, ip: string, lo: nat, hi: nat, a: real, window: int)
    requires lo <= hi <= |run|
  {
    forall k :: lo <= k < hi && IsFailure(run, ip, k) ==> a <= run[k].now <= a + window as real
  }

  ghost predicate NoTrip(s0: State, run: seq<Event>, ip: string, lo: nat, hi: nat)
    requires lo <= hi <= |run|
  {
    forall k :: lo <= k < hi ==> !Trips(s0, run, ip, k)
  }

  /**
   While nothing trips, `m` failures within one window length are either all counted on top of an
   older window's, or a window opened among them and missed at most `threshold - 2` of them.
   */
  ghost predicate CountKeepsUp(s: State, ip: string, threshold: int, m: nat, a: real) {
    var (count, start) := Window(s, ip);
    && (start.None? ==> count == 0) && (start.Some? ==> count >= 1)
    && (m > 0 ==>
          && start.Some? && count < threshold
          && (m + 1 <= count || (start.value >= a && (m <= count || m <= count + threshold - 2))))
  }

  /** One more failure within the interval, if it does not trip. */
  lemma KeepsUpFailure(s: State, ip: string, m: nat, a: real, now: real)
    requires BanWatched(s, ip) && Governing(s, ip).value.banWindowSec > 0
    requires a <= now <= a + Governing(s, ip).value.banWindowSec as real
    requires CountKeepsUp(s, ip, Governing(s, ip).value.banThreshold, m, a)
    requires Step(s, Event(now, RecordFailure(ip))).1 == Recorded(false)
    ensures CountKeepsUp(Step(s, Event(now, RecordFailure(ip))).0, ip, Governing(s, ip).value.banThreshold, m + 1, a)
  {
    FailureStep(s, ip, now);
    hide Step, BanWatched, Governing;
  }

  lemma KeepsUpStep(s0: State, run: seq<Event>, ip: string, threshold: int, window: int, lo: nat, n: nat, a: real)
    requires lo <= n < |run| && threshold >= 1 && window > 0
    requires Keeps(s0, run, ip, n)
    requires OneBanPolicy(s0, run, ip, threshold, window, n, n + 1) && AllWithin(run, ip, n, n + 1, a, window)
    requires !Trips(s0, run, ip, n)
    requires CountKeepsUp(At(s0, run, n), ip, threshold, Failures(run, ip, lo, n, a, a + window as real), a)
    ensures CountKeepsUp(At(s0, run, n + 1), ip, threshold, Failures(run, ip, lo, n + 1, a, a + window as real), a)
  {
    var s := At(s0, run, n);
    if IsFailure(run, ip, n) {
      FailureStep(s, ip, run[n].now);
      assert run[n] == Event(run[n].now, RecordFailure(ip));
      KeepsUpFailure(s, ip, Failures(run, ip, lo, n, a, a + window as real), a, run[n].now);
    } else {
      NoFailureStep(s, run[n], ip);
      if ip !in s.buckets {
        assert Window(s, ip) == (0, None);
      }
    }
  }

  lemma {:induction false} KeepsUp(s0: State, run: seq<Event>, ip: string, threshold: int, window: int, lo: nat, n: nat, a: real)
    requires lo <= n <= |run| && threshold >= 1 && window > 0 && 0 < |run|
    requires Monotone(run) && Sound(s0, run[0].now)
    requires Unswept(s0, run, ip, lo, n) && NoTrip(s0, run, ip, lo, n)
    requires OneBanPolicy(s0, run, ip, threshold, window, lo, n) && AllWithin(run, ip, lo, n, a, window)
    ensures CountKeepsUp(At(s0, run, n), ip, threshold, Failures(run, ip, lo, n, a, a + window as real), a)
    decreases n
  {
    if n == lo {
      if lo < |run| {
        RunKeepsSound(s0, run, lo);
      } else {
        RunKeepsSound(s0, run, lo - 1);
        StepKeepsSound(At(s0, run, lo - 1), run[lo - 1], run[lo - 1].now);
      }
    } else {
      KeepsUp(s0, run, ip, threshold, window, lo, n - 1, a);
      assert Keeps(s0, run, ip, n - 1);
      KeepsUpStep(s0, run, ip, threshold, window, lo, n - 1, a);
    }
  }

  function Max(a: int, b: int): int {
    if a > b then a else b
  }

  /** In a stretch of events whose failures all lie in the interval. */
  lemma {:induction false} StretchHoldsTrip(s0: State, run: seq<Event>, ip: string, threshold: int, window: int, lo: nat, hi: nat, a: real)
    requires lo <= hi <= |run| && threshold >= 1 && window > 0 && 0 < |run|
    requires Monotone(run) && Sound(s0, run[0].now) && Unswept(s0, run, ip, lo, hi)
    requires OneBanPolicy(s0, run, ip, threshold, window, lo, hi) && AllWithin(run, ip, lo, hi, a, window)
    requires Failures(run, ip, lo, hi, a, a + window as real) >= Max(threshold, 2 * threshold - 2)
    ensures exists k :: lo <= k < hi && Trips(s0, run, ip, k)
  {
    if NoTrip(s0, run, ip, lo, hi) {
      KeepsUp(s0, run, ip, threshold, window, lo, hi, a);
      assert false;
    }
  }

  /** The events before `lo` are too early for the interval, those from `hi` on too late. */
  ghost predicate Brackets(run: seq<Event>, lo: nat, hi: nat, from: real, to: real) {
    && lo <= hi <= |run|
    && (forall k :: 0 <= k < lo ==> run[k].now < from)
    && (forall k :: lo <= k < hi ==> from <= run[k].now <= to)
    && (forall k :: hi <= k < |run| ==> run[k].now > to)
  }

  /** On a clock that never runs back, the events of an interval are one stretch of the run. */
  lemma IntervalIsStretch(run: seq<Event>, from: real, to: real) returns (lo: nat, hi: nat)
    requires Monotone(run) && from <= to
    ensures Brackets(run, lo, hi, from, to)
  {
    lo := 0;
    while lo < |run| && run[lo].now < from
      invariant lo <= |run|
      invariant forall k :: 0 <= k < lo ==> run[k].now < from
    {
      lo := lo + 1;
    }
    hi := lo;
    while hi < |run| && run[hi].now <= to
      invariant lo <= hi <= |run|
      invariant forall k :: lo <= k < hi ==> from <= run[k].now <= to
    {
      hi := hi + 1;
    }
  }

  lemma {:induction false} FailuresInStretch(run: seq<Event>, ip: string, lo: nat, hi: nat, n: nat, from: real, to: real)
    requires Brackets(run, lo, hi, from, to) && n <= |run|
    ensures Failures(run, ip, 0, n, from, to)
         == if n <= lo then 0 else if n <= hi then Failures(run, ip, lo, n, from, to) else Failures(run, ip, lo, hi, from, to)
  {
    if n > 0 {
      FailuresInStretch(run, ip, lo, hi, n - 1, from, to);
    }
  }

  lemma {:induction false} FailuresAreInside(run: seq<Event>, ip: string, lo: nat, hi: nat, from: real, to: real)
    requires Brackets(run, lo, hi, from, to)
    ensures Failures(run, ip, 0, |run|, from, to) == Failures(run, ip, lo, hi, from, to)
  {
    FailuresInStretch(run, ip, lo, hi, |run|, from, to);
  }

  /**
   Inside the interval, nothing evicts the bucket and every failure meets an auto-ban policy with this
   threshold and window; what happens before and after does not matter.
   */
  ghost predicate Steady(s0: State, run: seq<Event>, ip: string, threshold: int, window: int, a: real) {
    forall k: nat :: k < |run| && a <= run[k].now <= a + window as real ==>
      && Keeps(s0, run, ip, k)
      && (IsFailure(run, ip, k) ==>
            var s := At(s0, run, k);
            BanWatched(s, ip) && Governing(s, ip).value.banThreshold == threshold && Governing(s, ip).value.banWindowSec == window)
  }

  lemma StretchIsSteady(s0: State, run: seq<Event>, ip: string, threshold: int, window: int, lo: nat, hi: nat, a: real)
    requires Brackets(run, lo, hi, a, a + window as real) && Steady(s0, run, ip, threshold, window, a)
    ensures Unswept(s0, run, ip, lo, hi) && OneBanPolicy(s0, run, ip, threshold, window, lo, hi) && AllWithin(run, ip, lo, hi, a, window)
  {
    hide At, Keeps, IsFailure, BanWatched, Governing;
  }

  /**
   Any closed time interval of length `W` that holds at least `max(T, 2T - 2)` recorded failures contains a
   trip, if inside it the bucket is not swept and the policies met have threshold `T` and window `W`.
   */
  lemma {:induction false} BanCompleteness(s0: State, run: seq<Event>, ip: string, threshold: int, window: int, a: real)
    requires threshold >= 1 && window > 0 && 0 < |run|
    requires Monotone(run) && Sound(s0, run[0].now) && Steady(s0, run, ip, threshold, window, a)
    requires Failures(run, ip, 0, |run|, a, a + window as real) >= Max(threshold, 2 * threshold - 2)
    ensures exists k :: 0 <= k < |run| && a <= run[k].now <= a + window as real && Trips(s0, run, ip, k)
  {
    hide *;
    var lo, hi := IntervalIsStretch(run, a, a + window as real);
    FailuresAreInside(run, ip, lo, hi, a, a + window as real);
    BracketIsRange(run, lo, hi, a, a + window as real);
    StretchIsSteady(s0, run, ip, threshold, window, lo, hi, a);
    StretchHoldsTrip(s0, run, ip, threshold, window, lo, hi, a);
    var k :| lo <= k < hi && Trips(s0, run, ip, k);
    InsideBracket(run, lo, hi, a, a + window as real, k);
  }

  lemma BracketIsRange(run: seq<Event>, lo: nat, hi: nat, from: real, to: real)
    requires Brackets(run, lo, hi, from, to)
    ensures lo <= hi <= |run|
  {
  }

  lemma InsideBracket(run: seq<Event>, lo: nat, hi: nat, from: real, to: real, k: nat)
    requires Brackets(run, lo, hi, from, to) && lo <= k < hi
    ensures k < |run| && from <= run[k].now <= to
  {
  }

  /** A run and an interval of one window in it that the documented rule speaks of: it holds `T` failures. */
  ghost predicate HoldsThreshold(s0: State, run: seq<Event>, ip: string, threshold: int, window: int, a: real) {
    && 0 < |run| && Monotone(run) && Sound(s0, run[0].now) && Steady(s0, run, ip, threshold, window, a)
    && Failures(run, ip, 0, |run|, a, a + window as real) >= threshold
  }

  /** The documented rule: `T` failures within a sliding window of length `W` trip. */
  ghost predicate WindowSlides(threshold: int, window: int) {
    forall s0: State, run: seq<Event>, ip: string, a: real :: HoldsThreshold(s0, run, ip, threshold, window, a) ==>
      exists k :: 0 <= k < |run| && a <= run[k].now <= a + window as real && Trips(s0, run, ip, k)
  }

  // ---- tightness ----------------------------------------------------------------------

  function BanOnly(threshold: int, window: int): Policy {
    Policy(false, 0.0, 0, true, threshold, window, 0)
  }

  function OnlyAnonymous(p: Policy): State {
    State(map[], map[TIER_ANONYMOUS := p], map[], map[])
  }

  /** One failure at 0, `T - 2` at `W`, and `T - 1` at `2W`. */
  function SlowFailures(ip: string, threshold: nat, window: nat): (run: seq<Event>)
    requires threshold >= 3
    ensures |run| == 2 * threshold - 2
  {
    seq(2 * threshold - 2, (k: nat) =>
      Event(if k == 0 then 0.0 else if k < threshold - 1 then window as real else (2 * window) as real, RecordFailure(ip)))
  }

  lemma UntrippedStep(s: State, ip: string, now: real)
    requires Step(s, Event(now, RecordFailure(ip))).1 == Recorded(false)
    ensures var s' := Step(s, Event(now, RecordFailure(ip))).0;
            && s'.policies == s.policies && s'.banned == s.banned
            && ip in s'.buckets && s'.buckets[ip].tier == BucketOf(s, ip, now).tier
  {
  }

  ghost predicate FailedFor(s: State, ip: string, threshold: nat, window: nat, n: nat) {
    && s.policies == map[TIER_ANONYMOUS := BanOnly(threshold, window)]
    && (ip in s.buckets ==> s.buckets[ip].tier == TIER_ANONYMOUS)
    && s.banned == map[]
    && Window(s, ip) ==
       if n == 0 then (0, None)
       else if n <= threshold - 1 then (n, Some(0.0))
       else (n - (threshold - 1), Some((2 * window) as real))
  }

  lemma SlowFailureStep(s: State, ip: string, threshold: nat, window: nat, n: nat)
    requires threshold >= 3 && window > 0 && n < 2 * threshold - 2
    requires FailedFor(s, ip, threshold, window, n)
    ensures var (s', answer) := Step(s, SlowFailures(ip, threshold, window)[n]);
            answer == Recorded(false) && FailedFor(s', ip, threshold, window, n + 1)
  {
    var e := SlowFailures(ip, threshold, window)[n];
    assert e == Event(e.now, RecordFailure(ip));
    assert Governing(s, ip) == Some(BanOnly(threshold, window));
    FailureStep(s, ip, e.now);
    UntrippedStep(s, ip, e.now);
  }

  lemma {:induction false} SlowFailuresState(ip: string, threshold: nat, window: nat, n: nat)
    requires threshold >= 3 && window > 0 && n <= 2 * threshold - 2
    ensures FailedFor(At(OnlyAnonymous(BanOnly(threshold, window)), SlowFailures(ip, threshold, window), n), ip, threshold, window, n)
  {
    if n > 0 {
      SlowFailuresState(ip, threshold, window, n - 1);
      SlowFailureStep(At(OnlyAnonymous(BanOnly(threshold, window)), SlowFailures(ip, threshold, window), n - 1), ip, threshold, window, n - 1);
    }
  }

  lemma {:induction false} SlowFailuresCount(ip: string, threshold: nat, window: nat, n: nat)
    requires threshold >= 3 && window > 0 && 1 <= n <= 2 * threshold - 2
    ensures Failures(SlowFailures(ip, threshold, window), ip, 0, n, window as real, (2 * window) as real) == n - 1
  {
    if n > 1 {
      SlowFailuresCount(ip, threshold, window, n - 1);
    } else {
      assert Failures(SlowFailures(ip, threshold, window), ip, 0, 0, window as real, (2 * window) as real) == 0;
    }
  }

  /**
   The bound is tight: for every threshold `T >= 3` and window `W` some run records `2T - 3` failures in
   a closed interval of length `W` and bans nobody.
   */
  lemma {:induction false} BanBoundIsTight(ip: string, threshold: nat, window: nat)
    requires threshold >= 3 && window > 0
    ensures var s0, run := OnlyAnonymous(BanOnly(threshold, window)), SlowFailures(ip, threshold, window);
            && Monotone(run)
            && Failures(run, ip, 0, |run|, window as real, (2 * window) as real) == 2 * threshold - 3
            && NoTrip(s0, run, ip, 0, |run|)
            && At(s0, run, |run|).banned == map[]
  {
    var s0, run := OnlyAnonymous(BanOnly(threshold, window)), SlowFailures(ip, threshold, window);
    SlowFailuresCount(ip, threshold, window, |run|);
    forall k | 0 <= k < |run|
      ensures !Trips(s0, run, ip, k)
    {
      SlowFailuresState(ip, threshold, window, k);
      SlowFailureStep(At(s0, run, k), ip, threshold, window, k);
    }
    SlowFailuresState(ip, threshold, window, |run|);
  }

  lemma {:induction false} SlowFailuresAreSteady(ip: string, threshold: nat, window: nat)
    requires threshold >= 3 && window > 0
    ensures HoldsThreshold(OnlyAnonymous(BanOnly(threshold, window)), SlowFailures(ip, threshold, window), ip, threshold, window, window as real)
  {
    var s0, run := OnlyAnonymous(BanOnly(threshold, window)), SlowFailures(ip, threshold, window);
    SlowFailuresCount(ip, threshold, window, |run|);
    assert (2 * window) as real == window as real + window as real;
    forall k: nat | k < |run|
      ensures Keeps(s0, run, ip, k) && BanWatched(At(s0, run, k), ip)
      ensures Governing(At(s0, run, k), ip) == Some(BanOnly(threshold, window))
    {
      SlowFailuresState(ip, threshold, window, k);
      SlowFailureStep(At(s0, run, k), ip, threshold, window, k);
      UntrippedStep(At(s0, run, k), ip, run[k].now);
    }
    hide At, Keeps, BanWatched, Governing, Failures, SlowFailures;
  }

  /** The window slides as documented if and only if the threshold is one or two. */
  lemma {:induction false} WindowSlidesExactly(threshold: int, window: int)
    requires threshold >= 1 && window > 0
    ensures WindowSlides(threshold, window) <==> threshold <= 2
  {
    if threshold <= 2 {
      forall s0: State, run: seq<Event>, ip: string, a: real | HoldsThreshold(s0, run, ip, threshold, window, a)
        ensures exists k :: 0 <= k < |run| && a <= run[k].now <= a + window as real && Trips(s0, run, ip, k)
      {
        BanCompleteness(s0, run, ip, threshold, window, a);
      }
    } else {
      var s0, run := OnlyAnonymous(BanOnly(threshold, window)), SlowFailures("", threshold, window);
      BanBoundIsTight("", threshold, window);
      SlowFailuresAreSteady("", threshold, window);
      hide HoldsThreshold, Trips, SlowFailures, At;
      assert HoldsThreshold(s0, run, "", threshold, window, window as real);
    }
  }
}
