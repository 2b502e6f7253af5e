/**
 What the lazily refilled, clamped token bucket guarantees over whole runs: exactly which calls it
 admits, a rate bound that survives policy changes, and what Retry-After promises.
 */
module Admission {
  import opened Prelude
  import opened Throttle

  predicate IsCall(run: seq<Event>, ip: string, k: nat)
    requires k < |run|
  {
    run[k].op == Allow(ip)
  }

  predicate Admits(s0: State, run: seq<Event>, ip: string, k: nat)
    requires k < |run|
  {
    IsCall(run, ip, k) && AnswerAt(s0, run, k) == Verdict(true, 0)
  }

  /** How many calls of `ip` among events `i..j` were admitted. */
  function Admitted(s0: State, run: seq<Event>, ip: string, i: nat, j: nat): nat
    requires i <= j <= |run|
    decreases j
  {
    if i == j then 0
    else Admitted(s0, run, ip, i, j - 1) + (if Admits(s0, run, ip, j - 1) then 1 else 0)
  }

  /** The governing policy rate-limits this IP. */
  predicate Limited(s: State, ip: string) {
    Governing(s, ip).Some? && RateLimits(Governing(s, ip).value)
  }

  /** Every call of `ip` in `lo..hi` meets a rate-limiting policy of rate `r` and capacity `cap`. */
  ghost predicate OnePolicy(s0: State, run: seq<Event>, ip: string, r: real, cap: real, lo: nat, hi: nat)
    requires lo <= hi <= |run|
  {
    forall k :: lo <= k < hi && IsCall(run, ip, k) ==>
      var s := At(s0, run, k);
      Limited(s, ip) && Governing(s, ip).value.ratePerSec == r && Capacity(Governing(s, ip).value) == cap
  }

  /** The token part of an IP's bucket; a missing bucket is an unfilled one. */
  function Fill(s: State, ip: string): (real, Option<real>) {
    if ip in s.buckets then (s.buckets[ip].tokens, s.buckets[ip].lastRefill) else (0.0, None)
  }

  /** What a call sees: the refilled count, before a token is taken. */
  function Level(s: State, ip: string, now: real): real
    requires Limited(s, ip)
  {
    Refilled(BucketOf(s, ip, now), Governing(s, ip).value, now)
  }

  /** One rate-limited call in terms of the level it sees. */
  lemma CallStep(s: State, ip: string, now: real)
    requires Limited(s, ip)
    ensures var (s', answer) := Step(s, Event(now, Allow(ip)));
            var level := Level(s, ip, now);
            && (answer == Verdict(true, 0) <==> level >= 1.0)
            && answer == (if level >= 1.0 then Verdict(true, 0) else Verdict(false, RetryAfter(level, Governing(s, ip).value.ratePerSec)))
            && Fill(s', ip) == (if level >= 1.0 then level - 1.0 else level, Some(now))
  {
    var b := BucketOf(s, ip, now);
    assert Governing(s, ip) == Lookup(s.policies, b.tier);
  }

  /** Nothing but a call of this IP, or its eviction, touches the token part. */
  lemma OtherStep(s: State, e: Event, ip: string)
    requires e.op != Allow(ip)
    requires ip in s.buckets ==> ip in Step(s, e).0.buckets
    ensures Fill(Step(s, e).0, ip) == Fill(s, ip)
  {
  }

  // ---- the exact admission law ------------------------------------------------

  /** What call `i` still allows at time `t`, after the calls admitted in `i..n`. */
  function Slack(s0: State, run: seq<Event>, ip: string, r: real, cap: real, i: nat, n: nat, t: real): real
    requires i < |run| && i <= n <= |run|
  {
    cap + Accrued(t - run[i].now, r) - Admitted(s0, run, ip, i, n) as real
  }

  /** `x` is the least slack of the calls before event `n`, seen at time `t`. */
  ghost predicate LeastSlack(s0: State, run: seq<Event>, ip: string, r: real, cap: real, n: nat, t: real, x: real)
    requires n <= |run|
  {
    && (forall i :: 0 <= i < n && IsCall(run, ip, i) ==> x <= Slack(s0, run, ip, r, cap, i, n, t))
    && (exists i :: 0 <= i < n && IsCall(run, ip, i) && x == Slack(s0, run, ip, r, cap, i, n, t))
  }

  ghost predicate CounterIsLeast(s0: State, run: seq<Event>, ip: string, r: real, cap: real, n: nat)
    requires n <= |run|
  {
    var (tokens, last) := Fill(At(s0, run, n), ip);
    match last
    case None => forall i :: 0 <= i < n ==> !IsCall(run, ip, i)
    case Some(t) =>
      && LeastSlack(s0, run, ip, r, cap, n, t, tokens)
      && n > 0 && t <= run[n - 1].now
  }

  /** Refilling moves the least slack along with the clock, and the clamp adds the present call. */
  lemma {:induction false} RefillIsLeast(s0: State, run: seq<Event>, ip: string, r: real, cap: real, j: nat)
    requires j < |run| && r > 0.0 && Monotone(run)
    requires CounterIsLeast(s0, run, ip, r, cap, j)
    requires OnePolicy(s0, run, ip, r, cap, j, j + 1) && IsCall(run, ip, j)
    ensures var level := Level(At(s0, run, j), ip, run[j].now);
            && level <= cap
            && (forall i :: 0 <= i < j && IsCall(run, ip, i) ==> level <= Slack(s0, run, ip, r, cap, i, j, run[j].now))
            && (level == cap || exists i :: 0 <= i < j && IsCall(run, ip, i) && level == Slack(s0, run, ip, r, cap, i, j, run[j].now))
  {
    var s := At(s0, run, j);
    var (tokens, last) := Fill(s, ip);
    var now := run[j].now;
    if last.Some? {
      var t := last.value;
      forall i | 0 <= i < j && IsCall(run, ip, i)
        ensures Slack(s0, run, ip, r, cap, i, j, now) == Slack(s0, run, ip, r, cap, i, j, t) + Accrued(now - t, r)
      {
        AccruedAdds(t - run[i].now, now - t, r);
        assert (t - run[i].now) + (now - t) == now - run[i].now;
      }
    }
  }

  /** After a call its own slack joins the minimum and every slack drops by what was taken. */
  lemma CallKeepsLeast(s0: State, run: seq<Event>, ip: string, r: real, cap: real, j: nat)
    requires j < |run| && r > 0.0 && cap >= 1.0 && Monotone(run)
    requires CounterIsLeast(s0, run, ip, r, cap, j)
    requires OnePolicy(s0, run, ip, r, cap, j, j + 1) && IsCall(run, ip, j)
    ensures CounterIsLeast(s0, run, ip, r, cap, j + 1)
  {
    var s := At(s0, run, j);
    var now := run[j].now;
    var level := Level(s, ip, now);
    RefillIsLeast(s0, run, ip, r, cap, j);
    CallStep(s, ip, now);
    assert run[j] == Event(now, Allow(ip));
    var taken := if level >= 1.0 then 1.0 else 0.0;
    assert forall i | 0 <= i <= j ::
      Slack(s0, run, ip, r, cap, i, j + 1, now) == Slack(s0, run, ip, r, cap, i, j, now) - taken;
    assert Accrued(0.0, r) == 0.0;
    assert Slack(s0, run, ip, r, cap, j, j, now) == cap;
    if level == cap {
      assert level - taken == Slack(s0, run, ip, r, cap, j, j + 1, now);
    }
  }

  lemma OtherKeepsLeast(s0: State, run: seq<Event>, ip: string, r: real, cap: real, j: nat)
    requires j < |run| && Monotone(run)
    requires CounterIsLeast(s0, run, ip, r, cap, j)
    requires !IsCall(run, ip, j) && Unswept(s0, run, ip, j, j + 1)
    ensures CounterIsLeast(s0, run, ip, r, cap, j + 1)
  {
    assert Keeps(s0, run, ip, j);
    OtherStep(At(s0, run, j), run[j], ip);
    var (tokens, last) := Fill(At(s0, run, j), ip);
    if last.Some? {
      var t := last.value;
      assert forall i | 0 <= i < j ::
        Slack(s0, run, ip, r, cap, i, j + 1, t) == Slack(s0, run, ip, r, cap, i, j, t);
    }
  }

  lemma {:induction false} CounterStarts(s0: State, run: seq<Event>, ip: string, r: real, cap: real)
    requires ip !in s0.buckets
    ensures CounterIsLeast(s0, run, ip, r, cap, 0)
  {
  }

  lemma {:induction false} CounterStaysLeast(s0: State, run: seq<Event>, ip: string, r: real, cap: real, n: nat)
    requires n <= |run| && r > 0.0 && cap >= 1.0 && Monotone(run)
    requires ip !in s0.buckets && Unswept(s0, run, ip, 0, n)
    requires OnePolicy(s0, run, ip, r, cap, 0, n)
    ensures CounterIsLeast(s0, run, ip, r, cap, n)
  {
    hide At, Governing, Limited, Fill, CounterIsLeast, Keeps, Monotone;
    if n == 0 {
      CounterStarts(s0, run, ip, r, cap);
    } else {
      CounterStaysLeast(s0, run, ip, r, cap, n - 1);
      if IsCall(run, ip, n - 1) {
        CallKeepsLeast(s0, run, ip, r, cap, n - 1);
      } else {
        OtherKeepsLeast(s0, run, ip, r, cap, n - 1);
      }
    }
  }

  /**
   The clamped, lazily refilled counter that call `j` works with equals the least slack of the whole
   history: the minimum over calls `i <= j` of `cap + r * (t_j - t_i)` less the calls admitted since.
   */
  lemma {:induction false} LevelIsLeastSlack(s0: State, run: seq<Event>, ip: string, r: real, cap: real, j: nat)
    requires j < |run| && r > 0.0 && cap >= 1.0 && Monotone(run)
    requires ip !in s0.buckets && Unswept(s0, run, ip, 0, j)
    requires OnePolicy(s0, run, ip, r, cap, 0, j + 1) && IsCall(run, ip, j)
    ensures var level := Level(At(s0, run, j), ip, run[j].now);
            && (forall i :: 0 <= i <= j && IsCall(run, ip, i) ==> level <= Slack(s0, run, ip, r, cap, i, j, run[j].now))
            && (exists i :: 0 <= i <= j && IsCall(run, ip, i) && level == Slack(s0, run, ip, r, cap, i, j, run[j].now))
  {
    hide At, Level, Governing, CounterIsLeast;
    CounterStaysLeast(s0, run, ip, r, cap, j);
    RefillIsLeast(s0, run, ip, r, cap, j);
    assert Accrued(0.0, r) == 0.0;
    assert Slack(s0, run, ip, r, cap, j, j, run[j].now) == cap;
    var level := Level(At(s0, run, j), ip, run[j].now);
    if level != cap {
      var i :| 0 <= i < j && IsCall(run, ip, i) && level == Slack(s0, run, ip, r, cap, i, j, run[j].now);
    }
  }

  /**
   Call `j` is admitted exactly when, for every call `i` up to it, the calls admitted from `i` on,
   with this one, fit into `cap + r * (t_j - t_i)`.
   */
  lemma {:induction false} AdmissionLaw(s0: State, run: seq<Event>, ip: string, r: real, cap: real, j: nat)
    requires j < |run| && r > 0.0 && cap >= 1.0 && Monotone(run)
    requires ip !in s0.buckets && Unswept(s0, run, ip, 0, j)
    requires OnePolicy(s0, run, ip, r, cap, 0, j + 1) && IsCall(run, ip, j)
    ensures Admits(s0, run, ip, j) <==>
            forall i :: 0 <= i <= j && IsCall(run, ip, i) ==>
              Admitted(s0, run, ip, i, j) as real + 1.0 <= cap + (run[j].now - run[i].now) * r
  {
    var level := Level(At(s0, run, j), ip, run[j].now);
    LevelIsLeastSlack(s0, run, ip, r, cap, j);
    CallStep(At(s0, run, j), ip, run[j].now);
    forall i | 0 <= i <= j && IsCall(run, ip, i)
      ensures Slack(s0, run, ip, r, cap, i, j, run[j].now)
           == cap + (run[j].now - run[i].now) * r - Admitted(s0, run, ip, i, j) as real
    {
      assert Accrued(run[j].now - run[i].now, r) == (run[j].now - run[i].now) * r;
    }
    assert run[j] == Event(run[j].now, Allow(ip));
  }

  // ---- the rate bound through policy changes ------------------------------------

  /** Every call of `ip` in `lo..hi` meets some rate-limiting policy of rate at most `r` and capacity at most `cap`. */
  ghost predicate BoundedPolicies(s0: State, run: seq<Event>, ip: string, r: real, cap: real, lo: nat, hi: nat)
    requires lo <= hi <= |run|
  {
    forall k :: lo <= k < hi && IsCall(run, ip, k) ==>
      var s := At(s0, run, k);
      Limited(s, ip) && Governing(s, ip).value.ratePerSec <= r && Capacity(Governing(s, ip).value) <= cap
  }

  /** From call `i` on, tokens left and calls admitted never exceed `cap` plus what rate `r` accrues. */
  ghost predicate Budget(s0: State, run: seq<Event>, ip: string, r: real, cap: real, i: nat, n: nat)
    requires i < n <= |run|
  {
    var (tokens, last) := Fill(At(s0, run, n), ip);
    && last.Some? && run[i].now <= last.value <= run[n - 1].now
    && 0.0 <= tokens
    && Admitted(s0, run, ip, i, n) as real + tokens <= cap + Accrued(last.value - run[i].now, r)
  }

  lemma BudgetStep(s0: State, run: seq<Event>, ip: string, r: real, cap: real, i: nat, n: nat)
    requires i < n < |run| && Monotone(run) && r > 0.0
    requires Budget(s0, run, ip, r, cap, i, n)
    requires Unswept(s0, run, ip, n, n + 1) && BoundedPolicies(s0, run, ip, r, cap, n, n + 1)
    ensures Budget(s0, run, ip, r, cap, i, n + 1)
  {
    var s := At(s0, run, n);
    if IsCall(run, ip, n) {
      var now := run[n].now;
      var (tokens, last) := Fill(s, ip);
      var t := last.value;
      var rate := Governing(s, ip).value.ratePerSec;
      CallStep(s, ip, now);
      assert run[n] == Event(now, Allow(ip));
      AccruedNonNegative(now - t, rate);
      AccruedMonotone(now - t, now - t, rate, r);
      AccruedAdds(t - run[i].now, now - t, r);
      assert (t - run[i].now) + (now - t) == now - run[i].now;
    } else {
      assert Keeps(s0, run, ip, n);
      OtherStep(s, run[n], ip);
    }
  }

  lemma BudgetStarts(s0: State, run: seq<Event>, ip: string, r: real, cap: real, i: nat)
    requires i < |run| && Monotone(run)
    requires Sound(s0, run[0].now) && IsCall(run, ip, i)
    requires BoundedPolicies(s0, run, ip, r, cap, i, i + 1)
    ensures Budget(s0, run, ip, r, cap, i, i + 1)
  {
    var s := At(s0, run, i);
    var now := run[i].now;
    RunKeepsSound(s0, run, i);
    RefillNonNegative(BucketOf(s, ip, now), Governing(s, ip).value, now);
    CallStep(s, ip, now);
    assert run[i] == Event(now, Allow(ip));
    assert Accrued(0.0, r) == 0.0;
    assert Admitted(s0, run, ip, i, i) == 0;
  }

  lemma {:induction false} BudgetHolds(s0: State, run: seq<Event>, ip: string, r: real, cap: real, i: nat, n: nat)
    requires i < n <= |run| && Monotone(run) && r > 0.0
    requires Sound(s0, run[0].now) && IsCall(run, ip, i)
    requires Unswept(s0, run, ip, i, n) && BoundedPolicies(s0, run, ip, r, cap, i, n)
    ensures Budget(s0, run, ip, r, cap, i, n)
  {
    hide At, Budget, Admitted, Keeps, IsCall, Limited, Governing;
    if n == i + 1 {
      BudgetStarts(s0, run, ip, r, cap, i);
    } else {
      BudgetHolds(s0, run, ip, r, cap, i, n - 1);
      BudgetStep(s0, run, ip, r, cap, i, n - 1);
    }
  }

  /**
   Across tier changes and policy reloads, the calls admitted from call `i` through call `j` number
   at most `cap + r * (t_j - t_i)`, for bounds `r` and `cap` on the policies met in between.
   */
  lemma {:induction false} RateBound(s0: State, run: seq<Event>, ip: string, r: real, cap: real, i: nat, j: nat)
    requires i <= j < |run| && Monotone(run) && r > 0.0
    requires Sound(s0, run[0].now) && IsCall(run, ip, i) && IsCall(run, ip, j)
    requires Unswept(s0, run, ip, i, j + 1) && BoundedPolicies(s0, run, ip, r, cap, i, j + 1)
    ensures Admitted(s0, run, ip, i, j + 1) as real <= cap + Accrued(run[j].now - run[i].now, r)
  {
    BudgetHolds(s0, run, ip, r, cap, i, j + 1);
    var last := Fill(At(s0, run, j + 1), ip).1.value;
    AccruedMonotone(last - run[i].now, run[j].now - run[i].now, r, r);
  }

  // ---- Retry-After ---------------------------------------------------------------

  /** Calls of `ip` in `lo..hi` were all denied. */
  ghost predicate AllDenied(s0: State, run: seq<Event>, ip: string, lo: nat, hi: nat)
    requires lo <= hi <= |run|
  {
    forall k :: lo <= k < hi && IsCall(run, ip, k) ==> !Admits(s0, run, ip, k)
  }

  /** The bucket holds what denial `d` left, refilled once at rate `r` up to its last refill. */
  ghost predicate RefillsFrom(s0: State, run: seq<Event>, ip: string, r: real, d: nat, n: nat)
    requires d < n <= |run| && Limited(At(s0, run, d), ip)
  {
    var x := Level(At(s0, run, d), ip, run[d].now);
    var (tokens, last) := Fill(At(s0, run, n), ip);
    && x < 1.0 && last.Some? && run[d].now <= last.value <= run[n - 1].now
    && tokens == x + Accrued(last.value - run[d].now, r)
  }

  lemma DeniedRefillStep(s0: State, run: seq<Event>, ip: string, r: real, cap: real, d: nat, n: nat)
    requires d <= n < |run| && Monotone(run) && r > 0.0
    requires IsCall(run, ip, d) && AllDenied(s0, run, ip, d, n + 1)
    requires Unswept(s0, run, ip, n, n + 1) && OnePolicy(s0, run, ip, r, cap, d, n + 1)
    requires n > d ==> RefillsFrom(s0, run, ip, r, d, n)
    ensures RefillsFrom(s0, run, ip, r, d, n + 1)
  {
    var s := At(s0, run, n);
    var now := run[n].now;
    if IsCall(run, ip, n) {
      CallStep(s, ip, now);
      assert run[n] == Event(now, Allow(ip));
      assert Accrued(0.0, r) == 0.0;
      if n > d {
        var t := Fill(s, ip).1.value;
        AccruedAdds(t - run[d].now, now - t, r);
        assert (t - run[d].now) + (now - t) == now - run[d].now;
      }
    } else {
      assert Keeps(s0, run, ip, n);
      OtherStep(s, run[n], ip);
    }
  }

  /** Piecewise refills between denied calls add up to one refill from the first denial. */
  lemma {:induction false} DeniedRefill(s0: State, run: seq<Event>, ip: string, r: real, cap: real, d: nat, n: nat)
    requires d < n <= |run| && Monotone(run) && r > 0.0
    requires IsCall(run, ip, d) && AllDenied(s0, run, ip, d, n)
    requires Unswept(s0, run, ip, d, n) && OnePolicy(s0, run, ip, r, cap, d, n)
    ensures RefillsFrom(s0, run, ip, r, d, n)
  {
    if n > d + 1 {
      DeniedRefill(s0, run, ip, r, cap, d, n - 1);
    }
    DeniedRefillStep(s0, run, ip, r, cap, d, n - 1);
  }

  /** `elapsed` seconds refill `1 - x` tokens exactly when they reach `(1 - x) / r`. */
  lemma WaitLongEnough(x: real, r: real, elapsed: real)
    requires r > 0.0
    ensures x + Accrued(elapsed, r) >= 1.0 <==> elapsed >= (1.0 - x) / r
  {
    var w := (1.0 - x) / r;
    assert w * r == 1.0 - x;
    if elapsed >= w {
      assert (elapsed - w) * r >= 0.0;
    } else {
      assert (w - elapsed) * r > 0.0;
    }
    assert Accrued(elapsed, r) == w * r + (elapsed - w) * r;
  }

  lemma {:induction false} LevelAfterDenials(s0: State, run: seq<Event>, ip: string, r: real, cap: real, d: nat, j: nat)
    requires d < j < |run| && IsCall(run, ip, d) && IsCall(run, ip, j)
    requires OnePolicy(s0, run, ip, r, cap, d, j + 1)
    requires RefillsFrom(s0, run, ip, r, d, j)
    ensures Level(At(s0, run, j), ip, run[j].now)
         == Min(cap, Level(At(s0, run, d), ip, run[d].now) + Accrued(run[j].now - run[d].now, r))
  {
    hide At, Step;
    var t := Fill(At(s0, run, j), ip).1.value;
    AccruedAdds(t - run[d].now, run[j].now - t, r);
    assert (t - run[d].now) + (run[j].now - t) == run[j].now - run[d].now;
  }

  /** What denial `d` answered and what a later call sees, in terms of the level `x` at `d`. */
  lemma DenialAndRetry(s0: State, run: seq<Event>, ip: string, r: real, cap: real, d: nat, j: nat) returns (x: real)
    requires d < j < |run| && Monotone(run) && r > 0.0
    requires IsCall(run, ip, d) && IsCall(run, ip, j) && AllDenied(s0, run, ip, d, j)
    requires Unswept(s0, run, ip, d, j) && OnePolicy(s0, run, ip, r, cap, d, j + 1)
    ensures x < 1.0 && AnswerAt(s0, run, d) == Verdict(false, RetryAfter(x, r))
    ensures Admits(s0, run, ip, j) <==> Min(cap, x + Accrued(run[j].now - run[d].now, r)) >= 1.0
  {
    x := Level(At(s0, run, d), ip, run[d].now);
    CallStep(At(s0, run, d), ip, run[d].now);
    assert run[d] == Event(run[d].now, Allow(ip));
    DeniedRefill(s0, run, ip, r, cap, d, j);
    LevelAfterDenials(s0, run, ip, r, cap, d, j);
    CallStep(At(s0, run, j), ip, run[j].now);
    assert run[j] == Event(run[j].now, Allow(ip));
    hide Step, At, Level, Fill, Unswept, Accrued, Governing;
  }

  /**
   After a denial that answered `k`, with only denied calls in between, a call `k` seconds later or
   more is admitted, and a call more than one second sooner is denied.
   */
  lemma RetryAfterIsRight(s0: State, run: seq<Event>, ip: string, r: real, cap: real, d: nat, j: nat)
    requires d < j < |run| && Monotone(run) && r > 0.0 && cap >= 1.0
    requires IsCall(run, ip, d) && IsCall(run, ip, j) && AllDenied(s0, run, ip, d, j)
    requires Unswept(s0, run, ip, d, j) && OnePolicy(s0, run, ip, r, cap, d, j + 1)
    ensures AnswerAt(s0, run, d).Verdict? && AnswerAt(s0, run, d).retryAfter >= 1
    ensures var k := AnswerAt(s0, run, d).retryAfter as real;
            && (run[j].now >= run[d].now + k ==> Admits(s0, run, ip, j))
            && (run[j].now < run[d].now + k - 1.0 ==> !Admits(s0, run, ip, j))
  {
    hide At, Step;
    var x := DenialAndRetry(s0, run, ip, r, cap, d, j);
    WaitLongEnough(x, r, run[j].now - run[d].now);
    WaitLongEnough(x, r, 0.0);
    assert Accrued(0.0, r) == 0.0;
  }

  // ---- denied calls are invisible ---------------------------------------------------

  function Without(run: seq<Event>, d: nat): seq<Event>
    requires d < |run|
  {
    run[..d] + run[d + 1..]
  }

  /** Both buckets refill to the same count at any later time, at rate `r`. */
  ghost predicate SameRefill(b: Bucket, b': Bucket, r: real) {
    && b.lastRefill.Some? && b'.lastRefill.Some?
    && b.tokens == b'.tokens + Accrued(b.lastRefill.value - b'.lastRefill.value, r)
  }

  /** Two states that differ at most in when `ip`'s bucket was last refilled and seen. */
  ghost predicate SameButRefill(s: State, s': State, ip: string, r: real) {
    && s.policies == s'.policies && s.banned == s'.banned && s.bans == s'.bans
    && s.buckets.Keys == s'.buckets.Keys && ip in s.buckets
    && (forall k :: k in s.buckets && k != ip ==> s.buckets[k] == s'.buckets[k])
    && var b, b' := s.buckets[ip], s'.buckets[ip];
       && b.tier == b'.tier && b.failCount == b'.failCount && b.windowStart == b'.windowStart
       && SameRefill(b, b', r)
  }

  /** Refilling twice to `now` gives what refilling once does. */
  lemma SameLevel(s: State, s': State, ip: string, r: real, now: real)
    requires SameButRefill(s, s', ip, r) && Limited(s, ip) && Governing(s, ip).value.ratePerSec == r
    ensures Limited(s', ip) && Level(s, ip, now) == Level(s', ip, now)
  {
    var t, t' := s.buckets[ip].lastRefill.value, s'.buckets[ip].lastRefill.value;
    AccruedAdds(t - t', now - t, r);
    assert (t - t') + (now - t) == now - t';
  }

  lemma SimilarCall(s: State, s': State, ip: string, r: real, now: real)
    requires SameButRefill(s, s', ip, r)
    requires Limited(s, ip) ==> Governing(s, ip).value.ratePerSec == r
    ensures var e := Event(now, Allow(ip));
            Step(s, e).1 == Step(s', e).1 && SameButRefill(Step(s, e).0, Step(s', e).0, ip, r)
  {
    if Limited(s, ip) {
      SameLevel(s, s', ip, r, now);
      CallStep(s, ip, now);
      CallStep(s', ip, now);
      assert Accrued(0.0, r) == 0.0;
    }
  }

  lemma SimilarFailure(s: State, s': State, ip: string, r: real, who: string, now: real)
    requires SameButRefill(s, s', ip, r)
    ensures var e := Event(now, RecordFailure(who));
            Step(s, e).1 == Step(s', e).1 && SameButRefill(Step(s, e).0, Step(s', e).0, ip, r)
  {
    var b, b' := BucketOf(s, who, now), BucketOf(s', who, now);
    assert FailBucket(b, s.policies, now).1 == FailBucket(b', s.policies, now).1;
  }

  lemma SimilarStep(s: State, s': State, e: Event, ip: string, r: real)
    requires SameButRefill(s, s', ip, r) && !e.op.Sweep? && e.op != Allow(ip)
    ensures Step(s, e).1 == Step(s', e).1 && SameButRefill(Step(s, e).0, Step(s', e).0, ip, r)
  {
    match e.op
    case RecordFailure(who) => SimilarFailure(s, s', ip, r, who, e.now);
    case _ =>
  }

  lemma {:induction false} SamePrefix(s0: State, run: seq<Event>, run': seq<Event>, n: nat)
    requires n <= |run| && n <= |run'| && run[..n] == run'[..n]
    ensures At(s0, run, n) == At(s0, run', n)
  {
    if n > 0 {
      assert run[..n - 1] == run[..n][..n - 1] && run'[..n - 1] == run'[..n][..n - 1];
      SamePrefix(s0, run, run', n - 1);
      assert run[n - 1] == run[..n][n - 1] && run'[n - 1] == run'[..n][n - 1];
    }
  }

  /** A denied call leaves a state that refills like the one before it. */
  lemma DenialStep(s: State, ip: string, r: real, now: real)
    requires Limited(s, ip) && Governing(s, ip).value.ratePerSec == r
    requires Level(s, ip, now) < 1.0
    ensures SameButRefill(Step(s, Event(now, Allow(ip))).0, s, ip, r)
  {
    CallStep(s, ip, now);
  }

  /** No sweep comes after event `d`, and every rate limit that `ip` meets from there on has rate `r`. */
  ghost predicate OneRate(s0: State, run: seq<Event>, ip: string, r: real, d: nat, hi: nat)
    requires d <= hi <= |run|
  {
    && (forall k :: d <= k < hi ==> !run[k].op.Sweep?)
    && (forall k :: d <= k < hi && IsCall(run, ip, k) && Limited(At(s0, run, k), ip) ==>
          Governing(At(s0, run, k), ip).value.ratePerSec == r)
  }

  lemma {:induction false} DenialStaysInvisible(s0: State, run: seq<Event>, ip: string, r: real, d: nat, n: nat)
    requires d < n <= |run|
    requires IsCall(run, ip, d) && !Admits(s0, run, ip, d) && OneRate(s0, run, ip, r, d, n)
    ensures SameButRefill(At(s0, run, n), At(s0, Without(run, d), n - 1), ip, r)
  {
    var run' := Without(run, d);
    if n == d + 1 {
      SamePrefix(s0, run, run', d);
      DenialStep(At(s0, run, d), ip, r, run[d].now);
      assert run[d] == Event(run[d].now, Allow(ip));
    } else {
      DenialStaysInvisible(s0, run, ip, r, d, n - 1);
      var s, s', e := At(s0, run, n - 1), At(s0, run', n - 2), run[n - 1];
      assert run'[n - 2] == e;
      if e.op == Allow(ip) {
        assert IsCall(run, ip, n - 1);
        SimilarCall(s, s', ip, r, e.now);
      } else {
        SimilarStep(s, s', e, ip, r);
      }
    }
  }

  /** Leaving a denied call out of a run changes the answer of no later operation. */
  lemma DeniedCallsAreInvisible(s0: State, run: seq<Event>, ip: string, r: real, d: nat, n: nat)
    requires d < n < |run|
    requires IsCall(run, ip, d) && !Admits(s0, run, ip, d) && OneRate(s0, run, ip, r, d, n + 1)
    ensures AnswerAt(s0, run, n) == AnswerAt(s0, Without(run, d), n - 1)
  {
    DenialStaysInvisible(s0, run, ip, r, d, n);
    var s, s', e := At(s0, run, n), At(s0, Without(run, d), n - 1), run[n];
    assert Without(run, d)[n - 1] == e;
    if e.op == Allow(ip) {
      assert IsCall(run, ip, n);
      SimilarCall(s, s', ip, r, e.now);
    } else {
      SimilarStep(s, s', e, ip, r);
    }
  }
}
