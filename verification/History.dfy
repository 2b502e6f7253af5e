/**
 The limiter read off the history of a run: which policies are in force, which tier an address has, whether it
 has a bucket, and whether it is banned. The laws of admission and of the auto-ban, for a program that starts
 with nothing and loads its policies.
 */
module History {
  import opened Prelude
  import opened Throttle
  import Admission
  import AutoBan

  /** A limiter that has loaded nothing yet. */
  const EMPTY := State(map[], map[], map[], map[])

  // ---- policies and tiers --------------------------------------------------------------

  /** The last reload before event `n`. */
  function LastReload(run: seq<Event>, n: nat): (k: Option<nat>)
    requires n <= |run|
    ensures k.Some? ==> k.value < n && run[k.value].op.Reload?
    decreases n
  {
    if n == 0 then None
    else if run[n - 1].op.Reload? then Some(n - 1)
    else LastReload(run, n - 1)
  }

  /** The last promotion of this address before event `n`. */
  function LastSetTier(run: seq<Event>, ip: string, n: nat): (k: Option<nat>)
    requires n <= |run|
    ensures k.Some? ==> k.value < n && run[k.value].op.SetTier? && run[k.value].op.ip == ip
    decreases n
  {
    if n == 0 then None
    else if run[n - 1].op.SetTier? && run[n - 1].op.ip == ip then Some(n - 1)
    else LastSetTier(run, ip, n - 1)
  }

  lemma PoliciesStep(s: State, e: Event)
    ensures Step(s, e).0.policies == if e.op.Reload? then e.op.policies else s.policies
  {
    hide AllowBucket, FailBucket;
  }

  /** The policies in force are those of the last reload. */
  lemma {:induction false} PoliciesAreLastLoaded(s0: State, run: seq<Event>, n: nat)
    requires n <= |run|
    ensures At(s0, run, n).policies
         == if LastReload(run, n).None? then s0.policies else run[LastReload(run, n).value].op.policies
  {
    hide Step;
    if n > 0 {
      PoliciesAreLastLoaded(s0, run, n - 1);
      PoliciesStep(At(s0, run, n - 1), run[n - 1]);
    }
  }

  function TierOf(s: State, ip: string): string {
    if ip in s.buckets then s.buckets[ip].tier else TIER_ANONYMOUS
  }

  lemma TierStep(s: State, e: Event, ip: string)
    requires ip in s.buckets ==> ip in Step(s, e).0.buckets
    ensures TierOf(Step(s, e).0, ip) == if e.op.SetTier? && e.op.ip == ip then e.op.tier else TierOf(s, ip)
  {
  }

  /** The tier of an address without an eviction is the one it was last promoted to, or anonymous. */
  lemma {:induction false} TierIsLastSet(s0: State, run: seq<Event>, ip: string, n: nat)
    requires n <= |run| && ip !in s0.buckets && Unswept(s0, run, ip, 0, n)
    ensures TierOf(At(s0, run, n), ip)
         == if LastSetTier(run, ip, n).None? then "anonymous" else run[LastSetTier(run, ip, n).value].op.tier
  {
    hide Step;
    if n > 0 {
      TierIsLastSet(s0, run, ip, n - 1);
      assert Keeps(s0, run, ip, n - 1);
      TierStep(At(s0, run, n - 1), run[n - 1], ip);
    }
  }

  // ---- buckets ---------------------------------------------------------------------------

  /** The event concerns the bucket of this address. */
  predicate Touches(op: Op, ip: string) {
    op == Allow(ip) || op == RecordFailure(ip) || (op.SetTier? && op.ip == ip)
  }

  function LastTouch(run: seq<Event>, ip: string, n: nat): (k: Option<nat>)
    requires n <= |run|
    ensures k.Some? ==> k.value < n && Touches(run[k.value].op, ip)
    decreases n
  {
    if n == 0 then None
    else if Touches(run[n - 1].op, ip) then Some(n - 1)
    else LastTouch(run, ip, n - 1)
  }

  /** Some sweep in `lo..hi` came more than half an hour after `t`. */
  predicate SweptSince(run: seq<Event>, lo: nat, hi: nat, t: real)
    requires lo <= hi <= |run|
  {
    exists j :: lo <= j < hi && run[j].op == Sweep && t < run[j].now - 1800.0
  }

  lemma BucketStep(s: State, e: Event, ip: string)
    ensures var s' := Step(s, e).0;
            && (Touches(e.op, ip) ==> ip in s'.buckets && s'.buckets[ip].lastSeen == e.now)
            && (!Touches(e.op, ip) && (e.op != Sweep || (ip in s.buckets && !(s.buckets[ip].lastSeen < e.now - 1800.0))) ==>
                  Lookup(s'.buckets, ip) == Lookup(s.buckets, ip))
            && (e.op == Sweep && ip in s.buckets && s.buckets[ip].lastSeen < e.now - 1800.0 ==> ip !in s'.buckets)
            && (!Touches(e.op, ip) && ip !in s.buckets ==> ip !in s'.buckets)
  {
  }

  lemma {:induction false} SweptStep(run: seq<Event>, lo: nat, n: nat, t: real)
    requires lo <= n < |run|
    ensures SweptSince(run, lo, n + 1, t) <==> SweptSince(run, lo, n, t) || (run[n].op == Sweep && t < run[n].now - 1800.0)
  {
  }

  /** An address has a bucket exactly if something touched it and no sweep since came over half an hour later. */
  lemma {:induction false} BucketsAreRecent(s0: State, run: seq<Event>, ip: string, n: nat)
    requires n <= |run| && ip !in s0.buckets
    ensures var k := LastTouch(run, ip, n);
            var b := Lookup(At(s0, run, n).buckets, ip);
            && (b.Some? <==> k.Some? && !SweptSince(run, k.value + 1, n, run[k.value].now))
            && (b.Some? ==> b.value.lastSeen == run[k.value].now)
  {
    if n > 0 {
      BucketsAreRecent(s0, run, ip, n - 1);
      BucketStep(At(s0, run, n - 1), run[n - 1], ip);
      var k := LastTouch(run, ip, n - 1);
      if k.Some? {
        SweptStep(run, k.value + 1, n - 1, run[k.value].now);
      }
      hide Step, Touches, SweptSince;
      if Touches(run[n - 1].op, ip) {
        NothingSwept(run, n, run[n - 1].now);
      }
    }
  }

  lemma NothingSwept(run: seq<Event>, n: nat, t: real)
    requires n <= |run|
    ensures !SweptSince(run, n, n, t)
  {
  }

  // ---- the laws from a fresh start ----------------------------------------------------------

  /** No sweep of the run's first `n` events comes more than half an hour after the address was last touched. */
  predicate Awake(run: seq<Event>, ip: string, n: nat)
    requires n <= |run|
  {
    forall k :: 0 <= k < n && run[k].op == Sweep ==>
      LastTouch(run, ip, k).None? || run[k].now - 1800.0 <= run[LastTouch(run, ip, k).value].now
  }

  /** The policy that the history puts an address under: the one loaded last for the tier it was given last. */
  function Policed(run: seq<Event>, ip: string, n: nat): Option<Policy>
    requires n <= |run|
  {
    var (loaded, given) := (LastReload(run, n), LastSetTier(run, ip, n));
    if loaded.None? then None
    else Lookup(run[loaded.value].op.policies, if given.None? then "anonymous" else run[given.value].op.tier)
  }

  lemma {:induction false} AwakeBefore(run: seq<Event>, ip: string, k: nat, n: nat)
    requires k <= n <= |run| && Awake(run, ip, n)
    ensures Awake(run, ip, k)
  {
  }

  lemma AwakeStep(s: State, e: Event, ip: string)
    requires e.op == Sweep && ip in s.buckets ==> e.now - 1800.0 <= s.buckets[ip].lastSeen
    ensures var (b, b') := (Lookup(s.buckets, ip), Lookup(Step(s, e).0.buckets, ip));
            && (b'.Some? <==> b.Some? || Touches(e.op, ip))
            && (b'.Some? ==> b'.value.lastSeen == if Touches(e.op, ip) then e.now else b.value.lastSeen)
  {
    BucketStep(s, e, ip);
    hide Step, Touches;
  }

  /** An awake address has a bucket from its first touch on. */
  lemma {:induction false} AwakeHasBucket(run: seq<Event>, ip: string, n: nat)
    requires n <= |run| && Awake(run, ip, n)
    ensures var k := LastTouch(run, ip, n);
            var b := Lookup(At(EMPTY, run, n).buckets, ip);
            (b.Some? <==> k.Some?) && (k.Some? ==> b.value.lastSeen == run[k.value].now)
  {
    if n > 0 {
      AwakeBefore(run, ip, n - 1, n);
      AwakeHasBucket(run, ip, n - 1);
      AwakeStep(At(EMPTY, run, n - 1), run[n - 1], ip);
      hide Step, Touches, Awake;
    }
  }

  lemma {:induction false} AwakeIsKept(run: seq<Event>, ip: string, n: nat)
    requires n <= |run| && Awake(run, ip, n)
    ensures forall k :: 0 <= k < n ==> Keeps(EMPTY, run, ip, k)
  {
    forall k | 0 <= k < n
      ensures Keeps(EMPTY, run, ip, k)
    {
      AwakeBefore(run, ip, k, n);
      AwakeBefore(run, ip, k + 1, n);
      hide Awake, At;
      AwakeHasBucket(run, ip, k);
      AwakeHasBucket(run, ip, k + 1);
    }
  }

  /** While an address is awake the policy that governs it can be read off the run. */
  lemma {:induction false} GoverningIsPoliced(run: seq<Event>, ip: string, n: nat)
    requires n <= |run| && Awake(run, ip, n)
    ensures Governing(At(EMPTY, run, n), ip) == Policed(run, ip, n)
  {
    hide At, Awake;
    AwakeIsKept(run, ip, n);
    hide Keeps;
    PoliciesAreLastLoaded(EMPTY, run, n);
    TierIsLastSet(EMPTY, run, ip, n);
    assert At(EMPTY, run, 0) == EMPTY by { StartIsEmpty(run); }
  }

  lemma {:induction false} StartIsEmpty(run: seq<Event>)
    ensures At(EMPTY, run, 0) == EMPTY
  {
  }

  /** The policy, if any, limits to `cap` calls at once and `r` a second after. */
  predicate Charges(p: Option<Policy>, r: real, cap: real) {
    && p.Some? && p.value.enabled && p.value.ratePerSec == r && r > 0.0
    && cap == (if p.value.burst < 1 then 1.0 else p.value.burst as real)
  }

  /** The policy, if any, leaves calls alone. */
  predicate Unlimited(p: Option<Policy>) {
    p.None? || !p.value.enabled || p.value.ratePerSec <= 0.0
  }

  lemma {:induction false} ChargedAlike(run: seq<Event>, ip: string, r: real, cap: real, j: nat)
    requires j < |run| && Awake(run, ip, j)
    requires forall k :: 0 <= k <= j && run[k].op == Allow(ip) ==> Charges(Policed(run, ip, k), r, cap)
    ensures Admission.OnePolicy(EMPTY, run, ip, r, cap, 0, j + 1)
  {
    forall k | 0 <= k <= j && Admission.IsCall(run, ip, k)
      ensures Governing(At(EMPTY, run, k), ip) == Policed(run, ip, k)
    {
      GoverningIsPoliced(run, ip, k);
    }
    hide At, Awake, Policed, Governing;
  }

  /**
   The admission law of a program that starts with nothing, in terms of its history alone: as long as the
   policies loaded limit the address in one way, call `j` is admitted if and only if for each call `i` up to it
   the calls admitted since `i`, with this one, are at most what one full bucket and the time since `i` yield.
   */
  lemma {:induction false} AdmissionFromStart(run: seq<Event>, ip: string, r: real, cap: real, j: nat)
    requires j < |run| && Monotone(run) && Awake(run, ip, j) && run[j].op == Allow(ip)
    requires forall k :: 0 <= k <= j && run[k].op == Allow(ip) ==> Charges(Policed(run, ip, k), r, cap)
    ensures AnswerAt(EMPTY, run, j) == Verdict(true, 0) <==>
            forall i :: 0 <= i <= j && run[i].op == Allow(ip) ==>
              Admission.Admitted(EMPTY, run, ip, i, j) as real + 1.0 <= cap + (run[j].now - run[i].now) * r
  {
    assert Charges(Policed(run, ip, j), r, cap);
    hide Policed, At;
    AwakeIsKept(run, ip, j);
    hide Awake, Keeps;
    ChargedAlike(run, ip, r, cap, j);
    hide AnswerAt, Admission.Admitted;
    Admission.AdmissionLaw(EMPTY, run, ip, r, cap, j);
    assert forall i :: 0 <= i <= j ==> (Admission.IsCall(run, ip, i) <==> run[i].op == Allow(ip));
  }

  /** A call is free, and takes no token, exactly while the history puts its address under no limit. */
  lemma {:induction false} FreeFromStart(run: seq<Event>, ip: string, j: nat)
    requires j < |run| && Awake(run, ip, j) && run[j].op == Allow(ip) && Unlimited(Policed(run, ip, j))
    ensures AnswerAt(EMPTY, run, j) == Verdict(true, 0)
    ensures Admission.Fill(At(EMPTY, run, j + 1), ip) == Admission.Fill(At(EMPTY, run, j), ip)
  {
    GoverningIsPoliced(run, ip, j);
    hide Awake, Policed;
    FreeCall(At(EMPTY, run, j), run[j].now, ip);
  }

  lemma FreeCall(s: State, now: real, ip: string)
    requires Unlimited(Governing(s, ip))
    ensures var (s', answer) := Step(s, Event(now, Allow(ip)));
            answer == Verdict(true, 0) && Admission.Fill(s', ip) == Admission.Fill(s, ip)
  {
  }

  /** The policy, if any, bans at `threshold` failures within `window` seconds. */
  predicate Watches(p: Option<Policy>, threshold: int, window: int) {
    p.Some? && p.value.banEnabled && p.value.banThreshold == threshold && p.value.banWindowSec == window
  }

  lemma {:induction false} WatchedSteadily(run: seq<Event>, ip: string, threshold: int, window: int, a: real)
    requires threshold >= 1 && Awake(run, ip, |run|)
    requires forall k: nat :: k < |run| && run[k].op == RecordFailure(ip) && a <= run[k].now <= a + window as real ==>
               Watches(Policed(run, ip, k), threshold, window)
    ensures AutoBan.Steady(EMPTY, run, ip, threshold, window, a)
  {
    AwakeIsKept(run, ip, |run|);
    forall k: nat | k < |run| && AutoBan.IsFailure(run, ip, k)
      ensures Governing(At(EMPTY, run, k), ip) == Policed(run, ip, k)
    {
      AwakeBefore(run, ip, k, |run|);
      GoverningIsPoliced(run, ip, k);
    }
    hide At, Awake, Policed, Governing, Keeps;
  }

  /**
   The auto-ban of a program that starts with nothing, in terms of its history: an interval as long as the
   window that holds `max(T, 2T - 2)` failures of an address under a policy of threshold `T` contains a trip.
   */
  lemma {:induction false} BanFromStart(run: seq<Event>, ip: string, threshold: int, window: int, a: real)
    returns (k: nat)
    requires threshold >= 1 && window > 0 && Monotone(run) && Awake(run, ip, |run|)
    requires forall k: nat :: k < |run| && run[k].op == RecordFailure(ip) && a <= run[k].now <= a + window as real ==>
               Watches(Policed(run, ip, k), threshold, window)
    requires AutoBan.Failures(run, ip, 0, |run|, a, a + window as real) >= AutoBan.Max(threshold, 2 * threshold - 2)
    ensures k < |run| && a <= run[k].now <= a + window as real
    ensures run[k].op == RecordFailure(ip) && AnswerAt(EMPTY, run, k) == Recorded(true)
  {
    WatchedSteadily(run, ip, threshold, window, a);
    hide AutoBan.Steady, Awake, Policed, Monotone, AnswerAt;
    AutoBan.BanCompleteness(EMPTY, run, ip, threshold, window, a);
    k :| 0 <= k < |run| && a <= run[k].now <= a + window as real && AutoBan.Trips(EMPTY, run, ip, k);
  }

  /** Only a failure under a policy that bans trips anything. */
  lemma {:induction false} TripIsWatched(run: seq<Event>, ip: string, k: nat)
    requires k < |run| && Awake(run, ip, k) && run[k].op == RecordFailure(ip)
    ensures AnswerAt(EMPTY, run, k) == Recorded(true) ==>
              var p := Policed(run, ip, k);
              p.Some? && p.value.banEnabled && p.value.banThreshold > 0
  {
    GoverningIsPoliced(run, ip, k);
    hide Awake, Policed;
    TripStep(At(EMPTY, run, k), run[k].now, ip);
  }

  lemma TripStep(s: State, now: real, ip: string)
    ensures Step(s, Event(now, RecordFailure(ip))).1 == Recorded(true) ==>
              var p := Governing(s, ip);
              p.Some? && p.value.banEnabled && p.value.banThreshold > 0
  {
  }

  // ---- bans --------------------------------------------------------------------------------

  /** Event `k` bans the address: by hand, or as a failure that trips its auto-ban. */
  predicate Bans(s0: State, run: seq<Event>, ip: string, k: nat)
    requires k < |run|
  {
    (run[k].op.Ban? && run[k].op.ip == ip) || (run[k].op == RecordFailure(ip) && AnswerAt(s0, run, k) == Recorded(true))
  }

  /** For how many seconds event `k`, which bans the address, does so. */
  function BanSeconds(s0: State, run: seq<Event>, ip: string, k: nat): int
    requires k < |run|
  {
    if run[k].op.Ban? then run[k].op.durationSec
    else
      var p := Governing(At(s0, run, k), ip);
      if p.None? then 0 else p.value.banDurationSec
  }

  /** A ban of so many seconds from `start`; zero or less lasts for good. */
  predicate Lasts(start: real, seconds: int, now: real) {
    seconds <= 0 || now < start + seconds as real
  }

  /** The last event before event `n` that bans the address or lifts its ban. */
  function LastRuling(s0: State, run: seq<Event>, ip: string, n: nat): (k: Option<nat>)
    requires n <= |run|
    ensures k.Some? ==> k.value < n && (run[k.value].op == Unban(ip) || Bans(s0, run, ip, k.value))
    decreases n
  {
    if n == 0 then None
    else if run[n - 1].op == Unban(ip) || Bans(s0, run, ip, n - 1) then Some(n - 1)
    else LastRuling(s0, run, ip, n - 1)
  }

  /** Some reload in `lo..hi` came at time `t` or later. */
  predicate ReloadedFrom(run: seq<Event>, lo: nat, hi: nat, t: real)
    requires lo <= hi <= |run|
  {
    exists j :: lo <= j < hi && run[j].op.Reload? && t <= run[j].now
  }

  /** Memory and table hold nothing of this address. */
  predicate Clear(s: State, ip: string) {
    ip !in s.banned && ip !in s.bans
  }

  /**
   A ban to `expires` as it stands at `now`: memory drops it after it ended, or at a reload from its end on,
   and the table from its end on.
   */
  predicate Imposed(s: State, ip: string, expires: Option<real>, reloaded: bool, now: real) {
    && (reloaded && expires.Some? ==> expires.value <= now)
    && (ip in s.banned ==> s.banned[ip] == expires && !(expires.Some? && reloaded))
    && (ip !in s.banned ==> expires.Some? && (reloaded || expires.value < now))
    && (ip in s.bans ==> s.bans[ip].expires == expires)
    && (ip !in s.bans ==> expires.Some? && expires.value <= now)
  }

  /** What a ban by hand or by a trip writes. */
  lemma BanStep(s: State, e: Event, ip: string)
    requires (e.op.Ban? && e.op.ip == ip) || (e.op == RecordFailure(ip) && Step(s, e).1 == Recorded(true))
    ensures var p := Governing(s, ip);
            var seconds := if e.op.Ban? then e.op.durationSec else if p.None? then 0 else p.value.banDurationSec;
            var expires := if seconds <= 0 then None else Some(e.now + seconds as real);
            var s' := Step(s, e).0;
            && (e.op.RecordFailure? ==> p.Some?)
            && ip in s'.banned && s'.banned[ip] == expires
            && ip in s'.bans && s'.bans[ip] == (
                 if e.op.Ban? then BanRow(e.op.reason, e.op.tier, expires)
                 else BanRow(Auto(p.value.banThreshold, p.value.banWindowSec, TierOf(s, ip)), TierOf(s, ip), expires))
  {
  }

  /** What leaves a ban alone but for dropping what has ended. */
  lemma ImposedStep(s: State, e: Event, ip: string, expires: Option<real>, reloaded: bool, now: real)
    requires Imposed(s, ip, expires, reloaded, now) && now <= e.now
    requires e.op != Unban(ip) && !(e.op.Ban? && e.op.ip == ip)
    requires !(e.op == RecordFailure(ip) && Step(s, e).1 == Recorded(true))
    ensures Imposed(Step(s, e).0, ip, expires,
              reloaded || (e.op.Reload? && expires.Some? && expires.value <= e.now), e.now)
  {
    if e.op.RecordFailure? {
      FailureSpares(s, e, ip);
    }
  }

  lemma FailureSpares(s: State, e: Event, ip: string)
    requires e.op.RecordFailure?
    requires !(e.op == RecordFailure(ip) && Step(s, e).1 == Recorded(true))
    ensures Lookup(Step(s, e).0.banned, ip) == Lookup(s.banned, ip)
    ensures Lookup(Step(s, e).0.bans, ip) == Lookup(s.bans, ip)
  {
  }

  lemma ClearStep(s: State, e: Event, ip: string)
    requires Clear(s, ip) && !(e.op.Ban? && e.op.ip == ip)
    requires !(e.op == RecordFailure(ip) && Step(s, e).1 == Recorded(true))
    ensures Clear(Step(s, e).0, ip)
  {
    if e.op.RecordFailure? {
      FailureSpares(s, e, ip);
    }
  }

  lemma UnbanStep(s: State, e: Event, ip: string)
    requires e.op == Unban(ip)
    ensures Clear(Step(s, e).0, ip)
  {
  }

  /** When the ban of event `k` ends, if ever. */
  function EndOf(s0: State, run: seq<Event>, ip: string, k: nat): Option<real>
    requires k < |run|
  {
    var seconds := BanSeconds(s0, run, ip, k);
    if seconds <= 0 then None else Some(run[k].now + seconds as real)
  }

  ghost predicate RulingShows(s0: State, run: seq<Event>, ip: string, n: nat, now: real)
    requires n <= |run|
  {
    var k := LastRuling(s0, run, ip, n);
    if k.None? || run[k.value].op == Unban(ip) then Clear(At(s0, run, n), ip)
    else
      var ends := EndOf(s0, run, ip, k.value);
      Imposed(At(s0, run, n), ip, ends, ends.Some? && ReloadedFrom(run, k.value + 1, n, ends.value), now)
  }

  lemma {:induction false} ReloadedStep(run: seq<Event>, lo: nat, n: nat, t: real)
    requires lo <= n < |run|
    ensures ReloadedFrom(run, lo, n + 1, t) <==> ReloadedFrom(run, lo, n, t) || (run[n].op.Reload? && t <= run[n].now)
  {
  }

  lemma NoneReloaded(run: seq<Event>, n: nat, t: real)
    requires n <= |run|
    ensures !ReloadedFrom(run, n, n, t)
  {
  }

  lemma {:induction false} RulingStep(s0: State, run: seq<Event>, ip: string, n: nat, now: real)
    requires n < |run| && RulingShows(s0, run, ip, n, now) && now <= run[n].now
    ensures RulingShows(s0, run, ip, n + 1, run[n].now)
  {
    var (s, e) := (At(s0, run, n), run[n]);
    assert At(s0, run, n + 1) == Step(s, e).0 && AnswerAt(s0, run, n) == Step(s, e).1;
    if e.op == Unban(ip) {
      UnbanStep(s, e, ip);
    } else if Bans(s0, run, ip, n) {
      BanStep(s, e, ip);
      var ends := EndOf(s0, run, ip, n);
      hide Step, Governing;
      if ends.Some? {
        NoneReloaded(run, n + 1, ends.value);
      }
    } else {
      var k := LastRuling(s0, run, ip, n);
      assert LastRuling(s0, run, ip, n + 1) == k;
      if k.None? || run[k.value].op == Unban(ip) {
        ClearStep(s, e, ip);
      } else {
        var ends := EndOf(s0, run, ip, k.value);
        ImposedStep(s, e, ip, ends, ends.Some? && ReloadedFrom(run, k.value + 1, n, ends.value), now);
        if ends.Some? {
          ReloadedStep(run, k.value + 1, n, ends.value);
        }
      }
    }
  }

  lemma RulingStarts(run: seq<Event>, ip: string, now: real)
    ensures RulingShows(EMPTY, run, ip, 0, now)
  {
  }

  lemma {:induction false} RulingHolds(run: seq<Event>, ip: string, n: nat)
    requires n < |run| && Monotone(run)
    ensures RulingShows(EMPTY, run, ip, n, run[n].now)
  {
    hide RulingShows;
    if n == 0 {
      RulingStarts(run, ip, run[0].now);
    } else {
      RulingHolds(run, ip, n - 1);
      RulingStep(EMPTY, run, ip, n - 1, run[n - 1].now);
      LaterShows(run, ip, n, run[n - 1].now, run[n].now);
    }
  }

  lemma LaterShows(run: seq<Event>, ip: string, n: nat, now: real, later: real)
    requires n <= |run| && RulingShows(EMPTY, run, ip, n, now) && now <= later
    ensures RulingShows(EMPTY, run, ip, n, later)
  {
    hide At, Bans;
  }

  /**
   Who is banned, from the history alone: a lookup finds a ban if and only if the last ruling on the address is a
   ban that has not ended, or ends at this very instant with no reload at it in between. The table holds an
   active row exactly until that instant.
   */
  lemma {:induction false} BannedExactly(run: seq<Event>, ip: string, n: nat)
    requires n < |run| && Monotone(run) && run[n].op == IsBanned(ip)
    ensures var k := LastRuling(EMPTY, run, ip, n);
            var now := run[n].now;
            && (AnswerAt(EMPTY, run, n) == Standing(true) || AnswerAt(EMPTY, run, n) == Standing(false))
            && (AnswerAt(EMPTY, run, n) == Standing(true) <==>
                 && k.Some? && Bans(EMPTY, run, ip, k.value)
                 && var seconds := BanSeconds(EMPTY, run, ip, k.value);
                    || Lasts(run[k.value].now, seconds, now)
                    || (now == run[k.value].now + seconds as real
                        && forall j :: k.value < j < n && run[j].op.Reload? ==> run[j].now < now))
            && (TableBans(At(EMPTY, run, n).bans, ip, now) <==>
                 && k.Some? && Bans(EMPTY, run, ip, k.value)
                 && Lasts(run[k.value].now, BanSeconds(EMPTY, run, ip, k.value), now))
  {
    RulingHolds(run, ip, n);
    LookupAnswers(At(EMPTY, run, n), run[n]);
    hide At, Step;
  }

  lemma LookupAnswers(s: State, e: Event)
    requires e.op.IsBanned?
    ensures Step(s, e).1 == Standing(e.op.ip in s.banned && (s.banned[e.op.ip].None? || e.now <= s.banned[e.op.ip].value))
  {
  }
}
