/**
 The per-IP limiter as values: one bucket per client IP, the policy snapshot, the in-memory ban
 set and the `banned_ips` table. `Step` is what one completed operation does to all of them.
 Seconds are reals, and an operation reads the clock once.
 */
module Throttle {
  import opened Prelude

  const TIER_ANONYMOUS := "anonymous"
  const TIER_SIGNED_IN := "signed-in"

  /** Seconds a bucket may sit untouched before the sweep evicts it. */
  const BUCKET_IDLE: real := 1800.0

  datatype Policy = Policy(
    enabled: bool, ratePerSec: real, burst: int,
    banEnabled: bool, banThreshold: int, banWindowSec: int, banDurationSec: int)

  type Policies = map<string, Policy>

  /** `lastRefill` and `windowStart` are None while the source holds a zero time. */
  datatype Bucket = Bucket(
    tier: string, tokens: real, lastRefill: Option<real>,
    failCount: int, windowStart: Option<real>, lastSeen: real)

  datatype Reason = Manual | Auto(failures: int, windowSec: int, offender: string)

  datatype BanRow = BanRow(reason: Reason, tier: string, expires: Option<real>)

  datatype State = State(
    buckets: map<string, Bucket>,
    policies: Policies,
    banned: map<string, Option<real>>,
    bans: map<string, BanRow>)

  datatype Answer =
    | Done
    | Verdict(allowed: bool, retryAfter: int)
    | Recorded(tripped: bool)
    | Standing(isBanned: bool)

  // ---- one bucket -----------------------------------------------------------

  predicate RateLimits(p: Policy) {
    p.enabled && p.ratePerSec > 0.0
  }

  predicate AutoBans(p: Policy) {
    p.banEnabled && p.banThreshold > 0
  }

  function Capacity(p: Policy): (c: real)
    ensures c >= 1.0
  {
    if p.burst < 1 then 1.0 else p.burst as real
  }

  function FreshBucket(now: real): Bucket {
    Bucket(TIER_ANONYMOUS, 0.0, None, 0, None, now)
  }

  /** The token count an `Allow` at `now` works with: refilled since the last call, then clamped. */
  function Refilled(b: Bucket, p: Policy, now: real): real {
    if b.lastRefill.None? then Capacity(p)
    else Min(Capacity(p), b.tokens + Accrued(now - b.lastRefill.value, p.ratePerSec))
  }

  function RetryAfter(tokens: real, rate: real): int
    requires rate > 0.0
  {
    ((1.0 - tokens) / rate).Floor + 1
  }

  function AllowBucket(b: Bucket, ps: Policies, now: real): (Bucket, Answer) {
    if b.tier !in ps || !RateLimits(ps[b.tier]) then
      (b.(lastSeen := now), Verdict(true, 0))
    else
      var p := ps[b.tier];
      var tokens := Refilled(b, p, now);
      var touched := b.(lastRefill := Some(now), lastSeen := now);
      if tokens >= 1.0
      then (touched.(tokens := tokens - 1.0), Verdict(true, 0))
      else (touched.(tokens := tokens), Verdict(false, RetryAfter(tokens, p.ratePerSec)))
  }

  /** Whether the failure window must restart before a failure at `now` is counted. */
  predicate WindowLapsed(b: Bucket, windowSec: int, now: real) {
    b.windowStart.None? || (windowSec > 0 && now - b.windowStart.value > windowSec as real)
  }

  /** The bucket after one failure, and the policy that banned the IP if the failure tripped it. */
  function FailBucket(b: Bucket, ps: Policies, now: real): (Bucket, Option<Policy>) {
    if b.tier !in ps || !AutoBans(ps[b.tier]) then
      (b.(lastSeen := now), None)
    else
      var p := ps[b.tier];
      var lapsed := WindowLapsed(b, p.banWindowSec, now);
      var start := if lapsed then Some(now) else b.windowStart;
      var count := (if lapsed then 0 else b.failCount) + 1;
      if count >= p.banThreshold
      then (b.(windowStart := None, failCount := 0, lastSeen := now), Some(p))
      else (b.(windowStart := start, failCount := count, lastSeen := now), None)
  }

  // ---- bans -----------------------------------------------------------------

  /** A duration of zero or less bans until the IP is cleared. */
  function Expiry(durationSec: int, now: real): Option<real> {
    if durationSec > 0 then Some(now + durationSec as real) else None
  }

  predicate InForce(banned: map<string, Option<real>>, ip: string, now: real) {
    ip in banned && (banned[ip].None? || now <= banned[ip].value)
  }

  /** The set after `has`: an expired entry found by the lookup is dropped. */
  function DropLapsed(banned: map<string, Option<real>>, ip: string, now: real): map<string, Option<real>> {
    if ip in banned && !InForce(banned, ip, now) then banned - {ip} else banned
  }

  predicate RowActive(row: BanRow, now: real) {
    row.expires.None? || row.expires.value > now
  }

  predicate TableBans(bans: map<string, BanRow>, ip: string, now: real) {
    ip in bans && RowActive(bans[ip], now)
  }

  function ActiveBans(bans: map<string, BanRow>, now: real): map<string, BanRow> {
    map ip | ip in bans && RowActive(bans[ip], now) :: bans[ip]
  }

  function Expiries(rows: map<string, BanRow>): map<string, Option<real>> {
    map ip | ip in rows :: rows[ip].expires
  }

  function WithBan(s: State, ip: string, reason: Reason, tier: string, durationSec: int, now: real): State {
    var expires := Expiry(durationSec, now);
    s.(banned := s.banned[ip := expires], bans := s.bans[ip := BanRow(reason, tier, expires)])
  }

  // ---- the whole limiter ------------------------------------------------------

  datatype Op =
    | Allow(ip: string)
    | RecordFailure(ip: string)
    | SetTier(ip: string, tier: string)
    | IsBanned(ip: string)
    | Ban(ip: string, reason: Reason, tier: string, durationSec: int)
    | Unban(ip: string)
    | Reload(policies: Policies)
    | Sweep
    | CleanupBans

  datatype Event = Event(now: real, op: Op)

  /** `bucketFor`: an unseen IP gets an anonymous bucket that its first `Allow` will fill. */
  function BucketOf(s: State, ip: string, now: real): Bucket {
    if ip in s.buckets then s.buckets[ip] else FreshBucket(now)
  }

  function AfterFailure(s: State, ip: string, now: real): (State, Answer) {
    var b := BucketOf(s, ip, now);
    var (b', trip) := FailBucket(b, s.policies, now);
    var s' := s.(buckets := s.buckets[ip := b']);
    if trip.None? then (s', Recorded(false))
    else
      var p := trip.value;
      (WithBan(s', ip, Auto(p.banThreshold, p.banWindowSec, b.tier), b.tier, p.banDurationSec, now), Recorded(true))
  }

  predicate Idle(b: Bucket, now: real) {
    b.lastSeen < now - BUCKET_IDLE
  }

  function Swept(buckets: map<string, Bucket>, now: real): map<string, Bucket> {
    map ip | ip in buckets && !Idle(buckets[ip], now) :: buckets[ip]
  }

  function Step(s: State, e: Event): (State, Answer) {
    match e.op
    case Allow(ip) =>
      var (b, answer) := AllowBucket(BucketOf(s, ip, e.now), s.policies, e.now);
      (s.(buckets := s.buckets[ip := b]), answer)
    case RecordFailure(ip) =>
      AfterFailure(s, ip, e.now)
    case SetTier(ip, tier) =>
      (s.(buckets := s.buckets[ip := BucketOf(s, ip, e.now).(tier := tier, lastSeen := e.now)]), Done)
    case IsBanned(ip) =>
      (s.(banned := DropLapsed(s.banned, ip, e.now)), Standing(InForce(s.banned, ip, e.now)))
    case Ban(ip, reason, tier, durationSec) =>
      (WithBan(s, ip, reason, tier, durationSec, e.now), Done)
    case Unban(ip) =>
      (s.(banned := s.banned - {ip}, bans := s.bans - {ip}), Done)
    case Reload(policies) =>
      (s.(policies := policies, banned := Expiries(ActiveBans(s.bans, e.now))), Done)
    case Sweep =>
      (s.(buckets := Swept(s.buckets, e.now)), Done)
    case CleanupBans =>
      (s.(bans := ActiveBans(s.bans, e.now)), Done)
  }

  // ---- runs -------------------------------------------------------------------

  /** The clock never runs backwards. */
  ghost predicate Monotone(run: seq<Event>) {
    forall i, j :: 0 <= i <= j < |run| ==> run[i].now <= run[j].now
  }

  /** The state before event `n` of the run. */
  function At(s0: State, run: seq<Event>, n: nat): State
    requires n <= |run|
    decreases n
  {
    if n == 0 then s0 else Step(At(s0, run, n - 1), run[n - 1]).0
  }

  /** What event `n` of the run answered. */
  function AnswerAt(s0: State, run: seq<Event>, n: nat): Answer
    requires n < |run|
  {
    Step(At(s0, run, n), run[n]).1
  }

  /** Event `k` leaves this IP's bucket in place, if there is one. */
  predicate Keeps(s0: State, run: seq<Event>, ip: string, k: nat)
    requires k < |run|
  {
    ip in At(s0, run, k).buckets ==> ip in At(s0, run, k + 1).buckets
  }

  /** No sweep took this IP's bucket between events `lo` and `hi`. */
  ghost predicate Unswept(s0: State, run: seq<Event>, ip: string, lo: nat, hi: nat)
    requires lo <= hi <= |run|
  {
    forall k :: lo <= k < hi ==> Keeps(s0, run, ip, k)
  }

  /** The policy that governs an IP in a state: the one of its bucket's tier, if any. */
  function Governing(s: State, ip: string): Option<Policy> {
    Lookup(s.policies, if ip in s.buckets then s.buckets[ip].tier else TIER_ANONYMOUS)
  }

  /** What every bucket of a limiter satisfies at clock `now`. */
  predicate SoundBucket(b: Bucket, now: real) {
    && b.tokens >= 0.0
    && b.failCount >= 0
    && b.lastSeen <= now
    && (b.lastRefill.Some? ==> b.lastRefill.value <= b.lastSeen)
    && (b.windowStart.Some? ==> b.windowStart.value <= b.lastSeen && b.failCount >= 1)
    && (b.windowStart.None? ==> b.failCount == 0)
  }

  ghost predicate Sound(s: State, now: real) {
    forall ip :: ip in s.buckets ==> SoundBucket(s.buckets[ip], now)
  }

  lemma RefillNonNegative(b: Bucket, p: Policy, now: real)
    requires SoundBucket(b, now) && RateLimits(p)
    ensures 0.0 <= Refilled(b, p, now) <= Capacity(p)
  {
    if b.lastRefill.Some? {
      AccruedNonNegative(now - b.lastRefill.value, p.ratePerSec);
    }
  }

  lemma AllowKeepsSound(b: Bucket, ps: Policies, now: real)
    requires SoundBucket(b, now)
    ensures SoundBucket(AllowBucket(b, ps, now).0, now)
  {
    if b.tier in ps && RateLimits(ps[b.tier]) {
      RefillNonNegative(b, ps[b.tier], now);
    }
  }

  lemma FailKeepsSound(b: Bucket, ps: Policies, now: real)
    requires SoundBucket(b, now)
    ensures SoundBucket(FailBucket(b, ps, now).0, now)
  {
  }

  lemma BucketKeepsSound(s: State, ip: string, b: Bucket, now: real, now': real)
    requires Sound(s, now) && now <= now' && SoundBucket(b, now')
    ensures Sound(s.(buckets := s.buckets[ip := b]), now')
  {
  }

  lemma StepKeepsSound(s: State, e: Event, now: real)
    requires Sound(s, now) && now <= e.now
    ensures Sound(Step(s, e).0, e.now)
  {
    hide AllowBucket, FailBucket;
    match e.op
    case Allow(ip) =>
      AllowKeepsSound(BucketOf(s, ip, e.now), s.policies, e.now);
      BucketKeepsSound(s, ip, AllowBucket(BucketOf(s, ip, e.now), s.policies, e.now).0, now, e.now);
      hide SoundBucket;
    case RecordFailure(ip) =>
      FailKeepsSound(BucketOf(s, ip, e.now), s.policies, e.now);
      BucketKeepsSound(s, ip, FailBucket(BucketOf(s, ip, e.now), s.policies, e.now).0, now, e.now);
      hide SoundBucket;
    case SetTier(_, _) =>
    case _ =>
  }

  /** Every bucket stays sound over every run. */
  lemma {:induction false} RunKeepsSound(s0: State, run: seq<Event>, n: nat)
    requires Monotone(run) && n < |run| && Sound(s0, run[0].now)
    ensures Sound(At(s0, run, n), run[n].now)
  {
    if n > 0 {
      RunKeepsSound(s0, run, n - 1);
      StepKeepsSound(At(s0, run, n - 1), run[n - 1], run[n - 1].now);
    }
  }
}
