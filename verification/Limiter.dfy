/**
 The limiter as the program runs it: buckets and the ban set are objects updated in place, the
 sweep deletes from the map it walks, and a reload rebuilds the ban set from the table. Every
 method is proved to perform the matching `Throttle.Step` on the limiter's snapshot.
 */
module Limiter {
  import opened Prelude
  import opened Throttle

  class IpBucket {
    /** The IP this bucket was made for. */
    ghost const owner: string
    var tier: string
    var tokens: real
    var lastRefill: Option<real>
    var failCount: int
    var windowStart: Option<real>
    var lastSeen: real

    ghost function View(): Bucket
      reads this
    {
      Bucket(tier, tokens, lastRefill, failCount, windowStart, lastSeen)
    }

    constructor (ghost ip: string, now: real)
      ensures View() == FreshBucket(now) && owner == ip
    {
      owner := ip;
      tier := TIER_ANONYMOUS;
      tokens := 0.0;
      lastRefill := None;
      failCount := 0;
      windowStart := None;
      lastSeen := now;
    }

    method SetTier(t: string, now: real)
      modifies this
      ensures View() == old(View()).(tier := t, lastSeen := now)
    {
      if tier != t {
        tier := t;
      }
      lastSeen := now;
    }

    method Allow(policies: Policies, now: real) returns (allowed: bool, retry: int)
      modifies this
      ensures (View(), Verdict(allowed, retry)) == AllowBucket(old(View()), policies, now)
    {
      if tier !in policies {
        lastSeen := now;
        return true, 0;
      }
      var pol := policies[tier];
      if !pol.enabled || pol.ratePerSec <= 0.0 {
        lastSeen := now;
        return true, 0;
      }
      var burst := pol.burst as real;
      if burst < 1.0 {
        burst := 1.0;
      }
      if lastRefill.None? {
        tokens := burst;
      } else {
        tokens := tokens + Accrued(now - lastRefill.value, pol.ratePerSec);
      }
      if tokens > burst {
        tokens := burst;
      }
      lastRefill := Some(now);
      lastSeen := now;
      if tokens >= 1.0 {
        tokens := tokens - 1.0;
        return true, 0;
      }
      retry := ((1.0 - tokens) / pol.ratePerSec).Floor + 1;
      allowed := false;
    }

    /** Counts one failure; on a trip, hands back the policy the caller bans under. */
    method CountFailure(policies: Policies, now: real) returns (trip: Option<Policy>)
      modifies this
      ensures (View(), trip) == FailBucket(old(View()), policies, now)
      ensures tier == old(tier)
    {
      if tier !in policies {
        lastSeen := now;
        return None;
      }
      var pol := policies[tier];
      if !pol.banEnabled || pol.banThreshold <= 0 {
        lastSeen := now;
        return None;
      }
      var window := pol.banWindowSec as real;
      if windowStart.None? || (window > 0.0 && now - windowStart.value > window) {
        windowStart := Some(now);
        failCount := 0;
      }
      failCount := failCount + 1;
      lastSeen := now;
      trip := None;
      if failCount >= pol.banThreshold {
        failCount := 0;
        windowStart := None;
        trip := Some(pol);
      }
    }
  }

  class BanSet {
    var m: map<string, Option<real>>

    constructor ()
      ensures m == map[]
    {
      m := map[];
    }

    method Has(ip: string, now: real) returns (r: bool)
      modifies this
      ensures r == InForce(old(m), ip, now)
      ensures m == DropLapsed(old(m), ip, now)
      ensures ip in m <==> r
      ensures forall other :: other != ip ==> Lookup(m, other) == Lookup(old(m), other)
    {
      if ip !in m {
        return false;
      }
      var exp := m[ip];
      if exp.None? {
        return true;
      }
      if now > exp.value {
        m := m - {ip};
        return false;
      }
      return true;
    }

    method Set(ip: string, exp: Option<real>)
      modifies this
      ensures m == old(m)[ip := exp]
    {
      m := m[ip := exp];
    }

    method Del(ip: string)
      modifies this
      ensures m == old(m) - {ip}
    {
      m := m - {ip};
    }

    method Replace(entries: map<string, Option<real>>)
      modifies this
      ensures m == entries
    {
      m := entries;
    }
  }

  class Limiter {
    var buckets: map<string, IpBucket>
    var policies: Policies
    const banned: BanSet
    var bans: map<string, BanRow>

    /** The value of every bucket, kept in step with the bucket objects. */
    ghost var views: map<string, Bucket>

    /** The bucket objects in use. */
    ghost var repr: set<IpBucket>

    /** Every IP has its own bucket object, and `views` describes the buckets. */
    ghost predicate Valid()
      reads this, repr
    {
      && buckets.Keys == views.Keys
      && (forall ip :: ip in buckets ==> buckets[ip] in repr && buckets[ip].owner == ip && buckets[ip].View() == views[ip])
    }

    /** As `Valid`, while this IP's bucket has changed and its view has not yet. */
    ghost predicate ValidBut(ip: string)
      reads this, repr
    {
      && buckets.Keys == views.Keys && ip in buckets
      && (forall k :: k in buckets ==> buckets[k] in repr && buckets[k].owner == k && (k != ip ==> buckets[k].View() == views[k]))
    }

    /** Brings the view of a changed bucket up to date, given the views before this IP was looked up. */
    ghost method Note(ip: string, before: map<string, Bucket>)
      requires ValidBut(ip) && views == before[ip := views[ip]]
      modifies this`views
      ensures Valid() && views == before[ip := buckets[ip].View()]
    {
      views := before[ip := buckets[ip].View()];
    }

    ghost function Snapshot(): State
      reads this, banned
    {
      State(views, policies, banned.m, bans)
    }

    constructor ()
      ensures Valid()
      ensures Snapshot() == State(map[], map[], map[], map[])
      ensures fresh(banned)
    {
      buckets := map[];
      views := map[];
      repr := {};
      policies := map[];
      banned := new BanSet();
      bans := map[];
    }

    method BucketFor(ip: string, now: real) returns (b: IpBucket)
      requires Valid()
      modifies this`buckets, this`views, this`repr
      ensures Valid() && fresh(repr - old(repr))
      ensures ip in buckets && buckets[ip] == b
      ensures views == old(views)[ip := BucketOf(old(Snapshot()), ip, now)]
    {
      if ip in buckets {
        b := buckets[ip];
        assert views == views[ip := views[ip]];
        return;
      }
      b := new IpBucket(ip, now);
      buckets := buckets[ip := b];
      repr := repr + {b};
      views := views[ip := b.View()];
    }

    method SetTier(ip: string, tier: string, now: real)
      requires Valid()
      modifies this`buckets, this`views, this`repr, repr
      ensures Valid() && fresh(repr - old(repr))
      ensures Snapshot() == Step(old(Snapshot()), Event(now, Op.SetTier(ip, tier))).0
    {
      var b := BucketFor(ip, now);
      assert b.View() == views[ip];
      b.SetTier(tier, now);
      Note(ip, old(views));
    }

    method IsBanned(ip: string, now: real) returns (r: bool)
      requires Valid()
      modifies banned
      ensures Valid()
      ensures (Snapshot(), Standing(r)) == Step(old(Snapshot()), Event(now, Op.IsBanned(ip)))
    {
      r := banned.Has(ip, now);
    }

    /** The part of `Allow` done under the bucket's lock. */
    method TakeToken(ip: string, now: real) returns (allowed: bool, retry: int)
      requires Valid()
      modifies this`buckets, this`views, this`repr, repr
      ensures Valid() && fresh(repr - old(repr))
      ensures var b := BucketOf(old(Snapshot()), ip, now);
              && Verdict(allowed, retry) == AllowBucket(b, policies, now).1
              && views == old(views)[ip := AllowBucket(b, policies, now).0]
    {
      hide AllowBucket;
      var b := BucketFor(ip, now);
      assert b.View() == views[ip];
      allowed, retry := b.Allow(policies, now);
      Note(ip, old(views));
    }

    method Allow(ip: string, now: real) returns (allowed: bool, retry: int)
      requires Valid()
      modifies this`buckets, this`views, this`repr, repr
      ensures Valid() && fresh(repr - old(repr))
      ensures (Snapshot(), Verdict(allowed, retry)) == Step(old(Snapshot()), Event(now, Op.Allow(ip)))
    {
      allowed, retry := TakeToken(ip, now);
    }

    method Ban(ip: string, reason: Reason, tier: string, durationSec: int, now: real)
      requires Valid()
      modifies this`bans, banned
      ensures Valid()
      ensures Snapshot() == Step(old(Snapshot()), Event(now, Op.Ban(ip, reason, tier, durationSec))).0
    {
      var expiry := None;
      if durationSec > 0 {
        expiry := Some(now + durationSec as real);
      }
      banned.Set(ip, expiry);
      bans := bans[ip := BanRow(reason, tier, expiry)];
    }

    method Unban(ip: string, now: real)
      requires Valid()
      modifies this`bans, banned
      ensures Valid()
      ensures Snapshot() == Step(old(Snapshot()), Event(now, Op.Unban(ip))).0
    {
      banned.Del(ip);
      bans := bans - {ip};
    }

    /** The part of `RecordFailure` done under the bucket's lock. */
    method CountFailure(ip: string, now: real) returns (trip: Option<Policy>, tier: string)
      requires Valid()
      modifies this`buckets, this`views, this`repr, repr
      ensures Valid() && fresh(repr - old(repr))
      ensures var b := BucketOf(old(Snapshot()), ip, now);
              && tier == b.tier
              && trip == FailBucket(b, policies, now).1
              && views == old(views)[ip := FailBucket(b, policies, now).0]
    {
      hide FailBucket;
      var b := BucketFor(ip, now);
      assert b.View() == views[ip];
      trip := b.CountFailure(policies, now);
      tier := b.tier;
      Note(ip, old(views));
    }

    method RecordFailure(ip: string, now: real)
      requires Valid()
      modifies this`buckets, this`views, this`repr, this`bans, banned, repr
      ensures Valid() && fresh(repr - old(repr))
      ensures Snapshot() == Step(old(Snapshot()), Event(now, Op.RecordFailure(ip))).0
    {
      hide FailBucket;
      var trip, tier := CountFailure(ip, now);
      ghost var counted := Snapshot();
      if trip.Some? {
        var p := trip.value;
        Ban(ip, Auto(p.banThreshold, p.banWindowSec, tier), tier, p.banDurationSec, now);
        assert Snapshot() == WithBan(counted, ip, Auto(p.banThreshold, p.banWindowSec, tier), tier, p.banDurationSec, now);
      }
    }

    /** Reads the active rows of the ban table into a fresh ban set. */
    method ReloadThrottle(stored: Policies, now: real)
      requires Valid()
      modifies this`policies, banned
      ensures Valid()
      ensures Snapshot() == Step(old(Snapshot()), Event(now, Op.Reload(stored))).0
    {
      policies := stored;
      var active := ActiveBans(bans, now);
      var m: map<string, Option<real>> := map[];
      var todo := active.Keys;
      while todo != {}
        invariant todo <= active.Keys
        invariant m == map ip | ip in active.Keys - todo :: active[ip].expires
        decreases todo
      {
        var ip :| ip in todo;
        m := m[ip := active[ip].expires];
        todo := todo - {ip};
      }
      assert m == Expiries(active);
      banned.Replace(m);
    }

    method Evict(ip: string)
      requires Valid()
      modifies this`buckets, this`views
      ensures Valid()
      ensures views == old(views) - {ip}
    {
      buckets := buckets - {ip};
      views := views - {ip};
    }

    method SweepBuckets(now: real)
      requires Valid()
      modifies this`buckets, this`views
      ensures Valid()
      ensures Snapshot() == Step(old(Snapshot()), Event(now, Op.Sweep)).0
    {
      var todo := buckets.Keys;
      while todo != {}
        invariant Valid()
        invariant PartlySwept(old(views), views, todo, now)
        decreases todo
      {
        hide PartlySwept;
        var ip :| ip in todo;
        SweepOne(old(views), views, todo, ip, now);
        if buckets[ip].lastSeen < now - BUCKET_IDLE {
          Evict(ip);
        }
        todo := todo - {ip};
      }
      SweepEnds(old(views), views, now);
    }

    /** The rows that have expired by now go and every other stays; what the table bans at `now` is as before. */
    method CleanupExpiredBans(now: real)
      requires Valid()
      modifies this`bans
      ensures Valid()
      ensures forall ip :: ip in bans <==> ip in old(bans) && (old(bans)[ip].expires.None? || old(bans)[ip].expires.value > now)
      ensures forall ip :: ip in bans ==> bans[ip] == old(bans)[ip]
      ensures forall ip :: TableBans(bans, ip, now) <==> TableBans(old(bans), ip, now)
      ensures Snapshot() == Step(old(Snapshot()), Event(now, Op.CleanupBans)).0
    {
      bans := map ip | ip in bans && !(bans[ip].expires.Some? && bans[ip].expires.value <= now) :: bans[ip];
      assert bans == ActiveBans(old(bans), now);
    }
  }

  /** The sweep has yet to look at the IPs in `todo`. */
  ghost predicate PartlySwept(before: map<string, Bucket>, views: map<string, Bucket>, todo: set<string>, now: real) {
    && todo <= views.Keys
    && (forall ip :: ip in views <==> ip in before && (ip in todo || !Idle(before[ip], now)))
    && (forall ip :: ip in views ==> views[ip] == before[ip])
  }

  lemma SweepOne(before: map<string, Bucket>, views: map<string, Bucket>, todo: set<string>, ip: string, now: real)
    requires PartlySwept(before, views, todo, now) && ip in todo
    ensures ip in views
    ensures PartlySwept(before, if Idle(views[ip], now) then views - {ip} else views, todo - {ip}, now)
  {
  }

  lemma SweepEnds(before: map<string, Bucket>, views: map<string, Bucket>, now: real)
    requires PartlySwept(before, views, {}, now)
    ensures views == Swept(before, now)
  {
  }
}
