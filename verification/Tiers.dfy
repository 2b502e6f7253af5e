/**
 Which policy governs an address after a login: the tier the program picks, against the documented rule that
 the most specific enabled policy wins.
 */
module Tiers {
  import opened Prelude
  import opened Gate
  import opened GateRuns
  import Text
  import T = Throttle
  import S = Sessions

  predicate IsEnabled(ps: T.Policies, tier: string) {
    tier in ps && ps[tier].enabled
  }

  function GroupTier(g: Text.Int64): string {
    "group:" + Text.Itoa(g)
  }

  /** One of the groups has an enabled policy of its own. */
  predicate HasGroupPolicy(ps: T.Policies, groups: seq<Text.Int64>) {
    exists i :: 0 <= i < |groups| && IsEnabled(ps, GroupTier(groups[i]))
  }

  /** The documented rule: a group override beats signed-in, which beats anonymous; None if nothing is enabled. */
  function Documented(ps: T.Policies, groups: seq<Text.Int64>): Option<string> {
    if groups != [] then
      if IsEnabled(ps, GroupTier(groups[0])) then Some(GroupTier(groups[0])) else Documented(ps, groups[1..])
    else if IsEnabled(ps, "signed-in") then Some("signed-in")
    else if IsEnabled(ps, "anonymous") then Some("anonymous")
    else None
  }

  /** The enabled policy that a tier puts an address under, if any. */
  function Effective(ps: T.Policies, tier: string): Option<string> {
    if IsEnabled(ps, tier) then Some(tier) else None
  }

  lemma {:induction false} FirstOfRest(ps: T.Policies, groups: seq<Text.Int64>)
    requires groups != []
    ensures HasGroupPolicy(ps, groups) <==> IsEnabled(ps, GroupTier(groups[0])) || HasGroupPolicy(ps, groups[1..])
  {
    hide IsEnabled, GroupTier;
    if HasGroupPolicy(ps, groups[1..]) {
      var i :| 0 <= i < |groups[1..]| && IsEnabled(ps, GroupTier(groups[1..][i]));
      assert groups[1..][i] == groups[i + 1];
    }
    if HasGroupPolicy(ps, groups) && !IsEnabled(ps, GroupTier(groups[0])) {
      var i :| 0 <= i < |groups| && IsEnabled(ps, GroupTier(groups[i]));
      assert groups[1..][i - 1] == groups[i];
    }
  }

  lemma TiersDiffer(g: Text.Int64)
    ensures GroupTier(g) != T.TIER_SIGNED_IN && GroupTier(g) != T.TIER_ANONYMOUS
  {
    assert GroupTier(g)[0] == 'g';
  }

  /** Where the program's choice and the rule agree and where they do not, before anything is promoted. */
  lemma {:induction false} PickedAndDocumented(ps: T.Policies, groups: seq<Text.Int64>)
    ensures HasGroupPolicy(ps, groups) ==>
              && Documented(ps, groups) == Some(ResolveTier(ps, groups)) && IsEnabled(ps, ResolveTier(ps, groups))
              && ResolveTier(ps, groups) != T.TIER_SIGNED_IN
    ensures !HasGroupPolicy(ps, groups) ==>
              && ResolveTier(ps, groups) == T.TIER_SIGNED_IN
              && Documented(ps, groups) == Documented(ps, [])
  {
    if groups != [] {
      FirstOfRest(ps, groups);
      TiersDiffer(groups[0]);
      if !IsEnabled(ps, GroupTier(groups[0])) {
        PickedAndDocumented(ps, groups[1..]);
      }
    }
  }

  /**
   A web login gets the tier of the first of its groups with an enabled policy, and the signed-in tier exactly
   if none of its groups has one.
   */
  lemma {:induction false} TierIsMostSpecific(ps: T.Policies, groups: seq<Text.Int64>)
    ensures var tier := ResolveTier(ps, groups);
            && (tier == T.TIER_SIGNED_IN <==> !HasGroupPolicy(ps, groups))
            && (tier != T.TIER_SIGNED_IN ==>
                  exists i :: 0 <= i < |groups| && IsEnabled(ps, GroupTier(groups[i])) && tier == GroupTier(groups[i])
                              && forall j :: 0 <= j < i ==> !IsEnabled(ps, GroupTier(groups[j])))
  {
    PickedAndDocumented(ps, groups);
    if groups != [] && IsEnabled(ps, GroupTier(groups[0])) {
      TiersDiffer(groups[0]);
    } else if groups != [] {
      TierIsMostSpecific(ps, groups[1..]);
      var tier := ResolveTier(ps, groups[1..]);
      if tier != T.TIER_SIGNED_IN {
        var i :| 0 <= i < |groups[1..]| && IsEnabled(ps, GroupTier(groups[1..][i])) && tier == GroupTier(groups[1..][i])
          && forall j :: 0 <= j < i ==> !IsEnabled(ps, GroupTier(groups[1..][j]));
        assert groups[1..][i] == groups[i + 1];
        forall j | 0 <= j < i + 1
          ensures !IsEnabled(ps, GroupTier(groups[j]))
        {
          if j > 0 {
            assert groups[1..][j - 1] == groups[j];
          }
        }
      }
    }
  }

  /** A web login gets the documented tier if and only if one of its groups, or signed-in, has an enabled policy. */
  lemma {:induction false} WebTierExactly(ps: T.Policies, groups: seq<Text.Int64>)
    ensures Documented(ps, groups) == Some(ResolveTier(ps, groups)) <==>
            HasGroupPolicy(ps, groups) || IsEnabled(ps, T.TIER_SIGNED_IN)
  {
    PickedAndDocumented(ps, groups);
  }

  /** It is governed as documented under one more condition: that there is no anonymous policy to fall back to. */
  lemma {:induction false} WebPolicyExactly(ps: T.Policies, groups: seq<Text.Int64>)
    ensures Documented(ps, groups) == Effective(ps, ResolveTier(ps, groups)) <==>
            || HasGroupPolicy(ps, groups) || IsEnabled(ps, T.TIER_SIGNED_IN) || !IsEnabled(ps, T.TIER_ANONYMOUS)
  {
    PickedAndDocumented(ps, groups);
  }

  /** A raw login is governed as documented if and only if no group of the user has an enabled policy, and so on. */
  lemma {:induction false} RawPolicyExactly(ps: T.Policies, groups: seq<Text.Int64>)
    ensures Documented(ps, groups) == Effective(ps, T.TIER_SIGNED_IN) <==>
            !HasGroupPolicy(ps, groups) && (IsEnabled(ps, T.TIER_SIGNED_IN) || !IsEnabled(ps, T.TIER_ANONYMOUS))
  {
    PickedAndDocumented(ps, groups);
  }

  /** A login without an enabled policy for its groups or for signed-in is never throttled, whatever anonymous says. */
  lemma {:induction false} LoginIsUnlimited(ps: T.Policies, groups: seq<Text.Int64>, b: T.Bucket, now: real)
    requires !HasGroupPolicy(ps, groups) && !IsEnabled(ps, T.TIER_SIGNED_IN)
    ensures T.AllowBucket(b.(tier := ResolveTier(ps, groups)), ps, now).1 == T.Verdict(true, 0)
  {
    PickedAndDocumented(ps, groups);
  }

  /** One token a second for anonymous visitors, and no other policy. */
  function AnonymousOnly(): T.Policies {
    map[T.TIER_ANONYMOUS := T.Policy(true, 1.0, 1, false, 0, 0, 0)]
  }

  /** A bucket that spent its token at 0. */
  const SPENT := T.Bucket(T.TIER_ANONYMOUS, 0.0, Some(0.0), 0, None, 0.0)

  /** One input: the anonymous policy is the documented one and throttles the address, and its login is unlimited. */
  lemma NoFallback(g: Text.Int64)
    ensures Documented(AnonymousOnly(), [g]) == Some(T.TIER_ANONYMOUS)
    ensures T.AllowBucket(SPENT, AnonymousOnly(), 0.0).1 == T.Verdict(false, 2)
    ensures T.AllowBucket(SPENT.(tier := ResolveTier(AnonymousOnly(), [g])), AnonymousOnly(), 0.0).1 == T.Verdict(true, 0)
  {
    TiersDiffer(g);
    assert Accrued(0.0, 1.0) == 0.0;
    hide GroupTier;
    assert !HasGroupPolicy(AnonymousOnly(), [g]);
    PickedAndDocumented(AnonymousOnly(), [g]);
    LoginIsUnlimited(AnonymousOnly(), [g], SPENT, 0.0);
    hide T.AllowBucket, ResolveTier;
    SpentIsThrottled();
  }

  lemma SpentIsThrottled()
    ensures T.AllowBucket(SPENT, AnonymousOnly(), 0.0).1 == T.Verdict(false, 2)
  {
    assert Accrued(0.0, 1.0) == 0.0;
  }

  // ---- at the gates ----------------------------------------------------------------------

  /** The tier a visit that got through on a session is promoted to; a UDP flow without a backend is not. */
  function Promotion(ps: T.Policies, v: Visit, session: S.Session): Option<string> {
    if v.Web? then Some(ResolveTier(ps, session.groups))
    else if v.Flow? && v.protocol.Udp? && !v.dials then None
    else Some("signed-in")
  }

  /** A visit on a session leaves its address in exactly that tier: the user's on the web, signed-in for raw flows. */
  lemma SessionsPromote(w: World, v: Visit, now: real)
    requires SessionOf(Serve(w, v, now).1).Some?
    ensures var s' := Serve(w, v, now).0.limiter;
            var tier := Promotion(w.limiter.policies, v, SessionOf(Serve(w, v, now).1).value);
            if tier.Some? then v.ip in s'.buckets && s'.buckets[v.ip].tier == tier.value
            else Lookup(s'.buckets, v.ip) == Lookup(w.limiter.buckets, v.ip)
  {
    hide T.InForce, S.HttpAccess, S.RawAccess, ResolveTier, AsksApi, T.AllowBucket, T.FailBucket;
  }
}
