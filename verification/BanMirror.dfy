/**
 The in-memory ban set and the `banned_ips` table tell the same story, except at the very instant a ban
 expires, where memory still bans and the table no longer does.
 */
module BanMirror {
  import opened Prelude
  import opened Throttle

  predicate Past(t: Option<real>, now: real) {
    t.Some? && t.value <= now
  }

  /** One IP's entry and row: the same expiry, or one of them already dropped after it expired. */
  predicate MirrorsFor(entry: Option<Option<real>>, row: Option<BanRow>, now: real) {
    match (entry, row)
    case (None, None) => true
    case (Some(e), Some(r)) => e == r.expires
    case (Some(e), None) => Past(e, now)
    case (None, Some(r)) => Past(r.expires, now)
  }

  ghost predicate Mirrored(s: State, now: real) {
    forall ip: string :: MirrorsFor(Lookup(s.banned, ip), Lookup(s.bans, ip), now)
  }

  /** Loading the table, at startup or on a refresh, establishes the mirror from any memory. */
  lemma ReloadMirrors(s: State, policies: Policies, now: real)
    ensures Mirrored(Step(s, Event(now, Reload(policies))).0, now)
  {
  }

  /** A counted failure either leaves the bans alone or adds one on both sides. */
  lemma FailureMirrors(s: State, who: string, now: real, ip: string)
    requires MirrorsFor(Lookup(s.banned, ip), Lookup(s.bans, ip), now)
    ensures var s' := AfterFailure(s, who, now).0;
            MirrorsFor(Lookup(s'.banned, ip), Lookup(s'.bans, ip), now)
  {
    hide FailBucket;
  }

  lemma StepMirrorsFor(s: State, e: Event, ip: string)
    requires MirrorsFor(Lookup(s.banned, ip), Lookup(s.bans, ip), e.now)
    ensures var s' := Step(s, e).0;
            MirrorsFor(Lookup(s'.banned, ip), Lookup(s'.bans, ip), e.now)
  {
    match e.op
    case RecordFailure(who) => FailureMirrors(s, who, e.now, ip);
    case _ =>
  }

  lemma StepMirrors(s: State, e: Event, now: real)
    requires Mirrored(s, now) && now <= e.now
    ensures Mirrored(Step(s, e).0, e.now)
  {
    var s' := Step(s, e).0;
    hide Step;
    forall ip: string
      ensures MirrorsFor(Lookup(s'.banned, ip), Lookup(s'.bans, ip), e.now)
    {
      assert MirrorsFor(Lookup(s.banned, ip), Lookup(s.bans, ip), now);
      StepMirrorsFor(s, e, ip);
    }
  }

  lemma {:induction false} RunMirrors(s0: State, run: seq<Event>, start: real, n: nat, now: real)
    requires n <= |run| && Monotone(run) && Mirrored(s0, start)
    requires start <= now && forall k :: 0 <= k < n ==> start <= run[k].now <= now
    ensures Mirrored(At(s0, run, n), now)
  {
    if n > 0 {
      RunMirrors(s0, run, start, n - 1, run[n - 1].now);
      StepMirrors(At(s0, run, n - 1), run[n - 1], run[n - 1].now);
    }
    assert forall ip: string ::
      MirrorsFor(Lookup(At(s0, run, n).banned, ip), Lookup(At(s0, run, n).bans, ip), if n == 0 then start else run[n - 1].now);
  }

  /**
   After any run that starts from a loaded table, memory and table disagree about an IP at a time `t`
   from then on exactly when `t` is the instant its entry in memory expires.
   */
  lemma {:induction false} MirrorAgreement(s0: State, run: seq<Event>, start: real, n: nat, ip: string, t: real)
    requires n <= |run| && Monotone(run)
    requires s0.banned == Expiries(ActiveBans(s0.bans, start))
    requires start <= t && forall k :: 0 <= k < n ==> start <= run[k].now <= t
    ensures var s := At(s0, run, n);
            (InForce(s.banned, ip, t) <==> TableBans(s.bans, ip, t)) <==> Lookup(s.banned, ip) != Some(Some(t))
  {
    assert Mirrored(s0, start);
    RunMirrors(s0, run, start, n, t);
    var s := At(s0, run, n);
    assert MirrorsFor(Lookup(s.banned, ip), Lookup(s.bans, ip), t);
  }

  /** Lazy deletion, reload and table cleanup never change an answer, but at an instant of expiry. */
  lemma HousekeepingIsInvisible(s: State, e: Event, now: real, ip: string, t: real)
    requires Mirrored(s, now) && now <= e.now <= t
    requires e.op.IsBanned? || e.op.Reload? || e.op.CleanupBans?
    requires Lookup(s.banned, ip) != Some(Some(t))
    ensures InForce(Step(s, e).0.banned, ip, t) <==> InForce(s.banned, ip, t)
    ensures TableBans(Step(s, e).0.bans, ip, t) <==> TableBans(s.bans, ip, t)
  {
    assert MirrorsFor(Lookup(s.banned, ip), Lookup(s.bans, ip), now);
  }
}
