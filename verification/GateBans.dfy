/** How long a ban holds once visits, upkeep and the admin all have their say, and exactly what ends one early. */
module GateBans {
  import opened Prelude
  import opened Gate
  import opened GateRuns
  import T = Throttle
  import S = Sessions
  import AutoBan

  /** The ban set holds an entry that lasts to `t`, or for good if `t` is None. */
  predicate HoldsTo(s: T.State, ip: string, t: Option<real>) {
    ip in s.banned && !EndsBefore(s.banned[ip], t)
  }

  /** An expiry that lies before `t`; None never ends. */
  predicate EndsBefore(expiry: Option<real>, t: Option<real>) {
    expiry.Some? && (t.None? || expiry.value < t.value)
  }

  predicate Reached(now: real, t: Option<real>) {
    t.None? || now <= t.value
  }

  /** One more failure of the address at `now` would trip its auto-ban. */
  predicate WouldTrip(s: T.State, ip: string, now: real) {
    AutoBan.BanWatched(s, ip) &&
    var p := T.Governing(s, ip).value;
    var (count, start) := AutoBan.Window(s, ip);
    if start.None? || (p.banWindowSec > 0 && now - start.value > p.banWindowSec as real)
    then p.banThreshold == 1
    else count + 1 >= p.banThreshold
  }

  /**
   The act leaves the address with a ban that ends before `t`, or with none: the admin lifts or replaces it,
   a reload reads a table that knows no such ban, or a failed TLS handshake trips a shorter auto-ban.
   */
  predicate Shortens(w: World, act: Act, now: real, ip: string, t: Option<real>) {
    match act
    case Arrives(v) =>
      && v.TlsError? && v.ip == ip && WouldTrip(w.limiter, ip, now)
      && EndsBefore(T.Expiry(T.Governing(w.limiter, ip).value.banDurationSec, now), t)
    case Bans(who, durationSec) => who == ip && EndsBefore(T.Expiry(durationSec, now), t)
    case Unbans(who) => who == ip
    case Reloads(_) =>
      var row := Lookup(w.limiter.bans, ip);
      row.None? || !T.RowActive(row.value, now) || EndsBefore(row.value.expires, t)
    case _ => false
  }

  lemma HandshakeFails(s: T.State, ip: string, now: real, t: Option<real>)
    requires HoldsTo(s, ip, t)
    ensures HoldsTo(T.Step(s, T.Event(now, T.RecordFailure(ip))).0, ip, t) <==>
            !(WouldTrip(s, ip, now) && EndsBefore(T.Expiry(T.Governing(s, ip).value.banDurationSec, now), t))
  {
    if AutoBan.BanWatched(s, ip) {
      AutoBan.FailureStep(s, ip, now);
      FailureBans(s, ip, now);
      hide T.Step, T.Governing, AutoBan.Window, T.Expiry;
    }
  }

  lemma FailureBans(s: T.State, ip: string, now: real)
    requires AutoBan.BanWatched(s, ip)
    ensures var (s', answer) := T.Step(s, T.Event(now, T.RecordFailure(ip)));
            && answer.Recorded?
            && Lookup(s'.banned, ip) == if answer.tripped
               then Some(T.Expiry(T.Governing(s, ip).value.banDurationSec, now)) else Lookup(s.banned, ip)
  {
  }

  /** Exactly which acts end a standing ban before `t`. */
  lemma ActEndsBanExactly(w: World, act: Act, now: real, ip: string, t: Option<real>)
    requires HoldsTo(w.limiter, ip, t) && Reached(now, t)
    ensures HoldsTo(Perform(w, act, now).0.limiter, ip, t) <==> !Shortens(w, act, now, ip, t)
  {
    match act
    case Arrives(v) =>
      hide Serve, T.Step;
      if v.ip != ip {
        OtherVisit(w, v, now, ip);
      } else {
        VisitEffect(w, v, now);
        HandshakeFails(w.limiter, ip, now, t);
      }
    case _ =>
  }

  /**
   What a visitor can do to a standing ban: it ends earlier than before the visit if and only if the visit is
   a failed TLS handshake of the banned address whose counted failure trips an auto-ban that ends sooner.
   */
  lemma VisitShortensBanExactly(w: World, v: Visit, now: real, ip: string)
    requires T.InForce(w.limiter.banned, ip, now)
    ensures !HoldsTo(Serve(w, v, now).0.limiter, ip, w.limiter.banned[ip]) <==>
            && v.TlsError? && v.ip == ip && WouldTrip(w.limiter, ip, now)
            && var duration := T.Governing(w.limiter, ip).value.banDurationSec;
               duration > 0
               && (w.limiter.banned[ip].None? || now + duration as real < w.limiter.banned[ip].value)
  {
    ActEndsBanExactly(w, Arrives(v), now, ip, w.limiter.banned[ip]);
    hide Serve, WouldTrip, T.Governing;
  }

  lemma BanNext(w0: World, run: seq<Moment>, ip: string, t: Option<real>, k: nat)
    requires k < |run| && HoldsTo(At(w0, run, k).limiter, ip, t) && Reached(run[k].now, t)
    ensures HoldsTo(At(w0, run, k + 1).limiter, ip, t) <==> !Shortens(At(w0, run, k), run[k].act, run[k].now, ip, t)
  {
    hide Perform, Shortens, HoldsTo, Reached;
    ActEndsBanExactly(At(w0, run, k), run[k].act, run[k].now, ip, t);
  }

  /** In each of the first `n` moments of the run, no act ends the ban before `t`. */
  ghost predicate NeverShortened(w0: World, run: seq<Moment>, ip: string, t: Option<real>, n: nat)
    requires n <= |run|
  {
    forall k :: 0 <= k < n ==> !Shortens(At(w0, run, k), run[k].act, run[k].now, ip, t)
  }

  /** Before each of the first `n` moments of the run and after the last, the ban stands to `t`. */
  ghost predicate Stands(w0: World, run: seq<Moment>, ip: string, t: Option<real>, n: nat)
    requires n <= |run|
  {
    forall k :: 0 <= k <= n ==> HoldsTo(At(w0, run, k).limiter, ip, t)
  }

  ghost predicate NotPast(run: seq<Moment>, t: Option<real>, n: nat)
    requires n <= |run|
  {
    forall k :: 0 <= k < n ==> Reached(run[k].now, t)
  }

  /** One more moment, for each side of the equivalence. */
  lemma StandsNext(w0: World, run: seq<Moment>, ip: string, t: Option<real>, n: nat)
    requires n < |run|
    ensures Stands(w0, run, ip, t, n + 1) <==> Stands(w0, run, ip, t, n) && HoldsTo(At(w0, run, n + 1).limiter, ip, t)
    ensures NeverShortened(w0, run, ip, t, n + 1) <==>
            NeverShortened(w0, run, ip, t, n) && !Shortens(At(w0, run, n), run[n].act, run[n].now, ip, t)
    ensures NotPast(run, t, n + 1) ==> NotPast(run, t, n) && Reached(run[n].now, t)
    ensures Stands(w0, run, ip, t, n) ==> HoldsTo(At(w0, run, n).limiter, ip, t)
  {
    hide At, Shortens, HoldsTo, Reached;
  }

  lemma {:induction false} StandsAtFirst(w0: World, run: seq<Moment>, ip: string, t: Option<real>)
    requires HoldsTo(w0.limiter, ip, t)
    ensures Stands(w0, run, ip, t, 0) && NeverShortened(w0, run, ip, t, 0)
  {
    hide HoldsTo, Shortens;
  }

  /** Over a run: the ban stands all the way to `t` if and only if no act of the run ends it before. */
  lemma {:induction false} BanStandsExactly(w0: World, run: seq<Moment>, ip: string, t: Option<real>, n: nat)
    requires n <= |run| && HoldsTo(w0.limiter, ip, t) && NotPast(run, t, n)
    ensures Stands(w0, run, ip, t, n) <==> NeverShortened(w0, run, ip, t, n)
  {
    hide *;
    if n == 0 {
      StandsAtFirst(w0, run, ip, t);
    } else {
      StandsNext(w0, run, ip, t, n - 1);
      BanStandsExactly(w0, run, ip, t, n - 1);
      if HoldsTo(At(w0, run, n - 1).limiter, ip, t) {
        BanNext(w0, run, ip, t, n - 1);
      }
    }
  }

  /**
   Whatever visitors, upkeep and the admin do, as long as no act ends the ban before `t`, every visit of the
   banned address until then is answered with the ban, but for failed TLS handshakes, which get no answer.
   */
  lemma {:induction false} BanHolds(w0: World, run: seq<Moment>, ip: string, t: Option<real>, n: nat)
    requires n < |run| && HoldsTo(w0.limiter, ip, t) && NotPast(run, t, n + 1) && NeverShortened(w0, run, ip, t, n)
    requires run[n].act.Arrives? && run[n].act.visit.ip == ip && !run[n].act.visit.TlsError?
    ensures ReplyAt(w0, run, n) == Some(Blocked)
  {
    StandsNext(w0, run, ip, t, n);
    BanStandsExactly(w0, run, ip, t, n);
    hide Serve, At, Shortens, Stands, NeverShortened, NotPast;
    VisitEffect(At(w0, run, n), run[n].act.visit, run[n].now);
  }

  /** While the table mirrors the entry and it has not expired, a reload ends no ban. */
  lemma ReloadKeepsMirroredBan(w: World, policies: T.Policies, now: real, ip: string)
    requires T.InForce(w.limiter.banned, ip, now)
    requires ip in w.limiter.bans && w.limiter.bans[ip].expires == w.limiter.banned[ip]
    ensures Shortens(w, Reloads(policies), now, ip, w.limiter.banned[ip]) <==> w.limiter.banned[ip] == Some(now)
  {
  }

  /** One input: a ban without end, a failed handshake, and a minute later the address is let in. */
  lemma TlsErrorShortensBan()
    ensures var p := T.Policy(false, 0.0, 0, true, 1, 60, 60);
            var w := World(T.State(map[], map[T.TIER_ANONYMOUS := p], map["ip" := None], map[]), S.Store(map[], 0, map[], true, 0), [], {});
            var run := [Moment(0.0, Arrives(TlsError("ip", ":443"))), Moment(61.0, Arrives(Flow("ip", "", None, false, Tcp, true)))];
            HoldsTo(w.limiter, "ip", None) && ReplyAt(w, run, 1) == Some(Passed(None))
  {
    var p := T.Policy(false, 0.0, 0, true, 1, 60, 60);
    var w := World(T.State(map[], map[T.TIER_ANONYMOUS := p], map["ip" := None], map[]), S.Store(map[], 0, map[], true, 0), [], {});
    var run := [Moment(0.0, Arrives(TlsError("ip", ":443"))), Moment(61.0, Arrives(Flow("ip", "", None, false, Tcp, true)))];
    assert At(w, run, 0) == w;
    assert At(w, run, 1) == Serve(w, TlsError("ip", ":443"), 0.0).0;
    assert At(w, run, 1).limiter.banned["ip"] == Some(60.0);
  }
}
