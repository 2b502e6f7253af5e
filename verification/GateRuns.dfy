/**
 Runs of the whole front door: visits from any address, mixed with the upkeep of the five-minute tick, the
 admin's bans and unbans, and other requests to the session store. What one visit comes to, the events it
 leaves, and what it leaves alone.
 */
module GateRuns {
  import opened Prelude
  import opened Gate
  import T = Throttle
  import S = Sessions
  import M = Metrics
  import AccessDecisions

  const TIER_MANUAL := "manual"

  datatype Act =
    | Arrives(visit: Visit)
    | Sweeps
    | Reloads(policies: T.Policies)
    | CleansBans
    | Bans(ip: string, durationSec: int)
    | Unbans(ip: string)
    | Stores(request: S.Request)

  datatype Moment = Moment(now: real, act: Act)

  /** What an act other than a visit or a request to the store does to the limiter. */
  function OpOf(act: Act): T.Op
    requires !act.Arrives? && !act.Stores?
  {
    match act
    case Sweeps => T.Sweep
    case Reloads(policies) => T.Reload(policies)
    case CleansBans => T.CleanupBans
    case Bans(ip, durationSec) => T.Ban(ip, T.Manual, TIER_MANUAL, durationSec)
    case Unbans(ip) => T.Unban(ip)
  }

  function Perform(w: World, act: Act, now: real): (World, Option<Reply>) {
    match act
    case Arrives(v) => var (w', reply) := Serve(w, v, now); (w', Some(reply))
    case Stores(request) => (w.(store := S.Step(w.store, S.Event(now, request)).0), None)
    case _ => (Did(w, now, OpOf(act)), None)
  }

  ghost predicate Monotone(run: seq<Moment>) {
    forall i, j :: 0 <= i <= j < |run| ==> run[i].now <= run[j].now
  }

  /** The world before moment `n`. */
  function At(w0: World, run: seq<Moment>, n: nat): World
    requires n <= |run|
    decreases n
  {
    if n == 0 then w0 else Perform(At(w0, run, n - 1), run[n - 1].act, run[n - 1].now).0
  }

  function ReplyAt(w0: World, run: seq<Moment>, n: nat): Option<Reply>
    requires n < |run|
  {
    Perform(At(w0, run, n), run[n].act, run[n].now).1
  }

  predicate Rejected(r: Reply) {
    r.Refused? || r.Throttled? || r.Dropped?
  }

  /** The session a visit got through on, if any. */
  function SessionOf(r: Reply): Option<S.Session> {
    match r
    case Passed(session) => session
    case Unreachable(session) => session
    case _ => None
  }

  // ---- one visit ---------------------------------------------------------------------

  /** The limiter just before a visit is counted as a failure or promotes its address. */
  function Weighed(w: World, v: Visit, now: real): T.State {
    match v
    case TlsError(_, _) => w.limiter
    case Web(ip, _, Site(_, _, _, _, _)) =>
      var w' := Did(w, now, T.IsBanned(ip));
      if AsksApi(v.site, w.apis) then w'.limiter
      else Did(Did(w', now, T.IsBanned(ip)), now, T.Allow(ip)).limiter
    case _ => Did(w, now, T.IsBanned(v.ip)).limiter
  }

  /** The limiter promoted the visit's address to some tier, or was not asked to. */
  ghost predicate MayPromote(s: T.State, s': T.State, ip: string, now: real) {
    s' == s || exists tier :: s' == T.Step(s, T.Event(now, T.SetTier(ip, tier))).0
  }

  /** What a visit comes to: nothing but an event if banned, a counted failure if rejected, a promotion at most if not. */
  lemma VisitEffect(w: World, v: Visit, now: real)
    ensures var (w', reply) := Serve(w, v, now);
            && (reply.Blocked? <==> !v.TlsError? && T.InForce(w.limiter.banned, v.ip, now))
            && (reply.Blocked? ==> w' == w.(events := w'.events))
            && (reply.Dropped? <==> v.TlsError?)
            && (Rejected(reply) ==> w'.limiter == T.Step(Weighed(w, v, now), T.Event(now, T.RecordFailure(v.ip))).0)
            && (!Rejected(reply) && !reply.Blocked? ==> MayPromote(Weighed(w, v, now), w'.limiter, v.ip, now))
            && (!Rejected(reply) && !reply.Blocked? && SessionOf(reply).None? ==> w'.limiter == Weighed(w, v, now))
  {
    hide T.Step, S.HttpAccess, S.RawAccess, ResolveTier, AsksApi;
    if !T.InForce(w.limiter.banned, v.ip, now) {
      StillNotBanned(w, v.ip, now);
    }
  }

  lemma StillNotBanned(w: World, ip: string, now: real)
    requires !T.InForce(w.limiter.banned, ip, now)
    ensures !T.InForce(Did(w, now, T.IsBanned(ip)).limiter.banned, ip, now)
  {
  }

  // ---- events ------------------------------------------------------------------------

  /** The outcomes a visit is recorded under, read off its reply. */
  function Outcomes(v: Visit, r: Reply): seq<string> {
    match r
    case Blocked => ["banned"]
    case Throttled(_) => ["rate_limited"]
    case Answered => []
    case Passed(_) => ["served"]
    case Unreachable(_) =>
      if v.Flow? && v.protocol.Tcp? then ["served", "dial_error"] else ["dial_error"]
    case Dropped => ["tls_error"]
    case Refused(_) =>
      match v
      case Web(_, _, NoListener) => ["no_listener"]
      case Web(_, _, NoHandler) => ["not_found"]
      case Web(_, _, _) => ["denied"]
      case _ => ["tcp_rejected"]
  }

  function EventsOf(v: Visit, now: real, outcomes: seq<string>): seq<M.Event> {
    seq(|outcomes|, i requires 0 <= i < |outcomes| => M.Event(now, v.ip, v.key, outcomes[i]))
  }

  lemma EventLists(v: Visit, now: real)
    ensures EventsOf(v, now, []) == []
    ensures forall o :: EventsOf(v, now, [o]) == [M.Event(now, v.ip, v.key, o)]
    ensures forall o, o' :: EventsOf(v, now, [o, o']) == [M.Event(now, v.ip, v.key, o), M.Event(now, v.ip, v.key, o')]
  {
  }

  ghost predicate Tells(w: World, v: Visit, now: real, w': World, r: Reply) {
    w'.events == w.events + EventsOf(v, now, Outcomes(v, r))
  }

  lemma AuthTells(w: World, v: Visit, now: real)
    requires v.Web? && v.site.Site? && !T.InForce(w.limiter.banned, v.ip, now)
    ensures Tells(w, v, now, WithAuth(w, v, now).0, WithAuth(w, v, now).1)
    ensures !WithAuth(w, v, now).1.Answered? && !WithAuth(w, v, now).1.Unreachable?
  {
    hide T.Step, T.InForce, S.HttpAccess, ResolveTier, EventsOf;
    EventLists(v, now);
  }

  lemma FlowTells(w: World, v: Visit, now: real)
    requires v.Flow?
    ensures Tells(w, v, now, Admit(w, v, now).0, Admit(w, v, now).1)
    ensures !Admit(w, v, now).1.Answered?
    ensures Admit(w, v, now).1.Unreachable? <==>
            !v.dials && AccessDecisions.Grants(S.RawAccess(w.store, v.route, v.listed, v.ip, now).1)
  {
    RawAnswers(w.store, v, now);
    hide T.Step, S.RawAccess, EventsOf;
    EventLists(v, now);
  }

  /** The events of a visit tell what became of it. */
  lemma EventsTellReplies(w: World, v: Visit, now: real)
    ensures Serve(w, v, now).0.events == w.events + EventsOf(v, now, Outcomes(v, Serve(w, v, now).1))
    ensures Serve(w, v, now).1.Answered? <==> v.Web? && AsksApi(v.site, w.apis) && !T.InForce(w.limiter.banned, v.ip, now)
    ensures Serve(w, v, now).1.Unreachable? <==>
            v.Flow? && !v.dials && !T.InForce(w.limiter.banned, v.ip, now)
            && AccessDecisions.Grants(S.RawAccess(w.store, v.route, v.listed, v.ip, now).1)
  {
    EventLists(v, now);
    if !v.TlsError? && !T.InForce(w.limiter.banned, v.ip, now) {
      var w' := Did(w, now, T.IsBanned(v.ip));
      StillNotBanned(w, v.ip, now);
      if v.Flow? {
        FlowTells(w', v, now);
      } else if v.site.Site? {
        AuthTells(w', v, now);
      }
    }
    hide T.Step, T.InForce, WithAuth, Admit, EventsOf, S.RawAccess;
    if v.Web? && v.site.Site? {
      hide Outcomes;
    }
  }

  lemma RawAnswers(s: S.Store, v: Visit, now: real)
    ensures v.Flow? ==>
              var answer := S.RawAccess(s, v.route, v.listed, v.ip, now).1;
              AccessDecisions.Grants(answer) <==> !answer.Denied?
  {
    hide S.ValidateByIp, S.RenewOnIp;
  }

  /**
   A visit leaves exactly one event unless it asks for the built-in API, which leaves none, or is a TCP
   connection that access control lets in and whose backend cannot be dialled, which leaves two.
   */
  lemma OneEventExactly(w: World, v: Visit, now: real)
    ensures |Serve(w, v, now).0.events| == |w.events| + 1 <==>
            T.InForce(w.limiter.banned, v.ip, now)
            || !((v.Web? && AsksApi(v.site, w.apis))
                 || (v.Flow? && v.protocol.Tcp? && !v.dials && AccessDecisions.Grants(S.RawAccess(w.store, v.route, v.listed, v.ip, now).1)))
  {
    EventsTellReplies(w, v, now);
    hide Serve, AsksApi, S.RawAccess, T.InForce;
  }

  /** A request for the built-in API spends no token and counts no failure: nothing but a lapsed ban entry goes. */
  lemma ApiRequestsAreFree(w: World, v: Visit, now: real)
    requires v.Web? && AsksApi(v.site, w.apis) && !T.InForce(w.limiter.banned, v.ip, now)
    ensures var (w', reply) := Serve(w, v, now);
            && reply == Answered && w'.store == w.store && w'.events == w.events
            && w'.limiter == w.limiter.(banned := T.DropLapsed(w.limiter.banned, v.ip, now))
  {
  }

  // ---- one address among others --------------------------------------------------------

  /** What the limiter and the ban table hold of one address. */
  predicate SameFor(s: T.State, s': T.State, ip: string) {
    && s'.policies == s.policies && Lookup(s'.buckets, ip) == Lookup(s.buckets, ip)
    && Lookup(s'.banned, ip) == Lookup(s.banned, ip) && Lookup(s'.bans, ip) == Lookup(s.bans, ip)
  }

  predicate About(op: T.Op, ip: string) {
    match op
    case Allow(who) => who == ip
    case RecordFailure(who) => who == ip
    case SetTier(who, _) => who == ip
    case IsBanned(who) => who == ip
    case Ban(who, _, _, _) => who == ip
    case Unban(who) => who == ip
    case _ => false
  }

  lemma OtherOp(s: T.State, now: real, op: T.Op, who: string, ip: string)
    requires About(op, who) && who != ip
    ensures SameFor(s, T.Step(s, T.Event(now, op)).0, ip)
  {
    hide T.AllowBucket, T.FailBucket;
  }

  lemma OtherWeighed(w: World, v: Visit, now: real, ip: string)
    requires v.ip != ip
    ensures SameFor(w.limiter, Weighed(w, v, now), ip)
  {
    hide T.Step, AsksApi;
    var s1 := Did(w, now, T.IsBanned(v.ip));
    var s2 := Did(s1, now, T.IsBanned(v.ip));
    OtherOp(w.limiter, now, T.IsBanned(v.ip), v.ip, ip);
    OtherOp(s1.limiter, now, T.IsBanned(v.ip), v.ip, ip);
    OtherOp(s2.limiter, now, T.Allow(v.ip), v.ip, ip);
  }

  /** A visit leaves what the limiter and the ban table hold of other addresses alone. */
  lemma OtherVisit(w: World, v: Visit, now: real, ip: string)
    requires v.ip != ip
    ensures SameFor(w.limiter, Serve(w, v, now).0.limiter, ip)
  {
    hide T.Step, T.InForce, Serve, Weighed;
    VisitEffect(w, v, now);
    OtherWeighed(w, v, now, ip);
    var s, s' := Weighed(w, v, now), Serve(w, v, now).0.limiter;
    OtherOp(s, now, T.RecordFailure(v.ip), v.ip, ip);
    if s' != s && MayPromote(s, s', v.ip, now) {
      var tier :| s' == T.Step(s, T.Event(now, T.SetTier(v.ip, tier))).0;
      OtherOp(s, now, T.SetTier(v.ip, tier), v.ip, ip);
    }
  }

  // ---- soundness of the limiter over runs ------------------------------------------------

  lemma SoundLater(s: T.State, before: real, now: real)
    requires T.Sound(s, before) && before <= now
    ensures T.Sound(s, now)
  {
  }

  lemma WeighedKeepsSound(w: World, v: Visit, before: real, now: real)
    requires T.Sound(w.limiter, before) && before <= now
    ensures T.Sound(Weighed(w, v, now), now)
  {
    hide T.Step, T.Sound, AsksApi;
    SoundLater(w.limiter, before, now);
    var s1 := Did(w, now, T.IsBanned(v.ip));
    var s2 := Did(s1, now, T.IsBanned(v.ip));
    T.StepKeepsSound(w.limiter, T.Event(now, T.IsBanned(v.ip)), now);
    T.StepKeepsSound(s1.limiter, T.Event(now, T.IsBanned(v.ip)), now);
    T.StepKeepsSound(s2.limiter, T.Event(now, T.Allow(v.ip)), now);
  }

  lemma VisitKeepsSound(w: World, v: Visit, before: real, now: real)
    requires T.Sound(w.limiter, before) && before <= now
    ensures T.Sound(Serve(w, v, now).0.limiter, now)
  {
    hide T.Step, T.Sound, T.InForce, Serve, Weighed;
    VisitEffect(w, v, now);
    WeighedKeepsSound(w, v, before, now);
    SoundLater(w.limiter, before, now);
    var s, s' := Weighed(w, v, now), Serve(w, v, now).0.limiter;
    T.StepKeepsSound(s, T.Event(now, T.RecordFailure(v.ip)), now);
    if s' != s && MayPromote(s, s', v.ip, now) {
      var tier :| s' == T.Step(s, T.Event(now, T.SetTier(v.ip, tier))).0;
      T.StepKeepsSound(s, T.Event(now, T.SetTier(v.ip, tier)), now);
    }
  }

  /** Visits, upkeep and the admin's acts keep the limiter sound. */
  lemma {:induction false} RunKeepsSound(w0: World, run: seq<Moment>, n: nat)
    requires Monotone(run) && n < |run| && T.Sound(w0.limiter, run[0].now)
    ensures T.Sound(At(w0, run, n).limiter, run[n].now)
  {
    if n > 0 {
      hide T.Sound, T.Step, Serve;
      RunKeepsSound(w0, run, n - 1);
      var w, act, before := At(w0, run, n - 1), run[n - 1].act, run[n - 1].now;
      if act.Arrives? {
        VisitKeepsSound(w, act.visit, before, before);
      } else if !act.Stores? {
        T.StepKeepsSound(w.limiter, T.Event(before, OpOf(act)), before);
      }
      SoundLater(At(w0, run, n).limiter, before, run[n].now);
    }
  }
}
