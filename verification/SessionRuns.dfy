/** What the session store promises over whole runs: invisible cleanup, renewal in lockstep, keep-alive. */
module SessionRuns {
  import opened Prelude
  import opened Text
  import opened Groups
  import opened Sessions

  // ---- cleanup is unobservable -----------------------------------------------------

  /** The store of a program that never cleans up. */
  function StepUncleaned(s: Store, e: Event): (Store, Answer) {
    if e.request.Cleanup? then (s, Done) else Step(s, e)
  }

  function AtUncleaned(s0: Store, run: seq<Event>, n: nat): Store
    requires n <= |run|
    decreases n
  {
    if n == 0 then s0 else StepUncleaned(AtUncleaned(s0, run, n - 1), run[n - 1]).0
  }

  function AnswerUncleaned(s0: Store, run: seq<Event>, n: nat): Answer
    requires n < |run|
  {
    StepUncleaned(AtUncleaned(s0, run, n), run[n]).1
  }

  /** Generated tokens are new: no row of the uncleaned table holds one when it is handed out. */
  ghost predicate FreshTokens(s0: Store, run: seq<Event>) {
    forall n :: 0 <= n < |run| && run[n].request.Login? ==> TokenFree(AtUncleaned(s0, run, n).rows, run[n].request.token)
  }

  /** `rows` lacks nothing of `full` but rows that have expired by `now`. */
  ghost predicate LacksExpired(rows: Rows, full: Rows, now: real) {
    && (forall id :: id in rows ==> id in full && full[id] == rows[id])
    && (forall id :: id in full && id !in rows ==> full[id].expires <= now)
  }

  ghost predicate Lags(s: Store, full: Store, now: real) {
    s == full.(rows := s.rows) && LacksExpired(s.rows, full.rows, now)
  }

  lemma FirstAgrees(rows: Rows, full: Rows, ids: set<nat>)
    requires forall id :: id in ids ==> id in rows && id in full && rows[id] == full[id]
    ensures First(rows, ids) == First(full, ids)
  {
    var a, b := First(rows, ids), First(full, ids);
    if ids != {} {
      assert Before(rows, a.value, b.value) && Before(full, b.value, a.value);
    }
  }

  /** Lookups see live rows only, so the missing rows do not show. */
  lemma TokenLookupAgrees(s: Store, full: Store, token: string, now: real)
    requires Lags(s, full, now)
    ensures ValidateToken(s, token, now) == ValidateToken(full, token, now)
  {
    assert TokenMatches(s, token, now) == TokenMatches(full, token, now);
    FirstAgrees(s.rows, full.rows, TokenMatches(s, token, now));
  }

  lemma IpLookupAgrees(s: Store, full: Store, ip: string, allowed: seq<Int64>, now: real)
    requires Lags(s, full, now)
    ensures ValidateByIp(s, ip, allowed, now) == ValidateByIp(full, ip, allowed, now)
  {
    assert IpMatches(s, ip, allowed, now) == IpMatches(full, ip, allowed, now);
    FirstAgrees(s.rows, full.rows, IpMatches(s, ip, allowed, now));
  }

  /** A renewal by token follows a successful lookup of that token, so it revives no expired row. */
  lemma ExtendTokenLags(s: Store, full: Store, token: string, now: real, expires: real)
    requires Lags(s, full, now) && Consistent(full) && ValidateToken(full, token, now).Some?
    ensures LacksExpired(ExtendToken(s.rows, token, expires), ExtendToken(full.rows, token, expires), now)
  {
    var found := ValidateToken(full, token, now).value;
    assert found.id in TokenMatches(full, token, now);
    assert found.id in s.rows;
  }

  lemma ExtendUserLags(s: Store, full: Store, user: int, ip: string, now: real, expires: real)
    requires Lags(s, full, now)
    ensures LacksExpired(ExtendUserOnIp(s.rows, user, ip, now, expires), ExtendUserOnIp(full.rows, user, ip, now, expires), now)
  {
  }

  lemma CookieLags(s: Store, full: Store, route: Access, cookie: Option<string>, now: real)
    requires Lags(s, full, now) && Consistent(full)
    ensures CookieAccess(s, route, cookie, now).1 == CookieAccess(full, route, cookie, now).1
    ensures Lags(CookieAccess(s, route, cookie, now).0, CookieAccess(full, route, cookie, now).0, now)
  {
    hide ValidateToken, LacksExpired, ExtendToken, InSet, Entries, Consistent;
    if cookie.Some? {
      TokenLookupAgrees(s, full, cookie.value, now);
      if ValidateToken(full, cookie.value, now).Some? {
        ExtendTokenLags(s, full, cookie.value, now, now + SessionDur(s.hours));
      }
    }
  }

  lemma RenewOnIpLags(s: Store, full: Store, user: int, ip: string, now: real)
    requires Lags(s, full, now)
    ensures Lags(RenewOnIp(s, user, ip, now), RenewOnIp(full, user, ip, now), now)
  {
    ExtendUserLags(s, full, user, ip, now, now + SessionDur(s.hours));
    hide LacksExpired, ExtendUserOnIp;
  }

  lemma HttpLags(s: Store, full: Store, cached: Option<Access>, listed: bool, ip: string, cookie: Option<string>, now: real)
    requires Lags(s, full, now) && Consistent(full)
    ensures HttpAccess(s, cached, listed, ip, cookie, now).1 == HttpAccess(full, cached, listed, ip, cookie, now).1
    ensures Lags(HttpAccess(s, cached, listed, ip, cookie, now).0, HttpAccess(full, cached, listed, ip, cookie, now).0, now)
  {
    hide ValidateByIp, CookieAccess, Lags, RenewOnIp, Consistent;
    if cached.Some? {
      var allowed := GroupIds(cached.value.allowedGroups);
      CookieLags(s, full, cached.value, cookie, now);
      IpLookupAgrees(s, full, ip, allowed, now);
      var found := ValidateByIp(full, ip, allowed, now);
      if found.Some? {
        RenewOnIpLags(s, full, found.value.row.user, ip, now);
      }
    }
  }

  lemma RawLags(s: Store, full: Store, cached: Option<Access>, listed: bool, ip: string, now: real)
    requires Lags(s, full, now)
    ensures RawAccess(s, cached, listed, ip, now).1 == RawAccess(full, cached, listed, ip, now).1
    ensures Lags(RawAccess(s, cached, listed, ip, now).0, RawAccess(full, cached, listed, ip, now).0, now)
  {
    hide ValidateByIp, Lags, RenewOnIp;
    if cached.Some? {
      var allowed := GroupIds(cached.value.allowedGroups);
      IpLookupAgrees(s, full, ip, allowed, now);
      var found := ValidateByIp(full, ip, allowed, now);
      if found.Some? {
        RenewOnIpLags(s, full, found.value.row.user, ip, now);
      }
    }
  }

  lemma ExtendFoundLags(s: Store, full: Store, token: string, now: real, expires: real)
    requires Lags(s, full, now)
    ensures ValidateToken(s, token, now).Some? ==>
              var id := ValidateToken(s, token, now).value.id;
              LacksExpired(ExtendId(s.rows, id, expires), ExtendId(full.rows, id, expires), now)
  {
    if ValidateToken(s, token, now).Some? {
      assert ValidateToken(s, token, now).value.id in TokenMatches(s, token, now);
    }
  }

  lemma ExtendLags(s: Store, full: Store, isPost: bool, cookie: Option<string>, target: Target, now: real)
    requires Lags(s, full, now)
    ensures ExtendRequest(s, isPost, cookie, target, now).1 == ExtendRequest(full, isPost, cookie, target, now).1
    ensures Lags(ExtendRequest(s, isPost, cookie, target, now).0, ExtendRequest(full, isPost, cookie, target, now).0, now)
  {
    hide ValidateToken, Lists, LacksExpired, ExtendId;
    if cookie.Some? {
      TokenLookupAgrees(s, full, cookie.value, now);
      ExtendFoundLags(s, full, cookie.value, now, now + SessionDur(s.hours));
    }
  }

  lemma LagStep(s: Store, full: Store, e: Event)
    requires Lags(s, full, e.now) && Consistent(full)
    requires e.request.Login? ==> TokenFree(full.rows, e.request.token)
    ensures Step(s, e).1 == StepUncleaned(full, e).1
    ensures Lags(Step(s, e).0, StepUncleaned(full, e).0, e.now)
  {
    match e.request
    case Http(route, listed, ip, cookie) => HttpLags(s, full, route, listed, ip, cookie, e.now);
    case Raw(route, listed, ip) => RawLags(s, full, route, listed, ip, e.now);
    case Extend(isPost, cookie, target) => ExtendLags(s, full, isPost, cookie, target, e.now);
    case WhoAmI(token) => TokenLookupAgrees(s, full, token, e.now);
    case WhoIsAt(ip) => IpLookupAgrees(s, full, ip, [], e.now);
    case _ => OtherLags(s, full, e);
  }

  lemma OtherLags(s: Store, full: Store, e: Event)
    requires Lags(s, full, e.now)
    requires e.request.Login? ==> TokenFree(full.rows, e.request.token)
    requires e.request.Login? || e.request.Logout? || e.request.Revoke? || e.request.SetMembers? || e.request.Configure? || e.request.Cleanup?
    ensures Step(s, e).1 == StepUncleaned(full, e).1
    ensures Lags(Step(s, e).0, StepUncleaned(full, e).0, e.now)
  {
  }

  lemma {:induction false} RunsLag(s0: Store, run: seq<Event>, n: nat)
    requires Monotone(run) && FreshTokens(s0, run) && Consistent(s0) && n < |run|
    ensures Consistent(AtUncleaned(s0, run, n))
    ensures Lags(At(s0, run, n), AtUncleaned(s0, run, n), run[n].now)
  {
    if n > 0 {
      RunsLag(s0, run, n - 1);
      var s, full, e := At(s0, run, n - 1), AtUncleaned(s0, run, n - 1), run[n - 1];
      StepKeepsConsistent(full, e);
      LagStep(s, full, e);
      hide Step, StepUncleaned, Consistent;
    }
  }

  /**
   Cleaning up expired sessions anywhere in a run changes the answer of no request: no renewal ever
   revives an expired row, so a row that is gone could not have answered anything again.
   */
  lemma CleanupUnobservable(s0: Store, run: seq<Event>, n: nat)
    requires Monotone(run) && FreshTokens(s0, run) && Consistent(s0) && n < |run|
    ensures AnswerAt(s0, run, n) == AnswerUncleaned(s0, run, n)
  {
    RunsLag(s0, run, n);
    LagStep(At(s0, run, n), AtUncleaned(s0, run, n), run[n]);
  }

  // ---- renewal ------------------------------------------------------------------------

  /** No row expires later than a session created now would. */
  ghost predicate Bounded(s: Store, now: real) {
    forall id :: id in s.rows ==> s.rows[id].expires <= now + SessionDur(s.hours)
  }

  /** Rows that stay keep their owner and address, and expire no earlier. */
  ghost predicate NoneShortened(rows: Rows, rows': Rows) {
    forall id :: id in rows && id in rows' ==>
      rows'[id] == rows[id].(expires := rows'[id].expires) && rows'[id].expires >= rows[id].expires
  }

  lemma AccessNeverShortens(s: Store, e: Event)
    requires Bounded(s, e.now) && (e.request.Http? || e.request.Raw? || e.request.Extend?)
    ensures Bounded(Step(s, e).0, e.now) && NoneShortened(s.rows, Step(s, e).0.rows)
    ensures Step(s, e).0 == s.(rows := Step(s, e).0.rows) && Step(s, e).0.rows.Keys == s.rows.Keys
  {
    hide First, ValidateByIp, ValidateToken, Entries, InSet, Lists;
  }

  lemma StepNeverShortens(s: Store, e: Event)
    requires Consistent(s) && Bounded(s, e.now) && !e.request.Configure?
    ensures Bounded(Step(s, e).0, e.now) && NoneShortened(s.rows, Step(s, e).0.rows)
    ensures Step(s, e).0.hours == s.hours && Step(s, e).0.renewOnAccess == s.renewOnAccess
  {
    if e.request.Http? || e.request.Raw? || e.request.Extend? {
      AccessNeverShortens(s, e);
      hide Step;
    }
  }

  ghost predicate FixedSettings(run: seq<Event>) {
    forall k :: 0 <= k < |run| ==> !run[k].request.Configure?
  }

  lemma {:induction false} RunStaysBounded(s0: Store, run: seq<Event>, n: nat)
    requires Monotone(run) && FixedSettings(run) && n < |run|
    requires Consistent(s0) && Bounded(s0, run[0].now)
    ensures Consistent(At(s0, run, n)) && Bounded(At(s0, run, n), run[n].now)
    ensures At(s0, run, n).hours == s0.hours && At(s0, run, n).renewOnAccess == s0.renewOnAccess
  {
    if n > 0 {
      RunStaysBounded(s0, run, n - 1);
      StepKeepsConsistent(At(s0, run, n - 1), run[n - 1]);
      StepNeverShortens(At(s0, run, n - 1), run[n - 1]);
      hide Step, Consistent;
    }
  }

  /** With a fixed duration, every expiry stays at most that far ahead, so no operation shortens a session. */
  lemma NoSessionIsShortened(s0: Store, run: seq<Event>, n: nat)
    requires Monotone(run) && FixedSettings(run) && n < |run|
    requires Consistent(s0) && Bounded(s0, run[0].now)
    ensures Bounded(At(s0, run, n), run[n].now)
    ensures NoneShortened(At(s0, run, n).rows, At(s0, run, n + 1).rows)
  {
    RunStaysBounded(s0, run, n);
    StepNeverShortens(At(s0, run, n), run[n]);
    hide Step, Consistent;
  }

  function AddressOf(r: Request): Option<string> {
    match r
    case Http(_, _, ip, _) => Some(ip)
    case Raw(_, _, ip) => Some(ip)
    case _ => None
  }

  /**
   An access that a session on its address authorised, of user `U`, sets every live session of `U` on
   that address to the same fresh expiry, and touches no other row.
   */
  lemma AccessRenewsInLockstep(s: Store, e: Event)
    requires s.renewOnAccess && Step(s, e).1.ByIp?
    ensures AddressOf(e.request).Some?
    ensures var user := Step(s, e).1.session.row.user;
            var rows := Step(s, e).0.rows;
            && rows.Keys == s.rows.Keys
            && forall id :: id in s.rows ==>
                 rows[id] == if s.rows[id].user == user && Some(s.rows[id].ip) == AddressOf(e.request) && Live(s.rows[id], e.now)
                             then s.rows[id].(expires := e.now + SessionDur(s.hours)) else s.rows[id]
  {
    hide First, ValidateByIp, ValidateToken, Entries, InSet, Lists, CookieAccess;
    CookieNeverByIp(s, e);
  }

  lemma CookieNeverByIp(s: Store, e: Event)
    ensures forall route, cookie, now :: !CookieAccess(s, route, cookie, now).1.ByIp?
  {
  }

  /** Event `k` is an access on `ip` that a session of `user` there authorised. */
  ghost predicate AccessBy(s0: Store, run: seq<Event>, k: nat, user: int, ip: string)
    requires k < |run|
  {
    && AnswerAt(s0, run, k).ByIp? && AnswerAt(s0, run, k).session.row.user == user
    && AddressOf(run[k].request) == Some(ip)
  }

  /** The request deletes row `id` of `user` on purpose. */
  predicate Deletes(s: Store, r: Request, id: nat, user: int) {
    match r
    case Logout(token) => id in s.rows && s.rows[id].token == token
    case Revoke(which, owner) => which == id && (owner.None? || owner.value == user)
    case SetMembers(members) => user in s.members && user !in members
    case _ => false
  }

  /** At event `m` the last matched access since `i` is less than the session duration ago. */
  ghost predicate KeptUp(s0: Store, run: seq<Event>, i: nat, m: nat, user: int, ip: string)
    requires m < |run|
  {
    exists a :: i <= a < m && AccessBy(s0, run, a, user, ip) && run[m].now < run[a].now + SessionDur(s0.hours)
  }

  /** The row is there, and outlasts every matched access since `i` by the session duration. */
  ghost predicate Outlasts(s0: Store, run: seq<Event>, i: nat, m: nat, id: nat, user: int, ip: string)
    requires m <= |run|
  {
    var rows := At(s0, run, m).rows;
    && id in rows && rows[id].user == user && rows[id].ip == ip
    && forall a :: i <= a < m && AccessBy(s0, run, a, user, ip) ==> rows[id].expires >= run[a].now + SessionDur(s0.hours)
  }

  lemma SurvivesStep(s: Store, e: Event, id: nat)
    requires id in s.rows && Live(s.rows[id], e.now) && Consistent(s)
    requires !Deletes(s, e.request, id, s.rows[id].user)
    ensures id in Step(s, e).0.rows
  {
    if e.request.Http? || e.request.Raw? || e.request.Extend? {
      AccessChangesExpiries(s, e);
      hide Step;
    }
  }

  lemma OutlastsStep(s0: Store, run: seq<Event>, i: nat, m: nat, id: nat, user: int, ip: string)
    requires Monotone(run) && FixedSettings(run) && i <= m < |run|
    requires Consistent(s0) && Bounded(s0, run[0].now) && s0.renewOnAccess
    requires Outlasts(s0, run, i, m, id, user, ip) && Live(At(s0, run, m).rows[id], run[m].now)
    requires !Deletes(At(s0, run, m), run[m].request, id, user)
    ensures Outlasts(s0, run, i, m + 1, id, user, ip)
  {
    hide Step, Consistent, Bounded, Deletes;
    var s, e := At(s0, run, m), run[m];
    RunStaysBounded(s0, run, m);
    SurvivesStep(s, e, id);
    StepNeverShortens(s, e);
    if AccessBy(s0, run, m, user, ip) {
      AccessRenewsInLockstep(s, e);
    }
  }

  lemma {:induction false} OutlastsAtFirst(s0: Store, run: seq<Event>, i: nat, id: nat, user: int, ip: string)
    requires i < |run| && id in At(s0, run, i).rows
    requires At(s0, run, i).rows[id].user == user && At(s0, run, i).rows[id].ip == ip
    ensures Outlasts(s0, run, i, i, id, user, ip)
  {
  }

  lemma {:induction false} OutlastingIsLive(s0: Store, run: seq<Event>, i: nat, n: nat, id: nat, user: int, ip: string)
    requires n < |run| && Outlasts(s0, run, i, n, id, user, ip) && KeptUp(s0, run, i, n, user, ip)
    ensures id in At(s0, run, n).rows && Live(At(s0, run, n).rows[id], run[n].now)
  {
  }

  /**
   Keep-alive: while matched accesses of `user` on `ip` come less than the session duration apart, no
   session the user held there at the first one ever lapses, unless it is deleted on purpose.
   */
  lemma {:induction false} KeepAlive(s0: Store, run: seq<Event>, i: nat, n: nat, id: nat, user: int, ip: string)
    requires Monotone(run) && FixedSettings(run) && i < n <= |run|
    requires Consistent(s0) && Bounded(s0, run[0].now) && s0.renewOnAccess
    requires AccessBy(s0, run, i, user, ip)
    requires id in At(s0, run, i).rows && At(s0, run, i).rows[id].user == user && At(s0, run, i).rows[id].ip == ip
    requires Live(At(s0, run, i).rows[id], run[i].now)
    requires forall m :: i < m < n ==> KeptUp(s0, run, i, m, user, ip)
    requires forall m :: i <= m < n ==> !Deletes(At(s0, run, m), run[m].request, id, user)
    ensures Outlasts(s0, run, i, n, id, user, ip)
    ensures n < |run| && KeptUp(s0, run, i, n, user, ip) ==>
              id in At(s0, run, n).rows && Live(At(s0, run, n).rows[id], run[n].now)
  {
    hide *;
    if n == i + 1 {
      OutlastsAtFirst(s0, run, i, id, user, ip);
    } else {
      KeepAlive(s0, run, i, n - 1, id, user, ip);
      assert KeptUp(s0, run, i, n - 1, user, ip);
    }
    OutlastsStep(s0, run, i, n - 1, id, user, ip);
    if n < |run| && KeptUp(s0, run, i, n, user, ip) {
      OutlastingIsLive(s0, run, i, n, id, user, ip);
    }
  }
}
