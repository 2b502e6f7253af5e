/** What a login and a logout mean for the rest of a run, and exactly which requests add and remove a session. */
module SessionHistory {
  import opened Prelude
  import opened Sessions
  import opened SessionRuns
  import opened AccessDecisions

  // ---- which requests add and remove rows ------------------------------------------------

  /** A login succeeds exactly for an existing user and a token no row holds; it adds one row, a full duration long. */
  lemma LoginExactly(s: Store, user: int, token: string, ip: string, now: real)
    requires Consistent(s)
    ensures var (s', a) := Step(s, Event(now, Login(user, token, ip)));
            && (a == Created(true) <==> user in s.members && forall id :: id in s.rows ==> s.rows[id].token != token)
            && (a == Created(true) ==>
                  && s.nextId !in s.rows && s'.nextId > s.nextId
                  && s'.rows == s.rows[s.nextId := Row(token, user, ip, now + SessionDur(s.hours))])
            && (a != Created(true) ==> a == Created(false) && s' == s)
  {
  }

  /** A row goes exactly when its token logs out, it is revoked by its owner or an admin, its user goes, or it expired and is cleaned up. */
  lemma RowsGoExactly(s: Store, e: Event, id: nat)
    requires id in s.rows
    ensures id !in Step(s, e).0.rows <==>
            match e.request
            case Logout(token) => s.rows[id].token == token
            case Revoke(which, owner) => which == id && (owner.None? || owner.value == s.rows[id].user)
            case SetMembers(members) => s.rows[id].user in s.members && s.rows[id].user !in members
            case Cleanup => s.rows[id].expires < e.now
            case _ => false
  {
    if e.request.Http? || e.request.Raw? || e.request.Extend? {
      AccessChangesExpiries(s, e);
      hide Step;
    }
  }

  /** Only a login adds a row. */
  lemma RowsComeByLogin(s: Store, e: Event, id: nat)
    requires id !in s.rows && id in Step(s, e).0.rows
    ensures e.request.Login? && Step(s, e).1 == Created(true) && id == s.nextId
  {
    if e.request.Http? || e.request.Raw? || e.request.Extend? {
      AccessChangesExpiries(s, e);
      hide Step;
    }
  }

  // ---- settings and members ----------------------------------------------------------------

  /** The last request before event `n` that sets the renewal and the duration. */
  function LastConfigured(run: seq<Event>, n: nat): (k: Option<nat>)
    requires n <= |run|
    ensures k.Some? ==> k.value < n && run[k.value].request.Configure?
    decreases n
  {
    if n == 0 then None
    else if run[n - 1].request.Configure? then Some(n - 1)
    else LastConfigured(run, n - 1)
  }

  /** The last request before event `n` that sets who exists and who is in which group. */
  function LastMembers(run: seq<Event>, n: nat): (k: Option<nat>)
    requires n <= |run|
    ensures k.Some? ==> k.value < n && run[k.value].request.SetMembers?
    decreases n
  {
    if n == 0 then None
    else if run[n - 1].request.SetMembers? then Some(n - 1)
    else LastMembers(run, n - 1)
  }

  lemma SettingsStep(s: Store, e: Event)
    ensures var s' := Step(s, e).0;
            && s'.members == (if e.request.SetMembers? then e.request.members else s.members)
            && s'.hours == (if e.request.Configure? then e.request.hours else s.hours)
            && s'.renewOnAccess == (if e.request.Configure? then e.request.renewOnAccess else s.renewOnAccess)
  {
    if e.request.Http? || e.request.Raw? || e.request.Extend? {
      AccessChangesExpiries(s, e);
      hide Step;
    }
  }

  /** Settings and members are those set last; no access, login or cleanup changes them. */
  lemma {:induction false} SettingsAreLastSet(s0: Store, run: seq<Event>, n: nat)
    requires n <= |run|
    ensures var (s, c, m) := (At(s0, run, n), LastConfigured(run, n), LastMembers(run, n));
            && s.hours == (if c.None? then s0.hours else run[c.value].request.hours)
            && s.renewOnAccess == (if c.None? then s0.renewOnAccess else run[c.value].request.renewOnAccess)
            && s.members == (if m.None? then s0.members else run[m.value].request.members)
  {
    hide Step;
    if n > 0 {
      SettingsAreLastSet(s0, run, n - 1);
      SettingsStep(At(s0, run, n - 1), run[n - 1]);
    }
  }

  // ---- after a login -----------------------------------------------------------------------

  /** The request takes row `id` of this token and user away on purpose. */
  predicate TakesAway(r: Request, id: nat, token: string, user: int) {
    match r
    case Logout(t) => t == token
    case Revoke(which, owner) => which == id && (owner.None? || owner.value == user)
    case SetMembers(members) => user !in members
    case _ => false
  }

  /** Row `id` still is this session of an existing user, and lasts at least to `ends`. */
  predicate Holds(s: Store, id: nat, token: string, user: int, ip: string, ends: real) {
    && id in s.rows && s.rows[id].token == token && s.rows[id].user == user && s.rows[id].ip == ip
    && s.rows[id].expires >= ends && user in s.members
  }

  lemma HoldsStep(s: Store, e: Event, id: nat, token: string, user: int, ip: string, ends: real)
    requires Consistent(s) && Bounded(s, e.now) && !e.request.Configure?
    requires Holds(s, id, token, user, ip, ends) && e.now < ends && !TakesAway(e.request, id, token, user)
    ensures Holds(Step(s, e).0, id, token, user, ip, ends)
  {
    StepNeverShortens(s, e);
    UsersStay(s, e, user);
    RowsGoExactly(s, e, id);
    hide Step, Consistent, Bounded;
  }

  lemma UsersStay(s: Store, e: Event, user: int)
    requires user in s.members && (e.request.SetMembers? ==> user in e.request.members)
    ensures user in Step(s, e).0.members
  {
    if e.request.Http? || e.request.Raw? || e.request.Extend? {
      AccessChangesExpiries(s, e);
      hide Step;
    }
  }

  /** Nothing takes the session away between events `lo` and `hi`. */
  ghost predicate Untaken(run: seq<Event>, lo: nat, hi: nat, id: nat, token: string, user: int)
    requires hi <= |run|
  {
    forall m :: lo <= m < hi ==> !TakesAway(run[m].request, id, token, user)
  }

  lemma {:induction false} LoginHolds(s0: Store, run: seq<Event>, i: nat, n: nat, user: int, token: string, ip: string)
    requires Monotone(run) && FixedSettings(run) && i < n < |run| && Consistent(s0) && Bounded(s0, run[0].now)
    requires run[i].request == Login(user, token, ip) && AnswerAt(s0, run, i) == Created(true)
    requires Untaken(run, i + 1, n, At(s0, run, i).nextId, token, user)
    requires run[n].now < run[i].now + SessionDur(s0.hours)
    ensures Holds(At(s0, run, n), At(s0, run, i).nextId, token, user, ip, run[i].now + SessionDur(s0.hours))
  {
    hide Step, Consistent, Bounded, SessionDur;
    if n == i + 1 {
      RunStaysBounded(s0, run, i);
      LoginExactly(At(s0, run, i), user, token, ip, run[i].now);
      LoginKeepsUser(At(s0, run, i), run[i]);
    } else {
      LoginHolds(s0, run, i, n - 1, user, token, ip);
      RunStaysBounded(s0, run, n - 1);
      HoldsStep(At(s0, run, n - 1), run[n - 1], At(s0, run, i).nextId, token, user, ip, run[i].now + SessionDur(s0.hours));
    }
  }

  lemma LoginKeepsUser(s: Store, e: Event)
    requires e.request.Login?
    ensures Step(s, e).0.members == s.members
  {
  }

  /**
   A login opens: until its duration has passed, and unless the session is taken away on purpose, the token
   names that session, and asking who is behind it finds its user with the groups the user then has.
   */
  lemma {:induction false} LoginOpens(s0: Store, run: seq<Event>, i: nat, n: nat, user: int, token: string, ip: string)
    requires Monotone(run) && FixedSettings(run) && i < n < |run| && Consistent(s0) && Bounded(s0, run[0].now)
    requires run[i].request == Login(user, token, ip) && AnswerAt(s0, run, i) == Created(true)
    requires Untaken(run, i + 1, n, At(s0, run, i).nextId, token, user)
    requires run[n].now < run[i].now + SessionDur(s0.hours)
    ensures var s := At(s0, run, n);
            var id := At(s0, run, i).nextId;
            && CookieNames(s, Some(token), run[n].now, id) && s.rows[id].user == user && s.rows[id].ip == ip
            && (run[n].request == WhoAmI(token) ==>
                  AnswerAt(s0, run, n) == Valid(Session(id, s.rows[id], s.members[user])))
  {
    hide Step, Consistent, Bounded, SessionDur, Untaken;
    LoginHolds(s0, run, i, n, user, token, ip);
    RunStaysBounded(s0, run, n);
    NamedIsFound(At(s0, run, n), token, run[n].now, At(s0, run, i).nextId);
    WhoAmIAnswers(At(s0, run, n), token, run[n].now);
  }

  lemma WhoAmIAnswers(s: Store, token: string, now: real)
    ensures var found := ValidateToken(s, token, now);
            Step(s, Event(now, WhoAmI(token))).1 == if found.Some? then Valid(found.value) else Denied(401)
  {
    hide ValidateToken;
  }

  // ---- after a logout ------------------------------------------------------------------------

  /** No login with this token succeeds in `lo..hi`. */
  ghost predicate NoLogin(s0: Store, run: seq<Event>, lo: nat, hi: nat, token: string)
    requires hi <= |run|
  {
    forall m :: lo <= m < hi && run[m].request.Login? && run[m].request.token == token ==> AnswerAt(s0, run, m) != Created(true)
  }

  lemma TokenStaysFree(s: Store, e: Event, token: string)
    requires TokenFree(s.rows, token)
    requires e.request.Login? && e.request.token == token ==> Step(s, e).1 != Created(true)
    ensures TokenFree(Step(s, e).0.rows, token)
  {
    if e.request.Http? || e.request.Raw? || e.request.Extend? {
      AccessChangesExpiries(s, e);
      hide Step;
    } else if !e.request.Login? {
      OthersOnlyRemove(s, e);
      hide Step;
    }
  }

  lemma LogoutFrees(s: Store, token: string, now: real)
    ensures TokenFree(Step(s, Event(now, Logout(token))).0.rows, token)
  {
  }

  lemma {:induction false} FreeFromLogout(s0: Store, run: seq<Event>, i: nat, n: nat, token: string)
    requires i < n <= |run| && run[i].request == Logout(token) && NoLogin(s0, run, i + 1, n, token)
    ensures TokenFree(At(s0, run, n).rows, token)
  {
    if n == i + 1 {
      LogoutFrees(At(s0, run, i), token, run[i].now);
    } else {
      FreeFromLogout(s0, run, i, n - 1, token);
      TokenStaysFree(At(s0, run, n - 1), run[n - 1], token);
    }
    hide Step;
  }

  /** A logout closes: until a new login succeeds with the token, it names no session and nobody is behind it. */
  lemma {:induction false} LogoutCloses(s0: Store, run: seq<Event>, i: nat, n: nat, token: string)
    requires i < n < |run| && run[i].request == Logout(token) && NoLogin(s0, run, i + 1, n, token)
    ensures forall id :: !CookieNames(At(s0, run, n), Some(token), run[n].now, id)
    ensures run[n].request == WhoAmI(token) ==> AnswerAt(s0, run, n) == Denied(401)
  {
    FreeFromLogout(s0, run, i, n, token);
    hide At, Step, NoLogin;
    UnnamedIsNotFound(At(s0, run, n), token, run[n].now);
    WhoAmIAnswers(At(s0, run, n), token, run[n].now);
  }
}
