/**
 The session table updated in place and the request gates as the program runs them, step by step with
 early returns. Every method is proved to do what `Sessions` says of the store's value.
 */
module AuthGate {
  import opened Prelude
  import opened Text
  import opened Groups
  import opened Sessions
  import SessionRuns

  /** A route as the auth cache keeps it, with its groups parsed once. */
  datatype CachedRoute = CachedRoute(access: Access, groupSet: set<string>, groupIDs: seq<Int64>)

  predicate Parsed(r: CachedRoute) {
    r.groupSet == Entries(r.access.allowedGroups) && r.groupIDs == GroupIds(r.access.allowedGroups)
  }

  function AccessOf(r: Option<CachedRoute>): Option<Access> {
    if r.None? then None else Some(r.value.access)
  }

  method ParseCachedRoute(access: Access) returns (r: CachedRoute)
    ensures r.access == access && Parsed(r)
  {
    var groupSet, groupIDs := ParseAllowedGroups(access.allowedGroups);
    assert Split("") == [""] && TrimSpace("") == "";
    r := CachedRoute(access, groupSet, groupIDs);
  }

  /** What a lookup by token finds once the rows of `tok` are gone and all others as they were. */
  lemma LogoutLookup(s: Store, s': Store, tok: string, other: string, now: real)
    requires s' == s.(rows := WithoutToken(s.rows, tok))
    ensures ValidateToken(s', other, now) == if other == tok then None else ValidateToken(s, other, now)
  {
    if other != tok {
      assert TokenMatches(s', other, now) == TokenMatches(s, other, now);
      SessionRuns.FirstAgrees(s'.rows, s.rows, TokenMatches(s', other, now));
    }
  }

  class Storage {
    var rows: Rows
    var nextId: nat
    var members: map<int, seq<Int64>>
    var renewOnAccess: bool
    var hours: int

    ghost function View(): Store
      reads this
    {
      Store(rows, nextId, members, renewOnAccess, hours)
    }

    constructor (members: map<int, seq<Int64>>)
      ensures View() == Store(map[], 0, members, true, 168)
    {
      this.rows, this.nextId, this.members, this.renewOnAccess, this.hours := map[], 0, members, true, 168;
    }

    method CreateSession(userID: int, dur: real, clientIP: string, tok: string, now: real) returns (ok: bool)
      modifies this`rows, this`nextId
      ensures ok == (TokenFree(old(rows), tok) && userID in members)
      ensures View() == if ok
                then old(View()).(rows := old(rows)[old(nextId) := Row(tok, userID, clientIP, now + dur)], nextId := old(nextId) + 1)
                else old(View())
    {
      ok := userID in members && forall id :: id in rows ==> rows[id].token != tok;
      if ok {
        rows := rows[nextId := Row(tok, userID, clientIP, now + dur)];
        nextId := nextId + 1;
      }
    }

    /** The token opens nothing any more, and every other token what it opened before. */
    method DeleteSession(tok: string)
      modifies this`rows
      ensures forall id :: id in rows <==> id in old(rows) && old(rows)[id].token != tok
      ensures forall id :: id in rows ==> rows[id] == old(rows)[id]
      ensures forall now :: ValidateToken(View(), tok, now).None?
      ensures forall other, now :: other != tok ==> ValidateToken(View(), other, now) == ValidateToken(old(View()), other, now)
    {
      ghost var before := View();
      rows := map id | id in rows && rows[id].token != tok :: rows[id];
      forall other, now
        ensures ValidateToken(View(), other, now) == if other == tok then None else ValidateToken(before, other, now)
      {
        LogoutLookup(before, View(), tok, other, now);
      }
    }

    /** A token that is valid at `now` stays so until the new expiry, on the same session. */
    method ExtendSession(tok: string, dur: real, now: real)
      modifies this`rows
      ensures rows.Keys == old(rows).Keys
      ensures forall id :: id in rows && rows[id].token == tok ==> rows[id] == old(rows)[id].(expires := now + dur)
      ensures forall id :: id in rows && rows[id].token != tok ==> rows[id] == old(rows)[id]
    {
      rows := map id | id in rows :: if rows[id].token == tok then rows[id].(expires := now + dur) else rows[id];
    }

    /** One row gets the new expiry, if it is there; an id without a row changes nothing. */
    method ExtendSessionByID(id: nat, dur: real, now: real)
      modifies this`rows
      ensures rows.Keys == old(rows).Keys
      ensures id in rows ==> rows[id] == old(rows)[id].(expires := now + dur)
      ensures forall other :: other in rows && other != id ==> rows[other] == old(rows)[other]
    {
      if id in rows {
        rows := rows[id := rows[id].(expires := now + dur)];
      }
    }

    /** The live rows of the user on the address get the new expiry; a lapsed one stays lapsed. */
    method ExtendUserSessionsByIP(userID: int, ip: string, dur: real, now: real)
      modifies this`rows
      ensures rows.Keys == old(rows).Keys
      ensures forall id :: id in rows && old(rows)[id].user == userID && old(rows)[id].ip == ip && old(rows)[id].expires > now ==>
                rows[id] == old(rows)[id].(expires := now + dur)
      ensures forall id :: id in rows && (old(rows)[id].user != userID || old(rows)[id].ip != ip || old(rows)[id].expires <= now) ==>
                rows[id] == old(rows)[id]
    {
      rows := map id | id in rows ::
        if rows[id].user == userID && rows[id].ip == ip && rows[id].expires > now then rows[id].(expires := now + dur) else rows[id];
    }

    /** Exactly the rows past their expiry go; a row that expires this instant stays, though no lookup sees it. */
    method CleanupExpiredSessions(now: real)
      modifies this`rows
      ensures forall id :: id in rows <==> id in old(rows) && old(rows)[id].expires >= now
      ensures forall id :: id in rows ==> rows[id] == old(rows)[id]
      ensures View() == Step(old(View()), Event(now, Cleanup)).0
    {
      rows := map id | id in rows && !(rows[id].expires < now) :: rows[id];
    }

    /** The session a row and its user's groups make. */
    method ReadSession(id: nat) returns (s: Session)
      requires id in rows && rows[id].user in members
      ensures Some(s) == SessionOf(View(), Some(id))
    {
      var ids := ParseGroupIDs(IdList(members[rows[id].user]));
      s := Session(id, rows[id], ids);
    }

    method ValidateSessionAndGroups(tok: string, now: real) returns (r: Option<Session>)
      ensures r == ValidateToken(View(), tok, now)
    {
      var ids := set id | id in rows && rows[id].token == tok && Live(rows[id], now) && rows[id].user in members;
      assert ids == TokenMatches(View(), tok, now);
      var found := First(rows, ids);
      if found.None? {
        return None;
      }
      var s := ReadSession(found.value);
      return Some(s);
    }

    method ValidateSessionByIPInGroups(ip: string, allowed: seq<Int64>, now: real) returns (r: Option<Session>)
      ensures r == ValidateByIp(View(), ip, allowed, now)
    {
      var ids := set id | id in rows && rows[id].ip == ip && Live(rows[id], now)
                          && rows[id].user in members && InGroups(members[rows[id].user], allowed);
      assert ids == IpMatches(View(), ip, allowed, now);
      var found := First(rows, ids);
      if found.None? {
        return None;
      }
      var s := ReadSession(found.value);
      return Some(s);
    }

    method RenewToken(tok: string, now: real)
      modifies this`rows
      ensures View() == Renewed(old(View()), ExtendToken(old(rows), tok, now + SessionDur(hours)))
    {
      if renewOnAccess {
        ExtendSession(tok, SessionDur(hours), now);
        assert rows == ExtendToken(old(rows), tok, now + SessionDur(hours));
      }
    }

    /** Cookie auth, the last resort of `WithAuth`. */
    method CookieAuth(route: CachedRoute, cookie: Option<string>, now: real) returns (answer: Answer)
      requires Parsed(route)
      modifies this`rows
      ensures (View(), answer) == CookieAccess(old(View()), route.access, cookie, now)
    {
      hide ExtendToken, ValidateToken, Entries, InSet;
      if !route.access.persistentLogin {
        return Denied(407);
      }
      if route.groupSet == {} && !route.access.requireLogin {
        return Denied(407);
      }
      if cookie.None? {
        return Denied(407);
      }
      var found := ValidateSessionAndGroups(cookie.value, now);
      if found.None? {
        return Denied(407);
      }
      var sg := found.value;
      var inGroup := GroupsAllow(route.groupSet, sg.groups);
      if !route.access.requireLogin && !inGroup {
        return Denied(403);
      }
      RenewToken(cookie.value, now);
      return ByCookie(sg);
    }

    method RenewFor(user: int, ip: string, now: real)
      modifies this`rows
      ensures View() == RenewOnIp(old(View()), user, ip, now)
    {
      if renewOnAccess {
        ExtendUserSessionsByIP(user, ip, SessionDur(hours), now);
        assert rows == ExtendUserOnIp(old(rows), user, ip, now, now + SessionDur(hours));
      }
    }

    method WithAuth(cached: Option<CachedRoute>, listed: bool, ip: string, cookie: Option<string>, now: real) returns (answer: Answer)
      requires cached.Some? ==> Parsed(cached.value)
      modifies this`rows
      ensures (View(), answer) == HttpAccess(old(View()), AccessOf(cached), listed, ip, cookie, now)
    {
      hide ValidateByIp, CookieAccess, RenewOnIp;
      if cached.None? {
        return Denied(407);
      }
      var route := cached.value;
      if !route.access.ipAuth && route.access.allowedGroups == "" && route.access.allowedIPs == "" && !route.access.requireLogin {
        return Public;
      }
      if route.access.ipAuth {
        var found := ValidateSessionByIPInGroups(ip, route.groupIDs, now);
        if found.Some? {
          RenewFor(found.value.row.user, ip, now);
          return ByIp(found.value);
        }
      }
      if route.access.allowedIPs != "" && listed {
        return Listed;
      }
      answer := CookieAuth(route, cookie, now);
    }

    method AuthorizeIP(cached: Option<CachedRoute>, listed: bool, ip: string, now: real) returns (answer: Answer)
      requires cached.Some? ==> Parsed(cached.value)
      modifies this`rows
      ensures (View(), answer) == RawAccess(old(View()), AccessOf(cached), listed, ip, now)
    {
      hide ValidateByIp, RenewOnIp;
      if cached.None? {
        return Public;
      }
      var route := cached.value;
      if !route.access.ipAuth && route.access.allowedGroups == "" && route.access.allowedIPs == "" {
        return Public;
      }
      if route.access.ipAuth || route.access.allowedGroups != "" {
        var found := ValidateSessionByIPInGroups(ip, route.groupIDs, now);
        if found.Some? {
          RenewFor(found.value.row.user, ip, now);
          return ByIp(found.value);
        }
      }
      if route.access.allowedIPs != "" && listed {
        return Listed;
      }
      return Denied(403);
    }

    method HandleExtendSession(isPost: bool, cookie: Option<string>, target: Target, now: real) returns (answer: Answer)
      modifies this`rows
      ensures (View(), answer) == ExtendRequest(old(View()), isPost, cookie, target, now)
    {
      hide ValidateToken, Lists;
      if !isPost {
        return Denied(405);
      }
      if cookie.None? {
        return Denied(401);
      }
      var found := ValidateSessionAndGroups(cookie.value, now);
      if found.None? {
        return Denied(401);
      }
      if target.Unnamed? {
        return Denied(400);
      }
      if target.Unknown? {
        return Denied(404);
      }
      var allows := RouteAllows(target.allowedGroups, found.value.groups);
      if !allows {
        return Denied(403);
      }
      ExtendSessionByID(found.value.id, SessionDur(hours), now);
      assert rows == ExtendId(old(rows), found.value.id, now + SessionDur(hours));
      return Valid(found.value);
    }
  }
}
