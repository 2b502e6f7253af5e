/** Whom the request gates let in: what each decision comes to, without the order in which its checks run. */
module AccessDecisions {
  import opened Prelude
  import opened Text
  import opened Groups
  import opened Sessions

  predicate Grants(a: Answer) {
    a.Public? || a.Listed? || a.ByIp? || a.ByCookie?
  }

  /** Some live session of an allowed user is held on this address. */
  predicate SessionHere(s: Store, route: Access, ip: string, now: real) {
    exists id :: id in s.rows && s.rows[id].ip == ip && Live(s.rows[id], now)
                 && s.rows[id].user in s.members && InGroups(s.members[s.rows[id].user], GroupIds(route.allowedGroups))
  }

  /** The cookie names a live session, and the route takes any login or lists one of the user's groups. */
  predicate CookieOpens(s: Store, route: Access, cookie: Option<string>, now: real) {
    cookie.Some? && exists id :: id in s.rows && s.rows[id].token == cookie.value && Live(s.rows[id], now)
                                 && s.rows[id].user in s.members
                                 && (route.requireLogin || Lists(route.allowedGroups, s.members[s.rows[id].user]))
  }

  lemma FoundHere(s: Store, route: Access, ip: string, now: real)
    ensures ValidateByIp(s, ip, GroupIds(route.allowedGroups), now).Some? <==> SessionHere(s, route, ip, now)
  {
    var allowed := GroupIds(route.allowedGroups);
    LookupByIp(s, ip, allowed, now);
    hide ValidateByIp, InGroups, Live, GroupIds;
    if id :| id in IpMatches(s, ip, allowed, now) {
      assert SessionHere(s, route, ip, now);
    }
    if SessionHere(s, route, ip, now) {
      var id :| id in s.rows && s.rows[id].ip == ip && Live(s.rows[id], now)
        && s.rows[id].user in s.members && InGroups(s.members[s.rows[id].user], allowed);
      assert id in IpMatches(s, ip, allowed, now);
    }
  }

  /** A token has at most one row, so its lookup finds that row, with the groups of its user. */
  lemma FoundByToken(s: Store, token: string, now: real, id: nat)
    requires Consistent(s) && id in TokenMatches(s, token, now)
    ensures ValidateToken(s, token, now) == Some(Session(id, s.rows[id], s.members[s.rows[id].user]))
  {
    ParseUndoesPrint(s.members[s.rows[id].user]);
  }

  /** Cookie auth lets in exactly whom the cookie opens the route for, if the route takes cookies. */
  lemma CookieGrantedExactly(s: Store, route: Access, cookie: Option<string>, now: real)
    requires Consistent(s)
    ensures CookieAccess(s, route, cookie, now).1.ByCookie? <==> route.persistentLogin && CookieOpens(s, route, cookie, now)
    ensures Grants(CookieAccess(s, route, cookie, now).1) <==> CookieAccess(s, route, cookie, now).1.ByCookie?
  {
    hide ValidateToken, Entries, Lists, Live;
    if cookie.Some? {
      if id :| id in TokenMatches(s, cookie.value, now) {
        FoundByToken(s, cookie.value, now, id);
        TextAndSetAgree(route.allowedGroups, s.members[s.rows[id].user]);
        assert forall j :: j in TokenMatches(s, cookie.value, now) ==> j == id;
      } else {
        NotFoundByToken(s, cookie.value, now);
      }
      if CookieOpens(s, route, cookie, now) {
        var id :| id in s.rows && s.rows[id].token == cookie.value && Live(s.rows[id], now) && s.rows[id].user in s.members
          && (route.requireLogin || Lists(route.allowedGroups, s.members[s.rows[id].user]));
        assert id in TokenMatches(s, cookie.value, now);
      }
    }
  }

  lemma NotFoundByToken(s: Store, token: string, now: real)
    requires TokenMatches(s, token, now) == {}
    ensures ValidateToken(s, token, now).None?
  {
  }

  /**
   The route is cached and either asks for nothing, or takes addresses and a session is held on this one, or
   lists the address, or takes cookies and this one opens it.
   */
  predicate HttpOpens(s: Store, cached: Option<Access>, listed: bool, ip: string, cookie: Option<string>, now: real) {
    cached.Some? &&
    var route := cached.value;
    || (!route.ipAuth && route.allowedGroups == "" && route.allowedIPs == "" && !route.requireLogin)
    || (route.ipAuth && SessionHere(s, route, ip, now))
    || (route.allowedIPs != "" && listed)
    || (route.persistentLogin && CookieOpens(s, route, cookie, now))
  }

  /** An HTTP request gets through exactly if its route opens to it. */
  lemma HttpGrantedExactly(s: Store, cached: Option<Access>, listed: bool, ip: string, cookie: Option<string>, now: real)
    requires Consistent(s)
    ensures Grants(HttpAccess(s, cached, listed, ip, cookie, now).1) <==> HttpOpens(s, cached, listed, ip, cookie, now)
  {
    hide SessionHere, CookieOpens, CookieAccess, ValidateByIp, RenewOnIp;
    if cached.Some? {
      FoundHere(s, cached.value, ip, now);
      CookieGrantedExactly(s, cached.value, cookie, now);
    }
  }

  /** Nothing is asked of the flow, a session is held on its address, or the address is listed. */
  predicate RawOpens(s: Store, cached: Option<Access>, listed: bool, ip: string, now: real) {
    cached.None? ||
    var route := cached.value;
    || (!route.ipAuth && route.allowedGroups == "" && route.allowedIPs == "")
    || ((route.ipAuth || route.allowedGroups != "") && SessionHere(s, route, ip, now))
    || (route.allowedIPs != "" && listed)
  }

  /** A raw flow gets through exactly if its route opens to it. */
  lemma RawGrantedExactly(s: Store, cached: Option<Access>, listed: bool, ip: string, now: real)
    ensures Grants(RawAccess(s, cached, listed, ip, now).1) <==> RawOpens(s, cached, listed, ip, now)
  {
    hide SessionHere, ValidateByIp, RenewOnIp;
    if cached.Some? {
      FoundHere(s, cached.value, ip, now);
    }
  }

  /** Where addresses authorise, HTTP and raw traffic pick the same session and renew the same rows. */
  lemma HttpAndRawAgree(s: Store, route: Access, listed: bool, ip: string, cookie: Option<string>, now: real)
    requires route.ipAuth
    ensures SessionHere(s, route, ip, now) ==>
              && HttpAccess(s, Some(route), listed, ip, cookie, now) == RawAccess(s, Some(route), listed, ip, now)
              && RawAccess(s, Some(route), listed, ip, now).1.ByIp?
    ensures Grants(RawAccess(s, Some(route), listed, ip, now).1) ==> Grants(HttpAccess(s, Some(route), listed, ip, cookie, now).1)
  {
    hide SessionHere, CookieAccess, ValidateByIp, RenewOnIp;
    FoundHere(s, route, ip, now);
  }

  // ---- group restrictions on addresses -------------------------------------------------

  /** A session that authorised the access belongs to a user in one of the listed groups. */
  predicate InListedGroup(a: Answer, route: Access) {
    a.ByIp? ==> Intersects(a.session.groups, GroupIds(route.allowedGroups))
  }

  /** One session on the address "", of a user in no group. */
  function Groupless(): Store {
    Store(map[0 := Row("", 0, "", 1.0)], 1, map[0 := []], false, 0)
  }

  lemma GrouplessIsFound(route: Access)
    requires GroupIds(route.allowedGroups) == []
    ensures var found := ValidateByIp(Groupless(), "", GroupIds(route.allowedGroups), 0.0);
            found.Some? && found.value.groups == []
  {
    LookupByIp(Groupless(), "", GroupIds(route.allowedGroups), 0.0);
    assert 0 in IpMatches(Groupless(), "", GroupIds(route.allowedGroups), 0.0);
  }

  lemma FoundIsListed(s: Store, route: Access, ip: string, now: real)
    requires GroupIds(route.allowedGroups) != []
    ensures var found := ValidateByIp(s, ip, GroupIds(route.allowedGroups), now);
            found.Some? ==> Intersects(found.value.groups, GroupIds(route.allowedGroups))
  {
    LookupByIp(s, ip, GroupIds(route.allowedGroups), now);
  }

  /**
   A raw route that names allowed groups admits by session only their members if and only if the list
   holds at least one number: a list of other text alone lets any session on the address through.
   */
  lemma GroupsEnforcedExactly(route: Access)
    requires route.allowedGroups != ""
    ensures GroupIds(route.allowedGroups) != [] <==>
            forall s, listed, ip, now :: InListedGroup(RawAccess(s, Some(route), listed, ip, now).1, route)
  {
    hide ValidateByIp, GroupIds, RenewOnIp;
    if GroupIds(route.allowedGroups) == [] {
      GrouplessIsFound(route);
      assert !InListedGroup(RawAccess(Groupless(), Some(route), false, "", 0.0).1, route);
    } else {
      forall s, listed, ip, now
        ensures InListedGroup(RawAccess(s, Some(route), listed, ip, now).1, route)
      {
        FoundIsListed(s, route, ip, now);
      }
    }
  }

  // ---- who may extend a session -----------------------------------------------------------

  /** The cookie names row `id`: a live session of an existing user. */
  predicate CookieNames(s: Store, cookie: Option<string>, now: real, id: nat) {
    cookie.Some? && id in s.rows && s.rows[id].token == cookie.value && s.rows[id].expires > now && s.rows[id].user in s.members
  }

  /** The list is empty, or some entry of it, trimmed, is one of these groups. */
  predicate MayEnter(list: string, groups: seq<Int64>) {
    list == "" || exists p, g :: p in Split(list) && g in groups && TrimSpace(p) == Itoa(g)
  }

  /** The cookie names row `id`, whose user the list admits. */
  predicate NamesMember(s: Store, cookie: Option<string>, now: real, id: nat, list: string) {
    CookieNames(s, cookie, now, id) && MayEnter(list, s.members[s.rows[id].user])
  }

  lemma NamedIsFound(s: Store, token: string, now: real, id: nat)
    requires Consistent(s) && CookieNames(s, Some(token), now, id)
    ensures ValidateToken(s, token, now) == Some(Session(id, s.rows[id], s.members[s.rows[id].user]))
    ensures forall j :: CookieNames(s, Some(token), now, j) ==> j == id
  {
    FoundByToken(s, token, now, id);
  }

  lemma UnnamedIsNotFound(s: Store, token: string, now: real)
    requires forall id :: !CookieNames(s, Some(token), now, id)
    ensures ValidateToken(s, token, now).None?
  {
    if id :| id in TokenMatches(s, token, now) {
      assert CookieNames(s, Some(token), now, id);
    }
  }

  lemma MayEnterIsLists(list: string, groups: seq<Int64>)
    ensures MayEnter(list, groups) <==> list == "" || Lists(list, groups)
  {
  }

  lemma ExtendOneRow(rows: Rows, id: nat, expires: real)
    requires id in rows
    ensures ExtendId(rows, id, expires) == rows[id := rows[id].(expires := expires)]
  {
  }

  lemma ExtendOfFound(s: Store, isPost: bool, token: string, target: Target, now: real)
    requires ValidateToken(s, token, now).Some?
    ensures var found := ValidateToken(s, token, now).value;
            ExtendRequest(s, isPost, Some(token), target, now) ==
            if !isPost then (s, Denied(405))
            else if target.Unnamed? then (s, Denied(400))
            else if target.Unknown? then (s, Denied(404))
            else if target.allowedGroups != "" && !Lists(target.allowedGroups, found.groups) then (s, Denied(403))
            else (s.(rows := ExtendId(s.rows, found.id, now + SessionDur(s.hours))), Valid(found))
  {
    hide ValidateToken, Lists, ExtendId, SessionDur;
  }

  /** What extending does for the session that the cookie names. */
  lemma ExtendOfNamed(s: Store, isPost: bool, cookie: Option<string>, target: Target, now: real, id: nat)
    requires Consistent(s) && CookieNames(s, cookie, now, id)
    ensures ExtendRequest(s, isPost, cookie, target, now) ==
            if !isPost then (s, Denied(405))
            else if target.Unnamed? then (s, Denied(400))
            else if target.Unknown? then (s, Denied(404))
            else if !MayEnter(target.allowedGroups, s.members[s.rows[id].user]) then (s, Denied(403))
            else (s.(rows := s.rows[id := s.rows[id].(expires := now + SessionDur(s.hours))]),
                  Valid(Session(id, s.rows[id], s.members[s.rows[id].user])))
  {
    assert cookie.Some? && id in s.rows && s.rows[id].user in s.members;
    hide ExtendRequest, ValidateToken, MayEnter, Lists, ExtendId, Consistent, CookieNames, SessionDur;
    NamedIsFound(s, cookie.value, now, id);
    ExtendOfFound(s, isPost, cookie.value, target, now);
    if target.Known? {
      MayEnterIsLists(target.allowedGroups, s.members[s.rows[id].user]);
    }
    ExtendOneRow(s.rows, id, now + SessionDur(s.hours));
  }

  /**
   Exactly who may extend, and exactly what each refusal means. An extension is a POST whose cookie names a live
   session of a user that the route's list admits; then that row, and no other, expires one duration from now.
   Any other answer changes nothing.
   */
  lemma ExtendGrantedExactly(s: Store, isPost: bool, cookie: Option<string>, target: Target, now: real)
    requires Consistent(s)
    ensures var (s', a) := ExtendRequest(s, isPost, cookie, target, now);
            var known := exists id :: CookieNames(s, cookie, now, id);
            var admitted := target.Known? && exists id :: NamesMember(s, cookie, now, id, target.allowedGroups);
            && (a.Valid? <==> isPost && admitted)
            && (a == Denied(405) <==> !isPost)
            && (a == Denied(401) <==> isPost && !known)
            && (a == Denied(400) <==> isPost && known && target.Unnamed?)
            && (a == Denied(404) <==> isPost && known && target.Unknown?)
            && (a == Denied(403) <==> isPost && known && target.Known? && !admitted)
            && (a.Valid? ==>
                  && CookieNames(s, cookie, now, a.session.id)
                  && s' == s.(rows := s.rows[a.session.id := s.rows[a.session.id].(expires := now + SessionDur(s.hours))]))
            && (!a.Valid? ==> s' == s)
  {
    hide MayEnter, SessionDur;
    if id :| CookieNames(s, cookie, now, id) {
      ExtendOfNamed(s, isPost, cookie, target, now, id);
      NamedIsFound(s, cookie.value, now, id);
      assert id in s.rows && s.rows[id].user in s.members;
      assert target.Known? && MayEnter(target.allowedGroups, s.members[s.rows[id].user]) ==>
               NamesMember(s, cookie, now, id, target.allowedGroups);
      hide ExtendRequest, ValidateToken, Consistent, CookieNames;
    } else {
      if cookie.Some? {
        UnnamedIsNotFound(s, cookie.value, now);
      }
      hide ValidateToken, Consistent, CookieNames;
    }
  }

  // ---- renewal by cookie ---------------------------------------------------------------------

  lemma OwnTokenOnly(s: Store, id: nat, expires: real)
    requires Consistent(s) && id in s.rows
    ensures ExtendToken(s.rows, s.rows[id].token, expires) == s.rows[id := s.rows[id].(expires := expires)]
  {
  }

  lemma GrantedCookie(s: Store, route: Access, cookie: Option<string>, now: real)
    requires CookieAccess(s, route, cookie, now).1.ByCookie?
    ensures cookie.Some? && ValidateToken(s, cookie.value, now).Some?
    ensures CookieAccess(s, route, cookie, now) ==
            (Renewed(s, ExtendToken(s.rows, cookie.value, now + SessionDur(s.hours))),
             ByCookie(ValidateToken(s, cookie.value, now).value))
  {
    hide ValidateToken, Entries, InSet, ExtendToken, Renewed;
  }

  lemma ByCookieIsCookieAccess(s: Store, cached: Option<Access>, listed: bool, ip: string, cookie: Option<string>, now: real)
    requires HttpAccess(s, cached, listed, ip, cookie, now).1.ByCookie?
    ensures cached.Some? && HttpAccess(s, cached, listed, ip, cookie, now) == CookieAccess(s, cached.value, cookie, now)
  {
    hide ValidateByIp, CookieAccess, RenewOnIp;
  }

  lemma FoundIsNamed(s: Store, token: string, now: real)
    requires Consistent(s) && ValidateToken(s, token, now).Some?
    ensures var found := ValidateToken(s, token, now).value;
            CookieNames(s, Some(token), now, found.id) && found.row == s.rows[found.id]
  {
    hide ValidateToken, CookieNames, Consistent;
    if id :| CookieNames(s, Some(token), now, id) {
      NamedIsFound(s, token, now, id);
    } else {
      UnnamedIsNotFound(s, token, now);
    }
  }

  /** A granted cookie renews its own row and no other, if renewal is on. */
  lemma CookieRenewsItsRow(s: Store, cached: Option<Access>, listed: bool, ip: string, cookie: Option<string>, now: real)
    requires Consistent(s) && HttpAccess(s, cached, listed, ip, cookie, now).1.ByCookie?
    ensures var (s', a) := HttpAccess(s, cached, listed, ip, cookie, now);
            && CookieNames(s, cookie, now, a.session.id) && a.session.row == s.rows[a.session.id]
            && s' == if s.renewOnAccess
                     then s.(rows := s.rows[a.session.id := s.rows[a.session.id].(expires := now + SessionDur(s.hours))])
                     else s
  {
    ByCookieIsCookieAccess(s, cached, listed, ip, cookie, now);
    hide HttpAccess, Consistent, ValidateToken, ExtendToken, CookieAccess, SessionDur;
    GrantedCookie(s, cached.value, cookie, now);
    FoundIsNamed(s, cookie.value, now);
    OwnTokenOnly(s, ValidateToken(s, cookie.value, now).value.id, now + SessionDur(s.hours));
  }

  /** An access that no session authorised leaves the store alone. */
  lemma OnlySessionsRenew(s: Store, cached: Option<Access>, listed: bool, ip: string, cookie: Option<string>, now: real)
    ensures var (s', a) := HttpAccess(s, cached, listed, ip, cookie, now);
            !s.renewOnAccess || !(a.ByIp? || a.ByCookie?) ==> s' == s
    ensures var (s', a) := RawAccess(s, cached, listed, ip, now);
            !s.renewOnAccess || !a.ByIp? ==> s' == s
  {
    hide ValidateByIp, ValidateToken, Entries, InSet;
  }

  // ---- every answer ---------------------------------------------------------------------------

  /** The list holds something besides commas and spaces. */
  predicate NamesGroups(list: string) {
    exists p :: p in Split(list) && TrimSpace(p) != ""
  }

  /** The route takes cookies and names groups, and the cookie names a live session. */
  predicate WantsGroup(s: Store, route: Access, cookie: Option<string>, now: real) {
    && route.persistentLogin && !route.requireLogin && NamesGroups(route.allowedGroups)
    && exists id :: id in s.rows && CookieNames(s, cookie, now, id)
  }

  lemma NamesGroupsIsEntries(list: string)
    ensures NamesGroups(list) <==> Entries(list) != {}
  {
    if p :| p in Split(list) && TrimSpace(p) != "" {
      assert TrimSpace(p) in Entries(list);
    }
  }

  /** A cookie is turned away with 403 only for the groups of a live session; every other refusal asks to log in. */
  lemma CookieRefusedExactly(s: Store, route: Access, cookie: Option<string>, now: real)
    requires Consistent(s) && !(route.persistentLogin && CookieOpens(s, route, cookie, now))
    ensures CookieAccess(s, route, cookie, now) ==
            (s, Denied(if WantsGroup(s, route, cookie, now) then 403 else 407))
  {
    CookieGrantedExactly(s, route, cookie, now);
    NamesGroupsIsEntries(route.allowedGroups);
    hide CookieOpens, NamesGroups, Entries;
    if id :| CookieNames(s, cookie, now, id) {
      NamedIsFound(s, cookie.value, now, id);
    } else if cookie.Some? {
      UnnamedIsNotFound(s, cookie.value, now);
    }
    hide ValidateToken, InSet, Consistent, ExtendToken;
  }

  /**
   Every answer of the HTTP decision, and when it is given: open routes first, then a session on the address,
   then the static list, then the cookie; otherwise a login is asked for, or refused for want of a group.
   */
  lemma HttpAnswersExactly(s: Store, cached: Option<Access>, listed: bool, ip: string, cookie: Option<string>, now: real)
    requires Consistent(s)
    ensures var a := HttpAccess(s, cached, listed, ip, cookie, now).1;
            if cached.None? then a == Denied(407)
            else
              var route := cached.value;
              if !route.ipAuth && route.allowedGroups == "" && route.allowedIPs == "" && !route.requireLogin then a == Public
              else if route.ipAuth && SessionHere(s, route, ip, now) then a.ByIp?
              else if route.allowedIPs != "" && listed then a == Listed
              else if route.persistentLogin && CookieOpens(s, route, cookie, now) then a.ByCookie?
              else a == Denied(if WantsGroup(s, route, cookie, now) then 403 else 407)
  {
    hide SessionHere, CookieOpens, CookieAccess, ValidateByIp, RenewOnIp, WantsGroup, Consistent;
    if cached.Some? {
      FoundHere(s, cached.value, ip, now);
      CookieGrantedExactly(s, cached.value, cookie, now);
      if !(cached.value.persistentLogin && CookieOpens(s, cached.value, cookie, now)) {
        CookieRefusedExactly(s, cached.value, cookie, now);
      }
    }
  }

  /** Every answer of the decision on a raw flow, and when it is given. */
  lemma RawAnswersExactly(s: Store, cached: Option<Access>, listed: bool, ip: string, now: real)
    ensures var a := RawAccess(s, cached, listed, ip, now).1;
            if cached.None? then a == Public
            else
              var route := cached.value;
              if !route.ipAuth && route.allowedGroups == "" && route.allowedIPs == "" then a == Public
              else if (route.ipAuth || route.allowedGroups != "") && SessionHere(s, route, ip, now) then a.ByIp?
              else if route.allowedIPs != "" && listed then a == Listed
              else a == Denied(403)
  {
    hide SessionHere, ValidateByIp, RenewOnIp;
    if cached.Some? {
      FoundHere(s, cached.value, ip, now);
    }
  }
}
