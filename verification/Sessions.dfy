/**
 The session store and the access decisions that read and renew it. Tables are maps keyed by row id,
 tokens stand for their hashes, client addresses are in canonical form, and a request is one step that
 reads the clock once.
 */
module Sessions {
  import opened Prelude
  import opened Text
  import opened Groups

  datatype Row = Row(token: string, user: int, ip: string, expires: real)

  type Rows = map<nat, Row>

  /** `members` holds, for each existing user, the ids of the groups the user is in. */
  datatype Store = Store(rows: Rows, nextId: nat, members: map<int, seq<Int64>>, renewOnAccess: bool, hours: int)

  /** A validated session with the user's groups. */
  datatype Session = Session(id: nat, row: Row, groups: seq<Int64>)

  /** The access-control fields of a cached route. */
  datatype Access = Access(ipAuth: bool, allowedGroups: string, allowedIPs: string, requireLogin: bool, persistentLogin: bool)

  datatype Answer =
    | Done
    | Created(ok: bool)
    | Public
    | Listed
    | ByIp(session: Session)
    | ByCookie(session: Session)
    | Valid(session: Session)
    | Denied(status: nat)

  /** Seconds a session lasts under the settings; zero or less means the default week. */
  function SessionDur(hours: int): (d: real)
    ensures d > 0.0
    ensures hours <= 0 ==> d == 7.0 * 86400.0
    ensures hours > 0 ==> d == hours as real * 3600.0
  {
    (if hours <= 0 then 168 else hours) as real * 3600.0
  }

  predicate Live(row: Row, now: real) {
    row.expires > now
  }

  // ---- lookups ------------------------------------------------------------------

  /** Row `a` is listed before row `b`: it expires later, or as late with the smaller id. */
  predicate Before(rows: Rows, a: nat, b: nat)
    requires a in rows && b in rows
  {
    rows[a].expires > rows[b].expires || (rows[a].expires == rows[b].expires && a <= b)
  }

  /** Every row of the set comes no earlier than row `id` of it. */
  predicate IsFirst(rows: Rows, ids: set<nat>, id: nat)
    requires forall j :: j in ids ==> j in rows
  {
    id in ids && forall j :: j in ids ==> Before(rows, id, j)
  }

  lemma FirstOfMore(rows: Rows, ids: set<nat>, id: nat, first: nat)
    requires (forall j :: j in ids ==> j in rows) && id in ids
    requires ids != {id} ==> IsFirst(rows, ids - {id}, first)
    ensures IsFirst(rows, ids, if ids == {id} || Before(rows, id, first) then id else first)
  {
    if ids != {id} {
      assert first in ids - {id};
      forall j | j in ids && j != id
        ensures Before(rows, first, j)
      {
        assert j in ids - {id};
      }
    }
  }

  lemma {:induction false} FirstExists(rows: Rows, ids: set<nat>)
    requires ids != {} && forall id :: id in ids ==> id in rows
    ensures exists id :: IsFirst(rows, ids, id)
    decreases ids
  {
    hide IsFirst, Before;
    var id :| id in ids;
    if ids == {id} {
      FirstOfMore(rows, ids, id, id);
    } else {
      assert ids - {id} != {};
      FirstExists(rows, ids - {id});
      var first :| IsFirst(rows, ids - {id}, first);
      FirstOfMore(rows, ids, id, first);
    }
  }

  /** `ORDER BY expires_at DESC LIMIT 1`, rows of equal expiry in order of id. */
  function First(rows: Rows, ids: set<nat>): (r: Option<nat>)
    requires forall id :: id in ids ==> id in rows
    ensures r.None? <==> ids == {}
    ensures r.Some? ==> r.value in ids && forall j :: j in ids ==> Before(rows, r.value, j)
  {
    if ids == {} then None
    else
      FirstExists(rows, ids);
      var id :| IsFirst(rows, ids, id);
      Some(id)
  }

  /** Rows of existing users that hold this token and are live. */
  function TokenMatches(s: Store, token: string, now: real): set<nat> {
    set id | id in s.rows && s.rows[id].token == token && Live(s.rows[id], now) && s.rows[id].user in s.members
  }

  /** The user is in one of the allowed groups; no allowed group means anybody. */
  predicate InGroups(groups: seq<Int64>, allowed: seq<Int64>) {
    allowed == [] || Intersects(groups, allowed)
  }

  /** Live rows on this address whose user exists and is in one of the allowed groups. */
  function IpMatches(s: Store, ip: string, allowed: seq<Int64>, now: real): set<nat> {
    set id | id in s.rows && s.rows[id].ip == ip && Live(s.rows[id], now)
             && s.rows[id].user in s.members && InGroups(s.members[s.rows[id].user], allowed)
  }

  /** The groups come back from the database as one comma-joined text. */
  function SessionOf(s: Store, id: Option<nat>): Option<Session>
    requires id.Some? ==> id.value in s.rows && s.rows[id.value].user in s.members
  {
    if id.None? then None
    else
      var row := s.rows[id.value];
      Some(Session(id.value, row, GroupIds(IdList(s.members[row.user]))))
  }

  function ValidateToken(s: Store, token: string, now: real): Option<Session> {
    SessionOf(s, First(s.rows, TokenMatches(s, token, now)))
  }

  function ValidateByIp(s: Store, ip: string, allowed: seq<Int64>, now: real): Option<Session> {
    SessionOf(s, First(s.rows, IpMatches(s, ip, allowed, now)))
  }

  /**
   The lookup by address finds a session exactly when some live row on the address belongs to an existing
   user in the allowed groups, however many other rows share the address; it is one that expires last,
   and its groups are the user's.
   */
  lemma LookupByIp(s: Store, ip: string, allowed: seq<Int64>, now: real)
    ensures ValidateByIp(s, ip, allowed, now).Some? <==> exists id :: id in IpMatches(s, ip, allowed, now)
    ensures ValidateByIp(s, ip, allowed, now).Some? ==>
              var found := ValidateByIp(s, ip, allowed, now).value;
              && found.id in IpMatches(s, ip, allowed, now) && found.row == s.rows[found.id]
              && found.groups == s.members[found.row.user]
              && (forall id :: id in IpMatches(s, ip, allowed, now) ==> s.rows[id].expires <= found.row.expires)
  {
    var found := ValidateByIp(s, ip, allowed, now);
    if found.Some? {
      ParseUndoesPrint(s.members[found.value.row.user]);
    }
  }

  // ---- table updates --------------------------------------------------------------

  predicate TokenFree(rows: Rows, token: string) {
    forall id :: id in rows ==> rows[id].token != token
  }

  function WithoutToken(rows: Rows, token: string): Rows {
    map id | id in rows && rows[id].token != token :: rows[id]
  }

  function ExtendToken(rows: Rows, token: string, expires: real): Rows {
    map id | id in rows :: if rows[id].token == token then rows[id].(expires := expires) else rows[id]
  }

  function ExtendId(rows: Rows, which: nat, expires: real): Rows {
    map id | id in rows :: if id == which then rows[id].(expires := expires) else rows[id]
  }

  function ExtendUserOnIp(rows: Rows, user: int, ip: string, now: real, expires: real): Rows {
    map id | id in rows ::
      if rows[id].user == user && rows[id].ip == ip && Live(rows[id], now) then rows[id].(expires := expires) else rows[id]
  }

  function WithoutExpired(rows: Rows, now: real): Rows {
    map id | id in rows && !(rows[id].expires < now) :: rows[id]
  }

  /** Deleting users deletes their sessions. */
  function OfUsers(rows: Rows, gone: set<int>): Rows {
    map id | id in rows && rows[id].user !in gone :: rows[id]
  }

  // ---- requests ---------------------------------------------------------------------

  function Renewed(s: Store, rows: Rows): Store {
    if s.renewOnAccess then s.(rows := rows) else s
  }

  function RenewOnIp(s: Store, user: int, ip: string, now: real): Store {
    Renewed(s, ExtendUserOnIp(s.rows, user, ip, now, now + SessionDur(s.hours)))
  }

  function CookieAccess(s: Store, route: Access, cookie: Option<string>, now: real): (Store, Answer) {
    if !route.persistentLogin then (s, Denied(407))
    else if Entries(route.allowedGroups) == {} && !route.requireLogin then (s, Denied(407))
    else if cookie.None? then (s, Denied(407))
    else
      var found := ValidateToken(s, cookie.value, now);
      if found.None? then (s, Denied(407))
      else if !route.requireLogin && !InSet(Entries(route.allowedGroups), found.value.groups) then (s, Denied(403))
      else (Renewed(s, ExtendToken(s.rows, cookie.value, now + SessionDur(s.hours))), ByCookie(found.value))
  }

  /** The decision of `withAuthForKey`; `listed` is whether the static allowlist matches the address. */
  function HttpAccess(s: Store, cached: Option<Access>, listed: bool, ip: string, cookie: Option<string>, now: real): (Store, Answer) {
    if cached.None? then (s, Denied(407))
    else
      var route := cached.value;
      if !route.ipAuth && route.allowedGroups == "" && route.allowedIPs == "" && !route.requireLogin then (s, Public)
      else
        var found := if route.ipAuth then ValidateByIp(s, ip, GroupIds(route.allowedGroups), now) else None;
        if found.Some? then (RenewOnIp(s, found.value.row.user, ip, now), ByIp(found.value))
        else if route.allowedIPs != "" && listed then (s, Listed)
        else CookieAccess(s, route, cookie, now)
  }

  /** The decision of `authorizeIP` for a raw flow. */
  function RawAccess(s: Store, cached: Option<Access>, listed: bool, ip: string, now: real): (Store, Answer) {
    if cached.None? then (s, Public)
    else
      var route := cached.value;
      if !route.ipAuth && route.allowedGroups == "" && route.allowedIPs == "" then (s, Public)
      else
        var asks := route.ipAuth || route.allowedGroups != "";
        var found := if asks then ValidateByIp(s, ip, GroupIds(route.allowedGroups), now) else None;
        if found.Some? then (RenewOnIp(s, found.value.row.user, ip, now), ByIp(found.value))
        else if route.allowedIPs != "" && listed then (s, Listed)
        else (s, Denied(403))
  }

  /** The route that an extension names: no URL at all, none with that URL, or one with this group list. */
  datatype Target = Unnamed | Unknown | Known(allowedGroups: string)

  /** `HandleExtendSession`: a POST only, validate the cookie, find the route, check its groups, then extend by id. */
  function ExtendRequest(s: Store, isPost: bool, cookie: Option<string>, target: Target, now: real): (Store, Answer) {
    var found := if cookie.None? then None else ValidateToken(s, cookie.value, now);
    if !isPost then (s, Denied(405))
    else if found.None? then (s, Denied(401))
    else if target.Unnamed? then (s, Denied(400))
    else if target.Unknown? then (s, Denied(404))
    else if target.allowedGroups != "" && !Lists(target.allowedGroups, found.value.groups) then (s, Denied(403))
    else (s.(rows := ExtendId(s.rows, found.value.id, now + SessionDur(s.hours))), Valid(found.value))
  }

  datatype Request =
    | Login(user: int, token: string, ip: string)
    | Logout(token: string)
    | Revoke(id: nat, owner: Option<int>)
    | Http(route: Option<Access>, listed: bool, ip: string, cookie: Option<string>)
    | Raw(route: Option<Access>, listed: bool, ip: string)
    | Extend(isPost: bool, cookie: Option<string>, target: Target)
    | WhoAmI(token: string)
    | WhoIsAt(ip: string)
    | SetMembers(members: map<int, seq<Int64>>)
    | Configure(renewOnAccess: bool, hours: int)
    | Cleanup

  datatype Event = Event(now: real, request: Request)

  function Step(s: Store, e: Event): (Store, Answer) {
    match e.request
    case Login(user, token, ip) =>
      if TokenFree(s.rows, token) && user in s.members
      then (s.(rows := s.rows[s.nextId := Row(token, user, ip, e.now + SessionDur(s.hours))], nextId := s.nextId + 1), Created(true))
      else (s, Created(false))
    case Logout(token) => (s.(rows := WithoutToken(s.rows, token)), Done)
    case Revoke(id, owner) =>
      if id in s.rows && (owner.None? || owner.value == s.rows[id].user) then (s.(rows := s.rows - {id}), Done) else (s, Done)
    case Http(route, listed, ip, cookie) => HttpAccess(s, route, listed, ip, cookie, e.now)
    case Raw(route, listed, ip) => RawAccess(s, route, listed, ip, e.now)
    case Extend(isPost, cookie, target) => ExtendRequest(s, isPost, cookie, target, e.now)
    case WhoAmI(token) =>
      var found := ValidateToken(s, token, e.now);
      (s, if found.Some? then Valid(found.value) else Denied(401))
    case WhoIsAt(ip) =>
      var found := ValidateByIp(s, ip, [], e.now);
      (s, if found.Some? then Valid(found.value) else Denied(401))
    case SetMembers(members) =>
      (s.(members := members, rows := OfUsers(s.rows, s.members.Keys - members.Keys)), Done)
    case Configure(renewOnAccess, hours) => (s.(renewOnAccess := renewOnAccess, hours := hours), Done)
    case Cleanup => (s.(rows := WithoutExpired(s.rows, e.now)), Done)
  }

  ghost predicate Monotone(run: seq<Event>) {
    forall i, j :: 0 <= i <= j < |run| ==> run[i].now <= run[j].now
  }

  function At(s0: Store, run: seq<Event>, n: nat): Store
    requires n <= |run|
    decreases n
  {
    if n == 0 then s0 else Step(At(s0, run, n - 1), run[n - 1]).0
  }

  function AnswerAt(s0: Store, run: seq<Event>, n: nat): Answer
    requires n < |run|
  {
    Step(At(s0, run, n), run[n]).1
  }

  /** Tokens are unique, and ids are handed out in order. */
  ghost predicate Consistent(s: Store) {
    && (forall a, b :: a in s.rows && b in s.rows && s.rows[a].token == s.rows[b].token ==> a == b)
    && (forall id :: id in s.rows ==> id < s.nextId)
  }

  /** Every row left is an old one, with at most another expiry. */
  ghost predicate OnlyExpiriesChange(rows: Rows, rows': Rows) {
    forall id :: id in rows' ==> id in rows && rows'[id] == rows[id].(expires := rows'[id].expires)
  }

  lemma AccessChangesExpiries(s: Store, e: Event)
    requires e.request.Http? || e.request.Raw? || e.request.Extend?
    ensures var s' := Step(s, e).0;
            && OnlyExpiriesChange(s.rows, s'.rows) && s'.rows.Keys == s.rows.Keys
            && s' == s.(rows := s'.rows)
  {
    hide First, ValidateByIp, ValidateToken;
  }

  lemma OthersOnlyRemove(s: Store, e: Event)
    requires !e.request.Http? && !e.request.Raw? && !e.request.Extend? && !e.request.Login?
    ensures OnlyExpiriesChange(s.rows, Step(s, e).0.rows) && Step(s, e).0.nextId == s.nextId
  {
  }

  lemma LoginKeepsConsistent(s: Store, e: Event)
    requires Consistent(s) && e.request.Login?
    ensures Consistent(Step(s, e).0)
  {
  }

  /** Every request keeps tokens unique and ids in order. */
  lemma StepKeepsConsistent(s: Store, e: Event)
    requires Consistent(s)
    ensures Consistent(Step(s, e).0)
  {
    hide Step, Consistent, OnlyExpiriesChange;
    if e.request.Login? {
      LoginKeepsConsistent(s, e);
    } else {
      if e.request.Http? || e.request.Raw? || e.request.Extend? {
        AccessChangesExpiries(s, e);
      } else {
        OthersOnlyRemove(s, e);
      }
      ExpiriesKeepConsistent(s, Step(s, e).0);
    }
  }

  lemma ExpiriesKeepConsistent(s: Store, s': Store)
    requires Consistent(s) && OnlyExpiriesChange(s.rows, s'.rows) && s'.nextId == s.nextId
    ensures Consistent(s')
  {
  }
}
