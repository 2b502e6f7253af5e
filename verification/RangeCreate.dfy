/**
 Creating a route for every port of a range: all ports are validated, then created and registered one by
 one, and a port that cannot be created rolls back the ones before it.
 */
module RangeCreate {
  import opened Prelude
  import opened Text
  import opened HostPort
  import opened Registry
  import opened RouteTable
  import LiveRouting

  /** Most ports one range may span. */
  const MAX_RANGE := 256

  /** One range; `base` is the target host and first port when the target port walks along. */
  datatype Range = Range(
    kind: string, host: string, start: int, target: string, base: Option<(string, Int64)>,
    tls: bool, cert: string, key: string, group: string)

  datatype Sys = Sys(table: Table, live: Live)

  datatype Answer = TooLarge | BadTarget | Rejected(port: int) | Conflict(port: int) | Made(count: int, warning: bool)

  function Port(r: Range, k: nat): string {
    Itoa(r.start + k)
  }

  function PortUrl(r: Range, k: nat): string {
    JoinHostPort(r.host, Port(r, k))
  }

  function Target(r: Range, k: nat): string {
    if r.base.None? then r.target
    else
      var first: int := r.base.value.1;
      JoinHostPort(r.base.value.0, Itoa(Wrapped(first + k)))
  }

  function PortEndpoint(r: Range, k: nat): Endpoint {
    Endpoint(Target(r, k), r.kind, r.tls, r.cert, r.key)
  }

  function PortRoute(r: Range, k: nat): Route {
    Route(PortUrl(r, k), Target(r, k), r.kind, r.tls, r.cert, r.key, false)
  }

  function Urls(r: Range, k: nat): set<string> {
    set j | 0 <= j < k :: PortUrl(r, j)
  }

  /** The system after the first `k` ports are created and registered. */
  function Grown(s: Sys, env: Env, r: Range, k: nat): Sys {
    if k == 0 then s
    else
      var g := Grown(s, env, r, k - 1);
      Sys(Created(g.table, PortUrl(r, k - 1), PortEndpoint(r, k - 1), r.group), Register(g.live, env, PortRoute(r, k - 1)).0)
  }

  function UnregisterAll(s: Live, urls: seq<string>): Live {
    if urls == [] then s else Unregister(UnregisterAll(s, urls[..|urls| - 1]), urls[|urls| - 1])
  }

  /** No row carries this range id yet. */
  ghost predicate FreshGroup(t: Table, group: string) {
    group != "" && forall u :: u in t ==> t[u].rangeGroup != group
  }

  ghost predicate NoneTaken(t: Table, r: Range, k: nat) {
    forall j :: 0 <= j < k ==> PortUrl(r, j) !in t
  }

  /** A create request for a range, as its handler passes it on. */
  datatype Request = Request(
    kind: string, host: string, startPort: Int64, endPort: Int64, target: string, offset: bool,
    tls: bool, cert: string, key: string)

  function Span(q: Request): int {
    var first: int, last: int := q.startPort, q.endPort;
    last - first + 1
  }

  /** The range a request asks for; Err when its target should walk along but has no port number. */
  function Requested(q: Request, group: string): Result<Range> {
    if !q.offset then Ok(Range(q.kind, q.host, q.startPort, q.target, None, q.tls, q.cert, q.key, group))
    else
      var base := SplitHostPortNum(q.target);
      if base.Err? then Err
      else Ok(Range(q.kind, q.host, q.startPort, q.target, Some(base.value), q.tls, q.cert, q.key, group))
  }

  // ---- ports and URLs ----------------------------------------------------------------

  lemma PortUrlParts(r: Range, k: nat)
    ensures PortUrl(r, k) == Url(Bracketed(r.host), Port(r, k))
    ensures ':' !in Port(r, k) && ParseHostPort(PortUrl(r, k)) == Some((Bracketed(r.host), Port(r, k)))
  {
    PortIsPlain(r.start + k);
    JoinIsUrl(r.host, Port(r, k));
    ParseIsInverse(PortUrl(r, k), Bracketed(r.host), Port(r, k));
  }

  lemma PortsDiffer(r: Range, j: nat, k: nat)
    requires Port(r, j) == Port(r, k) || PortUrl(r, j) == PortUrl(r, k)
    ensures j == k
  {
    PortUrlParts(r, j);
    PortUrlParts(r, k);
    ItoaInjective(r.start + j, r.start + k);
  }

  // ---- the table -----------------------------------------------------------------------

  lemma {:induction false} GrownTable(s: Sys, env: Env, r: Range, k: nat)
    ensures var t := Grown(s, env, r, k).table;
            && t.Keys == s.table.Keys + Urls(r, k)
            && (forall j :: 0 <= j < k ==> t[PortUrl(r, j)] == Row(PortEndpoint(r, j), FromUi, true, OPEN, r.group))
            && (forall u :: u in s.table && u !in Urls(r, k) ==> t[u] == s.table[u])
  {
    hide PortUrl, PortEndpoint, Register;
    if k > 0 {
      GrownTable(s, env, r, k - 1);
      assert Urls(r, k) == Urls(r, k - 1) + {PortUrl(r, k - 1)};
      forall j | 0 <= j < k - 1
        ensures PortUrl(r, j) != PortUrl(r, k - 1)
      {
        if PortUrl(r, j) == PortUrl(r, k - 1) {
          PortsDiffer(r, j, k - 1);
        }
      }
    }
  }

  /** Deleting the range's rows after any number of ports leaves exactly the table before. */
  lemma {:induction false} RollbackTable(s: Sys, env: Env, r: Range, k: nat)
    requires FreshGroup(s.table, r.group) && NoneTaken(s.table, r, k)
    ensures var t := Grown(s, env, r, k).table;
            GroupUrls(t, r.group) == Urls(r, k) && t - GroupUrls(t, r.group) == s.table
  {
    GrownTable(s, env, r, k);
    hide Grown, PortUrl, PortEndpoint;
    var t := Grown(s, env, r, k).table;
    forall u
      ensures u in GroupUrls(t, r.group) <==> u in Urls(r, k)
    {
    }
  }

  /**
   A range that succeeds adds exactly one row per port, with the target port walking along with the listen
   port when the range has a base, and changes no other row.
   */
  lemma {:induction false} SuccessAddsOneRowPerPort(s: Sys, env: Env, r: Range, count: nat)
    requires NoneTaken(s.table, r, count)
    ensures var t := Grown(s, env, r, count).table;
            && (forall u :: u in t && u !in s.table <==> exists k :: 0 <= k < count && u == PortUrl(r, k))
            && (forall j, k :: 0 <= j < k < count ==> PortUrl(r, j) != PortUrl(r, k))
            && (forall u :: u in s.table ==> u in t && t[u] == s.table[u])
            && (forall k :: 0 <= k < count ==> t[PortUrl(r, k)] == Row(PortEndpoint(r, k), FromUi, true, OPEN, r.group))
  {
    hide PortUrl, PortEndpoint;
    GrownTable(s, env, r, count);
    forall j, k | 0 <= j < k < count
      ensures PortUrl(r, j) != PortUrl(r, k)
    {
      if PortUrl(r, j) == PortUrl(r, k) {
        PortsDiffer(r, j, k);
      }
    }
  }

  /** With a base, port `start + k` forwards to the base's host at its port plus `k`; without one, to the target as given. */
  lemma OffsetWalks(r: Range, k: nat)
    ensures r.base.None? ==> PortEndpoint(r, k).target == r.target
    ensures r.base.Some? && Plain(r.base.value.0) && InInt64(r.base.value.1 as int + k).Some? ==>
              SplitHostPortNum(PortEndpoint(r, k).target) == Ok((r.base.value.0, InInt64(r.base.value.1 as int + k).value))
    ensures Plain(r.host) && InInt64(r.start + k).Some? ==>
              SplitHostPortNum(PortUrl(r, k)) == Ok((r.host, InInt64(r.start + k).value))
  {
    hide JoinHostPort, SplitHostPortNum, Itoa;
    if Plain(r.host) && InInt64(r.start + k).Some? {
      NumberedRoundTrip(r.host, r.start + k);
    }
    if r.base.Some? && Plain(r.base.value.0) && InInt64(r.base.value.1 as int + k).Some? {
      NumberedRoundTrip(r.base.value.0, r.base.value.1 as int + k);
    }
  }

  // ---- handlers after a rollback ---------------------------------------------

  lemma {:induction false} GrownRoutes(s: Sys, env: Env, r: Range, k: nat, host: string, port: string)
    requires ':' !in port && Url(host, port) !in Urls(r, k)
    ensures Routed(Grown(s, env, r, k).live, host, port) == Routed(s.live, host, port)
  {
    hide Register, Routed, PortUrl, Target, Url;
    if k > 0 {
      assert Urls(r, k) == Urls(r, k - 1) + {PortUrl(r, k - 1)};
      GrownRoutes(s, env, r, k - 1, host, port);
      LiveRouting.AddRoutes(Grown(s, env, r, k - 1).live, env, PortRoute(r, k - 1), host, port);
    }
  }

  lemma {:induction false} UnregisteredRoutes(s: Live, urls: seq<string>, host: string, port: string)
    requires ':' !in port
    ensures Routed(UnregisterAll(s, urls), host, port) == if Url(host, port) in urls then None else Routed(s, host, port)
  {
    hide Routed, Unregister, Url;
    if urls != [] {
      var init, last := urls[..|urls| - 1], urls[|urls| - 1];
      UnregisteredRoutes(s, init, host, port);
      LiveRouting.RemoveRoutes(UnregisterAll(s, init), last, host, port);
      assert urls == init + [last];
    }
  }

  /** What the system looks like after port `k` failed and the ports before it were rolled back, in any order. */
  ghost predicate RolledBack(s: Sys, env: Env, r: Range, k: nat, s': Sys) {
    exists urls :: Lists(urls, Urls(r, k)) && s' == Sys(s.table, UnregisterAll(Grown(s, env, r, k).live, urls))
  }

  /** Every live HTTP route has a row in the table. */
  ghost predicate LiveHasRows(s: Sys) {
    forall host, port :: ':' !in port && Routed(s.live, host, port).Some? ==> Url(host, port) in s.table
  }

  /**
   After a rollback every host and port has the handler it had before, for ranges of any kind,
   whether or not their registrations succeeded, given that every live route has a row.
   */
  lemma RollbackRestoresRouting(s: Sys, env: Env, r: Range, k: nat, s': Sys, host: string, port: string)
    requires NoneTaken(s.table, r, k) && LiveHasRows(s) && RolledBack(s, env, r, k, s') && ':' !in port
    ensures Routed(s'.live, host, port) == Routed(s.live, host, port)
  {
    var urls :| Lists(urls, Urls(r, k)) && s' == Sys(s.table, UnregisterAll(Grown(s, env, r, k).live, urls));
    UnregisteredRoutes(Grown(s, env, r, k).live, urls, host, port);
    if Url(host, port) !in Urls(r, k) {
      GrownRoutes(s, env, r, k, host, port);
    }
  }

  // ---- the raw listeners after a rollback ---------------------------------------------------

  /** Raw listeners of these ports are stopped: no HTTP listener makes `UnregisterRoute` return early. */
  function Stopped(s: Live, urls: set<string>): set<string> {
    set u | u in urls && ParseHostPort(u).Some? && ParseHostPort(u).value.1 !in s.servers :: ParseHostPort(u).value.1
  }

  lemma UnregisterRaw(s: Live, url: string)
    ensures Unregister(s, url).servers.Keys == s.servers.Keys
    ensures Unregister(s, url).tcp == s.tcp - Stopped(s, {url})
    ensures Unregister(s, url).udp == s.udp - Stopped(s, {url})
  {
    hide ParseHostPort;
    var parts := ParseHostPort(url);
    if parts.Some? && parts.value.1 !in s.servers {
      assert Stopped(s, {url}) == {parts.value.1};
    } else {
      assert Stopped(s, {url}) == {};
    }
  }

  lemma StoppedTogether(s: Live, a: set<string>, b: set<string>)
    ensures Stopped(s, a + b) == Stopped(s, a) + Stopped(s, b)
  {
    hide ParseHostPort;
  }

  lemma StoppedBy(s: Live, s': Live, urls: set<string>)
    requires s.servers.Keys == s'.servers.Keys
    ensures Stopped(s, urls) == Stopped(s', urls)
  {
    hide ParseHostPort;
  }

  function Members(urls: seq<string>): set<string> {
    set u | u in urls
  }

  lemma RemovedTwice(m: map<string, Raw>, a: set<string>, b: set<string>)
    ensures m - a - b == m - (a + b)
  {
  }

  lemma {:induction false} UnregisterLast(s: Live, init: seq<string>, last: string)
    ensures UnregisterAll(s, init + [last]) == Unregister(UnregisterAll(s, init), last)
    ensures Members(init + [last]) == Members(init) + {last}
  {
    assert (init + [last])[..|init|] == init;
  }

  lemma {:induction false} UnregisteredRaw(s: Live, urls: seq<string>)
    ensures UnregisterAll(s, urls).servers.Keys == s.servers.Keys
    ensures UnregisterAll(s, urls).tcp == s.tcp - Stopped(s, Members(urls))
    ensures UnregisterAll(s, urls).udp == s.udp - Stopped(s, Members(urls))
  {
    if urls == [] {
      assert Members(urls) == {};
    } else {
      hide *;
      var init, last := urls[..|urls| - 1], urls[|urls| - 1];
      assert urls == init + [last];
      UnregisteredRaw(s, init);
      UnregisterLast(s, init, last);
      UnregisterRaw(UnregisterAll(s, init), last);
      StoppedBy(UnregisterAll(s, init), s, {last});
      StoppedTogether(s, Members(init), {last});
      RemovedTwice(s.tcp, Stopped(s, Members(init)), Stopped(s, {last}));
      RemovedTwice(s.udp, Stopped(s, Members(init)), Stopped(s, {last}));
    }
  }

  /** A port among the first `k` of the range. */
  predicate IsPort(r: Range, k: nat, port: string) {
    exists j :: 0 <= j < k && port == Port(r, j)
  }

  /** `g` differs from `s` in raw listeners of the first `k` ports only, and has those of the range's kind. */
  ghost predicate RawAdded(s: Live, r: Range, k: nat, g: Live) {
    && g.servers == s.servers
    && (forall p :: IsPort(r, k, p) && IsTcp(r.kind) ==> p in g.tcp)
    && (forall p :: IsPort(r, k, p) && IsUdp(r.kind) ==> p in g.udp)
    && (forall p :: !IsPort(r, k, p) || !IsTcp(r.kind) ==> Lookup(g.tcp, p) == Lookup(s.tcp, p))
    && (forall p :: !IsPort(r, k, p) || !IsUdp(r.kind) ==> Lookup(g.udp, p) == Lookup(s.udp, p))
  }

  lemma RegisterRawPort(s: Live, env: Env, r: Range, k: nat)
    requires IsRaw(r.kind)
    ensures Register(s, env, PortRoute(r, k)).0 == StartRaw(s, PortRoute(r, k), Port(r, k))
  {
    PortUrlParts(r, k);
    hide ParseHostPort, PortUrl, Port;
  }

  lemma {:induction false} NothingAdded(s: Sys, env: Env, r: Range)
    ensures RawAdded(s.live, r, 0, Grown(s, env, r, 0).live)
  {
  }

  lemma GrownStep(s: Sys, env: Env, r: Range, k: nat)
    ensures Grown(s, env, r, k + 1).live == Register(Grown(s, env, r, k).live, env, PortRoute(r, k)).0
    ensures Grown(s, env, r, k + 1).table == Created(Grown(s, env, r, k).table, PortUrl(r, k), PortEndpoint(r, k), r.group)
  {
  }

  lemma IsPortStep(r: Range, k: nat, p: string)
    ensures IsPort(r, k + 1, p) <==> IsPort(r, k, p) || p == Port(r, k)
  {
    hide Port;
    if p == Port(r, k) {
      assert 0 <= k < k + 1 && p == Port(r, k);
    }
  }

  lemma RawAddedStep(s: Live, r: Range, k: nat, g: Live)
    requires RawAdded(s, r, k, g)
    ensures RawAdded(s, r, k + 1, StartRaw(g, PortRoute(r, k), Port(r, k)))
  {
    hide Port, IsPort, PortUrl, Target;
    forall p
      ensures IsPort(r, k + 1, p) <==> IsPort(r, k, p) || p == Port(r, k)
    {
      IsPortStep(r, k, p);
    }
  }

  /** A raw range adds its ports to the raw tables its kind needs, and leaves HTTP alone. */
  lemma {:induction false} GrownRaw(s: Sys, env: Env, r: Range, k: nat)
    requires IsRaw(r.kind)
    ensures RawAdded(s.live, r, k, Grown(s, env, r, k).live)
  {
    hide *;
    if k == 0 {
      NothingAdded(s, env, r);
    } else {
      GrownRaw(s, env, r, k - 1);
      GrownStep(s, env, r, k - 1);
      RegisterRawPort(Grown(s, env, r, k - 1).live, env, r, k - 1);
      RawAddedStep(s.live, r, k - 1, Grown(s, env, r, k - 1).live);
    }
  }

  /** Port `p` has an HTTP listener once the first `k` ports are registered. */
  predicate Listening(s: Live, env: Env, r: Range, k: nat, p: string) {
    p in s.servers || exists j :: 0 <= j < k && p == Port(r, j) && p !in s.tcp && env.listens(PortRoute(r, j))
  }

  ghost predicate HttpAdded(s: Live, env: Env, r: Range, k: nat, g: Live) {
    && g.tcp == s.tcp && g.udp == s.udp
    && (forall p :: p in g.servers <==> Listening(s, env, r, k, p))
  }

  lemma RegisterHttpPort(s: Live, env: Env, r: Range, k: nat)
    requires !IsRaw(r.kind)
    ensures var g, p := Register(s, env, PortRoute(r, k)).0, Port(r, k);
            && g.tcp == s.tcp && g.udp == s.udp
            && g.servers.Keys == s.servers.Keys + (if p !in s.tcp && env.listens(PortRoute(r, k)) then {p} else {})
  {
    PortUrlParts(r, k);
    hide ParseHostPort, PortUrl, Port, Handles, WithRoute;
  }

  lemma ListeningStep(s: Live, env: Env, r: Range, k: nat, p: string)
    ensures Listening(s, env, r, k + 1, p) <==>
            Listening(s, env, r, k, p) || (p == Port(r, k) && p !in s.tcp && env.listens(PortRoute(r, k)))
  {
    hide Port;
    if p == Port(r, k) && p !in s.tcp && env.listens(PortRoute(r, k)) {
      assert 0 <= k < k + 1 && p == Port(r, k);
    }
  }

  lemma HttpAddedStep(s: Live, env: Env, r: Range, k: nat, g: Live)
    requires !IsRaw(r.kind) && HttpAdded(s, env, r, k, g)
    ensures HttpAdded(s, env, r, k + 1, Register(g, env, PortRoute(r, k)).0)
  {
    RegisterHttpPort(g, env, r, k);
    hide Register, Port, Listening;
    forall p
      ensures p in Register(g, env, PortRoute(r, k)).0.servers <==> Listening(s, env, r, k + 1, p)
    {
      ListeningStep(s, env, r, k, p);
    }
  }

  /** An HTTP range leaves the raw tables alone and listens on the ports whose listener starts. */
  lemma {:induction false} GrownHttp(s: Sys, env: Env, r: Range, k: nat)
    requires !IsRaw(r.kind)
    ensures HttpAdded(s.live, env, r, k, Grown(s, env, r, k).live)
  {
    hide *;
    if k == 0 {
      NoHttpAdded(s, env, r);
    } else {
      GrownHttp(s, env, r, k - 1);
      GrownStep(s, env, r, k - 1);
      HttpAddedStep(s.live, env, r, k - 1, Grown(s, env, r, k - 1).live);
    }
  }

  lemma {:induction false} NoHttpAdded(s: Sys, env: Env, r: Range)
    ensures HttpAdded(s.live, env, r, 0, Grown(s, env, r, 0).live)
  {
  }

  lemma StoppedPorts(g: Live, r: Range, k: nat, p: string)
    ensures p in Stopped(g, Urls(r, k)) <==> IsPort(r, k, p) && p !in g.servers
  {
    hide PortUrl, Port, ParseHostPort;
    if p in Stopped(g, Urls(r, k)) {
      var u :| u in Urls(r, k) && ParseHostPort(u).Some? && ParseHostPort(u).value.1 == p && p !in g.servers;
      var j :| 0 <= j < k && u == PortUrl(r, j);
      PortUrlParts(r, j);
      assert IsPort(r, k, p);
    }
    if IsPort(r, k, p) && p !in g.servers {
      var j :| 0 <= j < k && p == Port(r, j);
      PortUrlParts(r, j);
      assert PortUrl(r, j) in Urls(r, k);
    }
  }

  /** The raw tables after a rollback: those of the grown system without the stopped ports. */
  lemma {:induction false} RollbackRaw(s: Sys, env: Env, r: Range, k: nat, s': Sys)
    requires RolledBack(s, env, r, k, s')
    ensures var g := Grown(s, env, r, k).live;
            && s'.live.tcp == g.tcp - Stopped(g, Urls(r, k)) && s'.live.udp == g.udp - Stopped(g, Urls(r, k))
  {
    var urls :| Lists(urls, Urls(r, k)) && s' == Sys(s.table, UnregisterAll(Grown(s, env, r, k).live, urls));
    UnregisteredRaw(Grown(s, env, r, k).live, urls);
    assert Members(urls) == Urls(r, k);
  }

  /** Every port of the range was validated before anything was created. */
  ghost predicate AllValidated(s: Live, r: Range, k: nat) {
    forall j :: 0 <= j < k ==> Validates(s, PortUrl(r, j), r.kind)
  }

  /**
   The rollback of port `j` gives the raw tables back: a raw range needs the port to have no other listener,
   an HTTP range an HTTP listener there by then, or no UDP listener.
   */
  predicate Restorable(s: Live, env: Env, r: Range, j: nat) {
    var p := Port(r, j);
    if IsRaw(r.kind) then p !in s.servers && p !in s.tcp && p !in s.udp
    else p in s.servers || env.listens(PortRoute(r, j)) || p !in s.udp
  }

  lemma ValidatedPort(s: Live, r: Range, k: nat, j: nat)
    requires AllValidated(s, r, k) && j < k
    ensures var p := Port(r, j);
            && (IsTcp(r.kind) || !IsRaw(r.kind) ==> p !in s.tcp)
            && (IsTcp(r.kind) ==> p !in s.servers)
            && (IsUdp(r.kind) ==> p !in s.udp)
  {
    PortUrlParts(r, j);
    assert Validates(s, PortUrl(r, j), r.kind);
    hide ParseHostPort, PortUrl, Port;
  }

  lemma RawRangeRestored(s: Sys, env: Env, r: Range, k: nat, s': Sys)
    requires IsRaw(r.kind) && AllValidated(s.live, r, k) && RolledBack(s, env, r, k, s')
    ensures s'.live.tcp == s.live.tcp && s'.live.udp == s.live.udp <==> forall j :: 0 <= j < k ==> Restorable(s.live, env, r, j)
  {
    var g := Grown(s, env, r, k).live;
    GrownRaw(s, env, r, k);
    RollbackRaw(s, env, r, k, s');
    hide PortUrl, Port, Grown, RolledBack, Stopped, AllValidated, PortRoute;
    if j :| 0 <= j < k && !Restorable(s.live, env, r, j) {
      var p := Port(r, j);
      assert IsPort(r, k, p);
      StoppedPorts(g, r, k, p);
      ValidatedPort(s.live, r, k, j);
    } else {
      forall p
        ensures Lookup(s'.live.tcp, p) == Lookup(s.live.tcp, p) && Lookup(s'.live.udp, p) == Lookup(s.live.udp, p)
      {
        StoppedPorts(g, r, k, p);
        if IsPort(r, k, p) {
          var j :| 0 <= j < k && p == Port(r, j);
          assert Restorable(s.live, env, r, j);
        }
      }
      SameLookups(s'.live.tcp, s.live.tcp);
      SameLookups(s'.live.udp, s.live.udp);
    }
  }

  lemma SameLookups(a: map<string, Raw>, b: map<string, Raw>)
    requires forall p :: Lookup(a, p) == Lookup(b, p)
    ensures a == b
  {
    forall p
      ensures p in a <==> p in b
      ensures p in a ==> a[p] == b[p]
    {
      assert Lookup(a, p) == Lookup(b, p);
    }
  }

  /** The rollback of an HTTP range stops the raw listeners of port `j` exactly when nothing listens there for HTTP. */
  lemma {:induction false} HttpPortStopped(s: Sys, env: Env, r: Range, k: nat, j: nat)
    requires !IsRaw(r.kind) && j < k && AllValidated(s.live, r, k)
    ensures Port(r, j) !in s.live.tcp
    ensures Port(r, j) in Stopped(Grown(s, env, r, k).live, Urls(r, k))
       <==> Port(r, j) !in s.live.servers && !env.listens(PortRoute(r, j))
  {
    var p := Port(r, j);
    hide PortUrl, Port, Grown, Stopped, AllValidated, PortRoute;
    GrownHttp(s, env, r, k);
    ValidatedPort(s.live, r, k, j);
    assert IsPort(r, k, p);
    StoppedPorts(Grown(s, env, r, k).live, r, k, p);
    if i :| 0 <= i < k && p == Port(r, i) && env.listens(PortRoute(r, i)) {
      PortsDiffer(r, i, j);
    }
  }

  lemma HttpRangeRestored(s: Sys, env: Env, r: Range, k: nat, s': Sys)
    requires !IsRaw(r.kind) && AllValidated(s.live, r, k) && RolledBack(s, env, r, k, s')
    ensures s'.live.tcp == s.live.tcp && s'.live.udp == s.live.udp <==> forall j :: 0 <= j < k ==> Restorable(s.live, env, r, j)
  {
    GrownHttp(s, env, r, k);
    RollbackRaw(s, env, r, k, s');
    hide PortUrl, Port, Grown, RolledBack, Stopped, AllValidated, PortRoute, Listening;
    var stopped := Stopped(Grown(s, env, r, k).live, Urls(r, k));
    forall p | p in stopped
      ensures exists j :: 0 <= j < k && p == Port(r, j)
    {
      StoppedPorts(Grown(s, env, r, k).live, r, k, p);
    }
    forall j | 0 <= j < k
      ensures Port(r, j) !in s.live.tcp
      ensures Restorable(s.live, env, r, j) <==> Port(r, j) !in stopped || Port(r, j) !in s.live.udp
    {
      HttpPortStopped(s, env, r, k, j);
    }
    assert s'.live.udp == s.live.udp - stopped && s'.live.tcp == s.live.tcp - stopped;
    LosesNone(s.live.tcp, stopped);
    LosesNone(s.live.udp, stopped);
    hide Restorable;
  }

  lemma LosesNone(m: map<string, Raw>, gone: set<string>)
    ensures m - gone == m <==> forall p :: p in gone ==> p !in m
  {
    assert (m - gone).Keys == m.Keys - gone;
  }

  /**
   The rollback of a validated range gives the raw listener tables back exactly when every port it had
   created is restorable; otherwise it stops a listener of another route, or leaves one running.
   */
  lemma RollbackRestoresRaw(s: Sys, env: Env, r: Range, k: nat, s': Sys)
    requires AllValidated(s.live, r, k) && RolledBack(s, env, r, k, s')
    ensures s'.live.tcp == s.live.tcp && s'.live.udp == s.live.udp <==> forall j :: 0 <= j < k ==> Restorable(s.live, env, r, j)
  {
    if IsRaw(r.kind) {
      RawRangeRestored(s, env, r, k, s');
    } else {
      HttpRangeRestored(s, env, r, k, s');
    }
  }

  /** Two ports from 1 on, of this kind, on this host. */
  function TwoPorts(kind: string, host: string): Range {
    Range(kind, host, 1, "target:9", None, false, "", "", "range")
  }

  /** The second port's URL is taken by a row that is not live. */
  function SecondTaken(kind: string, host: string, live: Live): Sys {
    Sys(map[PortUrl(TwoPorts(kind, host), 1) := Row(Endpoint("x:1", kind, false, "", ""), FromUi, true, OPEN, "")], live)
  }

  /** Both ports validate, the first is made, and the second conflicts. */
  ghost predicate ConflictsAtSecond(s: Sys, r: Range) {
    AllValidated(s.live, r, 2) && FreshGroup(s.table, r.group) && NoneTaken(s.table, r, 1) && PortUrl(r, 1) in s.table
  }

  lemma ConflictsSo(kind: string, host: string, live: Live)
    requires IsRaw(kind) && live.tcp == map[]
    requires IsTcp(kind) ==> live.servers == map[]
    requires IsUdp(kind) ==> live.udp == map[]
    ensures ConflictsAtSecond(SecondTaken(kind, host, live), TwoPorts(kind, host))
  {
    hide PortUrl, Port, ParseHostPort;
    var r := TwoPorts(kind, host);
    AllFree(live, r, 2);
    if PortUrl(r, 0) == PortUrl(r, 1) {
      PortsDiffer(r, 0, 1);
    }
    hide AllValidated;
  }

  lemma AllFree(live: Live, r: Range, k: nat)
    requires IsRaw(r.kind) && live.tcp == map[]
    requires IsTcp(r.kind) ==> live.servers == map[]
    requires IsUdp(r.kind) ==> live.udp == map[]
    ensures AllValidated(live, r, k)
  {
    hide PortUrl, Port, ParseHostPort;
    forall j | 0 <= j < k
      ensures Validates(live, PortUrl(r, j), r.kind)
    {
      PortUrlParts(r, j);
    }
  }

  /** One input: a UDP range whose first port serves HTTP. Its rollback leaves the new UDP listener running. */
  lemma RollbackLeavesUdp(host: string, env: Env, s': Sys)
    requires var r := TwoPorts("udp", host);
             var l := Listener(false, "", "", map[], map[]);
             RolledBack(SecondTaken("udp", host, Live(map[Port(r, 0) := l], map[], map[])), env, r, 1, s')
    ensures var r := TwoPorts("udp", host);
            var s := SecondTaken("udp", host, Live(map[Port(r, 0) := Listener(false, "", "", map[], map[])], map[], map[]));
            ConflictsAtSecond(s, r) && Port(r, 0) !in s.live.udp && Port(r, 0) in s'.live.udp
  {
    var r, l := TwoPorts("udp", host), Listener(false, "", "", map[], map[]);
    var live := Live(map[Port(r, 0) := l], map[], map[]);
    var s := SecondTaken("udp", host, live);
    ConflictsSo("udp", host, live);
    FirstPortAfter(s, env, r, s');
    GrownRaw(s, env, r, 1);
    assert IsPort(r, 1, Port(r, 0));
    hide Port, IsPort, PortUrl, Grown, RolledBack, ConflictsAtSecond;
  }

  /** One input: a TCP range whose first port has another route's UDP listener. Its rollback stops that listener. */
  lemma RollbackStopsUdp(host: string, env: Env, other: Raw, s': Sys)
    requires var r := TwoPorts("tcp", host);
             RolledBack(SecondTaken("tcp", host, Live(map[], map[], map[Port(r, 0) := other])), env, r, 1, s')
    ensures var r := TwoPorts("tcp", host);
            var s := SecondTaken("tcp", host, Live(map[], map[], map[Port(r, 0) := other]));
            ConflictsAtSecond(s, r) && Port(r, 0) in s.live.udp && Port(r, 0) !in s'.live.udp
  {
    var r := TwoPorts("tcp", host);
    var live := Live(map[], map[], map[Port(r, 0) := other]);
    var s := SecondTaken("tcp", host, live);
    ConflictsSo("tcp", host, live);
    FirstPortAfter(s, env, r, s');
    hide Port, IsPort, PortUrl, Grown, RolledBack, ConflictsAtSecond;
  }

  lemma {:induction false} FirstPortAfter(s: Sys, env: Env, r: Range, s': Sys)
    requires IsRaw(r.kind) && RolledBack(s, env, r, 1, s')
    ensures var g, p := Grown(s, env, r, 1).live, Port(r, 0);
            Lookup(s'.live.udp, p) == if p in s.live.servers then Lookup(g.udp, p) else None
  {
    var g, p := Grown(s, env, r, 1).live, Port(r, 0);
    GrownRaw(s, env, r, 1);
    RollbackRaw(s, env, r, 1, s');
    StoppedPorts(g, r, 1, p);
    assert IsPort(r, 1, p);
    hide Port, IsPort, PortUrl, Grown, RolledBack, Stopped;
  }

  /** An HTTP listener that a rolled back range started keeps running, with no route; no other one starts or stops. */
  lemma RollbackKeepsListeners(s: Sys, env: Env, r: Range, k: nat, s': Sys, p: string)
    requires RolledBack(s, env, r, k, s')
    ensures p in s'.live.servers <==> if IsRaw(r.kind) then p in s.live.servers else Listening(s.live, env, r, k, p)
  {
    hide Grown, Listening, UnregisterAll;
    var urls :| Lists(urls, Urls(r, k)) && s' == Sys(s.table, UnregisterAll(Grown(s, env, r, k).live, urls));
    UnregisteredRaw(Grown(s, env, r, k).live, urls);
    if IsRaw(r.kind) {
      GrownRaw(s, env, r, k);
      assert RawAdded(s.live, r, k, Grown(s, env, r, k).live);
    } else {
      GrownHttp(s, env, r, k);
    }
  }

  // ---- the handler --------------------------------------------------------------------------

  /** Registering port `k` of the range on top of the ports before it did not make it live. */
  ghost predicate NotLive(s: Sys, env: Env, r: Range, k: nat) {
    !Register(Grown(s, env, r, k).live, env, PortRoute(r, k)).1
  }

  /** What an answer tells about the state before, and the state it leaves. */
  ghost predicate Answers(s: Sys, env: Env, q: Request, group: string, answer: Answer, s': Sys) {
    var r, span := Requested(q, group), Span(q);
    match answer
    case TooLarge => span > MAX_RANGE && s' == s
    case BadTarget => span <= MAX_RANGE && r.Err? && s' == s
    case Rejected(port) =>
      && 0 <= port - q.startPort < span <= MAX_RANGE && r.Ok? && s' == s
      && AllValidated(s.live, r.value, port - q.startPort)
      && !Validates(s.live, PortUrl(r.value, port - q.startPort), q.kind)
    case Conflict(port) =>
      && 0 <= port - q.startPort < span <= MAX_RANGE && r.Ok? && AllValidated(s.live, r.value, span)
      && NoneTaken(s.table, r.value, port - q.startPort) && PortUrl(r.value, port - q.startPort) in s.table
      && RolledBack(s, env, r.value, port - q.startPort, s')
    case Made(count, warning) =>
      && 0 <= count == span <= MAX_RANGE && r.Ok? && AllValidated(s.live, r.value, span)
      && NoneTaken(s.table, r.value, span) && s' == Grown(s, env, r.value, span)
      && (warning <==> exists k: nat :: k < span && NotLive(s, env, r.value, k))
  }

  ghost function View(routes: Routes, proxy: Proxy): Sys
    reads routes, proxy
  {
    Sys(routes.table, proxy.View())
  }

  /** The first port that does not validate. */
  method ValidatePorts(proxy: Proxy, r: Range, span: nat) returns (bad: Option<nat>)
    ensures bad.None? ==> AllValidated(proxy.View(), r, span)
    ensures bad.Some? ==>
              && bad.value < span && AllValidated(proxy.View(), r, bad.value)
              && !Validates(proxy.View(), PortUrl(r, bad.value), r.kind)
  {
    hide Validates, PortUrl;
    for k := 0 to span
      invariant AllValidated(proxy.View(), r, k)
    {
      var ok := proxy.ValidateRoute(JoinHostPort(r.host, Itoa(r.start + k)), r.kind);
      assert PortUrl(r, k) == JoinHostPort(r.host, Itoa(r.start + k)) by { PortUrlIs(r, k); }
      if !ok {
        return Some(k);
      }
    }
    return None;
  }

  lemma PortUrlIs(r: Range, k: nat)
    ensures PortUrl(r, k) == JoinHostPort(r.host, Itoa(r.start + k))
  {
  }

  lemma {:induction false} UnregisterNext(s: Live, urls: seq<string>, i: nat)
    requires i < |urls|
    ensures UnregisterAll(s, urls[..i + 1]) == Unregister(UnregisterAll(s, urls[..i]), urls[i])
  {
    assert urls[..i + 1][..i] == urls[..i];
  }

  /** Undoes the ports created before port `k`. */
  method RollBack(routes: Routes, proxy: Proxy, ghost s: Sys, ghost env: Env, ghost r: Range, ghost k: nat, group: string)
    requires FreshGroup(s.table, group) && r.group == group && NoneTaken(s.table, r, k)
    requires View(routes, proxy) == Grown(s, env, r, k)
    modifies routes, proxy
    ensures RolledBack(s, env, r, k, View(routes, proxy))
  {
    hide Grown, PortUrl, Unregister;
    RollbackTable(s, env, r, k);
    ghost var g := Grown(s, env, r, k).live;
    var urls := routes.DeleteRouteGroup(group);
    if urls.Err? {
      assert Lists([], Urls(r, k)) && UnregisterAll(g, []) == g;
      return;
    }
    for i := 0 to |urls.value|
      invariant routes.table == s.table
      invariant proxy.View() == UnregisterAll(g, urls.value[..i])
    {
      UnregisterNext(g, urls.value, i);
      proxy.UnregisterRoute(urls.value[i]);
    }
    assert urls.value[..|urls.value|] == urls.value;
  }

  /** A port's URL is taken by then exactly if it was taken before. */
  lemma {:induction false} TakenBefore(s: Sys, env: Env, r: Range, k: nat)
    ensures PortUrl(r, k) in Grown(s, env, r, k).table <==> PortUrl(r, k) in s.table
  {
    GrownTable(s, env, r, k);
    if PortUrl(r, k) in Urls(r, k) {
      var j :| 0 <= j < k && PortUrl(r, k) == PortUrl(r, j);
      PortsDiffer(r, j, k);
    }
  }

  /** `createRouteRange`, with the range id it generates as a parameter. */
  method CreateRouteRange(routes: Routes, proxy: Proxy, env: Env, q: Request, group: string) returns (answer: Answer)
    requires q.startPort < q.endPort && FreshGroup(routes.table, group)
    modifies routes, proxy
    ensures Answers(old(View(routes, proxy)), env, q, group, answer, View(routes, proxy))
  {
    hide Grown, PortUrl, Target, Register, Validates, RolledBack, Created, AllValidated, SplitHostPortNum, FreshGroup;
    ghost var s := View(routes, proxy);
    var span := Span(q);
    if span > MAX_RANGE {
      return TooLarge;
    }
    var base := None;
    if q.offset {
      var parts := SplitHostPortNum(q.target);
      if parts.Err? {
        return BadTarget;
      }
      base := Some(parts.value);
    }
    var r := Range(q.kind, q.host, q.startPort, q.target, base, q.tls, q.cert, q.key, group);
    var bad := ValidatePorts(proxy, r, span);
    if bad.Some? {
      return Rejected(q.startPort + bad.value);
    }
    var warning := false;
    StartsGrown(s, env, r);
    for k := 0 to span
      invariant View(routes, proxy) == Grown(s, env, r, k)
      invariant NoneTaken(s.table, r, k)
      invariant warning <==> exists j: nat :: j < k && NotLive(s, env, r, j)
    {
      TakenBefore(s, env, r, k);
      GrownStep(s, env, r, k);
      var url, target := PortUrl(r, k), Target(r, k);
      var created := routes.CreateRoute(url, Endpoint(target, q.kind, q.tls, q.cert, q.key), group);
      if !created {
        RollBack(routes, proxy, s, env, r, k, group);
        return Conflict(q.startPort + k);
      }
      var live := proxy.RegisterRoute(env, Route(url, target, q.kind, q.tls, q.cert, q.key, false));
      assert live <==> !NotLive(s, env, r, k);
      if !live {
        warning := true;
      }
    }
    return Made(span, warning);
  }

  lemma {:induction false} StartsGrown(s: Sys, env: Env, r: Range)
    ensures Grown(s, env, r, 0) == s
  {
  }

  // ---- all or nothing -----------------------------------------------------------------------

  lemma {:induction false} GrownHasRows(s: Sys, env: Env, r: Range, k: nat)
    requires LiveHasRows(s)
    ensures LiveHasRows(Grown(s, env, r, k))
  {
    GrownTable(s, env, r, k);
    hide Grown, Routed, Url, Urls, PortUrl;
    var g := Grown(s, env, r, k);
    forall host, port | ':' !in port && Routed(g.live, host, port).Some?
      ensures Url(host, port) in g.table
    {
      if Url(host, port) !in Urls(r, k) {
        GrownRoutes(s, env, r, k, host, port);
      }
    }
  }

  lemma ConflictUndone(s: Sys, env: Env, r: Range, k: nat, s': Sys)
    requires NoneTaken(s.table, r, k) && LiveHasRows(s) && AllValidated(s.live, r, k) && RolledBack(s, env, r, k, s')
    ensures s'.table == s.table && LiveHasRows(s')
    ensures forall host, port :: ':' !in port ==> Routed(s'.live, host, port) == Routed(s.live, host, port)
    ensures s'.live.tcp == s.live.tcp && s'.live.udp == s.live.udp <==> forall j :: 0 <= j < k ==> Restorable(s.live, env, r, j)
  {
    RollbackRestoresRaw(s, env, r, k, s');
    assert s'.table == s.table;
    hide *;
    forall host, port | ':' !in port
      ensures Routed(s'.live, host, port) == Routed(s.live, host, port)
    {
      RollbackRestoresRouting(s, env, r, k, s', host, port);
    }
  }

  /**
   A range that is made has one new row per port and nothing else changes; any other answer leaves the table
   and the handlers of every host and port as they were. The raw listeners are as before as well, except that a conflict
   leaves them so exactly when every port made before it is restorable. Live routes keep having rows.
   */
  lemma AllOrNothing(s: Sys, env: Env, q: Request, group: string, answer: Answer, s': Sys)
    requires Answers(s, env, q, group, answer, s') && LiveHasRows(s)
    ensures LiveHasRows(s')
    ensures answer.Made? ==>
              && answer.count == Span(q)
              && (forall u :: u in s'.table && u !in s.table <==> u in Urls(Requested(q, group).value, answer.count))
              && (forall u :: u in s.table ==> u in s'.table && s'.table[u] == s.table[u])
              && (forall k :: 0 <= k < answer.count ==>
                    var url := PortUrl(Requested(q, group).value, k);
                    url in s'.table && s'.table[url].endpoint == PortEndpoint(Requested(q, group).value, k))
    ensures !answer.Made? ==>
              s'.table == s.table && forall host, port :: ':' !in port ==> Routed(s'.live, host, port) == Routed(s.live, host, port)
    ensures !answer.Made? && !answer.Conflict? ==> s'.live == s.live
    ensures answer.Conflict? ==>
              (s'.live.tcp == s.live.tcp && s'.live.udp == s.live.udp
               <==> forall j :: 0 <= j < answer.port - q.startPort ==> Restorable(s.live, env, Requested(q, group).value, j))
  {
    hide Grown, PortUrl, PortEndpoint, Target, Routed, Restorable, Requested;
    hide Url, RolledBack, NoneTaken, Validates, Register, LiveHasRows, NotLive;
    if answer.Made? {
      var r := Requested(q, group).value;
      GrownHasRows(s, env, r, answer.count);
      SuccessAddsOneRowPerPort(s, env, r, answer.count);
    }
    if answer.Conflict? {
      ConflictUndone(s, env, Requested(q, group).value, answer.port - q.startPort, s');
    }
  }
}
