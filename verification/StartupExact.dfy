/** Which configurations start, read off the list of routes alone, and what a started proxy serves. */
module StartupExact {
  import opened Prelude
  import opened HostPort
  import opened Registry
  import LiveRouting

  // ---- the list -----------------------------------------------------------------------

  predicate ListensTcp(r: Route) {
    r.kind == "tcp" || r.kind == "tcp+udp"
  }

  predicate ListensUdp(r: Route) {
    r.kind == "udp" || r.kind == "tcp+udp"
  }

  predicate ServesHttp(r: Route) {
    r.kind != "tcp" && r.kind != "udp" && r.kind != "tcp+udp"
  }

  /** The port of a URL is what follows its last colon. */
  predicate SamePort(a: Route, b: Route) {
    && ParseHostPort(a.url).Some? && ParseHostPort(b.url).Some?
    && ParseHostPort(a.url).value.1 == ParseHostPort(b.url).value.1
  }

  /** Two routes that no configuration may hold together. */
  predicate Clash(a: Route, b: Route) {
    || a.url == b.url
    || (SamePort(a, b) &&
         (|| (ListensTcp(a) && ListensTcp(b))
          || (ListensUdp(a) && ListensUdp(b))
          || (ListensTcp(a) && ServesHttp(b))
          || (ServesHttp(a) && ListensTcp(b))
          || (ServesHttp(a) && ServesHttp(b) && a.tls != b.tls)))
  }

  /** A route that a configuration may hold: host and port, and for TLS over HTTP a certificate and a key on disk. */
  predicate Readable(env: Env, r: Route) {
    && ':' in r.url
    && (ServesHttp(r) && r.tls ==> r.cert != "" && r.key != "" && env.onDisk(r.cert) && env.onDisk(r.key))
  }

  /** Its handler, if it takes one, can be made. */
  predicate Made(env: Env, r: Route) {
    ServesHttp(r) ==> (r.kind == "static" || r.kind == "api" || r.kind == "proxy" || r.kind == "") && env.handles(r)
  }

  ghost predicate NoClash(proxies: seq<Route>) {
    forall i, j :: 0 <= i < j < |proxies| ==> !Clash(proxies[i], proxies[j])
  }

  ghost predicate ClashesWith(proxies: seq<Route>, r: Route) {
    exists i :: 0 <= i < |proxies| && Clash(proxies[i], r)
  }

  // ---- parsing ------------------------------------------------------------------------

  predicate TcpOn(proxies: seq<Route>, port: string) {
    exists r :: r in proxies && ListensTcp(r) && LiveRouting.OnPort(r.url, port)
  }

  predicate UdpOn(proxies: seq<Route>, port: string) {
    exists r :: r in proxies && ListensUdp(r) && LiveRouting.OnPort(r.url, port)
  }

  predicate HttpOn(proxies: seq<Route>, port: string) {
    exists r :: r in proxies && ServesHttp(r) && LiveRouting.OnPort(r.url, port)
  }

  predicate Named(proxies: seq<Route>, url: string) {
    exists r :: r in proxies && r.url == url
  }

  /** A listener is as secure as each of its routes. */
  ghost predicate AsSecure(servers: map<string, Listener>, proxies: seq<Route>) {
    forall r, port :: r in proxies && ServesHttp(r) && LiveRouting.OnPort(r.url, port) && port in servers ==>
      servers[port].tls == r.tls
  }

  /** What parsing has noted is what the list holds. */
  ghost predicate Describes(p: Parsing, proxies: seq<Route>) {
    && (forall url :: url in p.used <==> Named(proxies, url))
    && (forall port :: port in p.tcpPorts <==> TcpOn(proxies, port))
    && (forall port :: port in p.udpPorts <==> UdpOn(proxies, port))
    && (forall port :: port in p.servers <==> HttpOn(proxies, port))
    && AsSecure(p.servers, proxies)
  }

  lemma {:induction false} OneMore(proxies: seq<Route>, r: Route)
    ensures forall url :: Named(proxies + [r], url) <==> Named(proxies, url) || r.url == url
    ensures forall port :: TcpOn(proxies + [r], port) <==> TcpOn(proxies, port) || (ListensTcp(r) && LiveRouting.OnPort(r.url, port))
    ensures forall port :: UdpOn(proxies + [r], port) <==> UdpOn(proxies, port) || (ListensUdp(r) && LiveRouting.OnPort(r.url, port))
    ensures forall port :: HttpOn(proxies + [r], port) <==> HttpOn(proxies, port) || (ServesHttp(r) && LiveRouting.OnPort(r.url, port))
  {
    hide ListensTcp, ListensUdp, ServesHttp, LiveRouting.OnPort;
    assert r in proxies + [r];
    assert forall q :: q in proxies + [r] <==> q in proxies || q == r;
  }

  lemma HoldsColon(url: string)
    ensures ParseHostPort(url).Some? <==> ':' in url
  {
  }

  /** A route clashes with the list exactly if what was noted says so. */
  lemma {:induction false} ClashIsNoted(p: Parsing, proxies: seq<Route>, r: Route, port: string)
    requires Describes(p, proxies) && LiveRouting.OnPort(r.url, port)
    ensures ClashesWith(proxies, r) <==>
            || r.url in p.used
            || (ListensTcp(r) && (port in p.tcpPorts || port in p.servers))
            || (ListensUdp(r) && port in p.udpPorts)
            || (ServesHttp(r) && (port in p.tcpPorts || (port in p.servers && p.servers[port].tls != r.tls)))
  {
    hide ListensTcp, ListensUdp, ServesHttp, ParseHostPort;
    if ClashesWith(proxies, r) {
      var i :| 0 <= i < |proxies| && Clash(proxies[i], r);
      var q := proxies[i];
      assert q in proxies;
      if q.url == r.url {
        assert Named(proxies, r.url);
      } else {
        assert LiveRouting.OnPort(q.url, port);
        assert ListensTcp(q) ==> TcpOn(proxies, port);
        assert ListensUdp(q) ==> UdpOn(proxies, port);
        assert ServesHttp(q) ==> HttpOn(proxies, port);
      }
    }
  }

  lemma ParseOneExactly(p: Parsing, env: Env, proxies: seq<Route>, r: Route)
    requires Describes(p, proxies)
    ensures ParseOne(p, env, r).Some? <==> Readable(env, r) && !ClashesWith(proxies, r)
  {
    HoldsColon(r.url);
    if ParseHostPort(r.url).Some? {
      var port := ParseHostPort(r.url).value.1;
      ClashIsNoted(p, proxies, r, port);
      hide Describes, ClashesWith, ParseHostPort;
    }
  }

  /** What one more route adds to the notes. */
  lemma ParseOneNotes(p: Parsing, env: Env, r: Route)
    requires ParseOne(p, env, r).Some?
    ensures ParseHostPort(r.url).Some?
    ensures var p' := ParseOne(p, env, r).value;
            var port := ParseHostPort(r.url).value.1;
            && p'.used == p.used + {r.url}
            && p'.tcpPorts == p.tcpPorts + (if ListensTcp(r) then {port} else {})
            && p'.udpPorts == p.udpPorts + (if ListensUdp(r) then {port} else {})
            && p'.servers.Keys == p.servers.Keys + (if ServesHttp(r) then {port} else {})
            && (forall q :: q in p.servers ==> p'.servers[q].tls == p.servers[q].tls)
            && (ServesHttp(r) ==> p'.servers[port].tls == r.tls)
  {
    hide ParseHostPort;
  }

  lemma {:induction false} OneMoreSecure(servers: map<string, Listener>, servers': map<string, Listener>, proxies: seq<Route>, r: Route)
    requires AsSecure(servers, proxies) && servers.Keys <= servers'.Keys
    requires forall q :: q in servers ==> servers'[q].tls == servers[q].tls
    requires forall q :: q in servers <==> HttpOn(proxies, q)
    requires forall port :: ServesHttp(r) && LiveRouting.OnPort(r.url, port) && port in servers' ==> servers'[port].tls == r.tls
    ensures AsSecure(servers', proxies + [r])
  {
    hide ServesHttp, LiveRouting.OnPort;
  }

  lemma ParseOneDescribes(p: Parsing, env: Env, proxies: seq<Route>, r: Route)
    requires Describes(p, proxies) && ParseOne(p, env, r).Some?
    ensures Describes(ParseOne(p, env, r).value, proxies + [r])
  {
    hide ParseOne, AsSecure, Named, TcpOn, UdpOn, HttpOn, ListensTcp, ListensUdp, ServesHttp, ParseHostPort;
    OneMore(proxies, r);
    ParseOneNotes(p, env, r);
    OneMoreSecure(p.servers, ParseOne(p, env, r).value.servers, proxies, r);
  }

  lemma NothingNoted()
    ensures Describes(Parsing({}, {}, {}, map[]), [])
  {
  }

  lemma {:induction false} NoClashLast(init: seq<Route>, last: Route)
    ensures NoClash(init + [last]) <==> NoClash(init) && !ClashesWith(init, last)
  {
    hide Clash;
    var all := init + [last];
    if NoClash(all) {
      assert forall i, j :: 0 <= i < j < |init| ==> all[i] == init[i] && all[j] == init[j];
      assert forall i :: 0 <= i < |init| ==> all[i] == init[i] && all[|init|] == last;
    }
  }

  predicate AllReadable(env: Env, proxies: seq<Route>) {
    forall r :: r in proxies ==> Readable(env, r)
  }

  lemma {:induction false} AllReadableLast(env: Env, init: seq<Route>, last: Route)
    ensures AllReadable(env, init + [last]) <==> AllReadable(env, init) && Readable(env, last)
  {
    hide Readable;
    assert last in init + [last];
  }

  lemma {:induction false} ParseAllExactly(env: Env, proxies: seq<Route>)
    ensures ParseAll(env, proxies).Some? <==> NoClash(proxies) && AllReadable(env, proxies)
    ensures ParseAll(env, proxies).Some? ==> Describes(ParseAll(env, proxies).value, proxies)
  {
    hide ParseOne, Describes;
    if proxies == [] {
      NothingNoted();
    } else {
      hide NoClash, AllReadable, ClashesWith, Readable;
      var init, last := proxies[..|proxies| - 1], proxies[|proxies| - 1];
      assert proxies == init + [last];
      ParseAllExactly(env, init);
      NoClashLast(init, last);
      AllReadableLast(env, init, last);
      if ParseAll(env, init).Some? {
        ParseOneExactly(ParseAll(env, init).value, env, init, last);
        if ParseAll(env, proxies).Some? {
          ParseOneDescribes(ParseAll(env, init).value, env, init, last);
        }
      }
    }
  }

  // ---- starting -----------------------------------------------------------------------

  predicate AllMade(env: Env, proxies: seq<Route>) {
    forall r :: r in proxies ==> Made(env, r)
  }

  lemma {:induction false} NoClashInit(proxies: seq<Route>, init: seq<Route>, last: Route)
    requires proxies == init + [last] && NoClash(proxies)
    ensures NoClash(init)
    ensures forall r :: r in init ==> !Clash(r, last)
  {
    hide Clash;
    forall r | r in init
      ensures !Clash(r, last)
    {
      var i :| 0 <= i < |init| && init[i] == r;
      assert proxies[i] == r && proxies[|init|] == last;
    }
    assert forall i :: 0 <= i < |init| ==> init[i] == proxies[i];
  }

  /** The configuration gives a URL to one HTTP route at most. */
  lemma {:induction false} ConfiguredIsRoute(proxies: seq<Route>, url: string)
    requires NoClash(proxies)
    ensures var c := LiveRouting.Configured(proxies, url);
            && (c.Some? ==> c.value in proxies && ServesHttp(c.value) && c.value.url == url)
            && (forall r :: r in proxies && ServesHttp(r) && r.url == url ==> c == Some(r))
  {
    if proxies != [] {
      var init, last := proxies[..|proxies| - 1], proxies[|proxies| - 1];
      assert proxies == init + [last];
      NoClashInit(proxies, init, last);
      ConfiguredIsRoute(init, url);
      assert forall r :: r in proxies <==> r in init || r == last;
      hide NoClash, SamePort;
    }
  }

  lemma OnPortIsPlain(url: string, port: string)
    requires LiveRouting.OnPort(url, port)
    ensures ':' !in port
  {
    ParseIsInverse(url, ParseHostPort(url).value.0, port);
  }

  lemma ListenerPortIsPlain(p: Parsing, proxies: seq<Route>, port: string)
    requires Describes(p, proxies) && port in p.servers
    ensures ':' !in port
  {
    var r :| r in proxies && ServesHttp(r) && LiveRouting.OnPort(r.url, port);
    OnPortIsPlain(r.url, port);
  }

  lemma HandledIsMade(env: Env, r: Route)
    requires ServesHttp(r)
    ensures Handles(env, r) <==> Made(env, r)
  {
  }

  /** The route under a host and port, after parsing. */
  lemma {:induction false} ParsedRouteIs(env: Env, proxies: seq<Route>, host: string, port: string)
    requires ParseAll(env, proxies).Some? && ':' !in port
    ensures var found := LiveRouting.RouteAt(ParseAll(env, proxies).value.servers, host, port);
            && (found.Some? ==> found.value in proxies && ServesHttp(found.value) && found.value.url == Url(host, port))
            && (forall r :: r in proxies && ServesHttp(r) && r.url == Url(host, port) ==> found == Some(r))
  {
    hide *;
    ParseAllExactly(env, proxies);
    LiveRouting.ParsedRoutes(env, proxies, host, port);
    ConfiguredIsRoute(proxies, Url(host, port));
  }

  lemma {:induction false} AllHandledExactly(env: Env, proxies: seq<Route>)
    requires ParseAll(env, proxies).Some?
    ensures AllHandled(env, ParseAll(env, proxies).value.servers) <==> AllMade(env, proxies)
  {
    ParseAllExactly(env, proxies);
    var p := ParseAll(env, proxies).value;
    hide ParseAll, NoClash, AllReadable, Handles, Made, ServesHttp, Describes;
    if AllMade(env, proxies) {
      forall port, host | port in p.servers && host in p.servers[port].routes
        ensures Handles(env, p.servers[port].routes[host])
      {
        ListenerPortIsPlain(p, proxies, port);
        ParsedRouteIs(env, proxies, host, port);
        HandledIsMade(env, p.servers[port].routes[host]);
      }
    }
    if AllHandled(env, p.servers) {
      forall r | r in proxies
        ensures Made(env, r)
      {
        HandledRouteIsMade(env, proxies, r);
      }
    }
  }

  lemma {:induction false} HandledRouteIsMade(env: Env, proxies: seq<Route>, r: Route)
    requires ParseAll(env, proxies).Some? && AllHandled(env, ParseAll(env, proxies).value.servers) && r in proxies
    ensures Made(env, r)
  {
    if ServesHttp(r) {
      ParseAllExactly(env, proxies);
      assert Readable(env, r);
      hide ParseAll, NoClash, Handles, Made, ServesHttp, Describes;
      HoldsColon(r.url);
      var (host, port) := ParseHostPort(r.url).value;
      ParseIsInverse(r.url, host, port);
      hide ParseHostPort;
      ParsedRouteIs(env, proxies, host, port);
      HandledIsMade(env, r);
    }
  }

  /**
   A configuration starts if and only if every URL has a colon and none comes twice; no two routes share a TCP
   port or a UDP port, no port is both HTTP and TCP, and HTTP routes on one port are all TLS or all not; every
   TLS route over HTTP names a certificate and a key that exist; and every HTTP route is of a kind for which
   there is a handler, which can be made.
   */
  lemma {:induction false} StartsExactly(env: Env, proxies: seq<Route>)
    ensures Startup(env, proxies).Some? <==>
            NoClash(proxies) && forall r :: r in proxies ==> Readable(env, r) && Made(env, r)
  {
    ParseAllExactly(env, proxies);
    hide ParseAll, NoClash, Readable, Made, Describes, AllHandled, StartAllRaw;
    if ParseAll(env, proxies).Some? {
      AllHandledExactly(env, proxies);
    }
  }

  // ---- what a started proxy serves ----------------------------------------------------------

  lemma {:induction false} RawRouteStarted(s: Live, proxies: seq<Route>, r: Route, port: string)
    requires NoClash(proxies) && r in proxies && LiveRouting.OnPort(r.url, port)
    ensures ListensTcp(r) ==> Lookup(StartAllRaw(s, proxies).tcp, port) == Some(Raw(r.target, r.url))
    ensures ListensUdp(r) ==> Lookup(StartAllRaw(s, proxies).udp, port) == Some(Raw(r.target, r.url))
  {
    var init, last := proxies[..|proxies| - 1], proxies[|proxies| - 1];
    assert proxies == init + [last];
    NoClashInit(proxies, init, last);
    if r != last {
      assert r in init;
      RawRouteStarted(s, init, r, port);
    }
    hide NoClash, ParseHostPort;
  }

  lemma {:induction false} StartedParts(env: Env, proxies: seq<Route>)
    requires Startup(env, proxies).Some?
    ensures ParseAll(env, proxies).Some?
    ensures var (live, p) := (Startup(env, proxies).value, ParseAll(env, proxies).value);
            && live == StartAllRaw(LiveRouting.Initial(p), proxies)
            && live.servers == LiveRouting.Initial(p).servers
            && live.tcp.Keys == p.tcpPorts && live.udp.Keys == p.udpPorts
  {
    LiveRouting.RawStarted(env, proxies, LiveRouting.Initial(ParseAll(env, proxies).value));
    hide ParseAll, AllHandled, StartAllRaw;
  }

  /**
   A started proxy serves every configured route as configured: a TCP or UDP route forwards from its port to its
   target, and an HTTP route has its handler under its host and port, on a listener as secure as the route.
   */
  lemma {:induction false} StartedServes(env: Env, proxies: seq<Route>, r: Route, host: string, port: string)
    requires Startup(env, proxies).Some? && r in proxies && r.url == Url(host, port) && ':' !in port
    ensures var live := Startup(env, proxies).value;
            && (ListensTcp(r) ==> Lookup(live.tcp, port) == Some(Raw(r.target, r.url)))
            && (ListensUdp(r) ==> Lookup(live.udp, port) == Some(Raw(r.target, r.url)))
            && (ServesHttp(r) ==>
                  Routed(live, host, port) == Some(Handler(r.url, r)) && live.servers[port].tls == r.tls)
  {
    ParseIsInverse(r.url, host, port);
    assert LiveRouting.OnPort(r.url, port);
    StartsExactly(env, proxies);
    StartedParts(env, proxies);
    ParseAllExactly(env, proxies);
    var p := ParseAll(env, proxies).value;
    RawRouteStarted(LiveRouting.Initial(p), proxies, r, port);
    LiveRouting.StartupIsSound(env, proxies, host, port);
    ConfiguredIsRoute(proxies, r.url);
    assert AsSecure(p.servers, proxies);
    hide Startup, ParseAll, StartAllRaw, NoClash, Readable, Made, ListensTcp, ListensUdp, ServesHttp, Url, LiveRouting.Sound;
  }

  /** And it serves nothing else: each of its ports is some route's. */
  lemma {:induction false} StartedServesOnly(env: Env, proxies: seq<Route>, port: string)
    requires Startup(env, proxies).Some?
    ensures var live := Startup(env, proxies).value;
            && (port in live.tcp <==> TcpOn(proxies, port))
            && (port in live.udp <==> UdpOn(proxies, port))
            && (port in live.servers <==> HttpOn(proxies, port))
  {
    StartedParts(env, proxies);
    ParseAllExactly(env, proxies);
    hide Startup, ParseAll, StartAllRaw, NoClash, AllReadable, TcpOn, UdpOn, HttpOn, AsSecure;
  }

  /** The first HTTP route of the list on this port. */
  function FirstOn(proxies: seq<Route>, port: string): (r: Option<Route>)
    ensures r.Some? ==> r.value in proxies && ServesHttp(r.value) && LiveRouting.OnPort(r.value.url, port)
  {
    if proxies == [] then None
    else if ServesHttp(proxies[0]) && LiveRouting.OnPort(proxies[0].url, port) then Some(proxies[0])
    else FirstOn(proxies[1..], port)
  }

  /** The listener was opened for this route. */
  predicate OpenedFor(l: Listener, r: Route) {
    l.tls == r.tls && l.cert == r.cert && l.key == r.key
  }

  lemma {:induction false} FirstOfLonger(init: seq<Route>, last: Route, port: string)
    ensures FirstOn(init + [last], port) ==
            if FirstOn(init, port).Some? then FirstOn(init, port)
            else if ServesHttp(last) && LiveRouting.OnPort(last.url, port) then Some(last)
            else None
  {
    hide ServesHttp, LiveRouting.OnPort;
    if init != [] {
      assert (init + [last])[1..] == init[1..] + [last];
      FirstOfLonger(init[1..], last, port);
    } else {
      assert [last][1..] == [];
    }
  }

  lemma ListenerIsKept(p: Parsing, env: Env, r: Route, port: string)
    requires ParseOne(p, env, r).Some?
    ensures var (l, l') := (Lookup(p.servers, port), Lookup(ParseOne(p, env, r).value.servers, port));
            if l.Some? then l'.Some? && l'.value == l.value.(routes := l'.value.routes)
            else if ServesHttp(r) && LiveRouting.OnPort(r.url, port) then l'.Some? && OpenedFor(l'.value, r)
            else l'.None?
  {
    hide ParseHostPort, TlsReady;
  }

  lemma {:induction false} ParsedListenerIsFirsts(env: Env, proxies: seq<Route>, port: string)
    requires ParseAll(env, proxies).Some?
    ensures var (l, first) := (Lookup(ParseAll(env, proxies).value.servers, port), FirstOn(proxies, port));
            (l.Some? <==> first.Some?) && (l.Some? ==> OpenedFor(l.value, first.value))
  {
    if proxies != [] {
      hide ParseOne, FirstOn, ServesHttp, LiveRouting.OnPort;
      var init, last := proxies[..|proxies| - 1], proxies[|proxies| - 1];
      assert proxies == init + [last];
      ParsedListenerIsFirsts(env, init, port);
      FirstOfLonger(init, last, port);
      ListenerIsKept(ParseAll(env, init).value, env, last, port);
    }
  }

  /** Routes that share a port share the certificate and key of the first of them. */
  lemma {:induction false} StartedListenerIsFirsts(env: Env, proxies: seq<Route>, port: string)
    requires Startup(env, proxies).Some?
    ensures var (l, first) := (Lookup(Startup(env, proxies).value.servers, port), FirstOn(proxies, port));
            (l.Some? <==> first.Some?) && (l.Some? ==> OpenedFor(l.value, first.value))
  {
    StartedParts(env, proxies);
    hide Startup, ParseAll, StartAllRaw, FirstOn;
    ParsedListenerIsFirsts(env, proxies, port);
  }
}
