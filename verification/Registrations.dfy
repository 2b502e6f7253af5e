/** When a route validates and when its registration succeeds: from the live tables, and from the history of a run. */
module Registrations {
  import opened Prelude
  import opened HostPort
  import opened Registry
  import opened LiveRouting
  import opened StartupExact
  import FrontDoor

  /** The tables leave room on the port for a route like this one. */
  predicate Fits(s: Live, r: Route, port: string) {
    && (ListensTcp(r) ==> port !in s.tcp && port !in s.servers)
    && (ListensUdp(r) ==> port !in s.udp)
    && (ServesHttp(r) ==> port !in s.tcp)
  }

  /** Some handler is made for the kind, and this one can be. */
  predicate HasHandler(env: Env, r: Route) {
    (r.kind == "static" || r.kind == "api" || r.kind == "proxy" || r.kind == "") && env.handles(r)
  }

  /** A URL validates exactly if it has a colon, the kind is known, and the port it names has room. */
  lemma ValidatesExactly(s: Live, r: Route)
    ensures Validates(s, r.url, r.kind) <==>
            && ':' in r.url
            && (ListensTcp(r) || ListensUdp(r) || r.kind == "static" || r.kind == "api" || r.kind == "proxy" || r.kind == "")
            && forall port :: OnPort(r.url, port) ==> Fits(s, r, port)
  {
    HoldsColon(r.url);
    if ParseHostPort(r.url).Some? {
      var port := ParseHostPort(r.url).value.1;
      assert OnPort(r.url, port);
    }
    hide ParseHostPort;
  }

  /** A route that does not parse registers nothing. */
  lemma NoPortNoRoute(s: Live, env: Env, r: Route)
    requires ':' !in r.url
    ensures Register(s, env, r) == (s, false)
  {
    HoldsColon(r.url);
  }

  /** A raw route always goes live, replacing what the port forwarded to, and touches nothing else. */
  lemma RawRegisters(s: Live, env: Env, r: Route, host: string, port: string)
    requires r.url == Url(host, port) && ':' !in port && !ServesHttp(r)
    ensures var (s', ok) := Register(s, env, r);
            && ok && s'.servers == s.servers
            && (forall q :: Lookup(s'.tcp, q) == if q == port && ListensTcp(r) then Some(Raw(r.target, r.url)) else Lookup(s.tcp, q))
            && (forall q :: Lookup(s'.udp, q) == if q == port && ListensUdp(r) then Some(Raw(r.target, r.url)) else Lookup(s.udp, q))
  {
    ParseIsInverse(r.url, host, port);
    hide ParseHostPort, Url;
  }

  /** The port has a listener, or one can be opened: no TCP route holds the port and the system lets it listen. */
  predicate CanListen(s: Live, env: Env, r: Route, port: string) {
    port in s.servers || (port !in s.tcp && env.listens(r))
  }

  /**
   An HTTP route goes live exactly if its port listens or can, and its handler can be made. Then its host has the
   route and its handler, and every other host keeps its own. The listener keeps its certificate, or is opened
   with the route's, even if the handler then fails.
   */
  lemma HttpRegistersExactly(s: Live, env: Env, r: Route, host: string, port: string)
    requires r.url == Url(host, port) && ':' !in port && ServesHttp(r)
    ensures var (s', ok) := Register(s, env, r);
            && (ok <==> CanListen(s, env, r, port) && HasHandler(env, r))
            && s'.tcp == s.tcp && s'.udp == s.udp
            && (forall q :: q != port ==> Lookup(s'.servers, q) == Lookup(s.servers, q))
            && (port in s'.servers <==> CanListen(s, env, r, port))
            && (port in s'.servers ==>
                  var l' := s'.servers[port];
                  && (if port in s.servers then l'.tls == s.servers[port].tls && l'.cert == s.servers[port].cert && l'.key == s.servers[port].key
                      else OpenedFor(l', r))
                  && (forall h :: Lookup(l'.routes, h) == if ok && h == host then Some(r) else RouteAt(s.servers, h, port))
                  && (forall h :: Lookup(l'.handlers, h) == if ok && h == host then Some(Handler(r.url, r)) else Routed(s, h, port)))
  {
    ParseIsInverse(r.url, host, port);
    hide ParseHostPort, Url;
  }

  // ---- from the history --------------------------------------------------------------------

  /** Adding a route to the proxy goes through. */
  predicate Succeeds(s: Live, env: Env, r: Route) {
    Step(s, Add(r, env)).1
  }

  lemma SucceedsExactly(s: Live, env: Env, r: Route, host: string, port: string)
    requires r.url == Url(host, port) && ':' !in port
    ensures Succeeds(s, env, r) <==>
            Fits(s, r, port) && (ServesHttp(r) ==> (port in s.servers || env.listens(r)) && HasHandler(env, r))
  {
    ParseIsInverse(r.url, host, port);
    assert forall q :: OnPort(r.url, q) ==> q == port;
    assert ':' in r.url;
    ValidatesExactly(s, r);
    if ServesHttp(r) {
      HttpRegistersExactly(s, env, r, host, port);
    } else {
      RawRegisters(s, env, r, host, port);
    }
    hide Register, Validates, ParseHostPort, Url;
  }

  /**
   After startup and any run, adding a route succeeds exactly if, of the routes added last and not removed, none
   listens where it would: a TCP route needs a port without TCP route that never had an HTTP listener, a UDP route
   one without UDP route, and an HTTP route one without TCP route that has a listener or can get one, and a handler.
   */
  lemma {:induction false} AddSucceedsExactly(
    env: Env, proxies: seq<Route>, ops: seq<Op>, n: nat, addEnv: Env, r: Route, host: string, port: string)
    requires Startup(env, proxies).Some? && n <= |ops|
    requires r.url == Url(host, port) && ':' !in port
    ensures var s0 := Startup(env, proxies).value;
            var listening := FrontDoor.Opened(s0, proxies, ops, n, port);
            Succeeds(At(s0, ops, n), addEnv, r) <==>
            && (ListensTcp(r) ==> LastTcp(s0, ops, n, port).None? && !listening)
            && (ListensUdp(r) ==> LastUdp(s0, ops, n, port).None?)
            && (ServesHttp(r) ==> LastTcp(s0, ops, n, port).None? && (listening || addEnv.listens(r)) && HasHandler(addEnv, r))
  {
    hide Startup, At, Succeeds, ListensTcp, ListensUdp, ServesHttp, HasHandler, FrontDoor.Opened, LastTcp, LastUdp, Url;
    var s := At(Startup(env, proxies).value, ops, n);
    SucceedsExactly(s, addEnv, r, host, port);
    FrontDoor.ListenersOpened(env, proxies, ops, n, port);
    RawRefinesMap(env, proxies, ops, n, port);
  }
}
