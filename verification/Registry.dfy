/**
 The live proxy's tables: HTTP listeners with their routes and handlers, and the raw TCP and UDP
 listeners, from startup through registrations and unregistrations.
 */
module Registry {
  import opened Prelude
  import opened HostPort

  datatype Route = Route(url: string, target: string, kind: string, tls: bool, cert: string, key: string, injectApi: bool)

  /** What `wrapRouteHandler` builds: access control under one key around the route's own handler. */
  datatype Handler = Handler(authKey: string, route: Route)

  datatype Listener = Listener(tls: bool, cert: string, key: string, routes: map<string, Route>, handlers: map<string, Handler>)

  /** A raw listener forwards to a target on behalf of a route. */
  datatype Raw = Raw(target: string, url: string)

  datatype Live = Live(servers: map<string, Listener>, tcp: map<string, Raw>, udp: map<string, Raw>)

  /** What the surroundings decide: whether files exist, a listener starts, a handler can be made. */
  datatype Env = Env(onDisk: string -> bool, listens: Route -> bool, handles: Route -> bool)

  predicate IsTcp(kind: string) {
    kind == "tcp" || kind == "tcp+udp"
  }

  predicate IsUdp(kind: string) {
    kind == "udp" || kind == "tcp+udp"
  }

  predicate IsRaw(kind: string) {
    IsTcp(kind) || IsUdp(kind)
  }

  predicate KnownKind(kind: string) {
    kind in {"proxy", "tcp", "udp", "tcp+udp", "static", "api", ""}
  }

  /** `createHandlerForRoute` knows the HTTP kinds only. */
  predicate Handles(env: Env, r: Route) {
    r.kind in {"static", "api", "proxy", ""} && env.handles(r)
  }

  function Wrap(r: Route): Handler {
    Handler(r.url, r)
  }

  // ---- registration --------------------------------------------------------------

  function StartRaw(s: Live, r: Route, port: string): Live {
    s.(tcp := if IsTcp(r.kind) then s.tcp[port := Raw(r.target, r.url)] else s.tcp,
       udp := if IsUdp(r.kind) then s.udp[port := Raw(r.target, r.url)] else s.udp)
  }

  function WithRoute(l: Listener, host: string, r: Route): Listener {
    l.(routes := l.routes[host := r], handlers := l.handlers[host := Wrap(r)])
  }

  function WithoutHost(l: Listener, host: string): Listener {
    l.(routes := l.routes - {host}, handlers := l.handlers - {host})
  }

  /** The state after registering, and whether the route is live. A new listener outlives a handler that fails. */
  function Register(s: Live, env: Env, r: Route): (Live, bool) {
    var parts := ParseHostPort(r.url);
    if parts.None? then (s, false)
    else
      var (host, port) := parts.value;
      if IsRaw(r.kind) then (StartRaw(s, r, port), true)
      else if port !in s.servers && port in s.tcp then (s, false)
      else if port !in s.servers && !env.listens(r) then (s, false)
      else
        var l := if port in s.servers then s.servers[port] else Listener(r.tls, r.cert, r.key, map[], map[]);
        if Handles(env, r) then (s.(servers := s.servers[port := WithRoute(l, host, r)]), true)
        else (s.(servers := s.servers[port := l]), false)
  }

  function Unregister(s: Live, url: string): Live {
    var parts := ParseHostPort(url);
    if parts.None? then s
    else
      var (host, port) := parts.value;
      if port in s.servers then s.(servers := s.servers[port := WithoutHost(s.servers[port], host)])
      else s.(tcp := s.tcp - {port}, udp := s.udp - {port})
  }

  predicate Validates(s: Live, url: string, kind: string) {
    var parts := ParseHostPort(url);
    parts.Some? && KnownKind(kind) &&
    var port := parts.value.1;
    && !((IsTcp(kind) || !IsRaw(kind)) && port in s.tcp)
    && !(IsTcp(kind) && port in s.servers)
    && !(IsUdp(kind) && port in s.udp)
  }

  // ---- startup --------------------------------------------------------------------

  datatype Parsing = Parsing(used: set<string>, tcpPorts: set<string>, udpPorts: set<string>, servers: map<string, Listener>)

  predicate TlsReady(env: Env, r: Route) {
    r.tls ==> r.cert != "" && r.key != "" && env.onDisk(r.cert) && env.onDisk(r.key)
  }

  function ParseRaw(p: Parsing, r: Route, port: string): Option<Parsing> {
    if IsTcp(r.kind) && (port in p.tcpPorts || port in p.servers) then None
    else if IsUdp(r.kind) && port in p.udpPorts then None
    else Some(p.(
      tcpPorts := if IsTcp(r.kind) then p.tcpPorts + {port} else p.tcpPorts,
      udpPorts := if IsUdp(r.kind) then p.udpPorts + {port} else p.udpPorts))
  }

  function ParseHttp(p: Parsing, env: Env, r: Route, host: string, port: string): Option<Parsing> {
    if port in p.tcpPorts || !TlsReady(env, r) then None
    else if port in p.servers then
      if p.servers[port].tls != r.tls then None
      else Some(p.(servers := p.servers[port := p.servers[port].(routes := p.servers[port].routes[host := r])]))
    else Some(p.(servers := p.servers[port := Listener(r.tls, r.cert, r.key, map[host := r], map[])]))
  }

  function ParseOne(p: Parsing, env: Env, r: Route): Option<Parsing> {
    var parts := ParseHostPort(r.url);
    if parts.None? || r.url in p.used then None
    else
      var (host, port) := parts.value;
      var p' := p.(used := p.used + {r.url});
      if IsRaw(r.kind) then ParseRaw(p', r, port) else ParseHttp(p', env, r, host, port)
  }

  /** `parseProxies`. */
  function ParseAll(env: Env, proxies: seq<Route>): Option<Parsing> {
    if proxies == [] then Some(Parsing({}, {}, {}, map[]))
    else
      var p := ParseAll(env, proxies[..|proxies| - 1]);
      if p.None? then None else ParseOne(p.value, env, proxies[|proxies| - 1])
  }

  predicate AllHandled(env: Env, servers: map<string, Listener>) {
    forall port :: port in servers ==> forall host :: host in servers[port].routes ==> Handles(env, servers[port].routes[host])
  }

  function WithHandlers(l: Listener): Listener {
    l.(handlers := map host | host in l.routes :: Wrap(l.routes[host]))
  }

  function StartAllRaw(s: Live, proxies: seq<Route>): Live {
    if proxies == [] then s
    else
      var r := proxies[|proxies| - 1];
      var parts := ParseHostPort(r.url);
      var s' := StartAllRaw(s, proxies[..|proxies| - 1]);
      if IsRaw(r.kind) && parts.Some? then StartRaw(s', r, parts.value.1) else s'
  }

  /** `StartProxy`: the live tables, or no proxy at all. */
  function Startup(env: Env, proxies: seq<Route>): Option<Live> {
    var p := ParseAll(env, proxies);
    if p.None? || !AllHandled(env, p.value.servers) then None
    else Some(StartAllRaw(Live(map port | port in p.value.servers :: WithHandlers(p.value.servers[port]), map[], map[]), proxies))
  }

  /** The handler under a host and port. */
  function Routed(s: Live, host: string, port: string): Option<Handler> {
    if port in s.servers then Lookup(s.servers[port].handlers, host) else None
  }

  // ---- the proxy as the program runs it ----------------------------------------------

  class Proxy {
    var servers: map<string, Listener>
    var tcpCancels: map<string, Raw>
    var udpCancels: map<string, Raw>

    ghost function View(): Live
      reads this
    {
      Live(servers, tcpCancels, udpCancels)
    }

    constructor ()
      ensures View() == Live(map[], map[], map[])
    {
      servers, tcpCancels, udpCancels := map[], map[], map[];
    }

    method StartTcp(port: string, target: string, url: string)
      modifies this`tcpCancels
      ensures tcpCancels == old(tcpCancels)[port := Raw(target, url)]
    {
      tcpCancels := tcpCancels[port := Raw(target, url)];
    }

    method StopTcp(port: string)
      modifies this`tcpCancels
      ensures tcpCancels == old(tcpCancels) - {port}
    {
      if port in tcpCancels {
        tcpCancels := tcpCancels - {port};
      }
    }

    method StartUdp(port: string, target: string, url: string)
      modifies this`udpCancels
      ensures udpCancels == old(udpCancels)[port := Raw(target, url)]
    {
      udpCancels := udpCancels[port := Raw(target, url)];
    }

    method StopUdp(port: string)
      modifies this`udpCancels
      ensures udpCancels == old(udpCancels) - {port}
    {
      if port in udpCancels {
        udpCancels := udpCancels - {port};
      }
    }

    method ValidateRoute(url: string, kind: string) returns (ok: bool)
      ensures ok == Validates(View(), url, kind)
    {
      var parts := ParseHostPort(url);
      if parts.None? || !KnownKind(kind) {
        return false;
      }
      var port := parts.value.1;
      var hasTcp, hasUdp, hasHttp := port in tcpCancels, port in udpCancels, port in servers;
      var needsTcp, needsUdp, isHttp := IsTcp(kind), IsUdp(kind), !IsRaw(kind);
      if (needsTcp || isHttp) && hasTcp {
        return false;
      }
      if needsTcp && hasHttp {
        return false;
      }
      if needsUdp && hasUdp {
        return false;
      }
      return true;
    }

    method RegisterRoute(env: Env, route: Route) returns (ok: bool)
      modifies this
      ensures (View(), ok) == Register(old(View()), env, route)
    {
      var parts := ParseHostPort(route.url);
      if parts.None? {
        return false;
      }
      var (host, port) := parts.value;
      if IsRaw(route.kind) {
        if IsTcp(route.kind) {
          StartTcp(port, route.target, route.url);
        }
        if IsUdp(route.kind) {
          StartUdp(port, route.target, route.url);
        }
        return true;
      }
      if port !in servers {
        if port in tcpCancels {
          return false;
        }
        if !env.listens(route) {
          return false;
        }
        servers := servers[port := Listener(route.tls, route.cert, route.key, map[], map[])];
      }
      var ls := servers[port];
      if !Handles(env, route) {
        assert servers == old(servers)[port := ls];
        return false;
      }
      servers := servers[port := ls.(routes := ls.routes[host := route], handlers := ls.handlers[host := Handler(route.url, route)])];
      assert servers == old(servers)[port := WithRoute(ls, host, route)];
      return true;
    }

    method UnregisterRoute(url: string)
      modifies this
      ensures View() == Unregister(old(View()), url)
    {
      var parts := ParseHostPort(url);
      if parts.None? {
        return;
      }
      var (host, port) := parts.value;
      if port in servers {
        var ls := servers[port];
        var newMap := map k | k in ls.handlers && k != host :: ls.handlers[k];
        assert newMap == ls.handlers - {host};
        servers := servers[port := ls.(routes := ls.routes - {host}, handlers := newMap)];
        return;
      }
      StopTcp(port);
      StopUdp(port);
    }

    method ParseProxies(env: Env, proxies: seq<Route>) returns (ok: bool)
      requires servers == map[]
      modifies this`servers
      ensures ok == ParseAll(env, proxies).Some?
      ensures ok ==> servers == ParseAll(env, proxies).value.servers
    {
      var used: set<string>, tcpPorts: set<string>, udpPorts: set<string> := {}, {}, {};
      for i := 0 to |proxies|
        invariant ParseAll(env, proxies[..i]) == Some(Parsing(used, tcpPorts, udpPorts, servers))
      {
        var route := proxies[i];
        ParseAllPrefix(env, proxies, i);
        ghost var before := Parsing(used, tcpPorts, udpPorts, servers);
        ghost var after := ParseOne(before, env, route);
        if after.None? {
          ParseAllFails(env, proxies, i + 1);
        }
        var parts := ParseHostPort(route.url);
        if parts.None? || route.url in used {
          return false;
        }
        var (host, port) := parts.value;
        used := used + {route.url};
        if IsRaw(route.kind) {
          if IsTcp(route.kind) {
            if port in tcpPorts || port in servers {
              return false;
            }
            tcpPorts := tcpPorts + {port};
          }
          if IsUdp(route.kind) {
            if port in udpPorts {
              return false;
            }
            udpPorts := udpPorts + {port};
          }
        } else {
          if port in tcpPorts || !TlsReady(env, route) {
            return false;
          }
          if port in servers {
            var existing := servers[port];
            if existing.tls != route.tls {
              return false;
            }
            servers := servers[port := existing.(routes := existing.routes[host := route])];
          } else {
            servers := servers[port := Listener(route.tls, route.cert, route.key, map[host := route], map[])];
          }
        }
        assert after == Some(Parsing(used, tcpPorts, udpPorts, servers));
      }
      assert proxies[..|proxies|] == proxies;
      return true;
    }

    /** Caches the wrapped handlers of every listener. */
    method InitProxies(env: Env) returns (ok: bool)
      modifies this`servers
      ensures ok == AllHandled(env, old(servers))
      ensures ok ==> servers == map port | port in old(servers) :: WithHandlers(old(servers)[port])
    {
      var todo := servers.Keys;
      while todo != {}
        invariant todo <= servers.Keys == old(servers).Keys
        invariant forall port :: port in servers ==>
                    servers[port] == if port in todo then old(servers)[port] else WithHandlers(old(servers)[port])
        invariant forall port :: port in servers && port !in todo ==>
                    forall host :: host in old(servers)[port].routes ==> Handles(env, old(servers)[port].routes[host])
        decreases todo
      {
        var port :| port in todo;
        var ls := servers[port];
        if exists host :: host in ls.routes && !Handles(env, ls.routes[host]) {
          return false;
        }
        servers := servers[port := WithHandlers(ls)];
        todo := todo - {port};
      }
      return true;
    }

    method StartProxy(env: Env, proxies: seq<Route>) returns (ok: bool)
      requires View() == Live(map[], map[], map[])
      modifies this
      ensures ok == Startup(env, proxies).Some?
      ensures ok ==> View() == Startup(env, proxies).value
    {
      ok := ParseProxies(env, proxies);
      if !ok {
        return;
      }
      ok := InitProxies(env);
      if !ok {
        return;
      }
      ghost var base := View();
      for i := 0 to |proxies|
        invariant View() == StartAllRaw(base, proxies[..i])
      {
        assert proxies[..i + 1][..i] == proxies[..i];
        var route := proxies[i];
        var parts := ParseHostPort(route.url);
        if parts.Some? {
          var port := parts.value.1;
          if IsTcp(route.kind) {
            StartTcp(port, route.target, route.url);
          }
          if IsUdp(route.kind) {
            StartUdp(port, route.target, route.url);
          }
        }
      }
      assert proxies[..|proxies|] == proxies;
    }
  }

  lemma {:induction false} ParseAllPrefix(env: Env, proxies: seq<Route>, i: nat)
    requires i < |proxies|
    ensures ParseAll(env, proxies[..i + 1])
         == var p := ParseAll(env, proxies[..i]); if p.None? then None else ParseOne(p.value, env, proxies[i])
  {
    assert proxies[..i + 1][..i] == proxies[..i];
  }

  /** A route that does not parse fails the whole list. */
  lemma {:induction false} ParseAllFails(env: Env, proxies: seq<Route>, i: nat)
    requires i <= |proxies| && ParseAll(env, proxies[..i]).None?
    ensures ParseAll(env, proxies).None?
    decreases |proxies| - i
  {
    if i < |proxies| {
      ParseAllPrefix(env, proxies, i);
      ParseAllFails(env, proxies, i + 1);
    } else {
      assert proxies[..i] == proxies;
    }
  }
}
