/**
 The live tables refine a simple map: the handler under a host and port is that of the HTTP route last
 registered there and not removed since, and a port's raw listener that of the raw route last started on it.
 */
module LiveRouting {
  import opened Prelude
  import opened HostPort
  import opened Registry

  /** A request of the admin page; a registration is only tried if it validates, and may fail in its surroundings. */
  datatype Op = Add(route: Route, env: Env) | Remove(url: string)

  function Step(s: Live, op: Op): (Live, bool) {
    match op
    case Add(r, env) => if Validates(s, r.url, r.kind) then Register(s, env, r) else (s, false)
    case Remove(url) => (Unregister(s, url), true)
  }

  function At(s0: Live, ops: seq<Op>, n: nat): Live
    requires n <= |ops|
    decreases n
  {
    if n == 0 then s0 else Step(At(s0, ops, n - 1), ops[n - 1]).0
  }

  // ---- the invariant ---------------------------------------------------------------

  /** A listener has a handler for exactly its routes, each under the route's own URL. */
  ghost predicate SoundListener(l: Listener, port: string) {
    && l.routes.Keys == l.handlers.Keys
    && forall host :: host in l.routes ==>
         l.handlers[host] == Wrap(l.routes[host]) && l.routes[host].url == Url(host, port) && !IsRaw(l.routes[host].kind)
  }

  ghost predicate Sound(s: Live) {
    && (forall port :: port in s.servers ==> port !in s.tcp && SoundListener(s.servers[port], port))
  }

  lemma RouteKeepsSound(l: Listener, port: string, host: string, r: Route)
    requires SoundListener(l, port) && r.url == Url(host, port) && !IsRaw(r.kind)
    ensures SoundListener(WithRoute(l, host, r), port)
  {
  }

  lemma ListenerKeepsSound(s: Live, port: string, l: Listener)
    requires Sound(s) && port !in s.tcp && SoundListener(l, port)
    ensures Sound(s.(servers := s.servers[port := l]))
  {
    hide SoundListener;
  }

  lemma RawKeepsSound(s: Live, r: Route, port: string)
    requires Sound(s) && (IsTcp(r.kind) ==> port !in s.servers)
    ensures Sound(StartRaw(s, r, port))
  {
    hide SoundListener;
  }

  lemma AddKeepsSound(s: Live, env: Env, r: Route)
    requires Sound(s) && Validates(s, r.url, r.kind)
    ensures Sound(Register(s, env, r).0)
  {
    var (host, port) := ParseHostPort(r.url).value;
    ParseIsInverse(r.url, host, port);
    if IsRaw(r.kind) {
      RawKeepsSound(s, r, port);
    } else {
      var l := if port in s.servers then s.servers[port] else Listener(r.tls, r.cert, r.key, map[], map[]);
      assert SoundListener(l, port);
      RouteKeepsSound(l, port, host, r);
      ListenerKeepsSound(s, port, l);
      ListenerKeepsSound(s, port, WithRoute(l, host, r));
    }
    hide Sound, SoundListener, ParseHostPort, Url, WithRoute, Handles;
  }

  lemma StepKeepsSound(s: Live, op: Op)
    requires Sound(s)
    ensures Sound(Step(s, op).0)
  {
    match op
    case Add(r, env) => if Validates(s, r.url, r.kind) { AddKeepsSound(s, env, r); }
    case Remove(url) =>
  }

  // ---- startup -----------------------------------------------------------------------

  /** While parsing: listeners hold routes under their own URLs, none on a TCP port, every URL noted. */
  ghost predicate SoundParsing(p: Parsing) {
    && (forall port :: port in p.servers ==> port !in p.tcpPorts)
    && (forall port, host :: port in p.servers && host in p.servers[port].routes ==>
          var r := p.servers[port].routes[host]; r.url == Url(host, port) && !IsRaw(r.kind) && r.url in p.used)
  }

  lemma ParsedRouteSound(p: Parsing, host: string, port: string, r: Route, l: Listener)
    requires SoundParsing(p) && r.url == Url(host, port) && !IsRaw(r.kind) && port !in p.tcpPorts
    requires l.routes == (if port in p.servers then p.servers[port].routes else map[])[host := r]
    ensures SoundParsing(p.(used := p.used + {r.url}, servers := p.servers[port := l]))
  {
    hide Url, IsRaw;
  }

  lemma ParseOneSound(p: Parsing, env: Env, r: Route)
    requires SoundParsing(p) && ParseOne(p, env, r).Some?
    ensures SoundParsing(ParseOne(p, env, r).value)
  {
    var (host, port) := ParseHostPort(r.url).value;
    ParseIsInverse(r.url, host, port);
    if !IsRaw(r.kind) {
      hide SoundParsing;
      ParsedRouteSound(p, host, port, r, ParseOne(p, env, r).value.servers[port]);
    }
    hide ParseHostPort, Url, TlsReady;
  }

  /** The HTTP route that the config gives this URL; URLs are unique. */
  function Configured(proxies: seq<Route>, url: string): Option<Route> {
    if proxies == [] then None
    else
      var last := proxies[|proxies| - 1];
      if last.url == url && !IsRaw(last.kind) then Some(last) else Configured(proxies[..|proxies| - 1], url)
  }

  function RouteAt(servers: map<string, Listener>, host: string, port: string): Option<Route> {
    if port in servers then Lookup(servers[port].routes, host) else None
  }

  lemma ParseOneRoute(p: Parsing, env: Env, r: Route, host: string, port: string)
    requires ParseOne(p, env, r).Some? && ':' !in port
    ensures RouteAt(ParseOne(p, env, r).value.servers, host, port)
         == if r.url == Url(host, port) && !IsRaw(r.kind) then Some(r) else RouteAt(p.servers, host, port)
  {
    ParseIsInverse(r.url, host, port);
  }

  lemma {:induction false} ParsedRoutes(env: Env, proxies: seq<Route>, host: string, port: string)
    requires ParseAll(env, proxies).Some? && ':' !in port
    ensures SoundParsing(ParseAll(env, proxies).value)
    ensures RouteAt(ParseAll(env, proxies).value.servers, host, port) == Configured(proxies, Url(host, port))
  {
    if proxies != [] {
      var init, last := proxies[..|proxies| - 1], proxies[|proxies| - 1];
      ParsedRoutes(env, init, host, port);
      ParseOneSound(ParseAll(env, init).value, env, last);
      ParseOneRoute(ParseAll(env, init).value, env, last, host, port);
    }
  }

  /** Only ports that were parsed as TCP ports get a TCP listener. */
  lemma {:induction false} RawStarted(env: Env, proxies: seq<Route>, s: Live)
    requires ParseAll(env, proxies).Some?
    ensures StartAllRaw(s, proxies).servers == s.servers
    ensures StartAllRaw(s, proxies).tcp.Keys == s.tcp.Keys + ParseAll(env, proxies).value.tcpPorts
    ensures StartAllRaw(s, proxies).udp.Keys == s.udp.Keys + ParseAll(env, proxies).value.udpPorts
  {
    if proxies != [] {
      RawStarted(env, proxies[..|proxies| - 1], s);
    }
  }

  function Initial(p: Parsing): Live {
    Live(map port | port in p.servers :: WithHandlers(p.servers[port]), map[], map[])
  }

  lemma ParsedIsSound(p: Parsing, s: Live)
    requires SoundParsing(p) && s.servers == Initial(p).servers && s.tcp.Keys == p.tcpPorts
    ensures Sound(s)
  {
    forall port | port in s.servers
      ensures port !in s.tcp && SoundListener(s.servers[port], port)
    {
    }
  }

  /** A proxy that starts is sound and has handlers for exactly the configured HTTP routes. */
  lemma {:induction false} StartupIsSound(env: Env, proxies: seq<Route>, host: string, port: string)
    requires Startup(env, proxies).Some? && ':' !in port
    ensures Sound(Startup(env, proxies).value)
    ensures Routed(Startup(env, proxies).value, host, port)
         == var r := Configured(proxies, Url(host, port)); if r.None? then None else Some(Wrap(r.value))
  {
    var p := ParseAll(env, proxies).value;
    ParsedRoutes(env, proxies, host, port);
    RawStarted(env, proxies, Initial(p));
    ParsedIsSound(p, Startup(env, proxies).value) by { hide SoundParsing, Sound; }
    hide Sound, SoundParsing, ParseAll, Configured, StartAllRaw, Url;
  }

  // ---- refinement ---------------------------------------------------------------------

  /** The route last registered for this URL and not removed since, looking back over the run. */
  function LastAdded(s0: Live, proxies: seq<Route>, ops: seq<Op>, n: nat, url: string): Option<Route>
    requires n <= |ops|
    decreases n
  {
    if n == 0 then Configured(proxies, url)
    else
      match ops[n - 1]
      case Add(r, _) =>
        if r.url == url && !IsRaw(r.kind) && Step(At(s0, ops, n - 1), ops[n - 1]).1 then Some(r)
        else LastAdded(s0, proxies, ops, n - 1, url)
      case Remove(gone) =>
        if gone == url then None else LastAdded(s0, proxies, ops, n - 1, url)
  }

  lemma AddRoutes(s: Live, env: Env, r: Route, host: string, port: string)
    requires ':' !in port
    ensures Routed(Register(s, env, r).0, host, port)
         == if r.url == Url(host, port) && !IsRaw(r.kind) && Register(s, env, r).1 then Some(Wrap(r)) else Routed(s, host, port)
  {
    ParseIsInverse(r.url, host, port);
  }

  lemma RemoveRoutes(s: Live, url: string, host: string, port: string)
    requires ':' !in port
    ensures Routed(Unregister(s, url), host, port) == if url == Url(host, port) then None else Routed(s, host, port)
  {
    ParseIsInverse(url, host, port);
  }

  /**
   After startup and any run of validated registrations and removals: a port's routes and handlers name
   the same hosts, no port has both an HTTP and a TCP listener, and the handler under a host and port is that
   of the HTTP route last registered there and not removed since, under the key `host:port`.
   */
  lemma {:induction false} LiveRefinesMap(env: Env, proxies: seq<Route>, ops: seq<Op>, n: nat, host: string, port: string)
    requires Startup(env, proxies).Some? && n <= |ops| && ':' !in port
    ensures var s := At(Startup(env, proxies).value, ops, n);
            var r := LastAdded(Startup(env, proxies).value, proxies, ops, n, Url(host, port));
            && Sound(s)
            && s.servers.Keys !! s.tcp.Keys
            && (r.None? ==> Routed(s, host, port) == None)
            && (r.Some? ==> Routed(s, host, port) == Some(Handler(Url(host, port), r.value)))
  {
    var s0 := Startup(env, proxies).value;
    if n == 0 {
      StartupIsSound(env, proxies, host, port);
      ConfiguredUrl(proxies, Url(host, port));
    } else {
      LiveRefinesMap(env, proxies, ops, n - 1, host, port);
      var s, op := At(s0, ops, n - 1), ops[n - 1];
      StepKeepsSound(s, op);
      match op
      case Add(r, addEnv) => AddRoutes(s, addEnv, r, host, port);
      case Remove(url) => RemoveRoutes(s, url, host, port);
    }
  }

  lemma {:induction false} ConfiguredUrl(proxies: seq<Route>, url: string)
    ensures Configured(proxies, url).Some? ==> Configured(proxies, url).value.url == url
  {
    if proxies != [] {
      ConfiguredUrl(proxies[..|proxies| - 1], url);
    }
  }

  // ---- raw listeners ------------------------------------------------------------------

  predicate OnPort(url: string, port: string) {
    ParseHostPort(url).Some? && ParseHostPort(url).value.1 == port
  }

  /** Each raw listener stands on the port of its own route's URL. */
  ghost predicate OwnPorts(s: Live) {
    && (forall port :: port in s.tcp ==> OnPort(s.tcp[port].url, port))
    && (forall port :: port in s.udp ==> OnPort(s.udp[port].url, port))
  }

  /** The TCP route last started on this port and not stopped since; a removal of any URL on the port stops it. */
  function LastTcp(s0: Live, ops: seq<Op>, n: nat, port: string): Option<Raw>
    requires n <= |ops|
    decreases n
  {
    if n == 0 then Lookup(s0.tcp, port)
    else
      match ops[n - 1]
      case Add(r, _) =>
        if OnPort(r.url, port) && IsTcp(r.kind) && Step(At(s0, ops, n - 1), ops[n - 1]).1 then Some(Raw(r.target, r.url))
        else LastTcp(s0, ops, n - 1, port)
      case Remove(gone) => if OnPort(gone, port) then None else LastTcp(s0, ops, n - 1, port)
  }

  /** As `LastTcp`, but while the port has an HTTP listener no removal stops its UDP listener. */
  function LastUdp(s0: Live, ops: seq<Op>, n: nat, port: string): Option<Raw>
    requires n <= |ops|
    decreases n
  {
    if n == 0 then Lookup(s0.udp, port)
    else
      match ops[n - 1]
      case Add(r, _) =>
        if OnPort(r.url, port) && IsUdp(r.kind) && Step(At(s0, ops, n - 1), ops[n - 1]).1 then Some(Raw(r.target, r.url))
        else LastUdp(s0, ops, n - 1, port)
      case Remove(gone) =>
        if OnPort(gone, port) && port !in At(s0, ops, n - 1).servers then None else LastUdp(s0, ops, n - 1, port)
  }

  lemma RawStep(s: Live, op: Op, port: string)
    requires Sound(s)
    ensures var (s', ok) := Step(s, op);
            match op
            case Add(r, _) =>
              && Lookup(s'.tcp, port)
              == (if OnPort(r.url, port) && IsTcp(r.kind) && ok then Some(Raw(r.target, r.url)) else Lookup(s.tcp, port))
              && Lookup(s'.udp, port)
              == (if OnPort(r.url, port) && IsUdp(r.kind) && ok then Some(Raw(r.target, r.url)) else Lookup(s.udp, port))
            case Remove(gone) =>
              && Lookup(s'.tcp, port) == (if OnPort(gone, port) then None else Lookup(s.tcp, port))
              && Lookup(s'.udp, port) == (if OnPort(gone, port) && port !in s.servers then None else Lookup(s.udp, port))
  {
    hide ParseHostPort, SoundListener;
  }

  /** After startup and any run, a port's raw listeners are those last started on it and not stopped since. */
  lemma {:induction false} RawRefinesMap(env: Env, proxies: seq<Route>, ops: seq<Op>, n: nat, port: string)
    requires Startup(env, proxies).Some? && n <= |ops|
    ensures var s0 := Startup(env, proxies).value;
            && Lookup(At(s0, ops, n).tcp, port) == LastTcp(s0, ops, n, port)
            && Lookup(At(s0, ops, n).udp, port) == LastUdp(s0, ops, n, port)
  {
    hide Step, Startup, OnPort, Sound;
    if n > 0 {
      RawRefinesMap(env, proxies, ops, n - 1, port);
      LiveRefinesMap(env, proxies, ops, n - 1, "", "");
      RawStep(At(Startup(env, proxies).value, ops, n - 1), ops[n - 1], port);
    }
  }

  lemma StepKeepsOwnPorts(s: Live, op: Op)
    requires Sound(s) && OwnPorts(s)
    ensures OwnPorts(Step(s, op).0)
  {
    hide Step, OnPort, Sound;
    var s' := Step(s, op).0;
    forall port
      ensures Lookup(s'.tcp, port).Some? ==> OnPort(Lookup(s'.tcp, port).value.url, port)
      ensures Lookup(s'.udp, port).Some? ==> OnPort(Lookup(s'.udp, port).value.url, port)
    {
      RawStep(s, op, port);
    }
    assert forall port :: port in s'.tcp ==> Lookup(s'.tcp, port).Some?;
    assert forall port :: port in s'.udp ==> Lookup(s'.udp, port).Some?;
  }

  lemma {:induction false} StartKeepsOwnPorts(s: Live, proxies: seq<Route>)
    requires OwnPorts(s)
    ensures OwnPorts(StartAllRaw(s, proxies))
  {
    hide ParseHostPort;
    if proxies != [] {
      StartKeepsOwnPorts(s, proxies[..|proxies| - 1]);
    }
  }

  lemma {:induction false} StartupOwnPorts(env: Env, proxies: seq<Route>)
    requires Startup(env, proxies).Some?
    ensures OwnPorts(Startup(env, proxies).value)
  {
    hide StartAllRaw, ParseAll, AllHandled;
    StartKeepsOwnPorts(Initial(ParseAll(env, proxies).value), proxies);
  }

  /** After startup and any run, every raw listener stands on its own route's port. */
  lemma {:induction false} RunKeepsOwnPorts(env: Env, proxies: seq<Route>, ops: seq<Op>, n: nat)
    requires Startup(env, proxies).Some? && n <= |ops|
    ensures OwnPorts(At(Startup(env, proxies).value, ops, n)) && Sound(At(Startup(env, proxies).value, ops, n))
  {
    hide OwnPorts, Sound, Startup, Step;
    LiveRefinesMap(env, proxies, ops, n, "", "");
    if n == 0 {
      StartupOwnPorts(env, proxies);
    } else {
      RunKeepsOwnPorts(env, proxies, ops, n - 1);
      StepKeepsOwnPorts(At(Startup(env, proxies).value, ops, n - 1), ops[n - 1]);
    }
  }

  /**
   Exactly which raw listeners a removal stops. Its own TCP listener always; its own UDP listener if and only
   if the port has no HTTP listener; another route's if and only if that route is on the same port, which for
   UDP again must have no HTTP listener.
   */
  lemma RemovalStopsExactly(s: Live, url: string, port: string)
    requires Sound(s) && OwnPorts(s)
    ensures var s' := Unregister(s, url);
            && (port in s.tcp && s.tcp[port].url == url ==> port !in s'.tcp)
            && (port in s.udp && s.udp[port].url == url ==> (port !in s'.udp <==> port !in s.servers))
            && (port in s.tcp && s.tcp[port].url != url ==> (port !in s'.tcp <==> OnPort(url, port)))
            && (port in s.udp && s.udp[port].url != url ==> (port !in s'.udp <==> OnPort(url, port) && port !in s.servers))
  {
    RawStep(s, Remove(url), port);
    hide OnPort, Sound, Unregister;
  }
}
