/**
 From a request to the gates: the router reads the Host header, looks the handler up in the live tables, and
 the handler checks access under its own key. What requests meet, over runs of registrations and removals.
 */
module FrontDoor {
  import opened Prelude
  import opened HostPort
  import opened Registry
  import opened LiveRouting
  import Router
  import Gate
  import S = Sessions

  datatype Incoming = Incoming(ip: string, header: string, tls: bool, path: string, listed: bool, cookie: Option<string>)

  /** The visit that a request becomes; `cache` is the auth cache. */
  function Meet(s: Live, cache: map<string, S.Access>, q: Incoming): Gate.Visit {
    var (host, port) := Router.ReadHost(q.header, q.tls);
    if port !in s.servers then Gate.Web(q.ip, Url(host, port), Gate.NoListener)
    else if host !in s.servers[port].handlers then Gate.Web(q.ip, Url(host, port), Gate.NoHandler)
    else
      var h := s.servers[port].handlers[host];
      Gate.Web(q.ip, h.authKey, Gate.Site(h.route.injectApi, q.path, Lookup(cache, h.authKey), q.listed, q.cookie))
  }

  /** The operation makes sure of an HTTP listener on the port. */
  predicate Opens(s: Live, op: Op, port: string) {
    op.Add? && Validates(s, op.route.url, op.route.kind) && OnPort(op.route.url, port) && !IsRaw(op.route.kind) && op.env.listens(op.route)
  }

  /** The config file has an HTTP route on the port. */
  predicate Configures(proxies: seq<Route>, port: string) {
    exists r :: r in proxies && !IsRaw(r.kind) && OnPort(r.url, port)
  }

  /** Some configured or registered HTTP route opened a listener on the port; none is ever closed. */
  predicate Opened(s0: Live, proxies: seq<Route>, ops: seq<Op>, n: nat, port: string)
    requires n <= |ops|
    decreases n
  {
    if n == 0 then Configures(proxies, port)
    else Opened(s0, proxies, ops, n - 1, port) || Opens(At(s0, ops, n - 1), ops[n - 1], port)
  }

  lemma ListenersStep(s: Live, op: Op, port: string)
    ensures port in Step(s, op).0.servers <==> port in s.servers || Opens(s, op, port)
  {
    hide ParseHostPort, Handles, WithRoute, WithoutHost;
  }

  lemma {:induction false} ParsedListeners(env: Env, proxies: seq<Route>, port: string)
    requires ParseAll(env, proxies).Some?
    ensures port in ParseAll(env, proxies).value.servers <==> Configures(proxies, port)
  {
    hide ParseOne, Configures, OnPort, IsRaw;
    if proxies == [] {
      NothingConfigured(port);
    } else {
      var init, last := proxies[..|proxies| - 1], proxies[|proxies| - 1];
      ParsedListeners(env, init, port);
      ParsedListener(ParseAll(env, init).value, env, last, port);
      ConfiguresLast(init, last, port);
      assert proxies == init + [last];
    }
  }

  lemma NothingConfigured(port: string)
    ensures !Configures([], port)
  {
  }

  lemma {:induction false} ConfiguresLast(init: seq<Route>, last: Route, port: string)
    ensures Configures(init + [last], port) <==> Configures(init, port) || (!IsRaw(last.kind) && OnPort(last.url, port))
  {
    hide OnPort, IsRaw;
    assert last in init + [last];
  }

  lemma ParsedListener(p: Parsing, env: Env, r: Route, port: string)
    requires ParseOne(p, env, r).Some?
    ensures port in ParseOne(p, env, r).value.servers <==> port in p.servers || (!IsRaw(r.kind) && OnPort(r.url, port))
  {
    hide ParseHostPort, TlsReady;
  }

  lemma {:induction false} StartupListeners(env: Env, proxies: seq<Route>, port: string)
    requires Startup(env, proxies).Some?
    ensures port in Startup(env, proxies).value.servers <==> Configures(proxies, port)
  {
    ParsedListeners(env, proxies, port);
    RawStarted(env, proxies, Initial(ParseAll(env, proxies).value));
    hide ParseAll, StartAllRaw, Configures, AllHandled;
  }

  lemma {:induction false} ListenersOpened(env: Env, proxies: seq<Route>, ops: seq<Op>, n: nat, port: string)
    requires Startup(env, proxies).Some? && n <= |ops|
    ensures port in At(Startup(env, proxies).value, ops, n).servers <==> Opened(Startup(env, proxies).value, proxies, ops, n, port)
  {
    hide Startup, Step, Opens, Configures;
    if n == 0 {
      StartupListeners(env, proxies, port);
    } else {
      ListenersOpened(env, proxies, ops, n - 1, port);
      ListenersStep(At(Startup(env, proxies).value, ops, n - 1), ops[n - 1], port);
    }
  }

  /** In one state: the three cases, in terms of listener and handler. */
  lemma MeetCases(s: Live, cache: map<string, S.Access>, q: Incoming)
    ensures var v := Meet(s, cache, q);
            var (host, port) := Router.ReadHost(q.header, q.tls);
            var h := Router.Picked(s, q.header, q.tls);
            && v.Web? && v.ip == q.ip
            && (v.site.NoListener? <==> port !in s.servers)
            && (v.site.Site? <==> h.Some?)
            && (h.Some? ==> v.key == h.value.authKey
                            && v.site == Gate.Site(h.value.route.injectApi, q.path, Lookup(cache, v.key), q.listed, q.cookie))
            && (h.None? ==> v.key == Url(host, port))
  {
    hide Router.ReadHost;
  }

  /**
   After startup and any run of registrations and removals: a request finds no listener exactly if no HTTP
   route ever opened its port, and a site exactly if some route was last added for what its Host header reads
   as and not removed since. That route says whether the built-in API answers; access is checked, and every
   event recorded, under host:port as the header reads, whatever it finds.
   */
  lemma {:induction false} RequestsMeetExactly(
    env: Env, proxies: seq<Route>, ops: seq<Op>, n: nat, cache: map<string, S.Access>, q: Incoming)
    requires Startup(env, proxies).Some? && n <= |ops|
    ensures var s0 := Startup(env, proxies).value;
            var (host, port) := Router.ReadHost(q.header, q.tls);
            var v := Meet(At(s0, ops, n), cache, q);
            var last := LastAdded(s0, proxies, ops, n, Url(host, port));
            && v.Web? && v.key == Url(host, port)
            && (v.site.NoListener? <==> !Opened(s0, proxies, ops, n, port))
            && (v.site.Site? <==> last.Some?)
            && (last.Some? ==>
                  v.site == Gate.Site(last.value.injectApi, q.path, Lookup(cache, Url(host, port)), q.listed, q.cookie))
  {
    hide *;
    var s := At(Startup(env, proxies).value, ops, n);
    MeetCases(s, cache, q);
    ListenersOpened(env, proxies, ops, n, Router.ReadHost(q.header, q.tls).1);
    Router.RequestsRefineMap(env, proxies, ops, n, q.header, q.tls);
  }
}
