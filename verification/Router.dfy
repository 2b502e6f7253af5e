/** How the router reads a request's Host header, and which of the live routes any request can reach. */
module Router {
  import opened Prelude
  import opened HostPort
  import opened Registry
  import LiveRouting

  function LowerChar(c: char): char {
    if 'A' <= c <= 'Z' then (c as int + 32) as char else c
  }

  function ToLower(s: string): string {
    seq(|s|, i requires 0 <= i < |s| => LowerChar(s[i]))
  }

  /** Host and port of a request; a header that does not split is all host, on the scheme's default port. */
  function ReadHost(header: string, tls: bool): (string, string) {
    var parts := SplitHostPort(header);
    if parts.Ok? then (ToLower(parts.value.0), parts.value.1)
    else (ToLower(header), if tls then "443" else "80")
  }

  /** The handler the router picks. */
  function Picked(s: Live, header: string, tls: bool): Option<Handler> {
    var (host, port) := ReadHost(header, tls);
    Routed(s, host, port)
  }

  /** Bytes that a Host header may hold; `net/http` answers any other header with 400 before the router sees it. */
  predicate ValidHostChar(c: char) {
    || 'a' <= c <= 'z' || 'A' <= c <= 'Z' || '0' <= c <= '9'
    || c in {'!', '$', '%', '&', '(', ')', '*', '+', ',', '-', '.', ':', ';', '=', '[', '\'', ']', '_', '~'}
  }

  predicate ValidHost(s: string) {
    forall i :: 0 <= i < |s| ==> ValidHostChar(s[i])
  }

  /** A request with this header can come in on the listener of port `at`, under that listener's scheme. */
  predicate ComesIn(s: Live, at: string, header: string) {
    at in s.servers && ValidHost(header)
  }

  /** Some request that can come in reads as this host and port. */
  ghost predicate Requestable(s: Live, host: string, port: string) {
    exists at, header :: ComesIn(s, at, header) && ReadHost(header, s.servers[at].tls) == (host, port)
  }

  /** Some listener serves this scheme. */
  predicate Serves(s: Live, tls: bool) {
    exists at :: at in s.servers && s.servers[at].tls == tls
  }

  /**
   A lower-case host of valid bytes: without brackets, on a port without colon or brackets, or one that does
   not split, such as a bracketed IPv6 address, on the default port of a scheme that some listener serves.
   */
  predicate Reachable(s: Live, host: string, port: string) {
    && ToLower(host) == host && ValidHost(host) && ValidHost(port)
    && ((Plain(host) && Plain(port) && ':' !in port && s.servers != map[])
        || (SplitHostPort(host).Err?
            && ((port == "80" && Serves(s, false)) || (port == "443" && Serves(s, true)))))
  }

  lemma LowerKeeps(s: string, c: char)
    requires c in {'[', ']', ':', '%'}
    ensures c in ToLower(s) <==> c in s
  {
    if c in s {
      var i :| 0 <= i < |s| && s[i] == c;
      assert ToLower(s)[i] == c;
    }
    if c in ToLower(s) {
      var i :| 0 <= i < |s| && ToLower(s)[i] == c;
      assert s[i] == c;
    }
  }

  lemma LowerTwice(s: string)
    ensures ToLower(ToLower(s)) == ToLower(s)
  {
  }

  lemma LowerSlices(s: string, i: nat)
    requires i <= |s|
    ensures |ToLower(s)| == |s| && ToLower(s)[..i] == ToLower(s[..i]) && ToLower(s)[i..] == ToLower(s[i..])
  {
  }

  lemma LowerKeepsAt(s: string, i: nat, c: char)
    requires i < |s| && c in {'[', ']', ':', '%'}
    ensures |ToLower(s)| == |s| && (s[i] == c <==> ToLower(s)[i] == c)
  {
  }

  lemma {:induction false} LowerKeepsIndex(s: string, c: char)
    requires c in {'[', ']', ':', '%'}
    ensures LastIndex(ToLower(s), c) == LastIndex(s, c)
    ensures FirstIndex(ToLower(s), c) == FirstIndex(s, c)
  {
    hide ToLower, LowerChar, LastIndex, FirstIndex;
    var i, j := LastIndex(s, c), FirstIndex(s, c);
    LowerKeeps(s, c);
    if c in s {
      assert i >= 0 && j >= 0;
      LowerKeepsAt(s, i, c);
      LowerSlices(s, i + 1);
      LowerKeeps(s[i + 1..], c);
      LastIndexIs(ToLower(s), c, i);
      LowerKeepsAt(s, j, c);
      LowerSlices(s, j);
      LowerKeeps(s[..j], c);
      FirstIndexIs(ToLower(s), c, j);
    } else {
      assert i == -1 && j == -1 && LastIndex(ToLower(s), c) == -1 && FirstIndex(ToLower(s), c) == -1;
    }
  }

  /** Whether a text splits does not depend on its letters. */
  lemma LowerKeepsSplit(s: string)
    ensures SplitHostPort(ToLower(s)).Err? <==> SplitHostPort(s).Err?
  {
    hide ToLower, LowerChar, LastIndex, FirstIndex;
    LowerKeepsIndex(s, ':');
    LowerKeepsIndex(s, ']');
    LowerKeeps(s, '[');
    LowerKeeps(s, ']');
    var i, end := LastIndex(s, ':'), FirstIndex(s, ']');
    if i >= 0 {
      LowerKeepsAt(s, 0, '[');
      LowerSlices(s, i);
      LowerSlices(s, 1);
      LowerKeeps(s[..i], ':');
      LowerKeeps(s[1..], '[');
      if end >= 0 {
        LowerSlices(s, end + 1);
        LowerKeeps(s[end + 1..], ']');
      }
    }
  }

  lemma SplitPartsArePlain(s: string)
    requires SplitHostPort(s).Ok?
    ensures Plain(SplitHostPort(s).value.0) && Plain(SplitHostPort(s).value.1) && ':' !in SplitHostPort(s).value.1
  {
    var i, end := LastIndex(s, ':'), FirstIndex(s, ']');
    hide LastIndex, FirstIndex;
    if s[0] == '[' {
      assert s[1..end] <= s[1..];
      assert forall c :: c in s[1..end] ==> c in s[..end] && c in s[1..];
      assert forall c :: c in s[i + 1..] ==> c in s[1..] && c in s[end + 1..];
    }
  }

  lemma SplitKeepsValid(s: string)
    requires SplitHostPort(s).Ok? && ValidHost(s)
    ensures ValidHost(SplitHostPort(s).value.0) && ValidHost(SplitHostPort(s).value.1)
  {
    var i, end := LastIndex(s, ':'), FirstIndex(s, ']');
    hide LastIndex, FirstIndex, ValidHostChar;
    ValidSlice(s, i + 1, |s|);
    if s[0] == '[' {
      ValidSlice(s, 1, end);
    } else {
      ValidSlice(s, 0, i);
    }
  }

  lemma ValidSlice(s: string, i: nat, j: nat)
    requires ValidHost(s) && i <= j <= |s|
    ensures ValidHost(s[i..j])
  {
    hide ValidHostChar;
  }

  lemma LowerIsValid(s: string)
    ensures ValidHost(ToLower(s)) <==> ValidHost(s)
  {
    if ValidHost(ToLower(s)) {
      forall i | 0 <= i < |s|
        ensures ValidHostChar(s[i])
      {
        assert ValidHostChar(ToLower(s)[i]);
      }
    }
  }

  lemma JoinIsValid(host: string, port: string)
    requires ValidHost(host) && ValidHost(port)
    ensures ValidHost(JoinHostPort(host, port))
  {
  }

  /** What a header reads as on one scheme, exactly. */
  lemma ReadIsReachable(header: string, tls: bool)
    requires ValidHost(header)
    ensures var (host, port) := ReadHost(header, tls);
            && ToLower(host) == host && ValidHost(host) && ValidHost(port)
            && ((Plain(host) && Plain(port) && ':' !in port)
                || (SplitHostPort(host).Err? && port == if tls then "443" else "80"))
  {
    hide ToLower, SplitHostPort, ValidHostChar;
    LowerTwice(header);
    LowerIsValid(header);
    LowerKeepsSplit(header);
    if SplitHostPort(header).Ok? {
      SplitPartsArePlain(header);
      SplitKeepsValid(header);
      var host := SplitHostPort(header).value.0;
      LowerTwice(host);
      LowerIsValid(host);
      LowerKeeps(host, '[');
      LowerKeeps(host, ']');
    } else {
      DefaultPortsAreValid();
    }
  }

  lemma DefaultPortsAreValid()
    ensures ValidHost("80") && ValidHost("443")
  {
  }

  /** What a request can read as, exactly. */
  lemma RequestableExactly(s: Live, host: string, port: string)
    ensures Requestable(s, host, port) <==> Reachable(s, host, port)
  {
    if Requestable(s, host, port) {
      ReadsAreReachable(s, host, port);
    }
    if Reachable(s, host, port) {
      ReachableIsRead(s, host, port);
    }
    hide Requestable, Reachable;
  }

  lemma ReadsAreReachable(s: Live, host: string, port: string)
    requires Requestable(s, host, port)
    ensures Reachable(s, host, port)
  {
    hide ToLower, SplitHostPort, ValidHost, ReadHost;
    var at, header :| ComesIn(s, at, header) && ReadHost(header, s.servers[at].tls) == (host, port);
    ReadIsReachable(header, s.servers[at].tls);
    assert s.servers != map[] && Serves(s, s.servers[at].tls);
  }

  lemma ReachableIsRead(s: Live, host: string, port: string)
    requires Reachable(s, host, port)
    ensures Requestable(s, host, port)
  {
    hide ToLower, SplitHostPort, ValidHost, JoinHostPort;
    if Plain(host) && Plain(port) && ':' !in port && s.servers != map[] {
      var at :| at in s.servers;
      JoinThenSplitHostPort(host, port);
      JoinIsValid(host, port);
      assert ComesIn(s, at, JoinHostPort(host, port));
    } else {
      var tls := port == "443";
      assert "80" != "443" by { assert |"80"| != |"443"|; }
      assert Serves(s, tls);
      var at :| at in s.servers && s.servers[at].tls == tls;
      assert ComesIn(s, at, host) && ReadHost(host, tls) == (host, port);
    }
  }

  /** The header that a client builds from host and port reaches the handler of the lower-cased host. */
  lemma JoinedHeaderPicks(s: Live, host: string, port: string, tls: bool)
    requires Plain(host) && Plain(port) && ':' !in port
    ensures Picked(s, JoinHostPort(host, port), tls) == Routed(s, ToLower(host), port)
  {
    JoinThenSplitHostPort(host, port);
  }

  /**
   After startup and any run of registrations and removals, a request is handed to the HTTP route last added
   for what its Host header reads as and not removed since, if there is one.
   */
  lemma {:induction false} RequestsRefineMap(env: Env, proxies: seq<Route>, ops: seq<LiveRouting.Op>, n: nat, header: string, tls: bool)
    requires Startup(env, proxies).Some? && n <= |ops|
    ensures var s0 := Startup(env, proxies).value;
            var (host, port) := ReadHost(header, tls);
            var r := LiveRouting.LastAdded(s0, proxies, ops, n, Url(host, port));
            Picked(LiveRouting.At(s0, ops, n), header, tls)
            == if r.None? then None else Some(Handler(Url(host, port), r.value))
  {
    var (host, port) := ReadHost(header, tls);
    if SplitHostPort(header).Ok? {
      SplitPartsArePlain(header);
    }
    LiveRouting.LiveRefinesMap(env, proxies, ops, n, host, port);
    hide ReadHost, Routed, LiveRouting.At, LiveRouting.LastAdded, Startup, LiveRouting.Sound;
  }

  /** A live HTTP route is handed some request if and only if its host and port are reachable. */
  lemma RouteIsReachedExactly(s: Live, host: string, port: string)
    requires Routed(s, host, port).Some?
    ensures Reachable(s, host, port) <==>
            exists at, header :: ComesIn(s, at, header) && ReadHost(header, s.servers[at].tls) == (host, port)
                                 && Picked(s, header, s.servers[at].tls) == Routed(s, host, port)
  {
    RequestableExactly(s, host, port);
    hide ReadHost, Reachable, Routed, ValidHost;
    if Requestable(s, host, port) {
      var at, header :| ComesIn(s, at, header) && ReadHost(header, s.servers[at].tls) == (host, port);
      assert Picked(s, header, s.servers[at].tls) == Routed(s, host, port);
    }
  }

  /** The bracketed host of an IPv6 range is reachable on the default ports only, over a scheme that is served. */
  lemma BracketedReachable(s: Live, host: string, port: string)
    requires Plain(host) && (':' in host || '%' in host)
    ensures Reachable(s, Bracketed(host), port) <==>
            && ToLower(host) == host && ValidHost(host)
            && ((port == "80" && Serves(s, false)) || (port == "443" && Serves(s, true)))
  {
    hide Serves, ValidHost;
    BracketedParts(host);
    BracketedIsValid(host);
    DefaultPortsAreValid();
    hide SplitHostPort, ToLower, Plain, Bracketed;
  }

  lemma BracketedParts(host: string)
    requires Plain(host) && (':' in host || '%' in host)
    ensures !Plain(Bracketed(host)) && SplitHostPort(Bracketed(host)).Err?
    ensures ToLower(Bracketed(host)) == Bracketed(host) <==> ToLower(host) == host
  {
    var b := Bracketed(host);
    assert b == "[" + host + "]" && b[0] == '[' && b[|host| + 1] == ']';
    assert b[..|host| + 1] == "[" + host;
    FirstIndexIs(b, ']', |host| + 1);
    assert '[' in b;
    assert ToLower(b) == "[" + ToLower(host) + "]";
    assert ToLower(b)[1..|host| + 1] == ToLower(host) && b[1..|host| + 1] == host;
    assert LastIndex(b, ':') < |host| + 2;
    hide LastIndex, FirstIndex, ToLower;
  }

  lemma BracketedIsValid(host: string)
    requires ':' in host || '%' in host
    ensures ValidHost(Bracketed(host)) <==> ValidHost(host)
  {
    var b := Bracketed(host);
    assert b == "[" + host + "]" && |b| == |host| + 2 && b[1..|host| + 1] == host;
    if ValidHost(b) {
      ValidSlice(b, 1, |host| + 1);
    }
  }

  lemma LoopbackIsBracketed()
    ensures Bracketed("::1") == "[::1]" && ':' in "::1" && Plain("::1") && ToLower("::1") == "::1" && ValidHost("::1")
  {
    assert "::1"[0] == ':';
  }

  /** Inputs that no request reaches on any proxy: mixed case, a bracketed address on a port of its own, a stray scheme. */
  lemma NeverReached(s: Live)
    ensures !Reachable(s, "Example.com", "80")
    ensures !Reachable(s, "[::1]", "8080")
    ensures !Reachable(s, "http://example.com", "80")
  {
    assert ToLower("Example.com")[0] == 'e';
    assert !ValidHostChar("http://example.com"[5]);
    LoopbackIsBracketed();
    BracketedReachable(s, "::1", "8080");
    hide ToLower, Bracketed, SplitHostPort, Serves;
    assert |"8080"| == 4;
  }

  lemma FirstRouteLives(env: Env, r: Route)
    requires r.url == Url("[::1]", "443") && !r.tls && Handles(env, r) && env.listens(r)
    ensures var (s, ok) := Register(Live(map[], map[], map[]), env, r);
            ok && Routed(s, "[::1]", "443") == Some(Wrap(r)) && !Serves(s, true)
  {
    ParseIsInverse(r.url, "[::1]", "443");
    hide ParseHostPort, Url;
  }

  /** An input that the scheme puts out of reach: the first route of a proxy, for ::1 on port 443 without TLS. */
  lemma SchemeNotServed(env: Env, r: Route)
    requires r.url == Url("[::1]", "443") && !r.tls && Handles(env, r) && env.listens(r)
    ensures var (s, ok) := Register(Live(map[], map[], map[]), env, r);
            ok && Routed(s, "[::1]", "443") == Some(Wrap(r)) && !Reachable(s, "[::1]", "443")
  {
    hide *;
    FirstRouteLives(env, r);
    LoopbackIsBracketed();
    BracketedReachable(Register(Live(map[], map[], map[]), env, r).0, "::1", "443");
    assert |"443"| != |"80"|;
  }
}
