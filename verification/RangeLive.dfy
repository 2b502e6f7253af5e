/** What a range that was made serves: each port forwards, or is handled, as its row in the table says. */
module RangeLive {
  import opened Prelude
  import opened Text
  import opened HostPort
  import opened Registry
  import opened RouteTable
  import opened StartupExact
  import opened Registrations
  import opened RangeCreate

  /** The live tables agree about a port. */
  predicate SameAt(s: Live, s': Live, p: string) {
    Lookup(s'.tcp, p) == Lookup(s.tcp, p) && Lookup(s'.udp, p) == Lookup(s.udp, p) && Lookup(s'.servers, p) == Lookup(s.servers, p)
  }

  lemma RegisterElsewhere(s: Live, env: Env, r: Route, host: string, port: string, p: string)
    requires r.url == Url(host, port) && ':' !in port && p != port
    ensures SameAt(s, Register(s, env, r).0, p)
  {
    if ServesHttp(r) {
      HttpRegistersExactly(s, env, r, host, port);
    } else {
      RawRegisters(s, env, r, host, port);
    }
    hide Register, Url, ServesHttp, CanListen, HasHandler;
  }

  lemma {:induction false} GrownElsewhere(s: Sys, env: Env, r: Range, k: nat, n: nat, p: string)
    requires k <= n && forall j :: k <= j < n ==> p != Port(r, j)
    ensures SameAt(Grown(s, env, r, k).live, Grown(s, env, r, n).live, p)
  {
    hide Port, PortUrl, Grown, Target, Register;
    if k < n {
      GrownElsewhere(s, env, r, k, n - 1, p);
      GrownStep(s, env, r, n - 1);
      PortUrlParts(r, n - 1);
      RegisterElsewhere(Grown(s, env, r, n - 1).live, env, PortRoute(r, n - 1), Bracketed(r.host), Port(r, n - 1), p);
    }
  }

  /** A port comes to the state its registration finds as it was, and keeps what its registration left. */
  lemma {:induction false} GrownAround(s: Sys, env: Env, r: Range, k: nat, n: nat)
    requires k < n
    ensures SameAt(s.live, Grown(s, env, r, k).live, Port(r, k))
    ensures SameAt(Register(Grown(s, env, r, k).live, env, PortRoute(r, k)).0, Grown(s, env, r, n).live, Port(r, k))
  {
    hide Port, PortUrl, Grown, Target, Register, SameAt;
    forall j | 0 <= j && j != k
      ensures Port(r, j) != Port(r, k)
    {
      if Port(r, j) == Port(r, k) {
        PortsDiffer(r, j, k);
      }
    }
    StartsGrown(s, env, r);
    GrownElsewhere(s, env, r, 0, k, Port(r, k));
    GrownStep(s, env, r, k);
    GrownElsewhere(s, env, r, k + 1, n, Port(r, k));
  }

  /** A route on a port that validated goes live: always if it is raw, else if the port can listen and there is a handler. */
  predicate GoesLive(s: Live, env: Env, r: Route, port: string) {
    ServesHttp(r) ==> (port in s.servers || env.listens(r)) && HasHandler(env, r)
  }

  /** What a live route put into the tables. */
  predicate Serves(s: Live, s': Live, r: Route, host: string, port: string) {
    && (ListensTcp(r) ==> Lookup(s'.tcp, port) == Some(Raw(r.target, r.url)))
    && (ListensUdp(r) ==> Lookup(s'.udp, port) == Some(Raw(r.target, r.url)))
    && (ServesHttp(r) ==>
          && Routed(s', host, port) == Some(Handler(r.url, r))
          && (if port in s.servers then s'.servers[port].tls == s.servers[port].tls else OpenedFor(s'.servers[port], r)))
  }

  lemma RegisteredServes(s: Live, before: Live, env: Env, r: Route, host: string, port: string, after: Live)
    requires r.url == Url(host, port) && ':' !in port && SameAt(s, before, port)
    requires ServesHttp(r) ==> port !in s.tcp
    requires SameAt(Register(before, env, r).0, after, port)
    ensures Register(before, env, r).1 <==> GoesLive(s, env, r, port)
    ensures GoesLive(s, env, r, port) ==> Serves(s, after, r, host, port)
  {
    if ServesHttp(r) {
      HttpRegistersExactly(before, env, r, host, port);
    } else {
      RawRegisters(before, env, r, host, port);
    }
    hide Register, Url, HasHandler, ServesHttp;
  }

  lemma {:induction false} PortServes(s: Sys, env: Env, r: Range, k: nat, n: nat)
    requires k < n && AllValidated(s.live, r, n)
    ensures NotLive(s, env, r, k) <==> !GoesLive(s.live, env, PortRoute(r, k), Port(r, k))
    ensures GoesLive(s.live, env, PortRoute(r, k), Port(r, k)) ==>
              Serves(s.live, Grown(s, env, r, n).live, PortRoute(r, k), Bracketed(r.host), Port(r, k))
  {
    PortUrlParts(r, k);
    ValidatedPort(s.live, r, n, k);
    hide Port, PortUrl, Grown, Target, Register, SameAt, GoesLive, Serves, AllValidated;
    GrownAround(s, env, r, k, n);
    RegisteredServes(s.live, Grown(s, env, r, k).live, env, PortRoute(r, k), Bracketed(r.host), Port(r, k), Grown(s, env, r, n).live);
  }

  // ---- in terms of the request -----------------------------------------------------------

  function AskedPort(q: Request, k: nat): string {
    Itoa(q.startPort as int + k)
  }

  function AskedUrl(q: Request, k: nat): string {
    JoinHostPort(q.host, Itoa(q.startPort as int + k))
  }

  /** The port's target: as asked, or the asked host with its port number moved along. */
  predicate AimsAt(q: Request, k: nat, target: string) {
    if !q.offset then target == q.target
    else
      var base := SplitHostPortNum(q.target);
      base.Ok? && target == JoinHostPort(base.value.0, Itoa(Wrapped(base.value.1 as int + k)))
  }

  lemma TargetAims(q: Request, group: string, k: nat)
    requires Requested(q, group).Ok?
    ensures AimsAt(q, k, Target(Requested(q, group).value, k))
  {
    hide SplitHostPortNum, JoinHostPort, Itoa, Wrapped;
  }

  lemma AskedRoute(q: Request, group: string, k: nat)
    requires Requested(q, group).Ok?
    ensures var r := Requested(q, group).value;
            && r.kind == q.kind && r.host == q.host
            && PortUrl(r, k) == AskedUrl(q, k) && Port(r, k) == AskedPort(q, k)
            && PortEndpoint(r, k) == Endpoint(Target(r, k), q.kind, q.tls, q.cert, q.key)
            && PortRoute(r, k) == Route(AskedUrl(q, k), Target(r, k), q.kind, q.tls, q.cert, q.key, false)
  {
    hide SplitHostPortNum, JoinHostPort, Itoa, Wrapped, Target;
  }

  /** The route that the row of a URL describes. */
  function RowRoute(url: string, e: Endpoint): Route {
    Route(url, e.target, e.kind, e.tls, e.cert, e.key, false)
  }

  /**
   Every port of a range that was made has a row as asked, and what serves the port is what the row says: a raw
   port forwards to the row's target, and an HTTP port has a handler for the row's route, unless it could not go
   live, of which the answer warns.
   */
  lemma MadeIsServed(s: Sys, env: Env, q: Request, group: string, answer: Answer, s': Sys, k: nat)
    requires Answers(s, env, q, group, answer, s') && answer.Made? && k < answer.count
    ensures var (port, url) := (AskedPort(q, k), AskedUrl(q, k));
            && url in s'.table
            && var e := s'.table[url].endpoint;
               var route := RowRoute(url, e);
               && e.kind == q.kind && e.tls == q.tls && e.cert == q.cert && e.key == q.key && AimsAt(q, k, e.target)
               && (GoesLive(s.live, env, route, port) ==> Serves(s.live, s'.live, route, Bracketed(q.host), port))
               && (!GoesLive(s.live, env, route, port) ==> answer.warning)
  {
    var r, n := Requested(q, group).value, answer.count;
    hide Grown, Target, Register, AllValidated, NoneTaken, NotLive, GoesLive, Serves, AimsAt, Requested;
    SuccessAddsOneRowPerPort(s, env, r, n);
    AskedRoute(q, group, k);
    TargetAims(q, group, k);
    PortServes(s, env, r, k, n);
    hide PortUrl, Port, AskedPort, AskedUrl;
  }

  /** The answer warns only if some port did not go live. */
  lemma NotAllLive(s: Sys, env: Env, q: Request, group: string, answer: Answer, s': Sys)
    returns (k: nat)
    requires Answers(s, env, q, group, answer, s') && answer.Made? && answer.warning
    ensures k < answer.count
    ensures var (port, url) := (AskedPort(q, k), AskedUrl(q, k));
            url in s'.table && !GoesLive(s.live, env, RowRoute(url, s'.table[url].endpoint), port)
  {
    var r, n := Requested(q, group).value, answer.count;
    hide Grown, Target, Register, AllValidated, NoneTaken, NotLive, GoesLive, Serves, Requested;
    k :| k < Span(q) && NotLive(s, env, r, k);
    SuccessAddsOneRowPerPort(s, env, r, n);
    AskedRoute(q, group, k);
    PortServes(s, env, r, k, n);
    hide PortUrl, Port, AskedPort, AskedUrl;
  }

  /** Ports outside the range keep everything they serve. */
  lemma MadeElsewhere(s: Sys, env: Env, q: Request, group: string, answer: Answer, s': Sys, p: string)
    requires Answers(s, env, q, group, answer, s') && answer.Made?
    requires forall k :: 0 <= k < answer.count ==> p != AskedPort(q, k)
    ensures SameAt(s.live, s'.live, p)
  {
    var r, n := Requested(q, group).value, answer.count;
    forall k | 0 <= k < n
      ensures p != Port(r, k)
    {
      AskedRoute(q, group, k);
    }
    hide Grown, Target, Register, AllValidated, NoneTaken, NotLive, SameAt, Requested, Port, AskedPort;
    StartsGrown(s, env, r);
    GrownElsewhere(s, env, r, 0, n, p);
  }

  // ---- which answer --------------------------------------------------------------------------

  /** Port `k` of the request validates. */
  predicate PortValidates(s: Live, q: Request, k: nat) {
    Validates(s, AskedUrl(q, k), q.kind)
  }

  predicate PortTaken(t: Table, q: Request, k: nat) {
    AskedUrl(q, k) in t
  }

  /** The range spans at most 256 ports, and its target has a port number if it is to walk along. */
  predicate WellAsked(q: Request) {
    (q.endPort as int) - (q.startPort as int) < 256 && (q.offset ==> SplitHostPortNum(q.target).Ok?)
  }

  /** The first `n` ports of the request validate. */
  predicate AllValidate(s: Live, q: Request, n: nat) {
    forall k :: 0 <= k < n ==> PortValidates(s, q, k)
  }

  /** The first `n` ports of the request are free in the table. */
  predicate AllFree(t: Table, q: Request, n: nat) {
    forall k :: 0 <= k < n ==> !PortTaken(t, q, k)
  }

  lemma AskedParts(q: Request, group: string)
    ensures Requested(q, group).Ok? <==> (q.offset ==> SplitHostPortNum(q.target).Ok?)
    ensures Span(q) == (q.endPort as int) - (q.startPort as int) + 1
  {
    hide SplitHostPortNum;
  }

  lemma AskedPortAlike(s: Sys, q: Request, group: string, k: nat)
    requires Requested(q, group).Ok?
    ensures var r := Requested(q, group).value;
            && r.kind == q.kind
            && (Validates(s.live, PortUrl(r, k), q.kind) <==> PortValidates(s.live, q, k))
            && (PortUrl(r, k) in s.table <==> PortTaken(s.table, q, k))
  {
    AskedRoute(q, group, k);
    hide Requested, PortUrl, AskedUrl, Validates;
  }

  lemma AskedPorts(s: Sys, q: Request, group: string, n: nat)
    requires Requested(q, group).Ok?
    ensures var r := Requested(q, group).value;
            && (AllValidated(s.live, r, n) <==> AllValidate(s.live, q, n))
            && (NoneTaken(s.table, r, n) <==> AllFree(s.table, q, n))
  {
    forall k: nat
      ensures var r := Requested(q, group).value;
              && (Validates(s.live, PortUrl(r, k), r.kind) <==> PortValidates(s.live, q, k))
              && (PortUrl(r, k) in s.table <==> PortTaken(s.table, q, k))
    {
      AskedPortAlike(s, q, group, k);
    }
    hide Requested, PortUrl, Validates, PortValidates, PortTaken;
  }

  /** Port `k` is the first that does not validate, or that is taken though all validate. */
  predicate Fails(s: Sys, q: Request, span: nat, k: nat) {
    && k < span
    && if AllValidate(s.live, q, span) then AllFree(s.table, q, k) && PortTaken(s.table, q, k)
       else AllValidate(s.live, q, k) && !PortValidates(s.live, q, k)
  }

  lemma OneFails(s: Sys, q: Request, n: nat, k: nat)
    requires k < n
    ensures !PortValidates(s.live, q, k) ==> !AllValidate(s.live, q, n)
    ensures PortTaken(s.table, q, k) ==> !AllFree(s.table, q, n)
  {
    hide PortValidates, PortTaken;
  }

  lemma RejectedMeans(s: Sys, env: Env, q: Request, group: string, answer: Answer, s': Sys)
    requires Answers(s, env, q, group, answer, s') && answer.Rejected?
    ensures var k := answer.port - q.startPort;
            && WellAsked(q) && 0 <= k < Span(q)
            && AllValidate(s.live, q, k) && !PortValidates(s.live, q, k) && !AllValidate(s.live, q, Span(q))
  {
    hide Requested, PortUrl, AllValidated, NoneTaken, Validates, Grown, RolledBack, NotLive, SplitHostPortNum, Span;
    hide AllValidate, AllFree, PortValidates, PortTaken;
    var k: nat := answer.port - q.startPort;
    AskedParts(q, group);
    AskedPorts(s, q, group, k);
    AskedPortAlike(s, q, group, k);
    OneFails(s, q, Span(q), k);
  }

  lemma ConflictMeans(s: Sys, env: Env, q: Request, group: string, answer: Answer, s': Sys)
    requires Answers(s, env, q, group, answer, s') && answer.Conflict?
    ensures var k := answer.port - q.startPort;
            && WellAsked(q) && 0 <= k < Span(q) && AllValidate(s.live, q, Span(q))
            && AllFree(s.table, q, k) && PortTaken(s.table, q, k) && !AllFree(s.table, q, Span(q))
  {
    hide Requested, PortUrl, AllValidated, NoneTaken, Validates, Grown, RolledBack, NotLive, SplitHostPortNum, Span;
    hide AllValidate, AllFree, PortValidates, PortTaken;
    var k: nat := answer.port - q.startPort;
    AskedParts(q, group);
    AskedPorts(s, q, group, Span(q));
    AskedPorts(s, q, group, k);
    AskedPortAlike(s, q, group, k);
    OneFails(s, q, Span(q), k);
  }

  lemma MadeMeans(s: Sys, env: Env, q: Request, group: string, answer: Answer, s': Sys)
    requires Answers(s, env, q, group, answer, s') && answer.Made?
    ensures 0 <= answer.count == Span(q) && WellAsked(q) && AllValidate(s.live, q, Span(q)) && AllFree(s.table, q, Span(q))
  {
    hide Requested, AllValidated, NoneTaken, Grown, RolledBack, NotLive, SplitHostPortNum, Span, AllValidate, AllFree;
    AskedParts(q, group);
    AskedPorts(s, q, group, Span(q));
  }

  lemma RefusedMeans(s: Sys, env: Env, q: Request, group: string, answer: Answer, s': Sys)
    requires Answers(s, env, q, group, answer, s')
    ensures answer.TooLarge? ==> Span(q) > 256
    ensures answer.BadTarget? ==> Span(q) <= 256 && q.offset && SplitHostPortNum(q.target).Err?
  {
    AskedParts(q, group);
    hide Requested, AllValidated, NoneTaken, Grown, RolledBack, NotLive, SplitHostPortNum, Span;
  }

  /**
   Exactly which answer a request gets: too many ports, no port number to walk along with, the first port that does
   not validate, the first whose URL is taken, or else the range is made.
   */
  lemma AnsweredExactly(s: Sys, env: Env, q: Request, group: string, answer: Answer, s': Sys)
    requires Answers(s, env, q, group, answer, s') && q.startPort < q.endPort
    ensures var span := (q.endPort as int) - (q.startPort as int) + 1;
            && (answer.TooLarge? <==> span > 256)
            && (answer.BadTarget? <==> span <= 256 && q.offset && SplitHostPortNum(q.target).Err?)
            && (answer.Rejected? <==> WellAsked(q) && !AllValidate(s.live, q, span))
            && (answer.Conflict? <==> WellAsked(q) && AllValidate(s.live, q, span) && !AllFree(s.table, q, span))
            && (answer.Rejected? || answer.Conflict? ==>
                  answer.port >= q.startPort && Fails(s, q, span, answer.port - q.startPort))
            && (answer.Made? ==> answer.count == span)
  {
    hide Answers, AllValidate, AllFree, PortValidates, PortTaken, SplitHostPortNum;
    AskedParts(q, group);
    RefusedMeans(s, env, q, group, answer, s');
    if answer.Rejected? {
      RejectedMeans(s, env, q, group, answer, s');
    } else if answer.Conflict? {
      ConflictMeans(s, env, q, group, answer, s');
    } else if answer.Made? {
      MadeMeans(s, env, q, group, answer, s');
    }
  }
}
