/** The recent-events ring and the event counters, against the full history of events. */
module Metrics {
  import opened Prelude

  const OUTCOME_SERVED := "served"

  /** Size of the ring. */
  const CAP: nat := 500

  datatype Event = Event(time: real, ip: string, route: string, outcome: string)

  function Bump(m: map<string, nat>, k: string): map<string, nat> {
    m[k := (if k in m then m[k] else 0) + 1]
  }

  /** Events per outcome. */
  function OutcomeTotals(history: seq<Event>): map<string, nat> {
    if history == [] then map[]
    else Bump(OutcomeTotals(history[..|history| - 1]), history[|history| - 1].outcome)
  }

  /** Served events per route. */
  function ServedTotals(history: seq<Event>): map<string, nat> {
    if history == [] then map[]
    else
      var rest, last := ServedTotals(history[..|history| - 1]), history[|history| - 1];
      if last.outcome == OUTCOME_SERVED then Bump(rest, last.route) else rest
  }

  function Newest(n: nat): nat {
    if n < CAP then n else CAP
  }

  class EventLog {
    const ring: array<Event>
    var head: nat
    var count: nat
    var eventCounters: map<string, nat>
    var routeCounters: map<string, nat>

    /** Every event since the start. */
    ghost var history: seq<Event>

    ghost predicate Valid()
      reads this, ring
    {
      && ring.Length == CAP
      && head == |history| % CAP
      && count == Newest(|history|)
      && (forall j :: |history| - count <= j < |history| ==> ring[j % CAP] == history[j])
      && eventCounters == OutcomeTotals(history)
      && routeCounters == ServedTotals(history)
    }

    constructor (blank: Event)
      ensures Valid() && history == []
      ensures fresh(ring)
    {
      ring := new Event[CAP](_ => blank);
      head, count := 0, 0;
      eventCounters, routeCounters := map[], map[];
      history := [];
    }

    method RecordEvent(time: real, ip: string, route: string, outcome: string)
      requires Valid()
      modifies this, ring
      ensures Valid() && history == old(history) + [Event(time, ip, route, outcome)]
    {
      hide OutcomeTotals, ServedTotals, Bump;
      var e := Event(time, ip, route, outcome);
      TotalsStep(history, e);
      ghost var n := |history|;
      eventCounters := Bump(eventCounters, outcome);
      if outcome == OUTCOME_SERVED {
        routeCounters := Bump(routeCounters, route);
      }
      ring[head] := e;
      head := (head + 1) % CAP;
      if count < CAP {
        count := count + 1;
      }
      history := history + [e];
      forall j | n + 1 - count <= j < n
        ensures ring[j % CAP] == history[j]
      {
        OtherSlot(j, n);
      }
      NextSlot(n);
    }

    /** The last events, newest first; `ring` is walked backwards from the next write slot. */
    method GetRecentEvents() returns (out: seq<Event>)
      requires Valid()
      ensures |out| == if |history| < 500 then |history| else 500
      ensures forall i :: 0 <= i < |out| ==> out[i] == history[|history| - 1 - i]
    {
      out := [];
      for i := 0 to count
        invariant |out| == i
        invariant forall k :: 0 <= k < i ==> out[k] == history[|history| - 1 - k]
      {
        var idx := (head - 1 - i + CAP) % CAP;
        SlotBehind(|history|, i);
        out := out + [ring[idx]];
      }
    }
  }

  lemma {:induction false} TotalsStep(history: seq<Event>, e: Event)
    ensures OutcomeTotals(history + [e]) == Bump(OutcomeTotals(history), e.outcome)
    ensures ServedTotals(history + [e])
         == if e.outcome == OUTCOME_SERVED then Bump(ServedTotals(history), e.route) else ServedTotals(history)
  {
    assert (history + [e])[..|history|] == history;
  }

  lemma NextSlot(n: nat)
    ensures (n % CAP + 1) % CAP == (n + 1) % CAP
  {
  }

  /** Two events less than a ring apart lie in different slots. */
  lemma OtherSlot(j: nat, n: nat)
    requires j < n < j + CAP
    ensures j % CAP != n % CAP
  {
  }

  /** Walking back from the next write slot reaches the slot of the event that many steps ago. */
  lemma SlotBehind(n: nat, i: nat)
    requires i < Newest(n)
    ensures (n % CAP - 1 - i + CAP) % CAP == (n - 1 - i) % CAP
  {
  }

  // ---- conservation ------------------------------------------------------------------

  ghost function Sum(m: map<string, nat>): nat
    decreases m.Keys
  {
    if m == map[] then 0
    else
      var k :| k in m;
      assert (m - {k}).Keys == m.Keys - {k};
      m[k] + Sum(m - {k})
  }

  lemma {:induction false} SumTakesOut(m: map<string, nat>, k: string)
    requires k in m
    ensures Sum(m) == m[k] + Sum(m - {k})
    decreases m.Keys
  {
    var first :| first in m && Sum(m) == m[first] + Sum(m - {first});
    if first != k {
      assert (m - {first}).Keys == m.Keys - {first};
      SumTakesOut(m - {first}, k);
      assert (m - {k}).Keys == m.Keys - {k};
      SumTakesOut(m - {k}, first);
      assert (m - {first}) - {k} == (m - {k}) - {first};
    }
  }

  lemma {:induction false} SumOfBump(m: map<string, nat>, k: string)
    ensures Sum(Bump(m, k)) == Sum(m) + 1
  {
    SumTakesOut(Bump(m, k), k);
    if k in m {
      SumTakesOut(m, k);
      assert Bump(m, k) - {k} == m - {k};
    } else {
      assert Bump(m, k) - {k} == m;
    }
  }

  /** Events with an outcome, counted one by one. */
  function CountOutcome(history: seq<Event>, outcome: string): nat {
    if history == [] then 0
    else CountOutcome(history[..|history| - 1], outcome) + (if history[|history| - 1].outcome == outcome then 1 else 0)
  }

  function CountServed(history: seq<Event>, route: string): nat {
    if history == [] then 0
    else
      var last := history[|history| - 1];
      CountServed(history[..|history| - 1], route) + (if last.outcome == OUTCOME_SERVED && last.route == route then 1 else 0)
  }

  /** Each counter holds exactly its events, and one exists only if there was such an event. */
  lemma {:induction false} CountersAreExact(history: seq<Event>, key: string)
    ensures Lookup(OutcomeTotals(history), key) == if CountOutcome(history, key) == 0 then None else Some(CountOutcome(history, key))
    ensures Lookup(ServedTotals(history), key) == if CountServed(history, key) == 0 then None else Some(CountServed(history, key))
  {
    if history != [] {
      CountersAreExact(history[..|history| - 1], key);
    }
  }

  /** The outcome counters add up to all events, and the route counters to the served ones. */
  lemma {:induction false} CountersAreConserved(history: seq<Event>)
    ensures Sum(OutcomeTotals(history)) == |history|
    ensures Sum(ServedTotals(history)) == CountOutcome(history, OUTCOME_SERVED)
  {
    if history != [] {
      var rest, last := history[..|history| - 1], history[|history| - 1];
      CountersAreConserved(rest);
      SumOfBump(OutcomeTotals(rest), last.outcome);
      if last.outcome == OUTCOME_SERVED {
        SumOfBump(ServedTotals(rest), last.route);
      }
    }
  }
}
