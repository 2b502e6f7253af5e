/**
 The `proxy_routes` table, keyed by its unique URL: reconciling it with the config file, and creating
 and deleting the routes of the admin page.
 */
module RouteTable {
  import opened Prelude

  datatype Source = FromConfig | FromUi

  /** What routes a request, and who may make one; `rangeGroup` links the ports of one range. */
  datatype Endpoint = Endpoint(target: string, kind: string, tls: bool, cert: string, key: string)
  datatype Control = Control(allowedGroups: string, allowedIPs: string, ipAuth: bool, persistentLogin: bool, requireLogin: bool)
  datatype Row = Row(endpoint: Endpoint, source: Source, enabled: bool, control: Control, rangeGroup: string)

  type Table = map<string, Row>

  datatype ConfigRoute = ConfigRoute(url: string, endpoint: Endpoint)

  /** Access control of a new row: the column defaults. */
  const OPEN := Control("", "", false, true, false)

  function Urls(routes: seq<ConfigRoute>): set<string> {
    set r | r in routes :: r.url
  }

  /** `INSERT ... ON CONFLICT(url) DO UPDATE`: access control and range group of an old row stay. */
  function Upsert(t: Table, r: ConfigRoute): Table {
    t[r.url := if r.url in t
               then t[r.url].(endpoint := r.endpoint, source := FromConfig, enabled := true)
               else Row(r.endpoint, FromConfig, true, OPEN, "")]
  }

  function UpsertAll(t: Table, routes: seq<ConfigRoute>): Table {
    if routes == [] then t
    else Upsert(UpsertAll(t, routes[..|routes| - 1]), routes[|routes| - 1])
  }

  /** The config rows whose URL is not in the file go. */
  function DropRemoved(t: Table, kept: set<string>): Table {
    map u | u in t && (t[u].source == FromUi || u in kept) :: t[u]
  }

  function Synced(t: Table, routes: seq<ConfigRoute>): Table {
    DropRemoved(UpsertAll(t, routes), Urls(routes))
  }

  class Routes {
    var table: Table

    constructor ()
      ensures table == map[]
    {
      table := map[];
    }

    method SyncRoutes(routes: seq<ConfigRoute>)
      modifies this
      ensures table == Synced(old(table), routes)
    {
      for i := 0 to |routes|
        invariant table == UpsertAll(old(table), routes[..i])
      {
        var r := routes[i];
        assert routes[..i + 1][..i] == routes[..i];
        if r.url in table {
          var row := table[r.url];
          table := table[r.url := Row(r.endpoint, FromConfig, true, row.control, row.rangeGroup)];
        } else {
          table := table[r.url := Row(r.endpoint, FromConfig, true, OPEN, "")];
        }
      }
      assert routes[..|routes|] == routes;
      if |routes| == 0 {
        table := map u | u in table && table[u].source != FromConfig :: table[u];
      } else {
        var kept := Urls(routes);
        table := map u | u in table && !(table[u].source == FromConfig && u !in kept) :: table[u];
      }
    }

    /** Fails when the URL is taken. */
    method CreateRoute(url: string, endpoint: Endpoint, rangeGroup: string) returns (ok: bool)
      modifies this
      ensures ok == (url !in old(table))
      ensures table == if ok then Created(old(table), url, endpoint, rangeGroup) else old(table)
    {
      ok := url !in table;
      if ok {
        table := table[url := Row(endpoint, FromUi, true, OPEN, rangeGroup)];
      }
    }

    /** Deletes the UI rows of a range and returns their URLs; Err for an empty or unknown group. */
    method DeleteRouteGroup(rangeGroup: string) returns (urls: Result<seq<string>>)
      modifies this
      ensures rangeGroup == "" ==> urls.Err? && table == old(table)
      ensures rangeGroup != "" ==>
                && (urls.Err? <==> GroupUrls(old(table), rangeGroup) == {})
                && (urls.Ok? ==> Lists(urls.value, GroupUrls(old(table), rangeGroup)))
                && table == old(table) - GroupUrls(old(table), rangeGroup)
      ensures forall u :: u in table <==>
                u in old(table) && (rangeGroup == "" || old(table)[u].rangeGroup != rangeGroup || old(table)[u].source == FromConfig)
      ensures forall u :: u in table ==> table[u] == old(table)[u]
    {
      if rangeGroup == "" {
        return Err;
      }
      var gone := GroupUrls(table, rangeGroup);
      table := table - gone;
      if gone == {} {
        return Err;
      }
      var list: seq<string> := [];
      var todo := gone;
      while todo != {}
        invariant todo <= gone && Lists(list, gone - todo)
        decreases todo
      {
        var u :| u in todo;
        list := list + [u];
        todo := todo - {u};
      }
      assert gone - todo == gone;
      return Ok(list);
    }
  }

  /** The list names exactly the members of the set. */
  ghost predicate Lists(list: seq<string>, members: set<string>) {
    forall u :: u in list <==> u in members
  }

  function Created(t: Table, url: string, endpoint: Endpoint, rangeGroup: string): Table {
    t[url := Row(endpoint, FromUi, true, OPEN, rangeGroup)]
  }

  function GroupUrls(t: Table, rangeGroup: string): set<string> {
    set u | u in t && t[u].rangeGroup == rangeGroup && t[u].source == FromUi
  }

  // ---- what a sync achieves ----------------------------------------------------------

  /** `r` is the last entry of the config file for its URL. */
  ghost predicate LastEntry(routes: seq<ConfigRoute>, i: nat) {
    i < |routes| && forall j :: i < j < |routes| ==> routes[j].url != routes[i].url
  }

  /** The row a config entry turns the old table's row into, or the new row it makes. */
  function ConfigRow(t: Table, r: ConfigRoute): Row {
    if r.url in t
    then t[r.url].(endpoint := r.endpoint, source := FromConfig, enabled := true)
    else Row(r.endpoint, FromConfig, true, OPEN, "")
  }

  lemma {:induction false} UpsertAllKeys(t: Table, routes: seq<ConfigRoute>)
    ensures UpsertAll(t, routes).Keys == t.Keys + Urls(routes)
    ensures forall u :: u in t && u !in Urls(routes) ==> UpsertAll(t, routes)[u] == t[u]
  {
    if routes != [] {
      var init, last := routes[..|routes| - 1], routes[|routes| - 1];
      UpsertAllKeys(t, init);
      assert routes == init + [last];
      assert Urls(routes) == Urls(init) + {last.url};
    }
  }

  lemma {:induction false} UpsertAllLast(t: Table, routes: seq<ConfigRoute>, i: nat)
    requires LastEntry(routes, i)
    ensures routes[i].url in UpsertAll(t, routes) && UpsertAll(t, routes)[routes[i].url] == ConfigRow(t, routes[i])
  {
    var init, last := routes[..|routes| - 1], routes[|routes| - 1];
    if i < |init| {
      UpsertAllLast(t, init, i);
    } else {
      LastBefore(t, init, last.url);
    }
  }

  lemma {:induction false} UpsertAllRows(t: Table, routes: seq<ConfigRoute>)
    ensures UpsertAll(t, routes).Keys == t.Keys + Urls(routes)
    ensures forall u :: u in t && u !in Urls(routes) ==> UpsertAll(t, routes)[u] == t[u]
    ensures forall i: nat :: LastEntry(routes, i) ==> UpsertAll(t, routes)[routes[i].url] == ConfigRow(t, routes[i])
  {
    UpsertAllKeys(t, routes);
    forall i: nat | LastEntry(routes, i)
      ensures UpsertAll(t, routes)[routes[i].url] == ConfigRow(t, routes[i])
    {
      UpsertAllLast(t, routes, i);
    }
  }

  /** Whatever the entries so far say, a row differs from the old one in endpoint, source and enabled only. */
  lemma {:induction false} LastBefore(t: Table, routes: seq<ConfigRoute>, url: string)
    ensures var t' := UpsertAll(t, routes);
            && (url in t ==> url in t' && t'[url].control == t[url].control && t'[url].rangeGroup == t[url].rangeGroup)
            && (url !in t && url in t' ==> t'[url].control == OPEN && t'[url].rangeGroup == "")
  {
    if routes != [] {
      LastBefore(t, routes[..|routes| - 1], url);
    }
  }

  /**
   After a sync the config rows are exactly the URLs of the file, each with the fields of its last entry;
   a row that was there keeps its access control, a new one is open, and UI rows of other URLs are untouched.
   */
  lemma SyncReconciles(t: Table, routes: seq<ConfigRoute>)
    ensures var t' := Synced(t, routes);
            && (forall u :: u in t' && t'[u].source == FromConfig <==> u in Urls(routes))
            && (forall i: nat :: LastEntry(routes, i) ==> t'[routes[i].url].endpoint == routes[i].endpoint && t'[routes[i].url].enabled)
            && (forall u :: u in t && u in t' ==> t'[u].control == t[u].control && t'[u].rangeGroup == t[u].rangeGroup)
            && (forall u :: u in t' && u !in t ==> t'[u].control == Control("", "", false, true, false) && t'[u].rangeGroup == "")
            && (forall u :: u in t && t[u].source == FromUi && u !in Urls(routes) ==> u in t' && t'[u] == t[u])
            && (forall u :: u in t' && u !in Urls(routes) ==> u in t && t'[u] == t[u])
  {
    UpsertAllRows(t, routes);
    var t' := Synced(t, routes);
    forall u | u in Urls(routes)
      ensures u in t' && t'[u].source == FromConfig
    {
      var i := LastOf(routes, u);
    }
    forall u | u in t && u in t'
      ensures t'[u].control == t[u].control && t'[u].rangeGroup == t[u].rangeGroup
    {
      LastBefore(t, routes, u);
    }
    forall u | u in t' && u !in t
      ensures t'[u].control == OPEN && t'[u].rangeGroup == ""
    {
      LastBefore(t, routes, u);
    }
  }

  lemma {:induction false} LastOf(routes: seq<ConfigRoute>, url: string) returns (i: nat)
    requires url in Urls(routes)
    ensures LastEntry(routes, i) && routes[i].url == url
  {
    if routes[|routes| - 1].url == url {
      i := |routes| - 1;
    } else {
      var init := routes[..|routes| - 1];
      assert routes == init + [routes[|routes| - 1]];
      i := LastOf(init, url);
    }
  }

  /** The row of a config URL is what the last entry makes of it, however often it is synced. */
  lemma SameRow(t: Table, routes: seq<ConfigRoute>, u: string)
    requires u in Urls(routes)
    ensures var once := Synced(t, routes);
            var twice := Synced(once, routes);
            u in once && u in twice && once[u] == twice[u]
  {
    var once := Synced(t, routes);
    var i := LastOf(routes, u);
    SyncedRow(t, routes, i);
    SyncedRow(once, routes, i);
    hide Synced;
  }

  lemma SyncedRow(t: Table, routes: seq<ConfigRoute>, i: nat)
    requires LastEntry(routes, i)
    ensures routes[i].url in Synced(t, routes) && Synced(t, routes)[routes[i].url] == ConfigRow(t, routes[i])
  {
    UpsertAllRows(t, routes);
  }

  /** A second sync with the same file changes nothing. */
  lemma SyncIsIdempotent(t: Table, routes: seq<ConfigRoute>)
    ensures Synced(Synced(t, routes), routes) == Synced(t, routes)
  {
    var once := Synced(t, routes);
    var twice := Synced(once, routes);
    SyncReconciles(t, routes);
    SyncReconciles(once, routes);
    UpsertAllRows(t, routes);
    UpsertAllRows(once, routes);
    hide UpsertAll, Synced, Urls;
    forall u | u in once || u in twice
      ensures u in once && u in twice && once[u] == twice[u]
    {
      if u in Urls(routes) {
        SameRow(t, routes, u);
      }
    }
  }
}
