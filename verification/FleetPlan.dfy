/** Which remote hosts should be watched: the snapshot's rows
    (crates/zest-app/src/fleet.rs, crates/zest-fleet/src/lib.rs) and the plan over them. */
module FleetPlan {
  import opened Wrappers
  import opened FleetState

  datatype Presence = Online | Away | Unreachable | Unseen

  datatype Route = Tcp(address: string) | Relay(host: HostId, origin: string)

  datatype Row = Row(host: HostId, local: bool, presence: Presence, address: Option<string>, enrolled: bool)

  /** A machine discovery has seen. */
  datatype Record = Record(host: HostId, presence: Presence, address: Option<string>)

  datatype Target = Target(host: HostId, route: Route)

  datatype Plan = Plan(start: seq<Target>, stop: set<HostId>)

  ghost predicate DistinctRecords(roster: seq<Record>) {
    forall i, j :: 0 <= i < j < |roster| ==> roster[i].host != roster[j].host
  }

  ghost predicate DistinctRows(rows: seq<Row>) {
    forall i, j :: 0 <= i < j < |rows| ==> rows[i].host != rows[j].host
  }

  // ---- the snapshot ----

  function Discovered(local: Option<HostId>, roster: seq<Record>): seq<Row> {
    if roster == [] then []
    else
      var r := roster[0];
      (if local == Some(r.host) then [] else [Row(r.host, false, r.presence, r.address, false)])
      + Discovered(local, roster[1..])
  }

  /** Where the first row of a host stands, or |rows|. */
  function Find(rows: seq<Row>, h: HostId): (i: nat)
    ensures i <= |rows|
    ensures i < |rows| ==> rows[i].host == h
    ensures forall j :: 0 <= j < i ==> rows[j].host != h
  {
    if rows == [] || rows[0].host == h then 0 else 1 + Find(rows[1..], h)
  }

  function MergeAccount(rows: seq<Row>, account: seq<HostId>): seq<Row>
    decreases |account|
  {
    if account == [] then rows
    else
      var i := Find(rows, account[0]);
      var merged := if i < |rows| then rows[i := rows[i].(enrolled := true)]
                    else rows + [Row(account[0], false, Unseen, None, true)];
      MergeAccount(merged, account[1..])
  }

  function BuildSnapshot(local: Option<HostId>, roster: seq<Record>, account: Option<seq<HostId>>): seq<Row> {
    var own := if local.Some? then [Row(local.value, true, Online, None, false)] else [];
    MergeAccount(own + Discovered(local, roster), if account.Some? then account.value else [])
  }

  ghost predicate LocalIs(rows: seq<Row>, local: Option<HostId>) {
    forall r :: r in rows ==> (r.local <==> local == Some(r.host))
  }

  lemma {:induction false} DiscoveredDistinct(local: Option<HostId>, roster: seq<Record>)
    requires DistinctRecords(roster)
    ensures DistinctRows(Discovered(local, roster))
    ensures forall r :: r in Discovered(local, roster) ==>
      !r.local && local != Some(r.host) && exists i :: 0 <= i < |roster| && roster[i].host == r.host
  {
    if roster != [] {
      DiscoveredDistinct(local, roster[1..]);
      forall r | r in Discovered(local, roster[1..])
        ensures r.host != roster[0].host
        ensures exists i :: 0 <= i < |roster| && roster[i].host == r.host
      {
        var i :| 0 <= i < |roster[1..]| && roster[1..][i].host == r.host;
        assert roster[i + 1].host == r.host;
      }
    }
  }

  lemma {:induction false} MergeDistinct(rows: seq<Row>, account: seq<HostId>, local: Option<HostId>)
    requires DistinctRows(rows) && LocalIs(rows, local)
    requires local.Some? ==> Find(rows, local.value) < |rows|
    ensures DistinctRows(MergeAccount(rows, account)) && LocalIs(MergeAccount(rows, account), local)
    decreases |account|
  {
    if account != [] {
      var i := Find(rows, account[0]);
      var merged := if i < |rows| then rows[i := rows[i].(enrolled := true)]
                    else rows + [Row(account[0], false, Unseen, None, true)];
      if i < |rows| {
        assert forall j :: 0 <= j < |rows| ==> merged[j].host == rows[j].host && merged[j].local == rows[j].local;
      }
      if local.Some? {
        var k := Find(rows, local.value);
        assert merged[k].host == local.value;
      }
      MergeDistinct(merged, account[1..], local);
    }
  }

  /** One row per machine, and the local one is exactly the window's own. */
  lemma SnapshotDistinct(local: Option<HostId>, roster: seq<Record>, account: Option<seq<HostId>>)
    requires DistinctRecords(roster)
    ensures DistinctRows(BuildSnapshot(local, roster, account))
    ensures LocalIs(BuildSnapshot(local, roster, account), local)
  {
    DiscoveredDistinct(local, roster);
    var own := if local.Some? then [Row(local.value, true, Online, None, false)] else [];
    var rows := own + Discovered(local, roster);
    assert forall r :: r in rows <==> r in own || r in Discovered(local, roster);
    MergeDistinct(rows, if account.Some? then account.value else [], local);
  }

  // ---- routes and the plan ----

  /** `best_route` for a caller with no route of its own. */
  function BestRoute(r: Row, relay: Option<string>, signedIn: bool): Option<Route> {
    if r.local then None
    else if r.presence.Online? && r.address.Some? then Some(Tcp(r.address.value))
    else if r.enrolled && signedIn && relay.Some? then Some(Relay(r.host, relay.value))
    else None
  }

  function Routable(rows: seq<Row>, relay: Option<string>, signedIn: bool): set<HostId> {
    set r | r in rows && !r.local && BestRoute(r, relay, signedIn).Some? :: r.host
  }

  function Starts(rows: seq<Row>, watching: set<HostId>, relay: Option<string>, signedIn: bool): seq<Target> {
    if rows == [] then []
    else
      var before := Starts(rows[..|rows| - 1], watching, relay, signedIn);
      var r := rows[|rows| - 1];
      var route := BestRoute(r, relay, signedIn);
      if r.local || route.None? || r.host in watching then before else before + [Target(r.host, route.value)]
  }

  function PlanOf(rows: seq<Row>, watching: set<HostId>, relay: Option<string>, signedIn: bool): Plan {
    Plan(Starts(rows, watching, relay, signedIn), watching - Routable(rows, relay, signedIn))
  }

  function Hosts(targets: seq<Target>): set<HostId> {
    set t | t in targets :: t.host
  }

  ghost predicate DistinctTargets(targets: seq<Target>) {
    forall i, j :: 0 <= i < j < |targets| ==> targets[i].host != targets[j].host
  }

  method WatcherPlan(rows: seq<Row>, watching: set<HostId>, relay: Option<string>, signedIn: bool) returns (plan: Plan)
    ensures plan == PlanOf(rows, watching, relay, signedIn)
  {
    var start: seq<Target> := [];
    var routable: set<HostId> := {};
    for i := 0 to |rows|
      invariant start == Starts(rows[..i], watching, relay, signedIn)
      invariant routable == Routable(rows[..i], relay, signedIn)
    {
      var r := rows[i];
      assert rows[..i + 1][..i] == rows[..i];
      assert forall x :: x in rows[..i + 1] <==> x in rows[..i] || x == r;
      if !r.local {
        var route := BestRoute(r, relay, signedIn);
        if route.Some? {
          routable := routable + {r.host};
          if r.host !in watching {
            start := start + [Target(r.host, route.value)];
          }
        }
      }
    }
    assert rows[..|rows|] == rows;
    plan := Plan(start, watching - routable);
  }

  lemma {:induction false} StartsExact(rows: seq<Row>, watching: set<HostId>, relay: Option<string>, signedIn: bool)
    ensures Hosts(Starts(rows, watching, relay, signedIn)) == Routable(rows, relay, signedIn) - watching
    ensures forall t :: t in Starts(rows, watching, relay, signedIn) ==>
      exists r :: r in rows && r.host == t.host && !r.local && BestRoute(r, relay, signedIn) == Some(t.route)
    ensures DistinctRows(rows) ==> DistinctTargets(Starts(rows, watching, relay, signedIn))
  {
    if rows != [] {
      var front, r := rows[..|rows| - 1], rows[|rows| - 1];
      StartsExact(front, watching, relay, signedIn);
      assert forall x :: x in rows <==> x in front || x == r;
      var before, now := Starts(front, watching, relay, signedIn), Starts(rows, watching, relay, signedIn);
      assert forall t :: t in now <==> t in before || (|now| > |before| && t == now[|before|]);
      var here := if !r.local && BestRoute(r, relay, signedIn).Some? then {r.host} else {};
      assert Routable(rows, relay, signedIn) == Routable(front, relay, signedIn) + here;
      assert Hosts(now) == Hosts(before) + (here - watching) by {
        if |now| > |before| {
          assert now[|before|] in now;
        }
      }
      if DistinctRows(rows) && |now| > |before| {
        forall i | 0 <= i < |before|
          ensures now[i].host != now[|before|].host
        {
          var x :| x in front && x.host == before[i].host && !x.local
                   && BestRoute(x, relay, signedIn) == Some(before[i].route);
        }
      }
    }
  }

  /** Applying a plan to the watching set gives exactly the routable remote hosts, and a host
      is never both started and stopped. */
  lemma PlanReachesRoutable(rows: seq<Row>, watching: set<HostId>, relay: Option<string>, signedIn: bool)
    ensures var plan := PlanOf(rows, watching, relay, signedIn);
      && (watching - plan.stop) + Hosts(plan.start) == Routable(rows, relay, signedIn)
      && plan.stop <= watching && Hosts(plan.start) !! watching
      && (DistinctRows(rows) ==> DistinctTargets(plan.start))
  {
    StartsExact(rows, watching, relay, signedIn);
  }
}
