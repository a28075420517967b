/** The critical sections of crates/zest-app/src/fleet.rs, in place, each proved to be the
    function of module FleetState that specifies it. */
module FleetShared {
  import opened Wrappers
  import opened FleetState

  /** The state behind the mutex, updated in place by whoever holds it. */
  class Shared {
    var sessions: map<HostId, Sessions>
    var offers: map<HostId, string>
    var watchers: map<HostId, Watcher>
    var retired: set<Watcher>
    var links: map<HostId, LaneId>
    var lanes: map<LaneId, Lane>
    var search: Option<Search>
    var declined: set<HostId>
    var serial: nat

    constructor ()
      ensures Model() == State(map[], map[], map[], {}, map[], map[], None, {}, 0)
    {
      sessions, offers, watchers, retired, links, lanes := map[], map[], map[], {}, map[], map[];
      search, declined, serial := None, {}, 0;
    }

    function Model(): State
      reads this
    {
      State(sessions, offers, watchers, retired, links, lanes, search, declined, serial)
    }

    method ApplyListing(h: HostId, stopped: bool, list: Listing, offer: Option<string>) returns (published: bool)
      modifies this
      ensures Model() == FleetState.ApplyListing(old(Model()), h, stopped, list, offer)
      ensures published == !stopped
    {
      if stopped {
        return false;
      }
      sessions := sessions[h := Fresh(list)];
      if offer.Some? {
        offers := offers[h := offer.value];
      }
      return true;
    }

    method ReceiveMatches(h: HostId, stopped: bool, query: string, matches: seq<string>) returns (stored: bool)
      modifies this
      ensures Model() == FleetState.ReceiveMatches(old(Model()), h, stopped, query, matches)
      ensures stored <==> !stopped && old(search).Some? && old(search).value.query == query
    {
      if stopped || search.None? {
        return false;
      }
      var current := search.value;
      if current.query != query {
        return false;
      }
      search := Some(current.(answers := current.answers[h := Answer(query, matches)]));
      return true;
    }

    method DeclineSearch(h: HostId, stopped: bool) returns (settled: bool)
      modifies this
      ensures Model() == FleetState.DeclineSearch(old(Model()), h, stopped)
      ensures settled <==> !stopped && old(search).Some? && h in old(search).value.asked
    {
      if stopped {
        return false;
      }
      declined := declined + {h};
      settled := search.Some? && h in search.value.asked;
      if search.Some? {
        search := Some(search.value.(asked := search.value.asked - {h}));
      }
    }

    /** Send the question down every lane that is not declined and has room. */
    method AskLanes(query: string)
      requires OwnLanes(Model())
      modifies this
      ensures Model() == FleetState.AskLanes(old(Model()), query)
    {
      ghost var was := Model();
      var q := Question(serial + 1, query);
      var asked: set<HostId> := {};
      var rest := links.Keys;
      assert lanes == Posted(was, {}, q);
      while rest != {}
        invariant rest <= links.Keys
        invariant Model() == was.(lanes := lanes)
        invariant asked == Reached(was) - rest
        invariant lanes == Posted(was, asked, q)
        decreases rest
      {
        var h :| h in rest;
        rest := rest - {h};
        PostedMore(was, asked, h, q);
        if h !in declined && Accepts(lanes[links[h]]) {
          lanes := lanes[links[h] := Push(lanes[links[h]], q)];
          asked := asked + {h};
        }
      }
      search := Some(Search(query, asked, map[]));
      serial := serial + 1;
      assert asked == Reached(was);
    }

    /** The supervisor's critical section over the hosts a plan stops. */
    method Retire(hosts: set<HostId>)
      modifies this
      ensures Model() == FleetState.Retire(old(Model()), hosts)
    {
      ghost var was := Model();
      var rest := hosts;
      RetireNone(was);
      assert hosts - rest == {};
      while rest != {}
        invariant rest <= hosts
        invariant Model() == FleetState.Retire(was, hosts - rest)
        decreases rest
      {
        hide FleetState.Retire;
        var h :| h in rest;
        ghost var done := hosts - rest;
        rest := rest - {h};
        assert hosts - rest == done + {h};
        RetireAppends(was, done, h);
        RetireOne(h);
      }
      assert hosts - rest == hosts;
    }

    /** The body of that loop. */
    method RetireOne(h: HostId)
      modifies this
      ensures Model() == FleetState.Retire(old(Model()), {h})
    {
      ghost var was := Model();
      if h in watchers {
        retired := retired + {watchers[h]};
      }
      watchers := watchers - {h};
      sessions := sessions - {h};
      offers := offers - {h};
      links := links - {h};
      if search.Some? {
        search := Some(search.value.(asked := search.value.asked - {h}));
      }
      RetireSingle(was, h);
    }

    method BeginFetch(h: HostId, stopped: bool)
      modifies this
      ensures Model() == FleetState.BeginFetch(old(Model()), h, stopped)
    {
      if !stopped && h !in sessions {
        sessions := sessions[h := Fetching];
      }
    }

    method NoteFailure(h: HostId, stopped: bool, why: string) returns (told: bool)
      modifies this
      ensures Model() == FleetState.NoteFailure(old(Model()), h, stopped, why)
      ensures told <==> !stopped && h in old(sessions) && old(sessions)[h].Fetching?
    {
      told := !stopped && h in sessions && sessions[h].Fetching?;
      if told {
        sessions := sessions[h := Failed(why)];
      }
    }

    method RegisterLane(h: HostId, stopped: bool, lane: LaneId)
      modifies this
      ensures Model() == FleetState.RegisterLane(old(Model()), h, stopped, lane)
    {
      if !stopped {
        links := links[h := lane];
      }
    }

    method LeaveLane(h: HostId, lane: LaneId)
      modifies this
      ensures Model() == FleetState.LeaveLane(old(Model()), h, lane)
    {
      if h in links && links[h] == lane {
        links := links - {h};
      }
      if search.Some? {
        search := Some(search.value.(asked := search.value.asked - {h}));
      }
      declined := declined - {h};
    }
  }
}
