/** The fleet model's shared state and its critical sections
    (crates/zest-app/src/fleet.rs): every function here is what one critical section does
    to the state. Module FleetShared performs them in place. */
module FleetState {
  import opened Wrappers

  /** A machine's 32-byte id. */
  type HostId = nat

  /** One watcher thread, and equally the stop flag it was given. */
  type Watcher = nat

  type LaneId = nat

  type Listing = seq<string>

  datatype Sessions = Fetching | Failed(why: string) | Fresh(list: Listing)

  /** A question sent down lanes; `serial` counts the searches of this run. */
  datatype Question = Question(serial: nat, query: string)

  /** A bounded channel to one writer thread. `log` is everything it ever accepted,
      `queue` what the writer has not taken yet. */
  datatype Lane = Lane(queue: seq<Question>, log: seq<Question>, open: bool)

  /** A parked answer, with the query the host echoed. */
  datatype Answer = Answer(echo: string, matches: seq<string>)

  datatype Search = Search(query: string, asked: set<HostId>, answers: map<HostId, Answer>)

  datatype State = State(
    sessions: map<HostId, Sessions>,
    offers: map<HostId, string>,
    watchers: map<HostId, Watcher>,
    retired: set<Watcher>,
    links: map<HostId, LaneId>,
    lanes: map<LaneId, Lane>,
    search: Option<Search>,
    declined: set<HostId>,
    serial: nat)

  const LANE_DEPTH: nat := 4

  predicate Accepts(lane: Lane) {
    lane.open && |lane.queue| < LANE_DEPTH
  }

  function Push(lane: Lane, q: Question): Lane {
    lane.(queue := lane.queue + [q], log := lane.log + [q])
  }

  /** Every host's lane is a channel of its own. */
  predicate OwnLanes(s: State) {
    && (forall h :: h in s.links ==> s.links[h] in s.lanes)
    && (forall g, h :: g in s.links && h in s.links && s.links[g] == s.links[h] ==> g == h)
  }

  function Without<V>(m: map<HostId, V>, hosts: set<HostId>): map<HostId, V> {
    map h | h in m && h !in hosts :: m[h]
  }

  function ApplyListing(s: State, h: HostId, retired: bool, list: Listing, offer: Option<string>): State {
    if retired then s
    else s.(sessions := s.sessions[h := Fresh(list)],
            offers := if offer.Some? then s.offers[h := offer.value] else s.offers)
  }

  function ReceiveMatches(s: State, h: HostId, retired: bool, query: string, matches: seq<string>): State {
    if retired || s.search.None? || s.search.value.query != query then s
    else s.(search := Some(s.search.value.(answers := s.search.value.answers[h := Answer(query, matches)])))
  }

  function Forget(search: Option<Search>, hosts: set<HostId>): Option<Search> {
    if search.None? then None else Some(search.value.(asked := search.value.asked - hosts))
  }

  function DeclineSearch(s: State, h: HostId, retired: bool): State {
    if retired then s else s.(declined := s.declined + {h}, search := Forget(s.search, {h}))
  }

  /** The hosts a question asked now reaches. */
  function Reached(s: State): set<HostId>
    requires OwnLanes(s)
  {
    set h | h in s.links && h !in s.declined && Accepts(s.lanes[s.links[h]])
  }

  /** The lanes once the hosts `asked` have been sent `q`. */
  function Posted(s: State, asked: set<HostId>, q: Question): map<LaneId, Lane>
    requires asked <= s.links.Keys
  {
    var taking := set h | h in asked :: s.links[h];
    map l | l in s.lanes :: if l in taking then Push(s.lanes[l], q) else s.lanes[l]
  }

  function AskLanes(s: State, query: string): State
    requires OwnLanes(s)
  {
    s.(lanes := Posted(s, Reached(s), Question(s.serial + 1, query)),
       search := Some(Search(query, Reached(s), map[])),
       serial := s.serial + 1)
  }

  /** The supervisor's clear: flags set, listings, offers, lanes and questions gone. */
  function Retire(s: State, hosts: set<HostId>): State {
    s.(retired := s.retired + (set h | h in hosts && h in s.watchers :: s.watchers[h]),
       watchers := Without(s.watchers, hosts),
       sessions := Without(s.sessions, hosts),
       offers := Without(s.offers, hosts),
       links := Without(s.links, hosts),
       search := Forget(s.search, hosts))
  }

  function BeginFetch(s: State, h: HostId, retired: bool): State {
    if retired || h in s.sessions then s else s.(sessions := s.sessions[h := Fetching])
  }

  function NoteFailure(s: State, h: HostId, retired: bool, why: string): State {
    if !retired && h in s.sessions && s.sessions[h].Fetching? then s.(sessions := s.sessions[h := Failed(why)])
    else s
  }

  function RegisterLane(s: State, h: HostId, retired: bool, lane: LaneId): State {
    if retired then s else s.(links := s.links[h := lane])
  }

  /** What a reader does on its way out, retired or not. */
  function LeaveLane(s: State, h: HostId, lane: LaneId): State {
    s.(links := if h in s.links && s.links[h] == lane then Without(s.links, {h}) else s.links,
       search := Forget(s.search, {h}),
       declined := s.declined - {h})
  }

  lemma RetireSingle(s: State, h: HostId)
    ensures var r := Retire(s, {h});
      && r.retired == s.retired + (if h in s.watchers then {s.watchers[h]} else {})
      && r.watchers == s.watchers - {h} && r.sessions == s.sessions - {h}
      && r.offers == s.offers - {h} && r.links == s.links - {h}
  {}

  lemma RetireAppends(s: State, done: set<HostId>, h: HostId)
    ensures Retire(Retire(s, done), {h}) == Retire(s, done + {h})
  {
    var a, b, c := Retire(s, done), Retire(Retire(s, done), {h}), Retire(s, done + {h});
    assert b.watchers == c.watchers && b.sessions == c.sessions;
    assert b.offers == c.offers && b.links == c.links;
    assert b.retired == c.retired by {
      assert forall t :: t in c.retired <==>
        t in a.retired || (h !in done && h in s.watchers && s.watchers[h] == t);
    }
    if s.search.Some? {
      var asked := s.search.value.asked;
      assert asked - (done + {h}) == asked - done - {h};
    }
  }

  lemma PostedMore(s: State, asked: set<HostId>, h: HostId, q: Question)
    requires OwnLanes(s) && asked <= s.links.Keys && h in s.links && h !in asked
    ensures var l := s.links[h];
      && l in Posted(s, asked, q) && Posted(s, asked, q)[l] == s.lanes[l]
      && Posted(s, asked + {h}, q) == Posted(s, asked, q)[l := Push(s.lanes[l], q)]
  {
    var l := s.links[h];
    assert forall g :: g in asked ==> s.links[g] != l;
    assert l in (set g | g in asked + {h} :: s.links[g]);
  }

  lemma RetireNone(s: State)
    ensures Retire(s, {}) == s
  {
    var r := Retire(s, {});
    assert r.watchers == s.watchers && r.sessions == s.sessions && r.offers == s.offers && r.links == s.links;
    if s.search.Some? {
      assert s.search.value.asked - {} == s.search.value.asked;
    }
  }
}
