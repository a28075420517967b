/** The fleet watchers as a transition system: one supervisor, any number of generations of
    watcher threads, the window's own watcher, the palette and the lanes' writers, each step
    one critical section (or one read outside the lock) of crates/zest-app/src/fleet.rs. */
module FleetProtocol {
  import opened Wrappers
  import opened FleetState
  import opened FleetPlan

  /** A message as the reader decodes it. */
  datatype Message =
    | Pushed(list: Listing, offer: Option<string>)
    | Matches(query: string, matches: seq<string>)
    | Misunderstood
    | Other

  /** Where a watcher thread stands. */
  datatype Pc =
    | Top
    | Entering
    | Dialing
    | Listed(list: Listing, offer: Option<string>)
    | Splitting
    | Registering(lane: LaneId)
    | Serving(lane: LaneId)
    | Handling(lane: LaneId, msg: Message)
    | Leaving(lane: LaneId, broken: bool)
    | Failing
    | Gone

  datatype Thread = Thread(host: HostId, pc: Pc)

  /** Where the supervisor stands. `goal` is what the plan it is carrying out aims at,
      `lost` the hosts no thread could be spawned for. */
  datatype Supervisor =
    | Waiting
    | Observed(rows: seq<Row>)
    | Retiring(plan: Plan, goal: set<HostId>)
    | Keying(start: seq<Target>, goal: set<HostId>)
    | Starting(rest: seq<Target>, goal: set<HostId>, lost: set<HostId>)
    | Spawning(host: HostId, rest: seq<Target>, goal: set<HostId>, lost: set<HostId>)

  /** `local` is the window's own daemon; its watcher, when there is one, is thread 0 and is
      never retired. */
  datatype System = System(
    state: State,
    local: Option<HostId>,
    threads: map<Watcher, Thread>,
    sup: Supervisor,
    nextWatcher: Watcher,
    nextLane: LaneId)

  datatype Step =
    | Observe(roster: seq<Record>, account: Option<seq<HostId>>)
    | Decide(relay: Option<string>, signedIn: bool)
    | RetireStops
    | NoCredential
    | HasCredential
    | Enrol
    | Spawned
    | SpawnFailed
    | Finish
    | Look(t: Watcher)
    | Begin(t: Watcher)
    | DialFails(t: Watcher)
    | DialLists(t: Watcher, list: Listing, offer: Option<string>)
    | Publish(t: Watcher)
    | Split(t: Watcher)
    | SplitFails(t: Watcher)
    | Register(t: Watcher)
    | Hear(t: Watcher, msg: Message)
    | HangUp(t: Watcher)
    | Handle(t: Watcher)
    | Leave(t: Watcher)
    | ReportFailure(t: Watcher, why: string)
    | Ask(query: string)
    | WriterTakes(lane: LaneId)
    | WriterDies(lane: LaneId)

  function Init(local: Option<HostId>): System {
    System(State(map[], map[], map[], {}, map[], map[], None, {}, 0), local,
           if local.Some? then map[0 := Thread(local.value, Top)] else map[], Waiting, 1, 0)
  }

  predicate Retired(s: System, t: Watcher) {
    t in s.state.retired
  }

  predicate At(s: System, t: Watcher) {
    t in s.threads
  }

  function Move(s: System, t: Watcher, pc: Pc): System
    requires At(s, t)
  {
    s.(threads := s.threads[t := s.threads[t].(pc := pc)])
  }

  ghost predicate Enabled(s: System, st: Step) {
    match st
    case Observe(roster, _) => s.sup.Waiting? && DistinctRecords(roster)
    case Decide(_, _) => s.sup.Observed?
    case RetireStops => s.sup.Retiring?
    case NoCredential => s.sup.Keying?
    case HasCredential => s.sup.Keying?
    case Enrol => s.sup.Starting? && s.sup.rest != []
    case Spawned => s.sup.Spawning?
    case SpawnFailed => s.sup.Spawning?
    case Finish => s.sup.Starting? && s.sup.rest == []
    case Look(t) => At(s, t) && s.threads[t].pc.Top?
    case Begin(t) => At(s, t) && s.threads[t].pc.Entering?
    case DialFails(t) => At(s, t) && s.threads[t].pc.Dialing?
    case DialLists(t, _, _) => At(s, t) && s.threads[t].pc.Dialing?
    case Publish(t) => At(s, t) && s.threads[t].pc.Listed?
    case Split(t) => At(s, t) && s.threads[t].pc.Splitting?
    case SplitFails(t) => At(s, t) && s.threads[t].pc.Splitting?
    case Register(t) => At(s, t) && s.threads[t].pc.Registering?
    case Hear(t, _) => At(s, t) && s.threads[t].pc.Serving?
    case HangUp(t) => At(s, t) && s.threads[t].pc.Serving?
    case Handle(t) => At(s, t) && s.threads[t].pc.Handling?
    case Leave(t) => At(s, t) && s.threads[t].pc.Leaving?
    case ReportFailure(t, _) => At(s, t) && s.threads[t].pc.Failing?
    case Ask(_) => OwnLanes(s.state)
    case WriterTakes(l) => l in s.state.lanes && s.state.lanes[l].queue != []
    case WriterDies(l) => l in s.state.lanes
  }

  function Do(s: System, st: Step): System
    requires Enabled(s, st)
  {
    match st
    case Observe(roster, account) => s.(sup := Observed(BuildSnapshot(s.local, roster, account)))
    case Decide(relay, signedIn) =>
      var plan := PlanOf(s.sup.rows, s.state.watchers.Keys, relay, signedIn);
      if plan.start == [] && plan.stop == {} then s.(sup := Waiting)
      else s.(sup := Retiring(plan, Routable(s.sup.rows, relay, signedIn)))
    case RetireStops =>
      s.(state := Retire(s.state, s.sup.plan.stop),
         sup := if s.sup.plan.start == [] then Starting([], s.sup.goal, {}) else Keying(s.sup.plan.start, s.sup.goal))
    case NoCredential => s.(sup := Waiting)
    case HasCredential => s.(sup := Starting(s.sup.start, s.sup.goal, {}))
    case Enrol =>
      var h := s.sup.rest[0].host;
      s.(state := s.state.(watchers := s.state.watchers[h := s.nextWatcher]),
         sup := Spawning(h, s.sup.rest[1..], s.sup.goal, s.sup.lost))
    case Spawned =>
      s.(threads := s.threads[s.nextWatcher := Thread(s.sup.host, Top)], nextWatcher := s.nextWatcher + 1,
         sup := Starting(s.sup.rest, s.sup.goal, s.sup.lost))
    case SpawnFailed =>
      s.(state := s.state.(watchers := Without(s.state.watchers, {s.sup.host})), nextWatcher := s.nextWatcher + 1,
         sup := Starting(s.sup.rest, s.sup.goal, s.sup.lost + {s.sup.host}))
    case Finish => s.(sup := Waiting)
    case Look(t) => Move(s, t, if Retired(s, t) then Gone else Entering)
    case Begin(t) =>
      // The window's own watcher has no such step: it writes only what it has heard.
      var state := if s.local == Some(s.threads[t].host) then s.state
                   else BeginFetch(s.state, s.threads[t].host, Retired(s, t));
      Move(s, t, Dialing).(state := state)
    case DialFails(t) => Move(s, t, Failing)
    case DialLists(t, list, offer) => Move(s, t, Listed(list, offer))
    case Publish(t) =>
      var pc := s.threads[t].pc;
      Move(s, t, if Retired(s, t) then Top else Splitting)
        .(state := ApplyListing(s.state, s.threads[t].host, Retired(s, t), pc.list, pc.offer))
    case Split(t) =>
      Move(s, t, Registering(s.nextLane))
        .(state := s.state.(lanes := s.state.lanes[s.nextLane := Lane([], [], true)]), nextLane := s.nextLane + 1)
    case SplitFails(t) => Move(s, t, Failing)
    case Register(t) =>
      var lane := s.threads[t].pc.lane;
      Move(s, t, if Retired(s, t) then Top else Serving(lane))
        .(state := RegisterLane(s.state, s.threads[t].host, Retired(s, t), lane))
    case Hear(t, msg) =>
      var lane := s.threads[t].pc.lane;
      Move(s, t, if Retired(s, t) then Leaving(lane, false) else Handling(lane, msg))
    case HangUp(t) => Move(s, t, Leaving(s.threads[t].pc.lane, true))
    case Handle(t) =>
      var pc, h, stopped := s.threads[t].pc, s.threads[t].host, Retired(s, t);
      var next := if pc.msg.Pushed? && stopped then Leaving(pc.lane, false) else Serving(pc.lane);
      var state := match pc.msg
        case Pushed(list, offer) => ApplyListing(s.state, h, stopped, list, offer)
        case Matches(query, matches) => ReceiveMatches(s.state, h, stopped, query, matches)
        case Misunderstood => DeclineSearch(s.state, h, stopped)
        case Other => s.state;
      Move(s, t, next).(state := state)
    case Leave(t) =>
      var pc := s.threads[t].pc;
      Move(s, t, if pc.broken then Failing else Top).(state := LeaveLane(s.state, s.threads[t].host, pc.lane))
    case ReportFailure(t, why) =>
      var state := if s.local == Some(s.threads[t].host) then s.state
                   else NoteFailure(s.state, s.threads[t].host, Retired(s, t), why);
      Move(s, t, Top).(state := state)
    case Ask(query) => s.(state := AskLanes(s.state, query))
    case WriterTakes(l) =>
      s.(state := s.state.(lanes := s.state.lanes[l := s.state.lanes[l].(queue := s.state.lanes[l].queue[1..])]))
    case WriterDies(l) =>
      s.(state := s.state.(lanes := s.state.lanes[l := s.state.lanes[l].(open := false)]))
  }

  ghost predicate Runs(s: System, steps: seq<Step>, end: System)
    decreases |steps|
  {
    if steps == [] then s == end
    else Enabled(s, steps[0]) && Runs(Do(s, steps[0]), steps[1..], end)
  }

  ghost predicate Reachable(s: System) {
    exists local: Option<HostId>, steps: seq<Step> :: Runs(Init(local), steps, s)
  }

  // ---- what every run keeps ----

  predicate Holds(pc: Pc, lane: LaneId) {
    (pc.Serving? || pc.Handling? || pc.Leaving?) && pc.lane == lane
  }

  predicate HasLane(pc: Pc) {
    pc.Registering? || pc.Serving? || pc.Handling? || pc.Leaving?
  }

  predicate SameLane(a: Pc, b: Pc) {
    HasLane(a) && HasLane(b) && a.lane == b.lane
  }

  /** The thread entitled to speak for a host: the window's own, or the one `watchers` holds. */
  predicate Speaks(s: System, t: Watcher, h: HostId) {
    if s.local == Some(h) then t == 0 else h in s.state.watchers && s.state.watchers[h] == t
  }

  /** A host somebody is watching: its speaker is a live thread whose flag is unset. */
  ghost predicate Watched(s: System, h: HostId) {
    exists t :: Speaks(s, t, h) && t in s.threads && s.threads[t].host == h && !Retired(s, t)
  }

  ghost predicate ThreadFlags(s: System, t: Watcher)
    requires t in s.threads
  {
    && t < s.nextWatcher
    && (t == 0 ==> s.local == Some(s.threads[t].host))
    && (!Retired(s, t) ==> Speaks(s, t, s.threads[t].host))
  }

  ghost predicate EntryFlags(s: System, h: HostId)
    requires h in s.state.watchers
  {
    var t := s.state.watchers[h];
    && s.local != Some(h) && !Retired(s, t) && t <= s.nextWatcher && t != 0
    && (t == s.nextWatcher ==> s.sup.Spawning? && s.sup.host == h)
    && (t < s.nextWatcher ==> t in s.threads && s.threads[t].host == h)
  }

  /** A watcher is current exactly while its flag is unset. */
  ghost predicate FlagsInv(s: System) {
    && s.nextWatcher > 0
    && (forall t :: t in s.threads ==> ThreadFlags(s, t))
    && (forall t :: t in s.state.retired ==> 0 < t < s.nextWatcher)
    && (forall h :: h in s.state.watchers ==> EntryFlags(s, h))
    && (s.local.Some? ==> 0 in s.threads)
  }

  /** Nothing is listed or offered for a host nobody is watching. */
  ghost predicate DataInv(s: System) {
    && (forall h :: h in s.state.sessions ==> Watched(s, h))
    && (forall h :: h in s.state.offers ==> Watched(s, h))
  }

  ghost predicate ThreadLane(s: System, t: Watcher)
    requires t in s.threads
  {
    HasLane(s.threads[t].pc) ==> s.threads[t].pc.lane in s.state.lanes
  }

  /** A link is the lane of the live connection of the host's current watcher. */
  ghost predicate LinkLive(s: System, h: HostId)
    requires h in s.state.links
  {
    && s.state.links[h] in s.state.lanes
    && exists t :: Speaks(s, t, h) && t in s.threads && s.threads[t].host == h && !Retired(s, t)
         && Holds(s.threads[t].pc, s.state.links[h])
  }

  ghost predicate LanesInv(s: System) {
    && (forall t :: t in s.threads ==> ThreadLane(s, t))
    && (forall l :: l in s.state.lanes ==> l < s.nextLane)
    && (forall t, u :: t in s.threads && u in s.threads && SameLane(s.threads[t].pc, s.threads[u].pc) ==> t == u)
    && (forall h :: h in s.state.links ==> LinkLive(s, h))
  }

  /** An outstanding question: the host's current lane was the one that accepted it, and has
      accepted nothing since. */
  ghost predicate Outstanding(s: State, search: Search, h: HostId) {
    && h in s.links && s.links[h] in s.lanes
    && var log := s.lanes[s.links[h]].log;
       log != [] && log[|log| - 1] == Question(s.serial, search.query)
  }

  ghost predicate SearchInv(s: State) {
    s.search.Some? ==>
      var search := s.search.value;
      && (forall h :: h in search.asked ==> Outstanding(s, search, h) && h !in s.declined)
      && (forall h :: h in search.answers ==> search.answers[h].echo == search.query)
  }

  /** What is still to do of a plan: start `rest`, having failed to start `lost`. */
  ghost predicate Progress(s: System, rest: seq<Target>, goal: set<HostId>, lost: set<HostId>) {
    && s.state.watchers.Keys + Hosts(rest) + lost == goal
    && Hosts(rest) !! s.state.watchers.Keys && DistinctTargets(rest)
    && lost !! s.state.watchers.Keys && lost !! Hosts(rest)
    && (s.local.Some? ==> s.local.value !in goal)
  }

  /** The supervisor is on its way from the watching set it saw to the routable hosts. */
  ghost predicate SupervisorInv(s: System) {
    match s.sup
    case Waiting => true
    case Observed(rows) => DistinctRows(rows) && LocalIs(rows, s.local)
    case Retiring(plan, goal) =>
      && (s.state.watchers.Keys - plan.stop) + Hosts(plan.start) == goal
      && Hosts(plan.start) !! s.state.watchers.Keys && DistinctTargets(plan.start)
      && (s.local.Some? ==> s.local.value !in goal)
    case Keying(start, goal) => Progress(s, start, goal, {})
    case Starting(rest, goal, lost) => Progress(s, rest, goal, lost)
    case Spawning(h, rest, goal, lost) =>
      && Progress(s, rest, goal, lost) && h in s.state.watchers && s.state.watchers[h] == s.nextWatcher
  }

  ghost predicate Inv(s: System) {
    FlagsInv(s) && DataInv(s) && LanesInv(s) && SearchInv(s.state) && SupervisorInv(s)
  }

  lemma LinksAreOwn(s: System)
    requires LanesInv(s)
    ensures OwnLanes(s.state)
  {
    forall g, h | g in s.state.links && h in s.state.links && s.state.links[g] == s.state.links[h]
      ensures g == h
    {
      assert LinkLive(s, g) && LinkLive(s, h);
      var t :| Speaks(s, t, g) && t in s.threads && s.threads[t].host == g && Holds(s.threads[t].pc, s.state.links[g]);
      var u :| Speaks(s, u, h) && u in s.threads && s.threads[u].host == h && Holds(s.threads[u].pc, s.state.links[h]);
      assert SameLane(s.threads[t].pc, s.threads[u].pc);
    }
  }

  lemma InitInv(local: Option<HostId>)
    ensures Inv(Init(local))
  {}

  // ---- steps of one thread ----

  /** Everything the flags talk about is untouched. */
  ghost predicate SameCrew(s: System, u: System) {
    && u.threads.Keys == s.threads.Keys
    && (forall t :: t in s.threads ==> u.threads[t].host == s.threads[t].host)
    && u.state.watchers == s.state.watchers && u.state.retired == s.state.retired
    && u.sup == s.sup && u.local == s.local && u.nextWatcher == s.nextWatcher
  }

  lemma CrewKeepsFlags(s: System, u: System)
    requires SameCrew(s, u) && FlagsInv(s) && SupervisorInv(s)
    ensures FlagsInv(u) && SupervisorInv(u)
    ensures forall h :: Watched(s, h) ==> Watched(u, h)
  {
    forall t | t in u.threads
      ensures ThreadFlags(u, t)
    {
      assert ThreadFlags(s, t);
    }
    forall h | h in u.state.watchers
      ensures EntryFlags(u, h)
    {
      assert EntryFlags(s, h);
    }
    forall h | Watched(s, h)
      ensures Watched(u, h)
    {
      var t :| Speaks(s, t, h) && t in s.threads && s.threads[t].host == h && !Retired(s, t);
      assert Speaks(u, t, h);
    }
  }

  /** A thread whose flag is unset watches its host. */
  lemma CurrentWatches(s: System, t: Watcher)
    requires FlagsInv(s) && t in s.threads && !Retired(s, t)
    ensures Watched(s, s.threads[t].host)
  {
    assert ThreadFlags(s, t);
  }

  /** A thread moves without touching lanes or links, keeping the lane it holds. */
  lemma MoveKeepsLanes(s: System, t: Watcher, u: System)
    requires At(s, t) && LanesInv(s) && SameCrew(s, u)
    requires forall x :: x in s.threads && x != t ==> u.threads[x] == s.threads[x]
    requires u.state.links == s.state.links && u.state.lanes == s.state.lanes && u.nextLane == s.nextLane
    requires HasLane(u.threads[t].pc) ==> SameLane(s.threads[t].pc, u.threads[t].pc)
    requires forall l :: Holds(s.threads[t].pc, l) ==> Holds(u.threads[t].pc, l)
    ensures LanesInv(u)
  {
    forall x | x in u.threads
      ensures ThreadLane(u, x)
    {
      assert ThreadLane(s, x) && ThreadLane(s, t);
    }
    forall x, y | x in u.threads && y in u.threads && SameLane(u.threads[x].pc, u.threads[y].pc)
      ensures x == y
    {
      assert SameLane(s.threads[x].pc, s.threads[y].pc);
    }
    forall h | h in u.state.links
      ensures LinkLive(u, h)
    {
      assert LinkLive(s, h);
      var x :| Speaks(s, x, h) && x in s.threads && s.threads[x].host == h && !Retired(s, x)
               && Holds(s.threads[x].pc, s.state.links[h]);
      assert Speaks(u, x, h) && Holds(u.threads[x].pc, u.state.links[h]);
    }
  }

  /** A thread step that leaves links and lanes alone and lists nothing for anybody else. */
  lemma QuietStep(s: System, t: Watcher, pc: Pc, state: State)
    requires Inv(s) && At(s, t)
    requires state.watchers == s.state.watchers && state.retired == s.state.retired
    requires state.links == s.state.links && state.lanes == s.state.lanes
    requires HasLane(pc) ==> SameLane(s.threads[t].pc, pc)
    requires forall l :: Holds(s.threads[t].pc, l) ==> Holds(pc, l)
    requires state.sessions.Keys <= s.state.sessions.Keys + (if Retired(s, t) then {} else {s.threads[t].host})
    requires state.offers.Keys <= s.state.offers.Keys + (if Retired(s, t) then {} else {s.threads[t].host})
    requires SearchInv(state)
    ensures Inv(Move(s, t, pc).(state := state))
  {
    var u := Move(s, t, pc).(state := state);
    CrewKeepsFlags(s, u);
    MoveKeepsLanes(s, t, u);
    if !Retired(s, t) {
      CurrentWatches(s, t);
    }
  }

  lemma KeepsPublish(s: System, t: Watcher)
    requires Inv(s) && At(s, t) && s.threads[t].pc.Listed?
    ensures Inv(Do(s, Publish(t)))
  {
    var pc := s.threads[t].pc;
    QuietStep(s, t, if Retired(s, t) then Top else Splitting,
              ApplyListing(s.state, s.threads[t].host, Retired(s, t), pc.list, pc.offer));
  }

  lemma KeepsBegin(s: System, t: Watcher)
    requires Inv(s) && At(s, t) && s.threads[t].pc.Entering?
    ensures Inv(Do(s, Begin(t)))
  {
    QuietStep(s, t, Dialing, if s.local == Some(s.threads[t].host) then s.state
                             else BeginFetch(s.state, s.threads[t].host, Retired(s, t)));
  }

  lemma KeepsReport(s: System, t: Watcher, why: string)
    requires Inv(s) && At(s, t) && s.threads[t].pc.Failing?
    ensures Inv(Do(s, ReportFailure(t, why)))
  {
    QuietStep(s, t, Top, if s.local == Some(s.threads[t].host) then s.state
                         else NoteFailure(s.state, s.threads[t].host, Retired(s, t), why));
  }

  lemma SearchSurvives(s: State, u: State)
    requires SearchInv(s)
    requires u.links == s.links && u.lanes == s.lanes && u.serial == s.serial && u.search == s.search
    requires u.declined == s.declined
    ensures SearchInv(u)
  {
    if s.search.Some? {
      forall h | h in u.search.value.asked
        ensures Outstanding(u, u.search.value, h)
      {
        assert Outstanding(s, s.search.value, h);
      }
    }
  }

  lemma ReceiveKeepsSearch(s: State, h: HostId, retired: bool, query: string, matches: seq<string>)
    requires SearchInv(s)
    ensures SearchInv(ReceiveMatches(s, h, retired, query, matches))
  {
    var u := ReceiveMatches(s, h, retired, query, matches);
    if u != s {
      forall g | g in u.search.value.asked
        ensures Outstanding(u, u.search.value, g)
      {
        assert Outstanding(s, s.search.value, g);
      }
    }
  }

  lemma DeclineKeepsSearch(s: State, h: HostId, retired: bool)
    requires SearchInv(s)
    ensures SearchInv(DeclineSearch(s, h, retired))
  {
    var u := DeclineSearch(s, h, retired);
    if u.search.Some? {
      forall g | g in u.search.value.asked
        ensures Outstanding(u, u.search.value, g)
      {
        assert Outstanding(s, s.search.value, g);
      }
    }
  }

  lemma KeepsHandle(s: System, t: Watcher)
    requires Inv(s) && At(s, t) && s.threads[t].pc.Handling?
    ensures Inv(Do(s, Handle(t)))
  {
    hide FlagsInv, DataInv, LanesInv, SearchInv, SupervisorInv;
    var pc, h, stopped := s.threads[t].pc, s.threads[t].host, Retired(s, t);
    var next := if pc.msg.Pushed? && stopped then Leaving(pc.lane, false) else Serving(pc.lane);
    match pc.msg
    case Pushed(list, offer) =>
      SearchSurvives(s.state, ApplyListing(s.state, h, stopped, list, offer));
      QuietStep(s, t, next, ApplyListing(s.state, h, stopped, list, offer));
    case Matches(query, matches) =>
      ReceiveKeepsSearch(s.state, h, stopped, query, matches);
      QuietStep(s, t, next, ReceiveMatches(s.state, h, stopped, query, matches));
    case Misunderstood =>
      DeclineKeepsSearch(s.state, h, stopped);
      QuietStep(s, t, next, DeclineSearch(s.state, h, stopped));
    case Other =>
      QuietStep(s, t, next, s.state);
  }

  /** Steps outside the lock. */
  lemma KeepsLocal(s: System, t: Watcher, pc: Pc)
    requires Inv(s) && At(s, t)
    requires HasLane(pc) ==> SameLane(s.threads[t].pc, pc)
    requires forall l :: Holds(s.threads[t].pc, l) ==> Holds(pc, l)
    ensures Inv(Move(s, t, pc))
  {
    QuietStep(s, t, pc, s.state);
    assert Move(s, t, pc).(state := s.state) == Move(s, t, pc);
  }

  lemma KeepsSplit(s: System, t: Watcher)
    requires Inv(s) && At(s, t) && s.threads[t].pc.Splitting?
    ensures Inv(Do(s, Split(t)))
  {
    var u := Do(s, Split(t));
    CrewKeepsFlags(s, u);
    forall x | x in u.threads
      ensures ThreadLane(u, x)
    {
      assert ThreadLane(s, x);
    }
    forall x, y | x in u.threads && y in u.threads && SameLane(u.threads[x].pc, u.threads[y].pc)
      ensures x == y
    {
      assert ThreadLane(s, x) && ThreadLane(s, y);
      assert x != t && y != t ==> SameLane(s.threads[x].pc, s.threads[y].pc);
    }
    forall h | h in u.state.links
      ensures LinkLive(u, h)
    {
      assert LinkLive(s, h);
      var x :| Speaks(s, x, h) && x in s.threads && s.threads[x].host == h && !Retired(s, x)
               && Holds(s.threads[x].pc, s.state.links[h]);
      assert Speaks(u, x, h) && Holds(u.threads[x].pc, u.state.links[h]);
    }
    if s.state.search.Some? {
      forall h | h in s.state.search.value.asked
        ensures Outstanding(u.state, u.state.search.value, h)
      {
        assert Outstanding(s.state, s.state.search.value, h);
      }
    }
  }

  /** When a current watcher registers, its host has no link: the last lane was removed by its
      own exit, or by the supervisor. */
  lemma NoLinkYet(s: System, t: Watcher)
    requires Inv(s) && At(s, t) && !Retired(s, t) && (forall l :: !Holds(s.threads[t].pc, l))
    ensures s.threads[t].host !in s.state.links
  {
    var h := s.threads[t].host;
    assert ThreadFlags(s, t);
    assert h in s.state.links ==> LinkLive(s, h);
  }

  lemma KeepsRegister(s: System, t: Watcher)
    requires Inv(s) && At(s, t) && s.threads[t].pc.Registering?
    ensures Inv(Do(s, Register(t)))
  {
    if Retired(s, t) {
      KeepsLocal(s, t, Top);
      assert Do(s, Register(t)) == Move(s, t, Top);
    } else {
      var u := Do(s, Register(t));
      CrewKeepsFlags(s, u);
      NoLinkYet(s, t);
      RegisterKeepsLanes(s, t);
      if s.state.search.Some? {
        forall h | h in s.state.search.value.asked
          ensures Outstanding(u.state, u.state.search.value, h)
        {
          assert Outstanding(s.state, s.state.search.value, h);
        }
      }
    }
  }

  lemma RegisterKeepsLanes(s: System, t: Watcher)
    requires Inv(s) && At(s, t) && s.threads[t].pc.Registering? && !Retired(s, t)
    ensures LanesInv(Do(s, Register(t)))
  {
    var u, g := Do(s, Register(t)), s.threads[t].host;
    assert ThreadFlags(s, t) && ThreadLane(s, t);
    forall x | x in u.threads
      ensures ThreadLane(u, x)
    {
      assert ThreadLane(s, x);
    }
    forall x, y | x in u.threads && y in u.threads && SameLane(u.threads[x].pc, u.threads[y].pc)
      ensures x == y
    {
      assert SameLane(s.threads[x].pc, s.threads[y].pc);
    }
    forall h | h in u.state.links
      ensures LinkLive(u, h)
    {
      if h == g {
        assert Speaks(u, t, h) && Holds(u.threads[t].pc, u.state.links[h]);
      } else {
        assert LinkLive(s, h);
        var x :| Speaks(s, x, h) && x in s.threads && s.threads[x].host == h && !Retired(s, x)
                 && Holds(s.threads[x].pc, s.state.links[h]);
        assert Speaks(u, x, h) && Holds(u.threads[x].pc, u.state.links[h]);
      }
    }
  }

  lemma KeepsLeave(s: System, t: Watcher)
    requires Inv(s) && At(s, t) && s.threads[t].pc.Leaving?
    ensures Inv(Do(s, Leave(t)))
  {
    var u, g, lane := Do(s, Leave(t)), s.threads[t].host, s.threads[t].pc.lane;
    CrewKeepsFlags(s, u);
    forall x | x in u.threads
      ensures ThreadLane(u, x)
    {
      assert ThreadLane(s, x);
    }
    forall x, y | x in u.threads && y in u.threads && SameLane(u.threads[x].pc, u.threads[y].pc)
      ensures x == y
    {
      assert SameLane(s.threads[x].pc, s.threads[y].pc);
    }
    forall h | h in u.state.links
      ensures LinkLive(u, h)
    {
      assert LinkLive(s, h);
      var x :| Speaks(s, x, h) && x in s.threads && s.threads[x].host == h && !Retired(s, x)
               && Holds(s.threads[x].pc, s.state.links[h]);
      assert Speaks(u, x, h) && Holds(u.threads[x].pc, u.state.links[h]);
    }
    if s.state.search.Some? {
      forall h | h in u.state.search.value.asked
        ensures Outstanding(u.state, u.state.search.value, h)
      {
        assert Outstanding(s.state, s.state.search.value, h);
      }
    }
  }

  // ---- steps of the palette and the writers ----

  /** Lanes change their contents only. */
  lemma KeepsLaneContents(s: System, state: State)
    requires Inv(s)
    requires state == s.state.(lanes := state.lanes, search := state.search, serial := state.serial)
    requires state.lanes.Keys == s.state.lanes.Keys
    requires SearchInv(state)
    ensures Inv(s.(state := state))
  {
    var u := s.(state := state);
    CrewKeepsFlags(s, u);
    forall x | x in u.threads
      ensures ThreadLane(u, x)
    {
      assert ThreadLane(s, x);
    }
    forall h | h in u.state.links
      ensures LinkLive(u, h)
    {
      assert LinkLive(s, h);
      var x :| Speaks(s, x, h) && x in s.threads && s.threads[x].host == h && !Retired(s, x)
               && Holds(s.threads[x].pc, s.state.links[h]);
      assert Speaks(u, x, h) && Holds(u.threads[x].pc, u.state.links[h]);
    }
  }

  lemma KeepsAsk(s: System, query: string)
    requires Inv(s) && OwnLanes(s.state)
    ensures Inv(Do(s, Ask(query)))
  {
    var u := AskLanes(s.state, query);
    var taking := set h | h in Reached(s.state) :: s.state.links[h];
    forall h | h in u.search.value.asked
      ensures Outstanding(u, u.search.value, h) && h !in u.declined
    {
      assert s.state.links[h] in taking;
    }
    KeepsLaneContents(s, u);
  }

  lemma KeepsWriter(s: System, l: LaneId, lane: Lane)
    requires Inv(s) && l in s.state.lanes && lane.log == s.state.lanes[l].log
    ensures Inv(s.(state := s.state.(lanes := s.state.lanes[l := lane])))
  {
    var u := s.state.(lanes := s.state.lanes[l := lane]);
    if u.search.Some? {
      forall h | h in u.search.value.asked
        ensures Outstanding(u, u.search.value, h)
      {
        assert Outstanding(s.state, s.state.search.value, h);
      }
    }
    KeepsLaneContents(s, u);
  }

  // ---- steps of the supervisor ----

  lemma KeepsObserve(s: System, roster: seq<Record>, account: Option<seq<HostId>>)
    requires Inv(s) && s.sup.Waiting? && DistinctRecords(roster)
    ensures Inv(Do(s, Observe(roster, account)))
  {
    SnapshotDistinct(s.local, roster, account);
    KeepsSup(s, Observed(BuildSnapshot(s.local, roster, account)));
  }

  /** The supervisor moves on without touching the state. */
  lemma KeepsSup(s: System, sup: Supervisor)
    requires Inv(s) && !s.sup.Spawning? && SupervisorInv(s.(sup := sup))
    ensures Inv(s.(sup := sup))
  {
    var u := s.(sup := sup);
    forall t | t in u.threads
      ensures ThreadFlags(u, t)
    {
      assert ThreadFlags(s, t);
    }
    forall h | h in u.state.watchers
      ensures EntryFlags(u, h)
    {
      assert EntryFlags(s, h);
    }
    SameStateKeeps(s, u);
  }

  /** Threads and state unchanged: what they say of each other is too. */
  lemma SameStateKeeps(s: System, u: System)
    requires u.state == s.state && u.threads == s.threads && u.local == s.local && u.nextLane == s.nextLane
    requires DataInv(s) && LanesInv(s)
    ensures DataInv(u) && LanesInv(u)
  {
    forall h | Watched(s, h)
      ensures Watched(u, h)
    {
      var t :| Speaks(s, t, h) && t in s.threads && s.threads[t].host == h && !Retired(s, t);
      assert Speaks(u, t, h);
    }
    forall t | t in u.threads
      ensures ThreadLane(u, t)
    {
      assert ThreadLane(s, t);
    }
    forall h | h in u.state.links
      ensures LinkLive(u, h)
    {
      assert LinkLive(s, h);
      var x :| Speaks(s, x, h) && x in s.threads && s.threads[x].host == h && !Retired(s, x)
               && Holds(s.threads[x].pc, s.state.links[h]);
      assert Speaks(u, x, h);
    }
  }

  lemma RemoteGoal(rows: seq<Row>, local: Option<HostId>, relay: Option<string>, signedIn: bool)
    requires LocalIs(rows, local) && local.Some?
    ensures local.value !in Routable(rows, relay, signedIn)
  {}

  lemma KeepsDecide(s: System, relay: Option<string>, signedIn: bool)
    requires Inv(s) && s.sup.Observed?
    ensures Inv(Do(s, Decide(relay, signedIn)))
  {
    hide FlagsInv, DataInv, LanesInv, SearchInv;
    PlanReachesRoutable(s.sup.rows, s.state.watchers.Keys, relay, signedIn);
    if s.local.Some? {
      RemoteGoal(s.sup.rows, s.local, relay, signedIn);
    }
    KeepsSup(s, Do(s, Decide(relay, signedIn)).sup);
  }

  lemma KeepsRetire(s: System)
    requires Inv(s) && s.sup.Retiring?
    ensures Inv(Do(s, RetireStops))
  {
    var u, stop := Do(s, RetireStops), s.sup.plan.stop;
    RetireKeepsCrew(s, u, stop);
    RetireKeepsSearch(s.state, stop);
  }

  /** Hosts outside the stopped ones keep their speaker; the others lose it and everything
      that was said of them. */
  lemma RetireKeepsCrew(s: System, u: System, stop: set<HostId>)
    requires FlagsInv(s) && DataInv(s) && LanesInv(s) && s.sup.Retiring?
    requires u == s.(state := Retire(s.state, stop), sup := u.sup) && !u.sup.Spawning?
    ensures FlagsInv(u) && DataInv(u) && LanesInv(u)
  {
    forall t | t in u.threads
      ensures ThreadFlags(u, t) && ThreadLane(u, t)
    {
      assert ThreadFlags(s, t) && ThreadLane(s, t);
    }
    forall g, h | g in s.state.watchers && h in s.state.watchers && s.state.watchers[g] == s.state.watchers[h]
      ensures g == h
    {
      assert EntryFlags(s, g) && EntryFlags(s, h);
    }
    forall t | t in u.state.retired
      ensures 0 < t < u.nextWatcher
    {
      if t !in s.state.retired {
        var h :| h in stop && h in s.state.watchers && s.state.watchers[h] == t;
        assert EntryFlags(s, h);
      }
    }
    forall h | h in u.state.watchers
      ensures EntryFlags(u, h)
    {
      assert EntryFlags(s, h);
    }
    forall h | h !in stop && Watched(s, h)
      ensures Watched(u, h)
    {
      var t :| Speaks(s, t, h) && t in s.threads && s.threads[t].host == h && !Retired(s, t);
      SpeakerStays(s, u, stop, t, h);
    }
    forall h | h in u.state.links
      ensures LinkLive(u, h)
    {
      assert LinkLive(s, h);
      var x :| Speaks(s, x, h) && x in s.threads && s.threads[x].host == h && !Retired(s, x)
               && Holds(s.threads[x].pc, s.state.links[h]);
      SpeakerStays(s, u, stop, x, h);
      assert Holds(u.threads[x].pc, u.state.links[h]);
    }
  }

  lemma SpeakerStays(s: System, u: System, stop: set<HostId>, t: Watcher, h: HostId)
    requires FlagsInv(s) && u.state == Retire(s.state, stop) && u.local == s.local
    requires h !in stop && Speaks(s, t, h) && t in s.threads && !Retired(s, t)
    ensures Speaks(u, t, h) && !Retired(u, t)
  {
    assert forall g :: g in s.state.watchers ==> EntryFlags(s, g);
  }

  lemma RetireKeepsSearch(s: State, stop: set<HostId>)
    requires SearchInv(s)
    ensures SearchInv(Retire(s, stop))
  {
    var u := Retire(s, stop);
    if u.search.Some? {
      forall h | h in u.search.value.asked
        ensures Outstanding(u, u.search.value, h)
      {
        assert Outstanding(s, s.search.value, h);
      }
    }
  }

  lemma KeepsEnrol(s: System)
    requires Inv(s) && s.sup.Starting? && s.sup.rest != []
    ensures Inv(Do(s, Enrol))
  {
    var u, h := Do(s, Enrol), s.sup.rest[0].host;
    assert s.sup.rest[0] in s.sup.rest;
    HostsOfTail(s.sup.rest);
    assert h in s.sup.goal && h !in s.state.watchers;
    forall t | t in u.threads
      ensures ThreadFlags(u, t) && ThreadLane(u, t)
    {
      assert ThreadFlags(s, t) && ThreadLane(s, t);
    }
    forall g | g in u.state.watchers
      ensures EntryFlags(u, g)
    {
      if g != h {
        assert EntryFlags(s, g);
      }
    }
    WatchersGrow(s, u);
  }

  lemma HostsOfTail(ts: seq<Target>)
    requires ts != []
    ensures Hosts(ts) == Hosts(ts[1..]) + {ts[0].host}
    ensures DistinctTargets(ts) ==> ts[0].host !in Hosts(ts[1..]) && DistinctTargets(ts[1..])
  {
    assert forall t :: t in ts <==> t in ts[1..] || t == ts[0];
  }

  /** A host gains a watcher and nobody loses theirs. */
  lemma WatchersGrow(s: System, u: System)
    requires DataInv(s) && LanesInv(s)
    requires u.local == s.local && u.threads == s.threads && u.nextLane == s.nextLane
    requires u.state == s.state.(watchers := u.state.watchers)
    requires forall h :: h in s.state.watchers ==> h in u.state.watchers && u.state.watchers[h] == s.state.watchers[h]
    ensures DataInv(u)
    ensures forall h :: h in u.state.links ==> LinkLive(u, h)
  {
    forall h | Watched(s, h)
      ensures Watched(u, h)
    {
      var t :| Speaks(s, t, h) && t in s.threads && s.threads[t].host == h && !Retired(s, t);
      assert Speaks(u, t, h);
    }
    forall h | h in u.state.links
      ensures LinkLive(u, h)
    {
      assert LinkLive(s, h);
      var x :| Speaks(s, x, h) && x in s.threads && s.threads[x].host == h && !Retired(s, x)
               && Holds(s.threads[x].pc, s.state.links[h]);
      assert Speaks(u, x, h);
    }
  }

  lemma KeepsSpawned(s: System)
    requires Inv(s) && s.sup.Spawning?
    ensures Inv(Do(s, Spawned))
  {
    var u, h := Do(s, Spawned), s.sup.host;
    assert EntryFlags(s, h);
    assert s.nextWatcher !in s.threads by {
      assert s.nextWatcher in s.threads ==> ThreadFlags(s, s.nextWatcher);
    }
    forall t | t in u.threads
      ensures ThreadFlags(u, t) && ThreadLane(u, t)
    {
      if t in s.threads {
        assert ThreadFlags(s, t) && ThreadLane(s, t);
      }
    }
    forall g | g in u.state.watchers
      ensures EntryFlags(u, g)
    {
      assert EntryFlags(s, g);
    }
    forall g | Watched(s, g)
      ensures Watched(u, g)
    {
      var t :| Speaks(s, t, g) && t in s.threads && s.threads[t].host == g && !Retired(s, t);
      assert Speaks(u, t, g);
    }
    forall g | g in u.state.links
      ensures LinkLive(u, g)
    {
      assert LinkLive(s, g);
      var x :| Speaks(s, x, g) && x in s.threads && s.threads[x].host == g && !Retired(s, x)
               && Holds(s.threads[x].pc, s.state.links[g]);
      assert Speaks(u, x, g) && Holds(u.threads[x].pc, u.state.links[g]);
    }
  }

  lemma KeepsSpawnFailed(s: System)
    requires Inv(s) && s.sup.Spawning?
    ensures Inv(Do(s, SpawnFailed))
  {
    var u, h := Do(s, SpawnFailed), s.sup.host;
    assert EntryFlags(s, h);
    assert s.nextWatcher !in s.threads by {
      assert s.nextWatcher in s.threads ==> ThreadFlags(s, s.nextWatcher);
    }
    assert !Watched(s, h);
    forall t | t in u.threads
      ensures ThreadFlags(u, t) && ThreadLane(u, t)
    {
      assert ThreadFlags(s, t) && ThreadLane(s, t);
    }
    forall g | g in u.state.watchers
      ensures EntryFlags(u, g)
    {
      assert EntryFlags(s, g);
    }
    forall g | Watched(s, g)
      ensures Watched(u, g)
    {
      var t :| Speaks(s, t, g) && t in s.threads && s.threads[t].host == g && !Retired(s, t);
      assert Speaks(u, t, g);
    }
    forall g | g in u.state.links
      ensures LinkLive(u, g)
    {
      assert LinkLive(s, g);
      var x :| Speaks(s, x, g) && x in s.threads && s.threads[x].host == g && !Retired(s, x)
               && Holds(s.threads[x].pc, s.state.links[g]);
      assert Speaks(u, x, g) && Holds(u.threads[x].pc, u.state.links[g]);
    }
    assert u.state.watchers.Keys == s.state.watchers.Keys - {h};
  }

  // ---- every run ----

  lemma StepKeepsInv(s: System, st: Step)
    requires Inv(s) && Enabled(s, st)
    ensures Inv(Do(s, st))
  {
    hide FlagsInv, DataInv, LanesInv, SearchInv, SupervisorInv;
    match st
    case Observe(roster, account) => KeepsObserve(s, roster, account);
    case Decide(relay, signedIn) => KeepsDecide(s, relay, signedIn);
    case RetireStops => KeepsRetire(s);
    case NoCredential => KeepsSupervising(s, st);
    case HasCredential => KeepsSupervising(s, st);
    case Enrol => KeepsEnrol(s);
    case Spawned => KeepsSpawned(s);
    case SpawnFailed => KeepsSpawnFailed(s);
    case Finish => KeepsSupervising(s, st);
    case Look(t) => KeepsLocal(s, t, if Retired(s, t) then Gone else Entering);
    case Begin(t) => KeepsBegin(s, t);
    case DialFails(t) => KeepsLocal(s, t, Failing);
    case DialLists(t, list, offer) => KeepsLocal(s, t, Listed(list, offer));
    case Publish(t) => KeepsPublish(s, t);
    case Split(t) => KeepsSplit(s, t);
    case SplitFails(t) => KeepsLocal(s, t, Failing);
    case Register(t) => KeepsRegister(s, t);
    case Hear(t, msg) =>
      var lane := s.threads[t].pc.lane;
      KeepsLocal(s, t, if Retired(s, t) then Leaving(lane, false) else Handling(lane, msg));
    case HangUp(t) => KeepsLocal(s, t, Leaving(s.threads[t].pc.lane, true));
    case Handle(t) => KeepsHandle(s, t);
    case Leave(t) => KeepsLeave(s, t);
    case ReportFailure(t, why) => KeepsReport(s, t, why);
    case Ask(query) => KeepsAsk(s, query);
    case WriterTakes(l) => KeepsWriter(s, l, s.state.lanes[l].(queue := s.state.lanes[l].queue[1..]));
    case WriterDies(l) => KeepsWriter(s, l, s.state.lanes[l].(open := false));
  }

  lemma KeepsSupervising(s: System, st: Step)
    requires Inv(s) && Enabled(s, st)
    requires st.NoCredential? || st.HasCredential? || st.Finish?
    ensures Inv(Do(s, st))
  {
    KeepsSup(s, Do(s, st).sup);
  }

  lemma {:induction false} RunKeepsInv(s: System, steps: seq<Step>, end: System)
    requires Inv(s) && Runs(s, steps, end)
    ensures Inv(end)
    decreases |steps|
  {
    hide Inv, Do;
    if steps != [] {
      StepKeepsInv(s, steps[0]);
      RunKeepsInv(Do(s, steps[0]), steps[1..], end);
    }
  }

  lemma ReachableInv(s: System)
    requires Reachable(s)
    ensures Inv(s)
  {
    hide Inv, Runs;
    var local: Option<HostId>, steps: seq<Step> :| Runs(Init(local), steps, s);
    InitInv(local);
    RunKeepsInv(Init(local), steps, s);
  }

  lemma {:induction false} RunExtends(s: System, steps: seq<Step>, end: System, st: Step)
    requires Runs(s, steps, end) && Enabled(end, st)
    ensures Runs(s, steps + [st], Do(end, st))
    decreases |steps|
  {
    hide Do, Enabled;
    if steps == [] {
      assert [st][1..] == [];
      assert Runs(Do(end, st), [], Do(end, st));
    } else {
      RunExtends(Do(s, steps[0]), steps[1..], end, st);
      assert (steps + [st])[1..] == steps[1..] + [st];
    }
  }

  lemma ReachableExtends(s: System, st: Step)
    requires Reachable(s) && Enabled(s, st)
    ensures Reachable(Do(s, st))
  {
    hide Do, Enabled, Runs;
    var local: Option<HostId>, steps: seq<Step> :| Runs(Init(local), steps, s);
    RunExtends(Init(local), steps, s, st);
  }
}
