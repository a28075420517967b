/** What the fleet protocol guarantees in every reachable state, and where its own comments
    promise more than it does. */
module FleetSafety {
  import opened Wrappers
  import opened FleetState
  import opened FleetPlan
  import opened FleetProtocol

  /** A listing, an offer or a lane for a remote host exists only while `watchers` holds that
      host's current stop flag, unset, and its thread is alive. */
  lemma OnlyTheWatchedAreListed(s: System, h: HostId)
    requires Reachable(s) && s.local != Some(h)
    requires h in s.state.sessions || h in s.state.offers || h in s.state.links
    ensures h in s.state.watchers
    ensures var t := s.state.watchers[h];
      !Retired(s, t) && At(s, t) && s.threads[t].host == h
  {
    ReachableInv(s);
    assert h in s.state.links ==> LinkLive(s, h);
  }

  /** One generation at a time: of all threads ever started for a remote host, the one that
      `watchers` holds is the only one whose flag is unset. */
  lemma OneCurrentWatcher(s: System, t: Watcher)
    requires Reachable(s) && At(s, t) && s.local != Some(s.threads[t].host)
    ensures !Retired(s, t) <==>
      s.threads[t].host in s.state.watchers && s.state.watchers[s.threads[t].host] == t
  {
    ReachableInv(s);
    assert ThreadFlags(s, t);
    assert s.threads[t].host in s.state.watchers ==> EntryFlags(s, s.threads[t].host);
  }

  /** The thread a step belongs to, if it is a thread's step. */
  function Actor(st: Step): Option<Watcher> {
    match st
    case Look(t) => Some(t)
    case Begin(t) => Some(t)
    case DialFails(t) => Some(t)
    case DialLists(t, _, _) => Some(t)
    case Publish(t) => Some(t)
    case Split(t) => Some(t)
    case SplitFails(t) => Some(t)
    case Register(t) => Some(t)
    case Hear(t, _) => Some(t)
    case HangUp(t) => Some(t)
    case Handle(t) => Some(t)
    case Leave(t) => Some(t)
    case ReportFailure(t, _) => Some(t)
    case _ => None
  }

  /** A late step of a retired watcher, of any generation, writes no listing, offer, entry or
      lane; only its exit may still drop the host's own marks, and it adds none. */
  lemma LateStepsWriteNothing(s: System, st: Step, t: Watcher)
    requires Reachable(s) && Enabled(s, st) && Actor(st) == Some(t) && Retired(s, t)
    ensures var u := Do(s, st);
      && u.state.sessions == s.state.sessions && u.state.offers == s.state.offers
      && u.state.watchers == s.state.watchers && u.state.links == s.state.links
      && u.state.declined <= s.state.declined
      && (u.state.search == s.state.search || u.state.search == Forget(s.state.search, {s.threads[t].host}))
      && (!st.Leave? ==> u.state.search == s.state.search && u.state.declined == s.state.declined)
  {
    hide Reachable, Inv;
    if st.Leave? {
      LateExit(s, t);
    }
  }

  lemma LateExit(s: System, t: Watcher)
    requires Reachable(s) && Enabled(s, Leave(t)) && Retired(s, t)
    ensures LeaveLane(s.state, s.threads[t].host, s.threads[t].pc.lane).links == s.state.links
  {
    LinkedLanesAreCurrent(s, t);
  }

  /** Whoever holds a linked lane is current. */
  lemma LinkedLanesAreCurrent(s: System, t: Watcher)
    requires Reachable(s) && At(s, t)
    ensures forall h :: h in s.state.links && Holds(s.threads[t].pc, s.state.links[h]) ==> !Retired(s, t)
  {
    ReachableInv(s);
    forall h | h in s.state.links && Holds(s.threads[t].pc, s.state.links[h])
      ensures !Retired(s, t)
    {
      assert LinkLive(s, h);
      var x :| Speaks(s, x, h) && x in s.threads && !Retired(s, x) && Holds(s.threads[x].pc, s.state.links[h]);
      assert SameLane(s.threads[x].pc, s.threads[t].pc);
    }
  }

  /** The palette's search: whoever is outstanding has a live lane, never declined, and that
      lane is the very one that accepted the current question; whatever is parked answers the
      query on screen. */
  lemma OutstandingQuestionsAreLive(s: System)
    requires Reachable(s) && s.state.search.Some?
    ensures var search := s.state.search.value;
      && search.asked <= s.state.links.Keys
      && search.asked !! s.state.declined
      && (forall h :: h in search.answers ==> search.answers[h].echo == search.query)
      && (forall h :: h in search.asked ==>
            && Outstanding(s.state, search, h)
            && exists t :: At(s, t) && s.threads[t].host == h && !Retired(s, t) && Holds(s.threads[t].pc, s.state.links[h]))
  {
    ReachableInv(s);
    var search := s.state.search.value;
    forall h | h in search.asked
      ensures h in s.state.links && Outstanding(s.state, search, h)
      ensures exists t :: At(s, t) && s.threads[t].host == h && !Retired(s, t) && Holds(s.threads[t].pc, s.state.links[h])
    {
      assert Outstanding(s.state, search, h);
      assert LinkLive(s, h);
    }
  }

  /** When the supervisor finishes a plan, the watching set is exactly the routable remote
      hosts the plan was made for, less those no thread could be started for. */
  lemma PlansAreCarriedOut(s: System)
    requires Reachable(s) && s.sup.Starting? && s.sup.rest == []
    ensures s.state.watchers.Keys == s.sup.goal - s.sup.lost && s.sup.lost <= s.sup.goal
  {
    ReachableInv(s);
  }

  lemma GoalIsRoutable(s: System, relay: Option<string>, signedIn: bool)
    requires Enabled(s, Decide(relay, signedIn))
    ensures var u := Do(s, Decide(relay, signedIn));
      if u.sup.Waiting? then s.state.watchers.Keys == Routable(s.sup.rows, relay, signedIn)
      else u.sup.Retiring? && u.sup.goal == Routable(s.sup.rows, relay, signedIn)
  {
    PlanReachesRoutable(s.sup.rows, s.state.watchers.Keys, relay, signedIn);
  }

  // ---- what the exit cleanup does not respect ----

  /** A "cannot search" mark is promised for as long as the host's lane lives. What clears it,
      exactly: the exit of some connection to that host, whichever generation. */
  lemma MarksAreClearedByExits(s: System, st: Step, h: HostId)
    requires Enabled(s, st) && h in s.state.declined
    ensures h !in Do(s, st).state.declined <==> st.Leave? && s.threads[st.t].host == h
  {}

  /** The mark outlives the step for as long as its own lane lives if and only if no step of
      another connection to the same host leaves. */
  lemma MarkSurvives(s: System, st: Step, h: HostId)
    requires Reachable(s) && Enabled(s, st) && h in s.state.declined && h in s.state.links
    requires h in Do(s, st).state.links && Do(s, st).state.links[h] == s.state.links[h]
    ensures h in Do(s, st).state.declined <==>
      !(st.Leave? && s.threads[st.t].host == h && s.threads[st.t].pc.lane != s.state.links[h])
  {}

  /** Bring one host from unwatched to a served connection. */
  lemma ComesUp(s: System, h: HostId) returns (u: System, t: Watcher, lane: LaneId)
    requires Reachable(s) && s.sup.Waiting? && s.local.None?
    requires s.state.watchers == map[] && h !in s.state.sessions
    ensures Reachable(u) && u.sup.Waiting? && u.local.None? && !Retired(u, t)
    ensures t == s.nextWatcher && lane == s.nextLane
    ensures u.threads == s.threads[t := Thread(h, Serving(lane))] && u.nextWatcher == t + 1 && u.nextLane == lane + 1
    ensures u.state == s.state.(watchers := map[h := t], sessions := s.state.sessions[h := Fresh([])],
                                lanes := s.state.lanes[lane := Lane([], [], true)], links := s.state.links[h := lane])
  {
    t, lane := s.nextWatcher, s.nextLane;
    ReachableInv(s);
    assert t !in s.threads by {
      assert t in s.threads ==> ThreadFlags(s, t);
    }
    var u6 := Enrols(s, h, t);
    u := Connects(u6, h, t, lane);
  }

  /** The supervisor sees a host appear and starts a watcher for it. */
  lemma Enrols(s: System, h: HostId, t: Watcher) returns (u: System)
    requires Reachable(s) && s.sup.Waiting? && s.local.None?
    requires s.state.watchers == map[] && t == s.nextWatcher
    ensures Reachable(u)
    ensures u == s.(state := s.state.(watchers := map[h := t]), threads := s.threads[t := Thread(h, Top)],
                    nextWatcher := t + 1)
  {
    hide Reachable, BuildSnapshot, PlanOf, Routable;
    var roster := [Record(h, Online, Some("a"))];
    var rows := [Row(h, false, Online, Some("a"), false)];
    var target := Target(h, Tcp("a"));
    OneRow(roster, h);
    OneStart(rows, h);
    RetireNone(s.state);
    assert s.state.watchers.Keys == {};
    assert [target][1..] == [];
    u := Takes(s, Observe(roster, None), s.(sup := Observed(rows)));
    u := Takes(u, Decide(None, false), s.(sup := Retiring(Plan([target], {}), {h})));
    u := Takes(u, RetireStops, s.(sup := Keying([target], {h})));
    u := Takes(u, HasCredential, s.(sup := Starting([target], {h}, {})));
    var state := s.state.(watchers := map[h := t]);
    assert s.state.watchers[h := t] == map[h := t];
    u := Takes(u, Enrol, s.(state := state, sup := Spawning(h, [], {h}, {})));
    var threads := s.threads[t := Thread(h, Top)];
    u := Takes(u, Spawned, s.(state := state, threads := threads, nextWatcher := t + 1, sup := Starting([], {h}, {})));
    u := Takes(u, Finish, s.(state := state, threads := threads, nextWatcher := t + 1));
  }

  /** One step of a run, with the state it leads to spelled out. */
  lemma Takes(s: System, st: Step, next: System) returns (u: System)
    requires Reachable(s) && Enabled(s, st) && Do(s, st) == next
    ensures u == next && Reachable(u)
  {
    ReachableExtends(s, st);
    u := next;
  }

  lemma OneRow(roster: seq<Record>, h: HostId)
    requires roster == [Record(h, Online, Some("a"))]
    ensures BuildSnapshot(None, roster, None) == [Row(h, false, Online, Some("a"), false)]
  {
    assert Discovered(None, roster[1..]) == [];
    assert Discovered(None, roster) == [Row(h, false, Online, Some("a"), false)];
  }

  lemma OneStart(rows: seq<Row>, h: HostId)
    requires rows == [Row(h, false, Online, Some("a"), false)]
    ensures PlanOf(rows, {}, None, false) == Plan([Target(h, Tcp("a"))], {})
    ensures Routable(rows, None, false) == {h}
  {
    assert rows[..0] == [];
    assert Starts(rows[..0], {}, None, false) == [];
    assert rows[0] in rows;
  }

  lemma Connects(s: System, h: HostId, t: Watcher, lane: LaneId) returns (u: System)
    requires Reachable(s) && s.local.None? && At(s, t) && s.threads[t] == Thread(h, Top) && !Retired(s, t)
    requires h !in s.state.sessions && lane == s.nextLane
    ensures Reachable(u)
    ensures u == s.(threads := s.threads[t := Thread(h, Serving(lane))], nextLane := lane + 1,
                    state := s.state.(sessions := s.state.sessions[h := Fresh([])],
                                      lanes := s.state.lanes[lane := Lane([], [], true)],
                                      links := s.state.links[h := lane]))
  {
    hide Reachable;
    u := TakesAs(s, Look(t), t, Entering, s.state);
    var fetching := s.state.(sessions := s.state.sessions[h := Fetching]);
    u := TakesAs(u, Begin(t), t, Dialing, fetching);
    u := TakesAs(u, DialLists(t, [], None), t, Listed([], None), fetching);
    var state := s.state.(sessions := s.state.sessions[h := Fresh([])]);
    assert s.state.sessions[h := Fetching][h := Fresh([])] == s.state.sessions[h := Fresh([])];
    u := TakesAs(u, Publish(t), t, Splitting, state);
    var split := state.(lanes := s.state.lanes[lane := Lane([], [], true)]);
    u := TakesAs(u, Split(t), t, Registering(lane), split);
    u := TakesAs(u, Register(t), t, Serving(lane), split.(links := s.state.links[h := lane]));
    assert u.threads == s.threads[t := Thread(h, Serving(lane))];
  }

  /** One step of thread `t`, in the words of its specification. */
  lemma TakesAs(s: System, st: Step, t: Watcher, pc: Pc, state: State) returns (u: System)
    requires Reachable(s) && At(s, t) && Enabled(s, st)
    requires var next := Move(s, t, pc).(state := state);
      Do(s, st) == if st.Split? then next.(nextLane := s.nextLane + 1) else next
    ensures Reachable(u)
    ensures u == s.(threads := s.threads[t := s.threads[t].(pc := pc)], state := state,
                    nextLane := if st.Split? then s.nextLane + 1 else s.nextLane)
  {
    ReachableExtends(s, st);
    u := Do(s, st);
  }

  /** Whoever has answered is among those asked. */
  predicate AnswersAreAsked(s: System) {
    s.state.search.Some? ==> s.state.search.value.answers.Keys <= s.state.search.value.asked
  }

  /** The step stops waiting on a host that has answered, or keeps an answer of one that is not
      waited on. */
  predicate Strays(s: System, st: Step)
    requires Enabled(s, st)
  {
    && s.state.search.Some?
    && var search := s.state.search.value;
       match st
       case Leave(t) => s.threads[t].host in search.answers
       case RetireStops => exists h :: h in s.sup.plan.stop && h in search.answers
       case Handle(t) =>
         var h := s.threads[t].host;
         && !Retired(s, t)
         && match s.threads[t].pc.msg {
              case Misunderstood => h in search.answers
              case Matches(query, _) => query == search.query && h !in search.asked
              case _ => false
            }
       case _ => false
  }

  /** What makes an answer outlive its host's place among the asked, exactly: an exit, a plan's
      stop or a refusal of a host that has answered, whichever generation exits; or an answer to
      the query on screen from an unretired watcher whose host is not waited on. */
  lemma AnswersStrayExactly(s: System, st: Step)
    requires Enabled(s, st) && AnswersAreAsked(s)
    ensures AnswersAreAsked(Do(s, st)) <==> !Strays(s, st)
  {
    SearchMoves(s, st);
    hide Do;
    if s.state.search.Some? && Strays(s, st) {
      var search := s.state.search.value;
      var h: HostId;
      if st.RetireStops? {
        h :| h in s.sup.plan.stop && h in search.answers;
      } else {
        h := s.threads[st.t].host;
      }
      var after := Do(s, st).state.search.value;
      assert h in after.answers.Keys && h !in after.asked;
    }
  }

  /** What a step makes of the search. */
  lemma SearchMoves(s: System, st: Step)
    requires Enabled(s, st)
    ensures var (was, now) := (s.state.search, Do(s, st).state.search);
      match st
      case RetireStops => now == Forget(was, s.sup.plan.stop)
      case Leave(t) => now == Forget(was, {s.threads[t].host})
      case Ask(query) => now == Some(Search(query, Reached(s.state), map[]))
      case Handle(t) =>
        var h, msg := s.threads[t].host, s.threads[t].pc.msg;
        if Retired(s, t) then now == was
        else if msg.Misunderstood? then now == Forget(was, {h})
        else if msg.Matches? && was.Some? && was.value.query == msg.query then
          now == Some(was.value.(answers := was.value.answers[h := Answer(msg.query, msg.matches)]))
        else now == was
      case _ => now == was
  {
    hide BuildSnapshot, PlanOf, Routable, Posted, Reached, Forget;
  }

  /** A question can always be asked: no two hosts ever share a lane. */
  lemma AskingIsAlwaysPossible(s: System, query: string)
    requires Reachable(s)
    ensures Enabled(s, Ask(query))
  {
    ReachableInv(s);
    LinksAreOwn(s);
  }

  /** Answers are not a subset of the asked: a host that answered and then hung up stays
      parked and is no longer counted. */
  lemma AnswersOutliveAsked()
    ensures exists s: System, h: HostId ::
      Reachable(s) && s.state.search.Some? && h in s.state.search.value.answers && h !in s.state.search.value.asked
  {
    var s0, h := Startup();
    var s, t, lane := ComesUp(s0, h);
    var u := Answers(s, h, t, lane);
    u := HangsUp(u, h, t, lane);
    assert h in u.state.search.value.answers && h !in u.state.search.value.asked;
  }

  /** A window without a daemon of its own, just started, and a host it has yet to see. */
  lemma Startup() returns (s: System, h: HostId)
    ensures Reachable(s) && s.sup.Waiting? && s.local.None?
    ensures s.state.watchers == map[] && s.state.sessions == map[] && s.state.links == map[] && s.state.declined == {}
  {
    s, h := Init(None), 1;
    assert Runs(Init(None), [], Init(None));
  }

  lemma Answers(s: System, h: HostId, t: Watcher, lane: LaneId) returns (u: System)
    requires Reachable(s) && At(s, t) && s.threads[t] == Thread(h, Serving(lane)) && !Retired(s, t)
    requires OwnLanes(s.state)
    ensures Reachable(u) && u.threads == s.threads
    ensures u.state.search.Some? && h in u.state.search.value.answers
    ensures u.state.links == s.state.links
  {
    hide Reachable;
    u := Asks(s, "q");
    var state := ReceiveMatches(u.state, h, false, "q", []);
    u := TakesAs(u, Hear(t, Matches("q", [])), t, Handling(lane, Matches("q", [])), u.state);
    u := TakesAs(u, Handle(t), t, Serving(lane), state);
    assert u.threads == s.threads;
  }

  lemma Asks(s: System, query: string) returns (u: System)
    requires Reachable(s) && OwnLanes(s.state)
    ensures Reachable(u) && u == s.(state := AskLanes(s.state, query))
  {
    ReachableExtends(s, Ask(query));
    u := Do(s, Ask(query));
  }

  lemma HangsUp(s: System, h: HostId, t: Watcher, lane: LaneId) returns (u: System)
    requires Reachable(s) && At(s, t) && s.threads[t] == Thread(h, Serving(lane))
    ensures Reachable(u) && u.state == LeaveLane(s.state, h, lane)
    ensures u.threads == s.threads[t := Thread(h, Failing)]
  {
    hide Reachable;
    u := TakesAs(s, HangUp(t), t, Leaving(lane, true), s.state);
    u := TakesAs(u, Leave(t), t, Failing, LeaveLane(s.state, h, lane));
    assert u.threads == s.threads[t := Thread(h, Failing)];
  }

  /** And a mark made over the successor's lane is cleared by its predecessor's late exit:
      the host, unasked a moment ago, is asked again down the same lane. */
  lemma LateExitClearsAMark()
    ensures exists s: System, st: Step, h: HostId ::
      && Reachable(s) && Enabled(s, st)
      && h in s.state.declined && h !in Do(s, st).state.declined
      && h in s.state.links && h in Do(s, st).state.links && Do(s, st).state.links[h] == s.state.links[h]
      && Actor(st).Some? && Retired(s, Actor(st).value)
  {
    var s, h, t, lane := Stalled();
    hide Reachable;
    var u := Do(s, Leave(t));
    assert h in s.state.declined && h !in u.state.declined;
    assert u.state.links[h] == s.state.links[h];
    assert Actor(Leave(t)) == Some(t);
  }

  /** A retired watcher still on its way out, while its successor's lane is live and marked. */
  lemma Stalled() returns (s: System, h: HostId, t: Watcher, lane: LaneId)
    ensures Reachable(s) && At(s, t) && Retired(s, t) && s.threads[t] == Thread(h, Leaving(lane, true))
    ensures h in s.state.declined && h in s.state.links && s.state.links[h] != lane
  {
    hide Reachable;
    var s0;
    s0, h := Startup();
    var s1, t1, lane1 := ComesUp(s0, h);
    var s2 := GoesAway(s1, h, t1);
    var s3, t2, lane2 := ComesUp(s2, h);
    var s4 := Declines(s3, h, t2, lane2);
    t, lane := t1, lane1;
    s := TakesAs(s4, HangUp(t), t, Leaving(lane, true), s4.state);
  }

  /** The supervisor sees the host disappear. */
  lemma GoesAway(s: System, h: HostId, t: Watcher) returns (u: System)
    requires Reachable(s) && s.sup.Waiting? && s.local.None? && s.state.watchers == map[h := t]
    ensures Reachable(u) && u == s.(state := Retire(s.state, {h}))
    ensures u.state.watchers == map[] && h !in u.state.sessions && t in u.state.retired
  {
    hide Reachable, BuildSnapshot, PlanOf, Routable;
    assert BuildSnapshot(None, [], None) == [] by { NoRow(); }
    NoStart({h});
    assert s.state.watchers.Keys == {h};
    u := Takes(s, Observe([], None), s.(sup := Observed([])));
    u := Takes(u, Decide(None, false), s.(sup := Retiring(Plan([], {h}), {})));
    u := Takes(u, RetireStops, s.(state := Retire(s.state, {h}), sup := Starting([], {}, {})));
    u := Takes(u, Finish, s.(state := Retire(s.state, {h})));
  }

  lemma NoRow()
    ensures BuildSnapshot(None, [], None) == []
  {}

  lemma NoStart(watching: set<HostId>)
    ensures PlanOf([], watching, None, false) == Plan([], watching) && Routable([], None, false) == {}
  {
    assert Routable([], None, false) == {};
  }

  lemma Declines(s: System, h: HostId, t: Watcher, lane: LaneId) returns (u: System)
    requires Reachable(s) && At(s, t) && s.threads[t] == Thread(h, Serving(lane)) && !Retired(s, t)
    ensures Reachable(u) && u == s.(state := DeclineSearch(s.state, h, false))
  {
    hide Reachable;
    u := TakesAs(s, Hear(t, Misunderstood), t, Handling(lane, Misunderstood), s.state);
    u := TakesAs(u, Handle(t), t, Serving(lane), DeclineSearch(s.state, h, false));
    assert u.threads == s.threads;
  }
}
