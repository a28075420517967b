/** Which of the fleet protocol's steps tell anybody: what the windows draw of the shared
    state, and which changes of it are followed by `mark_changed`. */
module FleetNotices {
  import opened Wrappers
  import opened FleetState
  import opened FleetProtocol
  import opened FleetSafety
  import FleetLatch

  /** What the windows draw: the cards' listings and offers, and the palette's search. */
  datatype Picture = Picture(sessions: map<HostId, Sessions>, offers: map<HostId, string>, search: Option<Search>)

  function Drawn(s: System): Picture {
    Picture(s.state.sessions, s.state.offers, s.state.search)
  }

  predicate Asked(s: System, h: HostId) {
    s.state.search.Some? && h in s.state.search.value.asked
  }

  /** The step ends in `mark_changed`. */
  predicate Announces(s: System, st: Step)
    requires Enabled(s, st)
  {
    match st
    case RetireStops => s.sup.plan.stop != {}
    case Publish(t) => !Retired(s, t)
    case Handle(t) => !Retired(s, t) && Heeds(s, s.threads[t].host, s.threads[t].pc.msg)
    case ReportFailure(t, _) =>
      var h := s.threads[t].host;
      s.local != Some(h) && !Retired(s, t) && h in s.state.sessions && s.state.sessions[h].Fetching?
    case _ => false
  }

  /** The message is one an unretired watcher acts on. */
  predicate Heeds(s: System, h: HostId, msg: Message) {
    match msg
    case Pushed(_, _) => true
    case Matches(query, _) => s.state.search.Some? && s.state.search.value.query == query
    case Misunderstood => Asked(s, h)
    case Other => false
  }

  /** The changes nobody is told of: a first dial begun, a question asked, and a connection's
      exit that gives up on an answer. */
  predicate Unannounced(s: System, st: Step)
    requires Enabled(s, st)
  {
    match st
    case Begin(t) => s.local != Some(s.threads[t].host) && !Retired(s, t) && s.threads[t].host !in s.state.sessions
    case Ask(query) => AskLanes(s.state, query).search != s.state.search
    case Leave(t) => Asked(s, s.threads[t].host)
    case _ => false
  }

  /** Of the steps that change what is drawn, those are exactly the ones that announce
      nothing. */
  lemma UnannouncedExactly(s: System, st: Step)
    requires Enabled(s, st)
    ensures Drawn(Do(s, st)) != Drawn(s) && !Announces(s, st) <==> Unannounced(s, st)
  {
    if st.RetireStops? {
      RetireNone(s.state);
    } else if st.Leave? && Asked(s, s.threads[st.t].host) {
      assert !Asked(Do(s, st), s.threads[st.t].host);
    } else if (st.Leave? || st.Handle?) && s.state.search.Some? {
      var search := s.state.search.value;
      assert s.threads[st.t].host !in search.asked ==> search.asked - {s.threads[st.t].host} == search.asked;
    }
  }

  /** The writes of a run, in order, with whether each is announced. */
  ghost function Notices(s: System, steps: seq<Step>): (log: seq<bool>)
    decreases |steps|
  {
    if steps == [] || !Enabled(s, steps[0]) then []
    else
      var told := Announces(s, steps[0]);
      (if told || Do(s, steps[0]).state != s.state then [told] else []) + Notices(Do(s, steps[0]), steps[1..])
  }

  ghost function Notice(s: System, st: Step): (log: seq<bool>)
    requires Enabled(s, st)
  {
    if Announces(s, st) || Do(s, st).state != s.state then [Announces(s, st)] else []
  }

  lemma {:induction false} NoticesExtend(s: System, steps: seq<Step>, m: System, st: Step)
    requires Runs(s, steps, m) && Enabled(m, st)
    ensures Notices(s, steps + [st]) == Notices(s, steps) + Notice(m, st)
    decreases |steps|
  {
    hide Enabled, Do, Announces;
    if steps == [] {
      assert [st][1..] == [] && Notices(Do(m, st), []) == [];
    } else {
      NoticesExtend(Do(s, steps[0]), steps[1..], m, st);
      assert (steps + [st])[1..] == steps[1..] + [st];
    }
  }

  /** What a step changes on the screen is sure to be drawn, by the time everything is quiet
      with nothing more written, exactly if it is not one of the unannounced ones. */
  lemma ChangeIsDrawn(local: Option<HostId>, steps: seq<Step>, s: System, st: Step)
    requires Runs(Init(local), steps, s) && Enabled(s, st) && Drawn(Do(s, st)) != Drawn(s)
    ensures var log := Notices(Init(local), steps + [st]);
      log != [] && (FleetLatch.AlwaysPainted(log, |log| - 1) <==> !Unannounced(s, st))
  {
    hide Runs, Enabled, Do, Announces, Unannounced, FleetLatch.AlwaysPainted;
    NoticesExtend(Init(local), steps, s, st);
    UnannouncedExactly(s, st);
    var log := Notices(Init(local), steps + [st]);
    assert log == Notices(Init(local), steps) + [Announces(s, st)];
    FleetLatch.AnnouncedMore(Notices(Init(local), steps), Announces(s, st), |log| - 1);
    FleetLatch.PaintedExactly(log, |log| - 1);
  }

  /** It happens: a host that was asked hangs up, nobody is told that it is no longer waited
      on, and everything comes to rest with the palette still counting it. */
  lemma HangUpIsNotDrawn() returns (local: Option<HostId>, steps: seq<Step>, s: System, t: Watcher, last: FleetLatch.System)
    ensures Runs(Init(local), steps, s) && Enabled(s, Leave(t))
    ensures Asked(s, s.threads[t].host) && !Asked(Do(s, Leave(t)), s.threads[t].host)
    ensures FleetLatch.Reachable(last) && FleetLatch.Quiet(last)
    ensures last.log == Notices(Init(local), steps + [Leave(t)]) && last.painted < |last.log|
  {
    var h, lane;
    s, h, t, lane := Waits();
    assert Unannounced(s, Leave(t)) && Drawn(Do(s, Leave(t))) != Drawn(s) by { UnannouncedExactly(s, Leave(t)); }
    assert !Asked(Do(s, Leave(t)), h);
    local, steps :| Runs(Init(local), steps, s);
    last := NotDrawn(local, steps, s, Leave(t));
  }

  lemma NotDrawn(local: Option<HostId>, steps: seq<Step>, s: System, st: Step) returns (last: FleetLatch.System)
    requires Runs(Init(local), steps, s) && Enabled(s, st) && Drawn(Do(s, st)) != Drawn(s) && Unannounced(s, st)
    ensures FleetLatch.Reachable(last) && FleetLatch.Quiet(last)
    ensures last.log == Notices(Init(local), steps + [st]) && last.painted < |last.log|
  {
    hide Runs, Enabled, Do, Unannounced, Notices, FleetLatch.Reachable, FleetLatch.Quiet;
    ChangeIsDrawn(local, steps, s, st);
    var log := Notices(Init(local), steps + [st]);
    last :| FleetLatch.Reachable(last) && FleetLatch.Quiet(last) && last.log == log && !(|log| - 1 < last.painted);
  }

  /** A connection about to leave whose host is still to answer. */
  lemma Waits() returns (s: System, h: HostId, t: Watcher, lane: LaneId)
    ensures Reachable(s) && At(s, t) && s.threads[t] == Thread(h, Leaving(lane, true)) && Asked(s, h)
  {
    hide Reachable;
    var s0;
    s0, h := Startup();
    s, t, lane := ComesUp(s0, h);
    assert h in Reached(s.state) by { TakesQuestions(s.state, h, lane); }
    s := Asks(s, "q");
    s := TakesAs(s, HangUp(t), t, Leaving(lane, true), s.state);
  }

  lemma TakesQuestions(s: State, h: HostId, lane: LaneId)
    requires s.links == map[h := lane] && lane in s.lanes && s.lanes[lane] == Lane([], [], true) && h !in s.declined
    ensures OwnLanes(s) && h in Reached(s)
  {}
}
