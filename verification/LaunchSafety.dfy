/** What the hand-off promises, over every run. */
module LaunchSafety {
  import opened Wrappers
  import opened LaunchRules
  import opened LaunchProtocol

  /** Who a log entry was opened for. */
  function For(s: System, o: Opening): (p: Option<Pid>) {
    match o
    case Own(p) => Some(p)
    case Forwarded(a, _) => if a in s.attempts then Some(s.attempts[a].launch) else None
  }

  /** Everything opened was opened for some launch. */
  lemma LogIsOfLaunches(s: System, o: Opening)
    requires Reachable(s) && o in s.log
    ensures For(s, o).Some? && For(s, o).value in s.procs
  {
    ReachableInv(s);
    assert LogOk(s, o);
    if o.Forwarded? {
      assert AttemptOk(s, o.attempt);
    }
  }

  /** A launch that leaves successfully had its request opened, by a process of its own build,
      and `Ok` was written only after that. */
  lemma OpenedBySameBuild(s: System, p: Pid) returns (a: AttemptId, o: Pid)
    requires Reachable(s) && p in s.procs && s.procs[p].stage == Left(0)
    ensures a in s.attempts && s.attempts[a] == Attempt(p, Answered(o, Ok))
    ensures Forwarded(a, o) in s.log && o in s.procs && s.procs[o].hello == s.procs[p].hello
  {
    hide QueueOk, LogOk, Distinct, Asked, Reachable;
    ReachableInv(s);
    assert ProcessOk(s, p) && LiveOk(s, p) && s.procs[p].heard != [];
    a :| Live(s, p, a) && HasOk(s, a);
    assert AttemptOk(s, a);
    o := s.attempts[a].at.server;
  }

  /** `Ok` is on the wire only when the log already holds the opening. */
  lemma OkMeansOpened(s: System, a: AttemptId)
    requires Reachable(s) && a in s.attempts && s.attempts[a].at.Answered? && s.attempts[a].at.reply.Ok?
    ensures var o := s.attempts[a].at.server;
      Forwarded(a, o) in s.log && SameProgram(s, o, s.attempts[a].launch)
  {
    ReachableInv(s);
    assert AttemptOk(s, a);
  }

  /** Every launch that ends unrefused has something opened for it, whatever timed out, died
      or lost the race. */
  lemma EveryLaunchShows(s: System, p: Pid) returns (o: Opening)
    requires Reachable(s) && p in s.procs && !s.procs[p].stage.Launching? && s.procs[p].stage != Left(1)
    ensures o in s.log && For(s, o) == Some(p)
  {
    ReachableInv(s);
    assert ProcessOk(s, p);
    if s.procs[p].stage.Left? {
      var a, server := OpenedBySameBuild(s, p);
      o := Forwarded(a, server);
    } else {
      o := Own(p);
    }
  }

  /** No launch opens more than one thing elsewhere and one window of its own; and it opens
      both only after it stopped waiting for an answer. */
  lemma AtMostOneEach(s: System, i: nat, j: nat)
    requires Reachable(s) && i < j < |s.log| && For(s, s.log[i]) == For(s, s.log[j])
    ensures For(s, s.log[i]).Some? && s.log[i].Forwarded? != s.log[j].Forwarded?
    ensures var p := For(s, s.log[i]).value;
      p in s.procs && s.procs[p].heard != [] && s.procs[p].heard[|s.procs[p].heard| - 1] == NoAnswer
  {
    LogIsOfLaunches(s, s.log[i]);
    hide Reachable, QueueOk, AttemptOk, ProcessOk, Asked, LiveOk;
    ReachableInv(s);
    var p := For(s, s.log[i]).value;
    assert LogOk(s, s.log[i]) && LogOk(s, s.log[j]) && s.log[i] != s.log[j];
    assert ProcessOk(s, p) && LiveOk(s, p);
    OneForwarded(s, p, s.log[i], s.log[j]);
  }

  lemma OneForwarded(s: System, p: Pid, x: Opening, y: Opening)
    requires p in s.procs && ProcessOk(s, p) && LiveOk(s, p) && LogOk(s, x) && LogOk(s, y) && x != y
    requires For(s, x) == For(s, y) == Some(p)
    ensures x.Forwarded? != y.Forwarded? && s.procs[p].heard != [] && s.procs[p].heard[|s.procs[p].heard| - 1] == NoAnswer
  {
    AskedExactly(s.procs[p].plan, s.procs[p].heard, s.procs[p].claim);
    assert x.Forwarded? ==> Live(s, p, x.attempt);
    assert y.Forwarded? ==> Live(s, p, y.attempt);
  }

  /** A probe, a process with a configuration of its own and one told to be an instance forward
      nothing in any run: what is opened for such a launch is its own window. */
  lemma KeepsToItself(s: System, p: Pid, flags: LaunchFlags, setting: LaunchTarget, cwd: Option<string>, token: Option<string>)
    requires Reachable(s) && p in s.procs && s.procs[p].plan == Classify(flags, setting, cwd, token)
    requires flags.probe || flags.ownConfig || (if flags.target.Some? then flags.target.value else setting) == ToInstance
    ensures s.procs[p].heard == [] && forall o :: o in s.log && For(s, o) == Some(p) ==> o == Own(p)
  {
    ForwardedAsATab(flags, setting, cwd, token);
    hide Reachable, QueueOk, AttemptOk, Distinct, Classify;
    ReachableInv(s);
    assert ProcessOk(s, p) && LiveOk(s, p);
    AskedExactly(s.procs[p].plan, s.procs[p].heard, s.procs[p].claim);
    forall o | o in s.log && For(s, o) == Some(p)
      ensures o == Own(p)
    {
      assert o.Forwarded? ==> !Live(s, p, o.attempt);
      assert LogOk(s, o);
    }
  }

  /** As long as a claim is exclusive (what `Claims` takes for granted, and module EndpointLock
      has the conditions of), whoever serves is the one holder of the endpoint, and has its own
      window. */
  lemma OneServer(s: System, p: Pid, q: Pid)
    requires Reachable(s) && p in s.procs && q in s.procs
    requires s.procs[p].stage.Up? && s.procs[p].stage.serving && s.procs[q].stage.Up? && s.procs[q].stage.serving
    ensures p == q && s.endpoint == Some(p) && Own(p) in s.log
  {
    ReachableInv(s);
    assert ProcessOk(s, p) && ProcessOk(s, q);
  }

  // ---- a launch never hangs ----

  /** The step is the launcher's own, or its helper thread's report to it. */
  predicate Concerns(s: System, st: Step, p: Pid) {
    match st
    case AskOut(q, _) => q == p
    case GivesUp(q) => q == p
    case Hears(q) => q == p
    case Claims(q, _) => q == p
    case OpensOwn(q) => q == p
    case Leaves(q) => q == p
    case DialFails(a) => p in s.procs && s.procs[p].asking == Some(a) && a in s.attempts && s.attempts[a].launch == p
    case SendFails(a) => p in s.procs && s.procs[p].asking == Some(a) && a in s.attempts && s.attempts[a].launch == p
    case _ => false
  }

  /** Steps a launch still has in front of it, at most. */
  function Remaining(s: System, p: Pid): (n: int)
    requires p in s.procs
  {
    var proc := s.procs[p];
    if !proc.stage.Launching? then 0
    else 2 * (RETRIES + 1 - |proc.heard|) - (if proc.asking.Some? then 1 else 0)
         + (if proc.claim.None? then 1 else 0) + 1
  }

  /** From any reachable state a launch has a step of its own to take that waits on nobody,
      and each such step leaves it fewer; nobody else's steps add any. */
  lemma NeverHangs(s: System, p: Pid) returns (st: Step)
    requires Reachable(s) && Launches(s, p)
    ensures Enabled(s, st) && Concerns(s, st, p)
  {
    if s.procs[p].asking.Some? {
      st := GivesUp(p);
    } else {
      match NextMove(s, p)
      case Ask =>
        var a := Unused(s.attempts.Keys);
        st := AskOut(p, a);
      case TryClaim => st := Claims(p, false);
      case Open(_) => st := OpensOwn(p);
      case Leave(_) => st := Leaves(p);
    }
  }

  lemma Unused(used: set<AttemptId>) returns (a: AttemptId)
    ensures a !in used
  {
    a := 0;
    var left := used;
    while a in used
      invariant forall b :: b in used && b >= a ==> b in left
      decreases |left|
    {
      left := left - {a};
      a := a + 1;
    }
  }

  lemma RemainingShrinks(s: System, st: Step, p: Pid)
    requires Reachable(s) && Enabled(s, st) && p in s.procs
    ensures p in Do(s, st).procs && 0 <= Remaining(Do(s, st), p) <= Remaining(s, p)
    ensures Concerns(s, st, p) ==> Remaining(Do(s, st), p) < Remaining(s, p)
  {
    hide Reachable;
    Bounded(s, p);
    var u := Do(s, st);
    ReachableExtends(s, st);
    assert p in u.procs;
    Bounded(u, p);
  }

  lemma Bounded(s: System, p: Pid)
    requires Reachable(s) && p in s.procs
    ensures |s.procs[p].heard| <= RETRIES + 1
    ensures s.procs[p].asking.Some? ==> |s.procs[p].heard| <= RETRIES && s.procs[p].stage.Launching?
  {
    ReachableInv(s);
    assert ProcessOk(s, p);
    AskedExactly(s.procs[p].plan, s.procs[p].heard, s.procs[p].claim);
  }

  /** How many of a run's steps are the launcher's own. */
  function CountFor(s: System, steps: seq<Step>, p: Pid): (n: nat)
    decreases |steps|
  {
    if steps == [] || !Enabled(s, steps[0]) then 0
    else (if Concerns(s, steps[0], p) then 1 else 0) + CountFor(Do(s, steps[0]), steps[1..], p)
  }

  /** A launch takes at most 104 steps of its own, at most 51 of them forwards, whatever the
      other processes do and however long the run goes on. */
  lemma LaunchIsBounded(s: System, steps: seq<Step>, end: System, p: Pid)
    requires Reachable(s) && p in s.procs && Runs(s, steps, end)
    ensures p in end.procs && CountFor(s, steps, p) + Remaining(end, p) <= Remaining(s, p) <= 104
    ensures 0 <= Remaining(end, p) && |end.procs[p].heard| <= RETRIES + 1
    decreases |steps|
  {
    assert if steps == [] then s == end else Enabled(s, steps[0]) && Runs(Do(s, steps[0]), steps[1..], end);
    hide Runs, Do, Enabled, Reachable, Concerns;
    Bounded(s, p);
    if steps != [] {
      var u := Do(s, steps[0]);
      ReachableExtends(s, steps[0]);
      RemainingShrinks(s, steps[0], p);
      LaunchIsBounded(u, steps[1..], end, p);
    }
  }

  // ---- a window too many ----

  lemma Take(s: System, st: Step) returns (u: System)
    requires Reachable(s) && Enabled(s, st)
    ensures Reachable(u) && u == Do(s, st)
  {
    ReachableExtends(s, st);
    u := Do(s, st);
  }

  /** A launch starts and begins to forward. */
  lemma Forwards(s: System, p: Pid, a: AttemptId, h: Hello, plan: Launch) returns (u: System)
    requires Reachable(s) && p !in s.procs && a !in s.attempts && plan.forward.Some?
    ensures Reachable(u)
    ensures u == s.(procs := s.procs[p := Process(h, plan, [], None, Some(a), Launching)],
                    attempts := s.attempts[a := Attempt(p, Dialing)])
  {
    hide Reachable;
    u := Take(s, Start(p, h, plan));
    u := Take(u, AskOut(p, a));
    assert u.procs == s.procs[p := Process(h, plan, [], None, Some(a), Launching)];
  }

  /** The instance comes up: the first launch finds nobody, claims and serves. */
  lemma ComesUp(p: Pid, a: AttemptId, h: Hello, plan: Launch) returns (s: System)
    requires plan.forward.Some? && plan.serve
    ensures Reachable(s) && s.endpoint == Some(p) && s.log == [Own(p)]
    ensures s.procs == map[p := Process(h, plan, [NoInstance], Some(true), None, Up(true, true, [], []))]
    ensures s.attempts == map[a := Attempt(p, Dead)]
  {
    assert Reachable(Init()) by { assert Runs(Init(), [], Init()); }
    hide Reachable, Runs;
    s := Forwards(Init(), p, a, h, plan);
    s := Take(s, DialFails(a));
    var told := Process(h, plan, [NoInstance], None, None, Launching);
    assert [] + [NoInstance] == [NoInstance];
    assert s == System(map[p := told], map[a := Attempt(p, Dead)], None, []);
    s := Claimed(s, p, told);
  }

  lemma Claimed(s: System, p: Pid, told: Process) returns (u: System)
    requires Reachable(s) && s.procs == map[p := told] && s.endpoint == None && s.log == []
    requires told.plan.forward.Some? && told.plan.serve && told == Process(told.hello, told.plan, [NoInstance], None, None, Launching)
    ensures Reachable(u) && u.endpoint == Some(p) && u.log == [Own(p)] && u.attempts == s.attempts
    ensures u.procs == map[p := told.(claim := Some(true), stage := Up(true, true, [], []))]
  {
    hide Reachable;
    u := Take(s, Claims(p, true));
    u := Take(u, OpensOwn(p));
    u := Take(u, Serves(p));
  }

  /** The two openings of `AtMostOneEach` do happen: a launcher whose budget elapses while its
      request is parked opens its own window, and the instance then opens the other. */
  lemma AWindowTooMany(p: Pid, q: Pid, a: AttemptId, b: AttemptId, h: Hello, plan: Launch) returns (s: System)
    requires p != q && a != b && plan.forward.Some? && plan.serve
    ensures Reachable(s) && s.log == [Own(p), Own(q), Forwarded(b, p)]
    ensures b in s.attempts && s.attempts[b].launch == q
  {
    hide Reachable;
    s := ComesUp(p, a, h, plan);
    var late := Process(h, plan, [], None, None, Launching);
    var up := s.procs[p];
    s := Forwards(s, q, b, h, plan);
    s := Take(s, Connects(b));
    s := Take(s, Sends(b));
    var tried := map[a := Attempt(p, Dead)];
    assert s == System(map[p := up, q := late.(asking := Some(b))], tried[b := Attempt(q, Sent(p))], Some(p), [Own(p)]);
    s := ParkedThenLate(s, p, q, b);
    s := BothOpen(s, p, q, b);
  }

  lemma BothOpen(s: System, p: Pid, q: Pid, b: AttemptId) returns (u: System)
    requires Reachable(s) && p != q && IsUp(s, p) && s.procs[p].stage == Up(true, true, [b], [])
    requires Launches(s, q) && s.procs[q].asking.None? && s.procs[q].heard == [NoAnswer] && s.procs[q].plan.forward.Some?
    ensures Reachable(u) && u.log == s.log + [Own(q), Forwarded(b, p)] && u.attempts == s.attempts
  {
    hide Reachable;
    u := Take(s, OpensOwn(q));
    u := Take(u, Drains(p));
    u := Take(u, OpensNext(p));
    assert u.log == s.log + [Own(q)] + [Forwarded(b, p)];
  }

  lemma ParkedThenLate(s: System, p: Pid, q: Pid, b: AttemptId) returns (u: System)
    requires Reachable(s) && p != q && IsUp(s, p) && s.procs[p].stage == Up(true, true, [], [])
    requires Launches(s, q) && s.procs[q].asking == Some(b) && s.procs[q].heard == [] && SameProgram(s, p, q)
    requires s.procs[q].plan.forward.Some? && b in s.attempts && s.attempts[b] == Attempt(q, Sent(p))
    ensures Reachable(u) && u.log == s.log
    ensures u.procs == s.procs[p := s.procs[p].(stage := Up(true, true, [b], []))]
                              [q := s.procs[q].(asking := None, heard := [NoAnswer])]
    ensures u.attempts == s.attempts[b := Attempt(q, Parked(p))]
  {
    hide Reachable;
    u := Take(s, Greets(b, true));
    assert u == At(s, b, Greeted(p));
    u := Take(u, Parks(b));
    assert [] + [b] == [b];
    assert u.procs == s.procs[p := s.procs[p].(stage := Up(true, true, [b], []))];
    u := Take(u, GivesUp(q));
    assert [] + [NoAnswer] == [NoAnswer];
  }
}
