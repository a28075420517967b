/** The launch hand-off between processes: launchers, the endpoint they contend for, the
    running instance's connection threads and its event loop, each step one action of one of
    them. A budget that elapses is a step that may come at any time, so nothing below rests
    on how long anything takes. */
module LaunchProtocol {
  import opened Wrappers
  import opened LaunchRules

  type Pid = nat
  type AttemptId = nat

  /** The greeting: two processes are the same program exactly when these are equal. */
  datatype Hello = Hello(protocol: nat, version: string, exeLen: nat, exeMtime: nat)

  datatype Reply = Ok | Refuse(why: string) | AnotherBuild

  /** One forward: the helper thread's connection and the instance's thread serving it. */
  datatype Where =
    | Dialing
    | Connected(server: Pid)
    | Sent(server: Pid)
    | Greeted(server: Pid)
    | Parked(server: Pid)
    | Waiting(server: Pid)
    | Answered(server: Pid, reply: Reply)
    | Silent(server: Pid)
    | Dead

  datatype Attempt = Attempt(launch: Pid, at: Where)

  /** `pending` is what the endpoint's threads have parked; `taken` what the event loop has
      drained and not yet opened. */
  datatype Stage =
    | Launching
    | Up(serving: bool, looping: bool, pending: seq<AttemptId>, taken: seq<AttemptId>)
    | Over
    | Left(code: nat)

  datatype Process = Process(
    hello: Hello,
    plan: Launch,
    heard: seq<Verdict>,
    claim: Option<bool>,
    asking: Option<AttemptId>,
    stage: Stage)

  /** Something opened on a launch's behalf: in another process, or its own first window. */
  datatype Opening =
    | Forwarded(attempt: AttemptId, server: Pid)
    | Own(launch: Pid)

  /** `log` is a history: every window or tab opened, in order. */
  datatype System = System(
    procs: map<Pid, Process>,
    attempts: map<AttemptId, Attempt>,
    endpoint: Option<Pid>,
    log: seq<Opening>)

  datatype Step =
    | Start(p: Pid, hello: Hello, plan: Launch)
    | AskOut(p: Pid, a: AttemptId)
    | DialFails(a: AttemptId)
    | Connects(a: AttemptId)
    | SendFails(a: AttemptId)
    | Sends(a: AttemptId)
    | GivesUp(p: Pid)
    | Hears(p: Pid)
    | Claims(p: Pid, free: bool)
    | OpensOwn(p: Pid)
    | Leaves(p: Pid)
    | Serves(p: Pid)
    | Greets(a: AttemptId, readable: bool)
    | Unreadable(a: AttemptId)
    | Parks(a: AttemptId)
    | Wakes(a: AttemptId)
    | Relays(a: AttemptId)
    | Silences(a: AttemptId)
    | Drains(p: Pid)
    | OpensNext(p: Pid)
    | LoopEnds(p: Pid)
    | Dies(p: Pid)

  function Init(): System {
    System(map[], map[], None, [])
  }

  function NextMove(s: System, p: Pid): (m: Move)
    requires p in s.procs
  {
    Decide(s.procs[p].plan, s.procs[p].heard, s.procs[p].claim)
  }

  predicate Launches(s: System, p: Pid) {
    p in s.procs && s.procs[p].stage.Launching?
  }

  predicate IsUp(s: System, p: Pid) {
    p in s.procs && s.procs[p].stage.Up?
  }

  predicate Tried(s: System, a: AttemptId) {
    a in s.attempts
  }

  predicate OkSent(s: System, a: AttemptId, p: Pid) {
    Forwarded(a, p) in s.log
  }

  predicate Enabled(s: System, st: Step) {
    match st
    case Start(p, _, _) => p !in s.procs
    case AskOut(p, a) => Launches(s, p) && s.procs[p].asking.None? && NextMove(s, p).Ask? && a !in s.attempts
    case DialFails(a) => Tried(s, a) && s.attempts[a].at.Dialing?
    case Connects(a) => Tried(s, a) && s.attempts[a].at.Dialing? && s.endpoint.Some?
    case SendFails(a) => Tried(s, a) && s.attempts[a].at.Connected?
    case Sends(a) => Tried(s, a) && s.attempts[a].at.Connected?
    case GivesUp(p) => Launches(s, p) && s.procs[p].asking.Some?
    case Hears(p) =>
      && Launches(s, p) && s.procs[p].asking.Some? && Tried(s, s.procs[p].asking.value)
      && s.attempts[s.procs[p].asking.value].at.Answered?
    case Claims(p, free) =>
      && Launches(s, p) && s.procs[p].asking.None? && NextMove(s, p).TryClaim?
      && (free ==> s.endpoint.None?)
    case OpensOwn(p) => Launches(s, p) && s.procs[p].asking.None? && NextMove(s, p).Open?
    case Leaves(p) => Launches(s, p) && s.procs[p].asking.None? && NextMove(s, p).Leave?
    case Serves(p) => IsUp(s, p) && s.procs[p].claim == Some(true)
    case Greets(a, readable) =>
      && Tried(s, a) && s.attempts[a].at.Sent? && IsUp(s, s.attempts[a].at.server)
      && s.procs[s.attempts[a].at.server].stage.serving
    case Unreadable(a) => Tried(s, a) && s.attempts[a].at.Greeted?
    case Parks(a) => Tried(s, a) && s.attempts[a].at.Greeted? && IsUp(s, s.attempts[a].at.server)
    case Wakes(a) => Tried(s, a) && s.attempts[a].at.Parked? && IsUp(s, s.attempts[a].at.server)
    case Relays(a) => Tried(s, a) && s.attempts[a].at.Waiting? && OkSent(s, a, s.attempts[a].at.server)
    case Silences(a) => Tried(s, a) && (s.attempts[a].at.Sent? || s.attempts[a].at.Greeted? || s.attempts[a].at.Parked? || s.attempts[a].at.Waiting?)
    case Drains(p) => IsUp(s, p) && s.procs[p].stage.looping && s.procs[p].stage.taken == []
    case OpensNext(p) => IsUp(s, p) && s.procs[p].stage.looping && s.procs[p].stage.taken != []
    case LoopEnds(p) => IsUp(s, p) && s.procs[p].stage.taken == []
    case Dies(p) => IsUp(s, p) && !s.procs[p].stage.looping
  }

  predicate SameProgram(s: System, o: Pid, p: Pid) {
    o in s.procs && p in s.procs && s.procs[o].hello == s.procs[p].hello
  }

  function Puts(s: System, p: Pid, proc: Process): System {
    s.(procs := s.procs[p := proc])
  }

  function At(s: System, a: AttemptId, at: Where): System
    requires a in s.attempts
  {
    s.(attempts := s.attempts[a := s.attempts[a].(at := at)])
  }

  function InStage(s: System, p: Pid, stage: Stage): System
    requires p in s.procs
  {
    Puts(s, p, s.procs[p].(stage := stage))
  }

  /** The launcher waiting on attempt `a`, if it still is, gets the verdict. */
  function Tells(s: System, p: Pid, a: AttemptId, v: Verdict): System {
    if p in s.procs && s.procs[p].asking == Some(a) then
      Puts(s, p, s.procs[p].(asking := None, heard := s.procs[p].heard + [v]))
    else s
  }

  function VerdictOf(reply: Reply): (v: Verdict) {
    match reply
    case Ok => Opened
    case Refuse(why) => Refused(why)
    case AnotherBuild => OtherBuild
  }

  function Do(s: System, st: Step): System
    requires Enabled(s, st)
  {
    match st
    case Start(p, hello, plan) => Puts(s, p, Process(hello, plan, [], None, None, Launching))
    case AskOut(p, a) =>
      Puts(s, p, s.procs[p].(asking := Some(a))).(attempts := s.attempts[a := Attempt(p, Dialing)])
    case DialFails(a) => Tells(At(s, a, Dead), s.attempts[a].launch, a, NoInstance)
    case Connects(a) => At(s, a, Connected(s.endpoint.value))
    case SendFails(a) => Tells(At(s, a, Dead), s.attempts[a].launch, a, NoInstance)
    case Sends(a) => At(s, a, Sent(s.attempts[a].at.server))
    case GivesUp(p) => Tells(s, p, s.procs[p].asking.value, NoAnswer)
    case Hears(p) =>
      var a := s.procs[p].asking.value;
      Tells(s, p, a, VerdictOf(s.attempts[a].at.reply))
    case Claims(p, free) =>
      Puts(s, p, s.procs[p].(claim := Some(free))).(endpoint := if free then Some(p) else s.endpoint)
    case OpensOwn(p) => InStage(s, p, Up(false, true, [], [])).(log := s.log + [Own(p)])
    case Leaves(p) => InStage(s, p, Left(NextMove(s, p).code))
    case Serves(p) => InStage(s, p, s.procs[p].stage.(serving := true))
    case Greets(a, readable) =>
      var o := s.attempts[a].at.server;
      At(s, a, if readable && SameProgram(s, o, s.attempts[a].launch) then Greeted(o) else Answered(o, AnotherBuild))
    case Unreadable(a) => At(s, a, Answered(s.attempts[a].at.server, Refuse("unreadable request")))
    case Parks(a) =>
      var o := s.attempts[a].at.server;
      InStage(At(s, a, Parked(o)), o, s.procs[o].stage.(pending := s.procs[o].stage.pending + [a]))
    case Wakes(a) =>
      var o := s.attempts[a].at.server;
      At(s, a, if s.procs[o].stage.looping then Waiting(o) else Answered(o, Refuse("zesterm is exiting")))
    case Relays(a) => At(s, a, Answered(s.attempts[a].at.server, Ok))
    case Silences(a) => At(s, a, Silent(s.attempts[a].at.server))
    case Drains(p) => InStage(s, p, s.procs[p].stage.(pending := [], taken := s.procs[p].stage.pending))
    case OpensNext(p) =>
      var stage := s.procs[p].stage;
      InStage(s, p, stage.(taken := stage.taken[1..])).(log := s.log + [Forwarded(stage.taken[0], p)])
    case LoopEnds(p) => InStage(s, p, s.procs[p].stage.(looping := false))
    case Dies(p) => InStage(s, p, Over).(endpoint := if s.endpoint == Some(p) then None else s.endpoint)
  }

  ghost predicate Runs(s: System, steps: seq<Step>, end: System)
    decreases |steps|
  {
    if steps == [] then s == end
    else Enabled(s, steps[0]) && Runs(Do(s, steps[0]), steps[1..], end)
  }

  ghost predicate Reachable(s: System) {
    exists steps :: Runs(Init(), steps, s)
  }

  // ---- the invariant ----

  predicate Distinct<T(==)>(s: seq<T>) {
    forall i, j :: 0 <= i < j < |s| ==> s[i] != s[j]
  }

  /** A request the instance has accepted, and not yet opened or forgotten. */
  predicate Held(at: Where, o: Pid) {
    (at.Parked? || at.Waiting? || at.Answered? || at.Silent?) && at.server == o
  }

  function Queue(stage: Stage): (q: seq<AttemptId>) {
    if stage.Up? then stage.pending + stage.taken else []
  }

  /** One attempt: what got past the greeting came from the same program, and `Ok` is written
      only for what the log says was opened. */
  predicate AttemptOk(s: System, a: AttemptId)
    requires a in s.attempts
  {
    var at := s.attempts[a].at;
    && s.attempts[a].launch in s.procs
    && (at.Greeted? || at.Parked? || at.Waiting? ==> SameProgram(s, at.server, s.attempts[a].launch))
    && (at.Answered? && at.reply.Ok? ==> SameProgram(s, at.server, s.attempts[a].launch) && OkSent(s, a, at.server))
    && (at.Answered? && !at.reply.AnotherBuild? ==> SameProgram(s, at.server, s.attempts[a].launch))
  }

  /** One entry of the log that another process opened. */
  predicate LogOk(s: System, o: Opening) {
    match o
    case Own(p) => p in s.procs && (s.procs[p].stage.Up? || s.procs[p].stage.Over?)
    case Forwarded(a, p) =>
      && a in s.attempts && Held(s.attempts[a].at, p) && SameProgram(s, p, s.attempts[a].launch)
      && !(s.attempts[a].at.Answered? && s.attempts[a].at.reply.AnotherBuild?)
  }

  /** One queued request: held by the process it is queued in, and not opened before. */
  predicate QueuedOk(s: System, p: Pid, a: AttemptId) {
    && a in s.attempts && Held(s.attempts[a].at, p) && SameProgram(s, p, s.attempts[a].launch)
    && !OkSent(s, a, p)
    && !(s.attempts[a].at.Answered? && s.attempts[a].at.reply.AnotherBuild?)
  }

  predicate QueueOk(s: System, p: Pid)
    requires p in s.procs
  {
    && Distinct(Queue(s.procs[p].stage))
    && forall a :: a in Queue(s.procs[p].stage) ==> QueuedOk(s, p, a)
  }

  /** An attempt that may still reach an instance, or has. */
  predicate Live(s: System, p: Pid, a: AttemptId) {
    a in s.attempts && s.attempts[a].launch == p && !s.attempts[a].at.Dead?
  }

  /** The process has done what its verdicts and its claim told it to. */
  predicate ProcessOk(s: System, p: Pid)
    requires p in s.procs
  {
    var proc := s.procs[p];
    && Asked(proc.plan, proc.heard, proc.claim)
    && (proc.stage.Launching? || proc.asking.None?)
    && (proc.asking.Some? ==> NextMove(s, p).Ask? && proc.asking.value in s.attempts && s.attempts[proc.asking.value].launch == p)
    && (proc.stage.Left? ==> NextMove(s, p) == Leave(proc.stage.code))
    && (proc.stage.Up? || proc.stage.Over? ==> NextMove(s, p).Open? && Own(p) in s.log)
    && (proc.stage.Up? && proc.stage.serving ==> proc.claim == Some(true))
    && (s.endpoint == Some(p) <==> proc.claim == Some(true) && !proc.stage.Over?)
    && (proc.claim == Some(true) ==> NextMove(s, p) == Open(true))
  }

  /** Of a launch's attempts at most one is live, and which it is follows from the last
      verdict. */
  ghost predicate LiveOk(s: System, p: Pid)
    requires p in s.procs
  {
    var proc := s.procs[p];
    if proc.asking.Some? then forall a :: Live(s, p, a) ==> a == proc.asking.value
    else if proc.heard == [] || proc.heard[|proc.heard| - 1] == NoInstance then forall a :: !Live(s, p, a)
    else
      && (forall a, b :: Live(s, p, a) && Live(s, p, b) ==> a == b)
      && (proc.heard[|proc.heard| - 1] == Opened ==> exists a :: Live(s, p, a) && HasOk(s, a))
      && (proc.heard[|proc.heard| - 1] == OtherBuild ==> forall a :: Live(s, p, a) ==> WasOther(s, a))
  }

  predicate HasOk(s: System, a: AttemptId) {
    a in s.attempts && s.attempts[a].at.Answered? && s.attempts[a].at.reply.Ok?
  }

  predicate WasOther(s: System, a: AttemptId) {
    a in s.attempts && s.attempts[a].at.Answered? && s.attempts[a].at.reply.AnotherBuild?
  }

  ghost predicate Inv(s: System) {
    && (s.endpoint.Some? ==> s.endpoint.value in s.procs)
    && (forall a :: a in s.attempts ==> AttemptOk(s, a))
    && (forall o :: o in s.log ==> LogOk(s, o))
    && Distinct(s.log)
    && (forall p :: p in s.procs ==> QueueOk(s, p))
    && (forall p :: p in s.procs ==> ProcessOk(s, p))
    && (forall p :: p in s.procs ==> LiveOk(s, p))
  }

  lemma InitInv()
    ensures Inv(Init())
  {}

  // ---- what no step takes back ----

  ghost predicate ProcGrows(s: System, u: System, p: Pid) {
    p in s.procs ==>
      && p in u.procs && u.procs[p].hello == s.procs[p].hello
      && (s.procs[p].stage.Up? || s.procs[p].stage.Over? ==> u.procs[p].stage.Up? || u.procs[p].stage.Over?)
  }

  ghost predicate AttemptGrows(s: System, u: System, a: AttemptId) {
    a in s.attempts ==>
      && a in u.attempts && u.attempts[a].launch == s.attempts[a].launch
      && (forall p :: Held(s.attempts[a].at, p) ==> Held(u.attempts[a].at, p))
      && (u.attempts[a].at.Answered? && u.attempts[a].at.reply.AnotherBuild? ==>
            s.attempts[a].at == u.attempts[a].at || s.attempts[a].at.Sent?)
  }

  ghost predicate Grows(s: System, u: System) {
    && (forall p :: ProcGrows(s, u, p))
    && (forall a :: AttemptGrows(s, u, a))
    && (forall o :: o in s.log ==> o in u.log)
  }

  lemma FrameLog(s: System, u: System)
    requires Inv(s) && Grows(s, u)
    ensures forall o :: o in s.log ==> LogOk(u, o)
    ensures forall a :: a in s.attempts && a in u.attempts && u.attempts[a] == s.attempts[a] ==> AttemptOk(u, a)
  {
    hide QueueOk, ProcessOk, LiveOk, Distinct, Grows, AttemptOk, LogOk;
    forall o | o in s.log
      ensures LogOk(u, o)
    {
      FrameOpening(s, u, o);
    }
    forall a | a in s.attempts && a in u.attempts && u.attempts[a] == s.attempts[a]
      ensures AttemptOk(u, a)
    {
      FrameAttempt(s, u, a);
    }
  }

  lemma FrameOpening(s: System, u: System, o: Opening)
    requires LogOk(s, o) && Grows(s, u)
    ensures LogOk(u, o)
  {
    match o
    case Own(p) => assert ProcGrows(s, u, p);
    case Forwarded(a, p) =>
      assert AttemptGrows(s, u, a) && ProcGrows(s, u, p) && ProcGrows(s, u, s.attempts[a].launch);
  }

  lemma FrameAttempt(s: System, u: System, a: AttemptId)
    requires Grows(s, u) && a in s.attempts && a in u.attempts && u.attempts[a] == s.attempts[a] && AttemptOk(s, a)
    ensures AttemptOk(u, a)
  {
    assert ProcGrows(s, u, s.attempts[a].launch);
    var at := s.attempts[a].at;
    if at.Greeted? || at.Parked? || at.Waiting? || at.Answered? {
      assert ProcGrows(s, u, at.server);
    }
  }

  lemma FrameQueue(s: System, u: System, p: Pid)
    requires Grows(s, u) && p in s.procs && p in u.procs && QueueOk(s, p)
    requires Queue(u.procs[p].stage) == Queue(s.procs[p].stage)
    requires forall a :: a in Queue(s.procs[p].stage) && OkSent(u, a, p) ==> OkSent(s, a, p)
    ensures QueueOk(u, p)
  {
    forall a | a in Queue(u.procs[p].stage)
      ensures QueuedOk(u, p, a)
    {
      assert QueuedOk(s, p, a) && AttemptGrows(s, u, a) && ProcGrows(s, u, p) && ProcGrows(s, u, s.attempts[a].launch);
    }
  }

  lemma FrameProcess(s: System, u: System, p: Pid)
    requires Grows(s, u) && p in s.procs && p in u.procs && ProcessOk(s, p)
    requires u.procs[p] == s.procs[p] && (u.endpoint == Some(p) <==> s.endpoint == Some(p))
    ensures ProcessOk(u, p)
  {
    if s.procs[p].asking.Some? {
      assert AttemptGrows(s, u, s.procs[p].asking.value);
    }
  }

  ghost predicate SameLive(s: System, u: System, p: Pid, a: AttemptId) {
    && (Live(u, p, a) <==> Live(s, p, a))
    && (HasOk(s, a) ==> HasOk(u, a))
    && (WasOther(s, a) ==> WasOther(u, a))
  }

  lemma FrameLive(s: System, u: System, p: Pid)
    requires p in s.procs && p in u.procs && LiveOk(s, p)
    requires u.procs[p].asking == s.procs[p].asking && u.procs[p].heard == s.procs[p].heard
    requires forall a :: SameLive(s, u, p, a)
    ensures LiveOk(u, p)
  {
    hide HasOk, WasOther, Live;
    forall a | Live(u, p, a)
      ensures Live(s, p, a) && (WasOther(s, a) ==> WasOther(u, a))
    {
      assert SameLive(s, u, p, a);
    }
    if s.procs[p].asking.None? && s.procs[p].heard != [] && s.procs[p].heard[|s.procs[p].heard| - 1] == Opened {
      var a :| Live(s, p, a) && HasOk(s, a);
      assert SameLive(s, u, p, a);
    }
  }

  /** Steps that touch one attempt and nothing else. */
  lemma KeepsAttempt(s: System, a: AttemptId, to: Where)
    requires Inv(s) && a in s.attempts
    requires var from := s.attempts[a].at;
      && !from.Dead? && !from.Answered? && !to.Dead? && (forall p :: Held(from, p) ==> Held(to, p))
      && (to.Answered? && to.reply.AnotherBuild? ==> from.Sent?)
    requires AttemptOk(At(s, a, to), a)
    ensures Inv(At(s, a, to))
  {
    hide AttemptOk, LogOk, QueueOk, ProcessOk, LiveOk, Distinct;
    var u := At(s, a, to);
    assert Grows(s, u);
    FrameLog(s, u);
    forall p | p in s.procs
      ensures QueueOk(u, p) && ProcessOk(u, p) && LiveOk(u, p)
    {
      FrameQueue(s, u, p);
      FrameProcess(s, u, p);
      assert forall b :: SameLive(s, u, p, b);
      FrameLive(s, u, p);
    }
  }

  /** Steps that touch one process's stage, and perhaps write its own window in the log. */
  lemma KeepsStage(s: System, p: Pid, u: System)
    requires Inv(s) && p in s.procs && p in u.procs && u == s.(procs := u.procs, endpoint := u.endpoint, log := u.log)
    requires u.procs == s.procs[p := s.procs[p].(stage := u.procs[p].stage)]
    requires Grows(s, u) && QueueOk(u, p) && ProcessOk(u, p)
    requires forall q :: q != p ==> (u.endpoint == Some(q) <==> s.endpoint == Some(q))
    requires u.log == s.log || (u.log == s.log + [Own(p)] && Own(p) !in s.log && LogOk(u, Own(p)))
    ensures Inv(u)
  {
    hide AttemptOk, LogOk, QueueOk, ProcessOk, LiveOk, Grows;
    FrameLog(s, u);
    assert forall a :: a in s.attempts ==> AttemptOk(u, a);
    forall q | q in s.procs
      ensures QueueOk(u, q) && ProcessOk(u, q) && LiveOk(u, q)
    {
      if q != p {
        FrameQueue(s, u, q);
        FrameProcess(s, u, q);
      }
      assert forall b :: SameLive(s, u, q, b);
      FrameLive(s, u, q);
    }
  }

  // ---- each step keeps it ----

  lemma KeepsConnects(s: System, a: AttemptId)
    requires Inv(s) && Enabled(s, Connects(a))
    ensures Inv(Do(s, Connects(a)))
  {
    hide LogOk, QueueOk, ProcessOk, LiveOk, Distinct;
    assert AttemptOk(s, a);
    KeepsAttempt(s, a, Connected(s.endpoint.value));
  }

  lemma KeepsSends(s: System, a: AttemptId)
    requires Inv(s) && Enabled(s, Sends(a))
    ensures Inv(Do(s, Sends(a)))
  {
    hide LogOk, QueueOk, ProcessOk, LiveOk, Distinct;
    assert AttemptOk(s, a);
    KeepsAttempt(s, a, Sent(s.attempts[a].at.server));
  }

  lemma KeepsUnreadable(s: System, a: AttemptId)
    requires Inv(s) && Enabled(s, Unreadable(a))
    ensures Inv(Do(s, Unreadable(a)))
  {
    hide LogOk, QueueOk, ProcessOk, LiveOk, Distinct;
    assert AttemptOk(s, a);
    KeepsAttempt(s, a, Answered(s.attempts[a].at.server, Refuse("unreadable request")));
  }

  lemma KeepsRelays(s: System, a: AttemptId)
    requires Inv(s) && Enabled(s, Relays(a))
    ensures Inv(Do(s, Relays(a)))
  {
    hide LogOk, QueueOk, ProcessOk, LiveOk, Distinct;
    assert AttemptOk(s, a);
    KeepsAttempt(s, a, Answered(s.attempts[a].at.server, Ok));
  }

  lemma KeepsSilences(s: System, a: AttemptId)
    requires Inv(s) && Enabled(s, Silences(a))
    ensures Inv(Do(s, Silences(a)))
  {
    hide LogOk, QueueOk, ProcessOk, LiveOk, Distinct;
    assert AttemptOk(s, a);
    KeepsAttempt(s, a, Silent(s.attempts[a].at.server));
  }

  lemma KeepsGreets(s: System, a: AttemptId, readable: bool)
    requires Inv(s) && Enabled(s, Greets(a, readable))
    ensures Inv(Do(s, Greets(a, readable)))
  {
    hide LogOk, QueueOk, ProcessOk, LiveOk, Distinct;
    assert AttemptOk(s, a);
    KeepsAttempt(s, a, Do(s, Greets(a, readable)).attempts[a].at);
  }

  lemma KeepsWakes(s: System, a: AttemptId)
    requires Inv(s) && Enabled(s, Wakes(a))
    ensures Inv(Do(s, Wakes(a)))
  {
    hide LogOk, QueueOk, ProcessOk, LiveOk, Distinct;
    assert AttemptOk(s, a);
    KeepsAttempt(s, a, Do(s, Wakes(a)).attempts[a].at);
  }

  lemma KeepsServes(s: System, p: Pid)
    requires Inv(s) && Enabled(s, Serves(p))
    ensures Inv(Do(s, Serves(p)))
  {
    hide AttemptOk, LiveOk;
    var u := Do(s, Serves(p));
    assert QueueOk(s, p) && ProcessOk(s, p);
    assert Grows(s, u);
    assert Queue(u.procs[p].stage) == Queue(s.procs[p].stage);
    KeepsStage(s, p, u);
  }

  lemma KeepsDrains(s: System, p: Pid)
    requires Inv(s) && Enabled(s, Drains(p))
    ensures Inv(Do(s, Drains(p)))
  {
    hide AttemptOk, LiveOk, LogOk, QueueOk, Distinct;
    var u := Do(s, Drains(p));
    assert Queue(u.procs[p].stage) == Queue(s.procs[p].stage);
    assert QueueOk(s, p) && ProcessOk(s, p);
    assert Grows(s, u);
    FrameQueue(s, u, p);
    KeepsStage(s, p, u);
  }

  lemma KeepsLoopEnds(s: System, p: Pid)
    requires Inv(s) && Enabled(s, LoopEnds(p))
    ensures Inv(Do(s, LoopEnds(p)))
  {
    hide AttemptOk, LiveOk;
    var u := Do(s, LoopEnds(p));
    assert QueueOk(s, p) && ProcessOk(s, p);
    assert Grows(s, u);
    assert Queue(u.procs[p].stage) == Queue(s.procs[p].stage);
    KeepsStage(s, p, u);
  }

  lemma KeepsDies(s: System, p: Pid)
    requires Inv(s) && Enabled(s, Dies(p))
    ensures Inv(Do(s, Dies(p)))
  {
    hide AttemptOk, LiveOk;
    var u := Do(s, Dies(p));
    assert QueueOk(s, p) && ProcessOk(s, p);
    assert Grows(s, u);
    KeepsStage(s, p, u);
  }

  lemma KeepsLeaves(s: System, p: Pid)
    requires Inv(s) && Enabled(s, Leaves(p))
    ensures Inv(Do(s, Leaves(p)))
  {
    hide AttemptOk, LiveOk;
    var u := Do(s, Leaves(p));
    assert QueueOk(s, p) && ProcessOk(s, p);
    assert Grows(s, u);
    KeepsStage(s, p, u);
  }

  lemma KeepsOpensOwn(s: System, p: Pid)
    requires Inv(s) && Enabled(s, OpensOwn(p))
    ensures Inv(Do(s, OpensOwn(p)))
  {
    hide AttemptOk, LiveOk;
    var u := Do(s, OpensOwn(p));
    assert QueueOk(s, p) && ProcessOk(s, p);
    assert Grows(s, u);
    assert Own(p) in u.log;
    assert forall o :: o in s.log ==> LogOk(s, o);
    KeepsStage(s, p, u);
  }

  lemma KeepsStart(s: System, p: Pid, hello: Hello, plan: Launch)
    requires Inv(s) && Enabled(s, Start(p, hello, plan))
    ensures Inv(Do(s, Start(p, hello, plan)))
  {
    hide LogOk;
    var u := Do(s, Start(p, hello, plan));
    assert Grows(s, u);
    FrameLog(s, u);
    assert forall a :: !Live(u, p, a) by {
      assert forall a :: a in s.attempts ==> AttemptOk(s, a);
    }
    hide AttemptOk, QueueOk, ProcessOk, LiveOk, Grows, Distinct;
    forall q | q in s.procs
      ensures QueueOk(u, q) && ProcessOk(u, q) && LiveOk(u, q)
    {
      FrameQueue(s, u, q);
      FrameProcess(s, u, q);
      assert forall b :: SameLive(s, u, q, b);
      FrameLive(s, u, q);
    }
    StartOk(u, p);
  }

  lemma StartOk(u: System, p: Pid)
    requires p in u.procs && u.procs[p].heard == [] && u.procs[p].claim.None? && u.procs[p].asking.None? && u.procs[p].stage.Launching?
    requires u.endpoint != Some(p) && forall a :: !Live(u, p, a)
    ensures QueueOk(u, p) && ProcessOk(u, p) && LiveOk(u, p)
  {}

  lemma KeepsClaims(s: System, p: Pid, free: bool)
    requires Inv(s) && Enabled(s, Claims(p, free))
    ensures Inv(Do(s, Claims(p, free)))
  {
    hide LogOk, AttemptOk, QueueOk, LiveOk, Distinct;
    var u := Do(s, Claims(p, free));
    assert Grows(s, u);
    FrameLog(s, u);
    assert ProcessOk(s, p);
    AskedExactly(s.procs[p].plan, s.procs[p].heard, s.procs[p].claim);
    AskedExactly(s.procs[p].plan, s.procs[p].heard, Some(free));
    assert ProcessOk(u, p);
    hide ProcessOk, Grows;
    forall q | q in s.procs
      ensures QueueOk(u, q) && ProcessOk(u, q) && LiveOk(u, q)
    {
      FrameQueue(s, u, q);
      if q != p {
        FrameProcess(s, u, q);
      }
      assert forall b :: SameLive(s, u, q, b);
      FrameLive(s, u, q);
    }
  }

  lemma KeepsAskOut(s: System, p: Pid, a: AttemptId)
    requires Inv(s) && Enabled(s, AskOut(p, a))
    ensures Inv(Do(s, AskOut(p, a)))
  {
    hide LogOk, AttemptOk, QueueOk, Distinct, ProcessOk, LiveOk, Grows;
    var u := Do(s, AskOut(p, a));
    AskOutLocal(s, p, a, u);
    FrameLog(s, u);
    assert forall b :: b in s.attempts ==> AttemptOk(u, b);
    forall q | q in s.procs
      ensures QueueOk(u, q) && ProcessOk(u, q) && LiveOk(u, q)
    {
      FrameQueue(s, u, q);
      if q != p {
        FrameProcess(s, u, q);
        assert forall b :: SameLive(s, u, q, b);
        FrameLive(s, u, q);
      }
    }
  }

  lemma AskOutLocal(s: System, p: Pid, a: AttemptId, u: System)
    requires Enabled(s, AskOut(p, a)) && u == Do(s, AskOut(p, a)) && ProcessOk(s, p) && LiveOk(s, p)
    ensures Grows(s, u) && AttemptOk(u, a) && ProcessOk(u, p) && LiveOk(u, p)
  {
    assert forall b :: Live(u, p, b) ==> b == a || Live(s, p, b);
  }

  /** A launcher hears a verdict; the attempt it was waiting on may change with it. */
  lemma KeepsTold(s: System, p: Pid, a: AttemptId, to: Where, v: Verdict)
    requires Inv(s)
    requires p in s.procs && s.procs[p].asking == Some(a)
    requires a in s.attempts && (to == s.attempts[a].at || (to.Dead? && forall q :: !Held(s.attempts[a].at, q)))
    requires v.NoInstance? ==> to.Dead?
    requires v.Opened? ==> to.Answered? && to.reply.Ok?
    requires v.OtherBuild? ==> to.Answered? && to.reply.AnotherBuild?
    ensures Inv(Tells(At(s, a, to), p, a, v))
  {
    hide LogOk, AttemptOk, QueueOk, Distinct, ProcessOk, LiveOk, Grows;
    var u := Tells(At(s, a, to), p, a, v);
    ToldAttempt(s, p, a, to, v);
    FrameLog(s, u);
    assert forall b :: b in s.attempts ==> AttemptOk(u, b);
    ToldProcess(s, p, a, to, v);
    ToldLive(s, p, a, to, v);
    if s.attempts[a].at.Answered? {
      assert Held(s.attempts[a].at, s.attempts[a].at.server);
    }
    forall q | q in s.procs
      ensures QueueOk(u, q) && ProcessOk(u, q) && LiveOk(u, q)
    {
      FrameQueue(s, u, q);
      if q != p {
        FrameProcess(s, u, q);
        assert forall b :: SameLive(s, u, q, b);
        FrameLive(s, u, q);
      }
    }
  }

  lemma ToldAttempt(s: System, p: Pid, a: AttemptId, to: Where, v: Verdict)
    requires p in s.procs && s.procs[p].asking == Some(a) && ProcessOk(s, p) && a in s.attempts && AttemptOk(s, a)
    requires to == s.attempts[a].at || (to.Dead? && forall q :: !Held(s.attempts[a].at, q))
    ensures var u := Tells(At(s, a, to), p, a, v);
      s.attempts[a].launch == p && Grows(s, u) && AttemptOk(u, a)
  {}

  lemma ToldProcess(s: System, p: Pid, a: AttemptId, to: Where, v: Verdict)
    requires p in s.procs && s.procs[p].asking == Some(a) && a in s.attempts && ProcessOk(s, p)
    ensures ProcessOk(Tells(At(s, a, to), p, a, v), p)
  {
    var heard := s.procs[p].heard;
    assert (heard + [v])[..|heard|] == heard && forall i :: 0 <= i < |heard| ==> (heard + [v])[..i] == heard[..i];
  }

  lemma ToldLive(s: System, p: Pid, a: AttemptId, to: Where, v: Verdict)
    requires p in s.procs && s.procs[p].asking == Some(a)
    requires a in s.attempts && (to == s.attempts[a].at || (to.Dead? && forall q :: !Held(s.attempts[a].at, q)))
    requires v.NoInstance? ==> to.Dead?
    requires v.Opened? ==> to.Answered? && to.reply.Ok?
    requires v.OtherBuild? ==> to.Answered? && to.reply.AnotherBuild?
    requires s.attempts[a].launch == p && LiveOk(s, p)
    ensures LiveOk(Tells(At(s, a, to), p, a, v), p)
  {
    var u := Tells(At(s, a, to), p, a, v);
    forall b | Live(u, p, b)
      ensures b == a && !to.Dead?
    {
      assert b != a ==> Live(s, p, b);
    }
    assert v.Opened? ==> Live(u, p, a) && HasOk(u, a);
  }

  /** An attempt fails after its launcher has given up on it. */
  lemma KeepsLateFailure(s: System, a: AttemptId)
    requires Inv(s) && a in s.attempts && (s.attempts[a].at.Dialing? || s.attempts[a].at.Connected?)
    requires s.attempts[a].launch in s.procs ==> s.procs[s.attempts[a].launch].asking != Some(a)
    ensures Inv(At(s, a, Dead))
  {
    hide LogOk, AttemptOk, QueueOk, ProcessOk, Distinct, Grows;
    var u := At(s, a, Dead);
    DeadAttempt(s, a);
    FrameLog(s, u);
    assert forall b :: b in s.attempts ==> AttemptOk(u, b);
    forall q | q in s.procs
      ensures QueueOk(u, q) && ProcessOk(u, q) && LiveOk(u, q)
    {
      FrameQueue(s, u, q);
      FrameProcess(s, u, q);
      LateFailureLive(s, q, a);
    }
  }

  lemma DeadAttempt(s: System, a: AttemptId)
    requires a in s.attempts && AttemptOk(s, a) && (s.attempts[a].at.Dialing? || s.attempts[a].at.Connected?)
    ensures Grows(s, At(s, a, Dead)) && AttemptOk(At(s, a, Dead), a)
  {}

  lemma LateFailureLive(s: System, q: Pid, a: AttemptId)
    requires a in s.attempts && (s.attempts[a].at.Dialing? || s.attempts[a].at.Connected?)
    requires q in s.procs && LiveOk(s, q) && (s.attempts[a].launch == q ==> s.procs[q].asking != Some(a))
    ensures LiveOk(At(s, a, Dead), q)
  {
    var u := At(s, a, Dead);
    assert forall b :: (Live(u, q, b) ==> Live(s, q, b)) && (HasOk(s, b) ==> HasOk(u, b)) && (WasOther(s, b) ==> WasOther(u, b));
    if s.procs[q].asking.None? && s.procs[q].heard != [] && s.procs[q].heard[|s.procs[q].heard| - 1] == Opened {
      var b :| Live(s, q, b) && HasOk(s, b);
      assert Live(u, q, b) && HasOk(u, b);
    }
  }

  lemma KeepsDialFails(s: System, a: AttemptId)
    requires Inv(s) && Enabled(s, DialFails(a))
    ensures Inv(Do(s, DialFails(a)))
  {
    hide LogOk, AttemptOk, QueueOk, LiveOk, ProcessOk, Distinct;
    var p := s.attempts[a].launch;
    if p in s.procs && s.procs[p].asking == Some(a) {
      KeepsTold(s, p, a, Dead, NoInstance);
    } else {
      KeepsLateFailure(s, a);
    }
  }

  lemma KeepsSendFails(s: System, a: AttemptId)
    requires Inv(s) && Enabled(s, SendFails(a))
    ensures Inv(Do(s, SendFails(a)))
  {
    hide LogOk, AttemptOk, QueueOk, LiveOk, ProcessOk, Distinct;
    var p := s.attempts[a].launch;
    if p in s.procs && s.procs[p].asking == Some(a) {
      KeepsTold(s, p, a, Dead, NoInstance);
    } else {
      KeepsLateFailure(s, a);
    }
  }

  lemma KeepsGivesUp(s: System, p: Pid)
    requires Inv(s) && Enabled(s, GivesUp(p))
    ensures Inv(Do(s, GivesUp(p)))
  {
    hide LogOk, AttemptOk, QueueOk, LiveOk, Distinct;
    var a := s.procs[p].asking.value;
    assert ProcessOk(s, p);
    assert At(s, a, s.attempts[a].at) == s;
    KeepsTold(s, p, a, s.attempts[a].at, NoAnswer);
  }

  lemma KeepsHears(s: System, p: Pid)
    requires Inv(s) && Enabled(s, Hears(p))
    ensures Inv(Do(s, Hears(p)))
  {
    hide LogOk, AttemptOk, QueueOk, LiveOk, ProcessOk, Distinct;
    var a := s.procs[p].asking.value;
    assert At(s, a, s.attempts[a].at) == s;
    KeepsTold(s, p, a, s.attempts[a].at, VerdictOf(s.attempts[a].at.reply));
  }

  lemma KeepsParks(s: System, a: AttemptId)
    requires Inv(s) && Enabled(s, Parks(a))
    ensures Inv(Do(s, Parks(a)))
  {
    hide LogOk, LiveOk, AttemptOk, Distinct;
    var o := s.attempts[a].at.server;
    var mid := At(s, a, Parked(o));
    ParkedAttempt(s, a);
    NotOpenedYet(s, a, o);
    KeepsAttempt(s, a, Parked(o));
    var u := Do(s, Parks(a));
    assert QueueOk(s, o) && ProcessOk(mid, o);
    assert ProcessOk(u, o);
    assert Grows(mid, u) && Grows(s, u);
    hide Grows, ProcessOk, QueueOk;
    QueueWith(s, u, o, a, |mid.procs[o].stage.pending|);
    KeepsStage(mid, o, u);
  }

  lemma ParkedAttempt(s: System, a: AttemptId)
    requires a in s.attempts && AttemptOk(s, a) && s.attempts[a].at.Greeted?
    ensures SameProgram(s, s.attempts[a].at.server, s.attempts[a].launch)
    ensures AttemptOk(At(s, a, Parked(s.attempts[a].at.server)), a)
  {}

  lemma NotOpenedYet(s: System, a: AttemptId, o: Pid)
    requires a in s.attempts && s.attempts[a].at == Greeted(o) && forall x :: x in s.log ==> LogOk(s, x)
    ensures !OkSent(s, a, o)
  {}

  lemma QueueWith(s: System, u: System, p: Pid, a: AttemptId, n: nat)
    requires p in s.procs && p in u.procs && QueueOk(s, p) && Grows(s, u) && a in s.attempts
    requires n <= |Queue(s.procs[p].stage)| && s.attempts[a].at == Greeted(p)
    requires Queue(u.procs[p].stage) == Queue(s.procs[p].stage)[..n] + [a] + Queue(s.procs[p].stage)[n..]
    requires u.attempts == s.attempts[a := s.attempts[a].(at := Parked(p))] && u.log == s.log
    requires !OkSent(s, a, p) && SameProgram(s, p, s.attempts[a].launch)
    ensures QueueOk(u, p)
  {
    var q := Queue(s.procs[p].stage);
    assert a !in q by {
      assert a in q ==> QueuedOk(s, p, a);
    }
    InsertDistinct(q, n, a);
    forall b | b in Queue(u.procs[p].stage)
      ensures QueuedOk(u, p, b)
    {
      assert b != a ==> b in q && QueuedOk(s, p, b);
      assert ProcGrows(s, u, p) && ProcGrows(s, u, s.attempts[b].launch);
    }
  }

  lemma InsertDistinct<T>(q: seq<T>, n: nat, x: T)
    requires Distinct(q) && n <= |q| && x !in q
    ensures Distinct(q[..n] + [x] + q[n..])
  {
    var r := q[..n] + [x] + q[n..];
    assert forall i :: 0 <= i < |r| ==> r[i] == if i < n then q[i] else if i == n then x else q[i - 1];
  }

  lemma KeepsOpensNext(s: System, p: Pid)
    requires Inv(s) && Enabled(s, OpensNext(p))
    ensures Inv(Do(s, OpensNext(p)))
  {
    var u := Do(s, OpensNext(p));
    var a := s.procs[p].stage.taken[0];
    hide LogOk, AttemptOk, LiveOk, ProcessOk, QueueOk, Distinct, Queue, Grows;
    OpensNextLocal(s, p, a, u);
    FrameLog(s, u);
    OpenedLog(s, u, a, p);
    assert forall b :: b in s.attempts ==> AttemptOk(u, b);
    forall r | r in s.procs
      ensures QueueOk(u, r) && ProcessOk(u, r) && LiveOk(u, r)
    {
      if r != p {
        assert forall b :: OkSent(u, b, r) ==> OkSent(s, b, r);
        FrameQueue(s, u, r);
        FrameProcess(s, u, r);
      }
      assert forall b :: SameLive(s, u, r, b);
      FrameLive(s, u, r);
    }
  }

  lemma OpenedLog(s: System, u: System, a: AttemptId, p: Pid)
    requires QueuedOk(s, p, a) && Grows(s, u) && Distinct(s.log)
    requires u.attempts == s.attempts && u.log == s.log + [Forwarded(a, p)]
    ensures LogOk(u, Forwarded(a, p)) && Distinct(u.log)
  {
    assert ProcGrows(s, u, p) && ProcGrows(s, u, s.attempts[a].launch);
  }

  lemma OpensNextLocal(s: System, p: Pid, a: AttemptId, u: System)
    requires Enabled(s, OpensNext(p)) && u == Do(s, OpensNext(p)) && a == s.procs[p].stage.taken[0]
    requires QueueOk(s, p) && ProcessOk(s, p)
    ensures QueuedOk(s, p, a) && Grows(s, u) && QueueOk(u, p) && ProcessOk(u, p)
  {
    var stage := s.procs[p].stage;
    var q, n := Queue(stage), |stage.pending|;
    assert a == q[n] && Queue(u.procs[p].stage) == q[..n] + q[n + 1..];
    QueueWithout(s, u, p, a, n);
  }

  lemma RemoveDistinct<T>(q: seq<T>, n: nat)
    requires Distinct(q) && n < |q|
    ensures Distinct(q[..n] + q[n + 1..]) && q[n] !in q[..n] + q[n + 1..]
  {
    var r := q[..n] + q[n + 1..];
    assert forall i :: 0 <= i < |r| ==> r[i] == if i < n then q[i] else q[i + 1];
  }

  lemma QueueWithout(s: System, u: System, p: Pid, a: AttemptId, n: nat)
    requires p in s.procs && p in u.procs && QueueOk(s, p) && Grows(s, u)
    requires n < |Queue(s.procs[p].stage)| && Queue(s.procs[p].stage)[n] == a
    requires Queue(u.procs[p].stage) == Queue(s.procs[p].stage)[..n] + Queue(s.procs[p].stage)[n + 1..]
    requires u.attempts == s.attempts && u.log == s.log + [Forwarded(a, p)]
    ensures QueueOk(u, p)
  {
    var q := Queue(s.procs[p].stage);
    RemoveDistinct(q, n);
    forall b | b in Queue(u.procs[p].stage)
      ensures QueuedOk(u, p, b)
    {
      assert b in q && QueuedOk(s, p, b) && b != a;
      assert ProcGrows(s, u, p) && ProcGrows(s, u, s.attempts[b].launch);
    }
  }

  // ---- every run ----

  lemma StepKeepsInv(s: System, st: Step)
    requires Inv(s) && Enabled(s, st)
    ensures Inv(Do(s, st))
  {
    hide Inv, Do, Enabled;
    match st
    case Start(p, hello, plan) => KeepsStart(s, p, hello, plan);
    case AskOut(p, a) => KeepsAskOut(s, p, a);
    case DialFails(a) => KeepsDialFails(s, a);
    case Connects(a) => KeepsConnects(s, a);
    case SendFails(a) => KeepsSendFails(s, a);
    case Sends(a) => KeepsSends(s, a);
    case GivesUp(p) => KeepsGivesUp(s, p);
    case Hears(p) => KeepsHears(s, p);
    case Claims(p, free) => KeepsClaims(s, p, free);
    case OpensOwn(p) => KeepsOpensOwn(s, p);
    case Leaves(p) => KeepsLeaves(s, p);
    case Serves(p) => KeepsServes(s, p);
    case Greets(a, readable) => KeepsGreets(s, a, readable);
    case Unreadable(a) => KeepsUnreadable(s, a);
    case Parks(a) => KeepsParks(s, a);
    case Wakes(a) => KeepsWakes(s, a);
    case Relays(a) => KeepsRelays(s, a);
    case Silences(a) => KeepsSilences(s, a);
    case Drains(p) => KeepsDrains(s, p);
    case OpensNext(p) => KeepsOpensNext(s, p);
    case LoopEnds(p) => KeepsLoopEnds(s, p);
    case Dies(p) => KeepsDies(s, p);
  }

  lemma {:induction false} RunKeepsInv(s: System, steps: seq<Step>, end: System)
    requires Inv(s) && Runs(s, steps, end)
    ensures Inv(end)
    decreases |steps|
  {
    hide Inv, Do, Enabled;
    if steps != [] {
      StepKeepsInv(s, steps[0]);
      RunKeepsInv(Do(s, steps[0]), steps[1..], end);
    }
  }

  lemma ReachableInv(s: System)
    requires Reachable(s)
    ensures Inv(s)
  {
    hide Inv, Runs;
    var steps: seq<Step> :| Runs(Init(), steps, s);
    InitInv();
    RunKeepsInv(Init(), steps, s);
  }

  lemma {:induction false} RunExtends(s: System, steps: seq<Step>, end: System, st: Step)
    requires Runs(s, steps, end) && Enabled(end, st)
    ensures Runs(s, steps + [st], Do(end, st))
    decreases |steps|
  {
    hide Do, Enabled;
    if steps == [] {
      assert [st][1..] == [];
      assert Runs(Do(end, st), [], Do(end, st));
    } else {
      RunExtends(Do(s, steps[0]), steps[1..], end, st);
      assert (steps + [st])[1..] == steps[1..] + [st];
    }
  }

  lemma ReachableExtends(s: System, st: Step)
    requires Reachable(s) && Enabled(s, st)
    ensures Reachable(Do(s, st))
  {
    hide Do, Enabled, Runs;
    var steps: seq<Step> :| Runs(Init(), steps, s);
    RunExtends(Init(), steps, s, st);
  }
}
