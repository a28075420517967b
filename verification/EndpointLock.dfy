/** The lock file behind a claim of the endpoint, on Unix: a claimant opens the file by its
    name and then locks what it opened; a server on its way out takes the name away while it
    still holds the lock, and the lock goes when its process does. Each step is one system
    call. */
module EndpointLock {
  import opened Wrappers

  type Pid = nat

  /** What a name stands for: the file itself, which outlives its name. */
  type File = nat

  /** How far a process is with its one claim; `Gone` when it holds nothing any more. */
  datatype Place =
    | Opened(file: File)
    | Holding(file: File)
    | Leaving(file: File)
    | Gone

  datatype System = System(name: Option<File>, next: File, procs: map<Pid, Place>)

  datatype Step =
    | Opens(p: Pid)
    | Locks(p: Pid)
    | Unlinks(p: Pid)
    | Ends(p: Pid)

  predicate Locked(s: System, p: Pid, f: File) {
    p in s.procs && (s.procs[p] == Holding(f) || s.procs[p] == Leaving(f))
  }

  predicate Taken(s: System, f: File) {
    exists p :: p in s.procs && Locked(s, p, f)
  }

  predicate Enabled(s: System, st: Step) {
    match st
    case Opens(p) => p !in s.procs
    case Locks(p) => p in s.procs && s.procs[p].Opened?
    case Unlinks(p) => p in s.procs && s.procs[p].Holding?
    case Ends(p) => p in s.procs
  }

  function Put(s: System, p: Pid, place: Place): System {
    s.(procs := s.procs[p := place])
  }

  function Do(s: System, st: Step): System
    requires Enabled(s, st)
  {
    match st
    case Opens(p) =>
      if s.name.Some? then Put(s, p, Opened(s.name.value))
      else Put(s, p, Opened(s.next)).(name := Some(s.next), next := s.next + 1)
    case Locks(p) => Put(s, p, if Taken(s, s.procs[p].file) then Gone else Holding(s.procs[p].file))
    case Unlinks(p) => Put(s, p, Leaving(s.procs[p].file)).(name := None)
    case Ends(p) => Put(s, p, Gone)
  }

  function Init(): System {
    System(None, 0, map[])
  }

  ghost predicate Runs(s: System, steps: seq<Step>, end: System)
    decreases |steps|
  {
    if steps == [] then s == end
    else Enabled(s, steps[0]) && Runs(Do(s, steps[0]), steps[1..], end)
  }

  ghost predicate Reachable(s: System) {
    exists steps :: Runs(Init(), steps, s)
  }

  predicate SameLock(a: Place, b: Place) {
    (a.Holding? || a.Leaving?) && (b.Holding? || b.Leaving?) && a.file == b.file
  }

  /** The lock itself is exclusive: one process at most holds it on any one file. */
  predicate Inv(s: System) {
    && (forall p, q :: p in s.procs && q in s.procs && SameLock(s.procs[p], s.procs[q]) ==> p == q)
    && (forall p :: p in s.procs && !s.procs[p].Gone? ==> s.procs[p].file < s.next)
    && (s.name.Some? ==> s.name.value < s.next)
  }

  lemma StepKeepsInv(s: System, st: Step)
    requires Inv(s) && Enabled(s, st)
    ensures Inv(Do(s, st))
  {
    if st.Locks? && !Taken(s, s.procs[st.p].file) {
      forall q | q in s.procs && !s.procs[q].Gone? && s.procs[q].file == s.procs[st.p].file
        ensures s.procs[q].Opened?
      {
        assert !Locked(s, q, s.procs[st.p].file);
      }
    }
  }

  lemma {:induction false} RunKeepsInv(s: System, steps: seq<Step>, end: System)
    requires Inv(s) && Runs(s, steps, end)
    ensures Inv(end)
    decreases |steps|
  {
    hide Inv, Do, Enabled;
    if steps != [] {
      StepKeepsInv(s, steps[0]);
      RunKeepsInv(Do(s, steps[0]), steps[1..], end);
    }
  }

  lemma ReachableInv(s: System)
    requires Reachable(s)
    ensures Inv(s)
  {
    var steps :| Runs(Init(), steps, s);
    RunKeepsInv(Init(), steps, s);
  }

  // ---- what a claim is worth ----

  /** Two processes hold the claim at once, each ready to bind the endpoint. */
  predicate Split(s: System) {
    exists p, q :: p in s.procs && q in s.procs && p != q && s.procs[p].Holding? && s.procs[q].Holding?
  }

  /** Everybody who has opened the file or holds it has the one the name stands for. */
  predicate Coherent(s: System) {
    forall p :: p in s.procs && (s.procs[p].Opened? || s.procs[p].Holding?) ==> s.name == Some(s.procs[p].file)
  }

  /** The name is taken away between another process's opening the file and its locking it. */
  predicate IllTimed(s: System, st: Step) {
    st.Unlinks? && exists q :: q in s.procs && s.procs[q].Opened?
  }

  ghost predicate Timely(s: System, steps: seq<Step>)
    decreases |steps|
  {
    steps != [] ==> !IllTimed(s, steps[0]) && (Enabled(s, steps[0]) ==> Timely(Do(s, steps[0]), steps[1..]))
  }

  /** No run from here splits the claim, as long as it takes no name away at a bad moment. */
  ghost predicate StaysWhole(s: System) {
    forall steps, end :: Runs(s, steps, end) && Timely(s, steps) ==> !Split(end)
  }

  lemma CoherentStep(s: System, st: Step)
    requires Inv(s) && Coherent(s) && Enabled(s, st) && !IllTimed(s, st)
    ensures Coherent(Do(s, st))
  {}

  lemma {:induction false} CoherentRun(s: System, steps: seq<Step>, end: System)
    requires Inv(s) && Coherent(s) && Runs(s, steps, end) && Timely(s, steps)
    ensures Inv(end) && Coherent(end) && !Split(end)
    decreases |steps|
  {
    if steps != [] {
      hide Inv, Do, Coherent, Enabled, IllTimed;
      StepKeepsInv(s, steps[0]);
      CoherentStep(s, steps[0]);
      CoherentRun(Do(s, steps[0]), steps[1..], end);
    }
  }

  /** At most one process holds the claim for as long as no server takes the name away between
      another process's two calls. */
  lemma ExclusiveWhileTimely(steps: seq<Step>, s: System)
    requires Runs(Init(), steps, s) && Timely(Init(), steps)
    ensures Coherent(s) && !Split(s) && StaysWhole(s)
  {
    hide Runs, Timely;
    CoherentRun(Init(), steps, s);
    forall more, end | Runs(s, more, end) && Timely(s, more)
      ensures !Split(end)
    {
      CoherentRun(s, more, end);
    }
  }

  /** And no longer: the one step after which two processes may come to hold it, though nothing
      more goes wrong, is such a one. */
  lemma ExclusiveExactly(s: System, st: Step)
    requires Reachable(s) && Coherent(s) && Enabled(s, st)
    ensures StaysWhole(Do(s, st)) <==> !IllTimed(s, st)
  {
    ReachableInv(s);
    StepKeepsInv(s, st);
    hide Runs, Timely, Reachable;
    if IllTimed(s, st) {
      var q :| q in s.procs && s.procs[q].Opened?;
      var steps, end := Splits(s, st.p, q);
    } else {
      CoherentStep(s, st);
      forall steps, end | Runs(Do(s, st), steps, end) && Timely(Do(s, st), steps)
        ensures !Split(end)
      {
        CoherentRun(Do(s, st), steps, end);
      }
    }
  }

  lemma FreshPid(used: set<Pid>) returns (p: Pid)
    ensures p !in used
  {
    p := 0;
    var left := used;
    while p in used
      invariant forall q :: q in used && q >= p ==> q in left
      decreases |left|
    {
      left := left - {p};
      p := p + 1;
    }
  }

  /** The server ends, the waiting claimant locks the file that has lost its name, and a third
      process makes and locks a new one. */
  lemma Splits(s: System, p: Pid, q: Pid) returns (steps: seq<Step>, end: System)
    requires Inv(s) && Coherent(s) && Enabled(s, Unlinks(p)) && q in s.procs && s.procs[q].Opened?
    ensures Runs(Do(s, Unlinks(p)), steps, end) && Timely(Do(s, Unlinks(p)), steps) && Split(end)
  {
    var r := FreshPid(s.procs.Keys);
    steps := [Ends(p), Locks(q), Opens(r), Locks(r)];
    var s0 := Do(s, Unlinks(p));
    var s1 := Do(s0, Ends(p));
    assert !Taken(s1, s.procs[q].file);
    var s2 := Do(s1, Locks(q));
    var s3 := Do(s2, Opens(r));
    assert !Taken(s3, s.next);
    end := Do(s3, Locks(r));
    assert end.procs[q].Holding? && end.procs[r].Holding?;
    assert Runs(end, [], end) && Timely(end, []);
    assert steps[3..][1..] == [] && Runs(s3, steps[3..], end) && Timely(s3, steps[3..]);
    assert steps[2..][1..] == steps[3..] && Runs(s2, steps[2..], end) && Timely(s2, steps[2..]);
    assert steps[1..][1..] == steps[2..] && Runs(s1, steps[1..], end) && Timely(s1, steps[1..]);
  }

  lemma {:induction false} RunsAppend(s: System, steps: seq<Step>, m: System, st: Step)
    requires Runs(s, steps, m) && Enabled(m, st)
    ensures Runs(s, steps + [st], Do(m, st))
    decreases |steps|
  {
    hide Enabled, Do;
    if steps == [] {
      assert [st][1..] == [] && Runs(Do(m, st), [], Do(m, st));
    } else {
      RunsAppend(Do(s, steps[0]), steps[1..], m, st);
      assert (steps + [st])[1..] == steps[1..] + [st];
    }
  }

  lemma Takes(s: System, st: Step) returns (u: System)
    requires Reachable(s) && Enabled(s, st)
    ensures Reachable(u) && u == Do(s, st)
  {
    hide Runs, Enabled, Do;
    var steps :| Runs(Init(), steps, s);
    RunsAppend(Init(), steps, s, st);
    u := Do(s, st);
  }

  lemma {:induction false} RunsOn(s: System, steps: seq<Step>, end: System)
    requires Reachable(s) && Runs(s, steps, end)
    ensures Reachable(end)
    decreases |steps|
  {
    hide Reachable, Enabled, Do;
    if steps != [] {
      var u := Takes(s, steps[0]);
      RunsOn(u, steps[1..], end);
    }
  }

  /** It happens: three processes suffice. */
  lemma TwoHolders() returns (s: System)
    ensures Reachable(s) && Split(s)
  {
    assert Runs(Init(), [], Init());
    hide Reachable, Runs, Timely, Split, Taken;
    s := Takes(Init(), Opens(0));
    NobodyHolds(s, 0);
    s := Takes(s, Locks(0));
    s := Takes(s, Opens(1));
    ReachableInv(s);
    var u := Takes(s, Unlinks(0));
    var steps, end := Splits(s, 0, 1);
    RunsOn(u, steps, end);
    s := end;
  }

  lemma NobodyHolds(s: System, f: File)
    requires forall p :: p in s.procs ==> !Locked(s, p, f)
    ensures !Taken(s, f)
  {}
}
