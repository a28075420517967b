/** The change latch between the fleet's writers, the event loop and the supervisor: each
    step is one atomic operation of `mark_changed`, `take_changed` or the supervisor's wait.
    Not every write of the shared state is announced by `mark_changed`. */
module FleetLatch {

  /** Where a writer stands in "write the state, then `mark_changed`". */
  datatype Pc = Idle | Wrote | Rang | Won

  /** `log` is every completed write, in order, with whether it is one that is announced;
      `painted` and `reconciled` say how many of them the last repaint and the last reconcile
      saw; `posted` and `taken` count wakeups. */
  datatype System = System(
    writers: seq<Pc>,
    log: seq<bool>,
    dirty: bool,
    queue: nat,
    marked: bool,
    painted: nat,
    bell: bool,
    woken: bool,
    reconciled: nat,
    posted: nat,
    taken: nat)

  datatype Step =
    | Write(t: nat, announced: bool)
    | Ring(t: nat)
    | Swap(t: nat)
    | Post(t: nat)
    | Take
    | Paint
    | Wake(ring: bool)
    | Reconcile

  predicate Stands(s: System, t: nat, pc: Pc) {
    t < |s.writers| && s.writers[t] == pc
  }

  predicate Enabled(s: System, st: Step) {
    match st
    case Write(t, _) => Stands(s, t, Idle)
    case Ring(t) => Stands(s, t, Wrote)
    case Swap(t) => Stands(s, t, Rang)
    case Post(t) => Stands(s, t, Won)
    case Take => s.queue > 0
    case Paint => true
    case Wake(ring) => !s.woken && (ring ==> s.bell)
    case Reconcile => s.woken
  }

  function Do(s: System, st: Step): System
    requires Enabled(s, st)
  {
    match st
    case Write(t, announced) =>
      s.(writers := s.writers[t := if announced then Wrote else Idle], log := s.log + [announced])
    case Ring(t) => s.(writers := s.writers[t := Rang], bell := true)
    case Swap(t) => s.(writers := s.writers[t := if s.dirty then Idle else Won], dirty := true)
    case Post(t) => s.(writers := s.writers[t := Idle], queue := s.queue + 1, posted := s.posted + 1)
    case Take => s.(queue := s.queue - 1, taken := s.taken + 1, dirty := false, marked := s.marked || s.dirty)
    case Paint => s.(marked := false, painted := |s.log|)
    case Wake(ring) => s.(woken := true, bell := s.bell && !ring)
    case Reconcile => s.(woken := false, reconciled := |s.log|)
  }

  /** The supervisor reconciles once before it first waits. */
  function Init(writers: nat): System {
    System(seq(writers, _ => Idle), [], false, 0, false, 0, false, true, 0, 0, 0)
  }

  ghost predicate Runs(s: System, steps: seq<Step>, end: System)
    decreases |steps|
  {
    if steps == [] then s == end
    else Enabled(s, steps[0]) && Runs(Do(s, steps[0]), steps[1..], end)
  }

  ghost predicate Reachable(s: System) {
    exists writers: nat, steps: seq<Step> :: Runs(Init(writers), steps, s)
  }

  // ---- the invariant ----

  predicate NoneWon(s: System) {
    forall t :: 0 <= t < |s.writers| ==> s.writers[t] != Won
  }

  predicate OnlyWon(s: System, t: int) {
    0 <= t < |s.writers| && s.writers[t] == Won && forall v :: 0 <= v < |s.writers| && v != t ==> s.writers[v] != Won
  }

  ghost predicate OneWon(s: System) {
    exists t :: OnlyWon(s, t)
  }

  predicate AnyAt(s: System, pc: Pc) {
    exists t :: 0 <= t < |s.writers| && s.writers[t] == pc
  }

  /** A write of number `from` or later is announced. */
  predicate Announced(log: seq<bool>, from: nat) {
    exists i :: from <= i < |log| && log[i]
  }

  /** The latch is set exactly while one wakeup is on its way: claimed and not yet posted, or
      posted and not yet taken. */
  ghost predicate OneOnTheWay(s: System) {
    if s.dirty then (s.queue == 0 && OneWon(s)) || (s.queue == 1 && NoneWon(s))
    else s.queue == 0 && NoneWon(s)
  }

  predicate NothingUnseen(s: System) {
    && s.painted <= |s.log|
    && (Announced(s.log, s.painted) ==> s.marked || s.dirty || AnyAt(s, Wrote) || AnyAt(s, Rang))
  }

  predicate NothingUnreconciled(s: System) {
    s.reconciled <= |s.log| && (Announced(s.log, s.reconciled) ==> s.bell || s.woken || AnyAt(s, Wrote))
  }

  ghost predicate Inv(s: System) {
    && OneOnTheWay(s) && NothingUnseen(s) && NothingUnreconciled(s)
    && s.posted == s.taken + s.queue
  }

  lemma AnnouncedMore(log: seq<bool>, announced: bool, from: nat)
    requires from <= |log|
    ensures Announced(log + [announced], from) <==> announced || Announced(log, from)
  {
    var more := log + [announced];
    if announced {
      assert more[|log|];
    } else if Announced(log, from) {
      var i :| from <= i < |log| && log[i];
      assert more[i];
    }
  }

  lemma StepKeepsInv(s: System, st: Step)
    requires Inv(s) && Enabled(s, st)
    ensures Inv(Do(s, st))
  {
    var u := Do(s, st);
    KeepsOneOnTheWay(s, st);
    if AnyAt(s, Wrote) {
      var t :| 0 <= t < |s.writers| && s.writers[t] == Wrote;
      assert st == Ring(t) || u.writers[t] == Wrote;
    }
    if AnyAt(s, Rang) {
      var t :| 0 <= t < |s.writers| && s.writers[t] == Rang;
      assert st == Swap(t) || u.writers[t] == Rang;
    }
    if st.Write? {
      AnnouncedMore(s.log, st.announced, s.painted);
      AnnouncedMore(s.log, st.announced, s.reconciled);
      assert u.writers[st.t] == if st.announced then Wrote else Idle;
    } else if st.Ring? {
      assert u.writers[st.t] == Rang;
    }
  }

  /** Nobody else's place changes. */
  lemma MovesOne(s: System, t: nat, pc: Pc)
    requires t < |s.writers|
    ensures var u := s.(writers := s.writers[t := pc]);
      && (pc != Won && s.writers[t] != Won ==> (NoneWon(s) ==> NoneWon(u)) && (OneWon(s) ==> OneWon(u)))
      && (pc == Won && NoneWon(s) ==> OneWon(u))
      && (pc != Won && s.writers[t] == Won && OneWon(s) ==> NoneWon(u))
  {
    var u := s.(writers := s.writers[t := pc]);
    assert forall v :: 0 <= v < |s.writers| && v != t ==> u.writers[v] == s.writers[v];
    if pc == Won && NoneWon(s) {
      assert OnlyWon(u, t);
    } else if OneWon(s) {
      var w :| OnlyWon(s, w);
      assert pc != Won && w != t ==> OnlyWon(u, w);
    }
  }

  lemma WritersDecide(s: System, u: System)
    requires u.writers == s.writers
    ensures (NoneWon(s) <==> NoneWon(u)) && (OneWon(s) <==> OneWon(u))
  {
    assert forall t :: OnlyWon(s, t) <==> OnlyWon(u, t);
  }

  lemma KeepsOneOnTheWay(s: System, st: Step)
    requires OneOnTheWay(s) && Enabled(s, st)
    ensures OneOnTheWay(Do(s, st))
  {
    var u := Do(s, st);
    if st.Write? || st.Ring? || st.Swap? || st.Post? {
      MovesOne(s, st.t, u.writers[st.t]);
      assert NoneWon(s) ==> s.writers[st.t] != Won;
      var moved := s.(writers := s.writers[st.t := u.writers[st.t]]);
      hide NoneWon, OneWon;
      assert moved.writers == u.writers;
      WritersDecide(moved, u);
    } else {
      hide NoneWon, OneWon;
      WritersDecide(s, u);
    }
  }

  lemma {:induction false} RunKeepsInv(s: System, steps: seq<Step>, end: System)
    requires Inv(s) && Runs(s, steps, end)
    ensures Inv(end)
    decreases |steps|
  {
    hide Inv, Do;
    if steps != [] {
      StepKeepsInv(s, steps[0]);
      RunKeepsInv(Do(s, steps[0]), steps[1..], end);
    }
  }

  lemma ReachableInv(s: System)
    requires Reachable(s)
    ensures Inv(s)
  {
    hide Runs;
    var writers: nat, steps: seq<Step> :| Runs(Init(writers), steps, s);
    RunKeepsInv(Init(writers), steps, s);
  }

  lemma {:induction false} RunsAppend(s: System, steps: seq<Step>, m: System, st: Step)
    requires Runs(s, steps, m) && Enabled(m, st)
    ensures Runs(s, steps + [st], Do(m, st))
    decreases |steps|
  {
    hide Enabled, Do;
    if steps == [] {
      assert [st][1..] == [];
      assert Runs(Do(m, st), [], Do(m, st));
    } else {
      RunsAppend(Do(s, steps[0]), steps[1..], m, st);
      assert (steps + [st])[1..] == steps[1..] + [st];
    }
  }

  lemma Takes(s: System, st: Step) returns (u: System)
    requires Reachable(s) && Enabled(s, st)
    ensures Reachable(u) && u == Do(s, st)
  {
    hide Runs, Do, Enabled;
    var writers: nat, steps: seq<Step> :| Runs(Init(writers), steps, s);
    RunsAppend(Init(writers), steps, s, st);
    u := Do(s, st);
  }

  // ---- what it gives ----

  /** At most one wakeup is ever on its way, and none is ever taken for nothing: whoever takes
      one finds the latch set. */
  lemma NothingRepeated(s: System)
    requires Reachable(s)
    ensures s.queue <= 1 && (Enabled(s, Take) ==> s.dirty && !Do(s, Take).dirty && Do(s, Take).marked)
    ensures s.taken <= s.posted <= s.taken + 1
    ensures forall t, v :: Stands(s, t, Won) && Stands(s, v, Won) ==> t == v && s.queue == 0
  {
    ReachableInv(s);
  }

  /** No writer is part-way through, no wakeup is queued, nothing waits to be painted, and the
      supervisor waits with nobody ringing. */
  predicate Quiet(s: System) {
    && (forall t :: 0 <= t < |s.writers| ==> s.writers[t] == Idle)
    && s.queue == 0 && !s.marked && !s.bell && !s.woken
  }

  /** When everything is quiet, every announced write has been painted and reconciled, with all
      the writes before it. */
  lemma NothingLost(s: System, i: nat)
    requires Reachable(s) && Quiet(s) && Announced(s.log, i)
    ensures i < s.painted && i < s.reconciled
  {
    ReachableInv(s);
  }

  /** An announced write not yet painted is always on its way to being: its own writer is still
      to swap the latch, or the latch is set, or the windows are already marked. */
  lemma OnItsWay(s: System)
    requires Reachable(s) && Announced(s.log, s.painted)
    ensures s.marked || s.queue == 1 || exists t :: Stands(s, t, Wrote) || Stands(s, t, Rang) || Stands(s, t, Won)
  {
    ReachableInv(s);
    if AnyAt(s, Wrote) {
      var t :| 0 <= t < |s.writers| && s.writers[t] == Wrote;
      assert Stands(s, t, Wrote);
    } else if AnyAt(s, Rang) {
      var t :| 0 <= t < |s.writers| && s.writers[t] == Rang;
      assert Stands(s, t, Rang);
    } else if s.dirty && s.queue == 0 {
      var t :| 0 <= t < |s.writers| && s.writers[t] == Won;
      assert Stands(s, t, Won);
    }
  }

  // ---- and what it does not ----

  /** Everything announced so far is seen, and nothing since the last announcement. */
  predicate Behind(s: System) {
    && s.writers == [Idle] && !s.dirty && s.queue == 0 && !s.marked && !s.bell && !s.woken
    && !Announced(s.log, s.painted) && !Announced(s.log, s.reconciled)
    && s.painted == s.reconciled <= |s.log|
    && (s.painted > 0 ==> s.log[s.painted - 1])
  }

  lemma Starts() returns (s: System)
    ensures Reachable(s) && s.log == [] && Behind(s)
  {
    assert Runs(Init(1), [], Init(1));
    s := Takes(Init(1), Reconcile);
  }

  lemma AnnouncedIsSeen(s: System) returns (u: System)
    requires Reachable(s) && Behind(s)
    ensures Reachable(u) && u.log == s.log + [true] && Behind(u)
  {
    hide Reachable;
    u := Takes(s, Write(0, true));
    u := Takes(u, Ring(0));
    u := Takes(u, Swap(0));
    u := Takes(u, Post(0));
    u := Takes(u, Take);
    u := Takes(u, Paint);
    u := Takes(u, Wake(true));
    u := Takes(u, Reconcile);
  }

  /** Whatever is written, the loop and the supervisor may come to rest having seen it only up
      to the last announced write. */
  lemma {:induction false} MayLag(log: seq<bool>) returns (s: System)
    ensures Reachable(s) && s.log == log && Behind(s)
    decreases |log|
  {
    hide Reachable;
    if log == [] {
      s := Starts();
    } else {
      var last := |log| - 1;
      assert log == log[..last] + [log[last]];
      s := MayLag(log[..last]);
      if log[last] {
        s := AnnouncedIsSeen(s);
      } else {
        AnnouncedMore(s.log, false, s.painted);
        s := Takes(s, Write(0, false));
      }
    }
  }

  /** The i-th write is seen by the last repaint whenever everything is quiet. */
  ghost predicate AlwaysPainted(log: seq<bool>, i: nat) {
    forall s :: Reachable(s) && Quiet(s) && s.log == log ==> i < s.painted
  }

  ghost predicate AlwaysReconciled(log: seq<bool>, i: nat) {
    forall s :: Reachable(s) && Quiet(s) && s.log == log ==> i < s.reconciled
  }

  /** Which completed writes are sure to be painted, and to be reconciled, by the time
      everything is quiet: exactly those that are announced or that an announced one follows. */
  lemma PaintedExactly(log: seq<bool>, i: nat)
    requires i < |log|
    ensures AlwaysPainted(log, i) <==> Announced(log, i)
    ensures AlwaysReconciled(log, i) <==> Announced(log, i)
  {
    hide Reachable;
    if Announced(log, i) {
      forall s | Reachable(s) && Quiet(s) && s.log == log
        ensures i < s.painted && i < s.reconciled
      {
        NothingLost(s, i);
      }
    } else {
      var s := MayLag(log);
      assert Quiet(s) && s.painted <= i;
    }
  }
}
