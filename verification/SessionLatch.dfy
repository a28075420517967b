/** A session's redraw latch and its exit report: the reader thread, the two racers that may
    report the exit, and the event loop, each step one atomic operation. */
module SessionLatch {

  /** The reader: between reads, having advanced the terminal, or having claimed the latch and
      not yet posted. */
  datatype Reader = Reading | Parsed | Won | Ended

  /** Who reports the exit: the reader's end, or the process watcher. */
  datatype Racer = Running | Claimed | Stored | Reported | TooLate

  /** `version` counts what the reader parsed, `drawn` what the last frame showed. `owed` is a
      redraw asked of the window, `drawing` a frame whose latch has been taken. Since the last
      `take_dirty`: `claims` and `posts` count the reader's, `carried` whether a claim made
      before it was still to be posted. */
  datatype System = System(
    reader: Reader,
    eof: Racer,
    watch: Racer,
    exited: bool,
    dirty: bool,
    version: nat,
    drawn: nat,
    queue: nat,
    owed: bool,
    drawing: bool,
    exits: nat,
    claims: nat,
    posts: nat,
    carried: bool)

  datatype Step =
    | Parse
    | Swap
    | Post
    | EndOfFile
    | ExitSwap(watcher: bool)
    | ExitStore(watcher: bool)
    | ExitPost(watcher: bool)
    | Hear
    | TakeDirty
    | Draw
    | MarkDirty

  function RacerOf(s: System, watcher: bool): (r: Racer) {
    if watcher then s.watch else s.eof
  }

  function WithRacer(s: System, watcher: bool, r: Racer): System {
    if watcher then s.(watch := r) else s.(eof := r)
  }

  predicate Enabled(s: System, st: Step) {
    match st
    case Parse => s.reader.Reading?
    case Swap => s.reader.Parsed?
    case Post => s.reader.Won?
    case EndOfFile => s.reader.Reading?
    case ExitSwap(watcher) => RacerOf(s, watcher).Running? && (watcher || s.reader.Ended?)
    case ExitStore(watcher) => RacerOf(s, watcher).Claimed?
    case ExitPost(watcher) => RacerOf(s, watcher).Stored?
    case Hear => s.queue > 0
    case TakeDirty => s.owed && !s.drawing
    case Draw => s.drawing
    case MarkDirty => true
  }

  function Do(s: System, st: Step): System
    requires Enabled(s, st)
  {
    match st
    case Parse => s.(reader := Parsed, version := s.version + 1)
    case Swap =>
      if s.dirty then s.(reader := Reading)
      else s.(reader := Won, dirty := true, claims := s.claims + 1)
    case Post => s.(reader := Reading, queue := s.queue + 1, posts := s.posts + 1)
    case EndOfFile => s.(reader := Ended)
    case ExitSwap(watcher) =>
      if s.exited then WithRacer(s, watcher, TooLate) else WithRacer(s, watcher, Claimed).(exited := true)
    case ExitStore(watcher) => WithRacer(s, watcher, Stored).(dirty := true)
    case ExitPost(watcher) => WithRacer(s, watcher, Reported).(exits := s.exits + 1)
    case Hear => s.(queue := s.queue - 1, owed := true)
    case TakeDirty =>
      s.(owed := false, dirty := false, drawing := s.dirty, claims := 0, posts := 0, carried := s.reader.Won?)
    case Draw => s.(drawing := false, drawn := s.version)
    case MarkDirty => s.(dirty := true, owed := true)
  }

  function Init(): System {
    System(Reading, Running, Running, false, false, 0, 0, 0, false, false, 0, 0, 0, false)
  }

  ghost predicate Runs(s: System, steps: seq<Step>, end: System)
    decreases |steps|
  {
    if steps == [] then s == end
    else Enabled(s, steps[0]) && Runs(Do(s, steps[0]), steps[1..], end)
  }

  ghost predicate Reachable(s: System) {
    exists steps: seq<Step> :: Runs(Init(), steps, s)
  }

  // ---- the invariant ----

  predicate Wins(r: Racer) {
    r.Claimed? || r.Stored? || r.Reported?
  }

  /** Of the two racers at most one wins; the loser is too late. */
  predicate OneWinner(s: System) {
    && (s.exited <==> Wins(s.eof) || Wins(s.watch))
    && !(Wins(s.eof) && Wins(s.watch))
    && (s.eof.TooLate? ==> Wins(s.watch)) && (s.watch.TooLate? ==> Wins(s.eof))
    && s.exits == (if s.eof.Reported? || s.watch.Reported? then 1 else 0)
    && (!s.eof.Running? ==> s.reader.Ended?)
  }

  /** Of the posts since the last `take_dirty`, each was claimed since, or carried over it. */
  predicate OneClaim(s: System) {
    && s.claims <= 1 && (s.claims == 1 ==> s.dirty)
    && s.posts + (if s.reader.Won? then 1 else 0) == s.claims + (if s.carried then 1 else 0)
  }

  /** The latch is never left set with nobody on the way to a frame. */
  predicate Coming(s: System) {
    s.dirty ==> s.reader.Won? || s.queue > 0 || s.owed || s.eof.Stored? || s.watch.Stored? || s.exits == 1
  }

  predicate NothingUndrawn(s: System) {
    s.drawn <= s.version && (s.drawn < s.version ==> s.dirty || s.drawing || s.reader.Parsed?)
  }

  predicate Inv(s: System) {
    OneWinner(s) && OneClaim(s) && Coming(s) && NothingUndrawn(s)
  }

  lemma StepKeepsInv(s: System, st: Step)
    requires Inv(s) && Enabled(s, st)
    ensures Inv(Do(s, st))
  {
    hide OneWinner, OneClaim, Coming, NothingUndrawn, Do, Enabled;
    KeepsWinner(s, st);
    KeepsClaim(s, st);
    KeepsComing(s, st);
    KeepsUndrawn(s, st);
  }

  lemma KeepsWinner(s: System, st: Step)
    requires OneWinner(s) && Enabled(s, st)
    ensures OneWinner(Do(s, st))
  {}

  lemma KeepsClaim(s: System, st: Step)
    requires OneClaim(s) && Enabled(s, st)
    ensures OneClaim(Do(s, st))
  {}

  lemma KeepsComing(s: System, st: Step)
    requires Coming(s) && OneWinner(s) && Enabled(s, st)
    ensures Coming(Do(s, st))
  {}

  lemma KeepsUndrawn(s: System, st: Step)
    requires NothingUndrawn(s) && Enabled(s, st)
    ensures NothingUndrawn(Do(s, st))
  {}

  lemma {:induction false} RunKeepsInv(s: System, steps: seq<Step>, end: System)
    requires Inv(s) && Runs(s, steps, end)
    ensures Inv(end)
    decreases |steps|
  {
    hide Inv, Do;
    if steps != [] {
      StepKeepsInv(s, steps[0]);
      RunKeepsInv(Do(s, steps[0]), steps[1..], end);
    }
  }

  lemma ReachableInv(s: System)
    requires Reachable(s)
    ensures Inv(s)
  {
    hide Runs;
    var steps: seq<Step> :| Runs(Init(), steps, s);
    RunKeepsInv(Init(), steps, s);
  }

  // ---- what it gives ----

  /** Between two `take_dirty` calls the reader claims the latch at most once. It posts at most
      once more than it carried over the first of them: so once, unless a claim was still to be
      posted when the latch was taken, and then at most twice. */
  lemma RedrawsBetweenTakes(s: System)
    requires Reachable(s)
    ensures s.claims <= 1 && s.posts <= (if s.carried then 2 else 1)
    ensures s.posts == 2 <==> s.carried && s.claims == 1 && !s.reader.Won?
  {
    ReachableInv(s);
  }

  /** Twice does happen: the claim, the take, and only then its post and another claim's. */
  lemma TwoRedrawsBetweenTakes() returns (s: System)
    ensures Reachable(s) && s.posts == 2
  {
    s := Init();
    assert Runs(s, [], s);
    s := Take(s, Parse);
    s := Take(s, Swap);
    s := Take(s, MarkDirty);
    s := Take(s, TakeDirty);
    s := Take(s, Post);
    s := Take(s, Parse);
    s := Take(s, Swap);
    s := Take(s, Post);
  }

  lemma Take(s: System, st: Step) returns (u: System)
    requires Reachable(s) && Enabled(s, st)
    ensures Reachable(u) && u == Do(s, st)
  {
    var steps: seq<Step> :| Runs(Init(), steps, s);
    RunExtends(Init(), steps, s, st);
    u := Do(s, st);
  }

  lemma {:induction false} RunExtends(s: System, steps: seq<Step>, end: System, st: Step)
    requires Runs(s, steps, end) && Enabled(end, st)
    ensures Runs(s, steps + [st], Do(end, st))
    decreases |steps|
  {
    hide Do, Enabled;
    if steps == [] {
      assert [st][1..] == [];
      assert Runs(Do(end, st), [], Do(end, st));
    } else {
      RunExtends(Do(s, steps[0]), steps[1..], end, st);
      assert (steps + [st])[1..] == steps[1..] + [st];
    }
  }

  /** The exit is reported at most once. Once the racer that won is through it has been
      reported, and a racer that is through without having reported it left it to the other. */
  lemma ExitedOnce(s: System)
    requires Reachable(s)
    ensures s.exits <= 1
    ensures s.exits == 1 <==> s.eof.Reported? || s.watch.Reported?
    ensures (s.eof.Reported? || s.eof.TooLate?) && (s.watch.Reported? || s.watch.TooLate?) ==> s.exits == 1
    ensures s.eof.TooLate? && s.exits == 0 ==> s.watch.Claimed? || s.watch.Stored?
    ensures s.watch.TooLate? && s.exits == 0 ==> s.eof.Claimed? || s.eof.Stored?
  {
    ReachableInv(s);
  }

  /** Nothing parsed is left undrawn: once the reader has swapped the latch, no wakeup is
      queued and the window owes no frame, the last frame shows everything, until the exit. */
  lemma NothingLost(s: System)
    requires Reachable(s) && (s.reader.Reading? || s.reader.Ended?) && s.queue == 0 && !s.owed && !s.drawing
    ensures s.drawn == s.version || s.exited
  {
    ReachableInv(s);
  }
}
