/** The account poll loop and its doorbell: the loop's own steps, the fetches' outcomes, and
    pokes that may come at any moment from any clone of the bell. */
module AccountLoop {
  import opened Wrappers

  type Listing = string

  datatype Outcome = Listed(listing: Listing) | SignedOut | Transient

  /** Where the loop stands: about to fetch, fetching, waiting out an interval, parked until a
      poke, or over. */
  datatype Phase = Ready | Fetching | Waiting | Parked | Over

  /** `outcomes` is every fetch's, in order, and `stored` the listing the fleet holds. `now`
      counts steps; `began`, `left` and `rung` are when the last fetch began, when the loop
      last stopped waiting, and when the token in the channel was put there, and `poked` the
      last poke of all. */
  datatype System = System(
    loop: Phase,
    token: bool,
    dropped: bool,
    outcomes: seq<Outcome>,
    stored: Option<Listing>,
    now: nat,
    began: nat,
    left: nat,
    rung: nat,
    poked: nat,
    fetches: nat,
    resumed: nat,
    pokes: nat)

  datatype Step =
    | Begin
    | End(outcome: Outcome)
    | Rung
    | TimesOut
    | HangsUp
    | Poke
    | DropBell

  predicate Enabled(s: System, st: Step) {
    match st
    case Begin => s.loop.Ready?
    case End(_) => s.loop.Fetching?
    case Rung => (s.loop.Waiting? || s.loop.Parked?) && s.token
    case TimesOut => s.loop.Waiting? && !s.token && !s.dropped
    case HangsUp => (s.loop.Waiting? || s.loop.Parked?) && !s.token && s.dropped
    case Poke => !s.dropped
    case DropBell => !s.dropped
  }

  function Store(stored: Option<Listing>, o: Outcome): (r: Option<Listing>) {
    match o
    case Listed(l) => Some(l)
    case SignedOut => None
    case Transient => stored
  }

  function Do(s: System, st: Step): System
    requires Enabled(s, st)
  {
    var t := s.(now := s.now + 1);
    match st
    case Begin => t.(loop := Fetching, began := t.now, fetches := s.fetches + 1)
    case End(o) =>
      t.(loop := if o.SignedOut? then Parked else Waiting, outcomes := s.outcomes + [o], stored := Store(s.stored, o))
    case Rung =>
      t.(loop := Ready, token := false, left := t.now, resumed := s.resumed + (if s.loop.Parked? then 1 else 0))
    case TimesOut => t.(loop := Ready, left := t.now)
    case HangsUp => t.(loop := Over)
    case Poke =>
      t.(token := true, rung := if s.token then s.rung else t.now, poked := t.now, pokes := s.pokes + 1)
    case DropBell => t.(dropped := true)
  }

  function Init(): System {
    System(Ready, false, false, [], None, 0, 0, 0, 0, 0, 0, 0, 0)
  }

  ghost predicate Runs(s: System, steps: seq<Step>, end: System)
    decreases |steps|
  {
    if steps == [] then s == end
    else Enabled(s, steps[0]) && Runs(Do(s, steps[0]), steps[1..], end)
  }

  ghost predicate Reachable(s: System) {
    exists steps: seq<Step> :: Runs(Init(), steps, s)
  }

  /** The last thing the account said, however many fetches failed since. */
  function LastWord(outcomes: seq<Outcome>): (l: Option<Listing>) {
    if outcomes == [] then None
    else
      match outcomes[|outcomes| - 1]
      case Listed(l) => Some(l)
      case SignedOut => None
      case Transient => LastWord(outcomes[..|outcomes| - 1])
  }

  predicate Times(s: System) {
    && s.left <= s.now && s.began <= s.now && s.rung <= s.poked <= s.now
    && (s.token ==> s.left < s.rung)
    && (s.loop.Ready? ==> s.began <= s.left)
    && (!s.loop.Ready? ==> s.left < s.began)
  }

  /** A poke no fetch has begun after is still in the channel, or has just been taken out. */
  predicate Served(s: System) {
    s.began < s.poked ==> s.token || s.loop.Ready?
  }

  predicate Counts(s: System) {
    && s.fetches == |s.outcomes| + (if s.loop.Fetching? then 1 else 0)
    && s.resumed + (if s.token then 1 else 0) <= s.pokes
    && (s.loop.Parked? ==> s.outcomes != [] && s.outcomes[|s.outcomes| - 1].SignedOut?)
    && (s.loop.Waiting? ==> s.outcomes != [] && !s.outcomes[|s.outcomes| - 1].SignedOut?)
    && (s.loop.Over? ==> s.dropped && !s.token)
  }

  predicate Inv(s: System) {
    Times(s) && Served(s) && Counts(s) && s.stored == LastWord(s.outcomes)
  }

  lemma StepKeepsInv(s: System, st: Step)
    requires Inv(s) && Enabled(s, st)
    ensures Inv(Do(s, st))
  {
    if st.End? {
      assert (s.outcomes + [st.outcome])[..|s.outcomes|] == s.outcomes;
    }
  }

  lemma {:induction false} RunKeepsInv(s: System, steps: seq<Step>, end: System)
    requires Inv(s) && Runs(s, steps, end)
    ensures Inv(end)
    decreases |steps|
  {
    hide Inv, Do;
    if steps != [] {
      StepKeepsInv(s, steps[0]);
      RunKeepsInv(Do(s, steps[0]), steps[1..], end);
    }
  }

  lemma ReachableInv(s: System)
    requires Reachable(s)
    ensures Inv(s)
  {
    hide Runs;
    var steps: seq<Step> :| Runs(Init(), steps, s);
    RunKeepsInv(Init(), steps, s);
  }

  // ---- what it gives ----

  /** The listing held is the account's last word: a failed fetch changes nothing and a
      sign-out clears it. */
  lemma StoredIsTheLastWord(s: System)
    requires Reachable(s)
    ensures s.stored == LastWord(s.outcomes)
  {
    ReachableInv(s);
  }

  /** Signed out, the loop moves only for a poke: it leaves its place exactly on a token, one
      put there after it last stopped waiting, and no two such moves share a poke. */
  lemma SignedOutWaitsForAPoke(s: System, st: Step)
    requires Reachable(s) && s.loop.Parked? && Enabled(s, st)
    ensures s.outcomes != [] && s.outcomes[|s.outcomes| - 1] == SignedOut && s.stored == None
    ensures Do(s, st).loop.Ready? ==> st.Rung? && s.token && s.left < s.rung <= s.now
    ensures !Do(s, st).loop.Ready? && !Do(s, st).loop.Parked? ==> st.HangsUp? && s.dropped && !s.token
    ensures Do(s, st).resumed <= Do(s, st).pokes
  {
    ReachableInv(s);
    StepKeepsInv(s, st);
  }

  /** The poke need not come after the sign-out was learnt: one made while that fetch was out
      resumes the loop just the same. */
  lemma PokedDuringTheFetch() returns (s: System)
    ensures Reachable(s) && s.outcomes == [SignedOut] && s.fetches == 2 && s.pokes == 1 && s.poked < s.began
    ensures s.left == s.poked + 2
  {
    var steps := [Begin, Poke, End(SignedOut), Rung, Begin];
    var s1 := Do(Init(), Begin);
    var s2 := Do(s1, Poke);
    var s3 := Do(s2, End(SignedOut));
    var s4 := Do(s3, Rung);
    s := Do(s4, Begin);
    assert Runs(s, [], s);
    assert steps[4..][1..] == [] && Runs(s4, steps[4..], s);
    assert steps[3..][1..] == steps[4..] && Runs(s3, steps[3..], s);
    assert steps[2..][1..] == steps[3..] && Runs(s2, steps[2..], s);
    assert steps[1..][1..] == steps[2..] && Runs(s1, steps[1..], s);
    assert Runs(Init(), steps, s);
  }

  predicate Own(st: Step) {
    !st.Poke? && !st.DropBell?
  }

  /** The loop's own steps still to go before a fetch begins. */
  function Distance(loop: Phase): (n: nat)
    requires !loop.Over?
  {
    match loop
    case Ready => 0
    case Waiting => 1
    case Parked => 1
    case Fetching => 2
  }

  /** Every poke, coalesced or not, is followed by a fetch that begins after it: until then the
      loop can neither time out nor end, and at most three steps of its own remain. */
  lemma EveryPokeIsServed(s: System, st: Step)
    requires Reachable(s) && s.began < s.poked && Enabled(s, st)
    ensures !s.loop.Over? && !st.HangsUp? && !st.TimesOut?
    ensures exists own :: Own(own) && Enabled(s, own)
    ensures Own(st) ==> if st.Begin? then Do(s, st).began > Do(s, st).poked
      else !Do(s, st).loop.Over? && Distance(Do(s, st).loop) < Distance(s.loop)
    ensures !Own(st) ==> Do(s, st).loop == s.loop && Do(s, st).began == s.began
  {
    ReachableInv(s);
    var own := if s.loop.Ready? then Begin else if s.loop.Fetching? then End(Transient) else Rung;
    assert Own(own) && Enabled(s, own);
  }

  /** The loop never ends with a poke unserved. */
  lemma NoPokeOutlivesTheLoop(s: System)
    requires Reachable(s) && s.loop.Over?
    ensures s.poked <= s.began && s.dropped
  {
    ReachableInv(s);
  }

  // ---- the loop as it is written ----

  datatype Wake = Interval | Bell | Disconnected

  /** The loop goes on past a round: signed out, when the bell is rung; otherwise unless the
      bell is gone. */
  predicate GoesOn(o: Outcome, rung: bool, wake: Wake) {
    if o.SignedOut? then rung else !wake.Disconnected?
  }

  function History(fetch: nat -> Outcome, n: nat): (outcomes: seq<Outcome>)
    ensures |outcomes| == n
  {
    if n == 0 then [] else History(fetch, n - 1) + [fetch(n - 1)]
  }

  lemma {:induction false} RunsAppend(s: System, steps: seq<Step>, m: System, st: Step)
    requires Runs(s, steps, m) && Enabled(m, st)
    ensures Runs(s, steps + [st], Do(m, st))
    decreases |steps|
  {
    hide Enabled, Do;
    if steps == [] {
      assert [st][1..] == [] && Runs(Do(m, st), [], Do(m, st));
    } else {
      RunsAppend(Do(s, steps[0]), steps[1..], m, st);
      assert (steps + [st])[1..] == steps[1..] + [st];
    }
  }

  lemma Takes(s: System, st: Step) returns (u: System)
    requires Reachable(s) && Enabled(s, st)
    ensures Reachable(u) && u == Do(s, st)
  {
    hide Runs, Enabled, Do;
    var steps :| Runs(Init(), steps, s);
    RunsAppend(Init(), steps, s, st);
    u := Do(s, st);
  }

  /** About to fetch, with nothing in the channel and the bell still there. */
  predicate AtTop(s: System) {
    s.loop.Ready? && !s.token && !s.dropped
  }

  /** One fetch and the wait after it. */
  lemma OneRound(s: System, o: Outcome, rung: bool, wake: Wake) returns (u: System)
    requires Reachable(s) && AtTop(s)
    ensures Reachable(u) && u.outcomes == s.outcomes + [o]
    ensures if GoesOn(o, rung, wake) then AtTop(u) else u.loop.Over?
  {
    hide Reachable;
    u := Takes(s, Begin);
    u := Takes(u, End(o));
    if !GoesOn(o, rung, wake) {
      u := Takes(u, DropBell);
      u := Takes(u, HangsUp);
    } else if o.SignedOut? || wake.Bell? {
      u := Takes(u, Poke);
      u := Takes(u, Rung);
    } else {
      u := Takes(u, TimesOut);
    }
  }

  /** Every way the loop can go is a run of the system: after any number of rounds it may have
      come through, the system may have fetched the same, and is over exactly if the loop is. */
  lemma {:induction false} LoopIsARun(fetch: nat -> Outcome, rung: nat -> bool, wake: nat -> Wake, rounds: nat) returns (s: System)
    requires forall n: nat :: n + 1 < rounds ==> GoesOn(fetch(n), rung(n), wake(n))
    ensures Reachable(s) && s.outcomes == History(fetch, rounds)
    ensures if rounds == 0 || GoesOn(fetch(rounds - 1), rung(rounds - 1), wake(rounds - 1)) then AtTop(s) else s.loop.Over?
  {
    hide Reachable, GoesOn, AtTop;
    if rounds == 0 {
      s := AtFirst();
    } else {
      s := LoopIsARun(fetch, rung, wake, rounds - 1);
      s := OneRound(s, fetch(rounds - 1), rung(rounds - 1), wake(rounds - 1));
    }
  }

  lemma AtFirst() returns (s: System)
    ensures Reachable(s) && AtTop(s) && s.outcomes == []
  {
    s := Init();
    assert Runs(Init(), [], Init());
  }

  /** `fetch(n)` is the n-th fetch's outcome, `rung(n)` whether the wait without a timeout that
      follows a sign-out ends in a ring, `wake(n)` how the timed wait ends. Run for at most
      `rounds` rounds. */
  method Loop(fetch: nat -> Outcome, rung: nat -> bool, wake: nat -> Wake, rounds: nat)
      returns (stored: Option<Listing>, fetched: nat, ended: bool)
    ensures fetched <= rounds && stored == LastWord(History(fetch, fetched))
    ensures forall n :: 0 <= n < fetched - 1 ==> GoesOn(fetch(n), rung(n), wake(n))
    ensures ended <==> fetched > 0 && !GoesOn(fetch(fetched - 1), rung(fetched - 1), wake(fetched - 1))
    ensures !ended ==> fetched == rounds
    ensures exists s :: Reachable(s) && s.outcomes == History(fetch, fetched) && s.stored == stored && (ended <==> s.loop.Over?)
  {
    stored, fetched, ended := None, 0, false;
    while fetched < rounds && !ended
      invariant fetched <= rounds && stored == LastWord(History(fetch, fetched))
      invariant forall n :: 0 <= n < fetched - 1 ==> GoesOn(fetch(n), rung(n), wake(n))
      invariant ended <==> fetched > 0 && !GoesOn(fetch(fetched - 1), rung(fetched - 1), wake(fetched - 1))
      decreases rounds - fetched, !ended
    {
      var n := fetched;
      assert (History(fetch, n) + [fetch(n)])[..n] == History(fetch, n);
      fetched := fetched + 1;
      match fetch(n) {
        case Listed(l) =>
          stored := Some(l);
        case SignedOut =>
          stored := None;
          ended := !rung(n);
          continue;
        case Transient =>
      }
      ended := wake(n).Disconnected?;
    }
    ghost var s := LoopIsARun(fetch, rung, wake, fetched);
    StoredIsTheLastWord(s);
  }
}
