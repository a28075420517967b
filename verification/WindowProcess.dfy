/** The process's window list, as `drain_requests` and `close_window` change it in place. */
module WindowProcess {
  import opened Wrappers
  import opened Closing
  import opened WindowDrain

  /** A window's tear-off request, by the window's index. */
  datatype TearOff = TearOff(at: nat, addr: Addr)

  predicate Asks(w: Window) {
    w.tearOff.Some?
  }

  /** The requests listed are those of the windows among the first `n` that made one, in order. */
  predicate Pairs(ws: seq<Window>, tearOffs: seq<TearOff>, n: nat)
    requires n <= |ws|
  {
    var c := Where(Asks, ws, n);
    && |tearOffs| == |c|
    && forall k :: 0 <= k < |c| ==> c[k] < |ws| && tearOffs[k].at == c[k] && ws[c[k]].tearOff == Some(tearOffs[k].addr)
  }

  /** The indices listed whose window satisfies `p`. */
  function Among(p: Window -> bool, ws: seq<Window>, c: seq<nat>): (r: seq<nat>)
    requires forall k :: 0 <= k < |c| ==> c[k] < |ws|
    ensures forall i :: i in r <==> i in c && p(ws[i])
  {
    if c == [] then []
    else
      var last := |c| - 1;
      assert c == c[..last] + [c[last]];
      Among(p, ws, c[..last]) + (if p(ws[c[last]]) then [c[last]] else [])
  }

  lemma AmongOneMore(p: Window -> bool, ws: seq<Window>, c: seq<nat>, i: nat)
    requires i < |ws| && forall k :: 0 <= k < |c| ==> c[k] < |ws|
    ensures (forall k :: 0 <= k < |c + [i]| ==> (c + [i])[k] < |ws|)
    ensures Among(p, ws, c + [i]) == Among(p, ws, c) + (if p(ws[i]) then [i] else [])
  {
    assert (c + [i])[..|c|] == c;
  }

  lemma {:induction false} AmongWhere(p: Window -> bool, q: Window -> bool, ws: seq<Window>, n: nat)
    requires n <= |ws| && forall i :: 0 <= i < |ws| && p(ws[i]) ==> q(ws[i])
    ensures var c := Where(q, ws, n);
      (forall k :: 0 <= k < |c| ==> c[k] < |ws|) && Among(p, ws, c) == Where(p, ws, n)
  {
    hide Among, Where;
    NothingWhere(p, ws);
    NothingWhere(q, ws);
    var c := Where(q, ws, n);
    assert forall k :: 0 <= k < |c| ==> c[k] in c;
    if n > 0 {
      AmongWhere(p, q, ws, n - 1);
      WhereStep(p, ws, n);
      WhereStep(q, ws, n);
      if q(ws[n - 1]) {
        AmongOneMore(p, ws, Where(q, ws, n - 1), n - 1);
      } else {
        assert c == Where(q, ws, n - 1) && Where(p, ws, n) == Where(p, ws, n - 1);
      }
    } else {
      assert c == [];
    }
  }

  lemma NothingWhere(p: Window -> bool, ws: seq<Window>)
    ensures Where(p, ws, 0) == [] && Among(p, ws, []) == []
  {}

  lemma WhereStep(p: Window -> bool, ws: seq<Window>, n: nat)
    requires 0 < n <= |ws|
    ensures Where(p, ws, n) == Where(p, ws, n - 1) + (if p(ws[n - 1]) then [n - 1] else [])
  {}

  lemma NoPairs(ws: seq<Window>)
    ensures Pairs(ws, [], 0)
  {}

  lemma OnePair(ws: seq<Window>, tearOffs: seq<TearOff>, i: nat)
    requires i < |ws| && Pairs(ws, tearOffs, i)
    ensures Pairs(ws, tearOffs + (if ws[i].tearOff.Some? then [TearOff(i, ws[i].tearOff.value)] else []), i + 1)
  {
    hide Where;
    WhereStep(Asks, ws, i + 1);
  }

  class Process {
    var windows: seq<Window>
    var focused: Option<nat>
    var nextId: nat
    var minted: nat
    var exiting: bool

    function Model(): (d: Desk)
      reads this
    {
      Desk(windows, focused, nextId, minted, exiting)
    }

    constructor ()
      ensures Model() == Desk([], None, 0, 0, false)
    {
      windows, focused, nextId, minted, exiting := [], None, 0, 0, false;
    }

    method OpenWindow(tab: Addr)
      modifies this
      ensures Model() == old(Model()).(
        windows := old(windows) + [Window(old(nextId), [tab], false, false, None)],
        focused := if old(focused).None? then Some(old(nextId)) else old(focused),
        nextId := old(nextId) + 1)
    {
      if focused.None? {
        focused := Some(nextId);
      }
      windows := windows + [Window(nextId, [tab], false, false, None)];
      nextId := nextId + 1;
    }

    method CloseWindow(i: nat)
      requires i < |windows|
      modifies this
      ensures Model() == CloseOne(old(Model()), i)
    {
      var w := windows[i];
      windows := windows[..i] + windows[i + 1..];
      if focused == Some(w.id) {
        focused := if windows == [] then None else Some(windows[|windows| - 1].id);
      }
      if windows == [] {
        exiting := true;
      }
    }

    /** Take every window's requests. */
    method TakeRequests() returns (toOpen: seq<nat>, toClose: seq<nat>, tearOffs: seq<TearOff>)
      modifies this`windows
      ensures |windows| == |old(windows)| && forall k :: 0 <= k < |windows| ==> windows[k] == Clear(old(windows)[k])
      ensures toOpen == Openers(old(windows)) && toClose == Closers(old(windows))
      ensures Pairs(old(windows), tearOffs, |old(windows)|)
    {
      hide Where, Pairs, Asks;
      toOpen, toClose, tearOffs := [], [], [];
      ghost var was := windows;
      NothingWhere(Opens, was);
      NothingWhere(Shuts, was);
      NoPairs(was);
      var i := 0;
      while i < |windows|
        invariant i <= |windows| == |was|
        invariant forall k :: 0 <= k < |was| ==> windows[k] == if k < i then Clear(was[k]) else was[k]
        invariant toOpen == Where(Opens, was, i) && toClose == Where(Shuts, was, i)
        invariant Pairs(was, tearOffs, i)
      {
        var w := windows[i];
        windows := windows[i := Clear(w)];
        WhereStep(Opens, was, i + 1);
        WhereStep(Shuts, was, i + 1);
        OnePair(was, tearOffs, i);
        if w.newWindow {
          toOpen := toOpen + [i];
        }
        if w.close {
          toClose := toClose + [i];
        }
        if w.tearOff.Some? {
          tearOffs := tearOffs + [TearOff(i, w.tearOff.value)];
        } else {
          assert tearOffs + [] == tearOffs;
        }
        i := i + 1;
      }
    }

    /** Take the torn-off tabs out of their windows; a window emptied by that asks to close. */
    method TearAll(ghost was: seq<Window>, tearOffs: seq<TearOff>, closers: seq<nat>)
        returns (toClose: seq<nat>, taken: seq<Addr>)
      requires |windows| == |was| && forall k :: 0 <= k < |was| ==> windows[k] == Clear(was[k])
      requires Pairs(was, tearOffs, |was|) && closers == Closers(was)
      modifies this`windows
      ensures windows == TornUpTo(was, |was|)
      ensures toClose == ToClose(was)
      ensures TearsAt(was, TearOffs(was)) && taken == Taken(was, TearOffs(was), |TearOffs(was)|)
    {
      hide Torn, Emptied, Tears, Among, Where, Taken;
      ghost var c := Where(Asks, was, |was|);
      assert forall k :: 0 <= k < |c| ==> c[k] in c;
      toClose, taken := closers, [];
      NothingTorn(was, windows, closers);
      var j := 0;
      while j < |tearOffs|
        invariant j <= |tearOffs| == |c|
        invariant Progress(was, windows, closers, toClose, taken, c[..j])
      {
        NextRequest(c, j);
        OneRequest(was, windows, closers, toClose, taken, c[..j], c[j]);
        toClose, taken := TearOne(tearOffs[j].at, tearOffs[j].addr, toClose, taken);
        j := j + 1;
      }
      assert c[..j] == c;
      AllTorn(was, windows, closers, toClose, taken);
    }

    method TearOne(i: nat, addr: Addr, closing: seq<nat>, before: seq<Addr>) returns (toClose: seq<nat>, taken: seq<Addr>)
      requires i < |windows|
      modifies this`windows
      ensures var w := old(windows)[i];
        if addr !in w.tabs then windows == old(windows) && toClose == closing && taken == before
        else
          var left := WithoutFirst(w.tabs, addr);
          && windows == old(windows)[i := w.(tabs := left)] && taken == before + [addr]
          && toClose == if left == [] && i !in closing then closing + [i] else closing
    {
      toClose, taken := closing, before;
      if addr in windows[i].tabs {
        var left := WithoutFirst(windows[i].tabs, addr);
        windows := windows[i := windows[i].(tabs := left)];
        taken := taken + [addr];
        if left == [] && i !in toClose {
          toClose := toClose + [i];
        }
      }
    }

    /** Act on what the windows asked for during the last dispatch. */
    method DrainRequests()
      modifies this
      ensures Model() == Drained(old(Model()))
    {
      hide Where, Torn, Clear, Drained, Taken, FirstTabs, ToClose, Spread, AfterOpening, TornUpTo, CloseAll, RemoveAll, Fits, TearsAt, Pairs;
      ghost var d := Model();
      DrainedIs(d);
      var toOpen, toClose, tearOffs := TakeRequests();
      var closing, taken := TearAll(d.windows, tearOffs, toClose);
      OpenShells(|toOpen|);
      OpenEach(taken);
      SpreadInTwo(d, toOpen, taken);
      assert Model() == Spread(d);
      CloseEach(closing);
    }

    /** Open a window on a new shell, so many times. */
    method OpenShells(count: nat)
      modifies this
      ensures Model() == AfterOpening(old(Model()), ShellTabs(old(minted), count)).(minted := old(minted) + count)
    {
      var k := 0;
      ghost var d := Model();
      while k < count
        invariant k <= count
        invariant Model() == AfterOpening(d, ShellTabs(d.minted, k)).(minted := d.minted + k)
      {
        minted := minted + 1;
        OpenWindow(Placeholder(minted));
        OneMoreOpened(d, ShellTabs(d.minted, k), Placeholder(d.minted + k + 1));
        assert ShellTabs(d.minted, k + 1) == ShellTabs(d.minted, k) + [Placeholder(d.minted + k + 1)];
        k := k + 1;
      }
    }

    /** Open a window on each tab, in order. */
    method OpenEach(tabs: seq<Addr>)
      modifies this
      ensures Model() == AfterOpening(old(Model()), tabs)
    {
      var k := 0;
      ghost var d := Model();
      while k < |tabs|
        invariant k <= |tabs|
        invariant Model() == AfterOpening(d, tabs[..k])
      {
        OpenWindow(tabs[k]);
        OneMoreOpened(d, tabs[..k], tabs[k]);
        assert tabs[..k + 1] == tabs[..k] + [tabs[k]];
        k := k + 1;
      }
      assert tabs[..k] == tabs;
    }

    /** Close by index, the last listed first. */
    method CloseEach(closing: seq<nat>)
      requires Fits(closing, |windows|)
      modifies this
      ensures Model() == CloseAll(old(Model()), closing)
    {
      var k := |closing|;
      assert closing[..k] == closing;
      while k > 0
        invariant k <= |closing| && Fits(closing[..k], |windows|)
        invariant CloseAll(Model(), closing[..k]) == CloseAll(old(Model()), closing)
      {
        assert closing[..k][k - 1] == closing[k - 1] && closing[..k][k - 1] + 0 < |windows|;
        assert closing[..k][..k - 1] == closing[..k - 1];
        assert forall m :: 0 <= m < k - 1 ==> closing[..k][m] == closing[..k - 1][m];
        CloseWindow(closing[k - 1]);
        k := k - 1;
      }
    }
  }

  lemma DrainedIs(d: Desk)
    ensures Fits(ToClose(d.windows), |Spread(d).windows|) && Drained(d) == CloseAll(Spread(d), ToClose(d.windows))
  {
    ClosesFit(d);
  }

  function ShellTabs(minted: nat, count: nat): (tabs: seq<Addr>) {
    seq(count, (i: nat) => Placeholder(minted + 1 + i))
  }

  /** The desk with a window opened on each tab. */
  function AfterOpening(d: Desk, tabs: seq<Addr>): (e: Desk) {
    d.(windows := d.windows + OpenedUpTo(tabs, d.nextId, |tabs|),
       focused := if d.focused.None? && tabs != [] then Some(d.nextId) else d.focused,
       nextId := d.nextId + |tabs|)
  }

  lemma OneMoreOpened(d: Desk, tabs: seq<Addr>, tab: Addr)
    ensures var e := AfterOpening(d, tabs);
      AfterOpening(d, tabs + [tab]) == e.(
        windows := e.windows + [Window(e.nextId, [tab], false, false, None)],
        focused := if e.focused.None? then Some(e.nextId) else e.focused,
        nextId := e.nextId + 1)
  {
    var more := tabs + [tab];
    assert OpenedUpTo(more, d.nextId, |more|) == OpenedUpTo(tabs, d.nextId, |tabs|) + [Window(d.nextId + |tabs|, [tab], false, false, None)];
  }

  lemma SpreadInTwo(d: Desk, toOpen: seq<nat>, taken: seq<Addr>)
    requires toOpen == Openers(d.windows) && TearsAt(d.windows, TearOffs(d.windows))
    requires taken == Taken(d.windows, TearOffs(d.windows), |TearOffs(d.windows)|)
    ensures var torn := d.(windows := TornUpTo(d.windows, |d.windows|));
      var shells := AfterOpening(torn, ShellTabs(d.minted, |toOpen|)).(minted := d.minted + |toOpen|);
      AfterOpening(shells, taken) == Spread(d)
  {
    hide Where, Taken, TearsAt, TornUpTo, OpenedUpTo, FirstTabs, ShellTabs;
    var shells := ShellTabs(d.minted, |toOpen|);
    TabsInTwo(d, toOpen, taken);
    OpenedInTwo(shells, taken, d.nextId);
  }

  lemma TabsInTwo(d: Desk, toOpen: seq<nat>, taken: seq<Addr>)
    requires toOpen == Openers(d.windows) && TearsAt(d.windows, TearOffs(d.windows))
    requires taken == Taken(d.windows, TearOffs(d.windows), |TearOffs(d.windows)|)
    ensures var shells := ShellTabs(d.minted, |toOpen|);
      |shells| == |toOpen| && FirstTabs(d.windows, d.minted) == shells + taken
  {
    hide Where, Taken;
  }

  lemma OpenedInTwo(a: seq<Addr>, b: seq<Addr>, nextId: nat)
    ensures OpenedUpTo(a + b, nextId, |a + b|) == OpenedUpTo(a, nextId, |a|) + OpenedUpTo(b, nextId + |a|, |b|)
  {
    assert forall k :: 0 <= k < |a + b| ==>
        OpenedUpTo(a + b, nextId, |a + b|)[k] == (OpenedUpTo(a, nextId, |a|) + OpenedUpTo(b, nextId + |a|, |b|))[k];
  }

  /** Where the tear-offs stand once those of the windows in `done` are carried out. */
  ghost predicate Progress(was: seq<Window>, now: seq<Window>, closers: seq<nat>, toClose: seq<nat>, taken: seq<Addr>, done: seq<nat>) {
    && |now| == |was| && (forall k :: 0 <= k < |done| ==> done[k] < |was|)
    && (forall k :: 0 <= k < |was| ==> now[k] == if k in done then Torn(was[k]) else Clear(was[k]))
    && toClose == closers + Among(Emptied, was, done)
    && TearsAt(was, Among(Tears, was, done))
    && taken == Taken(was, Among(Tears, was, done), |Among(Tears, was, done)|)
  }

  lemma NothingTorn(was: seq<Window>, now: seq<Window>, closers: seq<nat>)
    requires |now| == |was| && forall k :: 0 <= k < |was| ==> now[k] == Clear(was[k])
    ensures Progress(was, now, closers, closers, [], Where(Asks, was, |was|)[..0])
  {
    var none := Where(Asks, was, |was|)[..0];
    assert Among(Emptied, was, none) == [] && Among(Tears, was, none) == [];
  }

  lemma NextRequest(c: seq<nat>, j: nat)
    requires Ascending(c) && j < |c|
    ensures c[j] !in c[..j] && c[..j + 1] == c[..j] + [c[j]]
  {}

  /** One request carried out, from the window's side and from the lists'. */
  lemma OneRequest(was: seq<Window>, now: seq<Window>, closers: seq<nat>, toClose: seq<nat>, taken: seq<Addr>, done: seq<nat>, i: nat)
    requires Progress(was, now, closers, toClose, taken, done) && closers == Closers(was)
    requires i < |was| && i !in done && was[i].tearOff.Some?
    ensures var (w, addr) := (now[i], was[i].tearOff.value);
      if addr !in w.tabs then Progress(was, now, closers, toClose, taken, done + [i])
      else
        var left := WithoutFirst(w.tabs, addr);
        Progress(was, now[i := w.(tabs := left)], closers,
                 if left == [] && i !in toClose then toClose + [i] else toClose, taken + [addr], done + [i])
  {
    hide Where, Taken, Among, TearsAt, Emptied, WithoutFirst;
    EmptiedIs(was);
    var more := done + [i];
    assert forall k :: 0 <= k < |more| ==> more[k] < |was|;
    AmongOneMore(Emptied, was, done, i);
    AmongOneMore(Tears, was, done, i);
    assert i in toClose <==> was[i].close;
    assert now[i] == Clear(was[i]);
    if Tears(was[i]) {
      TakenAfter(was, Among(Tears, was, done), i);
    } else {
      assert Among(Emptied, was, more) == Among(Emptied, was, done) && Among(Tears, was, more) == Among(Tears, was, done);
      assert Torn(was[i]) == Clear(was[i]);
    }
  }

  lemma EmptiedIs(ws: seq<Window>)
    ensures forall i :: 0 <= i < |ws| ==> (Emptied(ws[i]) <==> Tears(ws[i]) && Torn(ws[i]).tabs == [] && !ws[i].close)
  {}

  lemma AllTorn(was: seq<Window>, now: seq<Window>, closers: seq<nat>, toClose: seq<nat>, taken: seq<Addr>)
    requires Progress(was, now, closers, toClose, taken, Where(Asks, was, |was|)) && closers == Closers(was)
    ensures now == TornUpTo(was, |was|) && toClose == ToClose(was)
    ensures TearsAt(was, TearOffs(was)) && taken == Taken(was, TearOffs(was), |TearOffs(was)|)
  {
    hide Taken;
    AmongWhere(Emptied, Asks, was, |was|);
    AmongWhere(Tears, Asks, was, |was|);
    assert forall w :: !Asks(w) ==> Torn(w) == Clear(w);
  }

  lemma TakenAfter(was: seq<Window>, before: seq<nat>, i: nat)
    requires TearsAt(was, before) && i < |was| && Tears(was[i])
    ensures TearsAt(was, before + [i])
    ensures Taken(was, before + [i], |before| + 1) == Taken(was, before, |before|) + [TornAddr(was[i])]
  {
    TakenOfPrefix(was, before + [i], before, |before|);
  }
}
