/** What the process does with the requests its windows raised during one dispatch: open, tear
    off, close, in the order `drain_requests` takes them. */
module WindowDrain {
  import opened Wrappers
  import opened Closing

  datatype Addr = Session(n: nat) | Placeholder(n: nat)

  datatype Window = Window(
    id: nat,
    tabs: seq<Addr>,
    newWindow: bool,
    close: bool,
    tearOff: Option<Addr>)

  datatype Desk = Desk(windows: seq<Window>, focused: Option<nat>, nextId: nat, minted: nat, exiting: bool)

  // ---- one window ----

  function Clear(w: Window): (v: Window) {
    w.(newWindow := false, close := false, tearOff := None)
  }

  /** The tab asked to be torn off is there to take. */
  predicate Tears(w: Window) {
    w.tearOff.Some? && w.tearOff.value in w.tabs
  }

  predicate Shuts(w: Window) {
    w.close
  }

  predicate Opens(w: Window) {
    w.newWindow
  }

  function TornAddr(w: Window): (a: Addr)
    requires Tears(w)
  {
    w.tearOff.value
  }

  function WithoutFirst(tabs: seq<Addr>, addr: Addr): (r: seq<Addr>)
    requires addr in tabs
    ensures multiset(r) + multiset{addr} == multiset(tabs)
  {
    if tabs[0] == addr then
      assert tabs == [addr] + tabs[1..];
      tabs[1..]
    else
      assert tabs == [tabs[0]] + tabs[1..];
      [tabs[0]] + WithoutFirst(tabs[1..], addr)
  }

  function Torn(w: Window): (v: Window) {
    if Tears(w) then Clear(w).(tabs := WithoutFirst(w.tabs, w.tearOff.value)) else Clear(w)
  }

  /** The tear-off takes a window's last tab, and the window had not asked to close. */
  predicate Emptied(w: Window) {
    Tears(w) && Torn(w).tabs == [] && !w.close
  }

  // ---- the whole strip ----

  function TornUpTo(ws: seq<Window>, n: nat): (r: seq<Window>)
    requires n <= |ws|
    ensures |r| == n && forall i :: 0 <= i < n ==> r[i] == Torn(ws[i])
  {
    if n == 0 then [] else TornUpTo(ws, n - 1) + [Torn(ws[n - 1])]
  }

  function Where(p: Window -> bool, ws: seq<Window>, n: nat): (c: seq<nat>)
    requires n <= |ws|
    ensures Ascending(c)
    ensures forall i :: i in c <==> 0 <= i < n && p(ws[i])
  {
    if n == 0 then []
    else if p(ws[n - 1]) then
      var before := Where(p, ws, n - 1);
      assert forall k :: 0 <= k < |before| ==> before[k] in before;
      before + [n - 1]
    else Where(p, ws, n - 1)
  }

  function Closers(ws: seq<Window>): (c: seq<nat>) {
    Where(Shuts, ws, |ws|)
  }

  function Empties(ws: seq<Window>): (c: seq<nat>) {
    Where(Emptied, ws, |ws|)
  }

  /** The close list: the windows that asked, then the ones a tear-off emptied. */
  function ToClose(ws: seq<Window>): (c: seq<nat>) {
    Closers(ws) + Empties(ws)
  }

  function Openers(ws: seq<Window>): (c: seq<nat>) {
    Where(Opens, ws, |ws|)
  }

  function TearOffs(ws: seq<Window>): (c: seq<nat>) {
    Where(Tears, ws, |ws|)
  }

  /** What is opened, as each window's first tab: a shell for every window asked for, then
      every tab torn off. */
  function FirstTabs(ws: seq<Window>, minted: nat): (tabs: seq<Addr>)
    ensures |tabs| == |Openers(ws)| + |TearOffs(ws)|
  {
    var torn := TearOffs(ws);
    assert forall k :: 0 <= k < |torn| ==> torn[k] in torn;
    seq(|Openers(ws)|, (i: nat) => Placeholder(minted + 1 + i)) + Taken(ws, torn, |torn|)
  }

  function Taken(ws: seq<Window>, c: seq<nat>, n: nat): (tabs: seq<Addr>)
    requires n <= |c| && forall k :: 0 <= k < |c| ==> c[k] < |ws| && Tears(ws[c[k]])
    ensures |tabs| == n && forall k :: 0 <= k < n ==> tabs[k] == TornAddr(ws[c[k]])
  {
    if n == 0 then [] else Taken(ws, c, n - 1) + [TornAddr(ws[c[n - 1]])]
  }

  function OpenedUpTo(tabs: seq<Addr>, nextId: nat, n: nat): (ws: seq<Window>)
    requires n <= |tabs|
    ensures |ws| == n && forall k :: 0 <= k < n ==> ws[k] == Window(nextId + k, [tabs[k]], false, false, None)
  {
    if n == 0 then [] else OpenedUpTo(tabs, nextId, n - 1) + [Window(nextId + n - 1, [tabs[n - 1]], false, false, None)]
  }

  function Opened(d: Desk): (ws: seq<Window>) {
    var tabs := FirstTabs(d.windows, d.minted);
    OpenedUpTo(tabs, d.nextId, |tabs|)
  }

  /** The desk once everything asked for is open and every torn-off tab has moved. */
  function Spread(d: Desk): (e: Desk) {
    var added := Opened(d);
    Desk(TornUpTo(d.windows, |d.windows|) + added,
         if d.focused.None? && added != [] then Some(d.nextId) else d.focused,
         d.nextId + |added|, d.minted + |Openers(d.windows)|, d.exiting)
  }

  function CloseOne(d: Desk, i: nat): (e: Desk)
    requires i < |d.windows|
  {
    var rest := Remove(d.windows, i);
    d.(windows := rest,
       focused := if d.focused == Some(d.windows[i].id) then (if rest == [] then None else Some(rest[|rest| - 1].id)) else d.focused,
       exiting := d.exiting || rest == [])
  }

  function CloseAll(d: Desk, c: seq<nat>): (e: Desk)
    requires Fits(c, |d.windows|)
    ensures e.windows == RemoveAll(d.windows, c)
    decreases |c|
  {
    if c == [] then d
    else
      var last := |c| - 1;
      assert c[last] < |d.windows|;
      assert forall k :: 0 <= k < last ==> c[..last][k] == c[k];
      CloseAll(CloseOne(d, c[last]), c[..last])
  }

  lemma {:induction false} AscendingFits(c: seq<nat>, n: nat, k: nat)
    requires Ascending(c) && k < |c| && c[|c| - 1] < n
    ensures c[k] + (|c| - 1 - k) < n
    decreases |c| - k
  {
    if k < |c| - 1 {
      AscendingFits(c, n, k + 1);
    }
  }

  lemma {:induction false} FewerEmptied(ws: seq<Window>, n: nat)
    requires n <= |ws|
    ensures |Where(Emptied, ws, n)| <= |Where(Tears, ws, n)|
  {
    if n > 0 {
      FewerEmptied(ws, n - 1);
    }
  }

  /** No close in the drain ever falls off the list, whatever was asked for. */
  lemma ClosesFit(d: Desk)
    ensures Fits(ToClose(d.windows), |Spread(d).windows|)
  {
    hide Where, FirstTabs, OpenedUpTo, TornUpTo, Emptied, Tears, Ascending;
    var n := |d.windows|;
    var a, b, c := Closers(d.windows), Empties(d.windows), ToClose(d.windows);
    FewerEmptied(d.windows, n);
    assert |Spread(d).windows| >= n + |b|;
    forall k | 0 <= k < |c|
      ensures c[k] + (|c| - 1 - k) < n + |b|
    {
      if k < |a| {
        assert a[|a| - 1] in a;
        AscendingFits(a, n, k);
      } else {
        assert b[|b| - 1] in b;
        AscendingFits(b, n, k - |a|);
      }
    }
  }

  /** The whole of `drain_requests`. */
  function Drained(d: Desk): (e: Desk) {
    ClosesFit(d);
    CloseAll(Spread(d), ToClose(d.windows))
  }

  // ---- what it should leave ----

  predicate Goes(w: Window) {
    w.close || Emptied(w)
  }

  function SurvivorsUpTo(ws: seq<Window>, n: nat): (r: seq<Window>)
    requires n <= |ws|
  {
    if n == 0 then [] else SurvivorsUpTo(ws, n - 1) + (if Goes(ws[n - 1]) then [] else [Torn(ws[n - 1])])
  }

  /** The windows that neither asked to close nor lost their last tab, less the tabs torn off. */
  function Survivors(ws: seq<Window>): (r: seq<Window>) {
    SurvivorsUpTo(ws, |ws|)
  }

  /** No window that a tear-off empties comes before one that asked to close. */
  predicate InOrder(ws: seq<Window>) {
    forall i, j :: 0 <= i < j < |ws| ==> !(Emptied(ws[i]) && ws[j].close)
  }

  predicate Ok(d: Desk) {
    && (forall i, j :: 0 <= i < j < |d.windows| ==> d.windows[i].id != d.windows[j].id)
    && (forall i :: 0 <= i < |d.windows| ==> d.windows[i].id < d.nextId)
  }

  lemma EmptiedDidNotAsk(ws: seq<Window>)
    ensures forall i :: i in Empties(ws) ==> !ws[i].close
  {
    hide Where;
  }

  lemma OrderIsAscending(ws: seq<Window>)
    ensures Ascending(ToClose(ws)) <==> InOrder(ws)
    ensures Distinct(ToClose(ws)) && forall i :: i in ToClose(ws) <==> 0 <= i < |ws| && Goes(ws[i])
  {
    hide Where, Emptied, Ascending, Distinct;
    var a, b := Closers(ws), Empties(ws);
    EmptiedDidNotAsk(ws);
    assert forall i :: i in a ==> ws[i].close;
    ConcatOrder(a, b);
    if !InOrder(ws) {
      var i, j :| 0 <= i < j < |ws| && Emptied(ws[i]) && ws[j].close;
      assert i in b && j in a;
    } else {
      forall i, j | i in a && j in b
        ensures i < j
      {
        assert i != j && !(Emptied(ws[j]) && ws[i].close && j < i);
      }
    }
  }

  lemma ConcatOrder(a: seq<nat>, b: seq<nat>)
    requires Ascending(a) && Ascending(b) && forall i :: i in a ==> i !in b
    ensures Distinct(a + b)
    ensures Ascending(a + b) <==> forall i, j :: i in a && j in b ==> i < j
  {
    var c := a + b;
    forall i, j | 0 <= i < j < |c|
      ensures c[i] != c[j]
      ensures (forall i, j :: i in a && j in b ==> i < j) ==> c[i] < c[j]
    {
      if i < |a| <= j {
        assert a[i] in a && b[j - |a|] in b;
      }
    }
    if Ascending(c) {
      forall i, j | i in a && j in b
        ensures i < j
      {
        var x :| 0 <= x < |a| && a[x] == i;
        var y :| 0 <= y < |b| && b[y] == j;
        assert c[x] == i && c[|a| + y] == j;
      }
    }
  }

  lemma {:induction false} KeptAreSurvivors(ws: seq<Window>, added: seq<Window>, c: seq<nat>, n: nat)
    requires n <= |ws| + |added| && forall i :: i in c <==> 0 <= i < |ws| && Goes(ws[i])
    ensures KeepUpTo(TornUpTo(ws, |ws|) + added, c, n)
      == if n <= |ws| then SurvivorsUpTo(ws, n) else Survivors(ws) + added[..n - |ws|]
  {
    hide Goes, Torn;
    if n > 0 {
      KeptAreSurvivors(ws, added, c, n - 1);
      var all := TornUpTo(ws, |ws|) + added;
      if n > |ws| {
        assert all[n - 1] == added[n - 1 - |ws|];
        Appended(Survivors(ws), added, n - |ws|);
      } else {
        assert all[n - 1] == Torn(ws[n - 1]);
      }
    }
  }

  lemma Appended(before: seq<Window>, added: seq<Window>, n: nat)
    requires 0 < n <= |added|
    ensures before + added[..n] == before + added[..n - 1] + [added[n - 1]]
  {}

  /** The drain closes exactly the windows that asked to close or that a tear-off emptied, and
      never one it has just opened, if and only if no window emptied by a tear-off comes before
      one that asked to close. */
  lemma DrainClosesWhatAsked(d: Desk)
    requires Ok(d)
    ensures Drained(d).windows == Survivors(d.windows) + Opened(d) <==> InOrder(d.windows)
  {
    hide Where, Opened, Torn, RemoveAll, KeepUpTo;
    var ws, added, c := d.windows, Opened(d), ToClose(d.windows);
    var all := Spread(d).windows;
    OrderIsAscending(ws);
    ClosesFit(d);
    KeptAreSurvivors(ws, added, c, |all|);
    assert added[..|added|] == added;
    DistinctWindows(d);
    RemovesWhatIsMeant(all, c);
  }

  lemma DistinctWindows(d: Desk)
    requires Ok(d)
    ensures Ok(Spread(d)) && Distinct(Spread(d).windows)
  {
    hide Where, FirstTabs;
    var all := Spread(d).windows;
    assert forall i :: 0 <= i < |d.windows| ==> all[i].id == d.windows[i].id;
    assert forall i :: |d.windows| <= i < |all| ==> all[i].id == d.nextId + (i - |d.windows|);
  }

  // ---- where the tabs go ----

  /** How many times a tab is on a strip, and over the first `n` windows. */
  function Times(tabs: seq<Addr>, x: Addr): (k: nat) {
    multiset(tabs)[x]
  }

  function TimesUpTo(ws: seq<Window>, n: nat, x: Addr): (k: nat)
    requires n <= |ws|
  {
    if n == 0 then 0 else TimesUpTo(ws, n - 1, x) + Times(ws[n - 1].tabs, x)
  }

  function TimesIn(ws: seq<Window>, x: Addr): (k: nat) {
    TimesUpTo(ws, |ws|, x)
  }

  /** The tabs that go with the windows that asked to close, once what was torn off is out. */
  function DetachedUpTo(ws: seq<Window>, n: nat, x: Addr): (k: nat)
    requires n <= |ws|
  {
    if n == 0 then 0
    else DetachedUpTo(ws, n - 1, x) + (if ws[n - 1].close then Times(Torn(ws[n - 1]).tabs, x) else 0)
  }

  /** The tabs of the windows that stay, and the tabs torn off. */
  function KeptUpTo(ws: seq<Window>, n: nat, x: Addr): (k: nat)
    requires n <= |ws|
  {
    if n == 0 then 0
    else KeptUpTo(ws, n - 1, x) + (if Goes(ws[n - 1]) then 0 else Times(Torn(ws[n - 1]).tabs, x))
  }

  function MovedUpTo(ws: seq<Window>, n: nat, x: Addr): (k: nat)
    requires n <= |ws|
  {
    if n == 0 then 0
    else MovedUpTo(ws, n - 1, x) + (if Tears(ws[n - 1]) && TornAddr(ws[n - 1]) == x then 1 else 0)
  }

  /** The shells of the windows asked for. */
  function Shells(d: Desk): (tabs: seq<Addr>) {
    seq(|Openers(d.windows)|, (i: nat) => Placeholder(d.minted + 1 + i))
  }

  lemma {:induction false} TimesOfAdded(tabs: seq<Addr>, nextId: nat, n: nat, x: Addr)
    requires n <= |tabs|
    ensures TimesUpTo(OpenedUpTo(tabs, nextId, |tabs|), n, x) == Times(tabs[..n], x)
  {
    if n > 0 {
      TimesOfAdded(tabs, nextId, n - 1, x);
      assert tabs[..n] == tabs[..n - 1] + [tabs[n - 1]];
    }
  }

  lemma {:induction false} TimesOfConcat(a: seq<Window>, b: seq<Window>, n: nat, x: Addr)
    requires n <= |b|
    ensures TimesUpTo(a + b, |a| + n, x) == TimesIn(a, x) + TimesUpTo(b, n, x)
  {
    if n > 0 {
      TimesOfConcat(a, b, n - 1, x);
    } else {
      TimesOfPrefix(a, b, |a|, x);
    }
  }

  lemma {:induction false} TimesOfPrefix(a: seq<Window>, b: seq<Window>, n: nat, x: Addr)
    requires n <= |a|
    ensures TimesUpTo(a + b, n, x) == TimesUpTo(a, n, x)
  {
    if n > 0 {
      TimesOfPrefix(a, b, n - 1, x);
    }
  }

  /** What stays, what moves and what is detached is all there was. */
  lemma {:induction false} TabsSplit(ws: seq<Window>, n: nat, x: Addr)
    requires n <= |ws|
    ensures KeptUpTo(ws, n, x) + MovedUpTo(ws, n, x) + DetachedUpTo(ws, n, x) == TimesUpTo(ws, n, x)
  {
    hide Torn, Tears, TornAddr, Goes, Times;
    if n > 0 {
      TabsSplit(ws, n - 1, x);
      OneWindow(ws[n - 1], x);
    }
  }

  /** One window's tabs: kept, emptied out or detached, and the one taken. */
  lemma OneWindow(w: Window, x: Addr)
    ensures Times(w.tabs, x) == Times(Torn(w).tabs, x) + (if Tears(w) && TornAddr(w) == x then 1 else 0)
    ensures Goes(w) && !w.close ==> Times(Torn(w).tabs, x) == 0
    ensures w.close ==> Goes(w)
  {
    if Tears(w) {
      assert multiset(w.tabs) == multiset(Torn(w).tabs) + multiset{TornAddr(w)};
    }
  }

  lemma {:induction false} KeptAreTheirs(ws: seq<Window>, n: nat, x: Addr)
    requires n <= |ws|
    ensures TimesIn(SurvivorsUpTo(ws, n), x) == KeptUpTo(ws, n, x)
  {
    hide Torn, Goes, Times;
    if n > 0 {
      KeptAreTheirs(ws, n - 1, x);
      var more := if Goes(ws[n - 1]) then [] else [Torn(ws[n - 1])];
      TimesOfConcat(SurvivorsUpTo(ws, n - 1), more, |more|, x);
      assert more != [] ==> TimesUpTo(more, 0, x) == 0;
    }
  }

  predicate TearsAt(ws: seq<Window>, c: seq<nat>) {
    forall k :: 0 <= k < |c| ==> c[k] < |ws| && Tears(ws[c[k]])
  }

  lemma TearOffsTear(ws: seq<Window>, n: nat)
    requires n <= |ws|
    ensures TearsAt(ws, Where(Tears, ws, n))
  {
    var c := Where(Tears, ws, n);
    forall k | 0 <= k < |c|
      ensures c[k] < |ws| && Tears(ws[c[k]])
    {
      assert c[k] in c;
    }
  }

  lemma NothingTaken(ws: seq<Window>, x: Addr)
    ensures Taken(ws, [], 0) == [] && Times([], x) == 0
  {}

  lemma {:induction false} MovedAreTaken(ws: seq<Window>, n: nat, x: Addr)
    requires n <= |ws|
    ensures var c := Where(Tears, ws, n);
      TearsAt(ws, c) && Times(Taken(ws, c, |c|), x) == MovedUpTo(ws, n, x)
  {
    hide Tears, TornAddr, Taken, TearsAt, Times;
    TearOffsTear(ws, n);
    NothingTaken(ws, x);
    if n > 0 {
      MovedAreTaken(ws, n - 1, x);
      if Tears(ws[n - 1]) {
        TakenOneMore(ws, Where(Tears, ws, n - 1), n - 1, x);
      }
    }
  }

  lemma TakenOneMore(ws: seq<Window>, before: seq<nat>, i: nat, x: Addr)
    requires i < |ws| && Tears(ws[i]) && TearsAt(ws, before)
    ensures var c := before + [i];
      TearsAt(ws, c) && Times(Taken(ws, c, |c|), x) == Times(Taken(ws, before, |before|), x) + (if TornAddr(ws[i]) == x then 1 else 0)
  {
    TakenOfPrefix(ws, before + [i], before, |before|);
  }

  lemma {:induction false} TakenOfPrefix(ws: seq<Window>, c: seq<nat>, b: seq<nat>, n: nat)
    requires b <= c && n <= |b| && forall k :: 0 <= k < |c| ==> c[k] < |ws| && Tears(ws[c[k]])
    ensures Taken(ws, c, n) == Taken(ws, b, n)
  {
    if n > 0 {
      TakenOfPrefix(ws, c, b, n - 1);
    }
  }

  lemma TabsAre(d: Desk)
    ensures var torn := TearOffs(d.windows);
      TearsAt(d.windows, torn) && FirstTabs(d.windows, d.minted) == Shells(d) + Taken(d.windows, torn, |torn|)
  {
    hide Where, Taken;
    TearOffsTear(d.windows, |d.windows|);
  }

  /** Whatever the drain is asked for, in order it loses no tab and doubles none: how often a
      tab is open afterwards, with the times it was detached by a window that asked to close, is
      how often it was open before and among the shells opened. */
  lemma DrainKeepsTabs(d: Desk, x: Addr)
    requires Ok(d) && InOrder(d.windows)
    ensures TimesIn(Drained(d).windows, x) + DetachedUpTo(d.windows, |d.windows|, x)
      == TimesIn(d.windows, x) + Times(Shells(d), x)
  {
    hide Where, TimesUpTo, SurvivorsUpTo, DetachedUpTo, KeptUpTo, MovedUpTo, Drained, Taken, FirstTabs, TearsAt, Tears, Shells;
    TabsAre(d);
    var ws, tabs := d.windows, FirstTabs(d.windows, d.minted);
    var torn := TearOffs(ws);
    DrainClosesWhatAsked(d);
    TabsSplit(ws, |ws|, x);
    KeptAreTheirs(ws, |ws|, x);
    MovedAreTaken(ws, |ws|, x);
    TimesOfAdded(tabs, d.nextId, |tabs|, x);
    assert tabs[..|tabs|] == tabs;
    assert tabs == Shells(d) + Taken(ws, torn, |torn|);
    TimesOfConcat(Survivors(ws), Opened(d), |Opened(d)|, x);
  }

  /** Every tab torn off is the one tab of a window of its own that the drain leaves open. */
  lemma TornTabsMove(d: Desk, i: nat) returns (k: nat)
    requires Ok(d) && InOrder(d.windows) && i < |d.windows| && Tears(d.windows[i])
    ensures k < |Drained(d).windows| && Drained(d).windows[k].tabs == [d.windows[i].tearOff.value]
    ensures Drained(d).windows[k].id >= d.nextId
  {
    hide Where, Drained, SurvivorsUpTo;
    DrainClosesWhatAsked(d);
    var torn := TearOffs(d.windows);
    assert i in torn;
    var x :| 0 <= x < |torn| && torn[x] == i;
    var y := |Openers(d.windows)| + x;
    assert Opened(d)[y].tabs == [FirstTabs(d.windows, d.minted)[y]];
    k := |Survivors(d.windows)| + y;
  }

  /** Where no window but the one tearing off asks to close, as after an event of one window, the
      order holds and the drain does what was asked. */
  lemma OneWindowIsInOrder(d: Desk)
    requires Ok(d)
    requires forall i, j :: 0 <= i < |d.windows| && 0 <= j < |d.windows| && Tears(d.windows[i]) && d.windows[j].close ==> i == j
    ensures Drained(d).windows == Survivors(d.windows) + Opened(d)
  {
    hide Drained, Opened, Survivors;
    DrainClosesWhatAsked(d);
  }

  /** Out of order it does neither: a window empties itself by tearing off its tab, a later one
      asks to close; the later one stays and the torn-off tab is lost. */
  lemma TornTabIsLost(d: Desk, a: Addr, b: Addr)
    requires Ok(d) && a != b && |d.windows| == 2
    requires d.windows[0].tabs == [a] && d.windows[0].tearOff == Some(a) && !d.windows[0].close && !d.windows[0].newWindow
    requires d.windows[1].tabs == [b] && d.windows[1].close && d.windows[1].tearOff == None && !d.windows[1].newWindow
    ensures Drained(d).windows == [Clear(d.windows[1])]
  {
    hide Where, FirstTabs;
    var ws := d.windows;
    OneTearsOneShuts(ws);
    ClosesFit(d);
    var spread := Spread(d);
    assert |spread.windows| == 3 && spread.windows[1] == Clear(ws[1]);
    hide Spread;
    CloseWrong(spread);
  }

  lemma OneTearsOneShuts(ws: seq<Window>)
    requires |ws| == 2 && Tears(ws[0]) && Emptied(ws[0]) && !ws[0].close && !ws[0].newWindow
    requires ws[1].close && ws[1].tearOff == None && !ws[1].newWindow
    ensures |TearOffs(ws)| == 1 && |Openers(ws)| == 0 && ToClose(ws) == [1, 0]
  {
    OneIn(Tears, ws, 0);
    OneIn(Emptied, ws, 0);
    OneIn(Shuts, ws, 1);
    assert Where(Opens, ws, 1) == [];
  }

  lemma CloseWrong(d: Desk)
    requires |d.windows| == 3
    ensures Fits([1, 0], 3) && CloseAll(d, [1, 0]).windows == [d.windows[1]]
  {
    var one := CloseOne(d, 0);
    var two := CloseOne(one, 1);
    assert two.windows == [d.windows[1]];
    assert [1, 0][..1] == [1] && [1][..0] == [];
    assert CloseAll(one, [1]) == CloseAll(two, []);
    assert CloseAll(d, [1, 0]) == CloseAll(one, [1]);
  }

  lemma OneIn(p: Window -> bool, ws: seq<Window>, i: nat)
    requires |ws| == 2 && i < 2 && p(ws[i]) && !p(ws[1 - i])
    ensures Where(p, ws, 2) == [i]
  {
    assert Where(p, ws, 0) == [];
    assert Where(p, ws, 1) == if i == 0 then [0] else [];
  }

  // ---- the focus ----

  predicate FocusOk(d: Desk) {
    d.focused.Some? ==> exists i :: 0 <= i < |d.windows| && d.windows[i].id == d.focused.value
  }

  lemma RemovedAt(ws: seq<Window>, i: nat)
    requires i < |ws|
    ensures forall k :: 0 <= k < |ws| - 1 ==> Remove(ws, i)[k] == ws[if k < i then k else k + 1]
  {}

  lemma CloseKeepsOk(d: Desk, i: nat)
    requires Ok(d) && i < |d.windows|
    ensures Ok(CloseOne(d, i))
  {
    hide Remove;
    RemovedAt(d.windows, i);
  }

  lemma CloseKeepsFocus(d: Desk, i: nat)
    requires Ok(d) && FocusOk(d) && i < |d.windows|
    ensures Ok(CloseOne(d, i)) && FocusOk(CloseOne(d, i))
  {
    hide Remove, Ok;
    CloseKeepsOk(d, i);
    RemovedAt(d.windows, i);
    var rest := Remove(d.windows, i);
    if d.focused.Some? {
      var j :| 0 <= j < |d.windows| && d.windows[j].id == d.focused.value;
      if j < i {
        assert rest[j] == d.windows[j];
      } else if j > i {
        assert rest[j - 1] == d.windows[j];
      }
    }
  }

  lemma {:induction false} ClosesKeepFocus(d: Desk, c: seq<nat>)
    requires Ok(d) && FocusOk(d) && Fits(c, |d.windows|)
    ensures FocusOk(CloseAll(d, c))
    decreases |c|
  {
    if c != [] {
      var last := |c| - 1;
      assert c[last] + 0 < |d.windows|;
      assert forall k :: 0 <= k < last ==> c[..last][k] == c[k];
      CloseKeepsFocus(d, c[last]);
      ClosesKeepFocus(CloseOne(d, c[last]), c[..last]);
    }
  }

  /** Whatever the drain closes, the focus it leaves names a window that is open. */
  lemma DrainKeepsFocus(d: Desk)
    requires Ok(d) && FocusOk(d)
    ensures FocusOk(Drained(d))
  {
    hide Where, FirstTabs;
    DistinctWindows(d);
    ClosesFit(d);
    var e := Spread(d);
    if d.focused.Some? {
      var i :| 0 <= i < |d.windows| && d.windows[i].id == d.focused.value;
      assert e.windows[i].id == d.focused.value;
    } else if Opened(d) != [] {
      assert e.windows[|d.windows|].id == d.nextId;
    }
    ClosesKeepFocus(e, ToClose(d.windows));
  }
}
