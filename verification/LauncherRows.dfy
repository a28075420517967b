/** The launcher's groups flattened into lines: a row as drawn, and what it does. */
module LauncherRows {
  import opened Wrappers
  import opened LauncherMenu

  datatype Line = Line(row: Row, action: Action)

  predicate Launches(a: Action) {
    a.Launch? || a.LaunchDefault?
  }

  // ---- the lines ----

  function DigitOf(nth: nat): (d: Option<nat>) {
    if nth <= 9 then Some(nth) else None
  }

  function EntryLine(e: Entry, before: nat, active: Option<string>): (l: Line) {
    Line(Profile(e.name, e.command, before == 0, DigitOf(before + 1), e.target.Local? && active == Some(e.target.name)),
         Launch(e.target))
  }

  function EntryLines(entries: seq<Entry>, n: nat, before: nat, active: Option<string>): (ls: seq<Line>)
    requires n <= |entries|
    ensures |ls| == n && forall i :: 0 <= i < n ==> ls[i] == EntryLine(entries[i], before + i, active)
  {
    if n == 0 then [] else EntryLines(entries, n - 1, before, active) + [EntryLine(entries[n - 1], before + n - 1, active)]
  }

  function HeaderRow(s: Source, k: Key): (r: Row) {
    if k.rank == 0 then Header("any machine", true)
    else if k.rank == 1 then
      var here := LocalTitle(s.fleet);
      Header(if here.Some? then "this machine \U{00b7} " + here.value else "this machine", true)
    else if k.rank == 2 && k.host.Some? then
      var h := FindHost(s.fleet, k.host.value);
      Header(k.title, h.Some? && h.value.online)
    else Header(k.title, false)
  }

  function LocalTitle(fleet: seq<Host>): (l: Option<string>) {
    if fleet == [] then None else if fleet[0].local then Some(fleet[0].title) else LocalTitle(fleet[1..])
  }

  function Launched(gs: seq<Group>, n: nat): (c: nat)
    requires n <= |gs|
  {
    if n == 0 then 0 else Launched(gs, n - 1) + |gs[n - 1].entries|
  }

  function GroupLines(s: Source, gs: seq<Group>, n: nat, headed: bool, active: Option<string>): (ls: seq<Line>)
    requires n <= |gs|
  {
    if n == 0 then []
    else
      var g := gs[n - 1];
      GroupLines(s, gs, n - 1, headed, active)
        + (if headed then [Line(HeaderRow(s, g.key), Nothing)] else [])
        + EntryLines(g.entries, |g.entries|, Launched(gs, n - 1), active)
  }

  /** Enrolled and online, with nothing heard from it and no group of its own. */
  predicate Waits(h: Host, gs: seq<Group>) {
    && !h.local && h.enrolled && h.online && h.offer.None? && !h.answered
    && !exists i :: 0 <= i < |gs| && gs[i].key.host == Some(h.id)
  }

  function WaitingUpTo(fleet: seq<Host>, gs: seq<Group>, n: nat): (hs: seq<Host>)
    requires n <= |fleet|
  {
    if n == 0 then [] else WaitingUpTo(fleet, gs, n - 1) + (if Waits(fleet[n - 1], gs) then [fleet[n - 1]] else [])
  }

  /** A stable sort by display name. */
  function Insert(hs: seq<Host>, h: Host): (r: seq<Host>) {
    if hs == [] || !StringLess(h.title, hs[|hs| - 1].title) then hs + [h]
    else Insert(hs[..|hs| - 1], h) + [hs[|hs| - 1]]
  }

  function SortedUpTo(hs: seq<Host>, n: nat): (r: seq<Host>)
    requires n <= |hs|
  {
    if n == 0 then [] else Insert(SortedUpTo(hs, n - 1), hs[n - 1])
  }

  function Pending(s: Source, gs: seq<Group>): (hs: seq<Host>) {
    var waiting := WaitingUpTo(s.fleet, gs, |s.fleet|);
    SortedUpTo(waiting, |waiting|)
  }

  function PendingLines(hs: seq<Host>, n: nat): (ls: seq<Line>)
    requires n <= |hs|
  {
    if n == 0 then [] else PendingLines(hs, n - 1) + [Line(Header(hs[n - 1].title, true), Nothing), Line(Note, Nothing)]
  }

  /** Headers whenever there is more than this machine to speak of. */
  predicate Headed(gs: seq<Group>, pending: seq<Host>) {
    |gs| + |pending| > 1 || (gs != [] && gs[0].key.rank != 1)
  }

  function DefaultLine(s: Source): (l: Line) {
    Line(Profile("Default shell", s.fallback, true, Some(1), false), LaunchDefault)
  }

  function Tail(): (ls: seq<Line>) {
    [Line(Divider, Nothing), Line(RunOnHostRow, RunOnHost(None)), Line(ManageProfilesRow, ManageProfiles)]
  }

  function TargetLines(s: Source, active: Option<string>): (ls: seq<Line>) {
    var gs := Groups(s);
    if gs == [] then [DefaultLine(s)] else GroupLines(s, gs, |gs|, Headed(gs, Pending(s, gs)), active)
  }

  function MenuLines(s: Source, active: Option<string>): (ls: seq<Line>) {
    var pending := Pending(s, Groups(s));
    TargetLines(s, active) + PendingLines(pending, |pending|) + Tail()
  }

  // ---- counting launches ----

  function Before(ls: seq<Line>, i: nat): (n: nat)
    requires i <= |ls|
  {
    if i == 0 then 0 else Before(ls, i - 1) + (if Launches(ls[i - 1].action) then 1 else 0)
  }

  /** Launch rows are numbered in the order they are drawn, from `base` on; the first of all is
      the default; nothing else is drawn as a profile. */
  predicate NumberedFrom(ls: seq<Line>, base: nat) {
    forall i :: 0 <= i < |ls| ==> Numbered(ls[i], base + Before(ls, i))
  }

  predicate Numbered(l: Line, before: nat) {
    && (Launches(l.action) <==> l.row.Profile?)
    && (l.row.Profile? ==> l.row.digit == DigitOf(before + 1) && (l.row.default <==> before == 0))
  }

  lemma {:induction false} BeforeConcat(a: seq<Line>, b: seq<Line>, i: nat)
    requires i <= |a| + |b|
    ensures Before(a + b, i) == if i <= |a| then Before(a, i) else Before(a, |a|) + Before(b, i - |a|)
  {
    if i > 0 {
      BeforeConcat(a, b, i - 1);
    }
  }

  lemma NumberedConcat(a: seq<Line>, b: seq<Line>, base: nat)
    requires NumberedFrom(a, base) && NumberedFrom(b, base + Before(a, |a|))
    ensures NumberedFrom(a + b, base) && Before(a + b, |a + b|) == Before(a, |a|) + Before(b, |b|)
  {
    hide Numbered, Before, NumberedFrom;
    forall i | 0 <= i < |a + b|
      ensures Numbered((a + b)[i], base + Before(a + b, i))
    {
      NumberedAt(a, b, base, i);
    }
    NumberedAll(a + b, base);
    BeforeConcat(a, b, |a + b|);
    BeforeStart(b);
  }

  lemma NumberedAll(ls: seq<Line>, base: nat)
    requires forall i :: 0 <= i < |ls| ==> Numbered(ls[i], base + Before(ls, i))
    ensures NumberedFrom(ls, base)
  {}

  lemma BeforeStart(ls: seq<Line>)
    ensures Before(ls, 0) == 0
  {}

  lemma NumberedAt(a: seq<Line>, b: seq<Line>, base: nat, i: nat)
    requires NumberedFrom(a, base) && NumberedFrom(b, base + Before(a, |a|)) && i < |a + b|
    ensures Numbered((a + b)[i], base + Before(a + b, i))
  {
    hide *;
    BeforeConcat(a, b, i);
    if i < |a| {
      NumberedIs(a, base, i);
      assert (a + b)[i] == a[i];
    } else {
      NumberedIs(b, base + Before(a, |a|), i - |a|);
      BeforeStart(b);
      assert (a + b)[i] == b[i - |a|];
    }
  }

  lemma NumberedIs(ls: seq<Line>, base: nat, i: nat)
    requires NumberedFrom(ls, base) && i < |ls|
    ensures Numbered(ls[i], base + Before(ls, i))
  {}

  lemma {:induction false} EntriesNumbered(entries: seq<Entry>, n: nat, before: nat, active: Option<string>)
    requires n <= |entries|
    ensures var ls := EntryLines(entries, n, before, active);
      Before(ls, n) == n && NumberedFrom(ls, before)
  {
    if n > 0 {
      EntriesNumbered(entries, n - 1, before, active);
      OneEntryNumbered(EntryLines(entries, n - 1, before, active), entries[n - 1], before, active);
    }
  }

  lemma OneEntryNumbered(ls: seq<Line>, e: Entry, before: nat, active: Option<string>)
    requires NumberedFrom(ls, before) && Before(ls, |ls|) == |ls|
    ensures var more := ls + [EntryLine(e, before + |ls|, active)];
      NumberedFrom(more, before) && Before(more, |more|) == |ls| + 1
  {
    hide *;
    var l := EntryLine(e, before + |ls|, active);
    EntryNumbered(e, before + |ls|, active);
    NumberedOne(l, before + |ls|);
    NumberedConcat(ls, [l], before);
  }

  lemma EntryNumbered(e: Entry, before: nat, active: Option<string>)
    ensures Numbered(EntryLine(e, before, active), before) && EntryLine(e, before, active).row.Profile?
    ensures EntryLine(e, before, active).action == Launch(e.target)
  {}

  lemma NumberedOne(l: Line, base: nat)
    requires Numbered(l, base)
    ensures NumberedFrom([l], base) && Before([l], 1) == if l.row.Profile? then 1 else 0
  {
    assert Before([l], 0) == 0;
  }

  lemma {:induction false} GroupsNumbered(s: Source, gs: seq<Group>, n: nat, headed: bool, active: Option<string>)
    requires n <= |gs|
    ensures var ls := GroupLines(s, gs, n, headed, active);
      Before(ls, |ls|) == Launched(gs, n) && NumberedFrom(ls, 0)
  {
    hide NumberedFrom, EntryLines, Before, HeaderRow;
    NumberedAll([], 0);
    BeforeStart([]);
    if n > 0 {
      GroupsNumbered(s, gs, n - 1, headed, active);
      OneGroupNumbered(s, GroupLines(s, gs, n - 1, headed, active), gs[n - 1], Launched(gs, n - 1), headed, active);
    }
  }

  lemma OneGroupNumbered(s: Source, before: seq<Line>, g: Group, launched: nat, headed: bool, active: Option<string>)
    requires NumberedFrom(before, 0) && Before(before, |before|) == launched
    ensures var ls := before + (if headed then [Line(HeaderRow(s, g.key), Nothing)] else [])
        + EntryLines(g.entries, |g.entries|, launched, active);
      NumberedFrom(ls, 0) && Before(ls, |ls|) == launched + |g.entries|
  {
    hide NumberedFrom, EntryLines, Before, HeaderRow;
    var head := if headed then [Line(HeaderRow(s, g.key), Nothing)] else [];
    var lines := EntryLines(g.entries, |g.entries|, launched, active);
    HeadNumbered(s, g, headed, launched);
    NumberedConcat(before, head, 0);
    EntriesNumbered(g.entries, |g.entries|, launched, active);
    NumberedConcat(before + head, lines, 0);
    assert |before + head + lines| == |before + head| + |lines|;
  }

  lemma HeadNumbered(s: Source, g: Group, headed: bool, base: nat)
    ensures var head := if headed then [Line(HeaderRow(s, g.key), Nothing)] else [];
      NumberedFrom(head, base) && Before(head, |head|) == 0
  {
    if headed {
      NumberedOne(Line(HeaderRow(s, g.key), Nothing), base);
    }
  }

  lemma {:induction false} PendingNumbered(hs: seq<Host>, n: nat, base: nat)
    requires n <= |hs|
    ensures NumberedFrom(PendingLines(hs, n), base) && Before(PendingLines(hs, n), |PendingLines(hs, n)|) == 0
  {
    if n > 0 {
      PendingNumbered(hs, n - 1, base);
      var a, b := Line(Header(hs[n - 1].title, true), Nothing), Line(Note, Nothing);
      NumberedOne(a, base);
      NumberedOne(b, base);
      NumberedConcat([a], [b], base);
      NumberedConcat(PendingLines(hs, n - 1), [a] + [b], base);
      assert [a] + [b] == [a, b];
    }
  }

  lemma DefaultNumbered(s: Source)
    ensures Numbered(DefaultLine(s), 0) && DefaultLine(s).row.Profile?
  {}

  lemma TailNumbered(base: nat)
    ensures NumberedFrom(Tail(), base) && Before(Tail(), 3) == 0
  {
    assert Before(Tail(), 0) == Before(Tail(), 1) == Before(Tail(), 2) == 0;
  }

  lemma {:induction false} SomeLaunched(gs: seq<Group>, n: nat)
    requires n <= |gs| && NoneEmpty(gs)
    ensures Launched(gs, n) >= n
  {
    if n > 0 {
      SomeLaunched(gs, n - 1);
    }
  }

  /** Every line of the menu is numbered so, and there is at least one launch row. */
  lemma MenuNumbered(s: Source, active: Option<string>)
    ensures var ls := MenuLines(s, active);
      NumberedFrom(ls, 0) && Before(ls, |ls|) >= 1 && Before(ls, |ls|) == Before(TargetLines(s, active), |TargetLines(s, active)|)
  {
    hide NumberedFrom, Groups, GroupLines, PendingLines, Pending, Before, DefaultLine, Numbered;
    GroupsInOrder(s);
    DefaultNumbered(s);
    var gs := Groups(s);
    var targets, pending := TargetLines(s, active), Pending(s, gs);
    if gs == [] {
      NumberedOne(DefaultLine(s), 0);
    } else {
      GroupsNumbered(s, gs, |gs|, Headed(gs, pending), active);
      SomeLaunched(gs, |gs|);
    }
    PendingNumbered(pending, |pending|, Before(targets, |targets|));
    NumberedConcat(targets, PendingLines(pending, |pending|), 0);
    var body := targets + PendingLines(pending, |pending|);
    TailNumbered(Before(body, |body|));
    NumberedConcat(body, Tail(), 0);
  }

  // ---- digits ----

  function Rows(ls: seq<Line>): (r: seq<Row>)
    ensures |r| == |ls| && forall i :: 0 <= i < |ls| ==> r[i] == ls[i].row
  {
    seq(|ls|, i requires 0 <= i < |ls| => ls[i].row)
  }

  function Actions(ls: seq<Line>): (r: seq<Action>)
    ensures |r| == |ls| && forall i :: 0 <= i < |ls| ==> r[i] == ls[i].action
  {
    seq(|ls|, i requires 0 <= i < |ls| => ls[i].action)
  }

  /** The index of the launch that has `n` launches before it, from `i` on. */
  function NthLaunch(actions: seq<Action>, n: nat, i: nat): (r: Option<nat>)
    requires i <= |actions|
    decreases |actions| - i
  {
    if i == |actions| then None
    else if !Launches(actions[i]) then NthLaunch(actions, n, i + 1)
    else if n == 0 then Some(i)
    else NthLaunch(actions, n - 1, i + 1)
  }

  /** `digit_action_index`: what a plain digit runs, over the actions alone. */
  function DigitIndex(actions: seq<Action>, digit: nat): (r: Option<nat>) {
    if digit == 0 then None else NthLaunch(actions, digit - 1, 0)
  }

  lemma {:induction false} NthIs(ls: seq<Line>, n: nat, i: nat, j: nat)
    requires i <= |ls|
    ensures NthLaunch(Actions(ls), n, i) == Some(j)
      <==> i <= j < |ls| && Launches(ls[j].action) && Before(ls, j) == Before(ls, i) + n
    decreases |ls| - i
  {
    if i < |ls| {
      var launches := Launches(ls[i].action);
      if launches && n == 0 {
        if j <= |ls| {
          BeforeGrows(ls, i + 1, j);
        }
      } else {
        NthIs(ls, if launches then n - 1 else n, i + 1, j);
      }
    }
  }

  lemma {:induction false} BeforeGrows(ls: seq<Line>, i: nat, j: nat)
    requires j <= |ls|
    ensures i <= j ==> Before(ls, i) <= Before(ls, j)
    decreases j
  {
    if i < j {
      BeforeGrows(ls, i, j - 1);
    }
  }

  /** The digit drawn on a row is the digit that runs it: for every digit a key can name, and
      no row is drawn with any other number. */
  lemma DigitsAgree(s: Source, active: Option<string>, digit: nat, i: nat)
    ensures var ls := MenuLines(s, active);
      (i < |ls| && ls[i].row.Profile? && ls[i].row.digit == Some(digit))
        <==> (digit <= 9 && DigitIndex(Actions(ls), digit) == Some(i))
  {
    hide MenuLines, NthLaunch, NumberedFrom, Before, Launches;
    var ls := MenuLines(s, active);
    MenuNumbered(s, active);
    BeforeStart(ls);
    if i < |ls| {
      NumberedIs(ls, 0, i);
    }
    if digit > 0 {
      NthIs(ls, digit - 1, 0, i);
    }
  }

  /** Exactly one row is the default, and it is the first that launches anything. */
  lemma OneDefault(s: Source, active: Option<string>) returns (i: nat)
    ensures var ls := MenuLines(s, active);
      && i < |ls| && ls[i].row.Profile? && ls[i].row.default && ls[i].row.digit == Some(1)
      && (forall j :: 0 <= j < |ls| && ls[j].row.Profile? && ls[j].row.default ==> j == i)
      && (forall j :: 0 <= j < i ==> !Launches(ls[j].action))
  {
    hide MenuLines;
    var ls := MenuLines(s, active);
    MenuNumbered(s, active);
    i := FirstLaunch(ls, |ls|);
    hide NumberedFrom;
    forall j | 0 <= j < |ls|
      ensures Numbered(ls[j], Before(ls, j))
    {
      NumberedIs(ls, 0, j);
    }
    forall j | 0 <= j < |ls|
      ensures ls[j].row.Profile? && ls[j].row.default ==> j == i
      ensures j < i ==> !Launches(ls[j].action)
    {
      FirstIsAlone(ls, i, j);
    }
  }

  /** Of two launch rows, only the first can have none before it. */
  lemma FirstIsAlone(ls: seq<Line>, i: nat, j: nat)
    requires i < |ls| && j < |ls| && Launches(ls[i].action) && Before(ls, i) == 0
    ensures Launches(ls[j].action) && Before(ls, j) == 0 ==> j == i
    ensures j < i ==> !Launches(ls[j].action)
  {
    if j < i {
      BeforeGrows(ls, j + 1, i);
    } else if i < j {
      BeforeGrows(ls, i + 1, j);
    }
  }

  lemma {:induction false} FirstLaunch(ls: seq<Line>, n: nat) returns (i: nat)
    requires n <= |ls| && Before(ls, n) >= 1
    ensures i < n && Launches(ls[i].action) && Before(ls, i) == 0
  {
    if Before(ls, n - 1) >= 1 {
      i := FirstLaunch(ls, n - 1);
    } else {
      i := n - 1;
    }
  }

  // ---- the keyboard ----

  /** `step`: the next actionable row in the direction, or where it was. */
  function StepDown(actions: seq<Action>, from: nat, i: nat): (r: nat)
    requires from < |actions| && from < i <= |actions|
    decreases |actions| - i
  {
    if i == |actions| then from else if !actions[i].Nothing? then i else StepDown(actions, from, i + 1)
  }

  function StepUp(actions: seq<Action>, from: nat, i: nat): (r: nat)
    requires from < |actions| && i <= from
  {
    if i == 0 then from else if !actions[i - 1].Nothing? then i - 1 else StepUp(actions, from, i - 1)
  }

  lemma {:induction false} StepDownLands(actions: seq<Action>, from: nat, i: nat)
    requires from < |actions| && from < i <= |actions|
    ensures var r := StepDown(actions, from, i);
      r == from || (i <= r < |actions| && !actions[r].Nothing? && forall j :: i <= j < r ==> actions[j].Nothing?)
    decreases |actions| - i
  {
    if i < |actions| && actions[i].Nothing? {
      StepDownLands(actions, from, i + 1);
    }
  }

  lemma {:induction false} StepUpOver(actions: seq<Action>, from: nat, i: nat, to: nat)
    requires from < |actions| && to < i <= from && !actions[to].Nothing?
    requires forall j :: to < j < i ==> actions[j].Nothing?
    ensures StepUp(actions, from, i) == to
  {
    if actions[i - 1].Nothing? {
      StepUpOver(actions, from, i - 1, to);
    }
  }

  /** From a row that does something, stepping down and up again comes back, and the selection
      never rests on a line that does nothing. */
  lemma DownThenUp(actions: seq<Action>, from: nat)
    requires from < |actions| && !actions[from].Nothing?
    ensures var down := StepDown(actions, from, from + 1);
      && down < |actions| && !actions[down].Nothing?
      && (down != from ==> StepUp(actions, down, down) == from)
  {
    StepDownLands(actions, from, from + 1);
    var down := StepDown(actions, from, from + 1);
    if down != from {
      StepUpOver(actions, down, down, from);
    }
  }

  // ---- each target once, under its machine ----

  function Count(ls: seq<Line>, a: Action): (n: nat) {
    if ls == [] then 0 else Count(ls[..|ls| - 1], a) + (if ls[|ls| - 1].action == a then 1 else 0)
  }

  lemma {:induction false} CountConcat(a: seq<Line>, b: seq<Line>, x: Action)
    ensures Count(a + b, x) == Count(a, x) + Count(b, x)
    decreases |b|
  {
    if b == [] {
      assert a + b == a;
    } else {
      CountConcat(a, b[..|b| - 1], x);
      assert (a + b)[..|a + b| - 1] == a + b[..|b| - 1];
    }
  }

  lemma {:induction false} CountEntries(entries: seq<Entry>, n: nat, before: nat, active: Option<string>, t: ProfileRef)
    requires n <= |entries|
    ensures Count(EntryLines(entries, n, before, active), Launch(t)) == TimesIn(entries[..n], t)
  {
    hide EntryLine, Count, TimesIn;
    CountNothing(t);
    if n > 0 {
      CountEntries(entries, n - 1, before, active, t);
      var init, last := EntryLines(entries, n - 1, before, active), EntryLine(entries[n - 1], before + n - 1, active);
      CountOneMore(init, last, Launch(t));
      EntryNumbered(entries[n - 1], before + n - 1, active);
      assert entries[..n] == entries[..n - 1] + [entries[n - 1]];
      TimesOneMore(entries[..n - 1], entries[n - 1], t);
    }
  }

  lemma CountNothing(t: ProfileRef)
    ensures Count([], Launch(t)) == 0 && TimesIn([], t) == 0 && Times([], t) == 0
  {}

  lemma TimesOneMore(entries: seq<Entry>, e: Entry, t: ProfileRef)
    ensures TimesIn(entries + [e], t) == TimesIn(entries, t) + (if e.target == t then 1 else 0)
  {
    assert (entries + [e])[..|entries|] == entries;
  }

  lemma CountOneMore(ls: seq<Line>, l: Line, a: Action)
    ensures Count(ls + [l], a) == Count(ls, a) + (if l.action == a then 1 else 0)
  {
    assert (ls + [l])[..|ls|] == ls;
  }

  lemma {:induction false} TimesOfLast(gs: seq<Group>, n: nat, t: ProfileRef)
    requires 0 < n <= |gs|
    ensures Times(gs[..n], t) == Times(gs[..n - 1], t) + TimesIn(gs[n - 1].entries, t)
  {
    if n == 1 {
      assert gs[..1][1..] == [] && gs[..0] == [];
    } else {
      TimesOfLast(gs[1..], n - 1, t);
      assert gs[..n][1..] == gs[1..][..n - 1] && gs[..n - 1][1..] == gs[1..][..n - 2];
    }
  }

  lemma {:induction false} CountGroups(s: Source, gs: seq<Group>, n: nat, headed: bool, active: Option<string>, t: ProfileRef)
    requires n <= |gs|
    ensures Count(GroupLines(s, gs, n, headed, active), Launch(t)) == Times(gs[..n], t)
  {
    hide Times, TimesIn, Count, EntryLines, HeaderRow;
    CountNothing(t);
    if n > 0 {
      CountGroups(s, gs, n - 1, headed, active, t);
      var before, g := GroupLines(s, gs, n - 1, headed, active), gs[n - 1];
      var head := if headed then [Line(HeaderRow(s, g.key), Nothing)] else [];
      var lines := EntryLines(g.entries, |g.entries|, Launched(gs, n - 1), active);
      CountConcat(before, head, Launch(t));
      CountConcat(before + head, lines, Launch(t));
      CountEntries(g.entries, |g.entries|, Launched(gs, n - 1), active, t);
      assert g.entries[..|g.entries|] == g.entries;
      TimesOfLast(gs, n, t);
      NoLaunch(head, t);
    } else {
      assert gs[..0] == [];
    }
  }

  lemma {:induction false} NoLaunch(ls: seq<Line>, t: ProfileRef)
    requires forall i :: 0 <= i < |ls| ==> !ls[i].action.Launch?
    ensures Count(ls, Launch(t)) == 0
    decreases |ls|
  {
    if ls != [] {
      NoLaunch(ls[..|ls| - 1], t);
    }
  }

  lemma {:induction false} PendingLaunchNothing(hs: seq<Host>, n: nat)
    requires n <= |hs|
    ensures forall i :: 0 <= i < |PendingLines(hs, n)| ==> PendingLines(hs, n)[i].action == Nothing
  {
    if n > 0 {
      PendingLaunchNothing(hs, n - 1);
    }
  }

  lemma MenuCounts(s: Source, active: Option<string>, t: ProfileRef)
    ensures Count(MenuLines(s, active), Launch(t)) == Times(Groups(s), t)
  {
    hide Groups, GroupLines, PendingLines, Pending, Times, Count;
    CountNothing(t);
    var gs := Groups(s);
    var targets, pending := TargetLines(s, active), Pending(s, gs);
    var waiting := PendingLines(pending, |pending|);
    PendingLaunchNothing(pending, |pending|);
    NoLaunch(waiting, t);
    NoLaunch(Tail(), t);
    CountConcat(targets, waiting, Launch(t));
    CountConcat(targets + waiting, Tail(), Launch(t));
    if gs == [] {
      NoLaunch([DefaultLine(s)], t);
    } else {
      CountGroups(s, gs, |gs|, Headed(gs, pending), active, t);
      assert gs[..|gs|] == gs;
    }
  }

  /** Each of this machine's profiles launches from exactly one row, and nothing else launches
      as one. */
  lemma EachLocalOnce(s: Source, active: Option<string>, name: string)
    requires DistinctNames(s)
    ensures Count(MenuLines(s, active), Launch(Local(name))) == if HasLocal(s, |s.profiles|, name) then 1 else 0
  {
    hide MenuLines, Count;
    MenuCounts(s, active, Local(name));
    FleetTimes(s, |s.fleet|, Local(name));
  }

  /** A profile another machine publishes launches from exactly one row, unless a local profile
      of its name is pinned to that machine: then from none. */
  lemma EachPublishedOnce(s: Source, active: Option<string>, id: HostId, name: string)
    requires DistinctNames(s)
    ensures Count(MenuLines(s, active), Launch(Remote(id, name)))
      == if Publishing(s, |s.fleet|, id, name) && !Claims(s, id, name) then 1 else 0
  {
    hide MenuLines, Count, Publishing, Claims;
    MenuCounts(s, active, Remote(id, name));
    FleetTimes(s, |s.fleet|, Remote(id, name));
  }

  /** The nearest header at or above a line. */
  function HeaderAbove(ls: seq<Line>, i: nat): (r: Option<Row>)
    requires i < |ls|
  {
    if ls[i].row.Header? then Some(ls[i].row) else if i == 0 then None else HeaderAbove(ls, i - 1)
  }

  lemma {:induction false} HeaderOfPrefix(a: seq<Line>, b: seq<Line>, i: nat)
    requires i < |a|
    ensures HeaderAbove(a + b, i) == HeaderAbove(a, i)
  {
    if !a[i].row.Header? && i > 0 {
      HeaderOfPrefix(a, b, i - 1);
    }
  }

  lemma {:induction false} HeaderOverEntries(ls: seq<Line>, at: nat, i: nat)
    requires at <= i < |ls| && ls[at].row.Header? && forall j :: at < j <= i ==> !ls[j].row.Header?
    ensures HeaderAbove(ls, i) == Some(ls[at].row)
  {
    if i > at {
      HeaderOverEntries(ls, at, i - 1);
    }
  }

  /** The line launches an entry filed under a key whose header is the one above it. */
  ghost predicate Filed(s: Source, gs: seq<Group>, ls: seq<Line>, i: nat, headed: bool)
    requires i < |ls|
  {
    exists m, j :: 0 <= m < |gs| && 0 <= j < |gs[m].entries|
      && ls[i].action == Launch(gs[m].entries[j].target)
      && (headed ==> HeaderAbove(ls, i) == Some(HeaderRow(s, gs[m].key)))
  }

  lemma HeaderIsHeader(s: Source, k: Key)
    ensures HeaderRow(s, k).Header?
  {}

  lemma {:induction false} GroupsFiled(s: Source, gs: seq<Group>, n: nat, headed: bool, active: Option<string>, i: nat)
    requires n <= |gs| && i < |GroupLines(s, gs, n, headed, active)|
    requires GroupLines(s, gs, n, headed, active)[i].action.Launch?
    ensures Filed(s, gs, GroupLines(s, gs, n, headed, active), i, headed)
  {
    hide EntryLine, HeaderRow, HeaderAbove;
    HeaderIsHeader(s, gs[n - 1].key);
    var before, g := GroupLines(s, gs, n - 1, headed, active), gs[n - 1];
    var head := if headed then [Line(HeaderRow(s, g.key), Nothing)] else [];
    var lines := EntryLines(g.entries, |g.entries|, Launched(gs, n - 1), active);
    var ls := GroupLines(s, gs, n, headed, active);
    assert ls == before + (head + lines);
    if i < |before| {
      GroupsFiled(s, gs, n - 1, headed, active, i);
      HeaderOfPrefix(before, head + lines, i);
    } else {
      var j := i - |before| - |head|;
      assert ls[i] == EntryLine(g.entries[j], Launched(gs, n - 1) + j, active);
      EntryNumbered(g.entries[j], Launched(gs, n - 1) + j, active);
      if headed {
        assert ls[|before|] == head[0] && ls[|before|].row.Header?;
        forall k | |before| < k <= i
          ensures !ls[k].row.Header?
        {
          var m := k - |before| - 1;
          assert ls[k] == lines[m] == EntryLine(g.entries[m], Launched(gs, n - 1) + m, active);
          EntryNumbered(g.entries[m], Launched(gs, n - 1) + m, active);
        }
        HeaderOverEntries(ls, |before|, i);
      }
    }
  }

  /** Every row that launches a profile sits under the header of the machine that will run it;
      and where the menu has no headers, every row runs on this machine. */
  lemma RowsSitUnderTheirMachine(s: Source, active: Option<string>, i: nat) returns (k: Key, e: Entry)
    requires i < |MenuLines(s, active)| && MenuLines(s, active)[i].action.Launch?
    ensures Under(s, k, e) && MenuLines(s, active)[i].action == Launch(e.target)
    ensures if Headed(Groups(s), Pending(s, Groups(s))) then HeaderAbove(MenuLines(s, active), i) == Some(HeaderRow(s, k))
      else k.rank == 1
  {
    hide Groups, GroupLines, PendingLines, Pending, HeaderRow, HeaderAbove, Under;
    GroupsPlaced(s);
    var gs := Groups(s);
    var targets, pending := TargetLines(s, active), Pending(s, gs);
    var rest := PendingLines(pending, |pending|) + Tail();
    assert MenuLines(s, active) == targets + rest;
    PendingLaunchNothing(pending, |pending|);
    var headed := Headed(gs, pending);
    assert i < |targets| && gs != [];
    GroupsFiled(s, gs, |gs|, headed, active, i);
    var m, j :| 0 <= m < |gs| && 0 <= j < |gs[m].entries| && targets[i].action == Launch(gs[m].entries[j].target)
      && (headed ==> HeaderAbove(targets, i) == Some(HeaderRow(s, gs[m].key)));
    k, e := gs[m].key, gs[m].entries[j];
    HeaderOfPrefix(targets, rest, i);
    ListedAt(gs, m);
    assert Under(s, k, Listed(gs, k)[j]);
  }

  lemma GroupsPlaced(s: Source)
    ensures Placed(s, Groups(s))
  {
    FleetPlaced(s, |s.fleet|);
  }

  /** The groups come in key order, and no machine has two. */
  lemma GroupsInOrder(s: Source)
    ensures Sorted(Groups(s)) && NoneEmpty(Groups(s))
  {
    FleetPlaced(s, |s.fleet|);
  }
}
