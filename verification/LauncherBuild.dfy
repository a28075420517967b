/** `build_rows` as it is written: one pass that fills the groups, and one that flattens them
    into two lists with counters for the digit and the default. */
module LauncherBuild {
  import opened Wrappers
  import opened LauncherMenu
  import opened LauncherRows

  /** Two lists hold the lines' rows and their actions. */
  ghost predicate Holds(rows: seq<Row>, actions: seq<Action>, ls: seq<Line>) {
    rows == Rows(ls) && actions == Actions(ls)
  }

  lemma HoldsMore(rows: seq<Row>, actions: seq<Action>, ls: seq<Line>, l: Line)
    requires Holds(rows, actions, ls)
    ensures Holds(rows + [l.row], actions + [l.action], ls + [l])
  {}

  method BuildGroups(s: Source) returns (groups: seq<Group>)
    ensures groups == Groups(s)
  {
    hide Touch, Push, Listed, Named, LocalKey, LocalEntry, WithOffer;
    groups := [];
    var i := 0;
    while i < |s.profiles|
      invariant i <= |s.profiles| && groups == WithLocals(s, i)
    {
      var p := s.profiles[i];
      var k := LocalKey(s, p);
      groups := Touch(groups, k);
      groups := Push(groups, k, LocalEntry(s, p));
      i := i + 1;
    }
    var h := 0;
    while h < |s.fleet|
      invariant h <= |s.fleet| && groups == WithFleet(s, h)
    {
      var host := s.fleet[h];
      if !host.local && host.offer.Some? {
        groups := TakeOffer(s, groups, host);
      }
      h := h + 1;
    }
  }

  method TakeOffer(s: Source, before: seq<Group>, host: Host) returns (groups: seq<Group>)
    requires host.offer.Some?
    ensures groups == WithOffer(s, before, host, |host.offer.value.profiles|)
  {
    hide Touch, Push, Listed, Named;
    var offer := host.offer.value;
    groups := before;
    var j := 0;
    while j < |offer.profiles|
      invariant j <= |offer.profiles| && groups == WithOffer(s, before, host, j)
    {
      var p := offer.profiles[j];
      var k := HostKey(s, host.id);
      groups := Touch(groups, k);
      if !Named(Listed(groups, k), p.name) {
        groups := Push(groups, k, Entry(p.name, ShownCommand(p.command, offer.shell), Remote(host.id, p.name)));
      }
      j := j + 1;
    }
  }

  method BuildRows(source: Source, active: Option<string>) returns (rows: seq<Row>, actions: seq<Action>)
    ensures var ls := MenuLines(Arranged(source), active);
      rows == Rows(ls) && actions == Actions(ls)
  {
    hide *;
    var s := Arranged(source);
    MenuInParts(s, active);
    DefaultHeld(s);
    var groups := BuildGroups(s);
    var pending := Pending(s, groups);
    var headed := Headed(groups, pending);
    ghost var ls: seq<Line>;
    if groups == [] {
      rows := [Profile("Default shell", s.fallback, true, Some(1), false)];
      actions := [LaunchDefault];
      ls := [DefaultLine(s)];
    } else {
      rows, actions := Flatten(s, groups, headed, active);
      ls := GroupLines(s, groups, |groups|, headed, active);
    }
    assert ls == TargetLines(s, active);
    HoldsIs(rows, actions, ls);
    rows, actions := AppendPending(pending, rows, actions);
    RowsOfConcat(ls, PendingLines(pending, |pending|));
    ls := ls + PendingLines(pending, |pending|);
    HoldsMore(rows, actions, ls, Line(Divider, Nothing));
    rows := rows + [Divider];
    actions := actions + [Nothing];
    HoldsMore(rows, actions, ls + [Line(Divider, Nothing)], Line(RunOnHostRow, RunOnHost(None)));
    rows := rows + [RunOnHostRow];
    actions := actions + [RunOnHost(None)];
    HoldsMore(rows, actions, ls + [Line(Divider, Nothing)] + [Line(RunOnHostRow, RunOnHost(None))], Line(ManageProfilesRow, ManageProfiles));
    rows := rows + [ManageProfilesRow];
    actions := actions + [ManageProfiles];
    ghost var last := ls + [Line(Divider, Nothing)] + [Line(RunOnHostRow, RunOnHost(None))] + [Line(ManageProfilesRow, ManageProfiles)];
    assert last == ls + [Line(Divider, Nothing), Line(RunOnHostRow, RunOnHost(None)), Line(ManageProfilesRow, ManageProfiles)];
    HoldsIs(rows, actions, last);
  }

  lemma MenuInParts(s: Source, active: Option<string>)
    ensures var (gs, pending) := (Groups(s), Pending(s, Groups(s)));
      && TargetLines(s, active) == (if gs == [] then [DefaultLine(s)] else GroupLines(s, gs, |gs|, Headed(gs, pending), active))
      && MenuLines(s, active) == TargetLines(s, active) + PendingLines(pending, |pending|)
        + [Line(Divider, Nothing), Line(RunOnHostRow, RunOnHost(None)), Line(ManageProfilesRow, ManageProfiles)]
  {
    hide Groups, GroupLines, PendingLines, Pending;
  }

  lemma DefaultHeld(s: Source)
    ensures Holds([Profile("Default shell", s.fallback, true, Some(1), false)], [LaunchDefault], [DefaultLine(s)])
  {}

  lemma HoldsIs(rows: seq<Row>, actions: seq<Action>, ls: seq<Line>)
    requires Holds(rows, actions, ls)
    ensures rows == Rows(ls) && actions == Actions(ls)
  {}

  lemma RowsOfConcat(a: seq<Line>, b: seq<Line>)
    ensures Rows(a + b) == Rows(a) + Rows(b) && Actions(a + b) == Actions(a) + Actions(b)
    ensures Holds(Rows(a + b), Actions(a + b), a + b)
  {}

  /** The pending machines, each a header and one faint line. */
  method AppendPending(pending: seq<Host>, before: seq<Row>, acts: seq<Action>) returns (rows: seq<Row>, actions: seq<Action>)
    ensures var ls := PendingLines(pending, |pending|);
      rows == before + Rows(ls) && actions == acts + Actions(ls)
  {
    hide *;
    NoneHeld(pending);
    rows, actions := before, acts;
    var i := 0;
    while i < |pending|
      invariant i <= |pending|
      invariant rows == before + Rows(PendingLines(pending, i)) && actions == acts + Actions(PendingLines(pending, i))
    {
      rows := rows + [Header(pending[i].title, true)];
      actions := actions + [Nothing];
      rows := rows + [Note];
      actions := actions + [Nothing];
      OnePending(pending, i);
      i := i + 1;
    }
  }

  lemma NoneHeld(pending: seq<Host>)
    ensures Rows(PendingLines(pending, 0)) == [] && Actions(PendingLines(pending, 0)) == []
  {}

  lemma OnePending(pending: seq<Host>, i: nat)
    requires i < |pending|
    ensures var (a, b) := (PendingLines(pending, i), PendingLines(pending, i + 1));
      Rows(b) == Rows(a) + [Header(pending[i].title, true)] + [Note] && Actions(b) == Actions(a) + [Nothing] + [Nothing]
  {}

  method Flatten(s: Source, groups: seq<Group>, headed: bool, active: Option<string>) returns (rows: seq<Row>, actions: seq<Action>)
    ensures Holds(rows, actions, GroupLines(s, groups, |groups|, headed, active))
  {
    hide *;
    NoGroups(s, groups, headed, active);
    rows, actions := [], [];
    var digit, first := 0, true;
    var g := 0;
    while g < |groups|
      invariant g <= |groups| && digit == Launched(groups, g) && (first <==> digit == 0)
      invariant Holds(rows, actions, GroupLines(s, groups, g, headed, active))
    {
      var group := groups[g];
      ghost var above := GroupLines(s, groups, g, headed, active) + (if headed then [Line(HeaderRow(s, group.key), Nothing)] else []);
      if headed {
        HoldsMore(rows, actions, GroupLines(s, groups, g, headed, active), Line(HeaderRow(s, group.key), Nothing));
        rows := rows + [HeaderRow(s, group.key)];
        actions := actions + [Nothing];
      } else {
        assert above == GroupLines(s, groups, g, headed, active);
      }
      OneGroup(s, groups, g, headed, active);
      rows, actions, digit, first := FlattenEntries(group.entries, active, rows, actions, digit, first, above);
      g := g + 1;
    }
  }

  lemma NoGroups(s: Source, groups: seq<Group>, headed: bool, active: Option<string>)
    ensures Holds([], [], GroupLines(s, groups, 0, headed, active)) && Launched(groups, 0) == 0
  {}

  lemma OneGroup(s: Source, groups: seq<Group>, g: nat, headed: bool, active: Option<string>)
    requires g < |groups|
    ensures Launched(groups, g + 1) == Launched(groups, g) + |groups[g].entries|
    ensures GroupLines(s, groups, g + 1, headed, active) == GroupLines(s, groups, g, headed, active)
      + (if headed then [Line(HeaderRow(s, groups[g].key), Nothing)] else [])
      + EntryLines(groups[g].entries, |groups[g].entries|, Launched(groups, g), active)
  {
    hide EntryLine, HeaderRow;
  }

  method FlattenEntries(entries: seq<Entry>, active: Option<string>, before: seq<Row>, acts: seq<Action>, count: nat, none: bool,
                        ghost above: seq<Line>)
      returns (rows: seq<Row>, actions: seq<Action>, digit: nat, first: bool)
    requires Holds(before, acts, above) && (none <==> count == 0)
    ensures Holds(rows, actions, above + EntryLines(entries, |entries|, count, active))
    ensures digit == count + |entries| && (first <==> digit == 0)
  {
    hide Holds, EntryLines;
    rows, actions, digit, first := before, acts, count, none;
    var j := 0;
    assert above + EntryLines(entries, 0, count, active) == above;
    while j < |entries|
      invariant j <= |entries| && digit == count + j && (first <==> digit == 0)
      invariant Holds(rows, actions, above + EntryLines(entries, j, count, active))
    {
      var e := entries[j];
      ghost var l := EntryLine(e, count + j, active);
      HoldsMore(rows, actions, above + EntryLines(entries, j, count, active), l);
      digit := digit + 1;
      var row := Profile(e.name, e.command, first, if digit <= 9 then Some(digit) else None,
                         e.target.Local? && active == Some(e.target.name));
      assert l == Line(row, Launch(e.target));
      rows := rows + [row];
      actions := actions + [Launch(e.target)];
      first := false;
      MoreEntries(above, entries, j, count, active);
      j := j + 1;
    }
  }

  lemma MoreEntries(above: seq<Line>, entries: seq<Entry>, j: nat, count: nat, active: Option<string>)
    requires j < |entries|
    ensures above + EntryLines(entries, j, count, active) + [EntryLine(entries[j], count + j, active)]
      == above + EntryLines(entries, j + 1, count, active)
  {
    hide EntryLine;
  }
}
