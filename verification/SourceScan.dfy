/** The source scanners of the repository's own checks: where a test-only item ends, which
    lines spawn a process in shipped code, and which functions a file defines. */
module SourceScan {
  import opened Scanning
  import opened Wrappers
  import TextPieces

  /** What counts as alphanumeric. */
  type Alnum = char -> bool

  // ---- one line ----

  predicate Space(c: char) {
    c == ' ' || c == '\t' || c == '\r' || c == '\n'
  }

  function TrimStart(s: string): (t: string)
    ensures |t| <= |s| && t == s[|s| - |t|..] && (t == [] || !Space(t[0]))
  {
    if s != [] && Space(s[0]) then TrimStart(s[1..]) else s
  }

  function TrimEnd(s: string): (t: string)
    ensures |t| <= |s| && t == s[..|t|] && (t == [] || !Space(t[|t| - 1]))
  {
    if s != [] && Space(s[|s| - 1]) then TrimEnd(s[..|s| - 1]) else s
  }

  function Indent(line: string): (n: nat) {
    |line| - |TrimStart(line)|
  }

  predicate PartAt(s: string, part: string, i: nat) {
    i + |part| <= |s| && s[i..i + |part|] == part
  }

  predicate Contains(s: string, part: string) {
    exists i :: 0 <= i <= |s| && PartAt(s, part, i)
  }

  predicate EndsWith(s: string, part: string) {
    |part| <= |s| && s[|s| - |part|..] == part
  }

  predicate OpensBrace(line: string) {
    '{' in line
  }

  predicate EndsDeclaration(line: string) {
    EndsWith(TrimEnd(line), ";")
  }

  /** The closing brace that lines up with a line's indent. */
  function CloseOf(line: string): (s: string) {
    seq(Indent(line), _ => ' ') + "}"
  }

  function Tokens(alnum: Alnum, s: string, n: nat): (ts: seq<string>)
    requires n <= |s|
    ensures ts != []
  {
    if n == 0 then [""]
    else
      var before := Tokens(alnum, s, n - 1);
      if alnum(s[n - 1]) || s[n - 1] == '_' then before[|before| - 1 := before[|before| - 1] + [s[n - 1]]]
      else before + [""]
  }

  const CFG := "#[cfg("

  /** Whether a line is a `cfg(test)` attribute, in any spelling. */
  predicate OpensTestItem(alnum: Alnum, line: string) {
    var t := TrimStart(line);
    && CFG <= t && EndsWith(t, ")]")
    && (assert |t| >= 8 by { assert t[5] == '(' && t[|t| - 2] == ')'; }
        var inner := t[|CFG|..|t| - 2];
        "test" in Tokens(alnum, inner, |inner|))
  }

  // ---- where an item ends ----

  /** The first line from `i` on that satisfies `p`, or the end of the file. */
  function First(p: string -> bool, lines: seq<string>, i: nat): (r: nat)
    requires i <= |lines|
    ensures i <= r <= |lines| && (r < |lines| ==> p(lines[r]))
    ensures forall j :: i <= j < r ==> !p(lines[j])
    decreases |lines| - i
  {
    if i == |lines| || p(lines[i]) then i else First(p, lines, i + 1)
  }

  predicate NoAttribute(line: string) {
    line == [] || line[0] != '#'
  }

  /** The line decides an item's shape: it opens a body or ends a declaration. */
  predicate Decides(line: string) {
    OpensBrace(line) || EndsDeclaration(line)
  }

  function Is(s: string): (p: string -> bool) {
    (line: string) => line == s
  }

  /** The index just past the item that begins at `start`. */
  function ItemEnd(lines: seq<string>, start: nat): (r: nat)
    requires start < |lines|
    ensures start < r <= |lines|
  {
    var head := First(Decides, lines, First(NoAttribute, lines, start + 1));
    if head < |lines| && !OpensBrace(lines[head]) then head + 1
    else
      var end := First(Is(CloseOf(lines[start])), lines, head);
      if end < |lines| then end + 1 else |lines|
  }

  method EndOfItem(lines: seq<string>, start: nat) returns (r: nat)
    requires start < |lines|
    ensures r == ItemEnd(lines, start)
  {
    hide OpensBrace, EndsDeclaration, CloseOf;
    var n := start + 1;
    while n < |lines| && lines[n] != [] && lines[n][0] == '#'
      invariant n <= |lines| && First(NoAttribute, lines, n) == First(NoAttribute, lines, start + 1)
    {
      n := n + 1;
    }
    ghost var first := n;
    while n < |lines|
      invariant first <= n <= |lines| && First(Decides, lines, n) == First(Decides, lines, first)
    {
      if OpensBrace(lines[n]) {
        break;
      }
      if EndsDeclaration(lines[n]) {
        return n + 1;
      }
      n := n + 1;
    }
    var close := CloseOf(lines[start]);
    ghost var head := n;
    while n < |lines|
      invariant head <= n <= |lines| && First(Is(close), lines, n) == First(Is(close), lines, head)
    {
      if lines[n] == close {
        return n + 1;
      }
      n := n + 1;
    }
    return |lines|;
  }

  // ---- spawns ----

  predicate StartsWith(s: string, part: string) {
    part <= s
  }

  /** The line spawns a process directly, and is not a comment. */
  predicate Spawns(line: string) {
    var code := TrimStart(line);
    Contains(code, "Command::new(") && !StartsWith(code, "//")
  }

  function NextShipped(alnum: Alnum, lines: seq<string>): (next: nat -> nat)
    ensures Forward(next)
  {
    (n: nat) => if n < |lines| && OpensTestItem(alnum, lines[n]) then ItemEnd(lines, n) else n + 1
  }

  lemma NextShippedIs(alnum: Alnum, lines: seq<string>)
    ensures forall n: nat :: n < |lines| ==>
      NextShipped(alnum, lines)(n) == if OpensTestItem(alnum, lines[n]) then ItemEnd(lines, n) else n + 1
  {}

  /** The line is in no test-only item: none that is itself outside every earlier one. */
  predicate Shipped(alnum: Alnum, lines: seq<string>, i: nat)
    requires i < |lines|
  {
    Lands(NextShipped(alnum, lines), i) && !OpensTestItem(alnum, lines[i])
  }

  function SpawnsUpTo(alnum: Alnum, lines: seq<string>, n: nat): (found: seq<(nat, string)>)
    requires n <= |lines|
  {
    if n == 0 then []
    else
      SpawnsUpTo(alnum, lines, n - 1)
        + (if Shipped(alnum, lines, n - 1) && Spawns(lines[n - 1]) then [(n, TrimStart(lines[n - 1]))] else [])
  }

  lemma {:induction false} NoneWhilePassed(alnum: Alnum, lines: seq<string>, a: nat, b: nat)
    requires a <= b <= |lines| && forall i :: a <= i < b ==> !Shipped(alnum, lines, i)
    ensures SpawnsUpTo(alnum, lines, b) == SpawnsUpTo(alnum, lines, a)
  {
    hide Shipped, Spawns, TrimStart;
    if a < b {
      NoneWhilePassed(alnum, lines, a, b - 1);
    }
  }

  method ScanSpawns(alnum: Alnum, text: string) returns (found: seq<(nat, string)>)
    ensures var lines := TextPieces.TextLines(text); found == SpawnsUpTo(alnum, lines, |lines|)
  {
    hide OpensTestItem, ItemEnd, Contains, TrimStart, Lands, StartsWith, NextShipped, TextPieces.TextLines;
    var lines := TextPieces.TextLines(text);
    NextShippedIs(alnum, lines);
    ghost var next := NextShipped(alnum, lines);
    found := [];
    var n := 0;
    Starts(next);
    while n < |lines|
      invariant n <= |lines| && Lands(next, n) && found == SpawnsUpTo(alnum, lines, n)
    {
      Jumps(next, n);
      assert next(n) == if OpensTestItem(alnum, lines[n]) then ItemEnd(lines, n) else n + 1;
      if OpensTestItem(alnum, lines[n]) {
        NoneWhilePassed(alnum, lines, n, next(n));
        n := EndOfItem(lines, n);
        continue;
      }
      var code := TrimStart(lines[n]);
      if Contains(code, "Command::new(") && !StartsWith(code, "//") {
        found := found + [(n + 1, code)];
      }
      n := n + 1;
    }
  }

  /** The spawns found are those of every shipped line that has one, in order and no others: a
      line is in the list exactly when it spawns and no test-only item takes it in. */
  lemma {:induction false} SpawnsExactly(alnum: Alnum, lines: seq<string>, n: nat, i: nat)
    requires n <= |lines| && i < |lines|
    ensures var found := SpawnsUpTo(alnum, lines, n);
      && ((i + 1, TrimStart(lines[i])) in found <==> i < n && Shipped(alnum, lines, i) && Spawns(lines[i]))
      && (forall a, b :: 0 <= a < b < |found| ==> found[a].0 < found[b].0)
      && (forall a :: 0 <= a < |found| ==> 0 < found[a].0 <= n && found[a].1 == TrimStart(lines[found[a].0 - 1]))
  {
    hide Shipped, Spawns, TrimStart;
    if n > 0 {
      SpawnsExactly(alnum, lines, n - 1, i);
    }
  }

  /** What is not shipped is in a test-only item the scan skips whole. */
  lemma SkippedByATest(alnum: Alnum, lines: seq<string>, i: nat) returns (t: nat)
    requires i < |lines| && !Shipped(alnum, lines, i)
    ensures t <= i < ItemEnd(lines, t) && OpensTestItem(alnum, lines[t]) && Lands(NextShipped(alnum, lines), t)
  {
    hide OpensTestItem, ItemEnd, Lands;
    t := PassedOver(NextShipped(alnum, lines), i);
    assert !OpensTestItem(alnum, lines[t]) ==> t == i;
  }

  // ---- functions ----

  const PREFIXES: seq<string> :=
    ["pub(crate) ", "pub(super) ", "pub ", "default ", "async ", "const ", "unsafe ", "extern \"C\" "]

  function Strip(s: string, ps: seq<string>): (r: string) {
    if ps == [] then s else Strip(if ps[0] <= s then s[|ps[0]|..] else s, ps[1..])
  }

  function TakeName(alnum: Alnum, s: string): (r: string) {
    if s != [] && (alnum(s[0]) || s[0] == '_') then [s[0]] + TakeName(alnum, s[1..]) else ""
  }

  /** The name of the function a line declares, if it declares one. */
  function FnName(alnum: Alnum, trimmed: string): (name: Option<string>) {
    var rest := Strip(trimmed, PREFIXES);
    if "fn " <= rest && TakeName(alnum, rest[3..]) != [] then Some(TakeName(alnum, rest[3..])) else None
  }

  /** The line starts a definition: it declares a function, and a line opens a body before any
      ends a declaration. */
  predicate StartsDefinition(alnum: Alnum, lines: seq<string>, n: nat)
    requires n < |lines|
  {
    var body := First(Decides, lines, n);
    FnName(alnum, TrimStart(lines[n])).Some? && body < |lines| && OpensBrace(lines[body])
  }

  /** Some line after the one that opens the body closes a brace in the definition's column. */
  predicate Closes(lines: seq<string>, n: nat)
    requires n < |lines|
  {
    exists j :: First(Decides, lines, n) < j < |lines| && lines[j] == CloseOf(lines[n])
  }

  datatype Span = Span(name: string, end: nat)

  /** What the scan would measure from a line it lands on: the definition's name, and the first
      line after its body opens that closes a brace in its column; nothing where there is none. */
  function SpanAt(alnum: Alnum, lines: seq<string>, n: nat): (d: Option<Span>)
    requires n < |lines|
    ensures d.Some? ==> n < d.value.end < |lines|
  {
    match FnName(alnum, TrimStart(lines[n]))
    case None => None
    case Some(name) =>
      var body := First(Decides, lines, n);
      if body == |lines| || !OpensBrace(lines[body]) then None
      else
        var end := First(Is(CloseOf(lines[n])), lines, body + 1);
        if end < |lines| then Some(Span(name, end)) else None
  }

  /** There is something to measure exactly where a definition starts that some line closes. */
  lemma SpanExactly(alnum: Alnum, lines: seq<string>, n: nat)
    requires n < |lines|
    ensures SpanAt(alnum, lines, n).Some? <==> StartsDefinition(alnum, lines, n) && Closes(lines, n)
  {
    hide OpensBrace, EndsDeclaration, CloseOf, FnName, TrimStart, First, Is;
    var body := First(Decides, lines, n);
    if body < |lines| {
      FirstIs(CloseOf(lines[n]), lines, body + 1);
    }
  }

  lemma FirstIs(close: string, lines: seq<string>, i: nat)
    requires i <= |lines|
    ensures First(Is(close), lines, i) < |lines| <==> exists j :: i <= j < |lines| && lines[j] == close
  {
    hide First;
    var r := First(Is(close), lines, i);
    if j :| i <= j < |lines| && lines[j] == close {
      assert Is(close)(lines[j]);
    }
    if r < |lines| {
      assert Is(close)(lines[r]);
    }
  }

  /** Where the scan goes from a line: past a test-only item, past a definition, or one on. */
  function StepFrom(alnum: Alnum, lines: seq<string>, n: nat): (r: nat)
    ensures n < r
  {
    if n >= |lines| then n + 1
    else if OpensTestItem(alnum, lines[n]) then ItemEnd(lines, n)
    else
      var d := SpanAt(alnum, lines, n);
      if d.Some? then d.value.end + 1 else n + 1
  }

  function NextCode(alnum: Alnum, lines: seq<string>): (next: nat -> nat)
    ensures Forward(next)
  {
    (n: nat) => StepFrom(alnum, lines, n)
  }

  /** The scan lands on the line and measures the definition that starts there. */
  predicate Measured(alnum: Alnum, lines: seq<string>, i: nat)
    requires i < |lines|
  {
    Lands(NextCode(alnum, lines), i) && !OpensTestItem(alnum, lines[i]) && SpanAt(alnum, lines, i).Some?
  }

  /** A function as the check reports it: its name, how many lines it takes, its first line. */
  datatype Entry = Entry(name: string, size: nat, line: nat)

  function EntryAt(alnum: Alnum, lines: seq<string>, i: nat): (e: Entry)
    requires i < |lines|
    ensures e.line == i + 1
  {
    match SpanAt(alnum, lines, i)
    case None => Entry("", 0, i + 1)
    case Some(d) => Entry(d.name, d.end - i + 1, i + 1)
  }

  function DefsUpTo(alnum: Alnum, lines: seq<string>, n: nat): (r: seq<Entry>)
    requires n <= |lines|
  {
    if n == 0 then []
    else
      DefsUpTo(alnum, lines, n - 1)
        + (if Measured(alnum, lines, n - 1) then [EntryAt(alnum, lines, n - 1)] else [])
  }

  lemma {:induction false} NoDefsWhilePassed(alnum: Alnum, lines: seq<string>, a: nat, b: nat)
    requires a <= b <= |lines| && forall i :: a <= i < b ==> !Measured(alnum, lines, i)
    ensures DefsUpTo(alnum, lines, b) == DefsUpTo(alnum, lines, a)
  {
    hide Measured, SpanAt;
    if a < b {
      NoDefsWhilePassed(alnum, lines, a, b - 1);
    }
  }

  /** The body's line, reading forward from a `fn` head, or None for a declaration. */
  method FindBody(lines: seq<string>, n: nat) returns (body: Option<nat>)
    requires n < |lines|
    ensures var head := First(Decides, lines, n);
      body == if head < |lines| && OpensBrace(lines[head]) then Some(head) else None
  {
    var head := n;
    while true
      invariant n <= head <= |lines| && First(Decides, lines, head) == First(Decides, lines, n)
      decreases |lines| - head
    {
      if head >= |lines| {
        return None;
      }
      if OpensBrace(lines[head]) {
        return Some(head);
      }
      if EndsDeclaration(lines[head]) {
        return None;
      }
      head := head + 1;
    }
  }

  lemma NoDefsYet(alnum: Alnum, lines: seq<string>)
    ensures DefsUpTo(alnum, lines, 0) == [] && InOrder([])
  {}

  method FunctionsIn(alnum: Alnum, lines: seq<string>) returns (out: seq<Entry>)
    ensures out == DefsUpTo(alnum, lines, |lines|)
  {
    hide *;
    NoDefsYet(alnum, lines);
    ghost var next := NextCode(alnum, lines);
    out := [];
    var n := 0;
    Starts(next);
    while n < |lines|
      invariant n <= |lines| && Lands(next, n) && out == DefsUpTo(alnum, lines, n)
    {
      NextDefs(alnum, lines, n);
      if OpensTestItem(alnum, lines[n]) {
        n := EndOfItem(lines, n);
        continue;
      }
      var name := FnName(alnum, TrimStart(lines[n]));
      if name.Some? {
        var body := FindBody(lines, n);
        if body.None? {
          n := n + 1;
          continue;
        }
        var end := First(Is(CloseOf(lines[n])), lines, body.value + 1);
        if end < |lines| {
          out := out + [Entry(name.value, end - n + 1, n + 1)];
          n := end + 1;
          continue;
        }
      }
      n := n + 1;
    }
  }

  /** One round of the scan, by the shape of the line it has landed on. */
  lemma NextDefs(alnum: Alnum, lines: seq<string>, n: nat)
    requires n < |lines| && Lands(NextCode(alnum, lines), n)
    ensures var (next, name, head) := (NextCode(alnum, lines), FnName(alnum, TrimStart(lines[n])), First(Decides, lines, n));
      if OpensTestItem(alnum, lines[n]) then
        Lands(next, ItemEnd(lines, n)) && DefsUpTo(alnum, lines, ItemEnd(lines, n)) == DefsUpTo(alnum, lines, n)
      else if name.Some? && head < |lines| && OpensBrace(lines[head]) && First(Is(CloseOf(lines[n])), lines, head + 1) < |lines| then
        var end := First(Is(CloseOf(lines[n])), lines, head + 1);
        Lands(next, end + 1) && DefsUpTo(alnum, lines, end + 1) == DefsUpTo(alnum, lines, n) + [Entry(name.value, end - n + 1, n + 1)]
      else Lands(next, n + 1) && DefsUpTo(alnum, lines, n + 1) == DefsUpTo(alnum, lines, n)
  {
    hide OpensTestItem, ItemEnd, TrimStart, Lands, FnName, First, CloseOf, NextCode;
    var next := NextCode(alnum, lines);
    Jumps(next, n);
    NextIs(alnum, lines, n);
    if OpensTestItem(alnum, lines[n]) {
      NoDefsWhilePassed(alnum, lines, n, next(n));
    } else if SpanAt(alnum, lines, n).Some? {
      NoDefsWhilePassed(alnum, lines, n + 1, next(n));
    }
  }

  lemma NextIs(alnum: Alnum, lines: seq<string>, n: nat)
    requires n < |lines|
    ensures NextCode(alnum, lines)(n) ==
      if OpensTestItem(alnum, lines[n]) then ItemEnd(lines, n)
      else if SpanAt(alnum, lines, n).Some? then SpanAt(alnum, lines, n).value.end + 1
      else n + 1
  {}

  /** An entry measures the definition on its line. */
  predicate Measures(alnum: Alnum, lines: seq<string>, entry: Entry, n: nat) {
    0 < entry.line <= n <= |lines| && Measured(alnum, lines, entry.line - 1) && entry == EntryAt(alnum, lines, entry.line - 1)
  }

  predicate InOrder(out: seq<Entry>) {
    forall a, b :: 0 <= a < b < |out| ==> out[a].line + out[a].size <= out[b].line
  }

  /** What is measured: each definition from its first line to the first line after its body
      opens that closes a brace in its own column; the spans never overlap and come in order. */
  lemma {:induction false} SpansAreDisjoint(alnum: Alnum, lines: seq<string>, n: nat)
    requires n <= |lines|
    ensures forall e :: e in DefsUpTo(alnum, lines, n) ==> Measures(alnum, lines, e, n)
    ensures InOrder(DefsUpTo(alnum, lines, n))
  {
    hide *;
    NoDefsYet(alnum, lines);
    if n > 0 {
      SpansAreDisjoint(alnum, lines, n - 1);
      DefsStep(alnum, lines, n);
      var before := DefsUpTo(alnum, lines, n - 1);
      forall e | e in before
        ensures Measures(alnum, lines, e, n)
      {
        MeasuresMore(alnum, lines, e, n);
      }
      if Measured(alnum, lines, n - 1) {
        var last := EntryAt(alnum, lines, n - 1);
        MeasuresItself(alnum, lines, n);
        forall e | e in before
          ensures e.line + e.size <= last.line
        {
          EndsBefore(alnum, lines, e, n);
        }
        InOrderMore(before, last);
      } else {
        assert DefsUpTo(alnum, lines, n) == before;
      }
    }
  }

  lemma MeasuresItself(alnum: Alnum, lines: seq<string>, n: nat)
    requires 0 < n <= |lines| && Measured(alnum, lines, n - 1)
    ensures Measures(alnum, lines, EntryAt(alnum, lines, n - 1), n)
  {
    hide Measured;
  }

  lemma DefsStep(alnum: Alnum, lines: seq<string>, n: nat)
    requires 0 < n <= |lines|
    ensures DefsUpTo(alnum, lines, n) == DefsUpTo(alnum, lines, n - 1)
      + (if Measured(alnum, lines, n - 1) then [EntryAt(alnum, lines, n - 1)] else [])
  {
    hide Measured, EntryAt;
  }

  lemma InOrderMore(before: seq<Entry>, last: Entry)
    requires InOrder(before) && forall e :: e in before ==> e.line + e.size <= last.line
    ensures InOrder(before + [last])
  {}

  lemma MeasuresMore(alnum: Alnum, lines: seq<string>, entry: Entry, n: nat)
    requires 0 < n <= |lines| && Measures(alnum, lines, entry, n - 1)
    ensures Measures(alnum, lines, entry, n)
  {
    hide Measured;
  }

  lemma EndsBefore(alnum: Alnum, lines: seq<string>, entry: Entry, n: nat)
    requires 0 < n <= |lines| && Measures(alnum, lines, entry, n - 1) && Measured(alnum, lines, n - 1)
    ensures entry.line + entry.size <= n
  {
    hide Lands, OpensTestItem, SpanAt, NextCode;
    NextIs(alnum, lines, entry.line - 1);
    LandsPast(NextCode(alnum, lines), n - 1, entry.line - 1);
  }

  lemma LandsPast(next: nat -> nat, n: nat, t: nat)
    requires Lands(next, n) && t < n && Lands(next, t)
    ensures next(t) <= n
  {}

  // ---- which definitions are reported ----

  function Reported(alnum: Alnum, lines: seq<string>): (out: seq<Entry>) {
    DefsUpTo(alnum, lines, |lines|)
  }

  /** The line is inside a test-only item that the scan skips. */
  predicate InTestItem(alnum: Alnum, lines: seq<string>, i: nat)
    requires i < |lines|
  {
    exists t: nat :: t < i && Lands(NextCode(alnum, lines), t) && OpensTestItem(alnum, lines[t]) && i < ItemEnd(lines, t)
  }

  /** The line is past the first of those a reported entry counts. */
  predicate InReported(alnum: Alnum, lines: seq<string>, i: nat) {
    exists e :: e in Reported(alnum, lines) && e.line <= i < e.line - 1 + e.size
  }

  lemma {:induction false} MeasuredIsListed(alnum: Alnum, lines: seq<string>, n: nat, i: nat)
    requires i < n <= |lines| && Measured(alnum, lines, i)
    ensures EntryAt(alnum, lines, i) in DefsUpTo(alnum, lines, n)
  {
    hide Measured, EntryAt;
    if i < n - 1 {
      MeasuredIsListed(alnum, lines, n - 1, i);
    }
  }

  /** The scan lands on every line that no skipped item and no reported definition takes in. */
  lemma LandsExactly(alnum: Alnum, lines: seq<string>, i: nat)
    requires i < |lines|
    ensures Lands(NextCode(alnum, lines), i) <==> !InTestItem(alnum, lines, i) && !InReported(alnum, lines, i)
  {
    hide Lands, OpensTestItem, SpanAt, NextCode, ItemEnd, DefsUpTo;
    var next := NextCode(alnum, lines);
    if !Lands(next, i) {
      var t := PassedOver(next, i);
      NextIs(alnum, lines, t);
      if !OpensTestItem(alnum, lines[t]) {
        MeasuredIsListed(alnum, lines, |lines|, t);
        assert EntryAt(alnum, lines, t).line <= i;
      }
    } else if InTestItem(alnum, lines, i) {
      var t: nat :| t < i && Lands(next, t) && OpensTestItem(alnum, lines[t]) && i < ItemEnd(lines, t);
      NextIs(alnum, lines, t);
      LandsPast(next, i, t);
    } else if InReported(alnum, lines, i) {
      var e :| e in Reported(alnum, lines) && e.line <= i < e.line - 1 + e.size;
      SpansAreDisjoint(alnum, lines, |lines|);
      NextIs(alnum, lines, e.line - 1);
      LandsPast(next, i, e.line - 1);
    }
  }

  /** Which lines are reported, exactly: those that start a definition some line closes, that
      open no test-only item themselves, and that neither a skipped test-only item nor an
      earlier reported definition takes in. */
  lemma ReportedExactly(alnum: Alnum, lines: seq<string>, i: nat)
    requires i < |lines|
    ensures (exists e :: e in Reported(alnum, lines) && e.line == i + 1) <==>
      && StartsDefinition(alnum, lines, i) && Closes(lines, i) && !OpensTestItem(alnum, lines[i])
      && !InTestItem(alnum, lines, i) && !InReported(alnum, lines, i)
  {
    hide Lands, OpensTestItem, SpanAt, NextCode, DefsUpTo, StartsDefinition, Closes, InTestItem, InReported;
    SpanExactly(alnum, lines, i);
    LandsExactly(alnum, lines, i);
    if Measured(alnum, lines, i) {
      MeasuredIsListed(alnum, lines, |lines|, i);
      assert EntryAt(alnum, lines, i).line == i + 1;
    }
    if e :| e in Reported(alnum, lines) && e.line == i + 1 {
      SpansAreDisjoint(alnum, lines, |lines|);
    }
  }

  /** So a definition whose body closes on the line that opens it, with no brace closing in its
      column further down, is in no test-only item and in no other definition, and is not
      reported: the smallest such file is one line long. */
  lemma OneLinerIsMissed(alnum: Alnum)
    requires alnum('a')
    ensures var lines := ["fn a() {}"];
      && StartsDefinition(alnum, lines, 0) && !OpensTestItem(alnum, lines[0])
      && !InTestItem(alnum, lines, 0) && !InReported(alnum, lines, 0)
      && Reported(alnum, lines) == []
  {
    hide *;
    var lines := ["fn a() {}"];
    OneLine(alnum, lines[0]);
    OneLineOpens(lines);
    OneLineFile(alnum, lines);
    OpensAtOnce(alnum, lines);
  }

  /** The file's one line declares a function and opens no test-only item. */
  lemma OneLine(alnum: Alnum, line: string)
    requires alnum('a') && line == "fn a() {}"
    ensures FnName(alnum, TrimStart(line)).Some? && !OpensTestItem(alnum, line) && OpensBrace(line)
  {
    hide EndsWith, Tokens;
    assert TrimStart(line) == line;
    assert Strip(line, PREFIXES) == line by {
      assert forall p :: p in PREFIXES ==> p != [] && p[0] != 'f';
      NoneStripped(line, PREFIXES);
    }
    assert line[3..][0] == 'a' && line[7] == '{' && CFG[0] != line[0];
  }

  lemma OneLineOpens(lines: seq<string>)
    requires |lines| == 1 && OpensBrace(lines[0])
    ensures First(Decides, lines, 0) == 0
  {
    hide OpensBrace, EndsDeclaration;
  }

  /** Nothing is ever reported of a file of one line. */
  lemma OneLineFile(alnum: Alnum, lines: seq<string>)
    requires |lines| == 1
    ensures Reported(alnum, lines) == [] && !InTestItem(alnum, lines, 0) && !InReported(alnum, lines, 0)
  {
    hide SpanAt, OpensTestItem, Lands, ItemEnd, EntryAt;
    assert DefsUpTo(alnum, lines, 0) == [];
  }

  lemma OpensAtOnce(alnum: Alnum, lines: seq<string>)
    requires |lines| == 1 && FnName(alnum, TrimStart(lines[0])).Some? && OpensBrace(lines[0]) && First(Decides, lines, 0) == 0
    ensures StartsDefinition(alnum, lines, 0)
  {
    hide FnName, TrimStart, OpensBrace, First, CloseOf;
  }

  lemma {:induction false} NoneStripped(s: string, ps: seq<string>)
    requires forall p :: p in ps ==> !(p <= s)
    ensures Strip(s, ps) == s
  {
    if ps != [] {
      assert ps[0] in ps && forall p :: p in ps[1..] ==> p in ps;
      NoneStripped(s, ps[1..]);
    }
  }

  /** Where a definition ends: at the first line after its body opens that closes a brace in its
      own column, the body opening before any line ends a declaration. */
  lemma EndsAtItsBrace(alnum: Alnum, lines: seq<string>, i: nat) returns (body: nat)
    requires i < |lines| && SpanAt(alnum, lines, i).Some?
    ensures i <= body < SpanAt(alnum, lines, i).value.end < |lines|
    ensures OpensBrace(lines[body]) && forall j :: i <= j < body ==> !Decides(lines[j])
    ensures var end := SpanAt(alnum, lines, i).value.end;
      lines[end] == CloseOf(lines[i]) && forall j :: body < j < end ==> lines[j] != CloseOf(lines[i])
  {
    hide OpensBrace, EndsDeclaration, CloseOf, FnName;
    body := First(Decides, lines, i);
    var end := SpanAt(alnum, lines, i).value.end;
    forall j | body < j < end
      ensures lines[j] != CloseOf(lines[i])
    {
      assert !Is(CloseOf(lines[i]))(lines[j]);
    }
  }

  /** A declaration consumes nothing: the scan lands on the very next line. */
  lemma DeclarationConsumesNothing(alnum: Alnum, lines: seq<string>, n: nat)
    requires n < |lines| && Lands(NextCode(alnum, lines), n) && !OpensTestItem(alnum, lines[n])
    requires First(Decides, lines, n) < |lines| && !OpensBrace(lines[First(Decides, lines, n)])
    ensures Lands(NextCode(alnum, lines), n + 1) && !Measured(alnum, lines, n)
  {
    hide Lands, OpensTestItem, NextCode;
    NextIs(alnum, lines, n);
    Jumps(NextCode(alnum, lines), n);
  }

  /** But a definition whose body closes on the line it opens is measured to the next brace
      that closes in its column, and takes in whatever is defined on the way. */
  lemma OneLinerTakesInItsNeighbour(alnum: Alnum, lines: seq<string>, n: nat)
    requires n + 1 < |lines| && Measured(alnum, lines, n) && OpensBrace(lines[n])
    requires lines[n + 1] != CloseOf(lines[n])
    ensures SpanAt(alnum, lines, n).value.end > n + 1 && !Measured(alnum, lines, n + 1)
  {
    hide Lands, OpensTestItem, NextCode;
    NextIs(alnum, lines, n);
    Jumps(NextCode(alnum, lines), n);
  }
}
