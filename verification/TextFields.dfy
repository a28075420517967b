/** The byte-indexed text field. Its methods slice, drain and insert at byte indices; each is
    proved to do to the characters what `CharField` says, so no index is ever off a character
    boundary. */
module TextFields {
  import opened Wrappers
  import opened Utf8
  import opened CharField

  datatype TextEdit = TextEdit(copied: Option<seq<Byte>>, changed: bool)

  /** The character-level field these bytes and byte indices stand for. */
  ghost predicate Stands(text: seq<Byte>, caret: nat, anchor: nat, f: Field<Scalar>)
  {
    && f.Ok()
    && Text(f.chars) == text
    && Offset(f.chars, f.caret) == caret
    && Offset(f.chars, f.anchor) == anchor
  }

  ghost predicate OnBoundary(text: seq<Byte>, i: nat)
  {
    i <= |text| && IsCharBoundary(text, i)
  }

  lemma StandsForOne(text: seq<Byte>, caret: nat, anchor: nat, f: Field<Scalar>, g: Field<Scalar>)
    requires Stands(text, caret, anchor, f) && Stands(text, caret, anchor, g)
    ensures f == g
  {
    TextInjective(f.chars, g.chars);
    OffsetInjective(f.chars, f.caret, g.caret);
    OffsetInjective(f.chars, f.anchor, g.anchor);
  }

  lemma OffsetInjective(cs: seq<Scalar>, j: nat, k: nat)
    requires j <= |cs| && k <= |cs| && Offset(cs, j) == Offset(cs, k)
    ensures j == k
  {
    if j < k {
      OffsetMonotone(cs, j, k);
    } else if k < j {
      OffsetMonotone(cs, k, j);
    }
  }

  /** Bytes and byte indices stand for a character-level field exactly when the bytes are
      well formed and both indices fall on character boundaries. */
  lemma StandsExactly(text: seq<Byte>, caret: nat, anchor: nat)
    ensures (exists f: Field<Scalar> :: Stands(text, caret, anchor, f))
      <==> WellFormed(text) && OnBoundary(text, caret) && OnBoundary(text, anchor)
  {
    if WellFormed(text) && OnBoundary(text, caret) && OnBoundary(text, anchor) {
      var cs := Chars(text);
      var c := BoundaryIsOffset(cs, caret);
      var a := BoundaryIsOffset(cs, anchor);
      assert Stands(text, caret, anchor, Field(cs, c, a));
    }
    forall f | Stands(text, caret, anchor, f)
      ensures WellFormed(text) && OnBoundary(text, caret) && OnBoundary(text, anchor)
    {
      Boundaries(text, caret, anchor, f);
    }
  }

  lemma Boundaries(text: seq<Byte>, caret: nat, anchor: nat, f: Field<Scalar>)
    requires Stands(text, caret, anchor, f)
    ensures WellFormed(text) && OnBoundary(text, caret) && OnBoundary(text, anchor)
  {
    OffsetIsBoundary(f.chars, f.caret);
    OffsetIsBoundary(f.chars, f.anchor);
    SplitAt(f.chars, f.caret);
    SplitAt(f.chars, f.anchor);
  }

  /** Replacing the bytes between two characters replaces the characters between them. */
  lemma Spliced(cs: seq<Scalar>, lo: nat, hi: nat, s: seq<Scalar>)
    requires lo <= hi <= |cs|
    ensures var after := cs[..lo] + s + cs[hi..];
      var (b, i, j) := (Text(cs), Offset(cs, lo), Offset(cs, hi));
      && i <= j <= |b| && OnBoundary(b, i) && OnBoundary(b, j)
      && Text(after) == b[..i] + Text(s) + b[j..]
      && Offset(after, lo) == i && Offset(after, lo + |s|) == i + |Text(s)|
  {
    var after := cs[..lo] + s + cs[hi..];
    SplitAt(cs, lo);
    SplitAt(cs, hi);
    OffsetIsBoundary(cs, lo);
    OffsetIsBoundary(cs, hi);
    if lo < hi {
      OffsetMonotone(cs, lo, hi);
    }
    TextOfConcat(cs[..lo], s);
    TextOfConcat(cs[..lo] + s, cs[hi..]);
    assert after[..lo] == cs[..lo] && after[..lo + |s|] == cs[..lo] + s;
  }

  /** What reading forwards from character `k` finds, and where it ends up. */
  lemma Ahead(cs: seq<Scalar>, k: nat)
    requires k <= |cs|
    ensures var (b, at) := (Text(cs), Offset(cs, k));
      && at <= |b| && OnBoundary(b, at) && WellFormed(b[at..])
      && First(b[at..]) == (if k < |cs| then Some(cs[k]) else None)
      && (k < |cs| ==> Offset(cs, k + 1) == at + Width(cs[k]))
  {
    hide Offset, Text, First;
    SplitAt(cs, k);
    OffsetIsBoundary(cs, k);
    assert WellFormed(Text(cs[k..]));
    if k < |cs| {
      OffsetStep(cs, k);
    }
  }

  lemma LastOf(cs: seq<Scalar>)
    ensures WellFormed(Text(cs)) && Last(Text(cs)) == if cs == [] then None else Some(cs[|cs| - 1])
  {}

  /** What reading backwards from character `k` finds, and where it ends up. */
  lemma Behind(cs: seq<Scalar>, k: nat)
    requires k <= |cs|
    ensures var (b, at) := (Text(cs), Offset(cs, k));
      && at <= |b| && OnBoundary(b, at) && WellFormed(b[..at])
      && Last(b[..at]) == (if 0 < k then Some(cs[k - 1]) else None)
      && (0 < k ==> Offset(cs, k - 1) == at - Width(cs[k - 1]))
  {
    hide Offset, Text, Last, First, Width, Encode, Value, IsCharBoundary, LeadBefore, WellFormed;
    SplitAt(cs, k);
    OffsetIsBoundary(cs, k);
    LastOf(cs[..k]);
    if k > 0 {
      OffsetStep(cs, k - 1);
    }
  }

  class TextField {
    const alnum: Scalar -> bool
    var text: seq<Byte>
    var caret: nat
    var anchor: nat

    /** The text is a string, and both indices are character boundaries in it. */
    ghost predicate Valid()
      reads this
    {
      WellFormed(text) && OnBoundary(text, caret) && OnBoundary(text, anchor)
    }

    ghost function View(): (f: Field<Scalar>)
      requires Valid()
      reads this
      ensures Stands(text, caret, anchor, f)
    {
      StandsExactly(text, caret, anchor);
      var f :| Stands(text, caret, anchor, f);
      f
    }

    /** What the view is, once a field that stands for the state is at hand. */
    lemma ViewIs(f: Field<Scalar>)
      requires Stands(text, caret, anchor, f)
      ensures Valid() && View() == f
    {
      StandsExactly(text, caret, anchor);
      StandsForOne(text, caret, anchor, f, View());
    }

    constructor (alnum: Scalar -> bool, text: seq<Byte>)
      requires WellFormed(text)
      ensures Valid() && this.alnum == alnum
      ensures View() == Field(Chars(text), |Chars(text)|, |Chars(text)|)
    {
      this.alnum := alnum;
      this.text := text;
      this.caret := |text|;
      this.anchor := |text|;
      new;
      var cs := Chars(text);
      assert cs[..|cs|] == cs;
      ViewIs(Field(cs, |cs|, |cs|));
    }

    /** The selected byte range, low end first. */
    function Selection(): (s: Option<(nat, nat)>)
      reads this
    {
      if anchor == caret then None
      else Some((if anchor < caret then anchor else caret, if anchor < caret then caret else anchor))
    }

    /** The byte range is the character range. */
    lemma SelectionIs()
      requires Valid()
      ensures var (f, s) := (View(), Selection());
        && (s.Some? <==> HasSelection(f))
        && (s.Some? ==> s.value.0 == Offset(f.chars, Low(f)) && s.value.1 == Offset(f.chars, High(f)))
    {
      var f := View();
      if f.caret < f.anchor {
        OffsetMonotone(f.chars, f.caret, f.anchor);
      } else if f.anchor < f.caret {
        OffsetMonotone(f.chars, f.anchor, f.caret);
      }
    }

    method SelectedText() returns (s: Option<seq<Byte>>)
      requires Valid()
      ensures s == InBytes(Copied(View()))
    {
      SelectionIs();
      var range := Selection();
      if range.None? {
        return None;
      }
      ghost var f := View();
      Slice(f.chars, Low(f), High(f));
      s := Some(text[range.value.0..range.value.1]);
    }

    // ---- the string's own operations: each panics off a boundary ----

    method Drain(lo: nat, hi: nat)
      requires lo <= hi && OnBoundary(text, lo) && OnBoundary(text, hi)
      modifies this`text
      ensures text == old(text[..lo] + text[hi..])
    {
      text := text[..lo] + text[hi..];
    }

    method InsertStr(at: nat, s: seq<Byte>)
      requires OnBoundary(text, at)
      modifies this`text
      ensures text == old(text[..at] + s + text[at..])
    {
      text := text[..at] + s + text[at..];
    }

    // ---- boundaries ----

    method NextBoundary(at: nat, ghost k: nat) returns (next: Option<nat>)
      requires Valid() && k <= |View().chars| && at == Offset(View().chars, k)
      ensures next == if k < |View().chars| then Some(Offset(View().chars, k + 1)) else None
    {
      hide Offset, Text, First, Width, OnBoundary;
      Ahead(View().chars, k);
      var c := First(text[at..]);
      next := if c.None? then None else Some(at + Width(c.value));
    }

    method PrevBoundary(at: nat, ghost k: nat) returns (prev: Option<nat>)
      requires Valid() && k <= |View().chars| && at == Offset(View().chars, k)
      ensures prev == if 0 < k then Some(Offset(View().chars, k - 1)) else None
    {
      hide Offset, Text, Last, Width, OnBoundary;
      Behind(View().chars, k);
      var c := Last(text[..at]);
      prev := if c.None? then None else Some(at - Width(c.value));
    }

    method WordBoundary(right: bool) returns (at: nat)
      requires Valid()
      ensures at == Offset(View().chars, Reach(alnum, View(), right, true))
    {
      if right {
        at := WordEdgeRight();
      } else {
        at := WordEdgeLeft();
      }
    }

    /** Over the run of word characters, or of separators, that lies that way. */
    method RunRight(from: nat, words: bool, ghost start: nat) returns (at: nat)
      requires Valid() && start <= |View().chars| && from == Offset(View().chars, start)
      ensures at == Offset(View().chars, SkipRight(alnum, words, View().chars, start))
    {
      hide Offset, Text, First, Width, OnBoundary, WellFormed;
      ghost var cs := View().chars;
      ghost var k: nat := start;
      at := from;
      Ahead(cs, k);
      var c := First(text[at..]);
      while c.Some? && alnum(c.value) == words
        invariant 0 <= k <= |cs| && at == Offset(cs, k) <= |text|
        invariant c == if k < |cs| then Some(cs[k]) else None
        invariant SkipRight(alnum, words, cs, k) == SkipRight(alnum, words, cs, start)
        decreases |cs| - k
      {
        Ahead(cs, k);
        at, k := at + Width(c.value), k + 1;
        Ahead(cs, k);
        c := First(text[at..]);
      }
    }

    method WordEdgeRight() returns (at: nat)
      requires Valid()
      ensures at == Offset(View().chars, WordRight(alnum, View().chars, View().caret))
    {
      hide Offset;
      ghost var f := View();
      at := RunRight(caret, false, f.caret);
      at := RunRight(at, true, SkipRight(alnum, false, f.chars, f.caret));
    }

    /** Over the run of word characters, or of separators, that lies that way. */
    method RunLeft(from: nat, words: bool, ghost start: nat) returns (at: nat)
      requires Valid() && start <= |View().chars| && from == Offset(View().chars, start)
      ensures at == Offset(View().chars, SkipLeft(alnum, words, View().chars, start))
    {
      hide Offset, Text, Last, Width, OnBoundary, WellFormed;
      ghost var cs := View().chars;
      ghost var k: nat := start;
      at := from;
      Behind(cs, k);
      var c := Last(text[..at]);
      while c.Some? && alnum(c.value) == words
        invariant 0 <= k <= |cs| && at == Offset(cs, k) <= |text|
        invariant c == if 0 < k then Some(cs[k - 1]) else None
        invariant SkipLeft(alnum, words, cs, k) == SkipLeft(alnum, words, cs, start)
        decreases k
      {
        Behind(cs, k);
        at, k := at - Width(c.value), k - 1;
        Behind(cs, k);
        c := Last(text[..at]);
      }
    }

    method WordEdgeLeft() returns (at: nat)
      requires Valid()
      ensures at == Offset(View().chars, WordLeft(alnum, View().chars, View().caret))
    {
      hide Offset;
      ghost var f := View();
      at := RunLeft(caret, false, f.caret);
      at := RunLeft(at, true, SkipLeft(alnum, false, f.chars, f.caret));
    }

    // ---- editing ----

    method Set(s: seq<Byte>)
      requires WellFormed(s)
      modifies this
      ensures Valid() && View() == Field(Chars(s), |Chars(s)|, |Chars(s)|)
    {
      text, caret, anchor := s, |s|, |s|;
      ghost var cs := Chars(s);
      assert cs[..|cs|] == cs;
      ViewIs(Field(cs, |cs|, |cs|));
    }

    method SelectAll()
      requires Valid()
      modifies this`caret, this`anchor
      ensures Valid() && View() == Field(old(View()).chars, |old(View()).chars|, 0)
    {
      ghost var cs := View().chars;
      anchor, caret := 0, |text|;
      assert cs[..|cs|] == cs;
      ViewIs(Field(cs, |cs|, 0));
    }

    /** True when there was a selection to remove. */
    method DeleteSelection() returns (removed: bool)
      requires Valid()
      modifies this
      ensures Valid() && removed == HasSelection(old(View()))
      ensures View() == if removed then Erased(old(View())) else old(View())
      ensures !removed ==> unchanged(this)
    {
      hide Offset, Text, IsCharBoundary, WellFormed;
      ghost var f := View();
      SelectionIs();
      var range := Selection();
      if range.None? {
        return false;
      }
      Spliced(f.chars, Low(f), High(f), []);
      Drain(range.value.0, range.value.1);
      caret, anchor := range.value.0, range.value.0;
      ViewIs(Erased(f));
      return true;
    }

    /** Insert at the caret, replacing the selection if there is one. */
    method Insert(s: seq<Byte>)
      requires Valid() && WellFormed(s)
      modifies this
      ensures Valid() && View() == Typed(old(View()), Chars(s))
    {
      hide Offset, Text, IsCharBoundary;
      ghost var f := View();
      var _ := DeleteSelection();
      ghost var g := View();
      ErasedThenTyped(f, Chars(s));
      Spliced(g.chars, g.caret, g.caret, Chars(s));
      InsertStr(caret, s);
      caret := caret + |s|;
      anchor := caret;
      ViewIs(Typed(g, Chars(s)));
    }

    method Backspace()
      requires Valid()
      modifies this
      ensures Valid() && View() == Removed(alnum, old(View()), false, false)
    {
      hide Offset, Text, IsCharBoundary, WellFormed;
      ghost var f := View();
      var gone := DeleteSelection();
      if gone {
        return;
      }
      var prev := PrevBoundary(caret, f.caret);
      if prev.Some? {
        Spliced(f.chars, f.caret - 1, f.caret, []);
        Drain(prev.value, caret);
        caret, anchor := prev.value, prev.value;
        ViewIs(Erased(Placed(f, f.caret - 1, true)));
      } else {
        assert Erased(f).chars == f.chars;
      }
    }

    method Delete()
      requires Valid()
      modifies this
      ensures Valid() && View() == Removed(alnum, old(View()), true, false)
    {
      hide Offset, Text, IsCharBoundary, WellFormed;
      ghost var f := View();
      var gone := DeleteSelection();
      if gone {
        return;
      }
      var next := NextBoundary(caret, f.caret);
      if next.Some? {
        Spliced(f.chars, f.caret, f.caret + 1, []);
        Drain(caret, next.value);
        ViewIs(Erased(Placed(f, f.caret + 1, true)));
      } else {
        assert Erased(f).chars == f.chars;
      }
    }

    method DeleteWordBack()
      requires Valid()
      modifies this
      ensures Valid() && View() == Removed(alnum, old(View()), false, true)
    {
      hide Offset, Text, IsCharBoundary, WellFormed, WordLeft;
      ghost var f := View();
      var gone := DeleteSelection();
      if gone {
        return;
      }
      var to := WordBoundary(false);
      ghost var k := WordLeft(alnum, f.chars, f.caret);
      Spliced(f.chars, k, f.caret, []);
      Drain(to, caret);
      caret, anchor := to, to;
      ViewIs(Erased(Placed(f, k, true)));
    }

    method DeleteWordForward()
      requires Valid()
      modifies this
      ensures Valid() && View() == Removed(alnum, old(View()), true, true)
    {
      hide Offset, Text, IsCharBoundary, WellFormed, WordRight;
      ghost var f := View();
      var gone := DeleteSelection();
      if gone {
        return;
      }
      var to := WordBoundary(true);
      ghost var k := WordRight(alnum, f.chars, f.caret);
      Spliced(f.chars, f.caret, k, []);
      Drain(caret, to);
      ViewIs(Erased(Placed(f, k, true)));
    }

    method DeleteToStart()
      requires Valid()
      modifies this
      ensures Valid() && View() == RemovedToStart(old(View()))
    {
      hide Text, IsCharBoundary, WellFormed;
      ghost var f := View();
      var gone := DeleteSelection();
      if gone {
        return;
      }
      Spliced(f.chars, 0, f.caret, []);
      assert Offset(f.chars, 0) == 0;
      Drain(0, caret);
      caret, anchor := 0, 0;
      ViewIs(Erased(Placed(f, 0, true)));
    }

    // ---- moving ----

    method MoveCaret(right: bool, word: bool, extend: bool)
      requires Valid()
      modifies this`caret, this`anchor
      ensures Valid() && View() == Moved(alnum, old(View()), right, word, extend)
    {
      hide Offset, Text, IsCharBoundary, WellFormed, WordLeft, WordRight;
      ghost var f := View();
      if !extend {
        SelectionIs();
        var range := Selection();
        if range.Some? {
          caret := if right then range.value.1 else range.value.0;
          anchor := caret;
          f := Placed(f, if right then High(f) else Low(f), false);
          ViewIs(f);
          if !word {
            return;
          }
        }
      }
      if word {
        caret := WordBoundary(right);
      } else if right {
        var next := NextBoundary(caret, f.caret);
        caret := if next.Some? then next.value else caret;
      } else {
        var prev := PrevBoundary(caret, f.caret);
        caret := if prev.Some? then prev.value else caret;
      }
      if !extend {
        anchor := caret;
      }
      ViewIs(Placed(f, Reach(alnum, f, right, word), extend));
    }

    method Home(extend: bool)
      requires Valid()
      modifies this`caret, this`anchor
      ensures Valid() && View() == Placed(old(View()), 0, extend)
    {
      ghost var f := View();
      caret := 0;
      if !extend {
        anchor := 0;
      }
      ViewIs(Placed(f, 0, extend));
    }

    method End(extend: bool)
      requires Valid()
      modifies this`caret, this`anchor
      ensures Valid() && View() == Placed(old(View()), |old(View()).chars|, extend)
    {
      ghost var f := View();
      caret := |text|;
      if !extend {
        anchor := caret;
      }
      assert f.chars[..|f.chars|] == f.chars;
      ViewIs(Placed(f, |f.chars|, extend));
    }

    method TakeSelection() returns (taken: Option<seq<Byte>>)
      requires Valid()
      modifies this
      ensures Valid() && View() == Erased(old(View()))
      ensures taken == InBytes(Copied(old(View())))
    {
      taken := SelectedText();
      ghost var f := View();
      if taken.Some? {
        var _ := DeleteSelection();
      } else {
        assert Erased(f).chars == f.chars;
      }
    }

    /** Run a command. `changed` is measured on the text, and only for commands that can
        edit it. */
    method Apply(cmd: Command<Byte>, clipboard: Option<seq<Byte>>) returns (edit: TextEdit)
      requires Valid() && (cmd.Insert? ==> WellFormed(cmd.text)) && (clipboard.Some? ==> WellFormed(clipboard.value))
      modifies this
      ensures Valid()
      ensures (View(), edit.copied)
        == var (g, copied) := Run(alnum, old(View()), InChars(cmd), Read(clipboard)); (g, InBytes(copied))
      ensures edit.changed <==> text != old(text)
    {
      hide Text, WellFormed, Removed, RemovedToStart, Moved, Typed, Placed, Copied, OnBoundary;
      var before := if cmd.Copy? || cmd.Move? || cmd.Home? || cmd.End? || cmd.SelectAll? then None else Some(text);
      var copied := None;
      match cmd {
        case Insert(s) => Insert(s);
        case Backspace => Backspace();
        case Delete => Delete();
        case DeleteWordBack => DeleteWordBack();
        case DeleteWordForward => DeleteWordForward();
        case DeleteToStart => DeleteToStart();
        case Move(right, word, extend) => MoveCaret(right, word, extend);
        case Home(extend) => Home(extend);
        case End(extend) => End(extend);
        case SelectAll => SelectAll();
        case Copy => copied := SelectedText();
        case Cut => copied := TakeSelection();
        case Paste =>
          NoText();
          if clipboard.Some? && clipboard.value != [] {
            Insert(clipboard.value);
          }
      }
      edit := TextEdit(copied, before.Some? && before.value != text);
    }
  }

  lemma NoText()
    ensures forall b :: WellFormed(b) ==> (b == [] <==> Chars(b) == [])
  {}

  ghost function InChars(cmd: Command<Byte>): (c: Command<Scalar>)
    requires cmd.Insert? ==> WellFormed(cmd.text)
  {
    match cmd
    case Insert(s) => CharField.Insert(Chars(s))
    case Backspace => CharField.Backspace
    case Delete => CharField.Delete
    case DeleteWordBack => CharField.DeleteWordBack
    case DeleteWordForward => CharField.DeleteWordForward
    case DeleteToStart => CharField.DeleteToStart
    case Move(right, word, extend) => CharField.Move(right, word, extend)
    case Home(extend) => CharField.Home(extend)
    case End(extend) => CharField.End(extend)
    case SelectAll => CharField.SelectAll
    case Copy => CharField.Copy
    case Cut => CharField.Cut
    case Paste => CharField.Paste
  }

  ghost function Read(s: Option<seq<Byte>>): (cs: Option<seq<Scalar>>)
    requires s.Some? ==> WellFormed(s.value)
  {
    if s.None? then None else Some(Chars(s.value))
  }

  function InBytes(cs: Option<seq<Scalar>>): (s: Option<seq<Byte>>)
  {
    if cs.None? then None else Some(Text(cs.value))
  }

  lemma ErasedThenTyped(f: Field<Scalar>, s: seq<Scalar>)
    requires f.Ok()
    ensures Typed(Erased(f), s) == Typed(f, s)
    ensures !HasSelection(f) ==> Erased(f) == f
  {
    var g := Erased(f);
    assert g.chars[..g.caret] == f.chars[..Low(f)] && g.chars[g.caret..] == f.chars[High(f)..];
    if !HasSelection(f) {
      assert g.chars == f.chars;
    }
  }

  lemma Slice(cs: seq<Scalar>, lo: nat, hi: nat)
    requires lo <= hi <= |cs|
    ensures Offset(cs, lo) <= Offset(cs, hi) <= |Text(cs)|
    ensures Text(cs)[Offset(cs, lo)..Offset(cs, hi)] == Text(cs[lo..hi])
  {
    SplitAt(cs, hi);
    assert cs[..hi][..lo] == cs[..lo] && cs[..hi][lo..] == cs[lo..hi];
    SplitAt(cs[..hi], lo);
  }
}
