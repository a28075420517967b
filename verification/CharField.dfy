/** The editor a text field is meant to be: a sequence of characters, with the caret and
    the selection's anchor counted in characters. Deleting anything is defined as selecting
    it and erasing the selection. */
module CharField {
  import opened Wrappers

  datatype Field<+T> = Field(chars: seq<T>, caret: nat, anchor: nat) {
    predicate Ok()
    {
      caret <= |chars| && anchor <= |chars|
    }
  }

  /** A command, over whatever units its text comes in. */
  datatype Command<T> =
    | Insert(text: seq<T>)
    | Backspace
    | Delete
    | DeleteWordBack
    | DeleteWordForward
    | DeleteToStart
    | Move(right: bool, word: bool, extend: bool)
    | Home(extend: bool)
    | End(extend: bool)
    | SelectAll
    | Copy
    | Cut
    | Paste

  // ---- the selection ----

  predicate HasSelection<T>(f: Field<T>)
  {
    f.anchor != f.caret
  }

  function Low<T>(f: Field<T>): (i: nat)
  {
    if f.anchor < f.caret then f.anchor else f.caret
  }

  function High<T>(f: Field<T>): (i: nat)
  {
    if f.anchor < f.caret then f.caret else f.anchor
  }

  function Selected<T>(f: Field<T>): (cs: seq<T>)
    requires f.Ok()
  {
    f.chars[Low(f)..High(f)]
  }

  function Copied<T>(f: Field<T>): (cs: Option<seq<T>>)
    requires f.Ok()
  {
    if HasSelection(f) then Some(Selected(f)) else None
  }

  // ---- replacing it ----

  function Typed<T>(f: Field<T>, s: seq<T>): (g: Field<T>)
    requires f.Ok()
    ensures g.Ok()
  {
    var at := Low(f) + |s|;
    Field(f.chars[..Low(f)] + s + f.chars[High(f)..], at, at)
  }

  function Erased<T>(f: Field<T>): (g: Field<T>)
    requires f.Ok()
    ensures g.Ok()
  {
    Typed(f, [])
  }

  // ---- moving ----

  /** The first index from `k` on whose character does not match, or the end. */
  function SkipRight<T>(alnum: T -> bool, words: bool, cs: seq<T>, k: nat): (j: nat)
    requires k <= |cs|
    ensures k <= j <= |cs|
    ensures forall i :: k <= i < j ==> alnum(cs[i]) == words
    ensures j < |cs| ==> alnum(cs[j]) != words
    decreases |cs| - k
  {
    if k < |cs| && alnum(cs[k]) == words then SkipRight(alnum, words, cs, k + 1) else k
  }

  /** The last index up to `k` whose preceding character does not match, or the start. */
  function SkipLeft<T>(alnum: T -> bool, words: bool, cs: seq<T>, k: nat): (j: nat)
    requires k <= |cs|
    ensures j <= k
    ensures forall i :: j <= i < k ==> alnum(cs[i]) == words
    ensures j > 0 ==> alnum(cs[j - 1]) != words
  {
    if k > 0 && alnum(cs[k - 1]) == words then SkipLeft(alnum, words, cs, k - 1) else k
  }

  function WordRight<T>(alnum: T -> bool, cs: seq<T>, k: nat): (j: nat)
    requires k <= |cs|
    ensures k <= j <= |cs|
  {
    SkipRight(alnum, true, cs, SkipRight(alnum, false, cs, k))
  }

  function WordLeft<T>(alnum: T -> bool, cs: seq<T>, k: nat): (j: nat)
    requires k <= |cs|
    ensures j <= k
  {
    SkipLeft(alnum, true, cs, SkipLeft(alnum, false, cs, k))
  }

  function Reach<T>(alnum: T -> bool, f: Field<T>, right: bool, word: bool): (j: nat)
    requires f.Ok()
    ensures j <= |f.chars|
  {
    if word then
      if right then WordRight(alnum, f.chars, f.caret) else WordLeft(alnum, f.chars, f.caret)
    else if right then
      if f.caret < |f.chars| then f.caret + 1 else f.caret
    else
      if f.caret > 0 then f.caret - 1 else 0
  }

  function Placed<T>(f: Field<T>, at: nat, extend: bool): (g: Field<T>)
  {
    f.(caret := at, anchor := if extend then f.anchor else at)
  }

  function Moved<T>(alnum: T -> bool, f: Field<T>, right: bool, word: bool, extend: bool): (g: Field<T>)
    requires f.Ok()
    ensures g.Ok()
  {
    if extend || !HasSelection(f) then Placed(f, Reach(alnum, f, right, word), extend)
    else
      var edge := Placed(f, if right then High(f) else Low(f), false);
      if word then Placed(edge, Reach(alnum, edge, right, true), false) else edge
  }

  // ---- deleting is selecting and erasing ----

  function Removed<T>(alnum: T -> bool, f: Field<T>, right: bool, word: bool): (g: Field<T>)
    requires f.Ok()
    ensures g.Ok()
  {
    Erased(if HasSelection(f) then f else Moved(alnum, f, right, word, true))
  }

  function RemovedToStart<T>(f: Field<T>): (g: Field<T>)
    requires f.Ok()
    ensures g.Ok()
  {
    Erased(if HasSelection(f) then f else Placed(f, 0, true))
  }

  function Pasted<T>(f: Field<T>, clipboard: Option<seq<T>>): (g: Field<T>)
    requires f.Ok()
    ensures g.Ok()
  {
    if clipboard.None? || |clipboard.value| == 0 then f else Typed(f, clipboard.value)
  }

  /** One command: the field afterwards and what it hands to the clipboard. */
  function Run<T>(alnum: T -> bool, f: Field<T>, cmd: Command<T>, clipboard: Option<seq<T>>):
      (r: (Field<T>, Option<seq<T>>))
    requires f.Ok()
    ensures r.0.Ok()
  {
    match cmd
    case Insert(s) => (Typed(f, s), None)
    case Backspace => (Removed(alnum, f, false, false), None)
    case Delete => (Removed(alnum, f, true, false), None)
    case DeleteWordBack => (Removed(alnum, f, false, true), None)
    case DeleteWordForward => (Removed(alnum, f, true, true), None)
    case DeleteToStart => (RemovedToStart(f), None)
    case Move(right, word, extend) => (Moved(alnum, f, right, word, extend), None)
    case Home(extend) => (Placed(f, 0, extend), None)
    case End(extend) => (Placed(f, |f.chars|, extend), None)
    case SelectAll => (Field(f.chars, |f.chars|, 0), None)
    case Copy => (f, Copied(f))
    case Cut => (Erased(f), Copied(f))
    case Paste => (Pasted(f, clipboard), None)
  }

  // ---- the algebra of editing ----

  /** Cutting and pasting what was cut puts the text back and leaves the caret at its end;
      with nothing selected, neither half does anything. */
  lemma CutPasteRestores<T>(alnum: T -> bool, f: Field<T>, clipboard: Option<seq<T>>)
    requires f.Ok()
    ensures var (cut, taken) := Run(alnum, f, Cut, clipboard);
      var back := Run(alnum, cut, Paste, taken).0;
      back == Field(f.chars, High(f), High(f)) && (taken == None <==> !HasSelection(f))
  {
    var cut := Erased(f);
    if HasSelection(f) {
      var s := Selected(f);
      assert f.chars == f.chars[..Low(f)] + s + f.chars[High(f)..];
      assert cut.chars[..Low(f)] == f.chars[..Low(f)] && cut.chars[Low(f)..] == f.chars[High(f)..];
    } else {
      assert cut.chars == f.chars;
    }
  }

  function Backspaces<T>(alnum: T -> bool, f: Field<T>, n: nat): (g: Field<T>)
    requires f.Ok()
    ensures g.Ok()
    decreases n
  {
    if n == 0 then f else Backspaces(alnum, Run(alnum, f, Backspace, None).0, n - 1)
  }

  /** As many backspaces as characters typed take away exactly those characters. */
  lemma {:induction false} BackspacesUndoTyping<T>(alnum: T -> bool, f: Field<T>, s: seq<T>)
    requires f.Ok()
    ensures Backspaces(alnum, Typed(f, s), |s|) == Erased(f)
    decreases |s|
  {
    if s != [] {
      var t := Typed(f, s);
      var init := s[..|s| - 1];
      var g := Run(alnum, t, Backspace, None).0;
      assert g == Typed(f, init) by {
        assert t.chars[..t.caret - 1] == f.chars[..Low(f)] + init;
        assert t.chars[t.caret..] == f.chars[High(f)..];
        assert g.chars == Typed(f, init).chars;
      }
      BackspacesUndoTyping(alnum, f, init);
    }
  }

  /** Delete after stepping left is backspace, wherever there is a character to the left. */
  lemma BackspaceIsLeftThenDelete<T>(alnum: T -> bool, f: Field<T>)
    requires f.Ok() && !HasSelection(f)
    ensures var left := Run(alnum, f, Move(false, false, false), None).0;
      Run(alnum, left, Delete, None).0 == Run(alnum, f, Backspace, None).0 <==> (f.caret > 0 || f.chars == [])
  {
    if f.caret == 0 && f.chars != [] {
      assert Run(alnum, f, Backspace, None).0.chars == f.chars;
      assert |Run(alnum, Run(alnum, f, Move(false, false, false), None).0, Delete, None).0.chars| == |f.chars| - 1;
    }
  }

  /** Both word deletes at one place take out the whole stretch between the two word edges,
      in either order. */
  lemma WordDeletesMeet<T>(alnum: T -> bool, f: Field<T>)
    requires f.Ok() && !HasSelection(f)
    ensures var (l, r) := (WordLeft(alnum, f.chars, f.caret), WordRight(alnum, f.chars, f.caret));
      var both := Field(f.chars[..l] + f.chars[r..], l, l);
      && Run(alnum, Run(alnum, f, DeleteWordBack, None).0, DeleteWordForward, None).0 == both
      && Run(alnum, Run(alnum, f, DeleteWordForward, None).0, DeleteWordBack, None).0 == both
  {
    hide WordLeft, WordRight;
    var cs, k := f.chars, f.caret;
    var l, r := WordLeft(alnum, cs, k), WordRight(alnum, cs, k);
    assert cs == cs[..k] + cs[k..];
    RemovedIs(alnum, f, false);
    RemovedIs(alnum, f, true);
    var back := Field(cs[..l] + cs[k..], l, l);
    RemovedIs(alnum, back, true);
    WordRightLocal(alnum, cs[..l], cs[..k], cs[k..]);
    assert back.chars[..l] == cs[..l] && back.chars[l + (r - k)..] == cs[r..];
    var ahead := Field(cs[..k] + cs[r..], k, k);
    RemovedIs(alnum, ahead, false);
    WordLeftLocal(alnum, cs[..k], cs[k..], cs[r..]);
    assert ahead.chars[..l] == cs[..l] && ahead.chars[k..] == cs[r..];
  }

  lemma RemovedIs<T>(alnum: T -> bool, f: Field<T>, right: bool)
    requires f.Ok() && !HasSelection(f)
    ensures var (cs, k) := (f.chars, f.caret);
      var (l, r) := (WordLeft(alnum, cs, k), WordRight(alnum, cs, k));
      Removed(alnum, f, right, true)
        == if right then Field(cs[..k] + cs[r..], k, k) else Field(cs[..l] + cs[k..], l, l)
  {
    hide WordLeft, WordRight;
    var cs, k := f.chars, f.caret;
    var r := WordRight(alnum, cs, k);
    assert cs[..k] + [] + cs[r..] == cs[..k] + cs[r..];
    if k == r {
      assert Removed(alnum, f, true, true).chars == cs[..k] + cs[k..];
    }
  }

  lemma WordRightLocal<T>(alnum: T -> bool, before: seq<T>, other: seq<T>, rest: seq<T>)
    ensures WordRight(alnum, before + rest, |before|) - |before| == WordRight(alnum, other + rest, |other|) - |other|
  {
    SkipRightLocal(alnum, false, before, other, rest, 0);
    var j := SkipRight(alnum, false, before + rest, |before|) - |before|;
    SkipRightLocal(alnum, true, before, other, rest, j);
  }

  lemma {:induction false} SkipRightLocal<T>(alnum: T -> bool, words: bool, before: seq<T>, other: seq<T>, rest: seq<T>, k: nat)
    requires k <= |rest|
    ensures SkipRight(alnum, words, before + rest, |before| + k) - |before| == SkipRight(alnum, words, other + rest, |other| + k) - |other|
    decreases |rest| - k
  {
    if k < |rest| {
      assert (before + rest)[|before| + k] == rest[k] == (other + rest)[|other| + k];
      if alnum(rest[k]) == words {
        SkipRightLocal(alnum, words, before, other, rest, k + 1);
      }
    }
  }

  lemma WordLeftLocal<T>(alnum: T -> bool, before: seq<T>, rest: seq<T>, other: seq<T>)
    ensures WordLeft(alnum, before + rest, |before|) == WordLeft(alnum, before + other, |before|)
  {
    SkipLeftLocal(alnum, false, before, rest, other, |before|);
    SkipLeftLocal(alnum, true, before, rest, other, SkipLeft(alnum, false, before + rest, |before|));
  }

  lemma {:induction false} SkipLeftLocal<T>(alnum: T -> bool, words: bool, before: seq<T>, rest: seq<T>, other: seq<T>, k: nat)
    requires k <= |before|
    ensures SkipLeft(alnum, words, before + rest, k) == SkipLeft(alnum, words, before + other, k)
  {
    if k > 0 && alnum(before[k - 1]) == words {
      SkipLeftLocal(alnum, words, before, rest, other, k - 1);
    }
  }

  // ---- word motion ----

  predicate WordStart<T>(alnum: T -> bool, cs: seq<T>, k: nat)
  {
    k < |cs| && alnum(cs[k]) && (k == 0 || !alnum(cs[k - 1]))
  }

  predicate WordEnd<T>(alnum: T -> bool, cs: seq<T>, k: nat)
  {
    0 < k <= |cs| && alnum(cs[k - 1]) && (k == |cs| || !alnum(cs[k]))
  }

  predicate NoWords<T>(alnum: T -> bool, cs: seq<T>)
  {
    forall i :: 0 <= i < |cs| ==> !alnum(cs[i])
  }

  /** Word-right stops at the first word end past the caret, or at the end of the text. */
  lemma WordRightStops<T>(alnum: T -> bool, cs: seq<T>, k: nat)
    requires k <= |cs|
    ensures var j := WordRight(alnum, cs, k);
      && (j == |cs| || WordEnd(alnum, cs, j)) && (k < |cs| ==> k < j)
      && forall i :: k < i < j ==> !WordEnd(alnum, cs, i)
  {
    var m := SkipRight(alnum, false, cs, k);
    var j := SkipRight(alnum, true, cs, m);
    forall i | k < i < j
      ensures !WordEnd(alnum, cs, i)
    {
      if i <= m {
        assert !alnum(cs[i - 1]);
      } else {
        assert alnum(cs[i]);
      }
    }
  }

  /** Word-left stops at the last word start before the caret, or at the start of the text. */
  lemma WordLeftStops<T>(alnum: T -> bool, cs: seq<T>, k: nat)
    requires k <= |cs|
    ensures var j := WordLeft(alnum, cs, k);
      && (j == 0 || WordStart(alnum, cs, j)) && (0 < k ==> j < k)
      && forall i :: j < i < k ==> !WordStart(alnum, cs, i)
  {
    var m := SkipLeft(alnum, false, cs, k);
    var j := SkipLeft(alnum, true, cs, m);
    forall i | j < i < k
      ensures !WordStart(alnum, cs, i)
    {
      if m <= i {
        assert !alnum(cs[i]);
      } else {
        assert alnum(cs[i - 1]);
      }
    }
  }

  /** Word-right then word-left comes back exactly from a word start, or from the start of a
      text without words. */
  lemma RightThenLeft<T>(alnum: T -> bool, cs: seq<T>, k: nat)
    requires k <= |cs|
    ensures WordLeft(alnum, cs, WordRight(alnum, cs, k)) == k
      <==> WordStart(alnum, cs, k) || (k == 0 && NoWords(alnum, cs))
  {
    var r := WordRight(alnum, cs, k);
    var l := WordLeft(alnum, cs, r);
    WordRightStops(alnum, cs, k);
    WordLeftStops(alnum, cs, r);
    var m := SkipRight(alnum, false, cs, k);
    if m == |cs| {
      assert forall i :: k <= i < |cs| ==> !alnum(cs[i]);
    } else {
      assert alnum(cs[m]);
      if WordStart(alnum, cs, k) {
        assert m == k;
      }
    }
  }

  /** Word-left then word-right comes back exactly from a word end, or from the end of a text
      without words. */
  lemma LeftThenRight<T>(alnum: T -> bool, cs: seq<T>, k: nat)
    requires k <= |cs|
    ensures WordRight(alnum, cs, WordLeft(alnum, cs, k)) == k
      <==> WordEnd(alnum, cs, k) || (k == |cs| && NoWords(alnum, cs))
  {
    var l := WordLeft(alnum, cs, k);
    WordLeftStops(alnum, cs, k);
    WordRightStops(alnum, cs, l);
    var m := SkipLeft(alnum, false, cs, k);
    if m == 0 {
      assert forall i :: 0 <= i < k ==> !alnum(cs[i]);
    } else {
      assert alnum(cs[m - 1]);
    }
  }

  function Walk<T>(alnum: T -> bool, cs: seq<T>, k: nat, n: nat): (j: nat)
    requires k <= |cs|
    ensures k <= j <= |cs|
    decreases n
  {
    if n == 0 then k else Walk(alnum, cs, WordRight(alnum, cs, k), n - 1)
  }

  /** How many word ends lie strictly between `k` and the end of the text. */
  function EndsAhead<T>(alnum: T -> bool, cs: seq<T>, k: nat): (n: nat)
    requires k <= |cs|
    decreases |cs| - k
  {
    if k + 1 >= |cs| then 0
    else (if WordEnd(alnum, cs, k + 1) then 1 else 0) + EndsAhead(alnum, cs, k + 1)
  }

  lemma {:induction false} NoneOnTheWay<T>(alnum: T -> bool, cs: seq<T>, k: nat, j: nat)
    requires k < j <= |cs| && (j == |cs| || WordEnd(alnum, cs, j))
    requires forall i :: k < i < j ==> !WordEnd(alnum, cs, i)
    ensures EndsAhead(alnum, cs, k) == if j == |cs| then 0 else 1 + EndsAhead(alnum, cs, j)
    decreases j - k
  {
    if k + 1 < j {
      NoneOnTheWay(alnum, cs, k + 1, j);
    }
  }

  /** Repeated word motion reaches the end of the text: in exactly one step more than there
      are word ends in between, and no sooner. */
  lemma {:induction false} WalkReachesTheEnd<T>(alnum: T -> bool, cs: seq<T>, k: nat, n: nat)
    requires k <= |cs|
    ensures Walk(alnum, cs, k, n) == |cs| <==> k == |cs| || n > EndsAhead(alnum, cs, k)
    decreases n
  {
    if n > 0 {
      var j := WordRight(alnum, cs, k);
      WordRightStops(alnum, cs, k);
      WalkReachesTheEnd(alnum, cs, j, n - 1);
      if k < |cs| {
        NoneOnTheWay(alnum, cs, k, j);
      }
    }
  }
}
