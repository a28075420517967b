/** The fold view: which stored row each visual row draws once folded blocks are hidden. */
module FoldView {
  import opened Wrappers

  type LineId = nat

  /** A command block: its output runs from `output` to `end`, the last row included. */
  datatype Block = Block(id: nat, output: Option<LineId>, end: Option<LineId>)

  /** The grid's stored rows by line id, oldest first, the screen's height, and how far back
      the reader has scrolled. */
  datatype Term = Term(lines: seq<LineId>, rows: nat, offset: nat, altScreen: bool, blocks: seq<Block>)

  datatype Row = Draw(index: nat) | Filler

  /** The rows a fold would hide, half-open, or None when there is nothing to hide. */
  function FoldRange(b: Block): (r: Option<(LineId, LineId)>)
  {
    if b.output.Some? && b.end.Some? && b.end.value >= b.output.value then Some((b.output.value, b.end.value + 1))
    else None
  }

  /** The line is in the block's output, from its first row to its last. */
  predicate InOutput(b: Block, line: LineId) {
    b.output.Some? && b.end.Some? && b.output.value <= line <= b.end.value
  }

  predicate Foldable(t: Term, folded: set<nat>, i: nat) {
    i < |t.blocks| && t.blocks[i].id in folded && FoldRange(t.blocks[i]).Some?
  }

  predicate Hidden(t: Term, folded: set<nat>, line: LineId) {
    exists i :: 0 <= i < |t.blocks| && t.blocks[i].id in folded && InOutput(t.blocks[i], line)
  }

  /** The stored rows before `n` that no folded block hides, oldest first. */
  function Visible(t: Term, folded: set<nat>, n: nat): (v: seq<nat>) {
    if n == 0 then []
    else Visible(t, folded, n - 1) + (if n - 1 < |t.lines| && !Hidden(t, folded, t.lines[n - 1]) then [n - 1] else [])
  }

  lemma {:induction false} VisibleIs(t: Term, folded: set<nat>, n: nat)
    ensures var v := Visible(t, folded, n);
      && (forall i, j :: 0 <= i < j < |v| ==> v[i] < v[j])
      && forall i :: i in v <==> 0 <= i < n && i < |t.lines| && !Hidden(t, folded, t.lines[i])
  {
    if n > 0 {
      VisibleIs(t, folded, n - 1);
      var v := Visible(t, folded, n - 1);
      assert forall i :: 0 <= i < |v| ==> v[i] in v;
    }
  }

  /** The stored row at the bottom of the viewport. */
  function Bottom(t: Term): (i: nat) {
    var base := if |t.lines| > t.rows + t.offset then |t.lines| - (t.rows + t.offset) else 0;
    base + (if t.rows > 0 then t.rows - 1 else 0)
  }

  function Last(v: seq<nat>, k: nat): (s: seq<nat>) {
    if |v| <= k then v else v[|v| - k..]
  }

  function Rows(picked: seq<nat>, rows: nat): (r: seq<Row>)
    requires |picked| <= rows
  {
    seq(|picked|, i requires 0 <= i < |picked| => Draw(picked[i])) + seq(rows - |picked|, _ => Filler)
  }

  /** Hiding anything at all takes a folded block that has something to hide. */
  ghost predicate Folds(t: Term, folded: set<nat>) {
    folded != {} && !t.altScreen && exists i :: Foldable(t, folded, i)
  }

  ghost function View(t: Term, folded: set<nat>): (r: seq<Row>) {
    Rows(Last(Visible(t, folded, Bottom(t) + 1), t.rows), t.rows)
  }

  function Ranges(t: Term, folded: set<nat>, n: nat): (r: seq<(LineId, LineId)>)
    requires n <= |t.blocks|
  {
    if n == 0 then []
    else
      var b := t.blocks[n - 1];
      Ranges(t, folded, n - 1) + (if b.id in folded && FoldRange(b).Some? then [FoldRange(b).value] else [])
  }

  predicate Within(ranges: seq<(LineId, LineId)>, line: LineId) {
    exists k :: 0 <= k < |ranges| && ranges[k].0 <= line < ranges[k].1
  }

  /** The half-open ranges hide exactly the inclusive output rows. */
  lemma {:induction false} RangesHide(t: Term, folded: set<nat>, n: nat, line: LineId)
    requires n <= |t.blocks|
    ensures Within(Ranges(t, folded, n), line)
      <==> exists i :: 0 <= i < n && t.blocks[i].id in folded && InOutput(t.blocks[i], line)
  {
    if n > 0 {
      RangesHide(t, folded, n - 1, line);
      var before, r := Ranges(t, folded, n - 1), Ranges(t, folded, n);
      if Within(before, line) {
        var k :| 0 <= k < |before| && before[k].0 <= line < before[k].1;
        assert r[k] == before[k];
      }
      if t.blocks[n - 1].id in folded && InOutput(t.blocks[n - 1], line) {
        assert r[|before|] == FoldRange(t.blocks[n - 1]).value;
      }
    }
  }

  lemma RangesHideAll(t: Term, folded: set<nat>, line: LineId)
    ensures Within(Ranges(t, folded, |t.blocks|), line) <==> Hidden(t, folded, line)
  {
    RangesHide(t, folded, |t.blocks|, line);
  }

  lemma FoldableInRange(t: Term, folded: set<nat>)
    ensures forall i: nat :: Foldable(t, folded, i) ==> i < |t.blocks|
  {}

  lemma {:induction false} RangesEmpty(t: Term, folded: set<nat>, n: nat)
    requires n <= |t.blocks|
    ensures Ranges(t, folded, n) == [] <==> forall i :: 0 <= i < n ==> !Foldable(t, folded, i)
  {
    if n > 0 {
      RangesEmpty(t, folded, n - 1);
      assert Foldable(t, folded, n - 1) ==> |Ranges(t, folded, n)| > 0;
    }
  }

  function Reversed(s: seq<nat>): (r: seq<nat>)
    ensures |r| == |s| && forall i :: 0 <= i < |s| ==> r[i] == s[|s| - 1 - i]
  {
    if s == [] then [] else Reversed(s[1..]) + [s[0]]
  }

  lemma ReversedMore(s: seq<nat>, x: nat)
    ensures Reversed(s + [x]) == [x] + Reversed(s)
  {}

  lemma LastIs(before: seq<nat>, tail: seq<nat>, k: nat)
    requires |tail| == k || (before == [] && |tail| <= k)
    ensures Last(before + tail, k) == tail
  {}

  /** `fold_row_map`: walk up from the viewport's bottom row, skip what is hidden, stop when the
      screen is full; then turn round and pad below. */
  method FoldRowMap(t: Term, folded: set<nat>) returns (r: Option<seq<Row>>)
    ensures r == if Folds(t, folded) then Some(View(t, folded)) else None
  {
    FoldableInRange(t, folded);
    hide Within, Ranges, Foldable, Hidden, Reversed, Last, Rows;
    if folded == {} || t.altScreen {
      return None;
    }
    var ranges := Ranges(t, folded, |t.blocks|);
    RangesEmpty(t, folded, |t.blocks|);
    if ranges == [] {
      return None;
    }
    var picked: seq<nat> := [];
    var left: nat := Bottom(t) + 1;
    ghost var all := Visible(t, folded, left);
    while left > 0 && |picked| < t.rows
      invariant |picked| <= t.rows && 0 <= left <= Bottom(t) + 1
      invariant Visible(t, folded, left) + Reversed(picked) == all
      decreases left
    {
      var idx := left - 1;
      if idx < |t.lines| {
        RangesHideAll(t, folded, t.lines[idx]);
        if !Within(ranges, t.lines[idx]) {
          ReversedMore(picked, idx);
          picked := picked + [idx];
        }
      }
      left := left - 1;
    }
    LastIs(Visible(t, folded, left), Reversed(picked), t.rows);
    r := Some(Rows(Reversed(picked), t.rows));
  }

  // ---- what the view shows ----

  /** A fold view, told by what it shows: some rows drawn in storage order, none of them hidden
      and none below the viewport's bottom, then filler; and nothing visible is left out below
      the first of them, nor at all while there is filler. */
  ghost predicate Shows(t: Term, folded: set<nat>, v: seq<Row>, k: nat) {
    && k <= |v| == t.rows
    && (forall i :: 0 <= i < |v| ==> (v[i].Draw? <==> i < k))
    && (forall i, j :: 0 <= i < j < k ==> v[i].index < v[j].index)
    && (forall i :: 0 <= i < k ==> Drawable(t, folded, v[i].index))
    && (forall idx :: Drawable(t, folded, idx) && (k < t.rows || (k > 0 && v[0].index <= idx)) ==> Drawn(v, idx))
  }

  predicate Drawn(v: seq<Row>, idx: nat) {
    exists i :: 0 <= i < |v| && v[i] == Draw(idx)
  }

  predicate Drawable(t: Term, folded: set<nat>, idx: nat) {
    idx <= Bottom(t) && idx < |t.lines| && !Hidden(t, folded, t.lines[idx])
  }

  /** The view has exactly one row for each row of the screen, and is the fold view so told:
      the last of the visible rows, as many as fit. */
  lemma ViewShows(t: Term, folded: set<nat>)
    ensures var all := Visible(t, folded, Bottom(t) + 1);
      Shows(t, folded, View(t, folded), if |all| < t.rows then |all| else t.rows)
  {
    hide Visible, Drawable, Drawn, Rows, Last;
    var all := Visible(t, folded, Bottom(t) + 1);
    var v, k, skip := View(t, folded), if |all| < t.rows then |all| else t.rows, if |all| < t.rows then 0 else |all| - t.rows;
    RowsAre(all, t.rows);
    VisibleAreDrawable(t, folded);
    assert forall i :: 0 <= i < k ==> v[i] == Draw(all[skip + i]);
    forall idx | Drawable(t, folded, idx) && (k < t.rows || (k > 0 && v[0].index <= idx))
      ensures Drawn(v, idx)
    {
      var j := Position(t, folded, idx);
      assert j >= skip && v[j - skip] == Draw(idx);
      DrawnAt(v, j - skip, idx);
    }
  }

  lemma DrawnAt(v: seq<Row>, i: nat, idx: nat)
    requires i < |v| && v[i] == Draw(idx)
    ensures Drawn(v, idx)
  {}

  lemma VisibleAreDrawable(t: Term, folded: set<nat>)
    ensures var all := Visible(t, folded, Bottom(t) + 1);
      && (forall i, j :: 0 <= i < j < |all| ==> all[i] < all[j])
      && forall i :: 0 <= i < |all| ==> Drawable(t, folded, all[i])
  {
    var all := Visible(t, folded, Bottom(t) + 1);
    VisibleIs(t, folded, Bottom(t) + 1);
    assert forall i :: 0 <= i < |all| ==> all[i] in all;
  }

  lemma Position(t: Term, folded: set<nat>, idx: nat) returns (j: nat)
    requires Drawable(t, folded, idx)
    ensures j < |Visible(t, folded, Bottom(t) + 1)| && Visible(t, folded, Bottom(t) + 1)[j] == idx
  {
    var all := Visible(t, folded, Bottom(t) + 1);
    VisibleIs(t, folded, Bottom(t) + 1);
    assert idx in all;
    j :| 0 <= j < |all| && all[j] == idx;
  }

  lemma RowsAre(all: seq<nat>, rows: nat)
    ensures var v := Rows(Last(all, rows), rows);
      var k := if |all| < rows then |all| else rows;
      && |v| == rows && (forall i :: k <= i < rows ==> v[i] == Filler)
      && forall i :: 0 <= i < k ==> v[i] == Draw(all[(|all| - k) + i])
  {}

  /** There is only one such view. */
  lemma ViewIsTheOnlyOne(t: Term, folded: set<nat>, v: seq<Row>, k: nat)
    requires Shows(t, folded, v, k)
    ensures v == View(t, folded)
  {
    var all := Visible(t, folded, Bottom(t) + 1);
    var w, n := View(t, folded), if |all| < t.rows then |all| else t.rows;
    ViewShows(t, folded);
    VisibleIs(t, folded, Bottom(t) + 1);
    SameCount(t, folded, v, k, w, n);
    DrawnFromTheEnd(t, folded, v, w, k, k);
    forall i | 0 <= i < t.rows
      ensures v[i] == w[i]
    {
      if i >= k {
        assert v[i] == Filler && w[i] == Filler;
      }
    }
  }

  function Indices(v: seq<Row>, k: nat): (s: set<nat>)
    requires k <= |v| && forall i :: 0 <= i < k ==> v[i].Draw?
  {
    set i | 0 <= i < k :: v[i].index
  }

  lemma {:induction false} IndicesCount(v: seq<Row>, k: nat)
    requires k <= |v| && (forall i :: 0 <= i < k ==> v[i].Draw?) && forall i, j :: 0 <= i < j < k ==> v[i].index < v[j].index
    ensures |Indices(v, k)| == k
  {
    if k > 0 {
      IndicesCount(v, k - 1);
      assert v[k - 1].index !in Indices(v, k - 1);
      assert Indices(v, k) == Indices(v, k - 1) + {v[k - 1].index};
    } else {
      assert Indices(v, k) == {};
    }
  }

  lemma SameCount(t: Term, folded: set<nat>, v: seq<Row>, k: nat, w: seq<Row>, n: nat)
    requires Shows(t, folded, v, k) && Shows(t, folded, w, n)
    ensures k == n
  {
    IndicesCount(v, k);
    IndicesCount(w, n);
    if k < n {
      AllIncluded(t, folded, v, k, w, n);
    } else if n < k {
      AllIncluded(t, folded, w, n, v, k);
    }
  }

  lemma AllIncluded(t: Term, folded: set<nat>, v: seq<Row>, k: nat, w: seq<Row>, n: nat)
    requires Shows(t, folded, v, k) && Shows(t, folded, w, n) && k < t.rows
    ensures |Indices(w, n)| <= |Indices(v, k)|
  {
    forall x | x in Indices(w, n)
      ensures x in Indices(v, k)
    {
      var i :| 0 <= i < n && w[i].index == x;
      assert Drawable(t, folded, x);
      var j :| 0 <= j < |v| && v[j] == Draw(x);
    }
    SubsetCount(Indices(w, n), Indices(v, k));
  }

  lemma {:induction false} SubsetCount(a: set<nat>, b: set<nat>)
    requires a <= b
    ensures |a| <= |b|
    decreases |a|
  {
    if a != {} {
      var x :| x in a;
      SubsetCount(a - {x}, b - {x});
    }
  }

  /** From the last row drawn back, two such views agree. */
  lemma {:induction false} DrawnFromTheEnd(t: Term, folded: set<nat>, v: seq<Row>, w: seq<Row>, k: nat, m: nat)
    requires Shows(t, folded, v, k) && Shows(t, folded, w, k) && m <= k
    ensures forall i :: k - m <= i < k ==> v[i] == w[i]
    decreases m
  {
    if m > 0 {
      DrawnFromTheEnd(t, folded, v, w, k, m - 1);
      NotBelow(t, folded, v, w, k, k - m);
      NotBelow(t, folded, w, v, k, k - m);
    }
  }

  lemma NotBelow(t: Term, folded: set<nat>, v: seq<Row>, w: seq<Row>, k: nat, i: nat)
    requires Shows(t, folded, v, k) && Shows(t, folded, w, k) && i < k
    requires forall j :: i < j < k ==> v[j] == w[j]
    ensures w[i].index <= v[i].index
  {
    var x := w[i].index;
    if v[0].index <= x {
      assert Drawable(t, folded, x) && Drawn(v, x);
      var j :| 0 <= j < |v| && v[j] == Draw(x);
      assert j > i ==> v[j] == w[j];
    }
  }
}
