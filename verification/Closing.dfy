/** Removing several positions from a list one at a time, each by the index it had at first:
    when that removes what was meant, exactly. */
module Closing {

  function Remove<T>(s: seq<T>, i: nat): (r: seq<T>)
    requires i < |s|
    ensures |r| == |s| - 1
  {
    s[..i] + s[i + 1..]
  }

  /** No removal, made from the last of `c` to the first, ever falls off the end. */
  predicate Fits(c: seq<nat>, n: nat) {
    forall k :: 0 <= k < |c| ==> c[k] + (|c| - 1 - k) < n
  }

  /** Remove at the last of the indices, then at the one before it, and so on. */
  function RemoveAll<T>(s: seq<T>, c: seq<nat>): (r: seq<T>)
    requires Fits(c, |s|)
    ensures |r| == |s| - |c|
    decreases |c|
  {
    if c == [] then s
    else
      var last := |c| - 1;
      assert c[last] < |s|;
      assert forall k :: 0 <= k < last ==> c[..last][k] == c[k];
      RemoveAll(Remove(s, c[last]), c[..last])
  }

  /** What is meant: the elements of the first `n` whose index is not listed, in order. */
  function KeepUpTo<T>(s: seq<T>, c: seq<nat>, n: nat): (r: seq<T>)
    requires n <= |s|
  {
    if n == 0 then [] else KeepUpTo(s, c, n - 1) + (if n - 1 in c then [] else [s[n - 1]])
  }

  function Keep<T>(s: seq<T>, c: seq<nat>): (r: seq<T>) {
    KeepUpTo(s, c, |s|)
  }

  predicate Ascending(c: seq<nat>) {
    forall i, j :: 0 <= i < j < |c| ==> c[i] < c[j]
  }

  predicate Distinct<T(==)>(s: seq<T>) {
    forall i, j :: 0 <= i < j < |s| ==> s[i] != s[j]
  }

  // ---- ascending lists remove what is meant ----

  lemma {:induction false} KeepPastRemoved<T>(s: seq<T>, c: seq<nat>, n: nat)
    requires c != [] && Ascending(c) && c[|c| - 1] < |s| && n <= |s|
    ensures var last := c[|c| - 1]; var init := c[..|c| - 1];
      KeepUpTo(s, c, n) == if n <= last then KeepUpTo(Remove(s, last), init, n) else KeepUpTo(Remove(s, last), init, n - 1)
  {
    var last, init := c[|c| - 1], c[..|c| - 1];
    if n > 0 {
      KeepPastRemoved(s, c, n - 1);
      assert n - 1 in c <==> n - 1 in init || n - 1 == last;
      if n - 1 > last {
        assert n - 1 !in c && n - 2 !in init;
        assert Remove(s, last)[n - 2] == s[n - 1];
      } else if n - 1 == last {
        assert n - 1 !in init;
      }
    }
  }

  lemma {:induction false} AscendingRemoves<T>(s: seq<T>, c: seq<nat>)
    requires Ascending(c) && (c != [] ==> c[|c| - 1] < |s|) && Fits(c, |s|)
    ensures RemoveAll(s, c) == Keep(s, c)
    decreases |c|
  {
    if c == [] {
      KeepsAll(s, |s|);
    } else {
      var last, init := c[|c| - 1], c[..|c| - 1];
      KeepPastRemoved(s, c, |s|);
      assert forall k :: 0 <= k < |init| ==> init[k] == c[k] < last;
      AscendingRemoves(Remove(s, last), init);
    }
  }

  lemma {:induction false} KeepsAll<T>(s: seq<T>, n: nat)
    requires n <= |s|
    ensures KeepUpTo(s, [], n) == s[..n]
  {
    if n > 0 {
      KeepsAll(s, n - 1);
      assert s[..n] == s[..n - 1] + [s[n - 1]];
    }
  }

  // ---- and no others do ----

  function Sum(s: seq<nat>): (n: nat) {
    if s == [] then 0 else Sum(s[..|s| - 1]) + s[|s| - 1]
  }

  lemma {:induction false} SumConcat(a: seq<nat>, b: seq<nat>)
    ensures Sum(a + b) == Sum(a) + Sum(b)
    decreases |b|
  {
    if b == [] {
      assert a + b == a;
    } else {
      SumConcat(a, b[..|b| - 1]);
      assert (a + b)[..|a + b| - 1] == a + b[..|b| - 1];
    }
  }

  lemma {:induction false} SumRemove(s: seq<nat>, i: nat)
    requires i < |s|
    ensures Sum(Remove(s, i)) == Sum(s) - s[i]
    decreases |s|
  {
    var last := |s| - 1;
    if i == last {
      assert Remove(s, i) == s[..last];
    } else {
      SumRemove(s[..last], i);
      assert Remove(s, i)[..last - 1] == Remove(s[..last], i);
    }
  }

  lemma {:induction false} AscendingBelow(s: seq<nat>, i: nat)
    requires Ascending(s) && i < |s|
    ensures s[i] >= i
  {
    if i > 0 {
      AscendingBelow(s, i - 1);
    }
  }

  /** In an ascending list, the element at `i` is `i` only if nothing below it is missing. */
  lemma {:induction false} ExactMeansComplete(s: seq<nat>, i: nat, d: nat)
    requires Ascending(s) && i < |s| && s[i] == i && d < i
    ensures d in s
    decreases i
  {
    AscendingBelow(s, i - 1);
    assert s[i - 1] == i - 1;
    if d < i - 1 {
      ExactMeansComplete(s, i - 1, d);
    }
  }

  lemma RemoveAscending(s: seq<nat>, i: nat)
    requires Ascending(s) && i < |s|
    ensures Ascending(Remove(s, i)) && s[i] !in Remove(s, i)
    ensures forall x :: x in Remove(s, i) ==> x in s
  {
    var r := Remove(s, i);
    assert forall k :: 0 <= k < |r| ==> r[k] == if k < i then s[k] else s[k + 1];
  }

  /** Removing from an ascending list takes away at least what the indices name; and exactly
      that only if each removal finds nothing below its index missing. */
  lemma {:induction false} RemovedAtLeast(s: seq<nat>, c: seq<nat>)
    requires Ascending(s) && Fits(c, |s|)
    ensures Sum(RemoveAll(s, c)) + Sum(c) <= Sum(s)
    ensures Sum(RemoveAll(s, c)) + Sum(c) == Sum(s) && Distinct(c) ==>
      Ascending(c) && forall k, d :: 0 <= k < |c| && 0 <= d < c[k] ==> d in s
    decreases |c|
  {
    if c != [] {
      var last, init := c[|c| - 1], c[..|c| - 1];
      assert last < |s| by { assert c[|c| - 1] + 0 < |s|; }
      assert forall k :: 0 <= k < |init| ==> init[k] == c[k];
      var r := Remove(s, last);
      RemoveAscending(s, last);
      SumRemove(s, last);
      AscendingBelow(s, last);
      RemovedAtLeast(r, init);
      if Sum(RemoveAll(s, c)) + Sum(c) == Sum(s) && Distinct(c) {
        assert s[last] == last;
        forall d: nat | d < last
          ensures d in s
        {
          ExactMeansComplete(s, last, d);
        }
        forall k | 0 <= k < |init|
          ensures init[k] < last
        {
          assert last < init[k] ==> last in r;
        }
      }
    }
  }

  function Indices(n: nat): (s: seq<nat>)
    ensures |s| == n && forall i :: 0 <= i < n ==> s[i] == i
  {
    seq(n, i => i)
  }

  function SumIn(n: nat, c: seq<nat>): (t: nat) {
    if n == 0 then 0 else SumIn(n - 1, c) + (if n - 1 in c then n - 1 else 0)
  }

  lemma {:induction false} SumKept(n: nat, m: nat, c: seq<nat>)
    requires m <= n
    ensures Sum(KeepUpTo(Indices(n), c, m)) + SumIn(m, c) == Sum(Indices(n)[..m])
  {
    if m > 0 {
      SumKept(n, m - 1, c);
      assert Indices(n)[..m] == Indices(n)[..m - 1] + [m - 1];
      SumConcat(Indices(n)[..m - 1], [m - 1]);
      SumConcat(KeepUpTo(Indices(n), c, m - 1), if m - 1 in c then [] else [Indices(n)[m - 1]]);
      assert [m - 1][..0] == [];
    }
  }

  lemma {:induction false} SumInOneMore(n: nat, c: seq<nat>, x: nat)
    requires x !in c
    ensures SumIn(n, c + [x]) == SumIn(n, c) + (if x < n then x else 0)
  {
    if n > 0 {
      SumInOneMore(n - 1, c, x);
    }
  }

  lemma {:induction false} SumInIsSum(n: nat, c: seq<nat>)
    requires Distinct(c) && forall k :: 0 <= k < |c| ==> c[k] < n
    ensures SumIn(n, c) == Sum(c)
    decreases |c|
  {
    if c == [] {
      SumInNone(n);
    } else {
      var last, init := c[|c| - 1], c[..|c| - 1];
      SumInIsSum(n, init);
      assert c == init + [last];
      SumInOneMore(n, init, last);
    }
  }

  lemma {:induction false} SumInNone(n: nat)
    ensures SumIn(n, []) == 0
  {
    if n > 0 {
      SumInNone(n - 1);
    }
  }

  // ---- from indices to any list ----

  function At<T>(s: seq<T>, js: seq<nat>): (r: seq<T>)
    requires forall k :: 0 <= k < |js| ==> js[k] < |s|
    ensures |r| == |js| && forall k :: 0 <= k < |js| ==> r[k] == s[js[k]]
  {
    seq(|js|, k requires 0 <= k < |js| => s[js[k]])
  }

  lemma {:induction false} RemoveAllAt<T>(s: seq<T>, js: seq<nat>, c: seq<nat>)
    requires forall k :: 0 <= k < |js| ==> js[k] < |s|
    requires Fits(c, |js|)
    ensures var r: seq<nat> := RemoveAll<nat>(js, c);
      (forall k :: 0 <= k < |r| ==> r[k] < |s|) && RemoveAll(At(s, js), c) == At(s, r)
    decreases |c|
  {
    if c != [] {
      var last, init := c[|c| - 1], c[..|c| - 1];
      assert last < |js| by { assert c[|c| - 1] + 0 < |js|; }
      assert forall k :: 0 <= k < |init| ==> init[k] == c[k];
      assert Remove(At(s, js), last) == At(s, Remove(js, last));
      RemoveAllAt(s, Remove(js, last), init);
    }
  }

  lemma {:induction false} KeepAt<T>(s: seq<T>, c: seq<nat>, n: nat)
    requires n <= |s|
    ensures var r: seq<nat> := KeepUpTo<nat>(Indices(|s|), c, n);
      (forall k :: 0 <= k < |r| ==> r[k] < |s|) && KeepUpTo(s, c, n) == At(s, r)
  {
    if n > 0 {
      KeepAt(s, c, n - 1);
    }
  }

  /** Removing by the indices listed, last first, removes exactly the elements those indices
      named if and only if the list is ascending. */
  lemma RemovesWhatIsMeant<T>(s: seq<T>, c: seq<nat>)
    requires Distinct(s) && Distinct(c) && Fits(c, |s|) && forall k :: 0 <= k < |c| ==> c[k] < |s|
    ensures RemoveAll(s, c) == Keep(s, c) <==> Ascending(c)
  {
    if Ascending(c) {
      AscendingRemoves(s, c);
    } else if RemoveAll(s, c) == Keep(s, c) {
      SameIndices(s, c);
      SumKept(|s|, |s|, c);
      assert Indices(|s|)[..|s|] == Indices(|s|);
      SumInIsSum(|s|, c);
      RemovedAtLeast(Indices(|s|), c);
    }
  }

  lemma SameIndices<T>(s: seq<T>, c: seq<nat>)
    requires Distinct(s) && Fits(c, |s|) && RemoveAll(s, c) == Keep(s, c)
    ensures RemoveAll<nat>(Indices(|s|), c) == Keep<nat>(Indices(|s|), c)
  {
    hide RemoveAll, KeepUpTo, Fits;
    var js := Indices(|s|);
    var r: seq<nat>, kept: seq<nat> := RemoveAll<nat>(js, c), Keep<nat>(js, c);
    assert At(s, js) == s;
    RemoveAllAt(s, js, c);
    KeepAt(s, c, |s|);
    assert At(s, r) == At(s, kept);
    assert |r| == |kept|;
    forall k | 0 <= k < |r|
      ensures r[k] == kept[k]
    {
      assert s[r[k]] == At(s, r)[k] == At(s, kept)[k] == s[kept[k]];
    }
  }
}
