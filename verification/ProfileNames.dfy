/** Names for new profiles and copies: the smallest free number. */
module ProfileNames {

  function Digit(d: nat): (c: char)
    requires d < 10
  {
    "0123456789"[d]
  }

  function Decimal(n: nat): (s: string)
    ensures s != [] && (|s| == 1 <==> n < 10)
  {
    if n < 10 then [Digit(n)] else Decimal(n / 10) + [Digit(n % 10)]
  }

  lemma {:induction false} DecimalInjective(m: nat, n: nat)
    requires Decimal(m) == Decimal(n)
    ensures m == n
    decreases m
  {
    var a, b := Decimal(m), Decimal(n);
    if m >= 10 && n >= 10 {
      assert a[..|a| - 1] == Decimal(m / 10) && b[..|b| - 1] == Decimal(n / 10);
      assert a[|a| - 1] == Digit(m % 10) && b[|b| - 1] == Digit(n % 10);
      DecimalInjective(m / 10, n / 10);
      DigitInjective(m % 10, n % 10);
    } else if m < 10 && n < 10 {
      DigitInjective(m, n);
    }
  }

  lemma DigitInjective(a: nat, b: nat)
    requires a < 10 && b < 10 && Digit(a) == Digit(b)
    ensures a == b
  {}

  function Candidate(prefix: string, n: nat): (name: string) {
    prefix + Decimal(n)
  }

  lemma CandidatesDiffer(prefix: string, m: nat, n: nat)
    requires Candidate(prefix, m) == Candidate(prefix, n)
    ensures m == n
  {
    assert Candidate(prefix, m)[|prefix|..] == Decimal(m) && Candidate(prefix, n)[|prefix|..] == Decimal(n);
    DecimalInjective(m, n);
  }

  function Candidates(prefix: string, from: nat, n: nat): (names: set<string>)
  {
    set i | from <= i < n :: Candidate(prefix, i)
  }

  lemma {:induction false} CandidatesCount(prefix: string, from: nat, n: nat)
    requires from <= n
    ensures |Candidates(prefix, from, n)| == n - from
    decreases n
  {
    hide Candidate;
    if from < n {
      CandidatesCount(prefix, from, n - 1);
      if Candidate(prefix, n - 1) in Candidates(prefix, from, n - 1) {
        var i :| from <= i < n - 1 && Candidate(prefix, i) == Candidate(prefix, n - 1);
        CandidatesDiffer(prefix, i, n - 1);
      }
      assert Candidates(prefix, from, n) == Candidates(prefix, from, n - 1) + {Candidate(prefix, n - 1)};
    } else {
      assert Candidates(prefix, from, n) == {};
    }
  }

  function Elements(s: seq<string>): (e: set<string>) {
    set i | 0 <= i < |s| :: s[i]
  }

  lemma {:induction false} FewElements(s: seq<string>)
    ensures |Elements(s)| <= |s|
  {
    if s == [] {
      assert Elements(s) == {};
    } else {
      var init := s[..|s| - 1];
      FewElements(init);
      assert Elements(s) == Elements(init) + {s[|s| - 1]};
    }
  }

  lemma {:induction false} SmallerSet(a: set<string>, b: set<string>)
    requires a <= b
    ensures |a| <= |b|
    decreases |a|
  {
    if a != {} {
      var x :| x in a;
      SmallerSet(a - {x}, b - {x});
    }
  }

  /** No more candidates can be taken than there are names. */
  lemma TakenAreFew(existing: seq<string>, prefix: string, from: nat, n: nat)
    requires from <= n && forall i :: from <= i < n ==> Candidate(prefix, i) in existing
    ensures n - from <= |existing|
  {
    CandidatesCount(prefix, from, n);
    FewElements(existing);
    forall name | name in Candidates(prefix, from, n)
      ensures name in Elements(existing)
    {
      assert name in existing;
    }
    SmallerSet(Candidates(prefix, from, n), Elements(existing));
  }

  /** The name is the candidate with the smallest free number from `from` on, and that number is
      at most so far along. */
  predicate SmallestFree(existing: seq<string>, prefix: string, from: nat, name: string, n: nat) {
    && from <= n <= from + |existing| && name == Candidate(prefix, n) && name !in existing
    && forall i :: from <= i < n ==> Candidate(prefix, i) in existing
  }

  /** The first free candidate from `from` on: found after at most one more try than there are
      names, whatever they are. */
  method FirstFree(existing: seq<string>, prefix: string, from: nat) returns (name: string, n: nat)
    ensures SmallestFree(existing, prefix, from, name, n)
  {
    n := from;
    while Candidate(prefix, n) in existing
      invariant from <= n && forall i :: from <= i < n ==> Candidate(prefix, i) in existing
      decreases from + |existing| + 1 - n
    {
      TakenAreFew(existing, prefix, from, n + 1);
      n := n + 1;
    }
    TakenAreFew(existing, prefix, from, n);
    name := Candidate(prefix, n);
  }

  /** `new-profile-N`, smallest free N. */
  method NewProfileName(existing: seq<string>) returns (name: string)
    ensures exists n :: SmallestFree(existing, "new-profile-", 1, name, n)
  {
    var n: nat;
    name, n := FirstFree(existing, "new-profile-", 1);
  }

  /** `<from>-2`, `<from>-3`, and so on: first free suffix. */
  method CopyName(existing: seq<string>, from: string) returns (name: string)
    ensures exists n :: SmallestFree(existing, from + "-", 2, name, n)
  {
    var n: nat;
    name, n := FirstFree(existing, from + "-", 2);
  }
}
