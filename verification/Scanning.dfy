/** A scan that jumps: from each place it lands, it goes on to a later one, so that some
    places are passed over. Which places it lands on, told without the scan. */
module Scanning {

  /** Nothing the scan lands on before `n` jumps past `n`. */
  predicate Lands(next: nat -> nat, n: nat)
  {
    forall t: nat | t < n && Lands(next, t) :: next(t) <= n
  }

  ghost predicate Forward(next: nat -> nat) {
    forall n: nat :: n < next(n)
  }

  /** The scan starts by landing on the first place, and from wherever it lands it passes over
      everything up to where it jumps to, and lands there. */
  lemma Jumps(next: nat -> nat, n: nat)
    requires Forward(next) && Lands(next, n)
    ensures Lands(next, next(n))
    ensures forall i: nat :: n < i < next(n) ==> !Lands(next, i)
  {
    forall i: nat | n < i < next(n)
      ensures !Lands(next, i)
    {
      assert n < i && Lands(next, n) && !(next(n) <= i);
    }
    forall t: nat | t < next(n) && Lands(next, t)
      ensures next(t) <= next(n)
    {
      assert t <= n;
    }
  }

  lemma Starts(next: nat -> nat)
    ensures Lands(next, 0)
  {}

  /** What is passed over is passed over by a jump from the last place landed on. */
  lemma {:induction false} PassedOver(next: nat -> nat, i: nat) returns (t: nat)
    requires Forward(next)
    ensures t <= i < next(t) && Lands(next, t)
    decreases i
  {
    if i == 0 {
      t := 0;
    } else {
      t := PassedOver(next, i - 1);
      if next(t) <= i {
        Jumps(next, t);
        assert next(t) == i;
        t := i;
      }
    }
  }
}
