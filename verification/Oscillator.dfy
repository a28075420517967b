/** The linear recurrence one substep of the spring performs, and when it dies out.

    With s the displacement now and r the displacement one substep ago, a substep is
    `s, r := T*s - D*r, s`. The settling argument rests on the quadratic forms below. */
module Oscillator {

  datatype Phase = Phase(s: real, r: real)

  function Advance(T: real, D: real, p: Phase): Phase {
    Phase(T * p.s - D * p.r, p.s)
  }

  function AdvanceBy(T: real, D: real, p: Phase, n: nat): Phase {
    if n == 0 then p else Advance(T, D, AdvanceBy(T, D, p, n - 1))
  }

  function Norm(p: Phase): real {
    p.s * p.s + p.r * p.r
  }

  /** The Schur-Cohn form of z*z - T*z + D. */
  function Form(T: real, D: real, p: Phase): real {
    (1.0 + D) * (p.s * p.s + p.r * p.r) - 2.0 * T * (p.s * p.r)
  }

  /** What `Form` gives up in one substep, up to the factor 1 - D. */
  function Loss(T: real, D: real, p: Phase): real {
    T * p.s - (1.0 + D) * p.r
  }

  function Energy(T: real, D: real, p: Phase): real {
    Form(T, D, p) + Form(T, D, Advance(T, D, p))
  }

  /** Both roots of z*z - T*z + D inside the unit circle, friction present (D < 1). */
  predicate Stable(T: real, D: real) {
    D < 1.0 && T < 1.0 + D && -T < 1.0 + D
  }

  /** How positive `Form` is. */
  function Gap(T: real, D: real): (g: real)
    ensures Stable(T, D) ==> g > 0.0
  {
    if T >= 0.0 then 1.0 + D - T else 1.0 + D + T
  }

  lemma SpreadPositive(T: real, e: real, x: real, y: real) returns (sp: real)
    requires e > 0.0
    ensures sp > 0.0 && sp == T * T + e * e + x * x + y * y
  {
    var ee := PositiveSquare(e);
    Squares(T, x, y);
    sp := T * T + ee + x * x + y * y;
  }

  lemma FactorGap(T: real, e: real)
    requires -e < T < e
    ensures T * T - e * e < 0.0 && e * e > 0.0
  {
    Product(e - T, e + T);
    Product(e, e);
    assert T * T - e * e == -((e - T) * (e + T));
  }

  lemma Squares(x: real, y: real, z: real)
    ensures x * x >= 0.0 && y * y >= 0.0 && z * z >= 0.0
  {}

  lemma Product(x: real, y: real)
    requires x > 0.0 && y > 0.0
    ensures x * y > 0.0
  {}

  lemma NonNegative(x: real, y: real)
    requires x >= 0.0 && y >= 0.0
    ensures x * y >= 0.0
  {}

  lemma Quotient(x: real, y: real)
    requires x > 0.0 && y > 0.0
    ensures x / y > 0.0 && (x / y) * y == x
  {}

  lemma StepIdentity(T: real, D: real, s: real, r: real)
    ensures (1.0 + D) * (s * s + r * r) - 2.0 * T * (s * r)
         - ((1.0 + D) * ((T * s - D * r) * (T * s - D * r) + s * s) - 2.0 * T * ((T * s - D * r) * s))
         == (1.0 - D) * ((T * s - (1.0 + D) * r) * (T * s - (1.0 + D) * r))
  {}

  /** One substep takes from `Form` exactly a square: it never grows. */
  lemma FormStep(T: real, D: real, p: Phase)
    ensures Form(T, D, p) - Form(T, D, Advance(T, D, p)) == (1.0 - D) * (Loss(T, D, p) * Loss(T, D, p))
    ensures D < 1.0 ==> Form(T, D, Advance(T, D, p)) <= Form(T, D, p)
  {
    StepIdentity(T, D, p.s, p.r);
    Squares(Loss(T, D, p), 0.0, 0.0);
    if D < 1.0 {
      NonNegative(1.0 - D, Loss(T, D, p) * Loss(T, D, p));
    }
  }

  lemma BelowIdentity(T: real, e: real, s: real, r: real)
    ensures e * (s * s + r * r) - 2.0 * T * (s * r) - (e - T) * (s * s + r * r) == T * ((s - r) * (s - r))
    ensures e * (s * s + r * r) - 2.0 * T * (s * r) - (e + T) * (s * s + r * r) == -T * ((s + r) * (s + r))
  {}

  /** `Form` is positive definite in the stable region. */
  lemma FormBelow(T: real, D: real, p: Phase)
    ensures Form(T, D, p) >= Gap(T, D) * Norm(p)
  {
    BelowIdentity(T, 1.0 + D, p.s, p.r);
    Squares(p.s - p.r, p.s + p.r, 0.0);
  }

  lemma FormNonNegative(T: real, D: real, p: Phase)
    requires Stable(T, D)
    ensures Form(T, D, p) >= 0.0
  {
    FormBelow(T, D, p);
    NormNonNegative(p);
    NonNegative(Gap(T, D), Norm(p));
  }

  lemma CrossTerm(T: real, m: real, s: real, r: real)
    requires -m <= T <= m
    ensures 2.0 * T * (s * r) <= m * (s * s + r * r)
    ensures -2.0 * T * (s * r) <= m * (s * s + r * r)
  {
    var x, y := (s - r) * (s - r), (s + r) * (s + r);
    assert x == s * s + r * r - 2.0 * (s * r);
    assert y == s * s + r * r + 2.0 * (s * r);
    assert m * (s * s + r * r) - 2.0 * T * (s * r) == ((m + T) * x + (m - T) * y) / 2.0;
    assert m * (s * s + r * r) + 2.0 * T * (s * r) == ((m - T) * x + (m + T) * y) / 2.0;
    Squares(s - r, s + r, 0.0);
  }

  lemma FormAbove(T: real, D: real, p: Phase)
    requires Stable(T, D)
    ensures Form(T, D, p) <= 2.0 * (1.0 + D) * Norm(p)
  {
    CrossTerm(T, 1.0 + D, p.s, p.r);
  }

  lemma NormNonNegative(p: Phase)
    ensures Norm(p) >= 0.0
  {
    Squares(p.s, p.r, 0.0);
  }

  lemma CauchySchwarz(p1: real, p2: real, x: real, y: real)
    ensures (p1 * x + p2 * y) * (p1 * x + p2 * y) <= (p1 * p1 + p2 * p2) * (x * x + y * y)
  {
    assert (p1 * p1 + p2 * p2) * (x * x + y * y) - (p1 * x + p2 * y) * (p1 * x + p2 * y)
        == (p1 * y - p2 * x) * (p1 * y - p2 * x);
  }

  /** Two independent linear forms cannot both be small. */
  lemma TwoForms(p1: real, p2: real, q1: real, q2: real, s: real, r: real, l: real, m: real, d: real, sp: real)
    requires l == p1 * s + p2 * r && m == q1 * s + q2 * r
    requires d == p1 * q2 - p2 * q1
    requires sp == p1 * p1 + p2 * p2 + q1 * q1 + q2 * q2
    ensures d * d * (s * s + r * r) <= sp * (l * l + m * m)
  {
    assert d * s == q2 * l + (-p2) * m;
    assert d * r == (-q1) * l + p1 * m;
    CauchySchwarz(q2, -p2, l, m);
    CauchySchwarz(-q1, p1, l, m);
    SquareOf(d, s);
    SquareOf(d, r);
    var n := l * l + m * m;
    assert (d * s) * (d * s) <= (q2 * q2 + p2 * p2) * n;
    assert (d * r) * (d * r) <= (q1 * q1 + p1 * p1) * n;
    assert (q2 * q2 + p2 * p2) * n + (q1 * q1 + p1 * p1) * n == sp * n;
  }

  lemma SquareOf(d: real, s: real)
    ensures (d * s) * (d * s) == d * d * (s * s)
  {}

  function LossSum(T: real, D: real, p: Phase): real {
    var l, m := Loss(T, D, p), Loss(T, D, Advance(T, D, p));
    l * l + m * m
  }

  /** What two substeps take is bounded below by a multiple of the norm. */
  lemma LossRate(T: real, D: real) returns (k: real)
    requires Stable(T, D)
    ensures k > 0.0 && forall p: Phase :: k * Norm(p) <= LossSum(T, D, p)
  {
    hide Loss, Advance;
    var d, sp := Constants(T, D);
    k := RatePositive(d, sp);
    forall p: Phase
      ensures k * Norm(p) <= LossSum(T, D, p)
    {
      LossBelow(T, D, p, d, sp);
      Divide(k, d * d, sp, Norm(p), LossSum(T, D, p));
    }
  }

  lemma RatePositive(d: real, sp: real) returns (k: real)
    requires d < 0.0 && sp > 0.0
    ensures k > 0.0 && k * sp == d * d
  {
    var dd := PositiveSquare(d);
    k := PositiveRatio(dd, sp);
  }

  lemma PositiveSquare(d: real) returns (dd: real)
    requires d != 0.0
    ensures dd > 0.0 && dd == d * d
  {
    dd := d * d;
    if d > 0.0 {
      ProductIs(d, d, dd);
    } else {
      ProductIs(-d, -d, dd);
    }
  }

  lemma ProductIs(x: real, y: real, z: real)
    requires x > 0.0 && y > 0.0 && z == x * y
    ensures z > 0.0
  {}

  lemma PositiveRatio(x: real, y: real) returns (k: real)
    requires x > 0.0 && y > 0.0
    ensures k > 0.0 && k * y == x
  {
    Quotient(x, y);
    k := x / y;
  }

  lemma Divide(k: real, dd: real, sp: real, n: real, lost: real)
    requires sp > 0.0 && k * sp == dd && dd * n <= sp * lost
    ensures k * n <= lost
  {
    assert (k * n - lost) * sp == dd * n - sp * lost;
  }

  lemma Constants(T: real, D: real) returns (d: real, sp: real)
    requires Stable(T, D)
    ensures d < 0.0 && sp > 0.0
    ensures d == T * T - (1.0 + D) * (1.0 + D)
    ensures sp == T * T + (1.0 + D) * (1.0 + D) + (T * T - 1.0 - D) * (T * T - 1.0 - D) + (T * D) * (T * D)
  {
    FactorGap(T, 1.0 + D);
    sp := SpreadPositive(T, 1.0 + D, T * T - 1.0 - D, T * D);
    d := T * T - (1.0 + D) * (1.0 + D);
  }

  lemma LossBelow(T: real, D: real, p: Phase, d: real, sp: real)
    requires d == T * T - (1.0 + D) * (1.0 + D)
    requires sp == T * T + (1.0 + D) * (1.0 + D) + (T * T - 1.0 - D) * (T * T - 1.0 - D) + (T * D) * (T * D)
    ensures d * d * Norm(p) <= sp * LossSum(T, D, p)
  {
    hide Loss, Advance;
    LossOf(T, D, p);
    LossBelowScalar(T, D, p.s, p.r, Loss(T, D, p), Loss(T, D, Advance(T, D, p)), d, sp);
  }

  lemma LossOf(T: real, D: real, p: Phase)
    ensures Loss(T, D, p) == T * p.s - (1.0 + D) * p.r
    ensures Loss(T, D, Advance(T, D, p)) == T * (T * p.s - D * p.r) - (1.0 + D) * p.s
  {}

  lemma LossBelowScalar(T: real, D: real, s: real, r: real, l: real, m: real, d: real, sp: real)
    requires l == T * s - (1.0 + D) * r && m == T * (T * s - D * r) - (1.0 + D) * s
    requires d == T * T - (1.0 + D) * (1.0 + D)
    requires sp == T * T + (1.0 + D) * (1.0 + D) + (T * T - 1.0 - D) * (T * T - 1.0 - D) + (T * D) * (T * D)
    ensures d * d * (s * s + r * r) <= sp * (l * l + m * m)
  {
    var p2, q1, q2 := -(1.0 + D), T * T - 1.0 - D, -(T * D);
    assert l == T * s + p2 * r;
    assert m == q1 * s + q2 * r by { SecondLoss(T, D, s, r); }
    assert d == T * q2 - p2 * q1 by { LossDet(T, D); }
    assert sp == T * T + p2 * p2 + q1 * q1 + q2 * q2 by { LossSpread(T, D); }
    TwoForms(T, p2, q1, q2, s, r, l, m, d, sp);
  }

  lemma SecondLoss(T: real, D: real, s: real, r: real)
    ensures T * (T * s - D * r) - (1.0 + D) * s == (T * T - 1.0 - D) * s + (-(T * D)) * r
  {}

  lemma LossDet(T: real, D: real)
    ensures T * (-(T * D)) - (-(1.0 + D)) * (T * T - 1.0 - D) == T * T - (1.0 + D) * (1.0 + D)
  {}

  lemma LossSpread(T: real, D: real)
    ensures (-(1.0 + D)) * (-(1.0 + D)) == (1.0 + D) * (1.0 + D)
    ensures (-(T * D)) * (-(T * D)) == (T * D) * (T * D)
  {}

  /** Every substep removes at least the share c of the energy, from every state. */
  ghost predicate Contracts(T: real, D: real, c: real) {
    c > 0.0 && forall p: Phase :: Energy(T, D, Advance(T, D, p)) <= (1.0 - c) * Energy(T, D, p)
  }

  /** The settling form is positive definite ... */
  lemma EnergyBelow(T: real, D: real, p: Phase)
    requires Stable(T, D)
    ensures Gap(T, D) * Norm(p) <= Energy(T, D, p)
    ensures Energy(T, D, p) >= 0.0
  {
    FormBelow(T, D, p);
    FormNonNegative(T, D, p);
    FormNonNegative(T, D, Advance(T, D, p));
  }

  /** ... and contracts by a fixed factor at every substep. */
  lemma EnergyContracts(T: real, D: real) returns (c: real)
    requires Stable(T, D)
    ensures Contracts(T, D, c)
  {
    var k := LossRate(T, D);
    var f, u := 1.0 - D, 4.0 * (1.0 + D);
    Product(f, k);
    Quotient(f * k, u);
    c := f * k / u;
    forall p: Phase
      ensures Energy(T, D, Advance(T, D, p)) <= (1.0 - c) * Energy(T, D, p)
    {
      var p1 := Advance(T, D, p);
      FormStep(T, D, p);
      FormStep(T, D, p1);
      FormAbove(T, D, p);
      EnergyLost(T, D, p);
      Charge(f, k, u, Energy(T, D, p), Norm(p), LossSum(T, D, p));
    }
  }

  lemma EnergyLost(T: real, D: real, p: Phase)
    requires Stable(T, D)
    ensures Energy(T, D, Advance(T, D, p)) == Energy(T, D, p) - (1.0 - D) * LossSum(T, D, p)
    ensures Energy(T, D, p) <= 4.0 * (1.0 + D) * Norm(p)
  {
    hide Form, Loss, Advance, Norm;
    FormStep(T, D, p);
    FormStep(T, D, Advance(T, D, p));
    FormAbove(T, D, p);
  }

  lemma Charge(f: real, k: real, u: real, e: real, n: real, lost: real)
    requires f > 0.0 && k > 0.0 && u > 0.0
    requires k * n <= lost && e <= u * n
    ensures e - f * lost <= (1.0 - f * k / u) * e
  {
    Product(f, k);
    Quotient(f * k, u);
    var c := f * k / u;
    assert c * u == f * k;
    Monotone(c, e, u * n);
    assert c * (u * n) == (c * u) * n == f * (k * n);
    Monotone(f, k * n, lost);
  }

  lemma Monotone(c: real, x: real, y: real)
    requires c >= 0.0 && x <= y
    ensures c * x <= c * y && x * c <= y * c
  {}

  /** So the energy falls below any positive bound after finitely many substeps. */
  lemma Drains(T: real, D: real, p: Phase, bound: real)
    requires Stable(T, D) && bound > 0.0
    ensures exists n: nat :: Energy(T, D, AdvanceBy(T, D, p, n)) < bound
  {
    var c := EnergyContracts(T, D);
    Product(c, bound);
    EnergyBelow(T, D, p);
    var n: nat := (Energy(T, D, p) / (c * bound)).Floor + 1;
    if forall i: nat :: i <= n ==> Energy(T, D, AdvanceBy(T, D, p, i)) >= bound {
      DrainsLinearly(T, D, c, p, bound, n);
      Exceeds(n as real, Energy(T, D, p), c * bound);
      EnergyBelow(T, D, AdvanceBy(T, D, p, n));
      assert false;
    }
  }

  lemma Exceeds(n: real, x: real, y: real)
    requires y > 0.0 && n > x / y
    ensures n * y > x
  {
    var q := x / y;
    assert q * y == x;
    Product(n - q, y);
  }

  lemma {:induction false} DrainsLinearly(T: real, D: real, c: real, p: Phase, bound: real, n: nat)
    requires Contracts(T, D, c) && bound > 0.0
    requires forall i: nat :: i <= n ==> Energy(T, D, AdvanceBy(T, D, p, i)) >= bound
    ensures Energy(T, D, AdvanceBy(T, D, p, n)) <= Energy(T, D, p) - (n as real) * (c * bound)
  {
    hide Energy, Advance;
    if n > 0 {
      DrainsLinearly(T, D, c, p, bound, n - 1);
      var q := AdvanceBy(T, D, p, n - 1);
      OneDrain(c, bound, Energy(T, D, q), Energy(T, D, Advance(T, D, q)), Energy(T, D, p), n as real);
      assert (n - 1) as real == (n as real) - 1.0;
    }
  }

  lemma OneDrain(c: real, bound: real, e: real, e1: real, e0: real, n: real)
    requires c > 0.0 && e >= bound && e1 <= (1.0 - c) * e
    requires e <= e0 - (n - 1.0) * (c * bound)
    ensures e1 <= e0 - n * (c * bound)
  {
    Monotone(c, bound, e);
    assert (1.0 - c) * e == e - c * e;
    var b := c * bound;
    assert (n - 1.0) * b == n * b - b;
  }

  /** And never climbs back. */
  lemma {:induction false} EnergyNeverGrows(T: real, D: real, p: Phase, m: nat, n: nat)
    requires Stable(T, D) && m <= n
    ensures Energy(T, D, AdvanceBy(T, D, p, n)) <= Energy(T, D, AdvanceBy(T, D, p, m))
    decreases n
  {
    if m < n {
      EnergyNeverGrows(T, D, p, m, n - 1);
      var q := AdvanceBy(T, D, p, n - 1);
      FormStep(T, D, q);
      FormStep(T, D, Advance(T, D, q));
    }
  }

  // ---- outside the stable region ----

  /** The parameters are outside the stable region, on the side where the code can be. */
  predicate Unstable(T: real, D: real) {
    D < 1.0 && T <= -(1.0 + D) && T < 1.0 + D
  }

  function Sign(n: nat): real {
    if n % 2 == 0 then 1.0 else -1.0
  }

  /** How far the n-th substep from displacement one, at rest, moves: to the other side of where
      the one before it moved. */
  function Swing(T: real, D: real, n: nat): real {
    var p := AdvanceBy(T, D, Phase(1.0, 1.0), n);
    Sign(n) * (p.s - p.r)
  }

  /** What no swing falls below. */
  function Least(T: real, D: real): (c: real)
    requires Unstable(T, D)
    ensures c > 0.0
  {
    var first := 1.0 + D - T;
    ProductIs(-T, first, -T * first);
    if -T < 1.0 then -T * first else first
  }

  lemma SwingsFirst(T: real, D: real)
    ensures Swing(T, D, 0) == 0.0 && Swing(T, D, 1) == 1.0 + D - T
  {
    assert AdvanceBy(T, D, Phase(1.0, 1.0), 1) == Advance(T, D, AdvanceBy(T, D, Phase(1.0, 1.0), 0));
  }

  lemma SwingsAgain(T: real, D: real, n: nat)
    ensures Swing(T, D, n + 2) == -T * Swing(T, D, n + 1) - D * Swing(T, D, n)
  {
    var p := AdvanceBy(T, D, Phase(1.0, 1.0), n);
    var q := Advance(T, D, p);
    assert AdvanceBy(T, D, Phase(1.0, 1.0), n + 1) == q;
    assert AdvanceBy(T, D, Phase(1.0, 1.0), n + 2) == Advance(T, D, q);
    assert Sign(n + 1) == -Sign(n) && Sign(n + 2) == Sign(n);
    hide AdvanceBy, Sign;
    SwingScalar(T, D, Sign(n), p.s, p.r, q.s, Advance(T, D, q).s);
  }

  lemma SwingScalar(T: real, D: real, sign: real, s: real, r: real, next: real, after: real)
    requires next == T * s - D * r && after == T * next - D * s
    ensures sign * (after - next) == -T * (-sign * (next - s)) - D * (sign * (s - r))
  {}

  lemma Carried(T: real, D: real, x: real, y: real, m: real, z: real)
    requires Unstable(T, D) && 0.0 < m <= x && m <= y && z == -T * y - D * x
    requires D > 0.0 ==> x <= y
    ensures m <= z && (D > 0.0 ==> y <= z)
  {
    if D > 0.0 {
      Rises(-T, D, x, y);
    } else {
      Mixed(-T, -D, y, x, m);
    }
  }

  lemma Rises(t: real, d: real, x: real, y: real)
    requires d > 0.0 && t >= 1.0 + d && 0.0 < x <= y
    ensures t * y - d * x >= y
  {
    Monotone(d, x, y);
    Monotone(y, 1.0 + d, t);
    assert (1.0 + d) * y == y + d * y;
  }

  lemma Mixed(a: real, b: real, x: real, y: real, m: real)
    requires a >= 0.0 && b >= 0.0 && a + b >= 1.0 && 0.0 < m <= x && m <= y
    ensures a * x + b * y >= m
  {
    var ax, bx, am, bm := a * x, b * y, a * m, b * m;
    Monotone(a, m, x);
    Monotone(b, m, y);
    assert ax >= am;
    assert bx >= bm;
    Monotone(m, 1.0, a + b);
    assert (a + b) * m == am + bm;
    assert 1.0 * m == m;
  }

  /** Displaced and let go outside the stable region, it swings from side to side for ever, and
      never by less than a fixed amount. */
  lemma {:induction false} KeepsSwinging(T: real, D: real, n: nat)
    requires Unstable(T, D) && n >= 1
    ensures Swing(T, D, n) >= Least(T, D) && Swing(T, D, n + 1) >= Least(T, D)
    ensures D > 0.0 ==> Swing(T, D, n) <= Swing(T, D, n + 1)
  {
    hide Swing;
    var m := Least(T, D);
    if n == 1 {
      SwingsFirst(T, D);
      SwingsAgain(T, D, 0);
      FirstSwings(T, D, Swing(T, D, 1), Swing(T, D, 2));
    } else {
      KeepsSwinging(T, D, n - 1);
      SwingsAgain(T, D, n - 1);
      Carried(T, D, Swing(T, D, n - 1), Swing(T, D, n), m, Swing(T, D, n + 1));
    }
  }

  lemma FirstSwings(T: real, D: real, x: real, y: real)
    requires Unstable(T, D) && x == 1.0 + D - T && y == -T * x
    ensures x >= Least(T, D) && y >= Least(T, D) && (D > 0.0 ==> x <= y)
  {
    if -T < 1.0 {
      Monotone(x, -T, 1.0);
    } else {
      Monotone(x, 1.0, -T);
    }
  }

  /** The recurrence scales with its start. */
  lemma {:induction false} Scales(T: real, D: real, k: real, n: nat)
    ensures var p, one := AdvanceBy(T, D, Phase(k, k), n), AdvanceBy(T, D, Phase(1.0, 1.0), n);
      p.s == k * one.s && p.r == k * one.r
  {
    if n > 0 {
      Scales(T, D, k, n - 1);
      var one := AdvanceBy(T, D, Phase(1.0, 1.0), n - 1);
      assert T * (k * one.s) - D * (k * one.r) == k * (T * one.s - D * one.r);
    }
  }
}
