/** The spring of crates/zest-app/src/motion.rs, over the reals: what one frame does, and
    exactly for which parameters every animation comes to rest. */
module Motion {
  import opened Oscillator

  const REST_VALUE: real := 1.0 / 512.0
  const REST_VELOCITY: real := 1.0 / 64.0
  const SUBSTEP_HZ: real := 240.0
  const STALL: real := 0.25
  /** The single-precision number nearest to two pi. */
  const TAU: real := 13176795.0 / 2097152.0

  datatype SpringState = SpringState(value: real, velocity: real, target: real) {
    predicate Moving() {
      value != target || velocity != 0.0
    }

    function Snapped(): SpringState {
      SpringState(target, 0.0, target)
    }
  }

  function Clamp(x: real, lo: real, hi: real): (r: real)
    requires lo <= hi
    ensures lo <= r <= hi
  {
    if x < lo then lo else if x > hi then hi else x
  }

  function Abs(x: real): (r: real)
    ensures r >= 0.0 && (r == x || r == -x)
  {
    if x < 0.0 then -x else x
  }

  /** `(dt * SUBSTEP_HZ).ceil().max(1.0)`. */
  function Substeps(dt: real): (k: nat)
    requires dt > 0.0
    ensures k >= 1 && dt * SUBSTEP_HZ <= k as real
  {
    -((-(dt * SUBSTEP_HZ)).Floor)
  }

  function Inner(dt: real): (h: real)
    requires dt > 0.0
    ensures h > 0.0 && h * SUBSTEP_HZ <= 1.0
  {
    InnerBounds(dt, Substeps(dt) as real);
    dt / (Substeps(dt) as real)
  }

  lemma InnerBounds(dt: real, k: real)
    requires dt > 0.0 && k >= 1.0 && dt * SUBSTEP_HZ <= k
    ensures dt / k > 0.0 && (dt / k) * SUBSTEP_HZ <= 1.0
  {
    var h := dt / k;
    Quotient(dt, k);
    assert h * k == dt;
    assert (h * SUBSTEP_HZ - 1.0) * k <= 0.0;
  }

  function Omega(response: real): (w: real)
    ensures w > 0.0
  {
    Quotient(TAU, Clamp(response, 0.01, 2.0));
    TAU / Clamp(response, 0.01, 2.0)
  }

  function Ratio(damping: real): (z: real)
    ensures 0.1 <= z <= 2.0
  {
    Clamp(damping, 0.1, 2.0)
  }

  /** Semi-implicit Euler: velocity first, then position from the new velocity. */
  function Substep(s: SpringState, h: real, omega: real, damping: real): SpringState {
    var accel := -omega * omega * (s.value - s.target) - 2.0 * damping * omega * s.velocity;
    var velocity := s.velocity + accel * h;
    SpringState(s.value + velocity * h, velocity, s.target)
  }

  function Integrate(s: SpringState, h: real, omega: real, damping: real, n: nat): (r: SpringState)
    ensures r.target == s.target
  {
    if n == 0 then s else Substep(Integrate(s, h, omega, damping, n - 1), h, omega, damping)
  }

  predicate AtRest(s: SpringState) {
    Abs(s.value - s.target) <= REST_VALUE && Abs(s.velocity) <= REST_VELOCITY
  }

  /** One call of `step`: the state it leaves and whether it asks for another frame. */
  function Frame(s: SpringState, dt: real, response: real, damping: real): (SpringState, bool) {
    if !s.Moving() then (s, false)
    else if dt <= 0.0 || dt > STALL then (s.Snapped(), false)
    else
      var t := Integrate(s, Inner(dt), Omega(response), Ratio(damping), Substeps(dt));
      if AtRest(t) then (t.Snapped(), false) else (t, true)
  }

  /** `n` frames in a row. */
  function Frames(s: SpringState, dt: real, response: real, damping: real, n: nat): SpringState {
    if n == 0 then s else Frame(Frames(s, dt, response, damping, n - 1), dt, response, damping).0
  }

  /** The animation asked for no further frame at its n-th one, and stands exactly on target. */
  ghost predicate SettledAt(s: SpringState, dt: real, response: real, damping: real, n: nat) {
    && n >= 1
    && !Frame(Frames(s, dt, response, damping, n - 1), dt, response, damping).1
    && Frames(s, dt, response, damping, n) == s.Snapped()
  }

  ghost predicate Settles(s: SpringState, dt: real, response: real, damping: real) {
    exists n: nat :: SettledAt(s, dt, response, damping, n)
  }

  ghost predicate AlwaysSettles(dt: real, response: real, damping: real) {
    forall s: SpringState :: Settles(s, dt, response, damping)
  }

  function B(dt: real, response: real): (b: real)
    requires dt > 0.0
    ensures b > 0.0
  {
    Product(Omega(response), Inner(dt));
    Omega(response) * Inner(dt)
  }

  function A(dt: real, response: real, damping: real): (a: real)
    requires dt > 0.0
    ensures a > 0.0
  {
    Product(Ratio(damping), B(dt, response));
    Ratio(damping) * B(dt, response)
  }

  /** What the parameters must keep positive: 4 - 4*zeta*omega*h - (omega*h)^2. */
  function Margin(dt: real, response: real, damping: real): real
    requires dt > 0.0
  {
    4.0 - 4.0 * A(dt, response, damping) - B(dt, response) * B(dt, response)
  }

  class Spring {
    var value: real
    var velocity: real
    var target: real

    constructor At(value: real)
      ensures State() == SpringState(value, 0.0, value)
    {
      this.value, velocity, target := value, 0.0, value;
    }

    function State(): SpringState
      reads this
    {
      SpringState(value, velocity, target)
    }

    method Retarget(target: real)
      modifies this
      ensures State() == old(State()).(target := target)
    {
      this.target := target;
    }

    method Nudge(delta: real)
      modifies this
      ensures State() == old(State()).(value := old(value) + delta)
    {
      value := value + delta;
    }

    method ClampTo(max: real)
      modifies this
      ensures velocity == old(velocity) && target == old(target)
      ensures Abs(value) <= Abs(max)
      ensures Abs(old(value)) <= Abs(max) ==> value == old(value)
      ensures old(value) > Abs(max) ==> value == Abs(max)
      ensures old(value) < -Abs(max) ==> value == -Abs(max)
    {
      value := Clamp(value, -Abs(max), Abs(max));
    }

    method SnapTo(target: real)
      modifies this
      ensures State() == SpringState(target, 0.0, target)
    {
      value := target;
      this.target := target;
      velocity := 0.0;
    }

    /** The loop body of `step`. */
    method Pull(h: real, omega: real, damping: real)
      modifies this
      ensures State() == Substep(old(State()), h, omega, damping)
    {
      var accel := -omega * omega * (value - target) - 2.0 * damping * omega * velocity;
      velocity := velocity + accel * h;
      value := value + velocity * h;
    }

    method Step(dt: real, response: real, damping: real) returns (moving: bool)
      modifies this
      ensures (State(), moving) == Frame(old(State()), dt, response, damping)
    {
      if !State().Moving() {
        return false;
      }
      if dt <= 0.0 || dt > STALL {
        SnapTo(target);
        return false;
      }
      hide Inner, Omega, Ratio, Substeps, Substep;
      var omega := Omega(response);
      var z := Ratio(damping);
      var h := Inner(dt);
      ghost var start := State();
      for i := 0 to Substeps(dt)
        invariant State() == Integrate(start, h, omega, z, i)
      {
        Pull(h, omega, z);
      }
      if AtRest(State()) {
        SnapTo(target);
        return false;
      }
      return true;
    }
  }

  // ---- a substep is the recurrence of module Oscillator ----

  function PhaseOf(s: SpringState, h: real): Phase {
    Phase(s.value - s.target, s.value - s.target - s.velocity * h)
  }

  lemma SubstepScalar(x: real, v: real, h: real, w: real, z: real, a: real, b: real)
    requires b == w * h && a == z * b
    ensures x + (v + (-w * w * x - 2.0 * z * w * v) * h) * h
         == (2.0 - 2.0 * a - b * b) * x - (1.0 - 2.0 * a) * (x - v * h)
  {
    var v1 := v + (-w * w * x - 2.0 * z * w * v) * h;
    assert (-w * w * x) * h * h == -(b * b) * x;
    assert (2.0 * z * w * v) * h * h == 2.0 * a * (v * h);
    assert v1 * h == v * h - (b * b) * x - 2.0 * a * (v * h);
  }

  lemma SubstepAdvances(s: SpringState, h: real, w: real, z: real, a: real, b: real, T: real, D: real)
    requires b == w * h && a == z * b
    requires T == 2.0 - 2.0 * a - b * b && D == 1.0 - 2.0 * a
    ensures PhaseOf(Substep(s, h, w, z), h) == Advance(T, D, PhaseOf(s, h))
  {
    SubstepScalar(s.value - s.target, s.velocity, h, w, z, a, b);
  }

  // ---- the settling theorem ----

  function Trace(dt: real, response: real, damping: real): real
    requires dt > 0.0
  {
    2.0 - 2.0 * A(dt, response, damping) - B(dt, response) * B(dt, response)
  }

  function Friction(dt: real, response: real, damping: real): real
    requires dt > 0.0
  {
    1.0 - 2.0 * A(dt, response, damping)
  }

  lemma MarginIsStability(dt: real, response: real, damping: real)
    requires dt > 0.0
    ensures var T, D := Trace(dt, response, damping), Friction(dt, response, damping);
      && D < 1.0
      && 1.0 + D + T == Margin(dt, response, damping)
      && (Margin(dt, response, damping) > 0.0 ==> Stable(T, D))
  {
    hide A, B;
    var bb := PositiveSquare(B(dt, response));
  }

  lemma FrameSubstep(s: SpringState, dt: real, response: real, damping: real)
    requires dt > 0.0
    ensures PhaseOf(Substep(s, Inner(dt), Omega(response), Ratio(damping)), Inner(dt))
         == Advance(Trace(dt, response, damping), Friction(dt, response, damping), PhaseOf(s, Inner(dt)))
  {
    hide Inner, Omega, Ratio, Substep, PhaseOf, Advance, A, B, Trace, Friction;
    BOf(dt, response);
    AOf(dt, response, damping);
    TraceOf(dt, response, damping);
    SubstepAdvances(s, Inner(dt), Omega(response), Ratio(damping), A(dt, response, damping), B(dt, response),
                    Trace(dt, response, damping), Friction(dt, response, damping));
  }

  lemma {:induction false} IntegrateAdvances(s: SpringState, dt: real, response: real, damping: real, n: nat)
    requires dt > 0.0
    ensures PhaseOf(Integrate(s, Inner(dt), Omega(response), Ratio(damping), n), Inner(dt))
         == AdvanceBy(Trace(dt, response, damping), Friction(dt, response, damping), PhaseOf(s, Inner(dt)), n)
  {
    if n > 0 {
      hide Inner, Omega, Ratio, Substep, PhaseOf, Advance, Trace, Friction;
      IntegrateAdvances(s, dt, response, damping, n - 1);
      FrameSubstep(Integrate(s, Inner(dt), Omega(response), Ratio(damping), n - 1), dt, response, damping);
    }
  }

  lemma {:induction false} IntegrateAppends(s: SpringState, h: real, w: real, z: real, m: nat, n: nat)
    ensures Integrate(Integrate(s, h, w, z, m), h, w, z, n) == Integrate(s, h, w, z, m + n)
  {
    hide Substep;
    if n > 0 {
      IntegrateAppends(s, h, w, z, m, n - 1);
    }
  }

  /** Until a frame rests, `n` frames are `n * Substeps(dt)` substeps. */
  lemma {:induction false} FramesIntegrate(s: SpringState, dt: real, response: real, damping: real, n: nat)
    requires 0.0 < dt <= STALL
    requires forall i: nat :: i < n ==> Frame(Frames(s, dt, response, damping, i), dt, response, damping).1
    ensures Frames(s, dt, response, damping, n)
         == Integrate(s, Inner(dt), Omega(response), Ratio(damping), n * Substeps(dt))
  {
    hide Inner, Omega, Ratio, Substeps, Substep, AtRest;
    if n > 0 {
      FramesIntegrate(s, dt, response, damping, n - 1);
      var k := Substeps(dt);
      IntegrateAppends(s, Inner(dt), Omega(response), Ratio(damping), (n - 1) * k, k);
      assert (n - 1) * k + k == n * k;
    }
  }

  lemma {:induction false} TargetStays(s: SpringState, dt: real, response: real, damping: real, n: nat)
    ensures Frames(s, dt, response, damping, n).target == s.target
  {
    hide Inner, Omega, Ratio, Substeps, Substep, AtRest;
    if n > 0 {
      TargetStays(s, dt, response, damping, n - 1);
    }
  }

  /** The first frame that asks for no more leaves the spring exactly on its target. */
  lemma FalseMeansSettled(s: SpringState, dt: real, response: real, damping: real, n: nat)
    requires n >= 1 && !Frame(Frames(s, dt, response, damping, n - 1), dt, response, damping).1
    ensures SettledAt(s, dt, response, damping, n)
  {
    hide Inner, Omega, Ratio, Substeps, Integrate, AtRest;
    TargetStays(s, dt, response, damping, n - 1);
  }

  /** Small energy means within both rest thresholds. */
  lemma SmallIsRest(s: SpringState, h: real, m: real)
    requires h > 0.0 && 0.0 < m <= REST_VALUE && 2.0 * m <= h * REST_VELOCITY
    requires Norm(PhaseOf(s, h)) < m * m
    ensures AtRest(s)
  {
    var x, r := s.value - s.target, s.value - s.target - s.velocity * h;
    Root(x, r, m);
    Root(r, x, m);
    var c := h * REST_VELOCITY;
    assert s.velocity * h == x - r;
    Speed(s.velocity, h, REST_VELOCITY, s.velocity * h, c);
  }

  lemma Root(x: real, y: real, m: real)
    requires m > 0.0 && x * x + y * y < m * m
    ensures -m < x < m
  {
    Squares(x, y, m);
    if x >= m {
      SquareMonotone(m, x);
    } else if x <= -m {
      SquareMonotone(m, -x);
    }
  }

  lemma SquareMonotone(m: real, x: real)
    requires 0.0 < m <= x
    ensures m * m <= x * x
  {
    Monotone(x, m, x);
    Monotone(m, m, x);
  }

  lemma Speed(v: real, h: real, c: real, u: real, k: real)
    requires h > 0.0 && u == v * h && k == h * c && -k <= u <= k
    ensures -c <= v <= c
  {
    if v > c {
      ProductIs(v - c, h, (v - c) * h);
    } else if v < -c {
      ProductIs(-c - v, h, (-c - v) * h);
    }
  }

  lemma StableSettles(s: SpringState, dt: real, response: real, damping: real)
    requires 0.0 < dt <= STALL && Margin(dt, response, damping) > 0.0
    ensures Settles(s, dt, response, damping)
  {
    hide Inner, Omega, Ratio, Substeps, Trace, Friction, Margin, Frame, Frames, Energy, Norm, AtRest, PhaseOf, Gap,
      Integrate, AdvanceBy;
    MarginIsStability(dt, response, damping);
    var T, D, h := Trace(dt, response, damping), Friction(dt, response, damping), Inner(dt);
    var m := SmallEnough(h);
    var bound := PositiveProduct3(Gap(T, D), m);
    Drains(T, D, PhaseOf(s, h), bound);
    var n: nat :| Energy(T, D, AdvanceBy(T, D, PhaseOf(s, h), n)) < bound;
    var f := n + 1;
    if i: nat :| i < f && !Frame(Frames(s, dt, response, damping, i), dt, response, damping).1 {
      FalseMeansSettled(s, dt, response, damping, i + 1);
    } else {
      FramesIntegrate(s, dt, response, damping, f);
      var k := f * Substeps(dt);
      assert k >= f;
      EnergyNeverGrows(T, D, PhaseOf(s, h), n, k);
      IntegrateAdvances(s, dt, response, damping, k);
      var t := Frames(s, dt, response, damping, f);
      EnergyBelow(T, D, PhaseOf(t, h));
      Shrink(Gap(T, D), Norm(PhaseOf(t, h)), m * m);
      SmallIsRest(t, h, m);
      RestIsReported(s, dt, response, damping, f);
      assert false;
    }
  }

  lemma Shrink(g: real, x: real, y: real)
    requires g > 0.0 && g * x < g * y
    ensures x < y
  {
    if x >= y {
      Monotone(g, y, x);
    }
  }

  lemma SmallEnough(h: real) returns (m: real)
    requires h > 0.0
    ensures 0.0 < m <= REST_VALUE && 2.0 * m <= h * REST_VELOCITY
  {
    m := if h >= 1.0 then REST_VALUE else h * REST_VALUE;
  }

  lemma PositiveProduct3(g: real, m: real) returns (b: real)
    requires g > 0.0 && m > 0.0
    ensures b > 0.0 && b == g * (m * m)
  {
    var mm := PositiveSquare(m);
    ProductIs(g, mm, g * mm);
    b := g * mm;
  }

  /** A frame whose integrated state is at rest does not ask for another. */
  lemma RestIsReported(s: SpringState, dt: real, response: real, damping: real, n: nat)
    requires 0.0 < dt <= STALL && n >= 1
    requires Frame(Frames(s, dt, response, damping, n - 1), dt, response, damping).1
    ensures !AtRest(Frames(s, dt, response, damping, n))
  {
    hide Inner, Omega, Ratio, Substeps, Integrate, AtRest;
  }

  // ---- and outside the stable region it is false ----

  /** A spring that stands still away from its target: made at `from` and sent to `target`. */
  function SetOff(from: real, target: real): SpringState {
    SpringState(from, 0.0, target)
  }

  /** How far from its target a spring must be set off never to arrive. */
  function Far(dt: real, response: real, damping: real): (k: real)
    requires dt > 0.0 && Margin(dt, response, damping) <= 0.0
    ensures k >= 1.0
    ensures Unstable(Trace(dt, response, damping), Friction(dt, response, damping))
    ensures k * Least(Trace(dt, response, damping), Friction(dt, response, damping)) >= 1.0
  {
    MarginIsInstability(dt, response, damping);
    var c := Least(Trace(dt, response, damping), Friction(dt, response, damping));
    Quotient(1.0, c);
    Monotone(c, 1.0 / c, 1.0 + 1.0 / c);
    1.0 + 1.0 / c
  }

  lemma MarginIsInstability(dt: real, response: real, damping: real)
    requires dt > 0.0 && Margin(dt, response, damping) <= 0.0
    ensures Unstable(Trace(dt, response, damping), Friction(dt, response, damping))
  {
    hide A, B;
    MarginIsStability(dt, response, damping);
    var bb := PositiveSquare(B(dt, response));
  }

  /** Rest confines the speed. */
  lemma RestIsSlow(s: SpringState, h: real)
    requires 0.0 < h <= 1.0 && AtRest(s)
    ensures var p := PhaseOf(s, h); -1.0 < p.s < 1.0 && -1.0 < p.s - p.r < 1.0
  {
    Drift(s.velocity, h, REST_VELOCITY, s.velocity * h);
  }

  lemma Drift(v: real, h: real, c: real, u: real)
    requires 0.0 < h <= 1.0 && u == v * h && -c <= v <= c
    ensures -c <= u <= c
  {
    NonNegativeIs(c, 1.0 - h, c * (1.0 - h));
    NonNegativeIs(c - v, h, (c - v) * h);
    NonNegativeIs(c + v, h, (c + v) * h);
  }

  lemma NonNegativeIs(x: real, y: real, z: real)
    requires x >= 0.0 && y >= 0.0 && z == x * y
    ensures z >= 0.0
  {}

  lemma NeverAtRest(T: real, D: real, k: real, h: real, s: SpringState, n: nat)
    requires Unstable(T, D) && 0.0 < h <= 1.0
    requires Abs(k) >= 1.0 && Abs(k) * Least(T, D) >= 1.0
    requires PhaseOf(s, h) == AdvanceBy(T, D, Phase(k, k), n)
    ensures !AtRest(s)
  {
    hide PhaseOf, AtRest, AdvanceBy, Unstable, Least;
    if AtRest(s) {
      RestIsSlow(s, h);
      if n == 0 {
        StartsAt(T, D, Phase(k, k));
      } else {
        Scales(T, D, k, n);
        KeepsSwinging(T, D, n);
        var one := AdvanceBy(T, D, Phase(1.0, 1.0), n);
        BigSwing(k, Least(T, D), one.s - one.r, Swing(T, D, n), PhaseOf(s, h).s - PhaseOf(s, h).r) by {
          assert PhaseOf(s, h).s - PhaseOf(s, h).r == k * (one.s - one.r) by { Factor(k, one.s, one.r); }
        }
      }
    }
  }

  lemma Factor(k: real, x: real, y: real)
    ensures k * x - k * y == k * (x - y)
  {}

  lemma StartsAt(T: real, D: real, p: Phase)
    ensures AdvanceBy(T, D, p, 0) == p
  {}

  lemma BigSwing(k: real, c: real, d: real, swing: real, moved: real)
    requires Abs(k) * c >= 1.0 && (swing == d || swing == -d) && swing >= c > 0.0 && moved == k * d
    ensures moved >= 1.0 || moved <= -1.0
  {
    Monotone(Abs(k), c, swing);
    assert Abs(k) * swing == moved || Abs(k) * swing == -moved;
  }

  lemma {:induction false} UnstableRunsOn(dt: real, response: real, damping: real, s: SpringState, n: nat)
    requires 0.0 < dt <= STALL && Margin(dt, response, damping) <= 0.0
    requires s.velocity == 0.0 && Abs(s.value - s.target) >= Far(dt, response, damping)
    ensures forall i: nat :: i <= n ==> Frame(Frames(s, dt, response, damping, i), dt, response, damping).1
  {
    hide Inner, Omega, Ratio, Trace, Friction, Margin, PhaseOf, AtRest, Abs, AdvanceBy, Integrate, Substeps, Far, Least, Unstable;
    if n > 0 {
      UnstableRunsOn(dt, response, damping, s, n - 1);
    }
    var h, k := Inner(dt), s.value - s.target;
    var T, D := Trace(dt, response, damping), Friction(dt, response, damping);
    var m := Substeps(dt);
    Monotone(Least(T, D), Far(dt, response, damping), Abs(k));
    FramesIntegrate(s, dt, response, damping, n);
    StillPhase(s, h);
    var j := n * m;
    IntegrateAdvances(s, dt, response, damping, j);
    NeverAtRest(T, D, k, h, Frames(s, dt, response, damping, n), j);
    IntegrateAppends(s, h, Omega(response), Ratio(damping), j, m);
    IntegrateAdvances(s, dt, response, damping, j + m);
    NeverAtRest(T, D, k, h, Integrate(s, h, Omega(response), Ratio(damping), j + m), j + m);
    NotRestMoves(Frames(s, dt, response, damping, n));
  }

  lemma StillPhase(s: SpringState, h: real)
    requires s.velocity == 0.0
    ensures PhaseOf(s, h) == Phase(s.value - s.target, s.value - s.target)
  {}

  lemma NotRestMoves(s: SpringState)
    requires !AtRest(s)
    ensures s.Moving()
  {}

  /** Without a positive margin, no spring set off from far enough ever comes to rest. */
  lemma UnstableRunsAway(dt: real, response: real, damping: real, from: real, target: real)
    requires 0.0 < dt <= STALL && Margin(dt, response, damping) <= 0.0
    requires Abs(from - target) >= Far(dt, response, damping)
    ensures !Settles(SetOff(from, target), dt, response, damping)
  {
    hide Inner, Trace, Friction, Margin, Abs, Frame, Far;
    var s := SetOff(from, target);
    if Settles(s, dt, response, damping) {
      var n: nat :| SettledAt(s, dt, response, damping, n);
      UnstableRunsOn(dt, response, damping, s, n);
    }
  }

  /** Every spring made at some value and sent to another arrives. */
  ghost predicate SetOffSettles(dt: real, response: real, damping: real) {
    forall from: real, target: real :: Settles(SetOff(from, target), dt, response, damping)
  }

  /** The frame time is taken for a stall, or the margin is positive. */
  predicate Settling(dt: real, response: real, damping: real) {
    dt <= 0.0 || dt > STALL || Margin(dt, response, damping) > 0.0
  }

  /** The settle guarantee, exactly: every start, and equally every start from rest, comes to
      rest on target after finitely many frames if and only if the frame time is a stall or
      4*zeta*omega*h + (omega*h)^2 < 4. */
  lemma SettlesExactly(dt: real, response: real, damping: real)
    ensures AlwaysSettles(dt, response, damping) <==> Settling(dt, response, damping)
    ensures SetOffSettles(dt, response, damping) <==> Settling(dt, response, damping)
  {
    hide Margin, Settles, Far, SetOff;
    if Settling(dt, response, damping) {
      forall s: SpringState
        ensures Settles(s, dt, response, damping)
      {
        if dt <= 0.0 || dt > STALL {
          StallsSettleAtOnce(s, dt, response, damping);
        } else {
          StableSettles(s, dt, response, damping);
        }
      }
    } else {
      UnstableRunsAway(dt, response, damping, Far(dt, response, damping), 0.0);
      assert !Settles(SetOff(Far(dt, response, damping), 0.0), dt, response, damping);
    }
  }

  /** A frame time outside (0, 0.25] settles at once, whatever the parameters. */
  lemma StallsSettleAtOnce(s: SpringState, dt: real, response: real, damping: real)
    requires dt <= 0.0 || dt > STALL
    ensures Settles(s, dt, response, damping)
  {
    assert Frames(s, dt, response, damping, 0) == s;
    assert Frames(s, dt, response, damping, 1) == Frame(s, dt, response, damping).0;
    assert SettledAt(s, dt, response, damping, 1);
  }

  /** Every response time from 0.06 s up is safe, at every damping and frame time: the
      substep is never longer than 1/240 s. The shipped defaults (0.16, 1.0) are inside. */
  lemma OrdinaryResponsesSettle(dt: real, response: real, damping: real)
    requires response >= 0.06
    ensures AlwaysSettles(dt, response, damping)
  {
    hide Inner, AlwaysSettles, SetOffSettles, Substeps, Omega, A, B;
    if 0.0 < dt <= STALL {
      var a, b := A(dt, response, damping), B(dt, response);
      OrdinaryB(dt, response);
      OrdinaryMargin(Ratio(damping), b, a) by {
        assert a == Ratio(damping) * b by { AOf(dt, response, damping); }
      }
    }
    SettlesExactly(dt, response, damping);
  }

  lemma TraceOf(dt: real, response: real, damping: real)
    requires dt > 0.0
    ensures Trace(dt, response, damping)
         == 2.0 - 2.0 * A(dt, response, damping) - B(dt, response) * B(dt, response)
    ensures Friction(dt, response, damping) == 1.0 - 2.0 * A(dt, response, damping)
  {}

  lemma BOf(dt: real, response: real)
    requires dt > 0.0
    ensures B(dt, response) == Omega(response) * Inner(dt)
  {}

  lemma AOf(dt: real, response: real, damping: real)
    requires dt > 0.0
    ensures A(dt, response, damping) == Ratio(damping) * B(dt, response)
  {}

  lemma OrdinaryB(dt: real, response: real)
    requires 0.0 < dt && response >= 0.06
    ensures 0.0 < B(dt, response) <= 0.4375
  {
    hide Inner;
    var c := Clamp(response, 0.01, 2.0);
    QuotientBound(TAU, c, 0.06, 105.0, Omega(response));
    ScaledBound(Omega(response), Inner(dt), B(dt, response));
  }

  lemma QuotientBound(x: real, c: real, lo: real, hi: real, w: real)
    requires c >= lo > 0.0 && x > 0.0 && w == x / c && x <= hi * lo && hi > 0.0
    ensures w <= hi
  {
    assert w * c == x;
    if w > hi {
      ProductIs(w - hi, c, (w - hi) * c);
      Monotone(hi, lo, c);
    }
  }

  lemma ScaledBound(w: real, h: real, b: real)
    requires 0.0 < w <= 105.0 && h > 0.0 && h * 240.0 <= 1.0 && b == w * h
    ensures b <= 0.4375
  {
    NonNegativeIs(105.0 - w, h, (105.0 - w) * h);
  }

  lemma OrdinaryMargin(z: real, b: real, a: real)
    requires 0.1 <= z <= 2.0 && 0.0 < b <= 0.4375 && a == z * b
    ensures 4.0 - 4.0 * a - b * b > 0.0
  {
    Monotone(b, z, 2.0);
    Monotone(b, b, 0.4375);
  }

  /** The clamp admits a corner where it fails: response 0.01 at 60 frames a second. */
  lemma FastCornerRunsAway()
    ensures !AlwaysSettles(1.0 / 60.0, 0.01, 1.0) && !SetOffSettles(1.0 / 60.0, 0.01, 1.0)
  {
    hide AlwaysSettles, SetOffSettles;
    var dt := 1.0 / 60.0;
    assert Substeps(dt) == 4;
    assert Inner(dt) == 1.0 / 240.0;
    var b := B(dt, 0.01);
    assert b >= 2.6;
    SettlesExactly(dt, 0.01, 1.0);
    var bb := PositiveSquare(b);
  }
}
