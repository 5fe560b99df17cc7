/** The polynomial test systems, and how the integrators do on them. */
module Polynomials {
  import opened Integrators

  function Poly(c3: real, c2: real, c1: real, c0: real, s: real): real {
    c3 * (s * s * s) + c2 * (s * s) + c1 * s + c0
  }

  /** The systems of PolynomialODE.cc with their parameters; `t0` is the initial time, which is
      also added to the time in every formula. */
  datatype Polynomial =
    | ParabolicODE(t0: real, p0: real, v0: real, a: real)
    | ParabolicSystem(t0: real, p0: real, v0: real, a: real)
    | CubicODE(t0: real, p0: real, v0: real, a0: real, jerk: real)
    | CubicSystem(t0: real, p0: real, v0: real, a0: real, jerk: real)

  function Dimension(p: Polynomial): nat {
    match p
    case ParabolicODE(_, _, _, _) => 1
    case ParabolicSystem(_, _, _, _) => 2
    case CubicODE(_, _, _, _, _) => 1
    case CubicSystem(_, _, _, _, _) => 3
  }

  function Exact(p: Polynomial, t: real): State {
    var s := t + p.t0;
    match p
    case ParabolicODE(_, p0, v0, a) => [Poly(0.0, 0.5 * a, v0, p0, s)]
    case ParabolicSystem(_, p0, v0, a) => [Poly(0.0, 0.5 * a, v0, p0, s), Poly(0.0, 0.0, a, v0, s)]
    case CubicODE(_, p0, v0, a0, jerk) => [Poly(jerk / 6.0, 0.5 * a0, v0, p0, s)]
    case CubicSystem(_, p0, v0, a0, jerk) =>
      [Poly(jerk / 6.0, 0.5 * a0, v0, p0, s), Poly(0.0, 0.5 * jerk, a0, v0, s), Poly(0.0, 0.0, jerk, a0, s)]
  }

  function Ode(p: Polynomial): SystemODE {
    (t: real, y: State) requires |y| == Dimension(p) =>
      var s := t + p.t0;
      match p
      case ParabolicODE(_, _, v0, a) => [Poly(0.0, 0.0, a, v0, s)]
      case ParabolicSystem(_, _, _, a) => [y[1], a]
      case CubicODE(_, _, v0, a0, jerk) => [Poly(0.0, 0.5 * jerk, a0, v0, s)]
      case CubicSystem(_, _, _, _, jerk) => [y[1], y[2], jerk]
  }

  lemma Dimensions(p: Polynomial, t: real)
    ensures HasDimension(Ode(p), Dimension(p)) && |Exact(p, t)| == Dimension(p)
  {
  }

  // ---------------------------------------------------------------- Runge-Kutta is exact

  /** Simpson's rule is exact on cubics. */
  lemma Simpson(c3: real, c2: real, c1: real, c0: real, s: real, h: real)
    ensures var d, dm, de := Poly(0.0, 3.0 * c3, 2.0 * c2, c1, s), Poly(0.0, 3.0 * c3, 2.0 * c2, c1, s + h / 2.0),
                             Poly(0.0, 3.0 * c3, 2.0 * c2, c1, s + h);
            Weigh(Poly(c3, c2, c1, c0, s), h, d, dm, dm, de) == Poly(c3, c2, c1, c0, s + h)
  {
  }

  /** A step of a chain of integrators: the middle slopes are not exact, but their errors cancel. */
  lemma ChainStep(c3: real, c2: real, c1: real, c0: real, s: real, h: real)
    ensures var p, v, b, j := Poly(c3, c2, c1, c0, s), Poly(0.0, 3.0 * c3, 2.0 * c2, c1, s), Poly(0.0, 0.0, 6.0 * c3, 2.0 * c2, s), 6.0 * c3;
            var v2, b2 := v + Mul(b, h / 2.0), b + Mul(j, h / 2.0);
            var v3, v4, b4 := v + Mul(b2, h / 2.0), v + Mul(b2, h), b + Mul(j, h);
            && Weigh(p, h, v, v2, v3, v4) == Poly(c3, c2, c1, c0, s + h)
            && Weigh(v, h, b, b2, b2, b4) == Poly(0.0, 3.0 * c3, 2.0 * c2, c1, s + h)
            && Weigh(b, h, j, j, j, j) == Poly(0.0, 0.0, 6.0 * c3, 2.0 * c2, s + h)
  {
    ChainHead(c3, c2, c1, c0, s, h);
    ShortChainStep(3.0 * c3, 2.0 * c2, c1, s, h);
    assert 2.0 * (3.0 * c3) == 6.0 * c3;
    hide Poly, Weigh, Mul;
  }

  lemma ChainHead(c3: real, c2: real, c1: real, c0: real, s: real, h: real)
    ensures var p, v, b, j := Poly(c3, c2, c1, c0, s), Poly(0.0, 3.0 * c3, 2.0 * c2, c1, s), Poly(0.0, 0.0, 6.0 * c3, 2.0 * c2, s), 6.0 * c3;
            var v2, b2 := v + Mul(b, h / 2.0), b + Mul(j, h / 2.0);
            Weigh(p, h, v, v2, v + Mul(b2, h / 2.0), v + Mul(b2, h)) == Poly(c3, c2, c1, c0, s + h)
  {
  }

  /** The same for a shorter chain. */
  lemma ShortChainStep(c2: real, c1: real, c0: real, s: real, h: real)
    ensures var p, v, b := Poly(0.0, c2, c1, c0, s), Poly(0.0, 0.0, 2.0 * c2, c1, s), 2.0 * c2;
            var v2, v4 := v + Mul(b, h / 2.0), v + Mul(b, h);
            && Weigh(p, h, v, v2, v2, v4) == Poly(0.0, c2, c1, c0, s + h)
            && Weigh(v, h, b, b, b, b) == Poly(0.0, 0.0, 2.0 * c2, c1, s + h)
  {
  }

  lemma ShiftedTime(t: real, t0: real, h: real)
    ensures t + h / 2.0 + t0 == t + t0 + h / 2.0 && t + h + t0 == t + t0 + h
  {
  }

  lemma ParabolicODEExact(p: Polynomial, h: real, t: real)
    requires p.ParabolicODE?
    ensures HasDimension(Ode(p), |Exact(p, t)|) && RungeKuttaStep(Ode(p), h, t, Exact(p, t)) == Exact(p, t + h)
  {
    Simpson(0.0, 0.5 * p.a, p.v0, p.p0, t + p.t0, h);
    ShiftedTime(t, p.t0, h);
    assert 2.0 * (0.5 * p.a) == p.a && 3.0 * 0.0 == 0.0;
    hide Poly, Weigh, Mul;
    Dimensions(p, t);
  }

  lemma CubicODEExact(p: Polynomial, h: real, t: real)
    requires p.CubicODE?
    ensures HasDimension(Ode(p), |Exact(p, t)|) && RungeKuttaStep(Ode(p), h, t, Exact(p, t)) == Exact(p, t + h)
  {
    Simpson(p.jerk / 6.0, 0.5 * p.a0, p.v0, p.p0, t + p.t0, h);
    ShiftedTime(t, p.t0, h);
    assert 2.0 * (0.5 * p.a0) == p.a0 && 3.0 * (p.jerk / 6.0) == 0.5 * p.jerk;
    hide Poly, Weigh, Mul;
    Dimensions(p, t);
  }

  lemma ParabolicSystemExact(p: Polynomial, h: real, t: real)
    requires p.ParabolicSystem?
    ensures HasDimension(Ode(p), |Exact(p, t)|) && RungeKuttaStep(Ode(p), h, t, Exact(p, t)) == Exact(p, t + h)
  {
    ShortChainStep(0.5 * p.a, p.v0, p.p0, t + p.t0, h);
    ShiftedTime(t, p.t0, h);
    assert 2.0 * (0.5 * p.a) == p.a;
    hide Poly, Weigh, Mul;
    Dimensions(p, t);
    var y, a := Exact(p, t), p.a;
    var k1 := Ode(p)(t, y);
    assert k1 == [y[1], a];
    var k2 := Ode(p)(t + h / 2.0, Sum(y, Scaled(h / 2.0, k1)));
    assert k2 == [y[1] + Mul(a, h / 2.0), a];
    var k3 := Ode(p)(t + h / 2.0, Sum(y, Scaled(h / 2.0, k2)));
    assert k3 == k2;
    var k4 := Ode(p)(t + h, Sum(y, Scaled(h, k3)));
    assert k4 == [y[1] + Mul(a, h), a];
  }

  lemma CubicSystemExact(p: Polynomial, h: real, t: real)
    requires p.CubicSystem?
    ensures HasDimension(Ode(p), |Exact(p, t)|) && RungeKuttaStep(Ode(p), h, t, Exact(p, t)) == Exact(p, t + h)
  {
    hide Poly, Weigh, Mul, Ode, RungeKuttaStep, HasDimension;
    CubicChain(p, h, t);
    Dimensions(p, t);
    CubicSlopes(p, h, t, Exact(p, t));
    hide Exact;
  }

  lemma CubicChain(p: Polynomial, h: real, t: real)
    requires p.CubicSystem?
    ensures |Exact(p, t)| == |Exact(p, t + h)| == 3
    ensures var y, y', j := Exact(p, t), Exact(p, t + h), p.jerk;
            var b2, b4 := y[2] + Mul(j, h / 2.0), y[2] + Mul(j, h);
            && Weigh(y[0], h, y[1], y[1] + Mul(y[2], h / 2.0), y[1] + Mul(b2, h / 2.0), y[1] + Mul(b2, h)) == y'[0]
            && Weigh(y[1], h, y[2], b2, b2, b4) == y'[1]
            && Weigh(y[2], h, j, j, j, j) == y'[2]
  {
    hide Poly, Weigh, Mul;
    ChainStep(p.jerk / 6.0, 0.5 * p.a0, p.v0, p.p0, t + p.t0, h);
    ShiftedTime(t, p.t0, h);
    assert 2.0 * (0.5 * p.a0) == p.a0 && 3.0 * (p.jerk / 6.0) == 0.5 * p.jerk && 6.0 * (p.jerk / 6.0) == p.jerk;
  }

  /** The four slopes of a chain of three integrators. */
  lemma CubicSlopes(p: Polynomial, h: real, t: real, y: State)
    requires p.CubicSystem? && |y| == 3
    ensures HasDimension(Ode(p), 3)
    ensures var j, b2 := p.jerk, y[2] + Mul(p.jerk, h / 2.0);
            RungeKuttaStep(Ode(p), h, t, y) ==
            Combined(y, h, [y[1], y[2], j], [y[1] + Mul(y[2], h / 2.0), b2, j], [y[1] + Mul(b2, h / 2.0), b2, j],
                     [y[1] + Mul(b2, h), y[2] + Mul(j, h), j])
  {
    hide Poly, Weigh, Mul, Combined;
    Dimensions(p, t);
    var j, b2 := p.jerk, y[2] + Mul(p.jerk, h / 2.0);
    var k1 := Ode(p)(t, y);
    assert k1 == [y[1], y[2], j];
    var k2 := Ode(p)(t + h / 2.0, Sum(y, Scaled(h / 2.0, k1)));
    assert k2 == [y[1] + Mul(y[2], h / 2.0), b2, j];
    var k3 := Ode(p)(t + h / 2.0, Sum(y, Scaled(h / 2.0, k2)));
    assert k3 == [y[1] + Mul(b2, h / 2.0), b2, j];
    var k4 := Ode(p)(t + h, Sum(y, Scaled(h, k3)));
    assert k4 == [y[1] + Mul(b2, h), y[2] + Mul(j, h), j];
  }

  lemma RungeKuttaStepExact(p: Polynomial, h: real, t: real)
    ensures HasDimension(Ode(p), |Exact(p, t)|) && RungeKuttaStep(Ode(p), h, t, Exact(p, t)) == Exact(p, t + h)
  {
    match p
    case ParabolicODE(_, _, _, _) => ParabolicODEExact(p, h, t);
    case ParabolicSystem(_, _, _, _) => ParabolicSystemExact(p, h, t);
    case CubicODE(_, _, _, _, _) => CubicODEExact(p, h, t);
    case CubicSystem(_, _, _, _, _) => CubicSystemExact(p, h, t);
  }

  /** On all four systems, for all parameters, steps and numbers of steps, the Runge-Kutta
      integrator computes the exact solution. */
  lemma {:induction false} RungeKuttaExact(p: Polynomial, h: real, n: nat)
    ensures HasDimension(Ode(p), |Exact(p, p.t0)|)
    ensures Steps(RungeKutta4, Ode(p), h, p.t0, Exact(p, p.t0), n) == Exact(p, TimeAfter(p.t0, h, n))
  {
    Dimensions(p, p.t0);
    hide Ode, Exact, RungeKuttaStep, TimeAfter, HasDimension;
    NextTime(p.t0, h, 0);
    if n > 0 {
      RungeKuttaExact(p, h, n - 1);
      NextTime(p.t0, h, n - 1);
      RungeKuttaStepExact(p, h, TimeAfter(p.t0, h, n - 1));
    }
  }

  // ---------------------------------------------------------------- Forward Euler lags behind

  /** The exact position minus the lag, next to the exact velocity. */
  function Lagging(p: Polynomial, t: real, lag: real): State
    requires p.ParabolicODE? || p.ParabolicSystem?
  {
    Exact(p, t)[0 := Exact(p, t)[0] - lag]
  }

  /** The lag after `n` steps. */
  function Lag(a: real, h: real, n: nat): real {
    n as real * a * h * h / 2.0
  }

  lemma LagGrows(a: real, h: real, n: nat)
    requires n > 0
    ensures Lag(a, h, n) == Lag(a, h, n - 1) + a * h * h / 2.0 && Lag(a, h, 0) == 0.0
  {
    var m := (n - 1) as real;
    assert n as real == m + 1.0;
    assert (m + 1.0) * a * h * h == m * a * h * h + a * h * h;
  }

  lemma ParabolaEuler(a: real, v0: real, p0: real, s: real, h: real, lag: real)
    ensures Poly(0.0, 0.5 * a, v0, p0, s) - lag + Mul(Poly(0.0, 0.0, a, v0, s), h)
            == Poly(0.0, 0.5 * a, v0, p0, s + h) - (lag + a * h * h / 2.0)
    ensures Poly(0.0, 0.0, a, v0, s) + Mul(a, h) == Poly(0.0, 0.0, a, v0, s + h)
  {
  }

  lemma EulerStepLags(p: Polynomial, h: real, t: real, n: nat)
    requires (p.ParabolicODE? || p.ParabolicSystem?) && n > 0
    ensures HasDimension(Ode(p), |Lagging(p, t, Lag(p.a, h, n - 1))|)
    ensures EulerStep(Ode(p), h, t, Lagging(p, t, Lag(p.a, h, n - 1))) == Lagging(p, t + h, Lag(p.a, h, n))
  {
    ParabolaEuler(p.a, p.v0, p.p0, t + p.t0, h, Lag(p.a, h, n - 1));
    LagGrows(p.a, h, n);
    ShiftedTime(t, p.t0, h);
    hide Poly, Mul, Lag;
    Dimensions(p, t);
    var y := Lagging(p, t, Lag(p.a, h, n - 1));
    var k := Ode(p)(t, y);
    assert k[0] == Poly(0.0, 0.0, p.a, p.v0, t + p.t0);
    var r, goal := EulerStep(Ode(p), h, t, y), Lagging(p, t + h, Lag(p.a, h, n));
    assert r[0] == y[0] + Mul(k[0], h) == goal[0];
    if p.ParabolicSystem? {
      assert r[1] == y[1] + Mul(p.a, h) == goal[1];
      assert r == [r[0], r[1]] && goal == [goal[0], goal[1]];
    } else {
      assert r == [r[0]] && goal == [goal[0]];
    }
  }

  /** On both parabolic systems the position that Forward Euler computes lags behind the exact
      one by n a h^2 / 2 after n steps; the velocity is exact. */
  lemma {:induction false} EulerLags(p: Polynomial, h: real, n: nat)
    requires p.ParabolicODE? || p.ParabolicSystem?
    ensures HasDimension(Ode(p), |Exact(p, p.t0)|)
    ensures Steps(ForwardEuler, Ode(p), h, p.t0, Exact(p, p.t0), n) == Lagging(p, TimeAfter(p.t0, h, n), Lag(p.a, h, n))
  {
    hide TimeAfter, Lag, Ode, EulerStep, Lagging, HasDimension, Exact, Steps, Dimension;
    Dimensions(p, p.t0);
    if n == 0 {
      NoLag(p, h);
    } else {
      EulerLags(p, h, n - 1);
      NextTime(p.t0, h, n - 1);
      EulerStepLags(p, h, TimeAfter(p.t0, h, n - 1), n);
      LastStep(Ode(p), h, p.t0, Exact(p, p.t0), n);
    }
  }

  lemma LastStep(f: SystemODE, h: real, t: real, y: State, n: nat)
    requires HasDimension(f, |y|) && n > 0
    ensures Steps(ForwardEuler, f, h, t, y, n) == EulerStep(f, h, TimeAfter(t, h, n - 1), Steps(ForwardEuler, f, h, t, y, n - 1))
  {
    hide EulerStep, TimeAfter, HasDimension;
  }

  lemma NoLag(p: Polynomial, h: real)
    requires p.ParabolicODE? || p.ParabolicSystem?
    ensures HasDimension(Ode(p), |Exact(p, p.t0)|)
    ensures Steps(ForwardEuler, Ode(p), h, p.t0, Exact(p, p.t0), 0) == Lagging(p, TimeAfter(p.t0, h, 0), Lag(p.a, h, 0))
  {
    Dimensions(p, p.t0);
    LagGrows(p.a, h, 1);
    NextTime(p.t0, h, 0);
    hide Lag, Poly, TimeAfter, HasDimension;
    assert Lagging(p, p.t0, 0.0) == Exact(p, p.t0);
  }
}
