/** The circular test system: how the integrators change its radius. */
module Circular {
  import opened Integrators

  /** The right-hand side of `CreateCircularSystem` for the angular velocity `w`. */
  function Rotation(w: real): SystemODE {
    (t: real, y: State) requires |y| == 2 => [-Mul(w, y[1]), Mul(w, y[0])]
  }

  function SquaredRadius(y: State): real
    requires |y| == 2
  {
    y[0] * y[0] + y[1] * y[1]
  }

  lemma RotationDimension(w: real)
    ensures HasDimension(Rotation(w), 2)
  {
  }

  // ---------------------------------------------------------------- one step is a similarity

  function Cos4(z: real): real {
    1.0 - z * z / 2.0 + z * z * z * z / 24.0
  }

  function Sin3(z: real): real {
    z - z * z * z / 6.0
  }

  /** The factor by which a step multiplies the squared radius, for z = w h. */
  function Growth(scheme: Scheme, z: real): real {
    match scheme
    case RungeKutta4 => 1.0 - z * z * z * z * z * z / 72.0 + z * z * z * z * z * z * z * z / 576.0
    case ForwardEuler => 1.0 + z * z
  }

  /** A slope in the middle or at the end of the step, times the step. */
  lemma SlopeTimes(w: real, h: real, q: real, b: real)
    ensures Mul(h, Mul(w, q + Mul(b, h / 2.0))) == Mul(w * h, q + Mul(h, b) / 2.0)
    ensures Mul(h, Mul(w, q + Mul(b, h))) == Mul(w * h, q + Mul(h, b))
    ensures Mul(h, -Mul(w, q + Mul(b, h / 2.0))) == -Mul(w * h, q + Mul(h, b) / 2.0)
    ensures Mul(h, -Mul(w, q + Mul(b, h))) == -Mul(w * h, q + Mul(h, b))
  {
  }

  lemma FirstSlope(w: real, h: real, q: real)
    ensures Mul(h, Mul(w, q)) == Mul(w * h, q) && Mul(h, -Mul(w, q)) == -Mul(w * h, q)
  {
  }

  lemma MiddleSlopes(z: real, x: real, y: real)
    ensures var u1, v1 := -Mul(z, y), Mul(z, x);
            var u2, v2 := -Mul(z, y + v1 / 2.0), Mul(z, x + u1 / 2.0);
            && u2 == -(z * y) - z * z * x / 2.0 && v2 == z * x - z * z * y / 2.0
            && -Mul(z, y + v2 / 2.0) == -(z * y) - z * z * x / 2.0 + z * z * z * y / 4.0
            && Mul(z, x + u2 / 2.0) == z * x - z * z * y / 2.0 - z * z * z * x / 4.0
  {
  }

  lemma LastSlope(z: real, x: real, y: real, u3: real, v3: real)
    requires u3 == -(z * y) - z * z * x / 2.0 + z * z * z * y / 4.0 && v3 == z * x - z * z * y / 2.0 - z * z * z * x / 4.0
    ensures -Mul(z, y + v3) == -(z * y) - z * z * x + z * z * z * y / 2.0 + z * z * z * z * x / 4.0
    ensures Mul(z, x + u3) == z * x - z * z * y - z * z * z * x / 2.0 + z * z * z * z * y / 4.0
  {
    assert z * v3 == z * (z * x - z * z * y / 2.0 - z * z * z * x / 4.0);
    assert z * u3 == z * (-(z * y) - z * z * x / 2.0 + z * z * z * y / 4.0);
  }

  lemma MeanSlope(z: real, x: real, y: real)
    ensures Mul(Cos4(z), x) - Mul(Sin3(z), y) == x - z * y - z * z * x / 2.0 + z * z * z * y / 6.0 + z * z * z * z * x / 24.0
    ensures Mul(Sin3(z), x) + Mul(Cos4(z), y) == y + z * x - z * z * y / 2.0 - z * z * z * x / 6.0 + z * z * z * z * y / 24.0
  {
  }

  /** The Runge-Kutta tableau of a rotation, in units of the step. */
  lemma Tableau(z: real, x: real, y: real)
    ensures var u1, v1 := -Mul(z, y), Mul(z, x);
            var u2, v2 := -Mul(z, y + v1 / 2.0), Mul(z, x + u1 / 2.0);
            var u3, v3 := -Mul(z, y + v2 / 2.0), Mul(z, x + u2 / 2.0);
            var u4, v4 := -Mul(z, y + v3), Mul(z, x + u3);
            && x + (u1 + 2.0 * u2 + 2.0 * u3 + u4) / 6.0 == Mul(Cos4(z), x) - Mul(Sin3(z), y)
            && y + (v1 + 2.0 * v2 + 2.0 * v3 + v4) / 6.0 == Mul(Sin3(z), x) + Mul(Cos4(z), y)
  {
    assert Mul(z, y) == z * y && Mul(z, x) == z * x;
    hide Mul, Cos4, Sin3;
    MiddleSlopes(z, x, y);
    var u2, v2 := -Mul(z, y + Mul(z, x) / 2.0), Mul(z, x + -Mul(z, y) / 2.0);
    LastSlope(z, x, y, -Mul(z, y + v2 / 2.0), Mul(z, x + u2 / 2.0));
    MeanSlope(z, x, y);
  }

  lemma WeighTimes(y: real, h: real, k1: real, k2: real, k3: real, k4: real)
    ensures Weigh(y, h, k1, k2, k3, k4) == y + (Mul(h, k1) + 2.0 * Mul(h, k2) + 2.0 * Mul(h, k3) + Mul(h, k4)) / 6.0
  {
  }

  /** Both components of a Runge-Kutta step, with the slopes written out. */
  lemma RotatedStep(w: real, h: real, x: real, y: real)
    ensures var z := w * h;
            var a1, b1 := -Mul(w, y), Mul(w, x);
            var a2, b2 := -Mul(w, y + Mul(b1, h / 2.0)), Mul(w, x + Mul(a1, h / 2.0));
            var a3, b3 := -Mul(w, y + Mul(b2, h / 2.0)), Mul(w, x + Mul(a2, h / 2.0));
            var a4, b4 := -Mul(w, y + Mul(b3, h)), Mul(w, x + Mul(a3, h));
            && Weigh(x, h, a1, a2, a3, a4) == Mul(Cos4(z), x) - Mul(Sin3(z), y)
            && Weigh(y, h, b1, b2, b3, b4) == Mul(Sin3(z), x) + Mul(Cos4(z), y)
  {
    hide Mul, Weigh, Cos4, Sin3;
    var a1, b1 := -Mul(w, y), Mul(w, x);
    FirstSlope(w, h, x);
    FirstSlope(w, h, y);
    var a2, b2 := -Mul(w, y + Mul(b1, h / 2.0)), Mul(w, x + Mul(a1, h / 2.0));
    SlopeTimes(w, h, y, b1);
    SlopeTimes(w, h, x, a1);
    var a3, b3 := -Mul(w, y + Mul(b2, h / 2.0)), Mul(w, x + Mul(a2, h / 2.0));
    SlopeTimes(w, h, y, b2);
    SlopeTimes(w, h, x, a2);
    var a4, b4 := -Mul(w, y + Mul(b3, h)), Mul(w, x + Mul(a3, h));
    SlopeTimes(w, h, y, b3);
    SlopeTimes(w, h, x, a3);
    WeighTimes(x, h, a1, a2, a3, a4);
    WeighTimes(y, h, b1, b2, b3, b4);
    Tableau(w * h, x, y);
  }

  /** A rotation followed by a scaling: multiplication by the complex number a + b i. */
  function Turned(a: real, b: real, y: State): (r: State)
    requires |y| == 2
    ensures |r| == 2
  {
    [Mul(a, y[0]) - Mul(b, y[1]), Mul(b, y[0]) + Mul(a, y[1])]
  }

  lemma TurnedRadius(a: real, b: real, y: State)
    requires |y| == 2
    ensures SquaredRadius(Turned(a, b, y)) == Mul(Mul(a, a) + Mul(b, b), SquaredRadius(y))
  {
    var x, y := y[0], y[1];
    assert (a * x - b * y) * (a * x - b * y) + (b * x + a * y) * (b * x + a * y) == (a * a + b * b) * (x * x + y * y);
  }

  lemma RungeKuttaRotates(w: real, h: real, t: real, y: State)
    requires |y| == 2
    ensures HasDimension(Rotation(w), 2)
    ensures var z := w * h;
            RungeKuttaStep(Rotation(w), h, t, y) == Turned(Cos4(z), Sin3(z), y)
  {
    RotatedStep(w, h, y[0], y[1]);
    hide Mul, Weigh, Cos4, Sin3;
    RotationDimension(w);
    var f := Rotation(w);
    var a1, b1 := -Mul(w, y[1]), Mul(w, y[0]);
    var k1 := f(t, y);
    assert k1 == [a1, b1];
    var a2, b2 := -Mul(w, y[1] + Mul(b1, h / 2.0)), Mul(w, y[0] + Mul(a1, h / 2.0));
    var k2 := f(t + h / 2.0, Sum(y, Scaled(h / 2.0, k1)));
    assert k2 == [a2, b2];
    var a3, b3 := -Mul(w, y[1] + Mul(b2, h / 2.0)), Mul(w, y[0] + Mul(a2, h / 2.0));
    var k3 := f(t + h / 2.0, Sum(y, Scaled(h / 2.0, k2)));
    assert k3 == [a3, b3];
    var a4, b4 := -Mul(w, y[1] + Mul(b3, h)), Mul(w, y[0] + Mul(a3, h));
    var k4 := f(t + h, Sum(y, Scaled(h, k3)));
    assert k4 == [a4, b4];
    var r := RungeKuttaStep(f, h, t, y);
    assert r == [r[0], r[1]] && r[0] == Weigh(y[0], h, a1, a2, a3, a4) && r[1] == Weigh(y[1], h, b1, b2, b3, b4);
  }

  lemma EulerRotates(w: real, h: real, t: real, y: State)
    requires |y| == 2
    ensures HasDimension(Rotation(w), 2)
    ensures var z := w * h; EulerStep(Rotation(w), h, t, y) == Turned(1.0, z, y)
  {
    RotationDimension(w);
    EulerComponents(w, h, y[0], y[1]);
    hide Mul;
    var k := Rotation(w)(t, y);
    assert k == [-Mul(w, y[1]), Mul(w, y[0])];
    var r := EulerStep(Rotation(w), h, t, y);
    assert r == [r[0], r[1]] && r[0] == y[0] + Mul(-Mul(w, y[1]), h) && r[1] == y[1] + Mul(Mul(w, y[0]), h);
  }

  lemma EulerComponents(w: real, h: real, x: real, y: real)
    ensures x + Mul(-Mul(w, y), h) == Mul(1.0, x) - Mul(w * h, y)
    ensures y + Mul(Mul(w, x), h) == Mul(w * h, x) + Mul(1.0, y)
  {
  }

  lemma RungeKuttaFactor(z: real)
    ensures Mul(Cos4(z), Cos4(z)) + Mul(Sin3(z), Sin3(z)) == Growth(RungeKutta4, z)
  {
  }

  lemma StepGrows(scheme: Scheme, w: real, h: real, t: real, y: State)
    requires |y| == 2
    ensures HasDimension(Rotation(w), 2)
    ensures SquaredRadius(Step(scheme, Rotation(w), h, t, y)) == Mul(Growth(scheme, w * h), SquaredRadius(y))
  {
    var z := w * h;
    RungeKuttaFactor(z);
    assert Mul(1.0, 1.0) + Mul(z, z) == Growth(ForwardEuler, z);
    hide Mul, Cos4, Sin3, Growth, RungeKuttaStep, EulerStep, SquaredRadius, Turned, Rotation;
    match scheme
    case RungeKutta4 =>
      TurnedRadius(Cos4(z), Sin3(z), y);
      RungeKuttaRotates(w, h, t, y);
      assert Step(scheme, Rotation(w), h, t, y) == Turned(Cos4(z), Sin3(z), y);
    case ForwardEuler =>
      TurnedRadius(1.0, z, y);
      EulerRotates(w, h, t, y);
      assert Step(scheme, Rotation(w), h, t, y) == Turned(1.0, z, y);
  }

  // ---------------------------------------------------------------- many steps

  function Power(b: real, n: nat): real {
    if n == 0 then 1.0 else Mul(b, Power(b, n - 1))
  }

  /** After `n` steps the squared radius is multiplied by the n-th power of the factor. */
  lemma {:induction false} StepsGrow(scheme: Scheme, w: real, h: real, t: real, y: State, n: nat)
    requires |y| == 2
    ensures HasDimension(Rotation(w), 2)
    ensures SquaredRadius(Steps(scheme, Rotation(w), h, t, y, n)) == Mul(Power(Growth(scheme, w * h), n), SquaredRadius(y))
  {
    hide Step, Growth, SquaredRadius, Rotation, Mul;
    RotationDimension(w);
    Associates(1.0, 1.0, SquaredRadius(y));
    if n > 0 {
      StepsGrow(scheme, w, h, t, y, n - 1);
      StepGrows(scheme, w, h, TimeAfter(t, h, n - 1), Steps(scheme, Rotation(w), h, t, y, n - 1));
      Associates(Growth(scheme, w * h), Power(Growth(scheme, w * h), n - 1), SquaredRadius(y));
    }
  }

  lemma Associates(a: real, b: real, c: real)
    ensures Mul(a, Mul(b, c)) == Mul(Mul(a, b), c) && Mul(1.0, c) == c
  {
  }

  lemma Powers(z: real)
    ensures Mul(Mul(z * z, z * z), z * z) == z * z * z * z * z * z
    ensures Mul(z * z * z * z * z * z, z * z - 8.0) == z * z * z * z * z * z * z * z - 8.0 * (z * z * z * z * z * z)
  {
  }

  lemma Sextic(z: real)
    ensures var q := Mul(z, z); Growth(RungeKutta4, z) == 1.0 + Mul(Mul(Mul(q, q), q), q - 8.0) / 576.0
  {
    Powers(z);
    assert Mul(z, z) == z * z;
    hide Mul;
  }

  /** What the sign of a product of named factors is. */
  lemma Signs(a: real, b: real)
    ensures a > 0.0 && b > 0.0 ==> Mul(a, b) > 0.0
    ensures a >= 0.0 && b >= 0.0 ==> Mul(a, b) >= 0.0
    ensures a == 0.0 ==> Mul(a, b) == 0.0
    ensures a > 0.0 ==> (Mul(a, b) <= 0.0 <==> b <= 0.0)
    ensures Mul(-a, -b) == Mul(a, b)
  {
  }

  /** The Runge-Kutta factor is at most 1 exactly when w h is in the region of stability. */
  lemma StableFactor(z: real)
    ensures Growth(RungeKutta4, z) >= 0.0
    ensures Growth(RungeKutta4, z) <= 1.0 <==> Mul(z, z) <= 8.0
  {
    RungeKuttaFactor(z);
    Sextic(z);
    hide Growth, Cos4, Sin3, Mul;
    SquareSign(Cos4(z));
    SquareSign(Sin3(z));
    SquareSign(z);
    var q := Mul(z, z);
    Signs(q, q);
    Signs(Mul(q, q), q);
    Signs(Mul(Mul(q, q), q), q - 8.0);
  }

  lemma SquareSign(z: real)
    ensures Mul(z, z) >= 0.0 && (Mul(z, z) == 0.0 <==> z == 0.0)
  {
    hide Mul;
    Signs(z, z);
    Signs(-z, -z);
  }

  lemma {:induction false} PowerBound(b: real, n: nat)
    requires b >= 0.0
    ensures Power(b, n) >= 0.0
    ensures b <= 1.0 ==> Power(b, n) <= 1.0
    ensures b > 1.0 && n > 0 ==> Power(b, n) > 1.0
  {
    if n > 0 {
      PowerBound(b, n - 1);
      Product(b, Power(b, n - 1));
    }
  }

  lemma Product(a: real, b: real)
    requires a >= 0.0 && b >= 0.0
    ensures Mul(a, b) >= 0.0
    ensures a <= 1.0 && b <= 1.0 ==> Mul(a, b) <= 1.0
    ensures a > 1.0 && b >= 1.0 ==> Mul(a, b) > 1.0
  {
    Signs(a, b);
    Signs(1.0 - a, b);
    Signs(a - 1.0, b);
    assert Mul(1.0 - a, b) == b - Mul(a, b) && Mul(a - 1.0, b) == Mul(a, b) - b;
    hide Mul;
  }

  /** The radius that Runge-Kutta computes does not grow, if and only if (w h)^2 <= 8. */
  lemma RungeKuttaStable(w: real, h: real, t: real, y: State, n: nat)
    requires |y| == 2 && SquaredRadius(y) > 0.0 && n > 0
    ensures HasDimension(Rotation(w), 2)
    ensures SquaredRadius(Steps(RungeKutta4, Rotation(w), h, t, y, n)) <= SquaredRadius(y) <==> (w * h) * (w * h) <= 8.0
  {
    var g := Growth(RungeKutta4, w * h);
    StableFactor(w * h);
    assert Mul(w * h, w * h) == (w * h) * (w * h);
    hide Growth, Steps, SquaredRadius, Rotation, Mul;
    PowerBound(g, n);
    StepsGrow(RungeKutta4, w, h, t, y, n);
    Scale(Power(g, n), SquaredRadius(y));
  }

  /** The radius that Forward Euler computes grows in every run, unless nothing moves. */
  lemma EulerGrows(w: real, h: real, t: real, y: State, n: nat)
    requires |y| == 2 && SquaredRadius(y) > 0.0 && n > 0
    ensures HasDimension(Rotation(w), 2)
    ensures SquaredRadius(Steps(ForwardEuler, Rotation(w), h, t, y, n)) > SquaredRadius(y) <==> w * h != 0.0
  {
    var z := w * h;
    var g := Growth(ForwardEuler, z);
    SquareSign(z);
    assert g == 1.0 + Mul(z, z);
    hide Growth, Steps, SquaredRadius, Rotation, Mul;
    PowerBound(g, n);
    StepsGrow(ForwardEuler, w, h, t, y, n);
    Scale(Power(g, n), SquaredRadius(y));
  }

  lemma Scale(a: real, r: real)
    requires r > 0.0
    ensures Mul(a, r) <= r <==> a <= 1.0
  {
    Signs(r, a - 1.0);
    assert Mul(r, a - 1.0) == Mul(a, r) - r;
    hide Mul;
  }
}
