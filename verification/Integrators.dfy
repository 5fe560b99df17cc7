/** The numerical integrators of the examples, over the real numbers. */
module Integrators {

  type State = seq<real>
  type SystemODE = (real, State) --> State

  // ---------------------------------------------------------------- vectors

  function Sum(v1: State, v2: State): State
    requires |v1| == |v2|
  {
    seq(|v1|, i requires 0 <= i < |v1| => v1[i] + v2[i])
  }

  /** Products of variables, by name, so that proofs about vectors can leave them alone. */
  function Mul(a: real, b: real): real {
    a * b
  }

  function Scaled(s: real, v: State): State {
    seq(|v|, i requires 0 <= i < |v| => Mul(v[i], s))
  }

  method Add(v1: State, v2: State) returns (result: State)
    requires |v1| == |v2|
    ensures result == Sum(v1, v2)
  {
    result := v1;
    for i := 0 to |v1|
      invariant |result| == |v1|
      invariant forall k | 0 <= k < |v1| :: result[k] == if k < i then v1[k] + v2[k] else v1[k]
    {
      result := result[i := result[i] + v2[i]];
    }
  }

  method Times(s: real, v: State) returns (result: State)
    ensures result == Scaled(s, v)
  {
    result := v;
    for i := 0 to |v|
      invariant |result| == |v|
      invariant forall k | 0 <= k < |v| :: result[k] == if k < i then v[k] * s else v[k]
    {
      result := result[i := result[i] * s];
    }
    assert forall k | 0 <= k < |v| :: result[k] == Scaled(s, v)[k];
  }

  // ---------------------------------------------------------------- one step

  datatype Scheme = RungeKutta4 | ForwardEuler

  /** The system has `d` components. */
  ghost predicate HasDimension(f: SystemODE, d: nat) {
    forall t: real, y: State | |y| == d :: f.requires(t, y) && |f(t, y)| == d
  }

  ghost function EulerStep(f: SystemODE, h: real, t: real, y: State): (r: State)
    requires HasDimension(f, |y|)
    ensures |r| == |y|
  {
    Sum(y, Scaled(h, f(t, y)))
  }

  /** The mean slope with the weights 1, 2, 2 and 1, followed for a time `h`. */
  function Weigh(y: real, h: real, k1: real, k2: real, k3: real, k4: real): real {
    y + h / 6.0 * (k1 + 2.0 * k2 + 2.0 * k3 + k4)
  }

  function Combined(y: State, h: real, k1: State, k2: State, k3: State, k4: State): (r: State)
    requires |k1| == |k2| == |k3| == |k4| == |y|
    ensures |r| == |y|
  {
    seq(|y|, i requires 0 <= i < |y| => Weigh(y[i], h, k1[i], k2[i], k3[i], k4[i]))
  }

  /** The classical Runge-Kutta tableau: slopes at the start, twice in the middle and at the end. */
  ghost function RungeKuttaStep(f: SystemODE, h: real, t: real, y: State): (r: State)
    requires HasDimension(f, |y|)
    ensures |r| == |y|
  {
    var k1 := f(t, y);
    var k2 := f(t + h / 2.0, Sum(y, Scaled(h / 2.0, k1)));
    var k3 := f(t + h / 2.0, Sum(y, Scaled(h / 2.0, k2)));
    var k4 := f(t + h, Sum(y, Scaled(h, k3)));
    Combined(y, h, k1, k2, k3, k4)
  }

  ghost function Step(scheme: Scheme, f: SystemODE, h: real, t: real, y: State): (r: State)
    requires HasDimension(f, |y|)
    ensures |r| == |y|
  {
    match scheme
    case RungeKutta4 => RungeKuttaStep(f, h, t, y)
    case ForwardEuler => EulerStep(f, h, t, y)
  }

  function TimeAfter(t: real, h: real, n: nat): real {
    t + n as real * h
  }

  lemma NextTime(t: real, h: real, n: nat)
    ensures TimeAfter(t, h, n) + h == TimeAfter(t, h, n + 1) && TimeAfter(t, h, 0) == t
  {
  }

  /** The state after `n` steps. */
  ghost function Steps(scheme: Scheme, f: SystemODE, h: real, t: real, y: State, n: nat): (r: State)
    requires HasDimension(f, |y|)
    ensures |r| == |y|
  {
    if n == 0 then y else Step(scheme, f, h, TimeAfter(t, h, n - 1), Steps(scheme, f, h, t, y, n - 1))
  }

  // ---------------------------------------------------------------- the plugins

  /** The two integrator plugins differ in `Integrate` only, which `scheme` selects. */
  class Integrator {
    const scheme: Scheme
    var timeStep: real
    var system: SystemODE

    constructor (scheme: Scheme, system: SystemODE)
      ensures this.scheme == scheme && this.system == system
    {
      this.scheme, this.system := scheme, system;
    }

    method SetFunction(system: SystemODE)
      modifies this`system
      ensures this.system == system
    {
      this.system := system;
    }

    method SetTimeStep(step: real) returns (accepted: bool)
      modifies this`timeStep
      ensures accepted <==> step > 0.0
      ensures timeStep == if step > 0.0 then step else old(timeStep)
    {
      if step <= 0.0 {
        return false;
      }
      timeStep := step;
      return true;
    }

    method Integrate(currentTime: real, y: State) returns (r: State)
      requires HasDimension(system, |y|)
      ensures r == Step(scheme, system, timeStep, currentTime, y)
    {
      if scheme == ForwardEuler {
        var k1 := system(currentTime, y);
        var increment := Times(timeStep, k1);
        r := Add(y, increment);
      } else {
        r := RungeKutta(system, timeStep, currentTime, y);
      }
    }
  }

  method RungeKutta(f: SystemODE, h: real, tn: real, yn: State) returns (r: State)
    requires HasDimension(f, |yn|)
    ensures r == RungeKuttaStep(f, h, tn, yn)
  {
    var k1 := f(tn, yn);
    var d1 := Times(h / 2.0, k1);
    var y1 := Add(yn, d1);
    var k2 := f(tn + h / 2.0, y1);
    var d2 := Times(h / 2.0, k2);
    var y2 := Add(yn, d2);
    var k3 := f(tn + h / 2.0, y2);
    var d3 := Times(h, k3);
    var y3 := Add(yn, d3);
    var k4 := f(tn + h, y3);
    r := Weighted(yn, h, k1, k2, k3, k4);
  }

  /** The nested expression at the end of `Integrate`. */
  method Weighted(yn: State, h: real, k1: State, k2: State, k3: State, k4: State) returns (r: State)
    requires |k1| == |k2| == |k3| == |k4| == |yn|
    ensures r == Combined(yn, h, k1, k2, k3, k4)
  {
    var twice3 := Times(2.0, k3);
    var last := Add(twice3, k4);
    var twice2 := Times(2.0, k2);
    var rest := Add(twice2, last);
    var slopes := Add(k1, rest);
    var increment := Times(h / 6.0, slopes);
    r := Add(yn, increment);
    forall i | 0 <= i < |yn|
      ensures r[i] == Combined(yn, h, k1, k2, k3, k4)[i]
    {
      assert slopes[i] == k1[i] + 2.0 * k2[i] + 2.0 * k3[i] + k4[i];
      Commutes(slopes[i], h / 6.0);
    }
  }

  lemma Commutes(a: real, b: real)
    ensures a * b == b * a
  {
  }

  /** The loop of `TestIntegrator`; a step that is not positive leaves the old one in force. */
  method TestIntegrator(integrator: Integrator, ode: SystemODE, initialTime: real, initialState: State, timeStep: real, numSteps: nat)
      returns (time: real, state: State)
    requires HasDimension(ode, |initialState|)
    modifies integrator
    ensures integrator.timeStep == if timeStep > 0.0 then timeStep else old(integrator.timeStep)
    ensures time == TimeAfter(initialTime, integrator.timeStep, numSteps)
    ensures state == Steps(integrator.scheme, ode, integrator.timeStep, initialTime, initialState, numSteps)
  {
    hide TimeAfter, Step;
    integrator.SetFunction(ode);
    var accepted := integrator.SetTimeStep(timeStep);
    time, state := initialTime, initialState;
    NextTime(initialTime, integrator.timeStep, 0);
    for i := 0 to numSteps
      invariant integrator.system == ode && integrator.timeStep == if timeStep > 0.0 then timeStep else old(integrator.timeStep)
      invariant time == TimeAfter(initialTime, integrator.timeStep, i)
      invariant state == Steps(integrator.scheme, ode, integrator.timeStep, initialTime, initialState, i)
    {
      state := integrator.Integrate(time, state);
      NextTime(initialTime, integrator.timeStep, i);
      time := time + integrator.timeStep;
    }
  }
}
