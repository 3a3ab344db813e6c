/** The bookkeeping of the position-based dynamics solver: the constraint
    projections, which write into the caller's position buffer, and the step
    counter and simulation clock of `PbdSolver`. */
module Pbd {

  /** `glm::vec3` with the float components read as reals. */
  datatype Vec3 = Vec3(x: real, y: real, z: real)

  /** The three constraint kinds. `Stretch` and `Bend` carry their
      parameters but their projections are still to be written in the source. */
  datatype Constraint =
    | Attach(i: nat, p: Vec3)                                       // vertex id, fixed position
    | Stretch(i: nat, j: nat, d: real, k: real)                     // two vertices, rest length, stiffness
    | Bend(i1: nat, i2: nat, i3: nat, i4: nat, phi: real, k: real)  // two triangles, rest angle, stiffness

  /** A constraint's vertex ids all index the buffer. */
  predicate Fits(c: Constraint, n: nat)
  {
    match c
    case Attach(i, _) => i < n
    case Stretch(i, j, _, _) => true
    case Bend(_, _, _, _, _, _) => true
  }

  /** The positions after projecting `c`: an attachment pins its vertex to
      its fixed position; the other kinds leave every position alone. */
  function Projected(c: Constraint, x: seq<Vec3>): (r: seq<Vec3>)
    requires Fits(c, |x|)
    ensures |r| == |x|
    ensures c.Attach? ==> r[c.i] == c.p
    ensures forall k :: 0 <= k < |x| && !(c.Attach? && k == c.i) ==> r[k] == x[k]
  {
    match c
    case Attach(i, p) => x[i := p]
    case Stretch(_, _, _, _) => x
    case Bend(_, _, _, _, _, _) => x
  }

  /** Projecting the same constraint twice gives the positions of one
      projection. */
  lemma ProjectedIdempotent(c: Constraint, x: seq<Vec3>)
    requires Fits(c, |x|)
    ensures Projected(c, Projected(c, x)) == Projected(c, x)
  {
  }

  /** Two attachments of different vertices commute. */
  lemma AttachmentsCommute(a: Constraint, b: Constraint, x: seq<Vec3>)
    requires a.Attach? && b.Attach? && a.i != b.i
    requires Fits(a, |x|) && Fits(b, |x|)
    ensures Projected(a, Projected(b, x)) == Projected(b, Projected(a, x))
  {
  }

  /** `Constraint::project(x, w)`, dispatched on the constraint kind: writes
      the projected positions into the caller's buffer in place. The inverse
      masses `w` are read-only. */
  method Project(c: Constraint, x: array<Vec3>, w: seq<real>)
    requires Fits(c, x.Length)
    modifies x
    ensures x[..] == Projected(c, old(x[..]))
  {
    match c
    case Attach(i, p) =>
      x[i] := p;
    case Stretch(_, _, _, _) =>
    case Bend(_, _, _, _, _, _) =>
  }

  /** `PbdSolver`: the particle state, the constraint list, and the step
      counter and simulation clock that `step` advances. */
  class PbdSolver {
    var x: seq<Vec3>                  // position
    var v: seq<Vec3>                  // velocity
    var f: seq<Vec3>                  // force
    var w: seq<real>                  // mass inverse
    var constraints: seq<Constraint>

    var g: Vec3                       // gravity
    var step: nat                     // step count
    var simT: real                    // simulation time

    var ns: nat                       // solver iterations
    var kStretch: real
    var kBend: real
    var kDamp: real

    /** `PbdSolver(num_solve, k_stretch, k_bend, k_damp, gravity)`: the clock
        starts at step 0, time 0. */
    constructor (numSolve: nat, kStretch: real, kBend: real, kDamp: real, gravity: Vec3)
      ensures step == 0 && simT == 0.0
      ensures g == gravity && ns == numSolve
      ensures this.kStretch == kStretch && this.kBend == kBend && this.kDamp == kDamp
      ensures x == [] && v == [] && f == [] && w == [] && constraints == []
    {
      g := gravity;
      step := 0;
      simT := 0.0;
      ns := numSolve;
      this.kStretch, this.kBend, this.kDamp := kStretch, kBend, kDamp;
      x, v, f, w, constraints := [], [], [], [], [];
    }

    /** `initSim(mesh)`: the clock reset and the copy of the mesh's vertex
        positions, passed in as `positions`. */
    method InitSim(positions: seq<Vec3>)
      modifies this`step, this`simT, this`x
      ensures step == 0 && simT == 0.0
      ensures x == positions
    {
      step := 0;
      simT := 0.0;
      x := positions;
    }

    /** `step(dt)`: one more step, dt more simulated time, nothing else. */
    method Step(dt: real)
      modifies this`step, this`simT
      ensures step == old(step) + 1
      ensures simT == old(simT) + dt
    {
      step := step + 1;
      simT := simT + dt;
    }
  }

  /** A caller that resets the solver on a mesh and then calls `step(dt)` n
      times: the counter reads n, the clock n*dt, and the positions are the
      mesh's, since neither the empty solver routine nor the counters touch
      them. */
  method RunSteps(s: PbdSolver, positions: seq<Vec3>, n: nat, dt: real)
    modifies s`step, s`simT, s`x
    ensures s.step == n
    ensures s.simT == n as real * dt
    ensures s.x == positions
  {
    s.InitSim(positions);
    for m := 0 to n
      invariant s.step == m
      invariant s.simT == m as real * dt
      invariant s.x == positions
    {
      s.Step(dt);
    }
  }
}
