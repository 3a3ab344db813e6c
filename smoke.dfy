/** The scene logic of the Eulerian smoke solver: cell classification, the
    smoke source, and the per-step update. The physics stages of the solver
    are empty in the source and are modelled as methods that change nothing. */
module Smoke {
  import opened Grid

  /** `glm::vec2` with the float components read as reals. */
  datatype Vec2 = Vec2(x: real, y: real)

  /** Cell types stored in the cell-type grid. */
  const OpenBoundary: int := 0
  const Fluid: int := 1

  /** The outer ring of an rx-by-ry grid. */
  predicate OnRing(rx: int, ry: int, i: int, j: int)
  {
    i == 0 || i == rx - 1 || j == 0 || j == ry - 1
  }

  /** The cell-type vector of an rx-by-ry scene, in row-major order:
      open boundary on the outer ring, fluid everywhere else. */
  function CellTypes(rx: nat, ry: nat): (cells: seq<int>)
    ensures |cells| == rx * ry
  {
    seq(rx * ry, n requires 0 <= n < rx * ry =>
      if OnRing(rx, ry, n % rx, n / rx) then OpenBoundary else Fluid)
  }

  /** The strict box test of `addSource`: cell (i, j) is filled when its
      index lies strictly between the box bounds shifted by -0.5. */
  predicate InSource(i: int, j: int, cen: Vec2, size: Vec2)
  {
    i as real > cen.x - 0.5 - size.x &&
    i as real < cen.x - 0.5 + size.x &&
    j as real > cen.y - 0.5 - size.y &&
    j as real < cen.y - 0.5 + size.y
  }

  /** A density vector of an rx-wide grid after source injection: 1.0 in
      every cell inside the box, the old value everywhere else. */
  function SourceApplied(s: seq<real>, rx: nat, ry: nat, cen: Vec2, size: Vec2): (r: seq<real>)
    requires |s| == rx * ry
    ensures |r| == |s|
  {
    seq(|s|, n requires 0 <= n < |s| =>
      if InSource(n % rx, n / rx, cen, size) then 1.0 else s[n])
  }

  /** The density of a freshly initialised scene: the source box over zeros. */
  function InitialDensity(rx: nat, ry: nat, cen: Vec2, size: Vec2): (r: seq<real>)
    ensures |r| == rx * ry
  {
    SourceApplied(seq(rx * ry, _ => 0.0), rx, ry, cen, size)
  }

  // ---------------------------------------------------------------------------
  // Properties of the scene specification
  // ---------------------------------------------------------------------------

  /** Cell (i, j) is open boundary exactly on the outer ring and fluid
      everywhere else. */
  lemma CellTypesAt(rx: nat, ry: nat, i: int, j: int)
    requires 0 <= i < rx && 0 <= j < ry
    ensures 0 <= j * rx + i < |CellTypes(rx, ry)|
    ensures CellTypes(rx, ry)[j * rx + i] == OpenBoundary <==>
            (i == 0 || i == rx - 1 || j == 0 || j == ry - 1)
    ensures CellTypes(rx, ry)[j * rx + i] == Fluid <==>
            (0 < i < rx - 1 && 0 < j < ry - 1)
  {
    RowMajor(rx, ry, i, j);
  }

  /** A scene at most two cells wide or high has no fluid cell at all. */
  lemma ThinSceneHasNoFluid(rx: nat, ry: nat)
    requires rx <= 2 || ry <= 2
    ensures forall n :: 0 <= n < |CellTypes(rx, ry)| ==> CellTypes(rx, ry)[n] == OpenBoundary
  {
    forall n | 0 <= n < |CellTypes(rx, ry)|
      ensures CellTypes(rx, ry)[n] == OpenBoundary
    {
      RowMajorOnto(rx, ry, n);
    }
  }

  /** The smallest scene with fluid: in a 3-by-3 grid only the centre cell
      (1, 1) is fluid. */
  lemma ThreeByThreeScene()
    ensures CellTypes(3, 3) == [0, 0, 0, 0, 1, 0, 0, 0, 0]
  {
  }

  /** Cell (i, j) after injection: 1.0 inside the box, unchanged outside. */
  lemma SourceAppliedAt(s: seq<real>, rx: nat, ry: nat, cen: Vec2, size: Vec2, i: int, j: int)
    requires |s| == rx * ry && 0 <= i < rx && 0 <= j < ry
    ensures 0 <= j * rx + i < |s|
    ensures SourceApplied(s, rx, ry, cen, size)[j * rx + i] ==
            if InSource(i, j, cen, size) then 1.0 else s[j * rx + i]
  {
    RowMajor(rx, ry, i, j);
  }

  /** Injecting the source a second time changes nothing. */
  lemma SourceAppliedIdempotent(s: seq<real>, rx: nat, ry: nat, cen: Vec2, size: Vec2)
    requires |s| == rx * ry
    ensures SourceApplied(SourceApplied(s, rx, ry, cen, size), rx, ry, cen, size) ==
            SourceApplied(s, rx, ry, cen, size)
  {
  }

  /** The reference scene's box (centre (16, 7), half-size (3, 3)) covers
      columns 13 to 18 and rows 4 to 9. */
  lemma ReferenceSourceBox(i: int, j: int)
    ensures InSource(i, j, Vec2(16.0, 7.0), Vec2(3.0, 3.0)) <==> 13 <= i <= 18 && 4 <= j <= 9
  {
  }

  /** The reference scene (32 by 64) starts with density 1.0 in exactly the
      6-by-6 block of columns 13 to 18 and rows 4 to 9, and 0 elsewhere. */
  lemma ReferenceInitialDensity(i: int, j: int)
    requires 0 <= i < 32 && 0 <= j < 64
    ensures 0 <= j * 32 + i < |InitialDensity(32, 64, Vec2(16.0, 7.0), Vec2(3.0, 3.0))|
    ensures InitialDensity(32, 64, Vec2(16.0, 7.0), Vec2(3.0, 3.0))[j * 32 + i] ==
            if 13 <= i <= 18 && 4 <= j <= 9 then 1.0 else 0.0
  {
    SourceAppliedAt(seq(32 * 64, _ => 0.0), 32, 64, Vec2(16.0, 7.0), Vec2(3.0, 3.0), i, j);
    ReferenceSourceBox(i, j);
  }

  /** The density after n calls of `update()` starting from density s: each
      call injects the source once. */
  function DensityAfterUpdates(s: seq<real>, rx: nat, ry: nat, cen: Vec2, size: Vec2, n: nat): (r: seq<real>)
    requires |s| == rx * ry
    ensures |r| == |s|
    decreases n
  {
    if n == 0 then s
    else SourceApplied(DensityAfterUpdates(s, rx, ry, cen, size, n - 1), rx, ry, cen, size)
  }

  /** Any positive number of updates amounts to a single injection. */
  lemma {:induction false} UpdatesInjectOnce(s: seq<real>, rx: nat, ry: nat, cen: Vec2, size: Vec2, n: nat)
    requires |s| == rx * ry && 0 < n
    ensures DensityAfterUpdates(s, rx, ry, cen, size, n) == SourceApplied(s, rx, ry, cen, size)
  {
    if 1 < n {
      UpdatesInjectOnce(s, rx, ry, cen, size, n - 1);
      SourceAppliedIdempotent(s, rx, ry, cen, size);
    }
  }

  /** From a freshly initialised scene, any number of updates leaves the
      density as it was. */
  lemma {:induction false} UpdatesKeepInitialDensity(rx: nat, ry: nat, cen: Vec2, size: Vec2, n: nat)
    ensures DensityAfterUpdates(InitialDensity(rx, ry, cen, size), rx, ry, cen, size, n) ==
            InitialDensity(rx, ry, cen, size)
  {
    if 0 < n {
      UpdatesKeepInitialDensity(rx, ry, cen, size, n - 1);
      SourceAppliedIdempotent(seq(rx * ry, _ => 0.0), rx, ry, cen, size);
    }
  }

  // ---------------------------------------------------------------------------
  // Loop bookkeeping: the first k cells (row-major) are done, the rest untouched
  // ---------------------------------------------------------------------------


  /** The cell types after the first k cells (row-major) of the edge loop:
      classified below k, still fluid from k on. */
  ghost function ClassifiedPrefix(rx: nat, ry: nat, k: int): (r: seq<int>)
    ensures |r| == rx * ry
  {
    seq(rx * ry, n requires 0 <= n < rx * ry => if n < k then CellTypes(rx, ry)[n] else Fluid)
  }

  lemma ClassifyStep(rx: nat, ry: nat, i: int, j: int, k: int)
    requires 0 <= i < rx && 0 <= j < ry && k == j * rx + i
    ensures 0 <= k < rx * ry
    ensures ClassifiedPrefix(rx, ry, k + 1) ==
            if OnRing(rx, ry, i, j) then ClassifiedPrefix(rx, ry, k)[k := OpenBoundary]
            else ClassifiedPrefix(rx, ry, k)
  {
    RowMajor(rx, ry, i, j);
    var next := ClassifiedPrefix(rx, ry, k + 1);
    var prev := ClassifiedPrefix(rx, ry, k);
    var stepped := if OnRing(rx, ry, i, j) then prev[k := OpenBoundary] else prev;
    forall n | 0 <= n < rx * ry
      ensures next[n] == stepped[n]
    {
      if n == k {
        assert CellTypes(rx, ry)[k] == if OnRing(rx, ry, i, j) then OpenBoundary else Fluid;
      }
    }
    assert next == stepped;
  }

  /** Before the edge loop every cell is fluid; after it, the cell types. */
  lemma ClassifiedPrefixEnds(rx: nat, ry: nat, s: seq<int>)
    requires |s| == rx * ry && forall n :: 0 <= n < |s| ==> s[n] == Fluid
    ensures s == ClassifiedPrefix(rx, ry, 0)
    ensures ClassifiedPrefix(rx, ry, rx * ry) == CellTypes(rx, ry)
  {
  }

  /** A finished row of rx cells moves the row-major counter to the next row. */
  lemma NextRow(rx: nat, j: nat, k: int)
    requires k == j * rx + rx
    ensures k == (j + 1) * rx
  {
  }

  /** The density after the first k cells (row-major) of the injection loop. */
  ghost function InjectedPrefix(s0: seq<real>, rx: nat, ry: nat, cen: Vec2, size: Vec2, k: int): (r: seq<real>)
    requires |s0| == rx * ry
    ensures |r| == |s0|
  {
    seq(|s0|, n requires 0 <= n < |s0| =>
      if n < k then SourceApplied(s0, rx, ry, cen, size)[n] else s0[n])
  }

  lemma InjectStep(s0: seq<real>, rx: nat, ry: nat, cen: Vec2, size: Vec2, i: int, j: int, k: int)
    requires |s0| == rx * ry && 0 <= i < rx && 0 <= j < ry && k == j * rx + i
    ensures 0 <= k < |s0|
    ensures InjectedPrefix(s0, rx, ry, cen, size, k + 1) ==
            if InSource(i, j, cen, size) then InjectedPrefix(s0, rx, ry, cen, size, k)[k := 1.0]
            else InjectedPrefix(s0, rx, ry, cen, size, k)
  {
    RowMajor(rx, ry, i, j);
    var next := InjectedPrefix(s0, rx, ry, cen, size, k + 1);
    var prev := InjectedPrefix(s0, rx, ry, cen, size, k);
    var stepped := if InSource(i, j, cen, size) then prev[k := 1.0] else prev;
    forall n | 0 <= n < |s0|
      ensures next[n] == stepped[n]
    {
      if n == k {
        assert SourceApplied(s0, rx, ry, cen, size)[k] == if InSource(i, j, cen, size) then 1.0 else s0[k];
      }
    }
    assert next == stepped;
  }

  /** Before the injection loop nothing is injected; after it, all of the box. */
  lemma InjectedPrefixEnds(s0: seq<real>, rx: nat, ry: nat, cen: Vec2, size: Vec2)
    requires |s0| == rx * ry
    ensures InjectedPrefix(s0, rx, ry, cen, size, 0) == s0
    ensures InjectedPrefix(s0, rx, ry, cen, size, rx * ry) == SourceApplied(s0, rx, ry, cen, size)
  {
  }

  // ---------------------------------------------------------------------------
  // SmokeSolver
  // ---------------------------------------------------------------------------

  /** `SmokeSolver`. The seven grids are members of the solver object in the
      source, so they are distinct objects fixed for the solver's lifetime. */
  class SmokeSolver {
    var resX: nat
    var resY: nat
    var srcCen: Vec2
    var srcSize: Vec2

    const c: Grid2<int>   // cell type
    const u: Grid2<real>  // velocity u
    const v: Grid2<real>  // velocity v
    const fx: Grid2<real> // force in x
    const fy: Grid2<real> // force in y
    const p: Grid2<real>  // pressure
    const d: Grid2<real>  // smoke density

    const dt: real        // time step
    const g: Vec2         // gravity
    const buoy: real      // buoyancy factor

    ghost predicate Distinct()
      reads this
    {
      u != v && u != fx && u != fy && u != p && u != d &&
      v != fx && v != fy && v != p && v != d &&
      fx != fy && fx != p && fx != d &&
      fy != p && fy != d &&
      p != d
    }

    /** A grid of the solver's resolution holding one element per cell. */
    ghost predicate Shaped<T>(grid: Grid2<T>)
      reads this, grid
    {
      grid.Valid() && grid.sizeX == resX && grid.sizeY == resY
    }

    /** All seven grids share the solver's resolution. */
    ghost predicate Valid()
      reads this, c, u, v, fx, fy, p, d
    {
      Distinct() &&
      Shaped(c) && Shaped(u) && Shaped(v) && Shaped(fx) && Shaped(fy) && Shaped(p) && Shaped(d)
    }

    /** The state `initScene` leaves: zero velocity, force and pressure, the
        ring classification, and the source box over zero density. */
    ghost predicate Initialized()
      reads this, c, u, v, fx, fy, p, d
    {
      Valid() &&
      u.AllCells(0.0) && v.AllCells(0.0) && fx.AllCells(0.0) && fy.AllCells(0.0) && p.AllCells(0.0) &&
      c.data == CellTypes(resX, resY) &&
      d.data == InitialDensity(resX, resY, srcCen, srcSize)
    }

    /** `SmokeSolver(dt, g, buoy)`: seven empty grids. */
    constructor (dt: real, g: Vec2, buoy: real)
      ensures Valid() && resX == 0 && resY == 0
      ensures this.dt == dt && this.g == g && this.buoy == buoy
      ensures fresh(c) && fresh(u) && fresh(v) && fresh(fx) && fresh(fy) && fresh(p) && fresh(d)
    {
      this.dt := dt;
      this.g := g;
      this.buoy := buoy;
      c := new Grid2(0, 0, 0);
      u := new Grid2(0, 0, 0.0);
      v := new Grid2(0, 0, 0.0);
      fx := new Grid2(0, 0, 0.0);
      fy := new Grid2(0, 0, 0.0);
      p := new Grid2(0, 0, 0.0);
      d := new Grid2(0, 0, 0.0);
      resX, resY := 0, 0;
      srcCen, srcSize := Vec2(0.0, 0.0), Vec2(0.0, 0.0);
    }

    /** `initScene(res_x, res_y, src_cen, src_size)`. */
    method InitScene(resX': nat, resY': nat, cen: Vec2, size: Vec2)
      requires Valid()
      modifies this, c, u, v, fx, fy, p, d
      ensures Initialized()
      ensures resX == resX' && resY == resY' && srcCen == cen && srcSize == size
    {
      resX := resX';
      resY := resY';

      c.Init(resX', resY', 0);
      u.Init(resX', resY', 0.0);
      v.Init(resX', resY', 0.0);
      fx.Init(resX', resY', 0.0);
      fy.Init(resX', resY', 0.0);
      p.Init(resX', resY', 0.0);
      d.Init(resX', resY', 0.0);

      srcCen := cen;
      srcSize := size;

      ClassifyCells(resX', resY');

      AddSource(d, srcCen, srcSize);
    }

    /** The cell-type loop of `initScene`: every cell is set to fluid, then
        each cell of the outer ring is overwritten with open boundary. */
    method ClassifyCells(rx: nat, ry: nat)
      requires c.sizeX == rx && c.sizeY == ry
      modifies c`data
      ensures c.data == CellTypes(rx, ry)
    {
      c.Fill(Fluid);
      ClassifiedPrefixEnds(rx, ry, c.data);
      ghost var k := 0;
      for j := 0 to ry
        invariant k == j * rx
        invariant c.sizeX == rx && c.sizeY == ry
        invariant c.data == ClassifiedPrefix(rx, ry, k)
      {
        for i := 0 to rx
          invariant k == j * rx + i
          invariant c.sizeX == rx && c.sizeY == ry
          invariant c.data == ClassifiedPrefix(rx, ry, k)
        {
          ClassifyCell(rx, ry, i, j, k);
          k := k + 1;
        }
        NextRow(rx, j, k);
      }
    }

    /** `addSource(d, src_cen, src_size)`: density 1.0 in every cell of the
        box, over the solver's resolution; every other cell is left alone. */
    method AddSource(dg: Grid2<real>, cen: Vec2, size: Vec2)
      requires Shaped(dg)
      modifies dg`data
      ensures Shaped(dg)
      ensures dg.data == SourceApplied(old(dg.data), resX, resY, cen, size)
    {
      ghost var s0 := dg.data;
      var rx, ry := resX, resY;
      InjectedPrefixEnds(s0, rx, ry, cen, size);
      ghost var k := 0;
      for j := 0 to ry
        invariant k == j * rx
        invariant dg.sizeX == rx && dg.sizeY == ry
        invariant dg.data == InjectedPrefix(s0, rx, ry, cen, size, k)
      {
        for i := 0 to rx
          invariant k == j * rx + i
          invariant dg.sizeX == rx && dg.sizeY == ry
          invariant dg.data == InjectedPrefix(s0, rx, ry, cen, size, k)
        {
          InjectCell(dg, s0, rx, ry, cen, size, i, j, k);
          k := k + 1;
        }
        NextRow(rx, j, k);
      }
      InjectedPrefixEnds(s0, rx, ry, cen, size);
    }

    /** One pass of the edge loop's body at cell (i, j), the k-th cell in
        row-major order: the cell becomes open boundary when it lies on the
        outer ring, and is left fluid otherwise. */
    method ClassifyCell(rx: nat, ry: nat, i: int, j: int, ghost k: int)
      requires c.sizeX == rx && c.sizeY == ry
      requires 0 <= i < rx && 0 <= j < ry && k == j * rx + i
      requires c.data == ClassifiedPrefix(rx, ry, k)
      modifies c`data
      ensures c.data == ClassifiedPrefix(rx, ry, k + 1)
    {
      ClassifyStep(rx, ry, i, j, k);
      assert c.IndexTo1D(i, j) == k;
      ghost var before := c.data;
      ghost var marked := before[k := OpenBoundary];
      assert marked[k := OpenBoundary] == marked;
      if i == 0 { c.Set(i, j, OpenBoundary); }
      assert c.data == if i == 0 then marked else before;
      if i == rx - 1 { c.Set(i, j, OpenBoundary); }
      assert c.data == if i == 0 || i == rx - 1 then marked else before;
      if j == 0 { c.Set(i, j, OpenBoundary); }
      assert c.data == if i == 0 || i == rx - 1 || j == 0 then marked else before;
      if j == ry - 1 { c.Set(i, j, OpenBoundary); }
    }

    /** One pass of the injection loop's body at cell (i, j), the k-th cell
        in row-major order: density 1.0 when the cell lies in the box. */
    method InjectCell(dg: Grid2<real>, ghost s0: seq<real>, rx: nat, ry: nat, cen: Vec2, size: Vec2,
                      i: int, j: int, ghost k: int)
      requires dg.sizeX == rx && dg.sizeY == ry && |s0| == rx * ry
      requires 0 <= i < rx && 0 <= j < ry && k == j * rx + i
      requires dg.data == InjectedPrefix(s0, rx, ry, cen, size, k)
      modifies dg`data
      ensures dg.data == InjectedPrefix(s0, rx, ry, cen, size, k + 1)
    {
      InjectStep(s0, rx, ry, cen, size, i, j, k);
      assert dg.IndexTo1D(i, j) == k;
      if InSource(i, j, cen, size) {
        dg.Set(i, j, 1.0);
      }
    }

    /** `advectCentered`: empty in the source. */
    method AdvectCentered(f: Grid2<real>, vu: Grid2<real>, vv: Grid2<real>, step: real)
      modifies f
      ensures unchanged(f)
    {
    }

    /** `advectStaggered`: empty in the source. */
    method AdvectStaggered(fu: Grid2<real>, fv: Grid2<real>, vu: Grid2<real>, vv: Grid2<real>, step: real)
      modifies fu, fv
      ensures unchanged(fu) && unchanged(fv)
    {
    }

    /** `calculateBuoyancy`: empty in the source. */
    method CalculateBuoyancy(forceX: Grid2<real>, forceY: Grid2<real>, dens: Grid2<real>, gravity: Vec2, coef: real)
      modifies forceX, forceY
      ensures unchanged(forceX) && unchanged(forceY)
    {
    }

    /** `updateVelocityWithForce`: empty in the source. */
    method UpdateVelocityWithForce(vu: Grid2<real>, vv: Grid2<real>, forceX: Grid2<real>, forceY: Grid2<real>, step: real)
      modifies vu, vv
      ensures unchanged(vu) && unchanged(vv)
    {
    }

    /** `solvePressure`: empty in the source. */
    method SolvePressure(pressure: Grid2<real>, vu: Grid2<real>, vv: Grid2<real>, step: real)
      modifies pressure
      ensures unchanged(pressure)
    {
    }

    /** `updateVelocityWithPressure`: empty in the source. */
    method UpdateVelocityWithPressure(vu: Grid2<real>, vv: Grid2<real>, pressure: Grid2<real>, step: real)
      modifies vu, vv
      ensures unchanged(vu) && unchanged(vv)
    {
    }

    /** `update()`: re-injects the source into the density and does nothing
        else. On an initialised scene the injection finds the box already
        full, so the whole state is left as it was. */
    method Update()
      requires Valid()
      modifies d`data
      ensures Valid()
      ensures d.data == SourceApplied(old(d.data), resX, resY, srcCen, srcSize)
      ensures old(Initialized()) ==> Initialized() && d.data == old(d.data)
    {
      AddSource(d, srcCen, srcSize);
      if old(Initialized()) {
        SourceAppliedIdempotent(seq(resX * resY, _ => 0.0), resX, resY, srcCen, srcSize);
      }
    }

    /** `cells()`: the cell-type grid, resX-by-resY, which after `initScene`
        holds the ring classification. */
    function Cells(): (r: Grid2<int>)
      reads this, c, u, v, fx, fy, p, d
      ensures Valid() ==> r.Valid() && r.sizeX == resX && r.sizeY == resY
      ensures Initialized() ==> r.data == CellTypes(resX, resY)
    {
      c
    }

    /** `density()`: the density grid, resX-by-resY, which after `initScene`
        holds the source box over zeros. */
    function Density(): (r: Grid2<real>)
      reads this, c, u, v, fx, fy, p, d
      ensures Valid() ==> r.Valid() && r.sizeX == resX && r.sizeY == resY
      ensures Initialized() ==> r.data == InitialDensity(resX, resY, srcCen, srcSize)
    {
      d
    }

    /** `velocity_u()`: the u-velocity grid, resX-by-resY, zero after
        `initScene`. */
    function VelocityU(): (r: Grid2<real>)
      reads this, c, u, v, fx, fy, p, d
      ensures Valid() ==> r.Valid() && r.sizeX == resX && r.sizeY == resY
      ensures Initialized() ==> r.AllCells(0.0)
    {
      u
    }

    /** `velocity_v()`: the v-velocity grid, resX-by-resY, zero after
        `initScene`. */
    function VelocityV(): (r: Grid2<real>)
      reads this, c, u, v, fx, fy, p, d
      ensures Valid() ==> r.Valid() && r.sizeX == resX && r.sizeY == resY
      ensures Initialized() ==> r.AllCells(0.0)
    {
      v
    }

    /** `timestep()` */
    function Timestep(): real
    {
      dt
    }

    /** `resX()`: the width shared by all seven grids. */
    function ResX(): (r: int)
      reads this, c, u, v, fx, fy, p, d
      ensures Valid() ==> r == c.sizeX == u.sizeX == v.sizeX == fx.sizeX == fy.sizeX == p.sizeX == d.sizeX
    {
      resX
    }

    /** `resY()`: the height shared by all seven grids. */
    function ResY(): (r: int)
      reads this, c, u, v, fx, fy, p, d
      ensures Valid() ==> r == c.sizeY == u.sizeY == v.sizeY == fx.sizeY == fy.sizeY == p.sizeY == d.sizeY
    {
      resY
    }

    /** `gridSize()`: resX*resY, the number of cells of every grid. */
    function GridSize(): (n: int)
      reads this, c, u, v, fx, fy, p, d
      ensures Valid() ==> n == |c.data| == |u.data| == |v.data| == |fx.data| == |fy.data| == |p.data| == |d.data|
    {
      resX * resY
    }
  }

  /** The display loop's "solve 10 steps": ten calls to `update()`. They
      amount to one source injection, and on an initialised scene to none. */
  method SolveTenSteps(s: SmokeSolver)
    requires s.Valid()
    modifies s.d`data
    ensures s.Valid()
    ensures s.d.data == DensityAfterUpdates(old(s.d.data), s.resX, s.resY, s.srcCen, s.srcSize, 10)
    ensures s.d.data == SourceApplied(old(s.d.data), s.resX, s.resY, s.srcCen, s.srcSize)
    ensures old(s.Initialized()) ==> s.Initialized() && s.d.data == old(s.d.data)
  {
    for n := 0 to 10
      invariant s.Valid()
      invariant s.d.data == DensityAfterUpdates(old(s.d.data), s.resX, s.resY, s.srcCen, s.srcSize, n)
      invariant old(s.Initialized()) ==> s.Initialized() && s.d.data == old(s.d.data)
    {
      s.Update();
    }
    UpdatesInjectOnce(old(s.d.data), s.resX, s.resY, s.srcCen, s.srcSize, 10);
  }
}
