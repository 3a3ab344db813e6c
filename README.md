# Eulerian smoke grid and PBD bookkeeping — a Dafny model

This project models two parts of a computer-animation practical:

- The scene side of a 2D Eulerian smoke solver (`SmokeSim/src/main.cpp`). This covers the
  dense row-major container `Grid2<T>`, with its `init`, `fill`, `swap`, clamped `sampleAt`,
  `operator()`, `indexTo1D` and `size`. It also covers the `clamp` helper and `SmokeSolver`:
  `initScene`, `addSource`, `update`, the accessors and `gridSize`. In this version of the
  program the physics stages are empty (advection, buoyancy, force integration, pressure
  solve and projection). `update()` only re-injects the smoke source.
- The bookkeeping of the position-based dynamics solver (`PBD/src/PbdSolver.hpp`). This is
  the attachment constraint that pins one vertex of the caller's position buffer, the
  stretch and bend constraints whose projections are still empty, and the step counter and
  simulation clock of `PbdSolver`.

Files:

- `grid.dfy`, module `Grid`. Holds `Clamp` and `Trunc` (the float-to-int cast) and
  `ClampedCell` (the per-axis index `sampleAt` reads). It also holds the class
  `Grid2<T>`: the vector `data: seq<T>` and the dimensions `sizeX`, `sizeY`. `Valid()`
  says the vector holds one element per cell. `Row(j)` is row j of the row-major layout.
- `smoke.dfy`, module `Smoke`. Holds the cell-type constants (`OpenBoundary` = 0,
  `Fluid` = 1) and the specification functions `CellTypes` (the ring classification) and
  `SourceApplied` (the density after one source injection). It also holds the class
  `SmokeSolver`. Its seven grids are `const` fields, because they are members of the solver
  object in the source. `Initialized()` is the state `initScene` leaves, and `update()`
  preserves it.
- `pbd.dfy`, module `Pbd`. Holds the `Constraint` datatype (one constructor per constraint
  struct), the specification `Projected`, the in-place `Project` on an `array<Vec3>`, and
  the class `PbdSolver`.

Values of `float`/`glm` type are `real`s; vectors are `Vec2`/`Vec3` datatypes. The
`zero: T` parameters of `Grid2`'s constructor and `Init` stand for the value `T(0)` that
the source converts the literal 0 to. The accessors `cells()`, `density()`,
`velocity_u()`, `velocity_v()`, `timestep()`, `resX()` and `resY()` are the functions
`SmokeSolver.Cells`, `Density`, `VelocityU`, `VelocityV`, `Timestep`, `ResX`, `ResY`.
The grid's `resX()`/`resY()` are `Grid2.ResX`/`ResY`.

Behaviour of the program worth knowing when reading the model:

- `sampleAt` truncates and clamps the coordinates and reads one cell.
- `swap` leaves the argument's dimensions unchanged (see Findings).
- `update()` only re-injects the smoke source.
- `initScene` accepts a zero resolution and then builds empty grids.

## Model

| member | source | states |
|---|---|---|
| `Grid.Clamp` | SmokeSim/src/main.cpp:48-52 | the result lies in [vmin, vmax] when vmin <= vmax; a value inside the range is returned as is, one below vmin gives vmin, and one at least vmin but above vmax gives vmax, so every input is covered, an empty range included |
| `Grid.Trunc` | SmokeSim/src/main.cpp:78-79 | the int cast rounds toward zero: for x >= 0 the result is the integer part of x, for x < 0 it is the integer at most 1 above x |
| `Grid.ClampedCell` | SmokeSim/src/main.cpp:78-79 | the index read along one axis of extent n is always in [0, n): it is floor(x) for 0 <= x < n, 0 for every negative x and n-1 for every x >= n |
| `Grid.ClampedCellOfClamped` | SmokeSim/src/main.cpp:48-52 | clamping a coordinate into [0, n-1] before the lookup selects the same cell as the raw coordinate |
| `Grid.Grid2.constructor` | SmokeSim/src/main.cpp:60-62 | a valid size_x-by-size_y grid whose every cell is zero |
| `Grid.Grid2.Init` | SmokeSim/src/main.cpp:64-68 | afterwards the dimensions are (size_x, size_y), there are exactly size_x*size_y cells and every cell is zero |
| `Grid.Grid2.Fill` | SmokeSim/src/main.cpp:69 | every cell equals v and the dimensions are unchanged; the vector has size() elements, the same count as before for a valid grid, so the grid is valid afterwards |
| `Grid.Grid2.Swap` | SmokeSim/src/main.cpp:70-74 | the receiver takes the argument's vector and dimensions; the argument takes the receiver's vector but keeps its own dimensions; the receiver is valid whenever the argument was |
| `Grid.Grid2.Exchange` | SmokeSim/src/main.cpp:70-74 | corrected swap: vectors and dimensions both change hands, and two valid grids stay valid |
| `Grid.SwapCounterexample` | SmokeSim/src/main.cpp:70-74 | with A 2x2 of 1.0 and B 3x3 of 2.0, after A.swap(B) A is a valid 3x3 grid of 2.0, while B claims 3x3 over 4 elements and B(2, 2) indexes past its end |
| `Grid.ExchangeExample` | SmokeSim/src/main.cpp:70-74 | with the corrected exchange, A ends 3x3 with every cell 2.0 and B ends 2x2 with every cell 1.0, both valid |
| `Grid.Grid2.SampleAt` | SmokeSim/src/main.cpp:76-82 | on a valid non-empty grid: a coordinate inside the grid reads element floor(x) of row floor(y), the nearest-lower cell, with no interpolation; a point below both axes reads the first cell, one beyond both axes the last cell |
| `Grid.Grid2.SampleAtClamped` | SmokeSim/src/main.cpp:76-82 | sampling at any point gives the same value as sampling at that point clamped into [0, resX-1] x [0, resY-1] |
| `Grid.Grid2.Get` | SmokeSim/src/main.cpp:84-86 | needs only the row-major index inside the vector; for a cell (i, j) of a valid grid the value is element i of row j, the run of sizeX elements starting at j*sizeX |
| `Grid.Grid2.Set` | SmokeSim/src/main.cpp:87-89 | writing through the mutable reference replaces exactly the element at the row-major index of (i, j) |
| `Grid.Grid2.IndexTo1D` | SmokeSim/src/main.cpp:91 | for 0 <= i < sizeX and 0 <= j < sizeY the index lies in [0, size()), and % sizeX and / sizeX give back i and j |
| `Grid.Grid2.IndexTo1DInjective` | SmokeSim/src/main.cpp:91 | two cells of the grid share an index exactly when they are the same cell |
| `Grid.Grid2.IndexTo1DOnto` | SmokeSim/src/main.cpp:91 | every position of a valid grid's vector is the index of the cell (k % sizeX, k / sizeX) |
| `Grid.Grid2.Size` | SmokeSim/src/main.cpp:92 | size() is non-negative and equals the number of stored elements of a valid grid |
| `Grid.Grid2.ResX` | SmokeSim/src/main.cpp:93 | the width; for a valid grid, width times height is the number of stored cells |
| `Grid.Grid2.ResY` | SmokeSim/src/main.cpp:94 | the height; for a valid grid, width times height is the number of stored cells |
| `Smoke.SmokeSolver.constructor` | SmokeSim/src/main.cpp:105-108 | stores the time step, gravity and buoyancy factor, and starts with seven fresh empty grids |
| `Smoke.SmokeSolver.InitScene` | SmokeSim/src/main.cpp:112-141 | afterwards the resolution and source box are the arguments; all seven grids are res_x-by-res_y; u, v, fx, fy and p are all zero; the cell types are the ring classification; the density is the source box over zeros |
| `Smoke.SmokeSolver.ClassifyCells` | SmokeSim/src/main.cpp:129-138 | filling with fluid and then overwriting the four edges cell by cell yields exactly the ring classification `CellTypes` |
| `Smoke.SmokeSolver.ClassifyCell` | SmokeSim/src/main.cpp:133-136 | one pass of the edge loop's body at the k-th cell in row-major order: that cell gets its ring classification and every other cell keeps its value |
| `Smoke.CellTypesAt` | SmokeSim/src/main.cpp:129-138 | cell (i, j) is open boundary (0) exactly when i == 0, i == res_x-1, j == 0 or j == res_y-1, and fluid (1) exactly otherwise |
| `Smoke.ThinSceneHasNoFluid` | SmokeSim/src/main.cpp:129-138 | a scene at most two cells wide or high has no fluid cell |
| `Smoke.ThreeByThreeScene` | SmokeSim/src/main.cpp:129-138 | in a 3x3 scene only the centre cell (1, 1) is fluid |
| `Smoke.SmokeSolver.AddSource` | SmokeSim/src/main.cpp:143-154 | the density becomes `SourceApplied` of the old density over the solver's resolution; the dimensions are unchanged |
| `Smoke.SmokeSolver.InjectCell` | SmokeSim/src/main.cpp:147-151 | one pass of the injection loop's body at the k-th cell in row-major order: the cell becomes 1.0 exactly when it lies strictly inside the box; every other cell keeps its value |
| `Smoke.SourceAppliedAt` | SmokeSim/src/main.cpp:145-153 | after injection, cell (i, j) holds 1.0 when it passes the strict box test and its old value otherwise |
| `Smoke.SourceAppliedIdempotent` | SmokeSim/src/main.cpp:143-154 | injecting the source twice gives the same density as injecting it once |
| `Smoke.DensityAfterUpdates` | SmokeSim/src/main.cpp:189-194 | the density after n calls of update(), one source injection per call; every call keeps the grid's cell count |
| `Smoke.UpdatesInjectOnce` | SmokeSim/src/main.cpp:189-194 | any positive number of update() calls leaves the same density as a single source injection |
| `Smoke.UpdatesKeepInitialDensity` | SmokeSim/src/main.cpp:189-194 | from the density initScene leaves behind, any number of update() calls, zero included, leaves the density unchanged |
| `Smoke.ReferenceSourceBox` | SmokeSim/src/main.cpp:147-150 | with centre (16, 7) and half-size (3, 3) the box test passes exactly for columns 13 to 18 and rows 4 to 9 |
| `Smoke.ReferenceInitialDensity` | SmokeSim/src/main.cpp:354 | the reference 32x64 scene starts with density 1.0 in columns 13 to 18 of rows 4 to 9 and 0.0 in every other cell |
| `Smoke.SmokeSolver.AdvectCentered` | SmokeSim/src/main.cpp:156-159 | the empty stage leaves the advected grid unchanged |
| `Smoke.SmokeSolver.AdvectStaggered` | SmokeSim/src/main.cpp:161-165 | the empty stage leaves both velocity components unchanged |
| `Smoke.SmokeSolver.CalculateBuoyancy` | SmokeSim/src/main.cpp:167-171 | the empty stage leaves both force grids unchanged |
| `Smoke.SmokeSolver.UpdateVelocityWithForce` | SmokeSim/src/main.cpp:173-177 | the empty stage leaves both velocity grids unchanged |
| `Smoke.SmokeSolver.SolvePressure` | SmokeSim/src/main.cpp:179-182 | the empty stage leaves the pressure grid unchanged |
| `Smoke.SmokeSolver.UpdateVelocityWithPressure` | SmokeSim/src/main.cpp:184-187 | the empty stage leaves both velocity grids unchanged |
| `Smoke.SmokeSolver.Update` | SmokeSim/src/main.cpp:189-194 | only the density's vector may change, and it becomes one source injection of the old density; on an initialised scene nothing changes and the scene stays initialised |
| `Smoke.SmokeSolver.Cells` | SmokeSim/src/main.cpp:196 | the cell-type grid; for a valid solver it is resX-by-resY, and after initScene it holds the ring classification |
| `Smoke.SmokeSolver.Density` | SmokeSim/src/main.cpp:197 | the density grid; for a valid solver it is resX-by-resY, and after initScene it holds the source box over zeros |
| `Smoke.SmokeSolver.VelocityU` | SmokeSim/src/main.cpp:198 | the u-velocity grid; for a valid solver it is resX-by-resY, and after initScene it is all zero |
| `Smoke.SmokeSolver.VelocityV` | SmokeSim/src/main.cpp:199 | the v-velocity grid; for a valid solver it is resX-by-resY, and after initScene it is all zero |
| `Smoke.SmokeSolver.Timestep` | SmokeSim/src/main.cpp:201 | the time step the solver was constructed with (no contract: it returns that field) |
| `Smoke.SmokeSolver.ResX` | SmokeSim/src/main.cpp:203 | for a valid solver, the width of every one of the seven grids |
| `Smoke.SmokeSolver.ResY` | SmokeSim/src/main.cpp:204 | for a valid solver, the height of every one of the seven grids |
| `Smoke.SmokeSolver.GridSize` | SmokeSim/src/main.cpp:205 | gridSize() equals the number of stored cells of each of the seven grids |
| `Smoke.SolveTenSteps` | SmokeSim/src/main.cpp:462 | the density after the loop is `DensityAfterUpdates` of the old density for ten calls, which is one source injection; on an initialised scene every field is left as it was |
| `Pbd.Projected` | PBD/src/PbdSolver.hpp:44-45 | projection keeps the buffer length; an attachment sets its vertex to its fixed position; every other position is unchanged, and for stretch and bend every position is unchanged |
| `Pbd.ProjectedIdempotent` | PBD/src/PbdSolver.hpp:44-45 | projecting the same constraint twice gives the same positions as projecting it once |
| `Pbd.AttachmentsCommute` | PBD/src/PbdSolver.hpp:44-45 | two attachments of different vertices can be projected in either order |
| `Pbd.Project` | PBD/src/PbdSolver.hpp:36-75 | needs an attached vertex id inside the caller's buffer; the buffer afterwards is `Projected` of its old contents; the inverse masses are read-only |
| `Pbd.PbdSolver.constructor` | PBD/src/PbdSolver.hpp:85-90 | stores gravity, the solver iteration count and the three stiffness coefficients, and starts at step 0 and time 0 |
| `Pbd.PbdSolver.InitSim` | PBD/src/PbdSolver.hpp:93-98 | resets the step counter to 0 and the simulation time to 0 and replaces the positions with the mesh's vertex positions; the other mesh-dependent assignments are left out |
| `Pbd.PbdSolver.Step` | PBD/src/PbdSolver.hpp:124-132 | the step counter grows by exactly 1 and the simulation time by exactly dt; nothing else changes |
| `Pbd.RunSteps` | PBD/src/PbdSolver.hpp:124-132 | a caller that runs initSim on a mesh and then n calls of step(dt) ends with step count n, time n*dt and the mesh's positions |

## Left out

- Window, OpenGL and input handling: GLFW setup, the callbacks, `printHelp`, `render`
  (the density and velocity drawing), the TGA frame dump, and the timer-driven main loop
  around the ten-step loop. These are display and I/O. `SolveTenSteps` models only the
  ten `update()` calls at line 462. The timer and the pause flag are left out.
- The console output in `sampleAt` (line 80), `update` (line 190) and `PbdSolver::step`
  (line 126).
- The physics stages are empty in the source, and the model does not invent them. This
  covers semi-Lagrangian advection, buoyancy, force integration, the pressure solve and
  the projection. The gravity and buoyancy fields are stored but never used.
- Floating point. `tReal` is `float`, and it is modelled as an exact `real`. The comparisons
  of the box test are exact, and the only values the smoke code stores in grid cells are
  the constants 0 and 1. The solver parameters, the source box, the attachment position
  and the PBD clock are other stored floats; their rounding is not modelled.
- `Grid.Trunc`: a float outside the range of `int` makes the cast undefined in the source;
  the model truncates any real.
- `Grid.Grid2.Init`: dimensions are `nat`. In the source a negative product makes
  `std::vector` throw, and two negative dimensions give a grid with negative `resX()`.
- `Grid.Grid2.IndexTo1D`: 32-bit `int` overflow of `j*_sizeX + i` and `_sizeX*_sizeY` is
  not modelled; integers are unbounded.
- `Grid.Grid2.SampleAt`: requires a valid grid with at least one cell. On an empty grid the
  source clamps to -1 and reads outside the vector.
- `Smoke.SmokeSolver.AddSource`: requires the target grid to have the solver's dimensions.
  The source would also accept a larger grid and write into it at that grid's own row
  stride.
- `Smoke.SmokeSolver.constructor`: the default arguments dt = 0.01, g = (0, -9.8) and
  buoy = 0.2 (lines 105-106), which the global `SmokeSolver gSolver;` at line 224 uses,
  are not modelled; every caller passes all three.
- `Grid.Grid2.constructor`: the default size 0-by-0 (line 60) is not modelled; the caller
  passes both sizes.
- `Pbd.PbdSolver.constructor`: the default arguments (20 iterations, stiffness 1.0, 1.0
  and damping 0.99, gravity (0, -9.8, 0); lines 85-88) are not modelled; the caller
  passes all five.
- `Smoke.SmokeSolver.GridSize`: `_resX*_resY` is an `int` product converted to `tUint`
  (line 205); its 32-bit overflow is not modelled.
- `Smoke.SmokeSolver.constructor`: the source leaves the resolution and the source box
  uninitialised until `initScene`. The model sets them to zero.
- The Mesh-dependent parts of `PbdSolver::initSim` (lines 98-100) and `updateMesh`
  (lines 118-122): `Mesh` is not part of this model. The index and texture-coordinate
  vectors that only come from the mesh are left out.
- The placeholder assignments to `_v`, `_f` and `_w` in `initSim` (lines 103-105): they
  assign scalars to vectors and have no meaning to model.
- The still-empty steps of `initSim` and `step`: constraint creation and the solver loop.
  The constraint list is never populated in the source.
- `Pbd.PbdSolver.Step`: the clock is an exact real, so `simT + dt` does not round as the
  `float` addition `_sim_t += dt` does.
- `Pbd.PbdSolver.Step`: the step counter is an unbounded `nat`. The width of `tUint` comes
  from `typedefs.hpp`, which is not part of this model.
- `Pbd.RunSteps`: the clock is an exact real; n `float` steps reach n*dt only up to the
  rounding of each addition.
- `Pbd.RunSteps`: the caller of `step` is not part of this model. The method stands for
  any caller that resets the solver and then steps it n times.
- `Constraint` is a datatype matched in `Pbd.Project`, in place of the source's virtual
  dispatch through `shared_ptr<Constraint>`.

## Findings

| source | as written | input that shows it | evidently intended | confidence | as-written member | corrected member |
|---|---|---|---|---|---|---|
| SmokeSim/src/main.cpp:70-74 | `swap` exchanges the two vectors, copies the argument's dimensions into the receiver, and leaves the argument's dimensions as they were | A is 2x2 filled with 1.0 and B is 3x3 filled with 2.0. After `A.swap(B)`, B reports 3x3 but holds 4 elements, so `B(2, 2)` reads index 8 of a 4-element vector | the exchange of both contents and dimensions that an O(1) buffer flip needs | medium, not executed; harmless when both grids have equal dimensions, the only case a double buffer uses | `Grid.Grid2.Swap` (exhibited by `Grid.SwapCounterexample`) | `Grid.Grid2.Exchange` (exhibited by `Grid.ExchangeExample`) |
