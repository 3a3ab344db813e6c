/** The dense 2D grid of the Eulerian smoke practical: the scalar helpers it
    uses (`clamp`, the float-to-int cast) and the generic container `Grid2<T>`,
    stored row-major in a vector with its two dimensions. */
module Grid {

  // ---------------------------------------------------------------------------
  // Scalar helpers
  // ---------------------------------------------------------------------------

  /** `clamp(v, vmin, vmax)` on tReal values: the lower bound is tested first. */
  function Clamp(v: real, vmin: real, vmax: real): (r: real)
    ensures vmin <= vmax ==> vmin <= r <= vmax
    ensures vmin <= v <= vmax ==> r == v
    ensures v < vmin ==> r == vmin
    ensures vmin <= v && vmax < v ==> r == vmax
  {
    if v < vmin then vmin
    else if v > vmax then vmax
    else v
  }

  /** `static_cast<int>(x)` on a float: rounds toward zero. */
  function Trunc(x: real): (n: int)
    ensures 0.0 <= x ==> 0 <= n && n as real <= x < n as real + 1.0
    ensures x < 0.0 ==> n <= 0 && n as real - 1.0 < x <= n as real
  {
    if x >= 0.0 then x.Floor else -((-x).Floor)
  }

  /** The cell index `sampleAt` reads along one axis of extent `n`:
      the coordinate is truncated, then clamped into [0, n-1]. The result is
      the cell holding the coordinate when it lies inside [0, n), and the
      nearest edge cell otherwise. */
  function ClampedCell(x: real, n: int): (k: int)
    requires 0 < n
    ensures 0 <= k < n
    ensures 0.0 <= x < n as real ==> k == x.Floor
    ensures x < 0.0 ==> k == 0
    ensures n as real <= x ==> k == n - 1
  {
    var c := Clamp(Trunc(x) as real, 0.0, (n - 1) as real);
    c.Floor
  }

  /** Clamping the coordinate first changes nothing: a coordinate outside
      [0, n-1] reads the same cell as the nearest coordinate inside it. */
  lemma ClampedCellOfClamped(x: real, n: int)
    requires 0 < n
    ensures ClampedCell(Clamp(x, 0.0, (n - 1) as real), n) == ClampedCell(x, n)
  {
    var m := (n - 1) as real;
    if x < 0.0 {
      assert Clamp(x, 0.0, m) == 0.0;
    } else if x > m {
      assert Clamp(x, 0.0, m) == m;
      assert m.Floor == n - 1;
      if x < n as real {
        assert x.Floor == n - 1;
      }
    }
  }

  // ---------------------------------------------------------------------------
  // Row-major index arithmetic
  // ---------------------------------------------------------------------------

  lemma MulMonotone(a: int, b: int, c: int)
    requires a <= b && 0 <= c
    ensures a * c <= b * c
  {
    assert b * c - a * c == (b - a) * c;
  }

  lemma DivModUnique(k: int, n: int, q: int, r: int)
    requires 0 < n && 0 <= r < n && k == q * n + r
    ensures k / n == q && k % n == r
  {
    var q', r' := k / n, k % n;
    assert k == q' * n + r';
    if q' < q {
      MulMonotone(q' + 1, q, n);
      assert false;
    } else if q < q' {
      MulMonotone(q + 1, q', n);
      assert false;
    }
  }

  /** Cell (i, j) of an sx-by-sy grid sits at `j*sx + i`, inside the vector,
      in row j's run of sx consecutive elements, and is recovered by / and %. */
  lemma RowMajor(sx: int, sy: int, i: int, j: int)
    requires 0 <= i < sx && 0 <= j < sy
    ensures 0 <= j * sx <= j * sx + i < j * sx + sx <= sx * sy
    ensures (j * sx + i) / sx == j && (j * sx + i) % sx == i
  {
    MulMonotone(0, j, sx);
    MulMonotone(j + 1, sy, sx);
    DivModUnique(j * sx + i, sx, j, i);
  }

  /** Every position of an sx-by-sy vector is the row-major index of one cell. */
  lemma RowMajorOnto(sx: int, sy: int, k: int)
    requires 0 <= k < sx * sy && 0 < sx
    ensures 0 <= k % sx < sx && 0 <= k / sx < sy
    ensures (k / sx) * sx + k % sx == k
  {
    if k / sx >= sy {
      MulMonotone(sy, k / sx, sx);
      assert false;
    }
  }

  // ---------------------------------------------------------------------------
  // Grid2<T>
  // ---------------------------------------------------------------------------

  /** `Grid2<T>`: a dense row-major 2D array. `data` is the `_data` vector,
      `sizeX`/`sizeY` are `_sizeX`/`_sizeY`. `zero` parameters stand for the
      value `T(0)` the source converts the literal 0 to. */
  class Grid2<T> {
    var data: seq<T>
    var sizeX: nat
    var sizeY: nat

    /** The vector holds exactly one element per cell. Every operation except
        `Swap` (on its argument) keeps this. */
    ghost predicate Valid()
      reads this
    {
      |data| == sizeX * sizeY
    }

    /** Every cell holds `v`. */
    ghost predicate AllCells(v: T)
      reads this
    {
      forall k :: 0 <= k < |data| ==> data[k] == v
    }

    /** Row j: the run of sizeX consecutive elements starting at j*sizeX. */
    ghost function Row(j: int): (row: seq<T>)
      reads this
      requires Valid() && 0 <= j < sizeY
      ensures |row| == sizeX
    {
      MulMonotone(0, j, sizeX);
      MulMonotone(j + 1, sizeY, sizeX);
      data[j * sizeX .. j * sizeX + sizeX]
    }

    /** `Grid2(size_x, size_y)`: a size_x-by-size_y grid of value-initialised cells. */
    constructor (sx: nat, sy: nat, zero: T)
      ensures Valid() && sizeX == sx && sizeY == sy
      ensures AllCells(zero)
    {
      data := seq(sx * sy, _ => zero);
      sizeX, sizeY := sx, sy;
    }

    /** `init(size_x, size_y)`: reallocate to size_x-by-size_y, every cell 0. */
    method Init(sx: nat, sy: nat, zero: T)
      modifies this
      ensures Valid() && sizeX == sx && sizeY == sy
      ensures AllCells(zero)
    {
      data := seq(sx * sy, _ => zero);
      sizeX := sx;
      sizeY := sy;
    }

    /** `fill(v)`: `size()` copies of v. The dimensions are kept, and the
        vector is resized to match them, so the grid is valid afterwards. */
    method Fill(v: T)
      modifies this`data
      ensures Valid() && AllCells(v)
      ensures old(Valid()) ==> |data| == old(|data|)
    {
      data := seq(Size(), _ => v);
    }

    /** `swap(new_grid)` as written: the vectors are exchanged, this grid takes
        the argument's dimensions, and the argument keeps its own dimensions. */
    method Swap(other: Grid2<T>)
      modifies this, other
      ensures data == old(other.data) && other.data == old(data)
      ensures sizeX == old(other.sizeX) && sizeY == old(other.sizeY)
      ensures other.sizeX == old(other.sizeX) && other.sizeY == old(other.sizeY)
      ensures old(other.Valid()) ==> Valid()
    {
      var mine := data;
      data := other.data;
      other.data := mine;
      sizeX := other.sizeX;
      sizeY := other.sizeY;
    }

    /** The exchange `swap` is meant to be: vectors and dimensions both change
        hands, so two valid grids stay valid. */
    method Exchange(other: Grid2<T>)
      modifies this, other
      ensures data == old(other.data) && other.data == old(data)
      ensures sizeX == old(other.sizeX) && sizeY == old(other.sizeY)
      ensures other.sizeX == old(sizeX) && other.sizeY == old(sizeY)
      ensures old(Valid()) && old(other.Valid()) ==> Valid() && other.Valid()
    {
      var mine, mx, my := data, sizeX, sizeY;
      data, sizeX, sizeY := other.data, other.sizeX, other.sizeY;
      other.data, other.sizeX, other.sizeY := mine, mx, my;
    }

    /** `sampleAt(x, y)`: the value of the cell holding (x, y) after each
        coordinate is truncated and clamped into the grid; not an interpolation. */
    function SampleAt(x: real, y: real): (r: T)
      reads this
      requires Valid() && 0 < sizeX && 0 < sizeY
      ensures 0.0 <= x < sizeX as real && 0.0 <= y < sizeY as real ==>
                r == Row(y.Floor)[x.Floor]
      ensures x < 0.0 && y < 0.0 ==> r == data[0]
      ensures sizeX as real <= x && sizeY as real <= y ==> r == data[|data| - 1]
    {
      var i0 := ClampedCell(x, sizeX);
      var j0 := ClampedCell(y, sizeY);
      RowMajor(sizeX, sizeY, i0, j0);
      Get(i0, j0)
    }

    /** Sampling outside the grid reads the same value as sampling at the
        nearest coordinate inside [0, sizeX-1] x [0, sizeY-1]. */
    lemma SampleAtClamped(x: real, y: real)
      requires Valid() && 0 < sizeX && 0 < sizeY
      ensures SampleAt(Clamp(x, 0.0, (sizeX - 1) as real), Clamp(y, 0.0, (sizeY - 1) as real))
              == SampleAt(x, y)
    {
      ClampedCellOfClamped(x, sizeX);
      ClampedCellOfClamped(y, sizeY);
    }

    /** `operator()(i, j)` read: the element at the row-major index, which the
        vector requires to be in range. For a cell of the grid it is element i
        of row j. */
    function Get(i: int, j: int): (r: T)
      reads this
      requires 0 <= IndexTo1D(i, j) < |data|
      ensures Valid() && 0 <= i < sizeX && 0 <= j < sizeY ==> r == Row(j)[i]
    {
      var k := IndexTo1D(i, j);
      assert Valid() && 0 <= i < sizeX && 0 <= j < sizeY ==> data[k] == Row(j)[i] by {
        if Valid() && 0 <= i < sizeX && 0 <= j < sizeY {
          RowMajor(sizeX, sizeY, i, j);
        }
      }
      data[k]
    }

    /** `operator()(i, j) = v`: a write through the mutable reference. */
    method Set(i: int, j: int, v: T)
      requires 0 <= IndexTo1D(i, j) < |data|
      modifies this`data
      ensures data == old(data)[IndexTo1D(i, j) := v]
    {
      data := data[IndexTo1D(i, j) := v];
    }

    /** `indexTo1D(i, j)`: row-major. A cell of the grid maps into [0, size())
        and back to (i, j) through % and /, so distinct cells get distinct
        indices. */
    function IndexTo1D(i: int, j: int): (k: int)
      reads this`sizeX, this`sizeY
      ensures 0 <= i < sizeX && 0 <= j < sizeY ==>
                0 <= k < Size() && k % sizeX == i && k / sizeX == j
    {
      if 0 <= i < sizeX && 0 <= j < sizeY then RowMajor(sizeX, sizeY, i, j); j * sizeX + i
      else j * sizeX + i
    }

    /** Distinct cells have distinct indices. */
    lemma IndexTo1DInjective(i1: int, j1: int, i2: int, j2: int)
      requires 0 <= i1 < sizeX && 0 <= j1 < sizeY
      requires 0 <= i2 < sizeX && 0 <= j2 < sizeY
      ensures IndexTo1D(i1, j1) == IndexTo1D(i2, j2) <==> i1 == i2 && j1 == j2
    {
    }

    /** Every index of a valid grid's vector belongs to exactly one cell. */
    lemma IndexTo1DOnto(k: int)
      requires Valid() && 0 <= k < |data|
      ensures 0 <= k % sizeX < sizeX && 0 <= k / sizeX < sizeY
      ensures IndexTo1D(k % sizeX, k / sizeX) == k
    {
      RowMajorOnto(sizeX, sizeY, k);
    }

    /** `size()`: the number of cells, which a valid grid stores. */
    function Size(): (n: int)
      reads this`sizeX, this`sizeY
      ensures 0 <= n
      ensures Valid() ==> n == |data|
    {
      MulMonotone(0, sizeX, sizeY);
      sizeX * sizeY
    }

    /** `resX()`: the width; with the height it accounts for every cell. */
    function ResX(): (r: int)
      reads this
      ensures Valid() ==> r * sizeY == |data|
    {
      sizeX
    }

    /** `resY()`: the height; with the width it accounts for every cell. */
    function ResY(): (r: int)
      reads this
      ensures Valid() ==> sizeX * r == |data|
    {
      sizeY
    }
  }

  /** A 2x2 grid A of 1.0 swapped with a 3x3 grid B of 2.0 through `swap`
      as written: A ends as a valid 3x3 grid of 2.0, but B keeps
      its 3x3 dimensions over A's four cells, so reading B(2, 2) indexes past
      the end of its vector. */
  method SwapCounterexample() returns (a: Grid2<real>, b: Grid2<real>)
    ensures a.Valid() && a.sizeX == 3 && a.sizeY == 3 && a.AllCells(2.0)
    ensures b.sizeX == 3 && b.sizeY == 3 && |b.data| == 4 && !b.Valid()
    ensures b.IndexTo1D(2, 2) >= |b.data|
  {
    a := new Grid2(2, 2, 0.0);
    a.Fill(1.0);
    b := new Grid2(3, 3, 0.0);
    b.Fill(2.0);
    a.Swap(b);
  }

  /** The same example through the corrected exchange: A has B's former size
      and contents and B has A's. */
  method ExchangeExample() returns (a: Grid2<real>, b: Grid2<real>)
    ensures a.Valid() && a.sizeX == 3 && a.sizeY == 3 && |a.data| == 9 && a.AllCells(2.0)
    ensures b.Valid() && b.sizeX == 2 && b.sizeY == 2 && |b.data| == 4 && b.AllCells(1.0)
  {
    a := new Grid2(2, 2, 0.0);
    a.Fill(1.0);
    b := new Grid2(3, 3, 0.0);
    b.Fill(2.0);
    a.Exchange(b);
  }
}
