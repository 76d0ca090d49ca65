/** The surface grid of `mlabimg` (mlabtex/core.py) and of the legacy
    `mlabtex` (mlabtex/mlabtex.py):
    `np.mgrid[0 : dim_x + 1, 0 : dim_y + 1] * scale / ref`, a plane of
    `(dim_x + 1) x (dim_y + 1)` points, one per pixel (`dim_x` and `dim_y`
    are the last pixel indices the reader reports), spaced
    `scale / ref` apart in both directions. */
module Grid {
  import opened Points

  /** A grid of points: `m[i][j]` is the point in row `i`, column `j`. */
  type Mesh = seq<seq<Point>>

  predicate HasShape(m: Mesh, rows: nat, cols: nat) {
    |m| == rows && forall i :: 0 <= i < rows ==> |m[i]| == cols
  }

  /** The coordinate of grid index `k`: `k * scale / ref`. */
  function Coord(k: nat, scale: real, ref: real): real
    requires ref > 0.0
  {
    k as real * scale / ref
  }

  /** The grid points `mlabimg` builds, with `z` zero. */
  function MGrid(dimX: nat, dimY: nat, scale: real, ref: real): (g: Mesh)
    requires ref > 0.0
    ensures HasShape(g, dimX + 1, dimY + 1)
  {
    seq(dimX + 1, i requires 0 <= i < dimX + 1 =>
      seq(dimY + 1, j requires 0 <= j < dimY + 1 => Point(Coord(i, scale, ref), Coord(j, scale, ref), 0.0)))
  }

  /** The grid is a flat square lattice with its corner at the origin: the
      offset between any two points is their index offset times
      `scale / ref`, in x for rows and in y for columns. */
  lemma GridLattice(dimX: nat, dimY: nat, scale: real, ref: real)
    requires ref > 0.0
    ensures var g := MGrid(dimX, dimY, scale, ref);
      g[0][0] == Origin &&
      forall i1, j1, i2, j2 :: 0 <= i1 <= dimX && 0 <= j1 <= dimY && 0 <= i2 <= dimX && 0 <= j2 <= dimY ==>
        Sub(g[i2][j2], g[i1][j1]) == Point((i2 - i1) as real * scale / ref, (j2 - j1) as real * scale / ref, 0.0)
  {
    var g := MGrid(dimX, dimY, scale, ref);
    forall i1, j1, i2, j2 | 0 <= i1 <= dimX && 0 <= j1 <= dimY && 0 <= i2 <= dimX && 0 <= j2 <= dimY
      ensures Sub(g[i2][j2], g[i1][j1]) == Point((i2 - i1) as real * scale / ref, (j2 - j1) as real * scale / ref, 0.0)
    {
      CoordDiff(i1, i2, scale, ref);
      CoordDiff(j1, j2, scale, ref);
    }
  }

  lemma CoordDiff(k1: nat, k2: nat, scale: real, ref: real)
    requires ref > 0.0
    ensures Coord(k2, scale, ref) - Coord(k1, scale, ref) == (k2 - k1) as real * scale / ref
  {
    calc {
      Coord(k2, scale, ref) - Coord(k1, scale, ref);
      k2 as real * scale / ref - k1 as real * scale / ref;
      (k2 as real * scale - k1 as real * scale) / ref;
      (k2 - k1) as real * scale / ref;
    }
  }

  /** The far corner of the grid is `(dim_x, dim_y) * scale / ref`; with
      `ref = dim_y` (no reference extent given) the last column lies at
      height `scale`, the height asked for. */
  lemma GridFarCorner(dimX: nat, dimY: nat, scale: real, ref: real)
    requires ref > 0.0
    ensures var g := MGrid(dimX, dimY, scale, ref);
      g[dimX][dimY] == Point(dimX as real * scale / ref, dimY as real * scale / ref, 0.0) &&
      (ref == dimY as real ==> forall i :: 0 <= i <= dimX ==> g[i][dimY].y == scale)
  {
    var g := MGrid(dimX, dimY, scale, ref);
    assert g[dimX][dimY] == Point(Coord(dimX, scale, ref), Coord(dimY, scale, ref), 0.0);
    if ref == dimY as real {
      forall i | 0 <= i <= dimX
        ensures MGrid(dimX, dimY, scale, ref)[i][dimY].y == scale
      {
        CoordAtRef(dimY, scale, ref);
      }
    }
  }

  lemma CoordAtRef(k: nat, scale: real, ref: real)
    requires ref > 0.0 && k as real == ref
    ensures Coord(k, scale, ref) == scale
  {
    var q := k as real * scale / ref;
    assert q * ref == ref * scale;
    assert (q - scale) * ref == 0.0;
  }

  /** With a non-negative scale every point lies in the rectangle spanned by
      the origin and the far corner. */
  lemma GridInFootprint(dimX: nat, dimY: nat, scale: real, ref: real)
    requires ref > 0.0 && scale >= 0.0
    ensures var g := MGrid(dimX, dimY, scale, ref);
      forall i, j :: 0 <= i <= dimX && 0 <= j <= dimY ==>
        0.0 <= g[i][j].x <= g[dimX][dimY].x && 0.0 <= g[i][j].y <= g[dimX][dimY].y
  {
    forall k: nat, n: nat | k <= n
      ensures 0.0 <= Coord(k, scale, ref) <= Coord(n, scale, ref)
    {
      CoordMonotone(k, n, scale, ref);
    }
  }

  lemma CoordMonotone(k: nat, n: nat, scale: real, ref: real)
    requires ref > 0.0 && scale >= 0.0 && k <= n
    ensures 0.0 <= Coord(k, scale, ref) <= Coord(n, scale, ref)
  {
    assert k as real * scale <= n as real * scale;
    assert 0.0 <= k as real * scale;
  }

  function ScaleMesh(c: real, m: Mesh): (r: Mesh)
    ensures |r| == |m| && forall i :: 0 <= i < |m| ==> |r[i]| == |m[i]|
  {
    seq(|m|, i requires 0 <= i < |m| => seq(|m[i]|, j requires 0 <= j < |m[i]| => Scale(c, m[i][j])))
  }

  /** Every coordinate is linear in `scale`: multiplying the scale by `c`
      multiplies every point by `c` (doubling it doubles the footprint). */
  lemma GridScaleLinear(dimX: nat, dimY: nat, scale: real, ref: real, c: real)
    requires ref > 0.0
    ensures MGrid(dimX, dimY, c * scale, ref) == ScaleMesh(c, MGrid(dimX, dimY, scale, ref))
  {
    var g := MGrid(dimX, dimY, scale, ref);
    var h := MGrid(dimX, dimY, c * scale, ref);
    var s := ScaleMesh(c, g);
    forall i | 0 <= i <= dimX
      ensures h[i] == s[i]
    {
      forall j | 0 <= j <= dimY
        ensures h[i][j] == s[i][j]
      {
        CoordLinear(i, scale, ref, c);
        CoordLinear(j, scale, ref, c);
      }
    }
  }

  lemma CoordLinear(k: nat, scale: real, ref: real, c: real)
    requires ref > 0.0
    ensures Coord(k, c * scale, ref) == c * Coord(k, scale, ref)
  {
    calc {
      Coord(k, c * scale, ref);
      k as real * (c * scale) / ref;
      c * (k as real * scale) / ref;
      c * (k as real * scale / ref);
    }
  }
}
