/** The surface of the legacy `mlabtex` (mlabtex/mlabtex.py): the grid
    arrays `surfx`, `surfy` are built from the image extents, shifted in place
    to the anchor `(x, y, z)`, given the constant height `z`, and then
    rebound through `rot_x`, `rot_y` and `rot_z` about the anchor. */
module TextSurface {
  import opened Points
  import opened Grid
  import opened Rotation

  /** The grid point `(i, j)` before rotation:
      `(x + i * scale / ref_y, y + j * scale / ref_y, z)`. */
  function Placed(g: Mesh, i: nat, j: nat, anchor: Point): Point
    requires i < |g| && j < |g[i]|
  {
    Add(g[i][j], anchor)
  }

  /** The surface the legacy `mlabtex` hands to `mlab.surf`. */
  function TextMesh(
    anchor: Point, dimX: nat, dimY: nat, scale: real, refY: real, o: Orientation): (m: Mesh)
    requires refY > 0.0
    ensures HasShape(m, dimX + 1, dimY + 1)
  {
    var g := MGrid(dimX, dimY, scale, refY);
    seq(dimX + 1, i requires 0 <= i <= dimX =>
      seq(dimY + 1, j requires 0 <= j <= dimY => Orient(o, Placed(g, i, j, anchor), anchor)))
  }

  /** Grid point `(0, 0)` ends at the anchor whatever the orientation. */
  lemma CornerAtAnchor(anchor: Point, dimX: nat, dimY: nat, scale: real, refY: real, o: Orientation)
    requires refY > 0.0
    ensures TextMesh(anchor, dimX, dimY, scale, refY, o)[0][0] == anchor
  {
    GridLattice(dimX, dimY, scale, refY);
    assert Placed(MGrid(dimX, dimY, scale, refY), 0, 0, anchor) == anchor;
  }

  /** With all three angles zero the surface is the grid moved to the anchor:
      point `(i, j)` is `(x + i * scale / ref_y, y + j * scale / ref_y, z)`. */
  lemma UnrotatedIsTranslated(anchor: Point, dimX: nat, dimY: nat, scale: real, refY: real)
    requires refY > 0.0
    ensures var m := TextMesh(anchor, dimX, dimY, scale, refY, Unrotated);
      forall i: nat, j: nat :: i <= dimX && j <= dimY ==>
        m[i][j] == Point(anchor.x + i as real * scale / refY, anchor.y + j as real * scale / refY, anchor.z)
  {
    var m := TextMesh(anchor, dimX, dimY, scale, refY, Unrotated);
    var g := MGrid(dimX, dimY, scale, refY);
    forall i: nat, j: nat | i <= dimX && j <= dimY
      ensures m[i][j] == Point(anchor.x + i as real * scale / refY, anchor.y + j as real * scale / refY, anchor.z)
    {
      assert g[i][j] == Point(Coord(i, scale, refY), Coord(j, scale, refY), 0.0);
      assert m[i][j] == Add(g[i][j], anchor);
    }
  }

  /** The orientation turns the surface about the anchor: each point stays
      as far from the anchor as the grid point is from the origin. */
  lemma SurfaceAnchorDistance(anchor: Point, dimX: nat, dimY: nat, scale: real, refY: real, o: Orientation)
    requires refY > 0.0 && o.IsUnit()
    ensures var m := TextMesh(anchor, dimX, dimY, scale, refY, o);
      var g := MGrid(dimX, dimY, scale, refY);
      forall i, j :: 0 <= i <= dimX && 0 <= j <= dimY ==> SqDist(m[i][j], anchor) == SqDist(g[i][j], Origin)
  {
    var m := TextMesh(anchor, dimX, dimY, scale, refY, o);
    var g := MGrid(dimX, dimY, scale, refY);
    forall i, j | 0 <= i <= dimX && 0 <= j <= dimY
      ensures SqDist(m[i][j], anchor) == SqDist(g[i][j], Origin)
    {
      var p := Placed(g, i, j, anchor);
      OrientRigid(o, p, anchor);
      assert SqDist(p, anchor) == SqDist(g[i][j], Origin);
    }
  }

  /** The surface is the grid moved rigidly: any two surface points are as
      far apart as the grid points they come from. */
  lemma SurfaceCongruent(anchor: Point, dimX: nat, dimY: nat, scale: real, refY: real, o: Orientation,
    i1: nat, j1: nat, i2: nat, j2: nat)
    requires refY > 0.0 && o.IsUnit()
    requires i1 <= dimX && j1 <= dimY && i2 <= dimX && j2 <= dimY
    ensures var m := TextMesh(anchor, dimX, dimY, scale, refY, o);
      var g := MGrid(dimX, dimY, scale, refY);
      SqDist(m[i1][j1], m[i2][j2]) == SqDist(g[i1][j1], g[i2][j2])
  {
    var g := MGrid(dimX, dimY, scale, refY);
    var p, q := Placed(g, i1, j1, anchor), Placed(g, i2, j2, anchor);
    OrientCongruent(o, p, q, anchor);
    TranslateKeepsDist(g[i1][j1], g[i2][j2], anchor);
  }

  predicate SameShape(a: array2<real>, b: array2<real>) {
    a.Length0 == b.Length0 && a.Length1 == b.Length1
  }

  /** A fresh `rows` by `cols` array whose element `(i, j)` is `f(i, j)`. */
  method Tabulate(rows: nat, cols: nat, f: (nat, nat) -> real) returns (a: array2<real>)
    ensures fresh(a) && a.Length0 == rows && a.Length1 == cols
    ensures forall i: nat, j: nat :: i < rows && j < cols ==> a[i, j] == f(i, j)
  {
    a := new real[rows, cols];
    for i := 0 to rows
      invariant forall p: nat, q: nat :: p < i && q < cols ==> a[p, q] == f(p, q)
    {
      for j := 0 to cols
        invariant forall p: nat, q: nat :: p < i && q < cols ==> a[p, q] == f(p, q)
        invariant forall q: nat :: q < j ==> a[i, q] == f(i, q)
      {
        a[i, j] := f(i, j);
      }
    }
  }

  /** `np.mgrid[0 : dim_x + 1, 0 : dim_y + 1] * scale / ref_y`, as two fresh
      arrays of x and y coordinates. */
  method MGridArrays(dimX: nat, dimY: nat, scale: real, refY: real)
    returns (gx: array2<real>, gy: array2<real>)
    requires refY > 0.0
    ensures fresh(gx) && fresh(gy) && gx != gy
    ensures gx.Length0 == dimX + 1 && gx.Length1 == dimY + 1 && SameShape(gx, gy)
    ensures forall i: nat, j: nat :: i <= dimX && j <= dimY ==>
      gx[i, j] == Coord(i, scale, refY) && gy[i, j] == Coord(j, scale, refY)
  {
    gx := Tabulate(dimX + 1, dimY + 1, (i: nat, j: nat) => Coord(i, scale, refY));
    gy := Tabulate(dimX + 1, dimY + 1, (i: nat, j: nat) => Coord(j, scale, refY));
  }

  /** `a += v` on a numpy array: every element grows by `v`, in place. */
  method AddInPlace(a: array2<real>, v: real)
    modifies a
    ensures forall i, j :: 0 <= i < a.Length0 && 0 <= j < a.Length1 ==> a[i, j] == old(a[i, j]) + v
  {
    for i := 0 to a.Length0
      invariant forall p, q :: 0 <= p < i && 0 <= q < a.Length1 ==> a[p, q] == old(a[p, q]) + v
      invariant forall p, q :: i <= p < a.Length0 && 0 <= q < a.Length1 ==> a[p, q] == old(a[p, q])
    {
      for j := 0 to a.Length1
        invariant forall p, q :: 0 <= p < i && 0 <= q < a.Length1 ==> a[p, q] == old(a[p, q]) + v
        invariant forall q :: 0 <= q < j ==> a[i, q] == old(a[i, q]) + v
        invariant forall p, q :: i <= p < a.Length0 && 0 <= q < a.Length1 && (p > i || q >= j) ==>
          a[p, q] == old(a[p, q])
      {
        a[i, j] := a[i, j] + v;
      }
    }
  }

  /** `v * np.ones_like(a)`: a fresh array of `a`'s shape holding `v`. */
  method FilledLike(a: array2<real>, v: real) returns (b: array2<real>)
    ensures fresh(b) && SameShape(a, b)
    ensures forall i, j :: 0 <= i < b.Length0 && 0 <= j < b.Length1 ==> b[i, j] == v
  {
    b := new real[a.Length0, a.Length1];
    for i := 0 to b.Length0
      invariant forall p, q :: 0 <= p < i && 0 <= q < b.Length1 ==> b[p, q] == v
    {
      for j := 0 to b.Length1
        invariant forall p, q :: 0 <= p < i && 0 <= q < b.Length1 ==> b[p, q] == v
        invariant forall q :: 0 <= q < j ==> b[i, q] == v
      {
        b[i, j] := v;
      }
    }
  }

  /** Applies a point map element-wise to three coordinate arrays, as a
      numpy expression over `surfx`, `surfy`, `surfz` does; the results are
      fresh arrays. */
  method MapPoints(f: Point -> Point, xs: array2<real>, ys: array2<real>, zs: array2<real>)
    returns (nx: array2<real>, ny: array2<real>, nz: array2<real>)
    requires SameShape(xs, ys) && SameShape(xs, zs)
    ensures fresh(nx) && fresh(ny) && fresh(nz)
    ensures SameShape(nx, xs) && SameShape(ny, xs) && SameShape(nz, xs)
    ensures forall i, j :: 0 <= i < xs.Length0 && 0 <= j < xs.Length1 ==>
      Point(nx[i, j], ny[i, j], nz[i, j]) == f(Point(xs[i, j], ys[i, j], zs[i, j]))
  {
    nx := new real[xs.Length0, xs.Length1];
    ny := new real[xs.Length0, xs.Length1];
    nz := new real[xs.Length0, xs.Length1];
    for i := 0 to xs.Length0
      invariant forall p, q :: 0 <= p < i && 0 <= q < xs.Length1 ==>
        Point(nx[p, q], ny[p, q], nz[p, q]) == f(Point(xs[p, q], ys[p, q], zs[p, q]))
    {
      for j := 0 to xs.Length1
        invariant forall p, q :: 0 <= p < i && 0 <= q < xs.Length1 ==>
          Point(nx[p, q], ny[p, q], nz[p, q]) == f(Point(xs[p, q], ys[p, q], zs[p, q]))
        invariant forall q :: 0 <= q < j ==>
          Point(nx[i, q], ny[i, q], nz[i, q]) == f(Point(xs[i, q], ys[i, q], zs[i, q]))
      {
        var moved := f(Point(xs[i, j], ys[i, j], zs[i, j]));
        nx[i, j], ny[i, j], nz[i, j] := moved.x, moved.y, moved.z;
      }
    }
  }

  /** The surface arrays of the legacy `mlabtex`, for an image of extents
      `dimX`, `dimY`, a reference height `refY` and an orientation given by
      the cosines and sines of its three angles. */
  method SurfacePoints(
    x: real, y: real, z: real, dimX: nat, dimY: nat, scale: real, refY: real, o: Orientation)
    returns (surfx: array2<real>, surfy: array2<real>, surfz: array2<real>)
    requires refY > 0.0
    ensures fresh(surfx) && fresh(surfy) && fresh(surfz)
    ensures surfx.Length0 == dimX + 1 && surfx.Length1 == dimY + 1
    ensures SameShape(surfx, surfy) && SameShape(surfx, surfz)
    ensures forall i, j :: 0 <= i <= dimX && 0 <= j <= dimY ==>
      Point(surfx[i, j], surfy[i, j], surfz[i, j]) == TextMesh(Point(x, y, z), dimX, dimY, scale, refY, o)[i][j]
  {
    var anchor := Point(x, y, z);
    ghost var g := MGrid(dimX, dimY, scale, refY);
    surfx, surfy := MGridArrays(dimX, dimY, scale, refY);
    AddInPlace(surfx, x);
    AddInPlace(surfy, y);
    surfz := FilledLike(surfx, z);
    forall i, j | 0 <= i <= dimX && 0 <= j <= dimY
      ensures Point(surfx[i, j], surfy[i, j], surfz[i, j]) == Placed(g, i, j, anchor)
    {
      assert g[i][j] == Point(Coord(i, scale, refY), Coord(j, scale, refY), 0.0);
    }
    surfx, surfy, surfz := MapPoints(p => RotX(o.x, p, anchor), surfx, surfy, surfz);
    surfx, surfy, surfz := MapPoints(p => RotY(o.y, p, anchor), surfx, surfy, surfz);
    surfx, surfy, surfz := MapPoints(p => RotZ(o.z, p, anchor), surfx, surfy, surfz);
  }
}
