/** `rot_x`, `rot_y` and `rot_z` of mlabtex/mlabtex.py: rotations of a point
    about one coordinate axis through a base point, and the orientation step
    of the legacy `mlabtex`, which applies them in the order x, y, z about
    the anchor of the text. An angle enters only through its cosine and sine,
    so a turn is the pair `(c, s)`; a true angle has `c * c + s * s == 1`. */
module Rotation {
  import opened Points

  datatype Turn = Turn(c: real, s: real) {
    /** The pair is the cosine and sine of some angle. */
    predicate IsUnit() {
      c * c + s * s == 1.0
    }
  }

  /** The angle 0: cosine 1, sine 0. */
  const NoTurn := Turn(1.0, 0.0)

  /** The opposite angle. */
  function Opposite(t: Turn): Turn {
    Turn(t.c, -t.s)
  }

  /** The sum of two angles, by the addition formulas. */
  function Compose(t1: Turn, t2: Turn): Turn {
    Turn(t1.c * t2.c - t1.s * t2.s, t1.s * t2.c + t1.c * t2.s)
  }

  /** `rot_x`: turns y and z about the base point, keeps x. */
  function RotX(t: Turn, p: Point, base: Point): (q: Point)
    ensures q.x == p.x
    ensures p == base ==> q == base
    ensures t == NoTurn ==> q == p
  {
    Point(
      p.x,
      t.c * (p.y - base.y) - t.s * (p.z - base.z) + base.y,
      t.s * (p.y - base.y) + t.c * (p.z - base.z) + base.z)
  }

  /** `rot_y`: turns z and x about the base point, keeps y. */
  function RotY(t: Turn, p: Point, base: Point): (q: Point)
    ensures q.y == p.y
    ensures p == base ==> q == base
    ensures t == NoTurn ==> q == p
  {
    Point(
      t.c * (p.x - base.x) + t.s * (p.z - base.z) + base.x,
      p.y,
      -t.s * (p.x - base.x) + t.c * (p.z - base.z) + base.z)
  }

  /** `rot_z`: turns x and y about the base point, keeps z. */
  function RotZ(t: Turn, p: Point, base: Point): (q: Point)
    ensures q.z == p.z
    ensures p == base ==> q == base
    ensures t == NoTurn ==> q == p
  {
    Point(
      t.c * (p.x - base.x) - t.s * (p.y - base.y) + base.x,
      t.s * (p.x - base.x) + t.c * (p.y - base.y) + base.y,
      p.z)
  }

  // The three rotations share one plane rotation: (u, v) goes to
  // (c u - s v, s u + c v). These lemmas state its algebra once, over
  // plain reals; the lemmas about rot_x, rot_y and rot_z only match
  // coordinates to them.

  lemma PlaneIsometry(t: Turn, u: real, v: real, u1: real, v1: real)
    requires t.IsUnit()
    requires u1 == t.c * u - t.s * v && v1 == t.s * u + t.c * v
    ensures u1 * u1 + v1 * v1 == u * u + v * v
  {
    var c, s := t.c, t.s;
    calc {
      u1 * u1 + v1 * v1;
      (c * u - s * v) * (c * u - s * v) + (s * u + c * v) * (s * u + c * v);
      (c * c + s * s) * (u * u) + (c * c + s * s) * (v * v);
      u * u + v * v;
    }
  }

  lemma PlaneInverse(t: Turn, u: real, v: real, u1: real, v1: real)
    requires t.IsUnit()
    requires u1 == t.c * u - t.s * v && v1 == t.s * u + t.c * v
    ensures t.c * u1 + t.s * v1 == u
    ensures t.c * v1 - t.s * u1 == v
  {
    var c, s := t.c, t.s;
    calc {
      c * u1 + s * v1;
      c * (c * u - s * v) + s * (s * u + c * v);
      (c * c + s * s) * u;
      u;
    }
    calc {
      c * v1 - s * u1;
      c * (s * u + c * v) - s * (c * u - s * v);
      (c * c + s * s) * v;
      v;
    }
  }

  lemma PlaneCompose(t1: Turn, t2: Turn, u: real, v: real, u1: real, v1: real, u2: real, v2: real)
    requires u1 == t1.c * u - t1.s * v && v1 == t1.s * u + t1.c * v
    requires u2 == t2.c * u1 - t2.s * v1 && v2 == t2.s * u1 + t2.c * v1
    ensures var t := Compose(t1, t2);
      u2 == t.c * u - t.s * v && v2 == t.s * u + t.c * v
  {
    calc {
      u2;
      t2.c * (t1.c * u - t1.s * v) - t2.s * (t1.s * u + t1.c * v);
      (t1.c * t2.c - t1.s * t2.s) * u - (t1.s * t2.c + t1.c * t2.s) * v;
    }
    calc {
      v2;
      t2.s * (t1.c * u - t1.s * v) + t2.c * (t1.s * u + t1.c * v);
      (t1.s * t2.c + t1.c * t2.s) * u + (t1.c * t2.c - t1.s * t2.s) * v;
    }
  }

  lemma PlaneAngle(t: Turn, u: real, v: real, u1: real, v1: real)
    requires u1 == t.c * u - t.s * v && v1 == t.s * u + t.c * v
    ensures u * u1 + v * v1 == t.c * (u * u + v * v)
    ensures u * v1 - v * u1 == t.s * (u * u + v * v)
  {
    var c, s := t.c, t.s;
    calc {
      u * u1 + v * v1;
      u * (c * u - s * v) + v * (s * u + c * v);
      c * (u * u + v * v);
    }
    calc {
      u * v1 - v * u1;
      u * (s * u + c * v) - v * (c * u - s * v);
      s * (u * u + v * v);
    }
  }

  /** `rot_x` turns by the angle whose cosine is `c` and sine is `s`, from the
      y axis towards the z axis: the dot product of the offsets before and
      after is `c` times the squared radius, and their cross product along x
      is `s` times it. */
  lemma RotXAngle(t: Turn, p: Point, base: Point)
    ensures var d := Sub(p, base);
      var e := Sub(RotX(t, p, base), base);
      var r2 := d.y * d.y + d.z * d.z;
      d.y * e.y + d.z * e.z == t.c * r2 && d.y * e.z - d.z * e.y == t.s * r2
  {
    var d := Sub(p, base);
    var e := Sub(RotX(t, p, base), base);
    PlaneAngle(t, d.y, d.z, e.y, e.z);
  }

  /** `rot_y` turns by the angle `(c, s)` from the z axis towards the x axis. */
  lemma RotYAngle(t: Turn, p: Point, base: Point)
    ensures var d := Sub(p, base);
      var e := Sub(RotY(t, p, base), base);
      var r2 := d.z * d.z + d.x * d.x;
      d.z * e.z + d.x * e.x == t.c * r2 && d.z * e.x - d.x * e.z == t.s * r2
  {
    var d := Sub(p, base);
    var e := Sub(RotY(t, p, base), base);
    PlaneAngle(t, d.z, d.x, e.z, e.x);
  }

  /** `rot_z` turns by the angle `(c, s)` from the x axis towards the y axis. */
  lemma RotZAngle(t: Turn, p: Point, base: Point)
    ensures var d := Sub(p, base);
      var e := Sub(RotZ(t, p, base), base);
      var r2 := d.x * d.x + d.y * d.y;
      d.x * e.x + d.y * e.y == t.c * r2 && d.x * e.y - d.y * e.x == t.s * r2
  {
    var d := Sub(p, base);
    var e := Sub(RotZ(t, p, base), base);
    PlaneAngle(t, d.x, d.y, e.x, e.y);
  }

  /** The plane rotation maps the difference of two points to the
      difference of their images, and so keeps their distance. */
  lemma PlaneCongruent(t: Turn, u: real, v: real, u1: real, v1: real, w: real, z: real, w1: real, z1: real)
    requires t.IsUnit()
    requires u1 == t.c * u - t.s * v && v1 == t.s * u + t.c * v
    requires w1 == t.c * w - t.s * z && z1 == t.s * w + t.c * z
    ensures (u1 - w1) * (u1 - w1) + (v1 - z1) * (v1 - z1) == (u - w) * (u - w) + (v - z) * (v - z)
  {
    var c, s := t.c, t.s;
    assert u1 - w1 == c * (u - w) - s * (v - z) by {
      calc {
        u1 - w1;
        (c * u - s * v) - (c * w - s * z);
        c * (u - w) - s * (v - z);
      }
    }
    assert v1 - z1 == s * (u - w) + c * (v - z) by {
      calc {
        v1 - z1;
        (s * u + c * v) - (s * w + c * z);
        s * (u - w) + c * (v - z);
      }
    }
    PlaneIsometry(t, u - w, v - z, u1 - w1, v1 - z1);
  }

  /** `rot_x` moves any two points rigidly: their distance is kept. */
  lemma RotXCongruent(t: Turn, p: Point, q: Point, base: Point)
    requires t.IsUnit()
    ensures SqDist(RotX(t, p, base), RotX(t, q, base)) == SqDist(p, q)
  {
    var p1, q1 := RotX(t, p, base), RotX(t, q, base);
    PlaneCongruent(t, p.y - base.y, p.z - base.z, p1.y - base.y, p1.z - base.z,
      q.y - base.y, q.z - base.z, q1.y - base.y, q1.z - base.z);
    assert (p1.y - base.y) - (q1.y - base.y) == p1.y - q1.y;
    assert (p1.z - base.z) - (q1.z - base.z) == p1.z - q1.z;
    assert (p.y - base.y) - (q.y - base.y) == p.y - q.y;
    assert (p.z - base.z) - (q.z - base.z) == p.z - q.z;
  }

  /** `rot_y` moves any two points rigidly. */
  lemma RotYCongruent(t: Turn, p: Point, q: Point, base: Point)
    requires t.IsUnit()
    ensures SqDist(RotY(t, p, base), RotY(t, q, base)) == SqDist(p, q)
  {
    var p1, q1 := RotY(t, p, base), RotY(t, q, base);
    PlaneCongruent(t, p.z - base.z, p.x - base.x, p1.z - base.z, p1.x - base.x,
      q.z - base.z, q.x - base.x, q1.z - base.z, q1.x - base.x);
    assert (p1.z - base.z) - (q1.z - base.z) == p1.z - q1.z;
    assert (p1.x - base.x) - (q1.x - base.x) == p1.x - q1.x;
    assert (p.z - base.z) - (q.z - base.z) == p.z - q.z;
    assert (p.x - base.x) - (q.x - base.x) == p.x - q.x;
  }

  /** `rot_z` moves any two points rigidly. */
  lemma RotZCongruent(t: Turn, p: Point, q: Point, base: Point)
    requires t.IsUnit()
    ensures SqDist(RotZ(t, p, base), RotZ(t, q, base)) == SqDist(p, q)
  {
    var p1, q1 := RotZ(t, p, base), RotZ(t, q, base);
    PlaneCongruent(t, p.x - base.x, p.y - base.y, p1.x - base.x, p1.y - base.y,
      q.x - base.x, q.y - base.y, q1.x - base.x, q1.y - base.y);
    assert (p1.x - base.x) - (q1.x - base.x) == p1.x - q1.x;
    assert (p1.y - base.y) - (q1.y - base.y) == p1.y - q1.y;
    assert (p.x - base.x) - (q.x - base.x) == p.x - q.x;
    assert (p.y - base.y) - (q.y - base.y) == p.y - q.y;
  }

  /** `rot_x` keeps the distance to its base point, as a rotation "around
      the axis to a given base-point" must. */
  lemma RotXIsometry(t: Turn, p: Point, base: Point)
    requires t.IsUnit()
    ensures SqDist(RotX(t, p, base), base) == SqDist(p, base)
  {
    var q := RotX(t, p, base);
    PlaneIsometry(t, p.y - base.y, p.z - base.z, q.y - base.y, q.z - base.z);
  }

  /** `rot_y` keeps the distance to its base point. */
  lemma RotYIsometry(t: Turn, p: Point, base: Point)
    requires t.IsUnit()
    ensures SqDist(RotY(t, p, base), base) == SqDist(p, base)
  {
    var q := RotY(t, p, base);
    PlaneIsometry(t, p.z - base.z, p.x - base.x, q.z - base.z, q.x - base.x);
  }

  /** `rot_z` keeps the distance to its base point. */
  lemma RotZIsometry(t: Turn, p: Point, base: Point)
    requires t.IsUnit()
    ensures SqDist(RotZ(t, p, base), base) == SqDist(p, base)
  {
    var q := RotZ(t, p, base);
    PlaneIsometry(t, p.x - base.x, p.y - base.y, q.x - base.x, q.y - base.y);
  }

  /** Turning back by the opposite angle undoes `rot_x`. */
  lemma RotXInverse(t: Turn, p: Point, base: Point)
    requires t.IsUnit()
    ensures RotX(Opposite(t), RotX(t, p, base), base) == p
  {
    var q := RotX(t, p, base);
    PlaneInverse(t, p.y - base.y, p.z - base.z, q.y - base.y, q.z - base.z);
  }

  /** Turning back by the opposite angle undoes `rot_y`. */
  lemma RotYInverse(t: Turn, p: Point, base: Point)
    requires t.IsUnit()
    ensures RotY(Opposite(t), RotY(t, p, base), base) == p
  {
    var q := RotY(t, p, base);
    PlaneInverse(t, p.z - base.z, p.x - base.x, q.z - base.z, q.x - base.x);
  }

  /** Turning back by the opposite angle undoes `rot_z`. */
  lemma RotZInverse(t: Turn, p: Point, base: Point)
    requires t.IsUnit()
    ensures RotZ(Opposite(t), RotZ(t, p, base), base) == p
  {
    var q := RotZ(t, p, base);
    PlaneInverse(t, p.x - base.x, p.y - base.y, q.x - base.x, q.y - base.y);
  }

  /** Two turns of `rot_x` about one base point are one turn by the sum of
      the angles. */
  lemma RotXCompose(t1: Turn, t2: Turn, p: Point, base: Point)
    ensures RotX(t2, RotX(t1, p, base), base) == RotX(Compose(t1, t2), p, base)
  {
    var q := RotX(t1, p, base);
    var r := RotX(t2, q, base);
    var t := Compose(t1, t2);
    var w := RotX(t, p, base);
    var d1, d2 := p.y - base.y, p.z - base.z;
    PlaneCompose(t1, t2, d1, d2, q.y - base.y, q.z - base.z, r.y - base.y, r.z - base.z);
    assert w.y == t.c * d1 - t.s * d2 + base.y;
    assert w.z == t.s * d1 + t.c * d2 + base.z;
    assert r.x == w.x && r.y == w.y && r.z == w.z;
  }

  /** Two turns of `rot_y` about one base point are one turn by the sum. */
  lemma RotYCompose(t1: Turn, t2: Turn, p: Point, base: Point)
    ensures RotY(t2, RotY(t1, p, base), base) == RotY(Compose(t1, t2), p, base)
  {
    var q := RotY(t1, p, base);
    var r := RotY(t2, q, base);
    var t := Compose(t1, t2);
    var w := RotY(t, p, base);
    var d1, d2 := p.z - base.z, p.x - base.x;
    PlaneCompose(t1, t2, d1, d2, q.z - base.z, q.x - base.x, r.z - base.z, r.x - base.x);
    assert w.z == t.c * d1 - t.s * d2 + base.z;
    assert w.x == t.s * d1 + t.c * d2 + base.x;
    assert r.y == w.y && r.z == w.z && r.x == w.x;
  }

  /** Two turns of `rot_z` about one base point are one turn by the sum. */
  lemma RotZCompose(t1: Turn, t2: Turn, p: Point, base: Point)
    ensures RotZ(t2, RotZ(t1, p, base), base) == RotZ(Compose(t1, t2), p, base)
  {
    var q := RotZ(t1, p, base);
    var r := RotZ(t2, q, base);
    var t := Compose(t1, t2);
    var w := RotZ(t, p, base);
    var d1, d2 := p.x - base.x, p.y - base.y;
    PlaneCompose(t1, t2, d1, d2, q.x - base.x, q.y - base.y, r.x - base.x, r.y - base.y);
    assert w.x == t.c * d1 - t.s * d2 + base.x;
    assert w.y == t.s * d1 + t.c * d2 + base.y;
    assert r.z == w.z && r.x == w.x && r.y == w.y;
  }

  /** The orientation of a text: one turn per axis. */
  datatype Orientation = Orientation(x: Turn, y: Turn, z: Turn) {
    predicate IsUnit() {
      x.IsUnit() && y.IsUnit() && z.IsUnit()
    }
  }

  const Unrotated := Orientation(NoTurn, NoTurn, NoTurn)

  /** The orientation step of the legacy `mlabtex`: `rot_x`, then `rot_y`,
      then `rot_z`, each about the anchor. */
  function Orient(o: Orientation, p: Point, anchor: Point): (q: Point)
    ensures p == anchor ==> q == anchor
    ensures o == Unrotated ==> q == p
  {
    RotZ(o.z, RotY(o.y, RotX(o.x, p, anchor), anchor), anchor)
  }

  /** Undoes `Orient`: the opposite turns in the opposite order. */
  function Unorient(o: Orientation, q: Point, anchor: Point): Point {
    RotX(Opposite(o.x), RotY(Opposite(o.y), RotZ(Opposite(o.z), q, anchor), anchor), anchor)
  }

  /** Orienting moves any two points rigidly: their distance is kept. */
  lemma OrientCongruent(o: Orientation, p: Point, q: Point, anchor: Point)
    requires o.IsUnit()
    ensures SqDist(Orient(o, p, anchor), Orient(o, q, anchor)) == SqDist(p, q)
  {
    var p1, q1 := RotX(o.x, p, anchor), RotX(o.x, q, anchor);
    var p2, q2 := RotY(o.y, p1, anchor), RotY(o.y, q1, anchor);
    RotXCongruent(o.x, p, q, anchor);
    RotYCongruent(o.y, p1, q1, anchor);
    RotZCongruent(o.z, p2, q2, anchor);
  }

  /** Orienting keeps every distance to the anchor, and can be undone. */
  lemma OrientRigid(o: Orientation, p: Point, anchor: Point)
    requires o.IsUnit()
    ensures SqDist(Orient(o, p, anchor), anchor) == SqDist(p, anchor)
    ensures Unorient(o, Orient(o, p, anchor), anchor) == p
  {
    var p1 := RotX(o.x, p, anchor);
    var p2 := RotY(o.y, p1, anchor);
    RotXIsometry(o.x, p, anchor);
    RotYIsometry(o.y, p1, anchor);
    RotZIsometry(o.z, p2, anchor);
    RotZInverse(o.z, p2, anchor);
    RotYInverse(o.y, p1, anchor);
    RotXInverse(o.x, p, anchor);
  }
}
