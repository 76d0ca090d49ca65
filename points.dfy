/** Points of the 3D scene, over the reals. */
module Points {

  datatype Point = Point(x: real, y: real, z: real)

  const Origin := Point(0.0, 0.0, 0.0)

  function Add(p: Point, q: Point): Point {
    Point(p.x + q.x, p.y + q.y, p.z + q.z)
  }

  function Sub(p: Point, q: Point): Point {
    Point(p.x - q.x, p.y - q.y, p.z - q.z)
  }

  function Scale(k: real, p: Point): Point {
    Point(k * p.x, k * p.y, k * p.z)
  }

  /** The squared Euclidean distance between two points. */
  function SqDist(p: Point, q: Point): real {
    (p.x - q.x) * (p.x - q.x) + (p.y - q.y) * (p.y - q.y) + (p.z - q.z) * (p.z - q.z)
  }

  /** Moving two points by the same offset keeps their distance. */
  lemma TranslateKeepsDist(p: Point, q: Point, offset: Point)
    ensures SqDist(Add(p, offset), Add(q, offset)) == SqDist(p, q)
  {
    assert Add(p, offset).x - Add(q, offset).x == p.x - q.x;
    assert Add(p, offset).y - Add(q, offset).y == p.y - q.y;
    assert Add(p, offset).z - Add(q, offset).z == p.z - q.z;
  }
}
