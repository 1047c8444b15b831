/** A polygonal region of the map: an ordered vertex list and an axis-aligned
    bounding box that is widened as vertices are inserted. Coordinates are
    Java doubles that are only ever compared, so they are modelled as reals. */
module Regions {

  datatype Vertex = Vertex(x: real, y: real)

  datatype Axis = X | Y

  function Coord(v: Vertex, a: Axis): real
  {
    match a
    case X => v.x
    case Y => v.y
  }

  function Min(a: real, b: real): real { if b < a then b else a }

  function Max(a: real, b: real): real { if b > a then b else a }

  /** The least of 0 and every vertex coordinate on axis `a`. */
  function Lowest(vs: seq<Vertex>, a: Axis): real
  {
    if vs == [] then 0.0 else Min(Lowest(vs[1..], a), Coord(vs[0], a))
  }

  /** The greatest of 0 and every vertex coordinate on axis `a`. */
  function Highest(vs: seq<Vertex>, a: Axis): real
  {
    if vs == [] then 0.0 else Max(Highest(vs[1..], a), Coord(vs[0], a))
  }

  /** The smallest closed box holding the origin and every vertex, laid out as
      the source's four-cell array: [min x, min y, max x, max y]. */
  function Hull(vs: seq<Vertex>): (b: seq<real>)
    ensures |b| == 4
  {
    [Lowest(vs, X), Lowest(vs, Y), Highest(vs, X), Highest(vs, Y)]
  }

  /** The box after the four conditional overwrites of an insertion. */
  function Widen(b: seq<real>, x: real, y: real): (w: seq<real>)
    requires |b| == 4
    ensures |w| == 4
  {
    [Min(b[0], x), Min(b[1], y), Max(b[2], x), Max(b[3], y)]
  }

  /** `vs` with `v` placed at index `i` and the later vertices shifted up. */
  function Inserted(vs: seq<Vertex>, i: nat, v: Vertex): (r: seq<Vertex>)
    requires i <= |vs|
    ensures |r| == |vs| + 1
    ensures r[i] == v
    ensures forall k :: 0 <= k < i ==> r[k] == vs[k]
    ensures forall k :: i < k < |r| ==> r[k] == vs[k - 1]
  {
    vs[..i] + [v] + vs[i..]
  }

  /** Open-box membership: a point on an edge of the box is outside. */
  predicate StrictlyInside(b: seq<real>, x: real, y: real)
    requires |b| == 4
  {
    b[0] < x && b[1] < y && x < b[2] && y < b[3]
  }

  lemma {:induction false} LowestConcat(s: seq<Vertex>, t: seq<Vertex>, a: Axis)
    ensures Lowest(s + t, a) == Min(Lowest(s, a), Lowest(t, a))
  {
    if s == [] {
      assert s + t == t;
      HullContains(t, a);
    } else {
      assert (s + t)[1..] == s[1..] + t;
      LowestConcat(s[1..], t, a);
    }
  }

  lemma {:induction false} HighestConcat(s: seq<Vertex>, t: seq<Vertex>, a: Axis)
    ensures Highest(s + t, a) == Max(Highest(s, a), Highest(t, a))
  {
    if s == [] {
      assert s + t == t;
      HullContains(t, a);
    } else {
      assert (s + t)[1..] == s[1..] + t;
      HighestConcat(s[1..], t, a);
    }
  }

  /** Inserting a vertex anywhere in the list widens its hull exactly as the
      source's four min/max updates widen the stored box. */
  lemma HullInserted(vs: seq<Vertex>, i: nat, x: real, y: real)
    requires i <= |vs|
    ensures Hull(Inserted(vs, i, Vertex(x, y))) == Widen(Hull(vs), x, y)
  {
    var v := Vertex(x, y);
    assert vs == vs[..i] + vs[i..];
    assert Inserted(vs, i, v) == vs[..i] + ([v] + vs[i..]);
    forall a: Axis
      ensures Lowest(Inserted(vs, i, v), a) == Min(Lowest(vs, a), Coord(v, a))
      ensures Highest(Inserted(vs, i, v), a) == Max(Highest(vs, a), Coord(v, a))
    {
      LowestConcat(vs[..i], [v] + vs[i..], a);
      LowestConcat([v], vs[i..], a);
      LowestConcat(vs[..i], vs[i..], a);
      HighestConcat(vs[..i], [v] + vs[i..], a);
      HighestConcat([v], vs[i..], a);
      HighestConcat(vs[..i], vs[i..], a);
      assert [v][1..] == [];
    }
  }

  /** The hull holds the origin and every vertex (closed box). */
  lemma {:induction false} HullContains(vs: seq<Vertex>, a: Axis)
    ensures Lowest(vs, a) <= 0.0 <= Highest(vs, a)
    ensures forall k :: 0 <= k < |vs| ==> Lowest(vs, a) <= Coord(vs[k], a) <= Highest(vs, a)
  {
    if vs != [] {
      HullContains(vs[1..], a);
      forall k | 1 <= k < |vs|
        ensures Lowest(vs, a) <= Coord(vs[k], a) <= Highest(vs, a)
      {
        assert vs[k] == vs[1..][k - 1];
      }
    }
  }

  /** The hull is no larger than it must be: each side is either the origin's
      coordinate or some vertex's coordinate. */
  lemma {:induction false} HullAttained(vs: seq<Vertex>, a: Axis)
    ensures Lowest(vs, a) == 0.0 || exists k :: 0 <= k < |vs| && Coord(vs[k], a) == Lowest(vs, a)
    ensures Highest(vs, a) == 0.0 || exists k :: 0 <= k < |vs| && Coord(vs[k], a) == Highest(vs, a)
  {
    if vs != [] {
      HullAttained(vs[1..], a);
      if Lowest(vs, a) != 0.0 && Lowest(vs, a) != Coord(vs[0], a) {
        var k :| 0 <= k < |vs[1..]| && Coord(vs[1..][k], a) == Lowest(vs[1..], a);
        assert vs[k + 1] == vs[1..][k];
      }
      if Highest(vs, a) != 0.0 && Highest(vs, a) != Coord(vs[0], a) {
        var k :| 0 <= k < |vs[1..]| && Coord(vs[1..][k], a) == Highest(vs[1..], a);
        assert vs[k + 1] == vs[1..][k];
      }
    }
  }

  /** Widening never shrinks the box and always takes in the new point. */
  lemma WidenGrows(b: seq<real>, x: real, y: real)
    requires |b| == 4
    ensures Widen(b, x, y)[0] <= b[0] && Widen(b, x, y)[1] <= b[1]
    ensures Widen(b, x, y)[2] >= b[2] && Widen(b, x, y)[3] >= b[3]
    ensures Widen(b, x, y)[0] <= x <= Widen(b, x, y)[2]
    ensures Widen(b, x, y)[1] <= y <= Widen(b, x, y)[3]
  {
  }

  /** The box of a fresh region is the single point at the origin, which the
      strict test excludes: a fresh region contains no point. */
  lemma FreshRegionContainsNothing(x: real, y: real)
    ensures Hull([]) == [0.0, 0.0, 0.0, 0.0]
    ensures !StrictlyInside(Hull([]), x, y)
  {
  }

  /** A vertex lying on a side of the box (in particular one that set that
      side) is not inside the region. */
  lemma EdgeVertexOutside(b: seq<real>, x: real, y: real)
    requires |b| == 4
    requires x == b[0] || y == b[1] || x == b[2] || y == b[3]
    ensures !StrictlyInside(b, x, y)
  {
  }

  class Region {
    var boundingBox: array<real>
    var vertices: seq<Vertex>

    /** The stored box is exactly the hull of the origin and the vertices. */
    ghost predicate Valid()
      reads this, boundingBox
    {
      boundingBox.Length == 4 && boundingBox[..] == Hull(vertices)
    }

    constructor ()
      ensures Valid() && fresh(boundingBox)
      ensures vertices == []
      ensures boundingBox[..] == [0.0, 0.0, 0.0, 0.0]
    {
      boundingBox := new real[4](_ => 0.0);
      vertices := [];
    }

    /** Inserts at index size-1, i.e. before the current last vertex; on an
        empty list that index is -1, which the list rejects. */
    method AddVertex(x: real, y: real)
      requires Valid()
      requires |vertices| > 0
      modifies this, boundingBox
      ensures Valid() && boundingBox == old(boundingBox)
      ensures vertices == Inserted(old(vertices), |old(vertices)| - 1, Vertex(x, y))
      ensures vertices[|vertices| - 1] == old(vertices[|vertices| - 1])
      ensures boundingBox[..] == Widen(old(boundingBox[..]), x, y)
    {
      InsertVertex(|vertices| - 1, x, y);
    }

    method InsertVertex(i: int, x: real, y: real)
      requires Valid()
      requires 0 <= i <= |vertices|
      modifies this, boundingBox
      ensures Valid() && boundingBox == old(boundingBox)
      ensures vertices == Inserted(old(vertices), i, Vertex(x, y))
      ensures boundingBox[..] == Widen(old(boundingBox[..]), x, y)
      ensures boundingBox[0] <= old(boundingBox[0]) && boundingBox[1] <= old(boundingBox[1])
      ensures boundingBox[2] >= old(boundingBox[2]) && boundingBox[3] >= old(boundingBox[3])
      ensures boundingBox[0] <= x <= boundingBox[2] && boundingBox[1] <= y <= boundingBox[3]
    {
      HullInserted(vertices, i, x, y);
      WidenGrows(boundingBox[..], x, y);
      vertices := Inserted(vertices, i, Vertex(x, y));

      if x < boundingBox[0] { boundingBox[0] := x; }
      if y < boundingBox[1] { boundingBox[1] := y; }
      if x > boundingBox[2] { boundingBox[2] := x; }
      if y > boundingBox[3] { boundingBox[3] := y; }
    }

    /** Strict test against the box: true exactly when the point lies strictly
        between the extreme coordinates of the origin and the vertices. */
    function PointInBoundingBox(x: real, y: real): (r: bool)
      reads this, boundingBox
      requires Valid()
      ensures r == StrictlyInside(boundingBox[..], x, y)
      ensures r <==> (Lowest(vertices, X) < x < Highest(vertices, X) &&
                      Lowest(vertices, Y) < y < Highest(vertices, Y))
    {
      x > boundingBox[0] && y > boundingBox[1] && x < boundingBox[2] && y < boundingBox[3]
    }

    /** Region membership is, as written, only the bounding-box test. */
    function PointInRegion(x: real, y: real): (r: bool)
      reads this, boundingBox
      requires Valid()
      ensures r == PointInBoundingBox(x, y)
      ensures r ==> boundingBox[0] < x < boundingBox[2] && boundingBox[1] < y < boundingBox[3]
    {
      PointInBoundingBox(x, y)
    }

    /** The invariant in the weaker form: the box contains the origin and every
        stored vertex. */
    lemma BoxContainsVertices()
      requires Valid()
      ensures boundingBox[0] <= 0.0 <= boundingBox[2] && boundingBox[1] <= 0.0 <= boundingBox[3]
      ensures forall k :: 0 <= k < |vertices| ==>
                boundingBox[0] <= vertices[k].x <= boundingBox[2] &&
                boundingBox[1] <= vertices[k].y <= boundingBox[3]
    {
      HullContains(vertices, X);
      HullContains(vertices, Y);
      forall k | 0 <= k < |vertices|
        ensures boundingBox[0] <= vertices[k].x <= boundingBox[2]
        ensures boundingBox[1] <= vertices[k].y <= boundingBox[3]
      {
        assert Coord(vertices[k], X) == vertices[k].x;
        assert Coord(vertices[k], Y) == vertices[k].y;
      }
    }
  }

  /** Callers can rely on the contracts alone: inserting into a fresh region and
      then appending before the last vertex keeps both points in the box and
      keeps the first-inserted vertex last. */
  method InsertThenAdd(x0: real, y0: real, x1: real, y1: real) returns (r: Region)
    ensures r.Valid() && r.vertices == [Vertex(x1, y1), Vertex(x0, y0)]
    ensures r.boundingBox[0] == Min(Min(0.0, x0), x1) && r.boundingBox[2] == Max(Max(0.0, x0), x1)
  {
    r := new Region();
    r.InsertVertex(0, x0, y0);
    r.AddVertex(x1, y1);
  }
}
