/** The shape that is painted, in literal coordinates: how often its segments wind around a
    point, and what its edges have to do with it. */
module RastShape {
  import opened RastSweep
  import opened RastWinding
  import opened RastDrift
  import F = RastFlatten

  // ---------- the winding number ----------

  /** 1 or -1 if the segment from p to q passes the height y down or up, at x or left of it. */
  function Turn(p: Point, q: Point, x: real, y: real): int {
    if p.y <= y < q.y && p.x + (q.x - p.x) * (y - p.y) / (q.y - p.y) <= x then 1
    else if q.y <= y < p.y && p.x + (q.x - p.x) * (y - p.y) / (q.y - p.y) <= x then -1
    else 0
  }

  /** The sum over the segments to the first n points of a closed path; the first one comes from
      the last point. */
  function Around(path: seq<Point>, n: nat, x: real, y: real): int
    requires n <= |path|
  {
    if n == 0 then 0
    else Around(path, n - 1, x, y) + Turn(path[if n == 1 then |path| - 1 else n - 2], path[n - 1], x, y)
  }

  /** The winding number of closed paths around the point (x, y). */
  function Winding(paths: seq<seq<Point>>, x: real, y: real): int {
    if paths == [] then 0 else Around(paths[0], |paths[0]|, x, y) + Winding(paths[1..], x, y)
  }

  // ---------- the edges of a segment ----------

  /** What an edge adds to the winding number at u, where it really is. */
  function TrueTurn(e: Edge, t: int, u: int): int {
    if e.y0 < e.y1 && Crosses(e, t) && TrueX(e, t) <= u as real then e.dir else 0
  }

  function TrueOf(t: int, u: int): Edge -> int {
    e => TrueTurn(e, t, u)
  }

  lemma Ratio(a: real, b: real, c: real)
    requires c != 0.0
    ensures a * b / c == a / c * b && -a / -c == a / c && a / c * c == a
  {
  }

  /** The height y is at the same place of the segment, whichever end it is measured from. */
  lemma SamePlace(p: Point, q: Point, y: real)
    requires p.y != q.y
    ensures var k := (p.x - q.x) / (p.y - q.y);
      && (q.x - p.x) / (q.y - p.y) == k
      && p.x + (q.x - p.x) * (y - p.y) / (q.y - p.y) == p.x + k * (y - p.y) == q.x + k * (y - q.y)
  {
    var k := (p.x - q.x) / (p.y - q.y);
    Ratio(p.x - q.x, y - p.y, p.y - q.y);
    Ratio(q.x - p.x, y - p.y, q.y - p.y);
    assert k * (p.y - q.y) == p.x - q.x;
    assert k * (y - q.y) == k * (y - p.y) + k * (p.y - q.y);
  }

  /** The edge of a segment turns where the segment does. */
  lemma EdgeTurn(p: Point, q: Point, t: int, u: int)
    ensures Tally(AddEdge(p, q), TrueOf(t, u)) == Turn(p, q, u as real / 1024.0, Center(t))
  {
    var y := Center(t);
    if p.y != q.y {
      var e := if p.y < q.y then Edge(p.x, p.y, q.x, q.y, 1) else Edge(q.x, q.y, p.x, p.y, -1);
      SamePlace(p, q, y);
      assert AddEdge(p, q) == [e] && [e][1..] == [];
      assert Tally([e], TrueOf(t, u)) == TrueTurn(e, t, u);
      assert TrueX(e, t) == 1024.0 * (p.x + (q.x - p.x) * (y - p.y) / (q.y - p.y));
    }
  }

  lemma TallyNone(f: Edge -> int)
    ensures Tally([], f) == 0
  {
  }

  /** The segments on from point n. */
  lemma {:induction false} PathTurns(path: seq<Point>, n: nat, t: int, u: int)
    requires n <= |path| && path != []
    ensures var x, y := u as real / 1024.0, Center(t);
      var prev := path[if n == 0 then |path| - 1 else n - 1];
      Around(path, n, x, y) + Tally(EdgesFrom(prev, path[n..]), TrueOf(t, u)) == Around(path, |path|, x, y)
    decreases |path| - n
  {
    hide Turn;
    hide AddEdge;
    hide Tally;
    if n == |path| {
      assert path[n..] == [] && Tally([], TrueOf(t, u)) == 0 by { TallyNone(TrueOf(t, u)); }
    } else {
      var prev := path[if n == 0 then |path| - 1 else n - 1];
      assert path[n..][0] == path[n] && path[n..][1..] == path[n + 1..];
      TallyJoin(AddEdge(prev, path[n]), EdgesFrom(path[n], path[n + 1..]), TrueOf(t, u));
      EdgeTurn(prev, path[n], t, u);
      PathTurns(path, n + 1, t, u);
    }
  }

  lemma {:induction false} ShapeTurns(paths: seq<seq<Point>>, t: int, u: int)
    ensures Tally(ShapeEdges(paths), TrueOf(t, u)) == Winding(paths, u as real / 1024.0, Center(t))
  {
    if paths != [] {
      var path := paths[0];
      var first := if path == [] then [] else EdgesFrom(path[|path| - 1], path);
      if path != [] {
        PathTurns(path, 0, t, u);
        assert path[0..] == path;
      }
      TallyJoin(first, ShapeEdges(paths[1..]), TrueOf(t, u));
      ShapeTurns(paths[1..], t, u);
    }
  }

  lemma {:induction false} TrueTally(edges: seq<Edge>, t: int, u: int)
    requires forall k :: 0 <= k < |edges| ==> edges[k].y0 < edges[k].y1
    ensures TrueSum(edges, t, u) == Tally(edges, TrueOf(t, u))
    decreases |edges|
  {
    hide TrueX;
    hide Crosses;
    if edges != [] {
      var init, e := edges[..|edges| - 1], edges[|edges| - 1];
      TrueTally(init, t, u);
      TallyJoin(init, [e], TrueOf(t, u));
      assert edges == init + [e] && [e][1..] == [];
      assert Tally([e], TrueOf(t, u)) == TrueTurn(e, t, u);
    }
  }

  // ---------- on the bitmap ----------

  /** Where `nsvgRasterize` puts a point: translated, and with five sub-scanlines to a row. */
  function Device(p: Point, tx: real, ty: real): Point {
    F.Point(tx + p.x, (ty + p.y) * 5.0)
  }

  function DevicePath(path: seq<Point>, tx: real, ty: real): (r: seq<Point>)
    ensures |r| == |path| && forall i :: 0 <= i < |path| ==> r[i] == Device(path[i], tx, ty)
  {
    seq(|path|, i requires 0 <= i < |path| => Device(path[i], tx, ty))
  }

  function DevicePaths(paths: seq<seq<Point>>, tx: real, ty: real): seq<seq<Point>> {
    if paths == [] then [] else [DevicePath(paths[0], tx, ty)] + DevicePaths(paths[1..], tx, ty)
  }

  lemma SlopeFifth(a: real, b: real)
    requires b != 0.0
    ensures a / (b * 5.0) * 5.0 == a / b
  {
    var m, k := a / (b * 5.0), a / b;
    assert m * (b * 5.0) == a && k * b == a;
    assert (m * 5.0 - k) * b == 0.0;
  }

  /** A segment turns around a point where it does so before it is moved. */
  lemma DeviceTurn(p: Point, q: Point, tx: real, ty: real, x: real, y: real)
    ensures Turn(Device(p, tx, ty), Device(q, tx, ty), x, y) == Turn(p, q, x - tx, y / 5.0 - ty)
  {
    var y', dx := y / 5.0 - ty, q.x - p.x;
    if p.y != q.y {
      var dy := q.y - p.y;
      Ratio(dx, y' - p.y, dy);
      Ratio(dx, y - (ty + p.y) * 5.0, dy * 5.0);
      var k := dx / dy;
      SlopeFifth(dx, dy);
      assert y - (ty + p.y) * 5.0 == (y' - p.y) * 5.0;
      assert dx / (dy * 5.0) * ((y' - p.y) * 5.0) == k * (y' - p.y);
    }
  }

  lemma {:induction false} DeviceAround(path: seq<Point>, n: nat, tx: real, ty: real, x: real, y: real)
    requires n <= |path|
    ensures Around(DevicePath(path, tx, ty), n, x, y) == Around(path, n, x - tx, y / 5.0 - ty)
    decreases n
  {
    hide Turn;
    hide DevicePath;
    if n > 0 {
      DeviceAround(path, n - 1, tx, ty, x, y);
      DeviceTurn(path[if n == 1 then |path| - 1 else n - 2], path[n - 1], tx, ty, x, y);
    }
  }

  lemma {:induction false} DeviceWinding(paths: seq<seq<Point>>, tx: real, ty: real, x: real, y: real)
    ensures Winding(DevicePaths(paths, tx, ty), x, y) == Winding(paths, x - tx, y / 5.0 - ty)
  {
    hide Around;
    if paths != [] {
      DeviceAround(paths[0], |paths[0]|, tx, ty, x, y);
      DeviceWinding(paths[1..], tx, ty, x, y);
    }
  }

  function DeviceEdge(e: Edge, tx: real, ty: real): Edge {
    Edge(tx + e.x0, (ty + e.y0) * 5.0, tx + e.x1, (ty + e.y1) * 5.0, e.dir)
  }

  function DeviceEdges(edges: seq<Edge>, tx: real, ty: real): (r: seq<Edge>)
    ensures |r| == |edges| && forall i :: 0 <= i < |edges| ==> r[i] == DeviceEdge(edges[i], tx, ty)
  {
    seq(|edges|, i requires 0 <= i < |edges| => DeviceEdge(edges[i], tx, ty))
  }

  lemma DeviceJoin(a: seq<Edge>, b: seq<Edge>, tx: real, ty: real)
    ensures DeviceEdges(a + b, tx, ty) == DeviceEdges(a, tx, ty) + DeviceEdges(b, tx, ty)
  {
  }

  lemma {:induction false} DeviceFrom(prev: Point, pts: seq<Point>, tx: real, ty: real)
    ensures DeviceEdges(EdgesFrom(prev, pts), tx, ty) == EdgesFrom(Device(prev, tx, ty), DevicePath(pts, tx, ty))
    decreases pts
  {
    if pts != [] {
      var pts' := DevicePath(pts, tx, ty);
      assert pts'[1..] == DevicePath(pts[1..], tx, ty);
      DeviceJoin(AddEdge(prev, pts[0]), EdgesFrom(pts[0], pts[1..]), tx, ty);
      assert DeviceEdges(AddEdge(prev, pts[0]), tx, ty) == AddEdge(Device(prev, tx, ty), pts'[0]);
      DeviceFrom(pts[0], pts[1..], tx, ty);
    }
  }

  /** The placed edges are those of the placed paths. */
  lemma {:induction false} DeviceShape(paths: seq<seq<Point>>, tx: real, ty: real)
    ensures DeviceEdges(ShapeEdges(paths), tx, ty) == ShapeEdges(DevicePaths(paths, tx, ty))
  {
    if paths != [] {
      var path := paths[0];
      var first := if path == [] then [] else EdgesFrom(path[|path| - 1], path);
      if path != [] {
        DeviceFrom(path[|path| - 1], path, tx, ty);
      }
      DeviceJoin(first, ShapeEdges(paths[1..]), tx, ty);
      DeviceShape(paths[1..], tx, ty);
    }
  }

  /** The sorted edges of a shape on the bitmap. */
  ghost predicate EdgesOf(edges: seq<Edge>, paths: seq<seq<Point>>, tx: real, ty: real) {
    SortedEdges(edges) && multiset(edges) == multiset(DeviceEdges(ShapeEdges(paths), tx, ty))
  }

  /** At u on sub-scanline t they wind as the segments of the paths wind around that place. */
  lemma EdgesWind(edges: seq<Edge>, paths: seq<seq<Point>>, tx: real, ty: real, t: int, u: int)
    requires EdgesOf(edges, paths, tx, ty)
    ensures TrueSum(edges, t, u) == Winding(paths, u as real / 1024.0 - tx, Center(t) / 5.0 - ty)
  {
    hide ShapeEdges;
    hide Winding;
    hide DevicePaths;
    DeviceShape(paths, tx, ty);
    TrueTally(edges, t, u);
    TallySorted(edges, ShapeEdges(DevicePaths(paths, tx, ty)), TrueOf(t, u));
    ShapeTurns(DevicePaths(paths, tx, ty), t, u);
    DeviceWinding(paths, tx, ty, u as real / 1024.0, Center(t));
  }

  // ---------- from paths to edges ----------

  function Scaled(p: Point, scale: real): Point {
    F.Point(p.x * scale, p.y * scale)
  }

  /** The cubic that begins at point i of a path. */
  function CubicAt(pts: seq<Point>, i: nat, scale: real): F.Cubic
    requires i + 3 < |pts|
  {
    F.Cubic(Scaled(pts[i], scale), Scaled(pts[i + 1], scale), Scaled(pts[i + 2], scale), Scaled(pts[i + 3], scale))
  }

  /** A start point and whole cubics. */
  predicate WholePath(pts: seq<Point>) {
    |pts| % 3 == 1
  }

  /** The points stored for the first n cubics of a path. */
  function Flattened(pts: seq<Point>, n: nat, scale: real, tessTol: real, distTol: real): seq<F.PathPoint>
    requires 3 * n < |pts|
  {
    if n == 0 then F.Added([], F.PathPoint(Scaled(pts[0], scale), 0), distTol)
    else
      F.AddedAll(Flattened(pts, n - 1, scale, tessTol, distTol),
                 F.Handed(CubicAt(pts, 3 * (n - 1), scale), 0, 0, tessTol), distTol)
  }

  /** All points of a path, back to its start. */
  function Outline(pts: seq<Point>, scale: real, tessTol: real, distTol: real): seq<F.PathPoint>
    requires WholePath(pts)
  {
    F.Added(Flattened(pts, |pts| / 3, scale, tessTol, distTol), F.PathPoint(Scaled(pts[0], scale), 0), distTol)
  }

  function Places(pts: seq<F.PathPoint>): (r: seq<Point>)
    ensures |r| == |pts| && forall i :: 0 <= i < |pts| ==> r[i] == pts[i].at
  {
    seq(|pts|, i requires 0 <= i < |pts| => pts[i].at)
  }

  function Outlines(paths: seq<seq<Point>>, scale: real, tessTol: real, distTol: real): (r: seq<seq<Point>>)
    requires forall k :: 0 <= k < |paths| ==> WholePath(paths[k])
    ensures |r| == |paths|
    ensures forall k :: 0 <= k < |paths| ==> r[k] == Places(Outline(paths[k], scale, tessTol, distTol))
  {
    seq(|paths|, k requires 0 <= k < |paths| => Places(Outline(paths[k], scale, tessTol, distTol)))
  }

  lemma {:induction false} ShapeSnoc(a: seq<seq<Point>>, b: seq<Point>)
    ensures ShapeEdges(a + [b]) == ShapeEdges(a) + if b == [] then [] else EdgesFrom(b[|b| - 1], b)
  {
    if a == [] {
      assert [] + [b] == [b] && [b][1..] == [];
    } else {
      assert (a + [b])[1..] == a[1..] + [b];
      ShapeSnoc(a[1..], b);
    }
  }

  lemma ShapeNone()
    ensures ShapeEdges([]) == []
  {
  }

  lemma EdgesStep(path: seq<Point>, j: nat, i: nat)
    requires j < |path| && i < |path|
    ensures EdgesFrom(path[j], path[i..]) == AddEdge(path[j], path[i]) + EdgesFrom(path[i], path[i + 1..])
  {
    hide AddEdge;
    assert path[i..][0] == path[i] && path[i..][1..] == path[i + 1..];
  }

  lemma EdgesDone(path: seq<Point>, j: nat)
    requires j < |path|
    ensures path[|path|..] == [] && EdgesFrom(path[j], []) == []
  {
  }

  class Rasterizer {
    const tessTol: real
    const distTol: real
    var points: seq<F.PathPoint>
    var edges: seq<Edge>

    constructor (tessTol: real, distTol: real)
      ensures points == [] && edges == [] && this.tessTol == tessTol && this.distTol == distTol
    {
      this.tessTol, this.distTol, points, edges := tessTol, distTol, [], [];
    }

    /** `nsvg__addPathPoint` */
    method AddPathPoint(at: Point, flags: bv8)
      modifies this`points
      ensures points == F.Added(old(points), F.PathPoint(at, flags), distTol)
    {
      if |points| > 0 {
        var pt := points[|points| - 1];
        if F.PtEquals(pt.at, at, distTol) {
          points := points[|points| - 1 := pt.(flags := pt.flags | flags)];
          return;
        }
      }
      points := points + [F.PathPoint(at, flags)];
    }

    /** `nsvg__flattenCubicBez` */
    method FlattenCubicBez(c: F.Cubic, level: nat, flags: bv8)
      modifies this`points
      ensures points == F.AddedAll(old(points), F.Handed(c, level, flags, tessTol), distTol)
      decreases F.MAX_LEVEL + 1 - level
    {
      if level > F.MAX_LEVEL {
        return;
      }
      var p12, p23, p34 := F.Mid(c.p1, c.p2), F.Mid(c.p2, c.p3), F.Mid(c.p3, c.p4);
      var p123 := F.Mid(p12, p23);
      if F.Flat(c, tessTol) {
        AddPathPoint(c.p4, flags);
        return;
      }
      var p234 := F.Mid(p23, p34);
      var p1234 := F.Mid(p123, p234);
      ghost var before := points;
      FlattenCubicBez(F.Cubic(c.p1, p12, p123, p1234), level + 1, 0);
      FlattenCubicBez(F.Cubic(p1234, p234, p34, c.p4), level + 1, flags);
      F.AddedJoin(before, F.Handed(F.Left(c), level + 1, 0, tessTol), F.Handed(F.Right(c), level + 1, flags, tessTol),
                  distTol);
    }

    /** `nsvg__addEdge` */
    method AddSegment(p: Point, q: Point)
      modifies this`edges
      ensures edges == old(edges) + AddEdge(p, q)
    {
      if p.y == q.y {
        return;
      }
      if p.y < q.y {
        edges := edges + [Edge(p.x, p.y, q.x, q.y, 1)];
      } else {
        edges := edges + [Edge(q.x, q.y, p.x, p.y, -1)];
      }
    }

    /** One path of `nsvg__flattenShape`: its points */
    method FlattenPath(pts: seq<Point>, scale: real)
      requires WholePath(pts)
      modifies this`points
      ensures points == Outline(pts, scale, tessTol, distTol)
    {
      hide F.Added;
      hide F.AddedAll;
      hide F.Handed;
      hide CubicAt;
      points := [];
      AddPathPoint(Scaled(pts[0], scale), 0);
      var i := 0;
      ghost var n: nat := 0;
      while i < |pts| - 1
        invariant i == 3 * n < |pts| && points == Flattened(pts, n, scale, tessTol, distTol)
      {
        FlattenCubicBez(CubicAt(pts, i, scale), 0, 0);
        i, n := i + 3, n + 1;
      }
      AddPathPoint(Scaled(pts[0], scale), 0);
    }

    /** Its edges, around the points */
    method BuildEdges()
      modifies this`edges
      ensures var path := Places(points);
        edges == old(edges) + if path == [] then [] else EdgesFrom(path[|path| - 1], path)
    {
      hide AddEdge;
      hide EdgesFrom;
      ghost var path := Places(points);
      var i, j := 0, |points| - 1;
      assert path[0..] == path;
      while i < |points|
        invariant 0 <= i <= |points| && j == (if i == 0 then |points| else i) - 1
        invariant points != [] ==>
          edges + EdgesFrom(path[j], path[i..]) == old(edges) + EdgesFrom(path[|path| - 1], path)
        invariant points == [] ==> edges == old(edges)
      {
        EdgesStep(path, j, i);
        ghost var before, rest := edges, EdgesFrom(path[i], path[i + 1..]);
        AddSegment(points[j].at, points[i].at);
        assert before + (AddEdge(path[j], path[i]) + rest) == edges + rest;
        j := i;
        i := i + 1;
      }
      if points != [] {
        EdgesDone(path, j);
      }
    }

    /** `nsvg__flattenShape` */
    method FlattenShape(paths: seq<seq<Point>>, scale: real)
      requires forall k :: 0 <= k < |paths| ==> WholePath(paths[k])
      modifies this
      ensures edges == old(edges) + ShapeEdges(Outlines(paths, scale, tessTol, distTol))
    {
      hide Outline;
      hide ShapeEdges;
      hide EdgesFrom;
      ghost var all := Outlines(paths, scale, tessTol, distTol);
      var k := 0;
      assert all[..0] == [] && ShapeEdges([]) == [] by { ShapeNone(); }
      while k < |paths|
        invariant 0 <= k <= |paths| && edges == old(edges) + ShapeEdges(all[..k])
      {
        FlattenPath(paths[k], scale);
        BuildEdges();
        assert all[..k + 1] == all[..k] + [all[k]];
        ShapeSnoc(all[..k], all[k]);
        k := k + 1;
      }
      assert all[..k] == all;
    }

    /** The loop of `nsvgRasterize` over the edges */
    method PlaceEdges(tx: real, ty: real)
      modifies this`edges
      ensures edges == DeviceEdges(old(edges), tx, ty)
    {
      var i := 0;
      while i < |edges|
        invariant 0 <= i <= |edges| == |old(edges)|
        invariant forall k :: 0 <= k < |edges| ==>
          edges[k] == if k < i then DeviceEdge(old(edges)[k], tx, ty) else old(edges)[k]
      {
        var e := edges[i];
        edges := edges[i := Edge(tx + e.x0, (ty + e.y0) * 5.0, tx + e.x1, (ty + e.y1) * 5.0, e.dir)];
        i := i + 1;
      }
    }
  }
}
