/** What the filled spans mean: on every sub-scanline of closed paths they are exactly where
    the winding number is not zero, or odd. */
module RastWinding {
  import opened RastCover
  import opened RastSweep
  import opened RastPaint
  import RastFlatten

  type Point = RastFlatten.Point

  /** `nsvg__addEdge` */
  function AddEdge(p: Point, q: Point): seq<Edge> {
    if p.y == q.y then []
    else if p.y < q.y then [Edge(p.x, p.y, q.x, q.y, 1)]
    else [Edge(q.x, q.y, p.x, p.y, -1)]
  }

  /** The edges from prev to the first point, and on from point to point. */
  function EdgesFrom(prev: Point, pts: seq<Point>): seq<Edge>
    decreases pts
  {
    if pts == [] then [] else AddEdge(prev, pts[0]) + EdgesFrom(pts[0], pts[1..])
  }

  /** The end of `nsvg__flattenShape`: a closed path for every list of points. */
  function ShapeEdges(paths: seq<seq<Point>>): seq<Edge> {
    if paths == [] then []
    else (if paths[0] == [] then [] else EdgesFrom(paths[0][|paths[0]| - 1], paths[0])) + ShapeEdges(paths[1..])
  }

  // ---------- sums over edges ----------

  function Tally(edges: seq<Edge>, f: Edge -> int): int {
    if edges == [] then 0 else f(edges[0]) + Tally(edges[1..], f)
  }

  lemma {:induction false} TallyJoin(a: seq<Edge>, b: seq<Edge>, f: Edge -> int)
    ensures Tally(a + b, f) == Tally(a, f) + Tally(b, f)
  {
    if a == [] {
      assert a + b == b;
    } else {
      assert (a + b)[1..] == a[1..] + b;
      TallyJoin(a[1..], b, f);
    }
  }

  lemma TallyWithout(b: seq<Edge>, i: nat, f: Edge -> int)
    requires i < |b|
    ensures Tally(b, f) == f(b[i]) + Tally(b[..i] + b[i + 1..], f)
  {
    assert b == b[..i] + ([b[i]] + b[i + 1..]);
    TallyJoin(b[..i], [b[i]] + b[i + 1..], f);
    TallyJoin(b[..i], b[i + 1..], f);
  }

  lemma MultisetWithout(b: seq<Edge>, i: nat)
    requires i < |b|
    ensures multiset(b[..i] + b[i + 1..]) == multiset(b) - multiset{b[i]}
  {
    assert b == b[..i] + [b[i]] + b[i + 1..];
  }

  /** Sorting does not change a sum over the edges. */
  lemma {:induction false} TallySorted(a: seq<Edge>, b: seq<Edge>, f: Edge -> int)
    requires multiset(a) == multiset(b)
    ensures Tally(a, f) == Tally(b, f)
    decreases |a|
  {
    if a == [] {
      assert |multiset(b)| == 0;
    } else {
      assert a[0] in multiset(b);
      var i :| 0 <= i < |b| && b[i] == a[0];
      assert [] + a[1..] == a[1..];
      MultisetWithout(a, 0);
      MultisetWithout(b, i);
      TallyWithout(b, i, f);
      TallySorted(a[1..], b[..i] + b[i + 1..], f);
    }
  }

  // ---------- the sum of the directions ----------

  function Cross(e: Edge, t: int): int {
    if Crosses(e, t) then e.dir else 0
  }

  function CrossOf(t: int): Edge -> int {
    e => Cross(e, t)
  }

  function DirSum(edges: seq<Edge>, t: int): int {
    Tally(edges, CrossOf(t))
  }

  function Below(p: Point, t: int): int {
    if p.y <= Center(t) then 1 else 0
  }

  lemma {:induction false} FromSum(prev: Point, pts: seq<Point>, t: int)
    ensures DirSum(EdgesFrom(prev, pts), t) == Below(prev, t) - Below(if pts == [] then prev else pts[|pts| - 1], t)
    decreases pts
  {
    if pts != [] {
      TallyJoin(AddEdge(prev, pts[0]), EdgesFrom(pts[0], pts[1..]), CrossOf(t));
      FromSum(pts[0], pts[1..], t);
    }
  }

  /** On every sub-scanline the crossing edges of closed paths cancel out. */
  lemma {:induction false} ShapeSum(paths: seq<seq<Point>>, t: int)
    ensures DirSum(ShapeEdges(paths), t) == 0
  {
    if paths != [] {
      var first := if paths[0] == [] then [] else EdgesFrom(paths[0][|paths[0]| - 1], paths[0]);
      if paths[0] != [] {
        FromSum(paths[0][|paths[0]| - 1], paths[0], t);
      }
      TallyJoin(first, ShapeEdges(paths[1..]), CrossOf(t));
      ShapeSum(paths[1..], t);
    }
  }

  // ---------- winding ----------

  /** The winding number at u: the directions of the crossing edges at or left of u. */
  function WindSum(edges: seq<Edge>, t: int, u: int): int
    requires forall k :: 0 <= k < |edges| ==> edges[k].y0 != edges[k].y1
  {
    if edges == [] then 0
    else
      var e := edges[|edges| - 1];
      WindSum(edges[..|edges| - 1], t, u) + if Crosses(e, t) && XAt(e, t) <= u then e.dir else 0
  }

  predicate AllBelow(srcs: seq<nat>, n: int) {
    forall i :: 0 <= i < |srcs| ==> srcs[i] < n
  }

  /** The directions of the listed edges that count at u. */
  function Part(edges: seq<Edge>, srcs: seq<nat>, t: int, u: int): int
    requires forall k :: 0 <= k < |edges| ==> edges[k].y0 != edges[k].y1
    requires AllBelow(srcs, |edges|)
  {
    if srcs == [] then 0
    else (if XAt(edges[srcs[0]], t) <= u then edges[srcs[0]].dir else 0) + Part(edges, srcs[1..], t, u)
  }

  lemma {:induction false} PartJoin(edges: seq<Edge>, a: seq<nat>, b: seq<nat>, t: int, u: int)
    requires forall k :: 0 <= k < |edges| ==> edges[k].y0 != edges[k].y1
    requires AllBelow(a, |edges|) && AllBelow(b, |edges|)
    ensures Part(edges, a + b, t, u) == Part(edges, a, t, u) + Part(edges, b, t, u)
  {
    if a == [] {
      assert a + b == b;
    } else {
      assert (a + b)[1..] == a[1..] + b;
      PartJoin(edges, a[1..], b, t, u);
    }
  }

  lemma {:induction false} PartFewer(edges: seq<Edge>, srcs: seq<nat>, t: int, u: int)
    requires edges != [] && forall k :: 0 <= k < |edges| ==> edges[k].y0 != edges[k].y1
    requires AllBelow(srcs, |edges| - 1)
    ensures Part(edges[..|edges| - 1], srcs, t, u) == Part(edges, srcs, t, u)
  {
    if srcs != [] {
      PartFewer(edges, srcs[1..], t, u);
    }
  }

  /** In whatever order the edges are listed. */
  lemma {:induction false} PartAll(edges: seq<Edge>, srcs: seq<nat>, t: int, u: int)
    requires (forall k :: 0 <= k < |edges| ==> edges[k].y0 != edges[k].y1) && IsOrder(edges, srcs, t)
    ensures AllBelow(srcs, |edges|) && Part(edges, srcs, t, u) == WindSum(edges, t, u)
    decreases |edges|
  {
    hide XAt;
    hide Part;
    hide Crosses;
    OrderKnown(edges, srcs, t);
    hide IsOrder;
    hide AllBelow;
    if edges == [] {
      PartNone(edges, srcs, t, u);
    } else {
      var k: nat := |edges| - 1;
      var fewer := edges[..k];
      if k in srcs {
        var i :| 0 <= i < |srcs| && srcs[i] == k;
        OrderWithout(edges, srcs, t, i);
        PartWithout(edges, srcs, t, u, i);
        PartAll(fewer, srcs[..i] + srcs[i + 1..], t, u);
      } else {
        OrderFewer(edges, srcs, t);
        PartFewer(edges, srcs, t, u);
        PartAll(fewer, srcs, t, u);
      }
    }
  }

  lemma OrderKnown(edges: seq<Edge>, srcs: seq<nat>, t: int)
    requires IsOrder(edges, srcs, t)
    ensures AllBelow(srcs, |edges|)
    ensures edges != [] ==> var k: nat := |edges| - 1; k in srcs <==> Crosses(edges[k], t)
  {
    hide Crosses;
    forall i | 0 <= i < |srcs| ensures srcs[i] < |edges| {
      assert srcs[i] in srcs;
    }
  }

  lemma PartNone(edges: seq<Edge>, srcs: seq<nat>, t: int, u: int)
    requires edges == [] && AllBelow(srcs, 0)
    ensures Part(edges, srcs, t, u) == 0
  {
  }

  lemma PartWithout(edges: seq<Edge>, srcs: seq<nat>, t: int, u: int, i: nat)
    requires forall k :: 0 <= k < |edges| ==> edges[k].y0 != edges[k].y1
    requires AllBelow(srcs, |edges|) && i < |srcs| && srcs[i] == |edges| - 1
    requires AllBelow(srcs[..i] + srcs[i + 1..], |edges| - 1)
    ensures var e := edges[|edges| - 1];
      Part(edges, srcs, t, u) == Part(edges[..|edges| - 1], srcs[..i] + srcs[i + 1..], t, u) + if XAt(e, t) <= u
        then e.dir else 0
  {
    hide XAt;
    var k: nat, a, b := |edges| - 1, srcs[..i], srcs[i + 1..];
    assert srcs == a + ([k] + b);
    PartJoin(edges, a, [k] + b, t, u);
    PartJoin(edges, [k], b, t, u);
    PartJoin(edges, a, b, t, u);
    PartFewer(edges, a + b, t, u);
  }

  lemma OrderFewer(edges: seq<Edge>, srcs: seq<nat>, t: int)
    requires edges != [] && IsOrder(edges, srcs, t) && |edges| - 1 !in srcs
    ensures IsOrder(edges[..|edges| - 1], srcs, t) && AllBelow(srcs, |edges| - 1)
  {
    forall i | 0 <= i < |srcs| ensures srcs[i] < |edges| - 1 {
      assert srcs[i] in srcs;
    }
  }

  lemma OrderWithout(edges: seq<Edge>, srcs: seq<nat>, t: int, i: nat)
    requires edges != [] && IsOrder(edges, srcs, t) && i < |srcs| && srcs[i] == |edges| - 1
    ensures var rest := srcs[..i] + srcs[i + 1..];
      IsOrder(edges[..|edges| - 1], rest, t) && AllBelow(rest, |edges| - 1)
  {
    var rest := srcs[..i] + srcs[i + 1..];
    forall j: nat | j < |rest| ensures rest[j] in srcs && rest[j] != |edges| - 1 {
      var j' := if j < i then j else j + 1;
      assert rest[j] == srcs[j'];
    }
    forall k: nat | k in srcs && k != |edges| - 1 ensures k in rest {
      var j :| 0 <= j < |srcs| && srcs[j] == k;
      assert rest[if j < i then j else j - 1] == k;
    }
    forall j, j' | 0 <= j < j' < |rest| ensures rest[j] != rest[j'] {
      assert rest[j] == srcs[if j < i then j else j + 1] && rest[j'] == srcs[if j' < i then j' else j' + 1];
    }
  }

  // ---------- the spans of closed paths ----------

  /** The non-zero state is the winding number. */
  lemma {:induction false} LineWind(edges: seq<Edge>, l: seq<Rec>, srcs: seq<nat>, w: int, t: int, u: int)
    requires forall k :: 0 <= k < |edges| ==> edges[k].y0 != edges[k].y1
    requires |l| == |srcs| && forall i :: 0 <= i < |srcs| ==>
      srcs[i] < |edges| && l[i] == Rec(XAt(edges[srcs[i]], t), edges[srcs[i]].dir)
    ensures Wind(NonZero, l, w, u) == w + Part(edges, srcs, t, u)
    decreases |l|
  {
    hide XAt;
    if l != [] {
      LineWind(edges, l[1..], srcs[1..], if l[0].x <= u then w + l[0].dir else w, t, u);
    }
  }

  /** The even-odd state is its parity. */
  lemma {:induction false} ParityWind(l: seq<Rec>, w: int, u: int)
    requires forall i :: 0 <= i < |l| ==> l[i].dir == 1 || l[i].dir == -1
    ensures Wind(EvenOdd, l, w % 2, u) == Wind(NonZero, l, w, u) % 2
    decreases |l|
  {
    if l != [] {
      var w' := if l[0].x <= u then w + l[0].dir else w;
      ParityWind(l[1..], w', u);
    }
  }

  /** Far to the right all crossing edges count. */
  lemma {:induction false} WindSumFar(edges: seq<Edge>, t: int, u: int)
    requires forall k :: 0 <= k < |edges| ==> edges[k].y0 != edges[k].y1 && XAt(edges[k], t) <= u
    ensures WindSum(edges, t, u) == DirSum(edges, t)
    decreases |edges|
  {
    hide XAt;
    if edges != [] {
      var init, e := edges[..|edges| - 1], edges[|edges| - 1];
      WindSumFar(init, t, u);
      TallyJoin(init, [e], CrossOf(t));
      assert edges == init + [e];
    }
  }

  function Rightmost(edges: seq<Edge>, t: int): (u: int)
    requires forall k :: 0 <= k < |edges| ==> edges[k].y0 != edges[k].y1
    ensures forall k :: 0 <= k < |edges| ==> XAt(edges[k], t) <= u
  {
    if edges == [] then 0
    else
      var u, x := Rightmost(edges[..|edges| - 1], t), XAt(edges[|edges| - 1], t);
      if x > u then x else u
  }

  lemma LineUp(edges: seq<Edge>, srcs: seq<nat>, t: int, u: int)
    requires SortedEdges(edges) && IsOrder(edges, srcs, t)
    ensures Wind(NonZero, Line(edges, srcs, t), 0, u) == WindSum(edges, t, u)
  {
    PartAll(edges, srcs, t, u);
    LineWind(edges, Line(edges, srcs, t), srcs, 0, t, u);
  }

  /** The crossing edges of closed paths cancel out, so no span stays open. */
  lemma LineTotal(paths: seq<seq<Point>>, edges: seq<Edge>, srcs: seq<nat>, t: int, rule: FillRule)
    requires SortedEdges(edges) && multiset(edges) == multiset(ShapeEdges(paths)) && IsOrder(edges, srcs, t)
    ensures Total(rule, Line(edges, srcs, t), 0) == 0
    ensures forall i :: 0 <= i < |srcs| ==> Line(edges, srcs, t)[i].dir == 1 || Line(edges, srcs, t)[i].dir == -1
  {
    hide XAt;
    var line, u := Line(edges, srcs, t), Rightmost(edges, t);
    forall i | 0 <= i < |line| ensures line[i].x <= u && (line[i].dir == 1 || line[i].dir == -1) {
      assert srcs[i] in srcs && edges[srcs[i]] in multiset(edges);
      ShapeDirs(paths, edges[srcs[i]]);
    }
    LineUp(edges, srcs, t, u);
    WindSumFar(edges, t, u);
    TallySorted(edges, ShapeEdges(paths), CrossOf(t));
    ShapeSum(paths, t);
    ParityWind(line, 0, u);
    WindRight(rule, line, 0, u);
  }

  lemma {:induction false} FromDirs(prev: Point, pts: seq<Point>, e: Edge)
    requires e in EdgesFrom(prev, pts)
    ensures e.dir == 1 || e.dir == -1
    decreases pts
  {
    if e !in AddEdge(prev, pts[0]) {
      FromDirs(pts[0], pts[1..], e);
    }
  }

  lemma {:induction false} ShapeDirs(paths: seq<seq<Point>>, e: Edge)
    requires e in ShapeEdges(paths)
    ensures e.dir == 1 || e.dir == -1
  {
    if paths[0] != [] && e in EdgesFrom(paths[0][|paths[0]| - 1], paths[0]) {
      FromDirs(paths[0][|paths[0]| - 1], paths[0], e);
    } else {
      ShapeDirs(paths[1..], e);
    }
  }

  /** On every sub-scanline of closed paths, what is filled is exactly what the fill rule says:
      where the winding number of the crossing edges is not zero, or where it is odd. */
  lemma ClosedPathsExact(paths: seq<seq<Point>>, edges: seq<Edge>, srcs: seq<nat>, t: int, rule: FillRule, u: int)
    requires SortedEdges(edges) && multiset(edges) == multiset(ShapeEdges(paths))
    requires IsOrder(edges, srcs, t) && Sorted(Line(edges, srcs, t))
    ensures var wind := WindSum(edges, t, u);
      Covered(Spans(rule, Line(edges, srcs, t), 0, 0), u) <==> if rule.NonZero? then wind != 0 else wind % 2 != 0
  {
    hide XAt;
    hide WindSum;
    hide Spans;
    hide ShapeEdges;
    hide Wind;
    var line := Line(edges, srcs, t);
    LineTotal(paths, edges, srcs, t, rule);
    SpansExact(rule, line);
    LineUp(edges, srcs, t, u);
    ParityWind(line, 0, u);
    hide Line;
    hide Total;
    SpansCover(rule, line, 0, 0, u);
  }
}
