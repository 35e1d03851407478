/** The painted coverage of closed paths, without reference to edges or to stepped positions: for
    every pixel the area that the paths wind around, up to rounding and drift. */
module RastExact {
  import opened RastCover
  import opened RastSweep
  import opened RastPaint
  import opened RastWinding
  import opened RastDrift
  import opened RastShape

  predicate Inside(rule: FillRule, wind: int) {
    if rule.NonZero? then wind != 0 else wind % 2 != 0
  }

  /** How many of the positions a <= u < b the rule fills, for the stepped positions of the edges
      that cross sub-scanline t. */
  ghost function WindArea(rule: FillRule, edges: seq<Edge>, t: int, a: int, b: int): nat
    requires SortedEdges(edges)
    decreases b - a
  {
    if a >= b then 0
    else WindArea(rule, edges, t, a, b - 1) + if Inside(rule, WindSum(edges, t, b - 1)) then 1 else 0
  }

  /** The same for the edges where they really are. */
  ghost function TrueArea(rule: FillRule, edges: seq<Edge>, t: int, a: int, b: int): nat
    requires SortedEdges(edges)
    decreases b - a
  {
    if a >= b then 0
    else TrueArea(rule, edges, t, a, b - 1) + if Inside(rule, TrueSum(edges, t, b - 1)) then 1 else 0
  }

  /** The paths, moved by (tx, ty), fill the point (x, y) of the bitmap. */
  predicate FilledAt(rule: FillRule, paths: seq<seq<Point>>, tx: real, ty: real, x: real, y: real) {
    Inside(rule, Winding(paths, x - tx, y - ty))
  }

  /** How many of the points u / 1024 with a <= u < b they fill at the height y. */
  function Extent(rule: FillRule, paths: seq<seq<Point>>, tx: real, ty: real, y: real, a: int, b: int): nat
    decreases b - a
  {
    if a >= b then 0
    else
      Extent(rule, paths, tx, ty, y, a, b - 1)
      + if FilledAt(rule, paths, tx, ty, (b - 1) as real / 1024.0, y) then 1 else 0
  }

  /** The area of pixel p of row y, at the heights of its first n sub-scanlines, in units of 1/1024
      each. */
  function PixelArea(rule: FillRule, paths: seq<seq<Point>>, tx: real, ty: real, y: nat, n: nat, p: int): nat {
    if n == 0 then 0
    else
      PixelArea(rule, paths, tx, ty, y, n - 1, p)
      + Extent(rule, paths, tx, ty, y as real + (n as real - 0.5) / 5.0, 1024 * p, 1024 * (p + 1))
  }

  lemma {:induction false} ExtentIs(rule: FillRule, paths: seq<seq<Point>>, edges: seq<Edge>, tx: real, ty: real,
                                    t: int, a: int, b: int)
    requires EdgesOf(edges, paths, tx, ty)
    ensures TrueArea(rule, edges, t, a, b) == Extent(rule, paths, tx, ty, Center(t) / 5.0, a, b)
    decreases b - a
  {
    hide Winding;
    hide TrueSum;
    hide Inside;
    if a < b {
      ExtentIs(rule, paths, edges, tx, ty, t, a, b - 1);
      EdgesWind(edges, paths, tx, ty, t, b - 1);
    }
  }

  /** The drift of the edges on these sub-scanlines. */
  ghost function RowDrift(edges: seq<Edge>, y: nat, n: nat): int
    requires SortedEdges(edges)
  {
    if n == 0 then 0 else RowDrift(edges, y, n - 1) + DriftAll(edges, 5 * y + n - 1)
  }

  /** The areas differ only where a position and its edge are on different sides. */
  lemma {:induction false} AreaDiffers(rule: FillRule, edges: seq<Edge>, t: int, a: int, b: int)
    requires SortedEdges(edges)
    ensures var d := DifferingAll(edges, t, a, b);
      0 - d <= TrueArea(rule, edges, t, a, b) - WindArea(rule, edges, t, a, b) <= d
    decreases b - a
  {
    hide WindSum;
    hide TrueSum;
    hide Differing;
    hide Inside;
    if a < b {
      AreaDiffers(rule, edges, t, a, b - 1);
      if Differing(edges, t, b - 1) == 0 {
        SameSum(edges, t, b - 1);
      }
    }
  }

  lemma {:induction false} AreaIsWound(paths: seq<seq<Point>>, edges: seq<Edge>, srcs: seq<nat>, t: int,
                                       rule: FillRule, a: int, b: int)
    requires SortedEdges(edges) && multiset(edges) == multiset(ShapeEdges(paths))
    requires IsOrder(edges, srcs, t) && Sorted(Line(edges, srcs, t))
    ensures Area(Spans(rule, Line(edges, srcs, t), 0, 0), a, b) == WindArea(rule, edges, t, a, b)
    decreases b - a
  {
    hide Spans;
    hide Line;
    hide WindSum;
    hide ShapeEdges;
    if a < b {
      AreaIsWound(paths, edges, srcs, t, rule, a, b - 1);
      ClosedPathsExact(paths, edges, srcs, t, rule, b - 1);
    }
  }

  /** It takes two edges to make a span. */
  lemma {:induction false} FewSpans(rule: FillRule, l: seq<Rec>, w: int, x0: int)
    ensures 2 * |Spans(rule, l, w, x0)| <= |l| + if w == 0 then 0 else 1
    decreases |l|
  {
    if l != [] {
      FewSpans(rule, l[1..], Next(rule, w, l[0].dir), if w == 0 then l[0].x else x0);
    }
  }

  /** No edge is listed twice. */
  lemma {:induction false} FewSources(srcs: seq<nat>, n: nat)
    requires (forall i, j :: 0 <= i < j < |srcs| ==> srcs[i] != srcs[j]) && AllBelow(srcs, n)
    ensures |srcs| <= n
    decreases n
  {
    if srcs != [] {
      assert srcs[0] < n;
    }
    if n > 0 && n - 1 in srcs {
      var i :| 0 <= i < |srcs| && srcs[i] == n - 1;
      var rest := srcs[..i] + srcs[i + 1..];
      FewSources(rest, n - 1);
    } else if n > 0 {
      FewSources(srcs, n - 1);
    }
  }

  /** What a pixel has, compared with the area and the drift of the edges. */
  predicate Close(cell: int, area: int, edges: int, drift: int) {
    && FIX * cell <= WEIGHT * (area + drift)
    && 2 * (WEIGHT * area - FIX * cell) <= (FIX - 1) * edges + 2 * WEIGHT * drift
  }

  /** One sub-scanline. */
  lemma LineExact(paths: seq<seq<Point>>, edges: seq<Edge>, tx: real, ty: real, srcs: seq<nat>, t: nat, rule: FillRule,
                  p: int)
    requires EdgesOf(edges, paths, tx, ty) && IsOrder(edges, srcs, t) && Sorted(Line(edges, srcs, t))
    ensures Close(LineGain(rule, Line(edges, srcs, t), p),
                  Extent(rule, paths, tx, ty, Center(t) / 5.0, 1024 * p, 1024 * (p + 1)), |edges|, DriftAll(edges, t))
  {
    hide Extent;
    hide Spans;
    hide WindSum;
    hide ShapeEdges;
    hide LineGain;
    hide Area;
    hide WindArea;
    hide TrueArea;
    hide DriftAll;
    hide DifferingAll;
    var line := Line(edges, srcs, t);
    LineBound(rule, line, p);
    DeviceShape(paths, tx, ty);
    AreaIsWound(DevicePaths(paths, tx, ty), edges, srcs, t, rule, FIX * p, FIX * (p + 1));
    ExtentIs(rule, paths, edges, tx, ty, t, FIX * p, FIX * (p + 1));
    AreaDiffers(rule, edges, t, FIX * p, FIX * (p + 1));
    DifferingBound(edges, t, FIX * p, FIX * (p + 1));
    FewSpans(rule, line, 0, 0);
    FewSources(srcs, |edges|);
  }

  lemma CloseSum(c1: int, a1: int, e1: int, d1: int, c2: int, a2: int, e2: int, d2: int)
    requires Close(c1, a1, e1, d1) && Close(c2, a2, e2, d2)
    ensures Close(c1 + c2, a1 + a2, e1 + e2, d1 + d2)
  {
  }

  lemma {:induction false} RowExact(paths: seq<seq<Point>>, edges: seq<Edge>, tx: real, ty: real,
                                    order: seq<seq<nat>>, rule: FillRule, y: nat, n: nat, p: int)
    requires EdgesOf(edges, paths, tx, ty) && 5 * y + n <= |order| && Ordered5(edges, order)
    ensures Close(RowGain(rule, edges, order, y, n, p), PixelArea(rule, paths, tx, ty, y, n, p), n * |edges|,
                  RowDrift(edges, y, n))
    decreases n
  {
    hide LineGain;
    hide Extent;
    hide ShapeEdges;
    hide Line;
    hide DriftAll;
    hide Close;
    if n > 0 {
      var t := 5 * y + n - 1;
      RowExact(paths, edges, tx, ty, order, rule, y, n - 1, p);
      LineExact(paths, edges, tx, ty, order[t], t, rule, p);
      assert n * |edges| == (n - 1) * |edges| + |edges|;
      assert Center(t) / 5.0 == y as real + (n as real - 0.5) / 5.0;
      CloseSum(RowGain(rule, edges, order, y, n - 1, p), PixelArea(rule, paths, tx, ty, y, n - 1, p), (n - 1) * |edges|,
               RowDrift(edges, y, n - 1), LineGain(rule, Line(edges, order[t], t), p),
               Extent(rule, paths, tx, ty, Center(t) / 5.0, 1024 * p, 1024 * (p + 1)), |edges|, DriftAll(edges, t));
    } else {
      CloseNone();
    }
  }

  lemma CloseNone()
    ensures Close(0, 0, 0, 0)
  {
  }

  /** What `nsvgRasterize` paints of closed paths: every pixel has 51/1024 of the area that the
      paths wind around at the heights of its five sub-scanlines, as the fill rule asks for.
      Rounding loses less than half a unit for every edge on each of them, and 51/1024 of the
      drift of the edges may be too little or too much. */
  lemma PaintedExact(paths: seq<seq<Point>>, edges: seq<Edge>, tx: real, ty: real, order: seq<seq<nat>>, rows: seq<Row>,
                     rule: FillRule, width: nat, y: nat, p: nat)
    requires EdgesOf(edges, paths, tx, ty)
    requires |order| == 5 * |rows| && Ordered5(edges, order) && RowsPainted(rule, edges, order, rows, width)
    requires y < |rows| && p < width
    ensures Close(CellAt(rows[y], p), PixelArea(rule, paths, tx, ty, y, 5, p), 5 * |edges|, RowDrift(edges, y, 5))
  {
    hide PixelArea;
    hide RowGain;
    hide Ordered5;
    hide EdgesOf;
    hide Close;
    assert SortedEdges(edges) by { EdgesSorted(edges, paths, tx, ty); }
    RowExact(paths, edges, tx, ty, order, rule, y, 5, p);
  }

  lemma EdgesSorted(edges: seq<Edge>, paths: seq<seq<Point>>, tx: real, ty: real)
    requires EdgesOf(edges, paths, tx, ty)
    ensures SortedEdges(edges)
  {
  }
}
