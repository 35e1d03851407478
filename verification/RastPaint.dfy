/** Filling the rows of the bitmap from the active edges. */
module RastPaint {
  import opened RastCover
  import opened RastList
  import opened RastSweep

  // ---------- filling from the list ----------

  ghost function Recs(l: seq<Node>): (r: seq<Rec>)
    reads Set(l)`x, Set(l)`dir
    ensures |r| == |l| && forall i :: 0 <= i < |l| ==> r[i] == Rec(l[i].x, l[i].dir)
  {
    if l == [] then [] else
      assert Set(l[1..]) <= Set(l);
      [Rec(l[0].x, l[0].dir)] + Recs(l[1..])
  }

  lemma RecsSorted(l: seq<Node>)
    requires Ascending(Xs(l))
    ensures Sorted(Recs(l))
  {
    hide Xs;
    hide Recs;
    forall i, j | 0 <= i < j < |l| ensures Recs(l)[i].x <= Recs(l)[j].x {
      assert Xs(l)[i] <= Xs(l)[j];
    }
  }

  lemma AddTwice(c: Cell, g: nat, h: nat)
    ensures AddByte(AddByte(c, g), h) == AddByte(c, g + h) && AddByte(c, 0) == c
  {
    AddIs(c, g);
    AddIs(c, g + h);
    AddIs(AddByte(c, g), h);
    Wrap((c + g) % 256 + h, (c + g) / 256);
  }

  lemma Wrap(x: int, k: int)
    ensures (x + 256 * k) % 256 == x % 256
  {
  }

  lemma AddIs(c: Cell, g: nat)
    ensures AddByte(c, g) == (c + g) % 256
  {
    Wrap(c + g % 256, g / 256);
  }

  lemma {:induction false} GainSnoc(a: seq<Span>, s: Span, p: int)
    ensures GainAll(a + [s], p) == GainAll(a, p) + Gain(s, p)
  {
    if a == [] {
      assert a + [s] == [s] && [s][1..] == [];
    } else {
      assert (a + [s])[1..] == a[1..] + [s];
      GainSnoc(a[1..], s, p);
    }
  }

  /** The spans done have been added to the cells, and lie between xmin and xmax. */
  ghost predicate Filled(before: seq<Cell>, now: seq<Cell>, len: nat, done: seq<Span>, xmin: int, xmax: int)
    requires len <= |before| == |now|
  {
    && (forall p :: 0 <= p < len ==> now[p] == AddByte(before[p], GainAll(done, p)))
    && (forall p :: len <= p < |now| ==> now[p] == before[p])
    && (forall p :: GainAll(done, p) > 0 ==> xmin <= p <= xmax)
  }

  /** Adds one span. */
  method FillSpan(scanline: array<Cell>, len: nat, x0: int, x1: int, xmin: int, xmax: int, ghost before: seq<Cell>,
                  ghost done: seq<Span>)
    returns (xmin': int, xmax': int)
    requires len <= scanline.Length == |before| && x0 <= x1 && Filled(before, scanline[..], len, done, xmin, xmax)
    modifies scanline
    ensures Filled(before, scanline[..], len, done + [Span(x0, x1)], xmin', xmax') && xmin' <= xmin && xmax' >= xmax
  {
    hide Gain;
    hide AddByte;
    hide GainAll;
    ghost var now := scanline[..];
    xmin', xmax' := FillScanline(scanline, len, x0, x1, xmin, xmax);
    forall p ensures GainAll(done + [Span(x0, x1)], p) == GainAll(done, p) + Gain(Span(x0, x1), p) {
      GainSnoc(done, Span(x0, x1), p);
    }
    forall p | 0 <= p < len ensures scanline[p] == AddByte(before[p], GainAll(done + [Span(x0, x1)], p)) {
      AddTwice(before[p], GainAll(done, p), Gain(Span(x0, x1), p));
      assert now[p] == AddByte(before[p], GainAll(done, p));
    }
    forall p | GainAll(done + [Span(x0, x1)], p) > 0 ensures xmin' <= p <= xmax' {
      GainIsPiece(x0, x1, p);
    }
  }

  /** The walk over the list has come to cur, with state w and open span start x0. */
  ghost predicate At(rule: FillRule, recs: seq<Rec>, i: nat, done: seq<Span>, w: int, x0: int)
  {
    && i <= |recs| && Spans(rule, recs, 0, 0) == done + Spans(rule, recs[i..], w, x0)
    && (w != 0 && i < |recs| ==> x0 <= recs[i].x)
  }

  lemma AtNext(rule: FillRule, recs: seq<Rec>, i: nat, done: seq<Span>, w: int, x0: int)
    requires At(rule, recs, i, done, w, x0) && i < |recs| && Sorted(recs)
    ensures var w', x := Next(rule, w, recs[i].dir), recs[i].x;
      && (w == 0 ==> At(rule, recs, i + 1, done, w', x))
      && (w != 0 && w' == 0 ==> At(rule, recs, i + 1, done + [Span(x0, x)], w', x0))
      && (w != 0 && w' != 0 ==> At(rule, recs, i + 1, done, w', x0))
  {
    assert recs[i..][1..] == recs[i + 1..];
    assert i + 1 < |recs| ==> recs[i].x <= recs[i + 1].x;
  }

  lemma NodeAt(active: Node?, l: seq<Node>, i: nat)
    requires IsList(active, l) && i < |l|
    ensures l[i].next == (if i + 1 < |l| then l[i + 1] else null) && Recs(l)[i] == Rec(l[i].x, l[i].dir)
  {
    assert l[i].next == After(l, i, null);
  }

  /** The non-zero half of `nsvg__fillActiveEdges` */
  method FillNonZero(scanline: array<Cell>, len: nat, active: Node?, xmin: int, xmax: int, ghost l: seq<Node>)
    returns (xmin': int, xmax': int)
    requires len <= scanline.Length && IsList(active, l) && Ascending(Xs(l))
    modifies scanline
    ensures Filled(old(scanline[..]), scanline[..], len, Spans(NonZero, Recs(l), 0, 0), xmin', xmax')
    ensures xmin' <= xmin && xmax' >= xmax
  {
    hide Recs;
    hide Spans;
    hide At;
    hide Xs;
    hide Filled;
    hide Distinct;
    hide After;
    hide Ascending;
    RecsSorted(l);
    ghost var recs, i, done: seq<Span>, before := Recs(l), 0, [], scanline[..];
    var x0, w, e := 0, 0, active;
    xmin', xmax' := xmin, xmax;
    FillStart(NonZero, recs, before, len, xmin, xmax);
    HeadAt(active, l);
    while e != null
      invariant IsList(active, l) && Recs(l) == recs && i <= |l| && e == (if i < |l| then l[i] else null)
      invariant At(NonZero, recs, i, done, w, x0)
      invariant Filled(before, scanline[..], len, done, xmin', xmax') && xmin' <= xmin && xmax' >= xmax
      decreases |l| - i
    {
      NodeAt(active, l, i);
      AtNext(NonZero, recs, i, done, w, x0);
      if w == 0 {
        x0 := e.x;
        w := w + e.dir;
      } else {
        var x1 := e.x;
        AtOrder(NonZero, recs, i, done, w, x0);
        w := w + e.dir;
        if w == 0 {
          xmin', xmax' := FillSpan(scanline, len, x0, x1, xmin', xmax', before, done);
          done := done + [Span(x0, x1)];
          assert At(NonZero, recs, i + 1, done, w, x0);
        }
      }
      assert At(NonZero, recs, i + 1, done, w, x0);
      e := e.next;
      i := i + 1;
    }
    FillEnd(NonZero, recs, i, done, w, x0);
  }

  /** The even-odd half */
  method FillEvenOdd(scanline: array<Cell>, len: nat, active: Node?, xmin: int, xmax: int, ghost l: seq<Node>)
    returns (xmin': int, xmax': int)
    requires len <= scanline.Length && IsList(active, l) && Ascending(Xs(l))
    modifies scanline
    ensures Filled(old(scanline[..]), scanline[..], len, Spans(EvenOdd, Recs(l), 0, 0), xmin', xmax')
    ensures xmin' <= xmin && xmax' >= xmax
  {
    hide Recs;
    hide Spans;
    hide At;
    hide Xs;
    hide Filled;
    hide Distinct;
    hide After;
    hide Ascending;
    RecsSorted(l);
    ghost var recs, i, done: seq<Span>, before := Recs(l), 0, [], scanline[..];
    var x0, w, e := 0, 0, active;
    xmin', xmax' := xmin, xmax;
    FillStart(EvenOdd, recs, before, len, xmin, xmax);
    HeadAt(active, l);
    while e != null
      invariant IsList(active, l) && Recs(l) == recs && i <= |l| && e == (if i < |l| then l[i] else null)
      invariant At(EvenOdd, recs, i, done, w, x0)
      invariant Filled(before, scanline[..], len, done, xmin', xmax') && xmin' <= xmin && xmax' >= xmax
      decreases |l| - i
    {
      NodeAt(active, l, i);
      AtNext(EvenOdd, recs, i, done, w, x0);
      if w == 0 {
        x0 := e.x;
        w := 1;
      } else {
        var x1 := e.x;
        AtOrder(EvenOdd, recs, i, done, w, x0);
        w := 0;
        xmin', xmax' := FillSpan(scanline, len, x0, x1, xmin', xmax', before, done);
        done := done + [Span(x0, x1)];
      }
      e := e.next;
      i := i + 1;
    }
    FillEnd(EvenOdd, recs, i, done, w, x0);
  }

  /** `nsvg__fillActiveEdges` */
  method FillActiveEdges(scanline: array<Cell>, len: nat, active: Node?, rule: FillRule, xmin: int, xmax: int,
                         ghost l: seq<Node>)
    returns (xmin': int, xmax': int)
    requires len <= scanline.Length && IsList(active, l) && Ascending(Xs(l))
    modifies scanline
    ensures Filled(old(scanline[..]), scanline[..], len, Spans(rule, Recs(l), 0, 0), xmin', xmax')
    ensures xmin' <= xmin && xmax' >= xmax
  {
    if rule.NonZero? {
      xmin', xmax' := FillNonZero(scanline, len, active, xmin, xmax, l);
    } else {
      xmin', xmax' := FillEvenOdd(scanline, len, active, xmin, xmax, l);
    }
  }

  lemma HeadAt(active: Node?, l: seq<Node>)
    requires IsList(active, l)
    ensures active == if 0 < |l| then l[0] else null
  {
  }

  lemma FillStart(rule: FillRule, recs: seq<Rec>, before: seq<Cell>, len: nat, xmin: int, xmax: int)
    requires len <= |before|
    ensures At(rule, recs, 0, [], 0, 0) && Filled(before, before, len, [], xmin, xmax)
  {
    assert recs[0..] == recs;
    hide Spans;
  }

  lemma AtOrder(rule: FillRule, recs: seq<Rec>, i: nat, done: seq<Span>, w: int, x0: int)
    requires At(rule, recs, i, done, w, x0) && i < |recs| && w != 0
    ensures x0 <= recs[i].x
  {
  }

  lemma FillEnd(rule: FillRule, recs: seq<Rec>, i: nat, done: seq<Span>, w: int, x0: int)
    requires At(rule, recs, i, done, w, x0) && i == |recs|
    ensures done == Spans(rule, recs, 0, 0)
  {
    assert Spans(rule, recs[i..], w, x0) == [];
  }

  // ---------- which edges, in which order ----------

  /** The edges that cross sub-scanline t, each once. */
  ghost predicate IsOrder(edges: seq<Edge>, srcs: seq<nat>, t: int) {
    && (forall i, j :: 0 <= i < j < |srcs| ==> srcs[i] != srcs[j])
    && (forall k: nat :: k in srcs <==> k < |edges| && Crosses(edges[k], t))
  }

  /** Their positions at sub-scanline t. */
  ghost function Line(edges: seq<Edge>, srcs: seq<nat>, t: int): (r: seq<Rec>)
    requires SortedEdges(edges) && IsOrder(edges, srcs, t)
    ensures |r| == |srcs|
    ensures forall i :: 0 <= i < |srcs| ==> srcs[i] in srcs && r[i] == Rec(XAt(edges[srcs[i]], t), edges[srcs[i]].dir)
  {
    seq(|srcs|, i requires 0 <= i < |srcs| => assert srcs[i] in srcs; Rec(XAt(edges[srcs[i]], t), edges[srcs[i]].dir))
  }

  ghost function Srcs(l: seq<Node>): (r: seq<nat>)
    reads Set(l)`src
    ensures |r| == |l| && forall i :: 0 <= i < |l| ==> r[i] == l[i].src
  {
    if l == [] then [] else
      assert Set(l[1..]) <= Set(l);
      [l[0].src] + Srcs(l[1..])
  }

  /** The active list holds exactly the crossing edges. */
  lemma ActiveExact(r: Rasterizer, l: seq<Node>, e: nat, t: int)
    requires SortedEdges(r.edges) && Records(r.edges, Set(l), e, t) && r.Reached(e, t, t + 1) && Distinct(l) && t >= 0
    ensures IsOrder(r.edges, Srcs(l), t) && Line(r.edges, Srcs(l), t) == Recs(l)
  {
    hide Srcs;
    hide Recs;
    hide XAt;
    var srcs := Srcs(l);
    forall i, j | 0 <= i < j < |srcs| ensures srcs[i] != srcs[j] {
      assert l[i] in Set(l) && l[j] in Set(l) && l[i] != l[j];
    }
    forall k: nat ensures k in srcs <==> k < |r.edges| && Crosses(r.edges[k], t) {
      SourceListed(l, k);
      if k < |r.edges| {
        CrossesExactly(r, e, t, k);
      }
      assert k in Sources(Set(l)) <==> k in Alive(r.edges, e, t);
    }
    forall i | 0 <= i < |l| ensures Line(r.edges, srcs, t)[i] == Recs(l)[i] {
      assert l[i] in Set(l) && Tracks(r.edges, l[i], t);
    }
  }

  lemma SourceListed(l: seq<Node>, k: nat)
    ensures k in Srcs(l) <==> k in Sources(Set(l))
  {
    hide Srcs;
    if k in Srcs(l) {
      var i :| 0 <= i < |l| && Srcs(l)[i] == k;
      assert l[i] in Set(l);
    }
    if k in Sources(Set(l)) {
      var n :| n in Set(l) && n.src == k;
      var i :| 0 <= i < |l| && l[i] == n;
      assert Srcs(l)[i] == k;
    }
  }

  lemma CrossesExactly(r: Rasterizer, e: nat, t: int, k: nat)
    requires r.Reached(e, t, t + 1) && k < |r.edges| && t >= 0 && SortedEdges(r.edges)
    ensures k in Alive(r.edges, e, t) <==> Crosses(r.edges[k], t)
  {
    if k >= e {
      assert First(r.edges[k]) >= t + 1;
    } else {
      assert First(r.edges[k]) <= t;
    }
  }

  // ---------- rows ----------

  /** What the first n sub-scanlines of row y add to the cell of pixel p. */
  ghost function RowGain(rule: FillRule, edges: seq<Edge>, order: seq<seq<nat>>, y: nat, n: nat, p: int): nat
    requires SortedEdges(edges) && 5 * y + n <= |order| && Ordered5(edges, order)
  {
    if n == 0 then 0
    else RowGain(rule, edges, order, y, n - 1, p) + LineGain(rule, Line(edges, order[5 * y + n - 1], 5 * y + n - 1), p)
  }

  ghost predicate Ordered5(edges: seq<Edge>, order: seq<seq<nat>>)
    requires SortedEdges(edges)
  {
    forall t :: 0 <= t < |order| ==> IsOrder(edges, order[t], t) && Sorted(Line(edges, order[t], t))
  }

  /** The part of a row that is painted: pixels start, start + 1, ... */
  datatype Row = Row(start: nat, cells: seq<Cell>)

  function CellAt(row: Row, p: int): Cell {
    if row.start <= p < row.start + |row.cells| then row.cells[p - row.start] else 0
  }

  /** The cells after n sub-scanlines of row y. */
  ghost predicate RowCells(rule: FillRule, edges: seq<Edge>, order: seq<seq<nat>>, y: nat, n: nat, cells: seq<Cell>,
                           len: nat, xmin: int, xmax: int)
    requires SortedEdges(edges) && 5 * y + n <= |order| && Ordered5(edges, order) && len <= |cells|
  {
    && (forall p :: 0 <= p < len ==> cells[p] == RowGain(rule, edges, order, y, n, p) <= WEIGHT * n)
    && (forall p :: RowGain(rule, edges, order, y, n, p) > 0 ==> xmin <= p <= xmax)
  }

  lemma RowNext(rule: FillRule, edges: seq<Edge>, order: seq<seq<nat>>, y: nat, n: nat, before: seq<Cell>,
                now: seq<Cell>, len: nat,
                xmin: int, xmax: int, xmin': int, xmax': int)
    requires SortedEdges(edges) && 5 * y + n < |order| && Ordered5(edges, order) && len <= |before| == |now| && n < 5
    requires RowCells(rule, edges, order, y, n, before, len, xmin, xmax) && xmin' <= xmin && xmax' >= xmax
    requires Filled(before, now, len, Spans(rule, Line(edges, order[5 * y + n], 5 * y + n), 0, 0), xmin', xmax')
    ensures RowCells(rule, edges, order, y, n + 1, now, len, xmin', xmax')
  {
    hide Spans;
    hide Line;
    var line := Line(edges, order[5 * y + n], 5 * y + n);
    forall p
      ensures RowGain(rule, edges, order, y, n + 1, p) == RowGain(rule, edges, order, y, n, p) + LineGain(rule, line, p)
      && LineGain(rule, line, p) <= WEIGHT
    {
      LineBound(rule, line, p);
    }
    hide RowGain;
    forall p | 0 <= p < len ensures now[p] == RowGain(rule, edges, order, y, n + 1, p) <= WEIGHT * (n + 1) {
      AddIs(before[p], LineGain(rule, line, p));
    }
  }

  /** The active list of one sub-scanline: expire, resort, insert */
  method Advance(r: Rasterizer, active: Node?, e: nat, t: nat, ghost l: seq<Node>)
    returns (active': Node?, e': nat, ghost l': seq<Node>)
    requires SortedEdges(r.edges) && r.Pool(active, l)
    requires Records(r.edges, Set(l), e, t - 1) && r.Reached(e, t - 1, t)
    modifies r`freelist, r`free, Set(r.free), Set(l)
    ensures r.Pool(active', l') && Records(r.edges, Set(l'), e', t) && r.Reached(e', t, t + 1) && Ascending(Xs(l'))
    ensures Set(l) + old(Set(r.free)) <= Set(l') + Set(r.free)
    ensures fresh(Set(l') + Set(r.free) - old(Set(l) + Set(r.free)))
  {
    hide Records;
    hide Ascending;
    hide Xs;
    active', l' := r.Expire(active, l, e, t);
    ghost var l1 := l';
    active', l' := Resort(active', l');
    assert Set(l') == Set(l1);
    active', l', e' := r.InsertEdges(active', l', e, t);
  }

  /** Fills from the active list */
  method FillLine(r: Rasterizer, scanline: array<Cell>, active: Node?, rule: FillRule, t: nat, xmin: int, xmax: int,
                  ghost l: seq<Node>, ghost e: nat)
    returns (xmin': int, xmax': int, ghost srcs: seq<nat>)
    requires SortedEdges(r.edges) && r.width <= scanline.Length && r.Pool(active, l) && Ascending(Xs(l))
    requires Records(r.edges, Set(l), e, t) && r.Reached(e, t, t + 1)
    modifies scanline
    ensures IsOrder(r.edges, srcs, t) && Sorted(Line(r.edges, srcs, t))
    ensures Filled(old(scanline[..]), scanline[..], r.width, Spans(rule, Line(r.edges, srcs, t), 0, 0), xmin', xmax')
    ensures xmin' <= xmin && xmax' >= xmax
  {
    hide Records;
    hide Ascending;
    hide Line;
    hide Spans;
    hide IsOrder;
    hide Filled;
    hide Xs;
    hide Sorted;
    hide Seg;
    ActiveExact(r, l, e, t);
    RecsSorted(l);
    srcs := Srcs(l);
    xmin', xmax' := FillActiveEdges(scanline, r.width, active, rule, xmin, xmax, l);
  }

  /** One sub-scanline of `nsvg__rasterizeSortedEdges` */
  method SubScanline(r: Rasterizer, scanline: array<Cell>, active: Node?, rule: FillRule, e: nat, t: nat, xmin: int,
                     xmax: int, ghost l: seq<Node>)
    returns (active': Node?, e': nat, xmin': int, xmax': int, ghost l': seq<Node>, ghost srcs: seq<nat>)
    requires SortedEdges(r.edges) && r.width <= scanline.Length && r.Pool(active, l)
    requires Records(r.edges, Set(l), e, t - 1) && r.Reached(e, t - 1, t)
    modifies r`freelist, r`free, Set(r.free), Set(l), scanline
    ensures r.Pool(active', l') && Records(r.edges, Set(l'), e', t) && r.Reached(e', t, t + 1)
    ensures Set(l) + old(Set(r.free)) <= Set(l') + Set(r.free)
    ensures fresh(Set(l') + Set(r.free) - old(Set(l) + Set(r.free)))
    ensures IsOrder(r.edges, srcs, t) && Sorted(Line(r.edges, srcs, t))
    ensures Filled(old(scanline[..]), scanline[..], r.width, Spans(rule, Line(r.edges, srcs, t), 0, 0), xmin', xmax')
    ensures xmin' <= xmin && xmax' >= xmax
  {
    hide Records;
    hide Ascending;
    hide Line;
    hide Spans;
    hide IsOrder;
    hide Filled;
    hide Xs;
    hide Sorted;
    active', e', l' := Advance(r, active, e, t, l);
    assert scanline[..] == old(scanline[..]);
    xmin', xmax', srcs := FillLine(r, scanline, active', rule, t, xmin, xmax, l', e');
  }

  /** Between two sub-scanlines: t is the next one. */
  ghost predicate Sweeping(r: Rasterizer, active: Node?, l: seq<Node>, e: nat, t: int)
    requires SortedEdges(r.edges)
    reads r, Set(r.free)`next, Set(l)
  {
    r.Pool(active, l) && Records(r.edges, Set(l), e, t - 1) && r.Reached(e, t - 1, t)
  }

  /** The five sub-scanlines of row y, and what is painted of it */
  method PaintRow(r: Rasterizer, scanline: array<Cell>, active: Node?, rule: FillRule, e: nat, y: nat,
                  ghost l: seq<Node>, ghost order: seq<seq<nat>>)
    returns (row: Row, active': Node?, e': nat, ghost l': seq<Node>, ghost order': seq<seq<nat>>)
    requires SortedEdges(r.edges) && r.width <= scanline.Length && Sweeping(r, active, l, e, 5 * y)
    requires |order| == 5 * y && Ordered5(r.edges, order)
    modifies r`freelist, r`free, Set(r.free), Set(l), scanline
    ensures Sweeping(r, active', l', e', 5 * (y + 1)) && |order'| == 5 * (y + 1) && order <= order'
    ensures Ordered5(r.edges, order')
    ensures Set(l) + old(Set(r.free)) <= Set(l') + Set(r.free)
    ensures fresh(Set(l') + Set(r.free) - old(Set(l) + Set(r.free)))
    ensures forall p :: 0 <= p < r.width ==> CellAt(row, p) == RowGain(rule, r.edges, order', y, 5, p)
  {
    hide Sweeping;
    hide Filled;
    hide Line;
    hide IsOrder;
    hide Sorted;
    hide RowGain;
    hide RowCells;
    hide Ordered5;
    forall i | 0 <= i < r.width {
      scanline[i] := 0;
    }
    active', e', l', order' := active, e, l, order;
    var xmin, xmax, s := r.width, 0, 0;
    RowStart(rule, r.edges, order, y, scanline[..], r.width, xmin, xmax);
    while s < 5
      invariant 0 <= s <= 5 && Sweeping(r, active', l', e', 5 * y + s)
      invariant |order'| == 5 * y + s && order <= order' && Ordered5(r.edges, order')
      invariant Set(l) + old(Set(r.free)) <= Set(l') + Set(r.free)
      invariant fresh(Set(l') + Set(r.free) - old(Set(l) + Set(r.free)))
      invariant RowCells(rule, r.edges, order', y, s, scanline[..], r.width, xmin, xmax)
    {
      active', e', xmin, xmax, l', order' := RowStep(r, scanline, active', rule, e', y, s, xmin, xmax, l', order');
      s := s + 1;
    }
    row := Blit(scanline, r.width, xmin, xmax);
    RowPainted(rule, r.edges, order', y, scanline[..], r.width, xmin, xmax, row);
  }

  lemma RowStart(rule: FillRule, edges: seq<Edge>, order: seq<seq<nat>>, y: nat, cells: seq<Cell>, len: nat,
                 xmin: int, xmax: int)
    requires SortedEdges(edges) && 5 * y <= |order| && Ordered5(edges, order) && len <= |cells|
    requires forall p :: 0 <= p < len ==> cells[p] == 0
    ensures RowCells(rule, edges, order, y, 0, cells, len, xmin, xmax)
  {
  }

  method RowStep(r: Rasterizer, scanline: array<Cell>, active: Node?, rule: FillRule, e: nat, y: nat, s: nat,
                 xmin: int, xmax: int, ghost l: seq<Node>, ghost order: seq<seq<nat>>)
    returns (active': Node?, e': nat, xmin': int, xmax': int, ghost l': seq<Node>, ghost order': seq<seq<nat>>)
    requires s < 5 && SortedEdges(r.edges) && r.width <= scanline.Length && Sweeping(r, active, l, e, 5 * y + s)
    requires |order| == 5 * y + s && Ordered5(r.edges, order)
    requires RowCells(rule, r.edges, order, y, s, scanline[..], r.width, xmin, xmax)
    modifies r`freelist, r`free, Set(r.free), Set(l), scanline
    ensures Sweeping(r, active', l', e', 5 * y + s + 1) && |order'| == |order| + 1 && order <= order'
    ensures Ordered5(r.edges, order')
    ensures Set(l) + old(Set(r.free)) <= Set(l') + Set(r.free)
    ensures fresh(Set(l') + Set(r.free) - old(Set(l) + Set(r.free)))
    ensures RowCells(rule, r.edges, order', y, s + 1, scanline[..], r.width, xmin', xmax')
  {
    hide Filled;
    hide Line;
    hide IsOrder;
    hide Sorted;
    hide RowGain;
    hide RowCells;
    hide Records;
    hide Spans;
    ghost var srcs: seq<nat>, before := [], scanline[..];
    active', e', xmin', xmax', l', srcs := SubScanline(r, scanline, active, rule, e, 5 * y + s, xmin, xmax, l);
    order' := order + [srcs];
    RowMore(rule, r.edges, order, srcs, y, s, before, r.width, xmin, xmax);
    RowNext(rule, r.edges, order', y, s, before, scanline[..], r.width, xmin, xmax, xmin', xmax');
  }

  lemma RowMore(rule: FillRule, edges: seq<Edge>, order: seq<seq<nat>>, srcs: seq<nat>, y: nat, n: nat,
                cells: seq<Cell>, len: nat, xmin: int, xmax: int)
    requires SortedEdges(edges) && |order| == 5 * y + n && Ordered5(edges, order) && len <= |cells|
    requires IsOrder(edges, srcs, |order|) && Sorted(Line(edges, srcs, |order|))
    requires RowCells(rule, edges, order, y, n, cells, len, xmin, xmax)
    ensures Ordered5(edges, order + [srcs]) && RowCells(rule, edges, order + [srcs], y, n, cells, len, xmin, xmax)
  {
    hide Line;
    hide IsOrder;
    hide Sorted;
    hide RowGain;
    forall p ensures RowGain(rule, edges, order + [srcs], y, n, p) == RowGain(rule, edges, order, y, n, p) {
      RowPrefix(rule, edges, order, order + [srcs], y, n, p);
    }
  }

  /** The clamped part of the row that goes to the bitmap */
  method Blit(scanline: array<Cell>, width: nat, xmin: int, xmax: int) returns (row: Row)
    requires width <= scanline.Length
    ensures forall p :: 0 <= p < width ==> CellAt(row, p) == if xmin <= p <= xmax then scanline[p] else 0
  {
    var lo, hi := xmin, xmax;
    if lo < 0 {
      lo := 0;
    }
    if hi > width - 1 {
      hi := width - 1;
    }
    if lo <= hi {
      row := Row(lo, scanline[lo..hi + 1]);
    } else {
      row := Row(0, []);
    }
  }

  lemma RowPainted(rule: FillRule, edges: seq<Edge>, order: seq<seq<nat>>, y: nat, cells: seq<Cell>, len: nat,
                   xmin: int, xmax: int, row: Row)
    requires SortedEdges(edges) && 5 * y + 5 <= |order| && Ordered5(edges, order) && len <= |cells|
    requires RowCells(rule, edges, order, y, 5, cells, len, xmin, xmax)
    requires forall p :: 0 <= p < len ==> CellAt(row, p) == if xmin <= p <= xmax then cells[p] else 0
    ensures forall p :: 0 <= p < len ==> CellAt(row, p) == RowGain(rule, edges, order, y, 5, p)
  {
    hide RowGain;
    hide CellAt;
  }

  lemma {:induction false} RowPrefix(rule: FillRule, edges: seq<Edge>, order: seq<seq<nat>>, order': seq<seq<nat>>,
                                     y: nat, n: nat, p: int)
    requires SortedEdges(edges) && 5 * y + n <= |order| && order <= order' && Ordered5(edges, order)
    requires Ordered5(edges, order')
    ensures RowGain(rule, edges, order', y, n, p) == RowGain(rule, edges, order, y, n, p)
    decreases n
  {
    if n > 0 {
      RowPrefix(rule, edges, order, order', y, n - 1, p);
      assert order'[5 * y + n - 1] == order[5 * y + n - 1];
    }
  }

  ghost predicate RowsPainted(rule: FillRule, edges: seq<Edge>, order: seq<seq<nat>>, rows: seq<Row>, width: nat)
    requires SortedEdges(edges) && |order| == 5 * |rows| && Ordered5(edges, order)
  {
    forall y, p :: 0 <= y < |rows| && 0 <= p < width ==> CellAt(rows[y], p) == RowGain(rule, edges, order, y, 5, p)
  }

  lemma RowsNext(rule: FillRule, edges: seq<Edge>, order: seq<seq<nat>>, order': seq<seq<nat>>, rows: seq<Row>,
                 row: Row, width: nat)
    requires SortedEdges(edges) && |order| == 5 * |rows| && Ordered5(edges, order)
    requires RowsPainted(rule, edges, order, rows, width)
    requires |order'| == |order| + 5 && order <= order' && Ordered5(edges, order')
    requires forall p :: 0 <= p < width ==> CellAt(row, p) == RowGain(rule, edges, order', |rows|, 5, p)
    ensures RowsPainted(rule, edges, order', rows + [row], width)
  {
    hide RowGain;
    hide CellAt;
    hide Ordered5;
    forall y: nat, p | y < |rows + [row]|
      && 0 <= p < width ensures CellAt((rows + [row])[y], p) == RowGain(rule, edges, order', y, 5, p) {
      if y < |rows| {
        RowPrefix(rule, edges, order, order', y, 5, p);
      }
    }
  }

  /** `nsvg__rasterizeSortedEdges`: the painted part of every row.  Every pixel gets exactly
      what its five sub-scanlines add, and never overflows. */
  method RasterizeSortedEdges(r: Rasterizer, scanline: array<Cell>, rule: FillRule)
    returns (rows: seq<Row>, ghost order: seq<seq<nat>>)
    requires SortedEdges(r.edges) && r.width <= scanline.Length && r.freelist == null && r.free == []
    modifies r, scanline
    ensures |rows| == r.height && |order| == 5 * r.height && Ordered5(r.edges, order)
    ensures RowsPainted(rule, r.edges, order, rows, r.width)
  {
    hide Ordered5;
    hide RowGain;
    hide CellAt;
    hide RowsPainted;
    hide Sweeping;
    rows, order := [], [];
    var active: Node?, e, y := null, 0, 0;
    ghost var l: seq<Node> := [];
    SweepStart(r);
    PaintStart(rule, r.edges, r.width);
    while y < r.height
      invariant 0 <= y <= r.height && Sweeping(r, active, l, e, 5 * y) && |rows| == y && |order| == 5 * y
      invariant fresh(Set(l)) && fresh(Set(r.free)) && Ordered5(r.edges, order)
      invariant RowsPainted(rule, r.edges, order, rows, r.width)
    {
      ghost var before := order;
      var row: Row;
      row, active, e, l, order := PaintRow(r, scanline, active, rule, e, y, l, order);
      RowsNext(rule, r.edges, before, order, rows, row, r.width);
      rows := rows + [row];
      y := y + 1;
    }
  }

  lemma SweepStart(r: Rasterizer)
    requires SortedEdges(r.edges) && r.freelist == null && r.free == []
    ensures Sweeping(r, null, [], 0, 0)
  {
  }

  lemma PaintStart(rule: FillRule, edges: seq<Edge>, width: nat)
    requires SortedEdges(edges)
    ensures Ordered5(edges, []) && RowsPainted(rule, edges, [], [], width)
  {
  }
}
