/** The coverage that one sub-scanline adds to the 8-bit cells of a row. */
module RastCover {

  const FIX: int := 1024
  const WEIGHT: int := 51    // 255 shared by five sub-scanlines

  datatype FillRule = NonZero | EvenOdd

  /** An active edge, as far as filling is concerned. */
  datatype Rec = Rec(x: int, dir: int)

  /** A filled interval x0 <= x < x1, in units of 1/1024 pixel. */
  datatype Span = Span(x0: int, x1: int)

  ghost predicate Sorted(l: seq<Rec>) {
    forall i, j :: 0 <= i < j < |l| ==> l[i].x <= l[j].x
  }

  // ---------- winding ----------

  /** The state after passing an edge: the winding number, or the parity. */
  function Next(rule: FillRule, w: int, dir: int): int {
    if rule.NonZero? then w + dir else if w == 0 then 1 else 0
  }

  /** The spans that are filled, with the state w so far and the start x0 of the open span. */
  function Spans(rule: FillRule, l: seq<Rec>, w: int, x0: int): seq<Span> {
    if l == [] then []
    else
      var w' := Next(rule, w, l[0].dir);
      if w == 0 then Spans(rule, l[1..], w', l[0].x)
      else if w' == 0 then [Span(x0, l[0].x)] + Spans(rule, l[1..], w', x0)
      else Spans(rule, l[1..], w', x0)
  }

  /** The winding number (or parity) at u: every edge at or left of u counts. */
  function Wind(rule: FillRule, l: seq<Rec>, w: int, u: int): int {
    if l == [] then w
    else Wind(rule, l[1..], if l[0].x <= u then Next(rule, w, l[0].dir) else w, u)
  }

  /** The state beyond all edges. */
  function Total(rule: FillRule, l: seq<Rec>, w: int): int {
    if l == [] then w else Total(rule, l[1..], Next(rule, w, l[0].dir))
  }

  predicate Inside(s: Span, u: int) {
    s.x0 <= u < s.x1
  }

  predicate Covered(spans: seq<Span>, u: int) {
    exists i :: 0 <= i < |spans| && Inside(spans[i], u)
  }

  lemma CoveredCons(s: Span, rest: seq<Span>, u: int)
    ensures Covered([s] + rest, u) <==> Inside(s, u) || Covered(rest, u)
  {
    var all := [s] + rest;
    if Covered(rest, u) {
      var i :| 0 <= i < |rest| && Inside(rest[i], u);
      assert all[i + 1] == rest[i];
    }
    if Inside(s, u) {
      assert all[0] == s;
    }
    if Covered(all, u) {
      var i :| 0 <= i < |all| && Inside(all[i], u);
      assert i > 0 ==> all[i] == rest[i - 1];
    }
  }

  lemma {:induction false} WindLeft(rule: FillRule, l: seq<Rec>, w: int, u: int)
    requires Sorted(l) && (l != [] ==> u < l[0].x)
    ensures Wind(rule, l, w, u) == w
  {
    if l != [] {
      assert |l| > 1 ==> l[0].x <= l[1].x;
      WindLeft(rule, l[1..], w, u);
    }
  }

  /** The open span, if any, and the spans to come cover what winds to the right of x0. */
  lemma {:induction false} SpansCover(rule: FillRule, l: seq<Rec>, w: int, x0: int, u: int)
    requires Sorted(l) && Total(rule, l, w) == 0 && (w != 0 && l != [] ==> x0 <= l[0].x)
    ensures Covered(Spans(rule, l, w, x0), u) <==> (w == 0 || x0 <= u) && Wind(rule, l, w, u) != 0
  {
    if l != [] {
      var x, rest, w' := l[0].x, l[1..], Next(rule, w, l[0].dir);
      assert |rest| > 0 ==> l[0].x <= l[1].x;
      if u < x {
        WindLeft(rule, l, w, u);
        WindLeft(rule, rest, w', u);
      }
      if w == 0 {
        SpansCover(rule, rest, w', x, u);
      } else if w' == 0 {
        SpansCover(rule, rest, w', x0, u);
        CoveredCons(Span(x0, x), Spans(rule, rest, w', x0), u);
      } else {
        SpansCover(rule, rest, w', x0, u);
      }
    }
  }

  lemma {:induction false} WindRight(rule: FillRule, l: seq<Rec>, w: int, u: int)
    requires forall i :: 0 <= i < |l| ==> l[i].x <= u
    ensures Wind(rule, l, w, u) == Total(rule, l, w)
  {
    if l != [] {
      WindRight(rule, l[1..], Next(rule, w, l[0].dir), u);
    }
  }

  /** No span reaches beyond the last edge, and spans come in order. */
  ghost predicate Ordered(spans: seq<Span>, lo: int, hi: int) {
    forall i :: 0 <= i < |spans| ==> InOrder(spans, lo, hi, i)
  }

  ghost predicate InOrder(spans: seq<Span>, lo: int, hi: int, i: int)
    requires 0 <= i < |spans|
  {
    (if i == 0 then lo else spans[i - 1].x1) <= spans[i].x0 <= spans[i].x1 <= hi
  }

  lemma OrderedCons(s: Span, rest: seq<Span>, lo: int, hi: int)
    requires Ordered(rest, s.x1, hi) && lo <= s.x0 <= s.x1 <= hi
    ensures Ordered([s] + rest, lo, hi)
  {
    var all := [s] + rest;
    forall i | 0 <= i < |all| ensures InOrder(all, lo, hi, i) {
      if i > 0 {
        var j := i - 1;
        assert InOrder(rest, s.x1, hi, j);
      }
    }
  }

  lemma OrderedTail(spans: seq<Span>, lo: int, hi: int)
    requires Ordered(spans, lo, hi) && spans != []
    ensures Ordered(spans[1..], spans[0].x1, hi) && lo <= spans[0].x0 <= spans[0].x1 <= hi
  {
    assert InOrder(spans, lo, hi, 0);
    forall i | 0 <= i < |spans[1..]| ensures InOrder(spans[1..], spans[0].x1, hi, i) {
      var j := i + 1;
      assert InOrder(spans, lo, hi, j);
    }
  }

  lemma {:induction false} SpansOrdered(rule: FillRule, l: seq<Rec>, w: int, x0: int, lo: int, hi: int)
    requires Sorted(l) && (forall i :: 0 <= i < |l| ==> lo <= l[i].x <= hi) && (w != 0 ==> lo <= x0)
    requires w != 0 && l != [] ==> x0 <= l[0].x
    ensures Ordered(Spans(rule, l, w, x0), lo, hi)
  {
    if l != [] {
      var x, rest, w' := l[0].x, l[1..], Next(rule, w, l[0].dir);
      assert |rest| > 0 ==> l[0].x <= l[1].x;
      if w == 0 {
        SpansOrdered(rule, rest, w', x, lo, hi);
      } else if w' == 0 {
        SpansOrdered(rule, rest, w', x0, x, hi);
        OrderedCons(Span(x0, x), Spans(rule, rest, w', x0), lo, hi);
      } else {
        SpansOrdered(rule, rest, w', x0, lo, hi);
      }
    }
  }

  /** What is filled is exactly what winds, if and only if all edges together cancel out (for
      the even-odd rule: if and only if their number is even). */
  lemma SpansExact(rule: FillRule, l: seq<Rec>)
    requires Sorted(l)
    ensures (forall u :: Covered(Spans(rule, l, 0, 0), u) <==> Wind(rule, l, 0, u) != 0) <==> Total(rule, l, 0) == 0
  {
    var spans := Spans(rule, l, 0, 0);
    if Total(rule, l, 0) == 0 {
      forall u ensures Covered(spans, u) <==> Wind(rule, l, 0, u) != 0 {
        SpansCover(rule, l, 0, 0, u);
      }
    } else {
      var hi := l[|l| - 1].x;
      SpansOrdered(rule, l, 0, 0, l[0].x, hi);
      WindRight(rule, l, 0, hi);
      forall i | 0 <= i < |spans| ensures !Inside(spans[i], hi) {
        assert InOrder(spans, l[0].x, hi, i);
      }
      assert Wind(rule, l, 0, hi) != 0 && !Covered(spans, hi);
    }
  }

  // ---------- cells ----------

  function Min(a: int, b: int): int { if a < b then a else b }

  function Max(a: int, b: int): int { if a > b then a else b }

  /** How much of pixel p the span covers, in units of 1/1024. */
  function Overlap(s: Span, p: int): nat {
    Max(0, Min(s.x1, FIX * (p + 1)) - Max(s.x0, FIX * p))
  }

  /** What a span adds to the cell of pixel p. */
  function Gain(s: Span, p: int): nat {
    WEIGHT * Overlap(s, p) / FIX
  }

  function GainAll(spans: seq<Span>, p: int): nat {
    if spans == [] then 0 else Gain(spans[0], p) + GainAll(spans[1..], p)
  }

  function OverlapAll(spans: seq<Span>, p: int): nat {
    if spans == [] then 0 else Overlap(spans[0], p) + OverlapAll(spans[1..], p)
  }

  /** What a sub-scanline adds. */
  function LineGain(rule: FillRule, l: seq<Rec>, p: int): nat {
    GainAll(Spans(rule, l, 0, 0), p)
  }

  lemma {:induction false} OverlapBound(spans: seq<Span>, lo: int, hi: int, p: int)
    requires Ordered(spans, lo, hi)
    ensures OverlapAll(spans, p) <= Max(0, FIX * (p + 1) - Max(lo, FIX * p))
  {
    if spans != [] {
      OrderedTail(spans, lo, hi);
      OverlapBound(spans[1..], spans[0].x1, hi, p);
    }
  }

  /** Rounding loses less than one unit of the cell for each span. */
  lemma {:induction false} GainRounds(spans: seq<Span>, p: int)
    ensures FIX * GainAll(spans, p) <= WEIGHT * OverlapAll(spans, p) <= FIX * GainAll(spans, p) + (FIX - 1) * |spans|
  {
    if spans != [] {
      GainRounds(spans[1..], p);
    }
  }

  /** The number of covered units of the interval a <= u < b. */
  function Area(spans: seq<Span>, a: int, b: int): nat
    decreases b - a
  {
    if a >= b then 0 else Area(spans, a, b - 1) + if Covered(spans, b - 1) then 1 else 0
  }

  lemma {:induction false} AreaOne(s: Span, rest: seq<Span>, hi: int, a: int, b: int)
    requires Ordered(rest, s.x1, hi) && s.x0 <= s.x1
    ensures Area([s] + rest, a, b) == Area(rest, a, b) + Max(0, Min(s.x1, b) - Max(s.x0, a))
    decreases b - a
  {
    if a < b {
      var u := b - 1;
      AreaOne(s, rest, hi, a, u);
      CoveredCons(s, rest, u);
      if Covered(rest, u) {
        var i :| 0 <= i < |rest| && Inside(rest[i], u);
        FromStart(rest, s.x1, hi, i);
      }
    }
  }

  lemma {:induction false} FromStart(spans: seq<Span>, lo: int, hi: int, i: nat)
    requires Ordered(spans, lo, hi) && i < |spans|
    ensures lo <= spans[i].x0
  {
    assert InOrder(spans, lo, hi, i);
    if i > 0 {
      FromStart(spans, lo, hi, i - 1);
      assert InOrder(spans, lo, hi, i - 1);
    }
  }

  lemma {:induction false} AreaNone(a: int, b: int)
    ensures Area([], a, b) == 0
    decreases b - a
  {
    if a < b {
      AreaNone(a, b - 1);
    }
  }

  /** The overlaps of the spans add up to the covered area of the pixel. */
  lemma {:induction false} OverlapIsArea(spans: seq<Span>, lo: int, hi: int, p: int)
    requires Ordered(spans, lo, hi)
    ensures OverlapAll(spans, p) == Area(spans, FIX * p, FIX * (p + 1))
  {
    if spans == [] {
      AreaNone(FIX * p, FIX * (p + 1));
    } else {
      OrderedTail(spans, lo, hi);
      OverlapIsArea(spans[1..], spans[0].x1, hi, p);
      AreaOne(spans[0], spans[1..], hi, FIX * p, FIX * (p + 1));
      assert spans == [spans[0]] + spans[1..];
    }
  }

  /** One sub-scanline adds 51 at most, so five of them never overflow a cell; and what it
      adds is 51/1024 of the covered area of the pixel, up to rounding. */
  lemma LineBound(rule: FillRule, l: seq<Rec>, p: int)
    requires Sorted(l)
    ensures LineGain(rule, l, p) <= WEIGHT
    ensures var spans := Spans(rule, l, 0, 0); var area := Area(spans, FIX * p, FIX * (p + 1));
      FIX * LineGain(rule, l, p) <= WEIGHT * area <= FIX * LineGain(rule, l, p) + (FIX - 1) * |spans|
  {
    var spans := Spans(rule, l, 0, 0);
    if l != [] {
      SpansOrdered(rule, l, 0, 0, l[0].x, l[|l| - 1].x);
    }
    var lo, hi := if l == [] then 0 else l[0].x, if l == [] then 0 else l[|l| - 1].x;
    OverlapBound(spans, lo, hi, p);
    GainRounds(spans, p);
    OverlapIsArea(spans, lo, hi, p);
  }

  // ---------- filling ----------

  /** An unsigned char. */
  type Cell = x: int | 0 <= x < 256

  function AddByte(cell: Cell, gain: int): Cell {
    (cell + gain % 256) % 256
  }

  /** The gain of pixel p, by the position of p relative to the ends of the span. */
  function Piece(x0: int, x1: int, p: int): int {
    var i, j := x0 / FIX, x1 / FIX;
    if p < i || p > j then 0
    else if i == j then (x1 - x0) * WEIGHT / FIX
    else if p == i then (FIX - x0 % FIX) * WEIGHT / FIX
    else if p == j then x1 % FIX * WEIGHT / FIX
    else WEIGHT
  }

  lemma GainIsPiece(x0: int, x1: int, p: int)
    requires x0 <= x1
    ensures Gain(Span(x0, x1), p) == Piece(x0, x1, p)
  {
  }

  /** `nsvg__fillScanline` */
  method FillScanline(scanline: array<Cell>, len: nat, x0: int, x1: int, xmin: int, xmax: int)
    returns (xmin': int, xmax': int)
    requires len <= scanline.Length && x0 <= x1
    modifies scanline
    ensures forall p :: 0 <= p < len ==> scanline[p] == AddByte(old(scanline[p]), Gain(Span(x0, x1), p))
    ensures forall p :: len <= p < scanline.Length ==> scanline[p] == old(scanline[p])
    ensures xmin' == Min(xmin, x0 / FIX) && xmax' == Max(xmax, x1 / FIX)
  {
    hide Gain;
    forall p ensures Gain(Span(x0, x1), p) == Piece(x0, x1, p) {
      GainIsPiece(x0, x1, p);
    }
    var i, j := x0 / FIX, x1 / FIX;
    xmin', xmax' := xmin, xmax;
    if i < xmin' {
      xmin' := i;
    }
    if j > xmax' {
      xmax' := j;
    }
    if i < len && j >= 0 {
      if i == j {
        scanline[i] := AddByte(scanline[i], (x1 - x0) * WEIGHT / FIX);
      } else {
        if i >= 0 {
          scanline[i] := AddByte(scanline[i], (FIX - x0 % FIX) * WEIGHT / FIX);
        } else {
          i := -1;
        }
        if j < len {
          scanline[j] := AddByte(scanline[j], x1 % FIX * WEIGHT / FIX);
        } else {
          j := len;
        }
        i := i + 1;
        ghost var before, i0 := scanline[..], i;
        while i < j
          invariant i0 <= i && (i <= j || i == i0)
          invariant forall p :: 0 <= p < scanline.Length ==>
            scanline[p] == if i0 <= p < i then AddByte(before[p], WEIGHT) else before[p]
        {
          scanline[i] := AddByte(scanline[i], WEIGHT);
          i := i + 1;
        }
      }
    }
  }
}
