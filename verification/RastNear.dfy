/** How far the flattened curve is from the curve: nowhere farther than four ninths of the square
    root of the tolerance, except where the depth guard has cut parts off. */
module RastNear {
  import opened RastFlatten

  // ---------- what the flatness test measures ----------

  /** The product of the distance from p to the line through a and b and the length of ab. */
  function Off(p: Point, a: Point, b: Point): real {
    (p.x - b.x) * (b.y - a.y) - (p.y - b.y) * (b.x - a.x)
  }

  function Length2(a: Point, b: Point): real {
    (b.x - a.x) * (b.x - a.x) + (b.y - a.y) * (b.y - a.y)
  }

  function Dot(p: Point, q: Point): real {
    p.x * q.x + p.y * q.y
  }

  /** p is no farther from the line through a and b than 4/9 of the square root of the tolerance. */
  predicate NearLine(p: Point, a: Point, b: Point, tessTol: real) {
    81.0 * (Off(p, a, b) * Off(p, a, b)) < 16.0 * (tessTol * Length2(a, b))
  }

  /** For a chord of length |l| with unit normal n: a curve is flat if and only if the distances
      of its two inner control points from the chord add up to less than the square root of the
      tolerance. */
  lemma FlatExactly(c: Cubic, tessTol: real, n: Point, l: real)
    requires Dot(n, n) == 1.0 && l != 0.0 && Minus(c.p4, c.p1) == Point(l * n.y, -(l * n.x))
    ensures var d2, d3 := Abs(Dot(Minus(c.p2, c.p4), n)), Abs(Dot(Minus(c.p3, c.p4), n));
      Flat(c, tessTol) <==> (d2 + d3) * (d2 + d3) < tessTol
  {
    var v2, v3 := Minus(c.p2, c.p4), Minus(c.p3, c.p4);
    hide Minus;
    NormalCross(v2, n, l);
    NormalCross(v3, n, l);
    NormalSquare(n, l);
    hide Dot;
    hide Cross;
    hide Square;
    hide Flat;
    hide Abs;
    FlatIs(c, tessTol, v2, v3, Minus(c.p4, c.p1), l, Dot(v2, n), Dot(v3, n));
  }

  lemma FlatIs(c: Cubic, tessTol: real, v2: Point, v3: Point, chord: Point, l: real, m2: real, m3: real)
    requires v2 == Minus(c.p2, c.p4) && v3 == Minus(c.p3, c.p4) && chord == Minus(c.p4, c.p1) && l != 0.0
    requires Cross(v2, chord) == -(l * m2) && Cross(v3, chord) == -(l * m3) && Square(chord) == l * l
    ensures Flat(c, tessTol) <==> (Abs(m2) + Abs(m3)) * (Abs(m2) + Abs(m3)) < tessTol
  {
    hide Cross;
    hide Square;
    hide Minus;
    Sums(l, m2, m3);
    hide Abs;
    LengthScales(Abs(l), Abs(m2) + Abs(m3), tessTol, l);
  }

  lemma Sums(l: real, x: real, y: real)
    ensures Abs(-(l * x)) + Abs(-(l * y)) == Abs(l) * (Abs(x) + Abs(y)) && Abs(l) * Abs(l) == l * l
  {
    AbsTimes(l, x);
    AbsTimes(l, y);
    SquareOf(l);
    var u, v := l * x, l * y;
    assert Abs(-u) == Abs(u) && Abs(-v) == Abs(v);
    hide Abs;
    assert Abs(l) * (Abs(x) + Abs(y)) == Abs(l) * Abs(x) + Abs(l) * Abs(y);
  }

  lemma NormalCross(v: Point, n: Point, l: real)
    ensures Cross(v, Point(l * n.y, -(l * n.x))) == -(l * Dot(v, n))
  {
  }

  lemma NormalSquare(n: Point, l: real)
    requires Dot(n, n) == 1.0
    ensures Square(Point(l * n.y, -(l * n.x))) == l * l
  {
    assert l * n.y * (l * n.y) + l * n.x * (l * n.x) == l * l * (n.x * n.x + n.y * n.y);
  }

  lemma LengthScales(k: real, d: real, tol: real, l: real)
    requires k * k == l * l && l != 0.0
    ensures (k * d) * (k * d) < tol * (l * l) <==> d * d < tol
  {
    SquarePositive(l);
    MulSquares(k, d);
    assert tol * (l * l) == Mul(Sq(l), tol) && (k * d) * (k * d) == Sq(Mul(k, d)) && d * d == Sq(d) && Sq(k) == Sq(l);
    hide Sq;
    hide Mul;
    Smaller(Sq(l), Sq(d), tol);
  }

  lemma MulSquares(x: real, y: real)
    ensures Sq(Mul(x, y)) == Mul(Sq(x), Sq(y))
  {
  }

  lemma SquarePositive(x: real)
    requires x != 0.0
    ensures Sq(x) > 0.0
  {
    if x < 0.0 {
      assert Mul(x, x) == Mul(-x, -x);
    }
  }

  lemma Smaller(q: real, a: real, b: real)
    requires q > 0.0
    ensures Mul(q, a) < Mul(q, b) <==> a < b
  {
    if a < b {
      Below(q, a, b);
    } else if b < a {
      Below(q, b, a);
    }
  }

  // ---------- a flat part ----------

  /** The weights of the inner control points. */
  function Weight2(s: real): real {
    3.0 * ((1.0 - s) * (1.0 - s)) * s
  }

  function Weight3(s: real): real {
    3.0 * (1.0 - s) * (s * s)
  }

  lemma WeightBound(s: real)
    requires 0.0 <= s <= 1.0
    ensures 0.0 <= Weight2(s) && 9.0 * Weight2(s) <= 4.0
  {
    var u, v, w := 1.0 - s, 3.0 * s - 1.0, 4.0 - 3.0 * s;
    Product(0.0, u, 0.0, u);
    Product(0.0, u * u, 0.0, s);
    assert u * u * s == (u * u) * s;
    var vv := v * v;
    assert vv >= 0.0 && w > 0.0;
    Product(0.0, vv, 0.0, w);
    Sextic(s);
  }

  lemma Sextic(s: real)
    ensures var v := 3.0 * s - 1.0; 4.0 - 9.0 * Weight2(s) == (v * v) * (4.0 - 3.0 * s)
  {
    var s2, s3 := s * s, s * s * s;
    var v := 3.0 * s - 1.0;
    assert v * v == 9.0 * s2 - 6.0 * s + 1.0;
    assert (9.0 * s2 - 6.0 * s + 1.0) * (4.0 - 3.0 * s) == 54.0 * s2 - 27.0 * s3 - 27.0 * s + 4.0;
    assert (1.0 - s) * (1.0 - s) == 1.0 - 2.0 * s + s2;
    assert (1.0 - 2.0 * s + s2) * s == s - 2.0 * s2 + s3;
  }

  lemma WeightsSwap(s: real)
    ensures Weight3(s) == Weight2(1.0 - s)
  {
    var u := 1.0 - s;
    assert 1.0 - u == s;
    assert 3.0 * u * (s * s) == 3.0 * (s * s) * u;
  }

  /** A coordinate of the curve, measured from its end. */
  lemma Weighted(a: real, b: real, c: real, d: real, s: real)
    ensures var u := 1.0 - s;
      Bernstein(a, b, c, d, s) - d == u * u * u * (a - d) + Weight2(s) * (b - d) + Weight3(s) * (c - d)
  {
    BernsteinForm(a, b, c, d, s);
    BernsteinForm(d, d, d, d, s);
    assert Bernstein(d, d, d, d, s) == d;
    var u := 1.0 - s;
    var w0, w1, w2, w3 := u * u * u, Weight2(s), Weight3(s), s * s * s;
    assert Form(a, b, c, d, s, u) == w0 * a + w1 * b + w2 * c + w3 * d;
    assert Form(d, d, d, d, s, u) == w0 * d + w1 * d + w2 * d + w3 * d;
    hide Weight2;
    hide Weight3;
    hide Bernstein;
    hide Form;
    assert w0 * (a - d) == w0 * a - w0 * d && w1 * (b - d) == w1 * b - w1 * d && w2 * (c - d) == w2 * c - w2 * d;
  }

  /** What the start point contributes is along the chord. */
  lemma Combine(w0: real, w1: real, w2: real, ax: real, az: real, bx: real, bz: real, gx: real, gz: real)
    ensures (w0 * ax + w1 * bx + w2 * gx) * (-az) - (w0 * az + w1 * bz + w2 * gz) * (-ax)
      == w1 * (bx * (-az) - bz * (-ax)) + w2 * (gx * (-az) - gz * (-ax))
  {
  }

  /** How far off the chord the curve is, by the distances of its inner control points. */
  lemma OffCurve(c: Cubic, s: real)
    ensures Off(OnCurve(c, s), c.p1, c.p4)
      == Weight2(s) * Off(c.p2, c.p1, c.p4) + Weight3(s) * Off(c.p3, c.p1, c.p4)
  {
    var u, p := 1.0 - s, OnCurve(c, s);
    Weighted(c.p1.x, c.p2.x, c.p3.x, c.p4.x, s);
    Weighted(c.p1.y, c.p2.y, c.p3.y, c.p4.y, s);
    hide Bernstein;
    var w0, w1, w2 := u * u * u, Weight2(s), Weight3(s);
    hide Weight2;
    hide Weight3;
    var a, b, g := Minus(c.p1, c.p4), Minus(c.p2, c.p4), Minus(c.p3, c.p4);
    assert p.x - c.p4.x == w0 * a.x + w1 * b.x + w2 * g.x;
    assert p.y - c.p4.y == w0 * a.y + w1 * b.y + w2 * g.y;
    Combine(w0, w1, w2, a.x, a.y, b.x, b.y, g.x, g.y);
  }

  lemma Average(z: real, w1: real, w2: real, x: real, y: real)
    requires z == w1 * x + w2 * y && 0.0 <= w1 && 9.0 * w1 <= 4.0 && 0.0 <= w2 && 9.0 * w2 <= 4.0
    ensures 9.0 * Abs(z) <= 4.0 * (Abs(x) + Abs(y))
  {
    Share(w1, x);
    Share(w2, y);
    SumAbs(w1 * x, w2 * y);
    hide Abs;
  }

  lemma Share(w: real, x: real)
    requires 0.0 <= w && 9.0 * w <= 4.0
    ensures 9.0 * Abs(w * x) <= 4.0 * Abs(x)
  {
    AbsTimes(w, x);
    var m := Abs(x);
    assert m >= 0.0 && Abs(w) == w;
    hide Abs;
    Product(9.0 * w, 4.0, m, m);
    assert 9.0 * w * m == 9.0 * (w * m);
  }

  lemma SumAbs(p: real, q: real)
    ensures Abs(p + q) <= Abs(p) + Abs(q)
  {
  }

  /** Squaring what is at most 4/9 of d. */
  lemma SquareLess(z: real, d: real, bound: real)
    requires 9.0 * Abs(z) <= 4.0 * d && d * d < bound
    ensures 81.0 * (z * z) < 16.0 * bound
  {
    SquareOf(z);
    var m, n := 9.0 * Abs(z), 4.0 * d;
    Product(m, n, m, n);
    assert m * m == 81.0 * (Abs(z) * Abs(z));
    assert n * n == 16.0 * (d * d);
  }

  /** The distances of the inner control points from the chord add up to the square root of the
      tolerance at least, or there is no chord. */
  predicate Bent(c: Cubic, tessTol: real) {
    var d := Abs(Off(c.p2, c.p1, c.p4)) + Abs(Off(c.p3, c.p1, c.p4));
    tessTol * Length2(c.p1, c.p4) <= d * d
  }

  lemma FlatOff(c: Cubic, tessTol: real)
    ensures Flat(c, tessTol) <==> !Bent(c, tessTol)
  {
    var x, y := Off(c.p2, c.p1, c.p4), Off(c.p3, c.p1, c.p4);
    var chord := Minus(c.p4, c.p1);
    assert Cross(Minus(c.p2, c.p4), chord) == x && Cross(Minus(c.p3, c.p4), chord) == y;
    assert Square(chord) == Length2(c.p1, c.p4);
    hide Off;
    hide Cross;
    hide Square;
    hide Minus;
    hide Length2;
    hide Abs;
  }

  /** A flat curve is nowhere far off its chord. */
  lemma FlatNear(c: Cubic, tessTol: real, s: real)
    requires Flat(c, tessTol) && 0.0 <= s <= 1.0
    ensures NearLine(OnCurve(c, s), c.p1, c.p4, tessTol)
  {
    hide Off;
    hide OnCurve;
    hide Length2;
    hide Weight2;
    hide Weight3;
    hide Flat;
    hide Abs;
    var x, y := Off(c.p2, c.p1, c.p4), Off(c.p3, c.p1, c.p4);
    FlatOff(c, tessTol);
    OffCurve(c, s);
    WeightBound(s);
    WeightBound(1.0 - s);
    WeightsSwap(s);
    Average(Off(OnCurve(c, s), c.p1, c.p4), Weight2(s), Weight3(s), x, y);
    SquareLess(Off(OnCurve(c, s), c.p1, c.p4), Abs(x) + Abs(y), tessTol * Length2(c.p1, c.p4));
  }

  // ---------- all parts ----------

  /** Where the parts begin whose ends are handed on, in units of 1/1024. */
  function Starts(c: Cubic, level: nat, lo: nat, tessTol: real): seq<nat>
    decreases MAX_LEVEL + 1 - level
  {
    if level > MAX_LEVEL then []
    else if Flat(c, tessTol) then [lo]
    else Starts(Left(c), level + 1, lo, tessTol) + Starts(Right(c), level + 1, lo + Width(level + 1), tessTol)
  }

  /** From a to b the curve is nowhere far off the line between its two points there. */
  ghost predicate NearBetween(curve: Cubic, a: nat, b: nat, tessTol: real) {
    forall u: real :: Param(a) <= u <= Param(b) ==>
      NearLine(OnCurve(curve, u), OnCurve(curve, Param(a)), OnCurve(curve, Param(b)), tessTol)
  }

  /** The parts follow each other, and each is near its chord. */
  ghost predicate PartsNear(curve: Cubic, starts: seq<nat>, ends: seq<nat>, lo: nat, hi: nat, tessTol: real) {
    && |starts| == |ends|
    && (forall i :: 0 <= i < |ends| ==> lo <= starts[i] < ends[i] <= hi)
    && (forall i :: 0 <= i < |ends| ==> NearBetween(curve, starts[i], ends[i], tessTol))
    && (forall i, j :: 0 <= i < j < |ends| ==> ends[i] <= starts[j])
  }

  lemma PartsJoin(curve: Cubic, s1: seq<nat>, e1: seq<nat>, s2: seq<nat>, e2: seq<nat>, lo: nat, mid: nat, hi: nat,
                  tessTol: real)
    requires PartsNear(curve, s1, e1, lo, mid, tessTol) && PartsNear(curve, s2, e2, mid, hi, tessTol) && lo <= mid <= hi
    ensures PartsNear(curve, s1 + s2, e1 + e2, lo, hi, tessTol)
  {
    hide NearBetween;
  }

  /** The parameter u within the interval. */
  lemma Within(lo: nat, width: nat, u: real) returns (s: real)
    requires width > 0 && Param(lo) <= u <= Param(lo + width)
    ensures 0.0 <= s <= 1.0 && Inside(lo, width, s) == u
  {
    var w := Param(width);
    s := (u - Param(lo)) / w;
    assert w > 0.0 && Param(lo + width) == Param(lo) + w;
    assert w * s == u - Param(lo);
    Quotient(u - Param(lo), w);
  }

  lemma Quotient(x: real, w: real)
    requires 0.0 <= x <= w && w > 0.0
    ensures 0.0 <= x / w <= 1.0
  {
  }

  lemma PartEnds(curve: Cubic, c: Cubic, lo: nat, width: nat)
    requires PartOf(curve, c, lo, width)
    ensures c.p1 == OnCurve(curve, Param(lo)) && c.p4 == OnCurve(curve, Param(lo + width))
  {
    EndPoint(curve, c, lo, width);
    assert OnCurve(c, 0.0) == OnCurve(curve, Inside(lo, width, 0.0));
    assert Inside(lo, width, 0.0) == Param(lo);
  }

  lemma FlatPart(curve: Cubic, c: Cubic, lo: nat, width: nat, tessTol: real)
    requires PartOf(curve, c, lo, width) && width > 0 && Flat(c, tessTol)
    ensures NearBetween(curve, lo, lo + width, tessTol)
  {
    hide NearLine;
    hide Flat;
    PartEnds(curve, c, lo, width);
    hide OnCurve;
    hide Inside;
    forall u: real | Param(lo) <= u <= Param(lo + width)
      ensures NearLine(OnCurve(curve, u), OnCurve(curve, Param(lo)), OnCurve(curve, Param(lo + width)), tessTol)
    {
      var s := Within(lo, width, u);
      FlatNear(c, tessTol, s);
      assert OnCurve(c, s) == OnCurve(curve, Inside(lo, width, s));
    }
  }

  lemma UnfoldStarts(c: Cubic, level: nat, lo: nat, tessTol: real)
    ensures level > MAX_LEVEL ==> Starts(c, level, lo, tessTol) == []
    ensures level <= MAX_LEVEL && Flat(c, tessTol) ==> Starts(c, level, lo, tessTol) == [lo]
    ensures level <= MAX_LEVEL && !Flat(c, tessTol) ==>
      Starts(c, level, lo, tessTol)
        == Starts(Left(c), level + 1, lo, tessTol) + Starts(Right(c), level + 1, lo + Width(level + 1), tessTol)
  {
    hide Flat;
    hide Left;
    hide Right;
    hide Width;
  }

  lemma {:induction false} AllNear(curve: Cubic, c: Cubic, level: nat, lo: nat, tessTol: real)
    requires level <= MAX_LEVEL ==> PartOf(curve, c, lo, Width(level))
    ensures PartsNear(curve, Starts(c, level, lo, tessTol), Times(c, level, lo, tessTol), lo, lo + Width(level),
                      tessTol)
    decreases MAX_LEVEL + 1 - level
  {
    hide Flat;
    hide Left;
    hide Right;
    hide Times;
    hide Starts;
    hide Handed;
    hide Width;
    hide PartOf;
    hide NearBetween;
    Unfold(c, level, lo, 0, tessTol);
    UnfoldStarts(c, level, lo, tessTol);
    if level <= MAX_LEVEL {
      WidthPositive(level);
      if Flat(c, tessTol) {
        FlatPart(curve, c, lo, Width(level), tessTol);
      } else {
        var l, r, half := Left(c), Right(c), Width(level + 1);
        if level < MAX_LEVEL {
          Halves(curve, c, lo, half);
        }
        AllNear(curve, l, level + 1, lo, tessTol);
        AllNear(curve, r, level + 1, lo + half, tessTol);
        if level < MAX_LEVEL {
          PartsJoin(curve, Starts(l, level + 1, lo, tessTol), Times(l, level + 1, lo, tessTol),
                    Starts(r, level + 1, lo + half, tessTol), Times(r, level + 1, lo + half, tessTol), lo, lo + half,
                    lo + Width(level), tessTol);
        } else {
          NoParts(l, r, level + 1, lo, lo + half, tessTol);
        }
      }
    }
  }

  lemma NoParts(l: Cubic, r: Cubic, level: nat, lo: nat, mid: nat, tessTol: real)
    requires level > MAX_LEVEL
    ensures Starts(l, level, lo, tessTol) == Starts(r, level, mid, tessTol) == []
    ensures Times(l, level, lo, tessTol) == Times(r, level, mid, tessTol) == []
  {
  }

  ghost predicate InPart(starts: seq<nat>, ends: seq<nat>, n: nat) {
    exists i :: 0 <= i < |starts| && i < |ends| && starts[i] <= n < ends[i]
  }

  /** The smallest part of the curve, over n/1024 to (n + 1)/1024, is bent: the depth guard has cut it
      off. */
  ghost predicate CutOff(curve: Cubic, n: nat, tessTol: real) {
    exists c :: PartOf(curve, c, n, 1) && Bent(c, tessTol)
  }

  lemma InJoin(s1: seq<nat>, e1: seq<nat>, s2: seq<nat>, e2: seq<nat>, n: nat)
    requires |s1| == |e1| && |s2| == |e2| && (InPart(s1, e1, n) || InPart(s2, e2, n))
    ensures InPart(s1 + s2, e1 + e2, n)
  {
    if InPart(s1, e1, n) {
      var i :| 0 <= i < |s1| && s1[i] <= n < e1[i];
      assert (s1 + s2)[i] == s1[i] && (e1 + e2)[i] == e1[i];
    } else {
      var i :| 0 <= i < |s2| && s2[i] <= n < e2[i];
      assert (s1 + s2)[|s1| + i] == s2[i] && (e1 + e2)[|s1| + i] == e2[i];
    }
  }

  lemma {:induction false} PartOrCut(curve: Cubic, c: Cubic, level: nat, lo: nat, n: nat, tessTol: real)
    requires level <= MAX_LEVEL && PartOf(curve, c, lo, Width(level)) && lo <= n < lo + Width(level)
    ensures InPart(Starts(c, level, lo, tessTol), Times(c, level, lo, tessTol), n) || CutOff(curve, n, tessTol)
    decreases MAX_LEVEL - level
  {
    hide Flat;
    hide Left;
    hide Right;
    hide Times;
    hide Starts;
    hide Handed;
    hide Width;
    hide PartOf;
    Unfold(c, level, lo, 0, tessTol);
    UnfoldStarts(c, level, lo, tessTol);
    WidthPositive(level);
    if Flat(c, tessTol) {
      assert Starts(c, level, lo, tessTol)[0] <= n < Times(c, level, lo, tessTol)[0];
    } else if level == MAX_LEVEL {
      FlatOff(c, tessTol);
      assert n == lo && PartOf(curve, c, n, 1);
    } else {
      var l, r, half := Left(c), Right(c), Width(level + 1);
      Halves(curve, c, lo, half);
      AllNear(curve, l, level + 1, lo, tessTol);
      AllNear(curve, r, level + 1, lo + half, tessTol);
      if n < lo + half {
        PartOrCut(curve, l, level + 1, lo, n, tessTol);
      } else {
        PartOrCut(curve, r, level + 1, lo + half, n, tessTol);
      }
      if !CutOff(curve, n, tessTol) {
        InJoin(Starts(l, level + 1, lo, tessTol), Times(l, level + 1, lo, tessTol),
               Starts(r, level + 1, lo + half, tessTol), Times(r, level + 1, lo + half, tessTol), n);
      }
    }
  }

  /** The points handed on are the ends of parts of the curve that follow each other.  Each part
      is nowhere farther from its chord than 4/9 of the square root of the tolerance, and what is
      in no part is what the depth guard has cut off. */
  lemma FlattenNear(c: Cubic, flags: bv8, tessTol: real)
    ensures var h, starts, ends := Handed(c, 0, flags, tessTol), Starts(c, 0, 0, tessTol), Times(c, 0, 0, tessTol);
      && PartsNear(c, starts, ends, 0, 1024, tessTol)
      && |h| == |ends| && (forall i :: 0 <= i < |h| ==> h[i].at == OnCurve(c, Param(ends[i])))
      && (forall n: nat :: n < 1024 ==> InPart(starts, ends, n) || CutOff(c, n, tessTol))
  {
    hide OnCurve;
    hide Handed;
    hide Times;
    hide Starts;
    hide Width;
    hide PartsNear;
    hide InPart;
    hide CutOff;
    WidthIs();
    WholeCurve(c);
    FlattenSound(c, flags, tessTol);
    AllNear(c, c, 0, 0, tessTol);
    forall n: nat | n < 1024 ensures InPart(Starts(c, 0, 0, tessTol), Times(c, 0, 0, tessTol), n) || CutOff(c, n,
        tessTol) {
      PartOrCut(c, c, 0, 0, n, tessTol);
    }
  }
}
