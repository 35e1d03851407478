/** Recursive subdivision of a cubic, over the reals. */
module RastFlatten {

  datatype Point = Point(x: real, y: real)

  /** A stored point with its flags. */
  datatype PathPoint = PathPoint(at: Point, flags: bv8)

  datatype Cubic = Cubic(p1: Point, p2: Point, p3: Point, p4: Point)

  const MAX_LEVEL: nat := 10

  function Mid(p: Point, q: Point): Point {
    Point((p.x + q.x) * 0.5, (p.y + q.y) * 0.5)
  }

  function Abs(x: real): real {
    if x < 0.0 then -x else x
  }

  function Minus(p: Point, q: Point): Point {
    Point(p.x - q.x, p.y - q.y)
  }

  function Cross(p: Point, q: Point): real {
    p.x * q.y - p.y * q.x
  }

  function Square(p: Point): real {
    p.x * p.x + p.y * p.y
  }

  /** The control points are close enough to the chord. */
  predicate Flat(c: Cubic, tessTol: real) {
    var chord := Minus(c.p4, c.p1);
    var d2 := Abs(Cross(Minus(c.p2, c.p4), chord));
    var d3 := Abs(Cross(Minus(c.p3, c.p4), chord));
    (d2 + d3) * (d2 + d3) < tessTol * Square(chord)
  }

  function Left(c: Cubic): Cubic {
    var p12, p23, p34 := Mid(c.p1, c.p2), Mid(c.p2, c.p3), Mid(c.p3, c.p4);
    var p123, p234 := Mid(p12, p23), Mid(p23, p34);
    Cubic(c.p1, p12, p123, Mid(p123, p234))
  }

  function Right(c: Cubic): Cubic {
    var p12, p23, p34 := Mid(c.p1, c.p2), Mid(c.p2, c.p3), Mid(c.p3, c.p4);
    var p123, p234 := Mid(p12, p23), Mid(p23, p34);
    Cubic(Mid(p123, p234), p234, p34, c.p4)
  }

  /** What is handed to `nsvg__addPathPoint`, in order. */
  function Handed(c: Cubic, level: nat, flags: bv8, tessTol: real): seq<PathPoint>
    decreases MAX_LEVEL + 1 - level
  {
    if level > MAX_LEVEL then []
    else if Flat(c, tessTol) then [PathPoint(c.p4, flags)]
    else Handed(Left(c), level + 1, 0, tessTol) + Handed(Right(c), level + 1, flags, tessTol)
  }

  // ---------- points on the curve ----------

  /** A cubic polynomial with values a, b, c, d of its Bernstein coefficients, at t. */
  function Bernstein(a: real, b: real, c: real, d: real, t: real): real {
    a + t * (3.0 * (b - a) + t * (3.0 * (c - 2.0 * b + a) + t * (d - 3.0 * c + 3.0 * b - a)))
  }

  function OnCurve(c: Cubic, t: real): Point {
    Point(Bernstein(c.p1.x, c.p2.x, c.p3.x, c.p4.x, t), Bernstein(c.p1.y, c.p2.y, c.p3.y, c.p4.y, t))
  }

  function Form(a: real, b: real, c: real, d: real, t: real, u: real): real {
    u * u * u * a + 3.0 * (u * u) * t * b + 3.0 * u * (t * t) * c + t * t * t * d
  }

  lemma FormSwap(a: real, b: real, c: real, d: real, t: real, u: real)
    ensures Form(a, b, c, d, t, u) == Form(d, c, b, a, u, t)
  {
    assert 3.0 * (t * t) * u * c == 3.0 * u * (t * t) * c;
    assert 3.0 * t * (u * u) * b == 3.0 * (u * u) * t * b;
  }

  /** It is the curve of the parametric form `nsvg__evalBezier` computes. */
  lemma BernsteinForm(a: real, b: real, c: real, d: real, t: real)
    ensures Bernstein(a, b, c, d, t) == Form(a, b, c, d, t, 1.0 - t)
  {
    var t2, t3 := t * t, t * t * t;
    var u := 1.0 - t;
    assert u * u == 1.0 - 2.0 * t + t2;
    assert u * u * u == 1.0 - 3.0 * t + 3.0 * t2 - t3;
    assert u * t2 == t2 - t3;
    assert (u * u) * t == t - 2.0 * t2 + t3;
    Expand(a, b, c, d, t, t2, t3);
    Collect(a, b, c, d, t, t2, t3, u);
  }

  lemma Expand(a: real, b: real, c: real, d: real, t: real, t2: real, t3: real)
    requires t2 == t * t && t3 == t * t * t
    ensures Bernstein(a, b, c, d, t)
      == a + 3.0 * (b - a) * t + 3.0 * (c - 2.0 * b + a) * t2 + (d - 3.0 * c + 3.0 * b - a) * t3
  {
    var c1, c2, c3 := 3.0 * (b - a), 3.0 * (c - 2.0 * b + a), d - 3.0 * c + 3.0 * b - a;
    Horner(a, c1, c2, c3, t);
  }

  lemma Horner(c0: real, c1: real, c2: real, c3: real, t: real)
    ensures c0 + t * (c1 + t * (c2 + t * c3)) == c0 + c1 * t + c2 * (t * t) + c3 * (t * t * t)
  {
    assert t * (c2 + t * c3) == c2 * t + c3 * (t * t);
    assert t * (c2 * t + c3 * (t * t)) == c2 * (t * t) + c3 * (t * t * t);
  }

  lemma Collect(a: real, b: real, c: real, d: real, t: real, t2: real, t3: real, u: real)
    requires u * u * u == 1.0 - 3.0 * t + 3.0 * t2 - t3 && u * t2 == t2 - t3 && (u * u) * t == t - 2.0 * t2 + t3
    requires t2 == t * t && t3 == t * t * t
    ensures a + 3.0 * (b - a) * t + 3.0 * (c - 2.0 * b + a) * t2 + (d - 3.0 * c + 3.0 * b - a) * t3
      == u * u * u * a + 3.0 * (u * u) * t * b + 3.0 * u * (t * t) * c + t * t * t * d
  {
    assert u * u * u * a == a - 3.0 * (t * a) + 3.0 * (t2 * a) - t3 * a;
    assert 3.0 * (u * u) * t * b == 3.0 * (((u * u) * t) * b);
    assert ((u * u) * t) * b == t * b - 2.0 * (t2 * b) + t3 * b;
    assert 3.0 * u * (t * t) * c == 3.0 * ((u * t2) * c);
    assert (u * t2) * c == t2 * c - t3 * c;
  }

  lemma Reversed(a: real, b: real, c: real, d: real, t: real)
    ensures Bernstein(d, c, b, a, 1.0 - t) == Bernstein(a, b, c, d, t)
  {
    BernsteinForm(a, b, c, d, t);
    BernsteinForm(d, c, b, a, 1.0 - t);
    hide Bernstein;
    FormSwap(a, b, c, d, t, 1.0 - t);
    hide Form;
    assert 1.0 - (1.0 - t) == t;
  }

  /** Halving the control polygon halves the parameter. */
  lemma LeftHalf(a: real, b: real, c: real, d: real, s: real)
    ensures var ab, bc, cd := (a + b) * 0.5, (b + c) * 0.5, (c + d) * 0.5;
      var abc, bcd := (ab + bc) * 0.5, (bc + cd) * 0.5;
      Bernstein(a, ab, abc, (abc + bcd) * 0.5, s) == Bernstein(a, b, c, d, s * 0.5)
  {
    var c1, c2, c3 := 3.0 * (b - a), 3.0 * (c - 2.0 * b + a), d - 3.0 * c + 3.0 * b - a;
    HalfHorner(a, c1, c2, c3, s);
  }

  lemma HalfHorner(c0: real, c1: real, c2: real, c3: real, s: real)
    ensures c0 + s * (c1 * 0.5 + s * (c2 * 0.25 + s * (c3 * 0.125)))
      == c0 + s * 0.5 * (c1 + s * 0.5 * (c2 + s * 0.5 * c3))
  {
    var e := c2 + s * 0.5 * c3;
    assert c2 * 0.25 + s * (c3 * 0.125) == e * 0.25;
    assert s * (e * 0.25) == s * 0.5 * e * 0.5;
    var f := c1 + s * 0.5 * e;
    assert c1 * 0.5 + s * (e * 0.25) == f * 0.5;
    assert s * (f * 0.5) == s * 0.5 * f;
  }

  lemma RightHalf(a: real, b: real, c: real, d: real, s: real)
    ensures var ab, bc, cd := (a + b) * 0.5, (b + c) * 0.5, (c + d) * 0.5;
      var abc, bcd := (ab + bc) * 0.5, (bc + cd) * 0.5;
      Bernstein((abc + bcd) * 0.5, bcd, cd, d, s) == Bernstein(a, b, c, d, 0.5 + s * 0.5)
  {
    var ab, bc, cd := (a + b) * 0.5, (b + c) * 0.5, (c + d) * 0.5;
    var abc, bcd := (ab + bc) * 0.5, (bc + cd) * 0.5;
    LeftHalf(d, c, b, a, 1.0 - s);
    Reversed((abc + bcd) * 0.5, bcd, cd, d, s);
    Reversed(a, b, c, d, 0.5 + s * 0.5);
    assert 1.0 - (0.5 + s * 0.5) == (1.0 - s) * 0.5;
  }

  // ---------- dyadic parameters ----------

  /** The length of the parameter interval at a level, in units of 1/1024. */
  function Width(level: nat): nat
    decreases MAX_LEVEL + 1 - level
  {
    if level > MAX_LEVEL then 0 else if level == MAX_LEVEL then 1 else 2 * Width(level + 1)
  }

  lemma {:induction false} WidthPositive(level: nat)
    requires level <= MAX_LEVEL
    ensures Width(level) > 0 && Width(level) == if level == MAX_LEVEL then 1 else 2 * Width(level + 1)
    ensures Width(MAX_LEVEL + 1) == 0
    decreases MAX_LEVEL - level
  {
    if level < MAX_LEVEL {
      WidthPositive(level + 1);
    }
  }

  lemma WidthZero(level: nat)
    requires level > MAX_LEVEL
    ensures Width(level) == 0
  {
  }

  /** The parameters of the points handed on, in units of 1/1024. */
  function Times(c: Cubic, level: nat, lo: nat, tessTol: real): seq<nat>
    decreases MAX_LEVEL + 1 - level
  {
    if level > MAX_LEVEL then []
    else if Flat(c, tessTol) then [lo + Width(level)]
    else Times(Left(c), level + 1, lo, tessTol) + Times(Right(c), level + 1, lo + Width(level + 1), tessTol)
  }

  function Param(n: nat): real {
    n as real / 1024.0
  }

  /** The parameter at s within the interval. */
  function Inside(lo: nat, width: nat, s: real): real {
    Param(lo) + Param(width) * s
  }

  /** c is the part of the curve over this interval. */
  ghost predicate PartOf(curve: Cubic, c: Cubic, lo: nat, width: nat) {
    forall s: real :: OnCurve(c, s) == OnCurve(curve, Inside(lo, width, s))
  }

  /** One level of the recursion. */
  lemma Unfold(c: Cubic, level: nat, lo: nat, flags: bv8, tessTol: real)
    ensures level > MAX_LEVEL ==> Handed(c, level, flags, tessTol) == [] && Times(c, level, lo, tessTol) == []
    ensures level <= MAX_LEVEL && Flat(c, tessTol) ==>
      Handed(c, level, flags, tessTol) == [PathPoint(c.p4, flags)]
        && Times(c, level, lo, tessTol) == [lo + Width(level)]
    ensures level <= MAX_LEVEL && !Flat(c, tessTol) ==>
      && Handed(c, level, flags, tessTol) == Handed(Left(c), level + 1, 0, tessTol) + Handed(Right(c), level + 1,
          flags, tessTol)
      && Times(c, level, lo, tessTol) == Times(Left(c), level + 1, lo, tessTol) + Times(Right(c), level + 1,
          lo + Width(level + 1), tessTol)
  {
    hide Flat;
    hide Left;
    hide Right;
    hide Width;
  }

  lemma HalvesAt(c: Cubic, s: real)
    ensures OnCurve(Left(c), s) == OnCurve(c, s * 0.5) && OnCurve(Right(c), s) == OnCurve(c, 0.5 + s * 0.5)
  {
    LeftHalf(c.p1.x, c.p2.x, c.p3.x, c.p4.x, s);
    LeftHalf(c.p1.y, c.p2.y, c.p3.y, c.p4.y, s);
    RightHalf(c.p1.x, c.p2.x, c.p3.x, c.p4.x, s);
    RightHalf(c.p1.y, c.p2.y, c.p3.y, c.p4.y, s);
    hide Bernstein;
  }

  lemma ParamHalf(lo: nat, width: nat, s: real)
    ensures var x, y := s * 0.5, 0.5 + s * 0.5;
      && Inside(lo, 2 * width, x) == Inside(lo, width, s)
      && Inside(lo, 2 * width, y) == Inside(lo + width, width, s)
  {
    assert Param(2 * width) == 2.0 * Param(width);
    var w := Param(width);
    assert 2.0 * w * (s * 0.5) == w * s;
    assert 2.0 * w * (0.5 + s * 0.5) == w + w * s;
    assert Param(lo + width) == Param(lo) + w;
  }

  lemma Halves(curve: Cubic, c: Cubic, lo: nat, width: nat)
    requires PartOf(curve, c, lo, 2 * width)
    ensures PartOf(curve, Left(c), lo, width) && PartOf(curve, Right(c), lo + width, width)
  {
    hide OnCurve;
    hide Left;
    hide Right;
    hide Inside;
    forall s: real ensures OnCurve(Left(c), s) == OnCurve(curve, Inside(lo, width, s))
      && OnCurve(Right(c), s) == OnCurve(curve, Inside(lo + width, width, s))
    {
      HalvesAt(c, s);
      ParamHalf(lo, width, s);
      var x, y := s * 0.5, 0.5 + s * 0.5;
      assert OnCurve(c, x) == OnCurve(curve, Inside(lo, 2 * width, x));
      assert OnCurve(c, y) == OnCurve(curve, Inside(lo, 2 * width, y));
    }
  }

  /** Strictly increasing, above lo and at most hi. */
  ghost predicate Climbing(ts: seq<nat>, lo: nat, hi: nat) {
    && (forall i :: 0 <= i < |ts| ==> lo < ts[i] <= hi)
    && (forall i, j :: 0 <= i < j < |ts| ==> ts[i] < ts[j])
  }

  lemma ClimbJoin(a: seq<nat>, b: seq<nat>, lo: nat, half: nat, width: nat)
    requires Climbing(a, lo, lo + half) && Climbing(b, lo + half, lo + half + half) && half + half <= width
    requires |a| <= half && |b| <= half
    ensures Climbing(a + b, lo, lo + width) && |a + b| <= width
  {
  }

  lemma ClimbSmall(lo: nat, hi: nat)
    ensures Climbing([], lo, hi) && (lo < hi ==> Climbing([hi], lo, hi))
  {
  }

  lemma {:induction false} TimesClimb(c: Cubic, level: nat, lo: nat, tessTol: real)
    ensures Climbing(Times(c, level, lo, tessTol), lo, lo + Width(level))
    ensures |Times(c, level, lo, tessTol)| <= Width(level)
    decreases MAX_LEVEL + 1 - level
  {
    hide Flat;
    hide Left;
    hide Right;
    hide Times;
    hide Handed;
    hide Width;
    hide Climbing;
    Unfold(c, level, lo, 0, tessTol);
    ClimbSmall(lo, lo + Width(level));
    if level > MAX_LEVEL {
      WidthZero(level);
    } else {
      WidthPositive(level);
      if !Flat(c, tessTol) {
        var l, r, half := Left(c), Right(c), Width(level + 1);
        TimesClimb(l, level + 1, lo, tessTol);
        TimesClimb(r, level + 1, lo + half, tessTol);
        ClimbJoin(Times(l, level + 1, lo, tessTol), Times(r, level + 1, lo + half, tessTol), lo, half, Width(level));
      }
    }
  }

  lemma {:induction false} HandedOnCurve(curve: Cubic, c: Cubic, level: nat, lo: nat, flags: bv8, tessTol: real)
    requires level <= MAX_LEVEL ==> PartOf(curve, c, lo, Width(level))
    ensures var h, ts := Handed(c, level, flags, tessTol), Times(c, level, lo, tessTol);
      |h| == |ts| && forall i :: 0 <= i < |h| ==> h[i].at == OnCurve(curve, Param(ts[i]))
    decreases MAX_LEVEL + 1 - level
  {
    hide Flat;
    hide Bernstein;
    if level > MAX_LEVEL {
    } else if Flat(c, tessTol) {
      EndPoint(curve, c, lo, Width(level));
    } else {
      if level < MAX_LEVEL {
        Halves(curve, c, lo, Width(level + 1));
      }
      hide PartOf;
      hide OnCurve;
      HandedOnCurve(curve, Left(c), level + 1, lo, 0, tessTol);
      HandedOnCurve(curve, Right(c), level + 1, lo + Width(level + 1), flags, tessTol);
    }
  }

  lemma EndPoint(curve: Cubic, c: Cubic, lo: nat, width: nat)
    requires PartOf(curve, c, lo, width)
    ensures c.p4 == OnCurve(curve, Param(lo + width))
  {
    assert OnCurve(c, 1.0) == OnCurve(curve, Inside(lo, width, 1.0));
    assert Inside(lo, width, 1.0) == Param(lo + width);
  }

  lemma WidthIs()
    ensures Width(0) == 1024
  {
    assert Width(5) == 32;
  }

  lemma WholeCurve(c: Cubic)
    ensures PartOf(c, c, 0, 1024)
  {
    hide OnCurve;
    forall s: real ensures OnCurve(c, s) == OnCurve(c, Inside(0, 1024, s)) {
      assert Inside(0, 1024, s) == s;
    }
  }

  /** Every point that `nsvg__flattenCubicBez` hands on is on the original curve, at a dyadic
      parameter n/1024 with 0 < n <= 1024; the parameters strictly increase. */
  lemma FlattenSound(c: Cubic, flags: bv8, tessTol: real)
    ensures var h, ts := Handed(c, 0, flags, tessTol), Times(c, 0, 0, tessTol);
      && |h| == |ts| <= 1024 && Climbing(ts, 0, 1024)
      && forall i :: 0 <= i < |h| ==> h[i].at == OnCurve(c, Param(ts[i]))
  {
    hide OnCurve;
    hide Handed;
    hide Times;
    hide Width;
    WidthIs();
    WholeCurve(c);
    HandedOnCurve(c, c, 0, 0, flags, tessTol);
    TimesClimb(c, 0, 0, tessTol);
  }

  predicate EndsAt(ts: seq<nat>, n: nat) {
    ts != [] && ts[|ts| - 1] == n
  }

  /** The right-most parts get flat before the level guard cuts them off. */
  predicate EndsFlat(c: Cubic, level: nat, tessTol: real)
    decreases MAX_LEVEL + 1 - level
  {
    level <= MAX_LEVEL && (Flat(c, tessTol) || EndsFlat(Right(c), level + 1, tessTol))
  }

  /** The end of the curve is handed on, with its flags, exactly if the guard does not cut it
      off. */
  lemma {:induction false} EndHanded(c: Cubic, level: nat, lo: nat, flags: bv8, tessTol: real)
    requires level <= MAX_LEVEL
    ensures var h, ts := Handed(c, level, flags, tessTol), Times(c, level, lo, tessTol);
      && |h| == |ts|
      && (EndsFlat(c, level, tessTol) ==> h != [] && h[|h| - 1] == PathPoint(c.p4, flags))
      && (EndsFlat(c, level, tessTol) <==> EndsAt(ts, lo + Width(level)))
    decreases MAX_LEVEL + 1 - level
  {
    hide Flat;
    hide Left;
    hide Right;
    hide Times;
    hide Handed;
    hide Climbing;
    hide Width;
    Unfold(c, level, lo, flags, tessTol);
    WidthPositive(level);
    RightEnd(c);
    if !Flat(c, tessTol) {
      var mid := lo + Width(level + 1);
      SameLength(c, level, lo, flags, tessTol);
      SameLength(Left(c), level + 1, lo, 0, tessTol);
      if level < MAX_LEVEL {
        EndHanded(Right(c), level + 1, mid, flags, tessTol);
        NotThere(Left(c), level + 1, lo, tessTol);
      } else {
        Unfold(Left(c), level + 1, lo, 0, tessTol);
        Unfold(Right(c), level + 1, mid, flags, tessTol);
      }
    }
  }

  lemma {:induction false} SameLength(c: Cubic, level: nat, lo: nat, flags: bv8, tessTol: real)
    ensures |Handed(c, level, flags, tessTol)| == |Times(c, level, lo, tessTol)|
    decreases MAX_LEVEL + 1 - level
  {
    hide Flat;
    hide Left;
    hide Right;
    hide Times;
    hide Handed;
    Unfold(c, level, lo, flags, tessTol);
    if level <= MAX_LEVEL && !Flat(c, tessTol) {
      SameLength(Left(c), level + 1, lo, 0, tessTol);
      SameLength(Right(c), level + 1, lo + Width(level + 1), flags, tessTol);
    }
  }


  lemma RightEnd(c: Cubic)
    ensures Right(c).p4 == c.p4
  {
  }

  /** The left half ends before the right one does. */
  lemma NotThere(c: Cubic, level: nat, lo: nat, tessTol: real)
    requires level <= MAX_LEVEL
    ensures var ts := Times(c, level, lo, tessTol); ts != [] ==> ts[|ts| - 1] < lo + 2 * Width(level)
  {
    hide Times;
    hide Width;
    WidthPositive(level);
    TimesClimb(c, level, lo, tessTol);
  }

  // ---------- when the end is dropped ----------

  /** A curve that is a single point is dropped altogether, for every tolerance. */
  lemma {:induction false} PointDropped(p: Point, level: nat, flags: bv8, tessTol: real)
    ensures Handed(Cubic(p, p, p, p), level, flags, tessTol) == []
    decreases MAX_LEVEL + 1 - level
  {
    var c := Cubic(p, p, p, p);
    if level <= MAX_LEVEL {
      assert Mid(p, p) == p;
      assert Left(c) == c && Right(c) == c && !Flat(c, tessTol);
      PointDropped(p, level + 1, 0, tessTol);
      PointDropped(p, level + 1, flags, tessTol);
    }
  }

  /** The end of a large arc, for u = nh and v = nhh the part [1 - h, 1] of x = 3nt,
      y = 3nt(1 - t), with n = 2^20. */
  function ArcEnd(u: real, v: real): Cubic {
    var end := 3145728.0;
    Cubic(Point(end - 3.0 * u, 3.0 * (u - v)), Point(end - 2.0 * u, 2.0 * u - v), Point(end - u, u), Point(end, 0.0))
  }

  lemma ArcRight(u: real, v: real)
    ensures Right(ArcEnd(u, v)) == ArcEnd(u * 0.5, v * 0.25)
  {
  }

  lemma Product(a: real, b: real, c: real, d: real)
    requires 0.0 <= a <= b && 0.0 <= c <= d
    ensures 0.0 <= a * c <= b * d
  {
    assert a * c <= b * c <= b * d;
  }

  lemma ArcSize(u: real, v: real)
    requires 1.0 <= v <= u
    ensures u * v >= 0.0 && (6.0 * (u * v)) * (6.0 * (u * v)) >= 0.25 * (9.0 * (u * u) + 9.0 * ((u - v) * (u - v)))
  {
    var d := u * v;
    Product(u, u, 1.0, v);
    Product(u, d, u, d);
    Product(u - v, u, u - v, u);
    assert (6.0 * d) * (6.0 * d) == 36.0 * (d * d);
  }

  /** At the tolerance that the rasteriser uses it is not flat. */
  lemma ArcBent(u: real, v: real)
    requires 1.0 <= v <= u
    ensures !Flat(ArcEnd(u, v), 0.25)
  {
    var c := ArcEnd(u, v);
    var chord := Minus(c.p4, c.p1);
    assert chord == Point(3.0 * u, -3.0 * (u - v));
    assert Minus(c.p2, c.p4) == Point(-2.0 * u, 2.0 * u - v) && Minus(c.p3, c.p4) == Point(-u, u);
    ArcCross(u, v);
    ArcSize(u, v);
    hide ArcEnd;
    hide Minus;
    hide Cross;
    hide Square;
  }

  lemma ArcCross(u: real, v: real)
    ensures var chord := Point(3.0 * u, -3.0 * (u - v));
      && Cross(Point(-2.0 * u, 2.0 * u - v), chord) == -3.0 * (u * v) && Cross(Point(-u, u), chord) == -3.0 * (u * v)
      && Square(chord) == 9.0 * (u * u) + 9.0 * ((u - v) * (u - v))
  {
  }

  function Power4(n: nat): real {
    if n == 0 then 1.0 else 4.0 * Power4(n - 1)
  }

  lemma {:induction false} Power4Size(n: nat)
    ensures Power4(n) >= 1.0
  {
    if n > 0 {
      Power4Size(n - 1);
    }
  }

  lemma {:induction false} ArcNeverFlat(level: nat, u: real, v: real)
    requires level <= MAX_LEVEL ==> Power4(MAX_LEVEL - level) <= v <= u
    ensures !EndsFlat(ArcEnd(u, v), level, 0.25)
    decreases MAX_LEVEL + 1 - level
  {
    hide Flat;
    hide ArcEnd;
    hide Right;
    if level <= MAX_LEVEL {
      Power4Size(MAX_LEVEL - level);
      ArcBent(u, v);
      ArcRight(u, v);
      ArcNeverFlat(level + 1, u * 0.5, v * 0.25);
    }
  }

  lemma PowerTwenty()
    ensures Power4(MAX_LEVEL) == 1048576.0
  {
    assert Power4(5) == 1024.0;
  }

  /** So the whole arc is drawn without its end: no part of its right-most branch is flat, and
      what is handed on last, if anything, is not at parameter 1. */
  lemma ArcEndDropped(n: real, flags: bv8)
    requires n == 1048576.0
    ensures ArcEnd(n, n) == Cubic(Point(0.0, 0.0), Point(n, n), Point(2.0 * n, n), Point(3.0 * n, 0.0))
    ensures !EndsFlat(ArcEnd(n, n), 0, 0.25) && !EndsAt(Times(ArcEnd(n, n), 0, 0, 0.25), 1024)
  {
    hide EndsFlat;
    hide Times;
    hide Handed;
    hide Width;
    hide Power4;
    hide Flat;
    WidthIs();
    PowerTwenty();
    ArcNeverFlat(0, n, n);
    EndHanded(ArcEnd(n, n), 0, 0, flags, 0.25);
  }

  // ---------- when the end is kept ----------

  function Size(p: Point): real {
    Abs(p.x) + Abs(p.y)
  }

  /** The last leg of the control polygon, and how much the legs differ. */
  function Leg(c: Cubic): Point {
    Minus(c.p4, c.p3)
  }

  function BendA(c: Cubic): Point {
    Minus(Leg(c), Minus(c.p3, c.p2))
  }

  function BendB(c: Cubic): Point {
    Minus(Minus(c.p3, c.p2), Minus(c.p2, c.p1))
  }

  function Scale(p: Point, k: real): Point {
    Point(p.x * k, p.y * k)
  }

  /** Halving halves the last leg and divides the bends by four. */
  lemma HalfBends(c: Cubic, m: real)
    requires Size(BendA(c)) <= m && Size(BendB(c)) <= m
    ensures Size(Leg(Right(c))) == Size(Leg(c)) * 0.5
    ensures Size(BendA(Right(c))) <= m * 0.25 && Size(BendB(Right(c))) <= m * 0.25
  {
    var a, b := BendA(c), BendB(c);
    assert Leg(Right(c)) == Scale(Leg(c), 0.5);
    assert BendA(Right(c)) == Scale(a, 0.25);
    assert BendB(Right(c)) == Point((a.x + b.x) * 0.125, (a.y + b.y) * 0.125);
  }

  lemma AbsTimes(x: real, y: real)
    ensures Abs(x * y) == Abs(x) * Abs(y)
  {
  }

  lemma CrossParts(a: real, b: real, c: real, d: real)
    ensures Abs(a * d - b * c) <= (Abs(a) + Abs(b)) * (Abs(c) + Abs(d))
  {
    AbsTimes(a, d);
    AbsTimes(b, c);
    var x, y := a * d, b * c;
    assert Abs(x - y) <= Abs(x) + Abs(y);
    assert Abs(a) >= 0.0 && Abs(b) >= 0.0 && Abs(c) >= 0.0 && Abs(d) >= 0.0;
    hide Abs;
    Parts(Abs(a), Abs(b), Abs(c), Abs(d));
  }

  lemma CrossSize(p: Point, q: Point)
    ensures Abs(Cross(p, q)) <= Size(p) * Size(q) && Size(p) >= 0.0 && Size(q) >= 0.0
  {
    hide Abs;
    CrossParts(p.x, p.y, q.x, q.y);
    SizePositive(p);
    SizePositive(q);
    var m, n := Abs(p.x) + Abs(p.y), Abs(q.x) + Abs(q.y);
    assert Size(p) == m && Size(q) == n && m * n == Size(p) * Size(q);
    assert Cross(p, q) == p.x * q.y - p.y * q.x;
  }

  lemma SizePositive(p: Point)
    ensures Size(p) >= 0.0
  {
  }

  lemma CrossBound(p: Point, q: Point, x: real, y: real)
    requires Size(p) <= x && Size(q) <= y
    ensures Abs(Cross(p, q)) <= x * y
  {
    hide Abs;
    hide Cross;
    hide Size;
    CrossSize(p, q);
    Product(Size(p), x, Size(q), y);
  }

  lemma Parts(a: real, b: real, c: real, d: real)
    requires a >= 0.0 && b >= 0.0 && c >= 0.0 && d >= 0.0
    ensures a * d + b * c <= (a + b) * (c + d)
  {
    assert (a + b) * (c + d) == a * c + a * d + b * c + b * d;
  }

  /** The distances that the flatness test measures, by last leg and bends. */
  lemma FlatTerms(c: Cubic)
    ensures var t, a, b := Leg(c), BendA(c), BendB(c); var chord := Minus(c.p4, c.p1);
      && chord == Point(3.0 * t.x - 2.0 * a.x - b.x, 3.0 * t.y - 2.0 * a.y - b.y)
      && Cross(Minus(c.p2, c.p4), chord) == Cross(t, a) + 2.0 * Cross(t, b) - Cross(a, b)
      && Cross(Minus(c.p3, c.p4), chord) == 2.0 * Cross(t, a) + Cross(t, b)
  {
    var t, a, b := Leg(c), BendA(c), BendB(c);
    assert Minus(c.p3, c.p4) == Point(-t.x, -t.y) && Minus(c.p2, c.p4) == Point(a.x - 2.0 * t.x, a.y - 2.0 * t.y);
    assert Minus(c.p4, c.p1) == Point(3.0 * t.x - 2.0 * a.x - b.x, 3.0 * t.y - 2.0 * a.y - b.y);
    TermsOf(t.x, t.y, a.x, a.y, b.x, b.y);
    hide Minus;
    hide Leg;
    hide BendA;
    hide BendB;
  }

  lemma TermsOf(tx: real, ty: real, ax: real, ay: real, cx: real, cy: real)
    ensures var dx, dy := 3.0 * tx - 2.0 * ax - cx, 3.0 * ty - 2.0 * ay - cy;
      && (ax - 2.0 * tx) * dy - (ay - 2.0 * ty) * dx
         == (tx * ay - ty * ax) + 2.0 * (tx * cy - ty * cx) - (ax * cy - ay * cx)
      && (-tx) * dy - (-ty) * dx == 2.0 * (tx * ay - ty * ax) + (tx * cy - ty * cx)
  {
  }

  lemma SquareOf(x: real)
    ensures x * x >= 0.0 && Abs(x) * Abs(x) == x * x
  {
  }

  function Mul(x: real, y: real): (z: real)
    ensures x > 0.0 && y > 0.0 ==> z > 0.0
  {
    x * y
  }

  function Sq(x: real): real {
    Mul(x, x)
  }

  lemma SquareSum(x: real, y: real, t: real)
    requires 1.5 * t <= x + y && t > 0.0
    ensures 1.125 * (t * t) <= x * x + y * y
  {
    SquareOf(x - y);
    Product(1.5 * t, x + y, 1.5 * t, x + y);
    assert 2.0 * (x * x + y * y) == (x + y) * (x + y) + (x - y) * (x - y);
  }

  lemma ChordSize(chord: Point, t: real)
    requires 1.5 * t <= Size(chord) && t > 0.0
    ensures 1.125 * (t * t) <= Square(chord)
  {
    SquareOf(chord.x);
    SquareOf(chord.y);
    var x, y := Abs(chord.x), Abs(chord.y);
    hide Abs;
    SquareSum(x, y, t);
  }

  /** A curve whose legs differ little from its last one is flat. */
  lemma StraightFlat(c: Cubic, m: real, tessTol: real)
    requires Size(BendA(c)) <= m && Size(BendB(c)) <= m && 0.0 < 2.0 * m <= Size(Leg(c)) && 38.0 * (m * m) < tessTol
    ensures Flat(c, tessTol)
  {
    hide Size;
    hide Cross;
    hide Leg;
    hide BendA;
    hide BendB;
    hide Minus;
    hide Square;
    hide Flat;
    hide Abs;
    var t, a, b, s := Leg(c), BendA(c), BendB(c), Size(Leg(c));
    FlatTerms(c);
    CrossBound(t, a, s, m);
    CrossBound(t, b, s, m);
    CrossBound(a, b, m, m);
    ChordLong(c, m);
    ChordSize(Minus(c.p4, c.p1), s);
    DistanceSum(Cross(t, a), Cross(t, b), Cross(a, b), s * m, m * m);
    IsFlat(c, s, m, tessTol);
  }

  lemma DistanceSum(ta: real, tb: real, ab: real, sm: real, mm: real)
    requires Abs(ta) <= sm && Abs(tb) <= sm && Abs(ab) <= mm
    ensures Abs(ta + 2.0 * tb - ab) + Abs(2.0 * ta + tb) <= 6.0 * sm + mm
  {
  }

  lemma IsFlat(c: Cubic, s: real, m: real, tessTol: real)
    requires var chord := Minus(c.p4, c.p1);
      && Abs(Cross(Minus(c.p2, c.p4), chord)) + Abs(Cross(Minus(c.p3, c.p4), chord)) <= 6.0 * (s * m) + m * m
      && 1.125 * (s * s) <= Square(chord)
    requires 0.0 < 2.0 * m <= s && 38.0 * (m * m) < tessTol
    ensures Flat(c, tessTol)
  {
    var chord := Minus(c.p4, c.p1);
    var d2, d3 := Abs(Cross(Minus(c.p2, c.p4), chord)), Abs(Cross(Minus(c.p3, c.p4), chord));
    hide Cross;
    hide Square;
    hide Minus;
    Enough(d2 + d3, s, m, Square(chord), tessTol);
  }

  lemma ChordLong(c: Cubic, m: real)
    requires Size(BendA(c)) <= m && Size(BendB(c)) <= m && 0.0 < 2.0 * m <= Size(Leg(c))
    ensures 1.5 * Size(Leg(c)) <= Size(Minus(c.p4, c.p1))
  {
    hide Cross;
    FlatTerms(c);
    hide Leg;
    hide BendA;
    hide BendB;
    hide Minus;
  }

  lemma SquareProduct(s: real, m: real)
    ensures (s * m) * (s * m) == (s * s) * (m * m)
  {
  }

  lemma DistanceLess(d: real, s: real, m: real)
    requires 0.0 <= d <= 6.0 * (s * m) + m * m && 0.0 < 2.0 * m <= s
    ensures Sq(d) <= 42.25 * (Sq(s) * Sq(m))
  {
    var z := s * m;
    Product(m, 0.5 * s, m, m);
    assert m * m <= 0.5 * z;
    Product(d, 6.5 * z, d, 6.5 * z);
    SquareProduct(s, m);
  }

  lemma Enough(d: real, s: real, m: real, chord: real, tessTol: real)
    requires 0.0 <= d <= 6.0 * (s * m) + m * m && 0.0 < 2.0 * m <= s
    requires 1.125 * Sq(s) <= chord && 38.0 * Sq(m) < tessTol
    ensures Sq(d) < tessTol * chord
  {
    DistanceLess(d, s, m);
    assert Sq(s) > 0.0 && Sq(m) > 0.0;
    hide Sq;
    hide Mul;
    Chain(Sq(d), Sq(s), Sq(m), chord, tessTol);
  }

  lemma Chain(dd: real, ss: real, mm: real, chord: real, tessTol: real)
    requires dd <= 42.25 * (ss * mm) && ss > 0.0 && mm >= 0.0 && 1.125 * ss <= chord && 38.0 * mm < tessTol
    ensures dd < tessTol * chord
  {
    Below(ss, 42.25 * mm, 1.125 * tessTol);
    Product(tessTol, tessTol, 1.125 * ss, chord);
  }

  lemma Below(a: real, b: real, c: real)
    requires a > 0.0 && b < c
    ensures a * b < a * c
  {
  }

  /** 2 to the power of n. */
  function Power(n: nat): real {
    if n == 0 then 1.0 else 2.0 * Power(n - 1)
  }

  lemma {:induction false} BendsVanish(c: Cubic, level: nat, m: real, tessTol: real)
    requires level <= MAX_LEVEL && Size(BendA(c)) <= m && Size(BendB(c)) <= m
    requires var p := Power(MAX_LEVEL - level);
      0.0 < 2.0 * m <= Size(Leg(c)) * p && 38.0 * (m * m) < tessTol * (p * p * p * p)
    ensures EndsFlat(c, level, tessTol)
    decreases MAX_LEVEL - level
  {
    hide Flat;
    hide Right;
    hide Size;
    hide BendA;
    hide BendB;
    hide Leg;
    if level == MAX_LEVEL {
      StraightFlat(c, m, tessTol);
    } else {
      var p, q := Power(MAX_LEVEL - level), Power(MAX_LEVEL - level - 1);
      assert p == 2.0 * q;
      HalfBends(c, m);
      LevelDown(Size(Leg(c)), m, q, tessTol);
      BendsVanish(Right(c), level + 1, m * 0.25, tessTol);
    }
  }

  lemma LevelDown(s: real, m: real, q: real, tessTol: real)
    requires 0.0 < 2.0 * m <= s * (2.0 * q)
    requires var p := 2.0 * q; 38.0 * (m * m) < tessTol * (p * p * p * p)
    ensures 0.0 < 2.0 * (m * 0.25) <= (s * 0.5) * q && 38.0 * ((m * 0.25) * (m * 0.25)) < tessTol * (q * q * q * q)
  {
    var f := q * q * q * q;
    var p := 2.0 * q;
    assert p * p == 4.0 * (q * q);
    assert p * p * p == 8.0 * (q * q * q);
    assert p * p * p * p == 16.0 * f;
    assert tessTol * (16.0 * f) == 16.0 * (tessTol * f);
  }

  lemma PowerTen()
    ensures Power(10) == 1024.0
  {
    assert Power(5) == 32.0;
  }

  /** The end of a curve is kept if its legs do not differ too much: by at most m, where m is no
      more than 512 times the last leg and 38 times its square is below 2^40 times the tolerance. */
  lemma EndKept(c: Cubic, m: real, flags: bv8, tessTol: real)
    requires Size(BendA(c)) <= m && Size(BendB(c)) <= m
    requires 0.0 < m <= 512.0 * Size(Leg(c)) && 38.0 * (m * m) < tessTol * 1099511627776.0
    ensures var h := Handed(c, 0, flags, tessTol); h != [] && h[|h| - 1] == PathPoint(c.p4, flags)
  {
    PowerTen();
    hide Power;
    hide Size;
    BendsVanish(c, 0, m, tessTol);
    EndHanded(c, 0, 0, flags, tessTol);
  }

  // ---------- storing the points ----------

  predicate PtEquals(p: Point, q: Point, tol: real) {
    var dx, dy := q.x - p.x, q.y - p.y;
    dx * dx + dy * dy < tol * tol
  }

  /** `nsvg__addPathPoint` */
  function Added(pts: seq<PathPoint>, p: PathPoint, distTol: real): seq<PathPoint> {
    if pts != [] && PtEquals(pts[|pts| - 1].at, p.at, distTol)
    then pts[|pts| - 1 := pts[|pts| - 1].(flags := pts[|pts| - 1].flags | p.flags)]
    else pts + [p]
  }

  function AddedAll(pts: seq<PathPoint>, more: seq<PathPoint>, distTol: real): seq<PathPoint>
    decreases more
  {
    if more == [] then pts else AddedAll(Added(pts, more[0], distTol), more[1..], distTol)
  }

  lemma {:induction false} AddedJoin(pts: seq<PathPoint>, a: seq<PathPoint>, b: seq<PathPoint>, distTol: real)
    ensures AddedAll(pts, a + b, distTol) == AddedAll(AddedAll(pts, a, distTol), b, distTol)
    decreases a
  {
    if a == [] {
      assert a + b == b;
    } else {
      assert (a + b)[1..] == a[1..] + b;
      AddedJoin(Added(pts, a[0], distTol), a[1..], b, distTol);
    }
  }

  /** The points are closer than the tolerance. */
  predicate Coincide(p: Point, q: Point, distTol: real) {
    Square(Minus(q, p)) < distTol * distTol
  }

  /** Stored neighbours never coincide. */
  ghost predicate SpacedOut(pts: seq<PathPoint>, distTol: real) {
    forall i :: 0 < i < |pts| ==> !Coincide(pts[i - 1].at, pts[i].at, distTol)
  }

  /** f has all the flags of g. */
  predicate Has(f: bv8, g: bv8) {
    f & g == g
  }

  /** The stored point a stands for the new one b, and has its flags. */
  predicate StandsFor(a: PathPoint, b: PathPoint, distTol: real) {
    (a.at == b.at || Coincide(a.at, b.at, distTol)) && Has(a.flags, b.flags)
  }

  ghost predicate Stored(all: seq<PathPoint>, b: PathPoint, distTol: real) {
    exists i :: 0 <= i < |all| && StandsFor(all[i], b, distTol)
  }

  ghost predicate From(more: seq<PathPoint>, at: Point) {
    exists j :: 0 <= j < |more| && more[j].at == at
  }

  /** Old points stay, neighbours are apart, every new point was handed on, and every point handed
      on is there, or coincides with one that is. */
  lemma {:induction false} AddedSpaced(pts: seq<PathPoint>, more: seq<PathPoint>, distTol: real)
    requires SpacedOut(pts, distTol)
    ensures var all := AddedAll(pts, more, distTol);
      && SpacedOut(all, distTol) && |pts| <= |all|
      && (forall i :: 0 <= i < |pts| ==> all[i].at == pts[i].at)
      && (forall i :: |pts| <= i < |all| ==> From(more, all[i].at))
      && (forall j :: 0 <= j < |more| ==> Stored(all, more[j], distTol))
    decreases more
  {
    if more != [] {
      var one, rest := Added(pts, more[0], distTol), more[1..];
      AddedOne(pts, more[0], distTol);
      hide Coincide;
      hide Added;
      AddedSpaced(one, rest, distTol);
      var all := AddedAll(pts, more, distTol);
      PrefixKept(one, rest, distTol);
      forall i | |pts| <= i < |all| ensures From(more, all[i].at) {
        if i < |one| {
          assert more[0].at == all[i].at;
        } else {
          var j :| 0 <= j < |rest| && rest[j].at == all[i].at;
          assert more[j + 1] == rest[j];
        }
      }
      forall j | 0 <= j < |more| ensures Stored(all, more[j], distTol) {
        if j == 0 {
          StillStands(one[|one| - 1], all[|one| - 1], more[0], distTol);
        } else {
          assert more[j] == rest[j - 1];
        }
      }
    }
  }

  /** The last one stored stands for the point, whether it is new or not. */
  lemma AddedOne(pts: seq<PathPoint>, p: PathPoint, distTol: real)
    requires SpacedOut(pts, distTol)
    ensures var one := Added(pts, p, distTol);
      && SpacedOut(one, distTol) && |pts| <= |one| <= |pts| + 1 && one != []
      && (forall i :: 0 <= i < |pts| ==> one[i].at == pts[i].at)
      && StandsFor(one[|one| - 1], p, distTol) && (|one| > |pts| ==> one[|pts|].at == p.at)
  {
    if pts != [] {
      SameTest(pts[|pts| - 1].at, p.at, distTol);
    }
    hide PtEquals;
    hide Coincide;
    HasBoth(if pts == [] then 0 else pts[|pts| - 1].flags, p.flags);
    hide Has;
  }

  lemma SameTest(p: Point, q: Point, distTol: real)
    ensures PtEquals(p, q, distTol) == Coincide(p, q, distTol)
  {
  }

  lemma HasBoth(f: bv8, g: bv8)
    ensures Has(f | g, g) && Has(g, g)
  {
  }

  lemma StillStands(a: PathPoint, a': PathPoint, b: PathPoint, distTol: real)
    requires StandsFor(a, b, distTol) && a'.at == a.at && Has(a'.flags, a.flags)
    ensures StandsFor(a', b, distTol)
  {
    hide Coincide;
  }

  lemma {:induction false} PrefixKept(pts: seq<PathPoint>, more: seq<PathPoint>, distTol: real)
    ensures var all := AddedAll(pts, more, distTol);
      |pts| <= |all| && forall i :: 0 <= i < |pts| ==> all[i].at == pts[i].at && Has(all[i].flags, pts[i].flags)
    decreases more
  {
    hide PtEquals;
    hide Has;
    if more == [] {
      forall i | 0 <= i < |pts| ensures Has(pts[i].flags, pts[i].flags) {
        FlagsGrow(pts[i].flags, pts[i].flags, 0);
      }
    } else {
      var one := Added(pts, more[0], distTol);
      PrefixKept(one, more[1..], distTol);
      var all := AddedAll(pts, more, distTol);
      forall i | 0 <= i < |pts| ensures Has(all[i].flags, pts[i].flags) {
        FlagsGrow(all[i].flags, pts[i].flags, more[0].flags);
      }
    }
  }

  lemma FlagsGrow(c: bv8, a: bv8, d: bv8)
    ensures Has(a, a) && (Has(c, a | d) ==> Has(c, a))
  {
  }
}
