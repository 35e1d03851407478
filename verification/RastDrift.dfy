/** How far the positions of the active edges are from the edges themselves: they start at the
    true position, rounded down, and go on by steps that are rounded, too. */
module RastDrift {
  import opened RastCover
  import opened RastSweep
  import opened RastWinding

  /** Where the edge really is at the centre of sub-scanline t, in 1/1024 pixels. */
  function TrueX(e: Edge, t: int): real
    requires e.y0 != e.y1
  {
    1024.0 * (e.x0 + Slope(e) * (Center(t) - e.y0))
  }

  /** The step is not rounded. */
  predicate WholeStep(e: Edge)
    requires e.y0 != e.y1
  {
    StepX(e) as real == 1024.0 * Slope(e)
  }

  /** A bound for the distance: a unit at the start, and one more for every rounded step. */
  function Drift(e: Edge, t: int): int
    requires e.y0 != e.y1
  {
    if WholeStep(e) then 1 else t - First(e) + 1
  }

  lemma StepRounds(e: Edge)
    requires e.y0 != e.y1
    ensures var s := 1024.0 * Slope(e); s - 1.0 < StepX(e) as real < s + 1.0
  {
    hide Slope;
  }

  function Mul(x: real, y: real): real {
    x * y
  }

  lemma Times(k: int, x: real, y: real)
    requires k >= 0 && y - 1.0 < x < y + 1.0
    ensures Mul(k as real, y) - k as real <= Mul(k as real, x) <= Mul(k as real, y) + k as real
  {
    hide Mul;
    Less(k as real, y - 1.0, x);
    Less(k as real, x, y + 1.0);
    NextTo(k as real, y);
  }

  lemma NextTo(k: real, y: real)
    ensures Mul(k, y - 1.0) == Mul(k, y) - k && Mul(k, y + 1.0) == Mul(k, y) + k
  {
  }

  lemma Less(k: real, x: real, y: real)
    requires k >= 0.0 && x <= y
    ensures Mul(k, x) <= Mul(k, y)
  {
  }

  /** The true position moves by the slope. */
  lemma TrueMoves(e: Edge, t: int)
    requires e.y0 != e.y1 && t >= First(e)
    ensures var k := (t - First(e)) as real; TrueX(e, t) == TrueX(e, First(e)) + Mul(k, 1024.0 * Slope(e))
  {
    hide Slope;
    var f, s := First(e), Slope(e);
    hide First;
    var k := (t - f) as real;
    assert Center(t) - e.y0 == (Center(f) - e.y0) + k;
    Distribute(s, Center(f) - e.y0, k);
    hide Mul;
    Shift(e.x0, s * (Center(t) - e.y0), s * (Center(f) - e.y0), Mul(k, 1024.0 * s));
  }

  lemma Shift(x0: real, a: real, b: real, c: real)
    requires 1024.0 * a == 1024.0 * b + c
    ensures 1024.0 * (x0 + a) == 1024.0 * (x0 + b) + c
  {
  }

  lemma Distribute(s: real, x: real, k: real)
    ensures 1024.0 * (s * (x + k)) == 1024.0 * (s * x) + Mul(k, 1024.0 * s)
  {
  }

  /** The position is off by less than one unit at the start and one more for every step; not
      more than rounded down if the step is not rounded. */
  lemma Position(e: Edge, t: int)
    requires e.y0 != e.y1 && t >= First(e)
    ensures var d := XAt(e, t) as real - TrueX(e, t);
      && -((t - First(e) + 1) as real) < d < (t - First(e) + 1) as real
      && (WholeStep(e) ==> -1.0 < d <= 0.0)
  {
    hide StartX;
    hide Slope;
    hide TrueX;
    hide StepX;
    hide First;
    var k, s, y := t - First(e), StepX(e), 1024.0 * Slope(e);
    StepRounds(e);
    TrueMoves(e, t);
    Times(k, s as real, y);
    StartRounds(e);
    Stepped(k, s);
    assert XAt(e, t) as real == StartX(e, First(e)) as real + (k * s) as real;
    hide Mul;
    var ks, ky := Mul(k as real, s as real), Mul(k as real, y);
    assert WholeStep(e) ==> ks == ky;
    Together(StartX(e, First(e)) as real, TrueX(e, First(e)), ks, ky, k as real);
  }

  lemma Together(x0: real, t0: real, ks: real, ky: real, k: real)
    requires t0 - 1.0 < x0 <= t0 && ky - k <= ks <= ky + k
    ensures -(k + 1.0) < (x0 + ks) - (t0 + ky) < k + 1.0 && (ks == ky ==> -1.0 < (x0 + ks) - (t0 + ky) <= 0.0)
  {
  }

  lemma StartRounds(e: Edge)
    requires e.y0 != e.y1
    ensures TrueX(e, First(e)) - 1.0 < StartX(e, First(e)) as real <= TrueX(e, First(e))
  {
    hide Slope;
    hide First;
  }

  lemma Stepped(k: int, s: int)
    ensures (k * s) as real == Mul(k as real, s as real)
  {
  }

  /** An edge less than a pixel wide and 1000 sub-scanlines high does not move at all, although
      it should by nine tenths of a pixel. */
  lemma DriftInput(e: Edge)
    requires e.x0 == 0.0 && e.y0 == 0.0 && e.x1 == 0.9 && e.y1 == 1000.0
    ensures XAt(e, 999) == 0 && TrueX(e, 999) > 921.0
  {
    assert Slope(e) == 0.0009;
  }

  // ---------- what the difference can do ----------

  /** The position and the edge are on different sides of u. */
  predicate Differs(e: Edge, t: int, u: int)
    requires e.y0 != e.y1
  {
    (XAt(e, t) <= u) != (TrueX(e, t) <= u as real)
  }

  /** How often that happens for a <= u < b. */
  function Count(e: Edge, t: int, a: int, b: int): nat
    requires e.y0 != e.y1
    decreases b - a
  {
    if a >= b then 0 else Count(e, t, a, b - 1) + if Differs(e, t, b - 1) then 1 else 0
  }

  lemma {:induction false} CountWithin(e: Edge, t: int, a: int, b: int, lo: int, hi: int)
    requires e.y0 != e.y1 && lo <= hi && forall u :: Differs(e, t, u) ==> lo <= u < hi
    ensures Count(e, t, a, b) <= Max(0, Min(b, hi) - lo)
    decreases b - a
  {
    hide Differs;
    if a < b {
      CountWithin(e, t, a, b - 1, lo, hi);
    }
  }

  lemma CountBound(e: Edge, t: int, a: int, b: int)
    requires e.y0 != e.y1 && t >= First(e)
    ensures Count(e, t, a, b) <= Drift(e, t)
  {
    hide TrueX;
    hide XAt;
    hide StepX;
    hide Slope;
    hide First;
    hide Count;
    Position(e, t);
    var x, n := XAt(e, t), Drift(e, t);
    assert -(n as real) < x as real - TrueX(e, t) < n as real;
    if x as real <= TrueX(e, t) {
      CountWithin(e, t, a, b, x, x + n);
    } else {
      CountWithin(e, t, a, b, x - n, x);
    }
  }

  /** The winding sum with the edges where they really are. */
  function TrueSum(edges: seq<Edge>, t: int, u: int): int
    requires forall k :: 0 <= k < |edges| ==> edges[k].y0 != edges[k].y1
  {
    if edges == [] then 0
    else
      var e := edges[|edges| - 1];
      TrueSum(edges[..|edges| - 1], t, u) + if Crosses(e, t) && TrueX(e, t) <= u as real then e.dir else 0
  }

  /** How many crossing edges are on the other side of u. */
  function Differing(edges: seq<Edge>, t: int, u: int): nat
    requires forall k :: 0 <= k < |edges| ==> edges[k].y0 != edges[k].y1
  {
    if edges == [] then 0
    else
      var e := edges[|edges| - 1];
      Differing(edges[..|edges| - 1], t, u) + if Crosses(e, t) && Differs(e, t, u) then 1 else 0
  }

  lemma {:induction false} SameSum(edges: seq<Edge>, t: int, u: int)
    requires forall k :: 0 <= k < |edges| ==> edges[k].y0 != edges[k].y1
    requires Differing(edges, t, u) == 0
    ensures TrueSum(edges, t, u) == WindSum(edges, t, u)
  {
    hide XAt;
    hide TrueX;
    hide Crosses;
    if edges != [] {
      SameSum(edges[..|edges| - 1], t, u);
    }
  }

  function DifferingAll(edges: seq<Edge>, t: int, a: int, b: int): nat
    requires forall k :: 0 <= k < |edges| ==> edges[k].y0 != edges[k].y1
    decreases b - a
  {
    if a >= b then 0 else DifferingAll(edges, t, a, b - 1) + Differing(edges, t, b - 1)
  }

  /** The drift of all crossing edges. */
  function DriftAll(edges: seq<Edge>, t: int): int
    requires forall k :: 0 <= k < |edges| ==> edges[k].y0 != edges[k].y1
  {
    if edges == [] then 0
    else
      var e := edges[|edges| - 1];
      DriftAll(edges[..|edges| - 1], t) + if Crosses(e, t) then Drift(e, t) else 0
  }

  lemma {:induction false} DifferingNone(t: int, a: int, b: int)
    ensures DifferingAll([], t, a, b) == 0
    decreases b - a
  {
    if a < b {
      DifferingNone(t, a, b - 1);
    }
  }

  lemma {:induction false} DifferingOne(edges: seq<Edge>, t: int, a: int, b: int)
    requires edges != [] && forall k :: 0 <= k < |edges| ==> edges[k].y0 != edges[k].y1
    ensures var e := edges[|edges| - 1];
      DifferingAll(edges, t, a, b)
      == DifferingAll(edges[..|edges| - 1], t, a, b) + if Crosses(e, t) then Count(e, t, a, b) else 0
    decreases b - a
  {
    hide Differs;
    hide Crosses;
    if a < b {
      DifferingOne(edges, t, a, b - 1);
    }
  }

  lemma {:induction false} DifferingBound(edges: seq<Edge>, t: nat, a: int, b: int)
    requires forall k :: 0 <= k < |edges| ==> edges[k].y0 != edges[k].y1
    ensures DifferingAll(edges, t, a, b) <= DriftAll(edges, t)
    decreases |edges|
  {
    hide Drift;
    hide Count;
    if edges == [] {
      DifferingNone(t, a, b);
    } else {
      var e := edges[|edges| - 1];
      DifferingBound(edges[..|edges| - 1], t, a, b);
      DifferingOne(edges, t, a, b);
      if Crosses(e, t) {
        CrossesFrom(e, t);
        CountBound(e, t, a, b);
      }
    }
  }

  lemma CrossesFrom(e: Edge, t: nat)
    requires Crosses(e, t)
    ensures t >= First(e)
  {
  }
}
