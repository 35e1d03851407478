/** Reading the face lines of an OBJ file: corners of the forms i, i/j, i//k and i/j/k, and the
    fan of triangles. */
module ObjLine {
  import opened ObjShapes
  import opened ObjAttrib

  const MAX_FACES: nat := 16

  /** The character at i; the line ends with a zero. */
  function At(s: seq<int>, i: nat): int {
    if i < |s| then s[i] else 0
  }

  predicate IsDigit(c: int) { 48 <= c <= 57 }

  predicate IsSpace(c: int) { c == 32 || c == 9 }

  predicate IsNewLine(c: int) { c == 13 || c == 10 || c == 0 }

  /** The characters that end a component. */
  predicate EndsItem(c: int) { c == 0 || c == 47 || c == 32 || c == 9 || c == 13 }

  // ---------- numbers ----------

  function DigitsValue(s: seq<int>, i: nat, value: int): int
    decreases |s| - i
  {
    if i < |s| && IsDigit(s[i]) then DigitsValue(s, i + 1, value * 10 + (s[i] - 48)) else value
  }

  function AtoiValue(s: seq<int>, i: nat): int {
    if At(s, i) == 43 then DigitsValue(s, i + 1, 0)
    else if At(s, i) == 45 then DigitsValue(s, i + 1, 0) * -1
    else DigitsValue(s, i, 0)
  }

  /** `my_atoi` */
  method MyAtoi(s: seq<int>, from: nat) returns (r: int)
    ensures r == AtoiValue(s, from)
  {
    var value, sign, i := 0, 1, from;
    if At(s, i) == 43 || At(s, i) == 45 {
      if At(s, i) == 45 {
        sign := -1;
      }
      i := i + 1;
    }
    ghost var start := i;
    while IsDigit(At(s, i))
      invariant start <= i && DigitsValue(s, i, value) == DigitsValue(s, start, 0)
      decreases |s| - i
    {
      value := value * 10;
      value := value + (At(s, i) - 48);
      i := i + 1;
    }
    return value * sign;
  }

  // ---------- corners ----------

  function SkipItem(s: seq<int>, i: nat): (j: nat)
    requires i <= |s|
    ensures i <= j <= |s|
    decreases |s| - i
  {
    if i < |s| && !EndsItem(s[i]) then SkipItem(s, i + 1) else i
  }

  /** `parseRawTriple` */
  function TripleAt(s: seq<int>, i: nat): (r: (Triple, nat))
    requires i <= |s|
    ensures i <= r.1 <= |s|
  {
    var v, i1 := AtoiValue(s, i), SkipItem(s, i);
    if At(s, i1) != 47 then (Triple(v, INVALID, INVALID), i1)
    else if At(s, i1 + 1) == 47 then (Triple(v, INVALID, AtoiValue(s, i1 + 2)), SkipItem(s, i1 + 2))
    else
      var vt, i2 := AtoiValue(s, i1 + 1), SkipItem(s, i1 + 1);
      if At(s, i2) != 47 then (Triple(v, vt, INVALID), i2)
      else (Triple(v, vt, AtoiValue(s, i2 + 1)), SkipItem(s, i2 + 1))
  }

  method Skip(s: seq<int>, from: nat) returns (i: nat)
    requires from <= |s|
    ensures i == SkipItem(s, from)
  {
    i := from;
    while i < |s| && !EndsItem(s[i])
      invariant from <= i <= |s| && SkipItem(s, i) == SkipItem(s, from)
    {
      i := i + 1;
    }
  }

  method ParseRawTriple(s: seq<int>, token: nat) returns (vi: Triple, i: nat)
    requires token <= |s|
    ensures (vi, i) == TripleAt(s, token)
  {
    vi := Triple(INVALID, INVALID, INVALID);
    var n := MyAtoi(s, token);
    vi := vi.(v := n);
    i := Skip(s, token);
    if At(s, i) != 47 {
      return;
    }
    i := i + 1;
    if At(s, i) == 47 {
      i := i + 1;
      n := MyAtoi(s, i);
      vi := vi.(vn := n);
      i := Skip(s, i);
      return;
    }
    n := MyAtoi(s, i);
    vi := vi.(vt := n);
    i := Skip(s, i);
    if At(s, i) != 47 {
      return;
    }
    i := i + 1;
    n := MyAtoi(s, i);
    vi := vi.(vn := n);
    i := Skip(s, i);
  }

  function SkipBlank(s: seq<int>, i: nat, cr: bool): (j: nat)
    requires i <= |s|
    ensures i <= j <= |s|
    decreases |s| - i
  {
    if i < |s| && (IsSpace(s[i]) || (cr && s[i] == 13)) then SkipBlank(s, i + 1, cr) else i
  }

  /** Every corner takes at least one character. */
  lemma TripleMoves(s: seq<int>, i: nat)
    requires i < |s| && !IsSpace(s[i]) && !IsNewLine(s[i])
    ensures TripleAt(s, i).1 > i
  {
  }

  /** The corners from i to the end of the line. */
  function Corners(s: seq<int>, i: nat): seq<Triple>
    requires i <= |s| && !IsSpace(At(s, i))
    decreases |s| - i
  {
    if IsNewLine(At(s, i)) then []
    else
      TripleMoves(s, i);
      var (vi, j) := TripleAt(s, i);
      SkipStops(s, j, true);
      [vi] + Corners(s, SkipBlank(s, j, true))
  }

  lemma {:induction false} SkipStops(s: seq<int>, i: nat, cr: bool)
    requires i <= |s|
    ensures !IsSpace(At(s, SkipBlank(s, i, cr)))
    decreases |s| - i
  {
    if i < |s| && (IsSpace(s[i]) || (cr && s[i] == 13)) {
      SkipStops(s, i + 1, cr);
    }
  }

  // ---------- the fan ----------

  function Fan(f: seq<Triple>): seq<Triple> {
    if |f| < 3 then [] else Fan(f[..|f| - 1]) + [f[0], f[|f| - 2], f[|f| - 1]]
  }

  /** A polygon of k corners becomes k - 2 triangles: corner 0 with every later edge. */
  lemma {:induction false} FanAt(f: seq<Triple>)
    ensures |Fan(f)| == if |f| < 3 then 0 else 3 * (|f| - 2)
    ensures forall k :: 0 <= k < |f| - 2 ==> TriangleAt(f, Fan(f), k)
  {
    if |f| >= 3 {
      var init := f[..|f| - 1];
      FanAt(init);
      forall k: nat | k < |f| - 2 ensures TriangleAt(f, Fan(f), k) {
        if k < |init| - 2 {
          assert TriangleAt(init, Fan(init), k);
        }
      }
    }
  }

  ghost predicate TriangleAt(f: seq<Triple>, fan: seq<Triple>, k: nat) {
    k + 2 < |f| && 3 * k + 2 < |fan| && fan[3 * k] == f[0] && fan[3 * k + 1] == f[k + 1] && fan[3 * k + 2] == f[k + 2]
  }

  /** The number of corners that the fixed arrays, and the assertions, allow. */
  predicate Accepted(n: nat, triangulate: bool) {
    if triangulate then 3 * n < MAX_FACES else n < MAX_FACES
  }

  function Threes(n: int): seq<int> {
    if n <= 0 then [] else Threes(n - 1) + [3]
  }

  function FaceCorners(s: seq<int>, token: nat): seq<Triple>
    requires token <= |s|
  {
    SkipStops(s, token, false);
    Corners(s, SkipBlank(s, token, false))
  }

  /** What becomes of a face line: a command, a failed assertion, or a corner that is written
      behind the last slot of the array on the stack. */
  datatype Line = Face(command: Command) | Refused | Overrun

  /** The loop over the corners; not ok if there are more than the array has slots. */
  method ReadCorners(s: seq<int>, token: nat, f: array<Triple>) returns (numF: nat, ok: bool)
    requires token <= |s|
    modifies f
    ensures ok <==> |FaceCorners(s, token)| <= f.Length
    ensures ok ==> numF <= f.Length && f[..numF] == FaceCorners(s, token)
  {
    hide TripleAt;
    hide SkipBlank;
    hide Corners;
    var i := SkipBlanks(s, token, false);
    SkipStops(s, token, false);
    ghost var all := Corners(s, i);
    numF := 0;
    while !IsNewLine(At(s, i))
      invariant i <= |s| && !IsSpace(At(s, i)) && numF <= f.Length && f[..numF] + Corners(s, i) == all
      decreases |s| - i
    {
      ghost var before := f[..numF];
      TripleMoves(s, i);
      var vi, j := ParseRawTriple(s, i);
      CornersNext(s, i, vi, j);
      i := SkipBlanks(s, j, true);
      if numF == f.Length {
        return 0, false;
      }
      f[numF] := vi;
      numF := numF + 1;
      assert f[..numF] == before + [vi];
    }
    CornersStop(s, i);
    return numF, true;
  }

  lemma CornersStop(s: seq<int>, i: nat)
    requires i <= |s| && !IsSpace(At(s, i)) && IsNewLine(At(s, i))
    ensures Corners(s, i) == []
  {
  }

  /** The face case of `parseLine`, behind the f. */
  method ParseFace(s: seq<int>, token: nat, triangulate: bool) returns (r: Line)
    requires token <= |s|
    ensures var f := FaceCorners(s, token);
      && (r.Overrun? <==> |f| > MAX_FACES)
      && (r.Face? <==> Accepted(|f|, triangulate))
      && (r.Face? && !triangulate ==> r.command == F(f, [|f|]))
      && (r.Face? && triangulate ==> r.command == F(Fan(f), Threes(|f| - 2)))
  {
    hide FaceCorners;
    hide Fan;
    hide Threes;
    var f := new Triple[MAX_FACES](_ => Triple(0, 0, 0));
    var numF, ok := ReadCorners(s, token, f);
    if !ok {
      return Overrun;
    }
    if triangulate {
      if 3 * numF >= MAX_FACES {
        return Refused;
      }
      var fan, sizes := Triangulate(f[..numF]);
      r := Face(F(fan, sizes));
    } else {
      if numF >= MAX_FACES {
        return Refused;
      }
      r := Face(F(f[..numF], [numF]));
    }
  }

  method SkipBlanks(s: seq<int>, from: nat, cr: bool) returns (i: nat)
    requires from <= |s|
    ensures i == SkipBlank(s, from, cr)
  {
    i := from;
    while i < |s| && (IsSpace(s[i]) || (cr && s[i] == 13))
      invariant from <= i <= |s| && SkipBlank(s, i, cr) == SkipBlank(s, from, cr)
    {
      i := i + 1;
    }
  }

  method Triangulate(f: seq<Triple>) returns (fan: seq<Triple>, sizes: seq<int>)
    ensures fan == Fan(f) && sizes == Threes(|f| - 2)
  {
    fan, sizes := [], [];
    if |f| < 3 {
      return;
    }
    var i0, i2, k := f[0], f[1], 2;
    while k < |f|
      invariant 2 <= k <= |f| && i2 == f[k - 1] && fan == Fan(f[..k]) && sizes == Threes(k - 2)
    {
      var i1 := i2;
      i2 := f[k];
      assert f[..k + 1][..k] == f[..k];
      fan := fan + [i0, i1, i2];
      sizes := sizes + [3];
      k := k + 1;
    }
    assert f[..|f|] == f;
  }

  // ---------- parse of print ----------

  function Decimal(n: nat): (d: seq<int>)
    ensures |d| >= 1 && forall i :: 0 <= i < |d| ==> IsDigit(d[i])
  {
    if n < 10 then [48 + n] else Decimal(n / 10) + [48 + n % 10]
  }

  function Number(n: int): (d: seq<int>)
    ensures |d| >= 1 && forall i :: 0 <= i < |d| ==> !EndsItem(d[i])
  {
    if n < 0 then [45] + Decimal(-n) else Decimal(n)
  }

  /** A corner as it is written; a component may be missing. */
  datatype Corner = Corner(v: int, vt: Option<int>, vn: Option<int>)

  function Written(c: Corner): seq<int> {
    Number(c.v) +
    match (c.vt, c.vn)
    case (None, None) => []
    case (None, Some(n)) => [47, 47] + Number(n)
    case (Some(t), None) => [47] + Number(t)
    case (Some(t), Some(n)) => [47] + Number(t) + [47] + Number(n)
  }

  function Meant(c: Corner): Triple {
    Triple(c.v, if c.vt.Some? then c.vt.value else INVALID, if c.vn.Some? then c.vn.value else INVALID)
  }

  /** s continues with `part` at position i. */
  ghost predicate Has(s: seq<int>, i: nat, part: seq<int>) {
    i + |part| <= |s| && s[i..i + |part|] == part
  }

  lemma HasParts(s: seq<int>, i: nat, x: seq<int>, y: seq<int>)
    requires Has(s, i, x + y)
    ensures Has(s, i, x) && Has(s, i + |x|, y)
  {
    var all := s[i..i + |x + y|];
    assert all[..|x|] == s[i..i + |x|] && all[|x|..] == s[i + |x|..i + |x| + |y|];
  }

  lemma HasAt(s: seq<int>, i: nat, part: seq<int>, k: nat)
    requires Has(s, i, part) && k < |part|
    ensures s[i + k] == part[k]
  {
    assert s[i..i + |part|][k] == part[k];
  }

  lemma {:induction false} DecimalRead(s: seq<int>, i: nat, n: nat)
    requires Has(s, i, Decimal(n))
    ensures DigitsValue(s, i, 0) == DigitsValue(s, i + |Decimal(n)|, n)
    decreases n
  {
    if n < 10 {
      HasAt(s, i, Decimal(n), 0);
    } else {
      var d := Decimal(n / 10);
      HasParts(s, i, d, [48 + n % 10]);
      DecimalRead(s, i, n / 10);
      HasAt(s, i + |d|, [48 + n % 10], 0);
    }
  }

  lemma NumberRead(s: seq<int>, i: nat, n: int)
    requires Has(s, i, Number(n)) && !IsDigit(At(s, i + |Number(n)|))
    ensures AtoiValue(s, i) == n
  {
    HasAt(s, i, Number(n), 0);
    if n < 0 {
      HasParts(s, i, [45], Decimal(-n));
      DecimalRead(s, i + 1, -n);
    } else {
      DecimalRead(s, i, n);
    }
  }

  lemma {:induction false} ItemSkipped(s: seq<int>, i: nat, d: seq<int>)
    requires Has(s, i, d) && (forall k :: 0 <= k < |d| ==> !EndsItem(d[k])) && EndsItem(At(s, i + |d|))
    ensures SkipItem(s, i) == i + |d|
    decreases |d|
  {
    if d != [] {
      HasAt(s, i, d, 0);
      assert d == [d[0]] + d[1..];
      HasParts(s, i, [d[0]], d[1..]);
      ItemSkipped(s, i + 1, d[1..]);
    }
  }

  /** A component: its number, and where it ends. */
  lemma ItemRead(s: seq<int>, i: nat, n: int)
    requires Has(s, i, Number(n)) && EndsItem(At(s, i + |Number(n)|))
    ensures AtoiValue(s, i) == n && SkipItem(s, i) == i + |Number(n)|
  {
    NumberRead(s, i, n);
    ItemSkipped(s, i, Number(n));
  }

  /** i//k */
  lemma SkippedRead(s: seq<int>, i: nat, v: int, n: int)
    requires Has(s, i, Number(v) + ([47, 47] + Number(n))) && EndsItem(At(s, i + |Number(v)| + 2 + |Number(n)|))
    ensures TripleAt(s, i) == (Triple(v, INVALID, n), i + |Number(v)| + 2 + |Number(n)|)
  {
    hide Has;
    hide Number;
    hide AtoiValue;
    hide SkipItem;
    SkippedParts(s, i, Number(v), Number(n));
    ItemRead(s, i, v);
    ItemRead(s, i + |Number(v)| + 2, n);
    HasEnd(s, i + |Number(v)| + 2, Number(n));
  }

  lemma SkippedParts(s: seq<int>, i: nat, x: seq<int>, y: seq<int>)
    requires Has(s, i, x + ([47, 47] + y))
    ensures Has(s, i, x) && At(s, i + |x|) == 47 && At(s, i + |x| + 1) == 47 && Has(s, i + |x| + 2, y)
  {
    HasParts(s, i, x, [47, 47] + y);
    HasParts(s, i + |x|, [47, 47], y);
    HasAt(s, i + |x|, [47, 47], 0);
    HasAt(s, i + |x|, [47, 47], 1);
  }

  /** i/j */
  lemma TwoRead(s: seq<int>, i: nat, v: int, t: int)
    requires Has(s, i, Number(v) + ([47] + Number(t)))
    requires var c := At(s, i + |Number(v)| + 1 + |Number(t)|); EndsItem(c) && c != 47
    ensures TripleAt(s, i) == (Triple(v, t, INVALID), i + |Number(v)| + 1 + |Number(t)|)
  {
    hide Has;
    hide Number;
    hide AtoiValue;
    hide SkipItem;
    var j := i + |Number(v)|;
    TwoParts(s, i, Number(v), Number(t));
    ItemRead(s, i, v);
    ItemRead(s, j + 1, t);
    FirstNoSlash(s, j + 1, t);
    HasEnd(s, j + 1, Number(t));
  }

  lemma TwoParts(s: seq<int>, i: nat, x: seq<int>, y: seq<int>)
    requires Has(s, i, x + ([47] + y))
    ensures Has(s, i, x) && At(s, i + |x|) == 47 && Has(s, i + |x| + 1, y)
  {
    HasParts(s, i, x, [47] + y);
    HasParts(s, i + |x|, [47], y);
    HasAt(s, i + |x|, [47], 0);
  }

  lemma ThreeParts(s: seq<int>, i: nat, x: seq<int>, y: seq<int>, z: seq<int>)
    requires Has(s, i, x + ([47] + (y + ([47] + z))))
    ensures Has(s, i, x) && At(s, i + |x|) == 47 && Has(s, i + |x| + 1, y)
    ensures At(s, i + |x| + 1 + |y|) == 47 && Has(s, i + |x| + 1 + |y| + 1, z)
  {
    var j, k := i + |x|, i + |x| + 1 + |y|;
    HasParts(s, i, x, [47] + (y + ([47] + z)));
    HasParts(s, j, [47], y + ([47] + z));
    HasParts(s, j + 1, y, [47] + z);
    HasParts(s, k, [47], z);
    HasAt(s, j, [47], 0);
    HasAt(s, k, [47], 0);
  }

  /** i/j/k */
  lemma ThreeRead(s: seq<int>, i: nat, v: int, t: int, n: int)
    requires Has(s, i, Number(v) + ([47] + (Number(t) + ([47] + Number(n)))))
    requires EndsItem(At(s, i + |Number(v)| + 1 + |Number(t)| + 1 + |Number(n)|))
    ensures TripleAt(s, i) == (Triple(v, t, n), i + |Number(v)| + 1 + |Number(t)| + 1 + |Number(n)|)
  {
    hide Has;
    hide Number;
    hide AtoiValue;
    hide SkipItem;
    var j := i + |Number(v)|;
    ThreeParts(s, i, Number(v), Number(t), Number(n));
    ItemRead(s, i, v);
    ItemRead(s, j + 1, t);
    FirstNoSlash(s, j + 1, t);
    ItemRead(s, j + 1 + |Number(t)| + 1, n);
    HasEnd(s, j + 1, Number(t));
  }

  lemma HasEnd(s: seq<int>, i: nat, part: seq<int>)
    requires Has(s, i, part)
    ensures i + |part| <= |s|
  {
  }

  /** A corner that is followed by a blank or the end of the line reads as it was written. */
  lemma CornerRead(s: seq<int>, i: nat, c: Corner)
    requires Has(s, i, Written(c)) && EndsItem(At(s, i + |Written(c)|)) && At(s, i + |Written(c)|) != 47
    ensures TripleAt(s, i) == (Meant(c), i + |Written(c)|)
  {
    hide Number;
    hide AtoiValue;
    hide SkipItem;
    hide Has;
    var nv := Number(c.v);
    match (c.vt, c.vn)
    case (None, None) =>
      assert Written(c) == nv;
      ItemRead(s, i, c.v);
    case (None, Some(n)) =>
      assert Written(c) == nv + ([47, 47] + Number(n));
      hide TripleAt;
      SkippedRead(s, i, c.v, n);
    case (Some(t), None) =>
      assert Written(c) == nv + ([47] + Number(t));
      hide TripleAt;
      TwoRead(s, i, c.v, t);
    case (Some(t), Some(n)) =>
      assert Written(c) == nv + ([47] + (Number(t) + ([47] + Number(n))));
      hide TripleAt;
      ThreeRead(s, i, c.v, t, n);
  }

  lemma FirstNoSlash(s: seq<int>, i: nat, n: int)
    requires Has(s, i, Number(n))
    ensures At(s, i) != 47 && !IsSpace(At(s, i)) && !IsNewLine(At(s, i))
  {
    HasAt(s, i, Number(n), 0);
    assert !EndsItem(Number(n)[0]);
    if n >= 0 {
      assert IsDigit(Decimal(n)[0]);
    }
  }

  /** Blanks, tabs and CRs, in any number. */
  predicate Gap(g: seq<int>) {
    forall k :: 0 <= k < |g| ==> g[k] == 32 || g[k] == 9 || g[k] == 13
  }

  /** A gap behind every corner; only the last one may be empty. */
  predicate Gaps(gaps: seq<seq<int>>) {
    forall k :: 0 <= k < |gaps| ==> Gap(gaps[k]) && (gaps[k] == [] ==> k == |gaps| - 1)
  }

  function WrittenAll(cs: seq<Corner>, gaps: seq<seq<int>>): seq<int>
    requires |gaps| == |cs|
  {
    if cs == [] then [] else Written(cs[0]) + (gaps[0] + WrittenAll(cs[1..], gaps[1..]))
  }

  function MeantAll(cs: seq<Corner>): (f: seq<Triple>)
    ensures |f| == |cs|
  {
    if cs == [] then [] else [Meant(cs[0])] + MeantAll(cs[1..])
  }

  lemma WrittenStart(c: Corner, more: seq<int>) returns (rest: seq<int>)
    ensures Written(c) + more == Number(c.v) + rest
  {
    hide Number;
    rest := match (c.vt, c.vn)
      case (None, None) => more
      case (None, Some(n)) => [47, 47] + Number(n) + more
      case (Some(t), None) => [47] + Number(t) + more
      case (Some(t), Some(n)) => [47] + Number(t) + [47] + Number(n) + more;
  }

  lemma FirstIsNumber(s: seq<int>, i: nat, c: Corner)
    requires Has(s, i, Written(c))
    ensures i < |s| && !IsSpace(At(s, i)) && !IsNewLine(At(s, i))
  {
    hide Number;
    hide Written;
    var rest := WrittenStart(c, []);
    assert Written(c) + [] == Written(c);
    HasParts(s, i, Number(c.v), rest);
    FirstNoSlash(s, i, c.v);
    HasEnd(s, i, Number(c.v));
  }

  lemma CornersNext(s: seq<int>, i: nat, vi: Triple, j: nat)
    requires i < |s| && !IsSpace(At(s, i)) && !IsNewLine(At(s, i)) && TripleAt(s, i) == (vi, j)
    ensures j <= |s| && !IsSpace(At(s, SkipBlank(s, j, true)))
    ensures Corners(s, i) == [vi] + Corners(s, SkipBlank(s, j, true))
  {
    SkipStops(s, j, true);
  }

  /** A gap is skipped, up to a character that is none of it. */
  lemma {:induction false} GapSkipped(s: seq<int>, j: nat, g: seq<int>, cr: bool)
    requires Has(s, j, g) && Gap(g) && (cr || 13 !in g)
    requires var c := At(s, j + |g|); !IsSpace(c) && c != 13
    ensures j + |g| <= |s| && SkipBlank(s, j, cr) == j + |g|
    decreases |g|
  {
    if g != [] {
      HasAt(s, j, g, 0);
      assert g == [g[0]] + g[1..];
      HasParts(s, j, [g[0]], g[1..]);
      GapSkipped(s, j + 1, g[1..], cr);
    }
  }

  lemma NewLineEnds(s: seq<int>, i: nat)
    requires i == |s|
    ensures At(s, i) == 0 && Corners(s, i) == []
  {
  }

  /** What follows a corner: its gap, and the next corner or the end of the line. */
  lemma GapFollows(s: seq<int>, j: nat, g: seq<int>, rest: seq<int>, last: bool)
    requires Has(s, j, g + rest) && Gap(g) && (last ==> rest == [] && j + |g| == |s|) && (g == [] ==> last)
    ensures Has(s, j, g) && Has(s, j + |g|, rest) && EndsItem(At(s, j)) && At(s, j) != 47
  {
    HasParts(s, j, g, rest);
    if g != [] {
      HasAt(s, j, g, 0);
    }
  }

  /** Reading the corners of a face line gives the corners that were written, for every list of
      corners in any of the four forms with any blanks between them, up to the end of the line;
      a CR before the line end is skipped, too. */
  lemma {:induction false} CornersOfWritten(s: seq<int>, i: nat, cs: seq<Corner>, gaps: seq<seq<int>>)
    requires |gaps| == |cs| && Gaps(gaps) && Has(s, i, WrittenAll(cs, gaps)) && i + |WrittenAll(cs, gaps)| == |s|
    ensures i <= |s| && !IsSpace(At(s, i)) && At(s, i) != 13 && Corners(s, i) == MeantAll(cs)
    decreases |cs|
  {
    hide TripleAt;
    hide Written;
    hide Has;
    hide SkipBlank;
    hide Corners;
    hide Gap;
    if cs == [] {
      NewLineEnds(s, i);
    } else {
      var w, g, rest := Written(cs[0]), gaps[0], WrittenAll(cs[1..], gaps[1..]);
      var j := i + |w|;
      HasParts(s, i, w, g + rest);
      GapFollows(s, j, g, rest, |cs| == 1);
      CornersOfWritten(s, j + |g|, cs[1..], gaps[1..]);
      FirstIsNumber(s, i, cs[0]);
      CornerRead(s, i, cs[0]);
      GapSkipped(s, j, g, true);
      CornersNext(s, i, Meant(cs[0]), j);
    }
  }

  /** The same behind the blanks after the f. */
  lemma FaceOfWritten(s: seq<int>, token: nat, lead: seq<int>, cs: seq<Corner>, gaps: seq<seq<int>>)
    requires |gaps| == |cs| && Gaps(gaps) && Gap(lead) && 13 !in lead
    requires Has(s, token, lead + WrittenAll(cs, gaps)) && token + |lead + WrittenAll(cs, gaps)| == |s|
    ensures token <= |s| && FaceCorners(s, token) == MeantAll(cs)
  {
    hide Corners;
    hide SkipBlank;
    hide WrittenAll;
    hide MeantAll;
    hide Has;
    hide Gap;
    HasParts(s, token, lead, WrittenAll(cs, gaps));
    HasEnd(s, token, lead);
    CornersOfWritten(s, token + |lead|, cs, gaps);
    GapSkipped(s, token, lead, false);
  }

  /** A line of more corners than there are slots, as any can be written. */
  lemma OverrunInput(cs: seq<Corner>, gaps: seq<seq<int>>)
    requires |gaps| == |cs| > MAX_FACES && Gaps(gaps)
    ensures |FaceCorners(WrittenAll(cs, gaps), 0)| > MAX_FACES
  {
    var s := WrittenAll(cs, gaps);
    assert [] + s == s && s[0..|s|] == s;
    FaceOfWritten(s, 0, [], cs, gaps);
  }
}
