/** Path data: what `nsvg__parsePath` makes of a sequence of commands and numbers. */
module SvgPath {

  datatype Point = Point(x: real, y: real)

  datatype Item = Num(v: real) | Cmd(c: char)

  datatype Cubic = Cubic(c1: Point, c2: Point, p: Point)

  datatype Path = Path(pts: seq<Point>, closed: bool)

  datatype Option<T> = None | Some(value: T)

  /** The cubics of an arc, of which there is at least one. */
  datatype Arc = Arc(first: Cubic, more: seq<Cubic>)

  /** The approximation of arcs is left open: the cubics from a point, for the arguments. */
  type Arcs = (Point, seq<real>, bool) -> Arc

  // ---------- points ----------

  function MoveTo(pts: seq<Point>, p: Point): seq<Point> {
    if |pts| > 0 then pts[|pts| - 1 := p] else [p]
  }

  function Third(p: Point, q: Point): Point {
    Point(p.x + (q.x - p.x) / 3.0, p.y + (q.y - p.y) / 3.0)
  }

  function TwoThirds(p: Point, q: Point): Point {
    Point(q.x - (q.x - p.x) / 3.0, q.y - (q.y - p.y) / 3.0)
  }

  function LineTo(pts: seq<Point>, q: Point): seq<Point> {
    if |pts| > 0 then pts + [Third(pts[|pts| - 1], q), TwoThirds(pts[|pts| - 1], q), q] else pts
  }

  function CubicTo(pts: seq<Point>, c: Cubic): seq<Point> {
    pts + [c.c1, c.c2, c.p]
  }

  function CubicsTo(pts: seq<Point>, cs: seq<Cubic>): seq<Point>
    decreases cs
  {
    if cs == [] then pts else CubicsTo(CubicTo(pts, cs[0]), cs[1..])
  }

  // ---------- the state of the parser ----------

  /** `cur` is the current point, `ctl` the control point of the last curve. */
  datatype S = S(pts: seq<Point>, paths: seq<Path>, cur: Point, ctl: Point, cmd: char, args: seq<real>, rargs: nat)

  function ArgsPerElement(c: char): nat {
    match c
    case 'v' => 1 case 'V' => 1 case 'h' => 1 case 'H' => 1
    case 'm' => 2 case 'M' => 2 case 'l' => 2 case 'L' => 2 case 't' => 2 case 'T' => 2
    case 'q' => 4 case 'Q' => 4 case 's' => 4 case 'S' => 4
    case 'c' => 6 case 'C' => 6
    case 'a' => 7 case 'A' => 7
    case _ => 0
  }

  function Arg(args: seq<real>, i: nat): real {
    if i < |args| then args[i] else 0.0
  }

  /** Lower-case commands are relative to the current point. */
  predicate Relative(c: char) {
    'a' <= c <= 'z'
  }

  predicate IsMove(c: char) {
    c == 'm' || c == 'M'
  }

  predicate IsLine(c: char) {
    c in ['l', 'L', 'h', 'H', 'v', 'V']
  }

  predicate IsArc(c: char) {
    c == 'a' || c == 'A'
  }

  predicate IsBezier(c: char) {
    c in ['c', 'C', 's', 'S', 'q', 'Q', 't', 'T']
  }

  /** A pair of arguments, relative to the current point or absolute. */
  function Pair(cur: Point, args: seq<real>, i: nat, rel: bool): Point {
    if rel then Point(cur.x + Arg(args, i), cur.y + Arg(args, i + 1)) else Point(Arg(args, i), Arg(args, i + 1))
  }

  /** The current point behind a command. */
  function EndOf(c: char, cur: Point, args: seq<real>): Point {
    match c
    case 'h' => Point(cur.x + Arg(args, 0), cur.y)
    case 'H' => Point(Arg(args, 0), cur.y)
    case 'v' => Point(cur.x, cur.y + Arg(args, 0))
    case 'V' => Point(cur.x, Arg(args, 0))
    case _ =>
      if IsMove(c) || c in ['l', 'L', 't', 'T'] then Pair(cur, args, 0, Relative(c))
      else if c in ['s', 'S', 'q', 'Q'] then Pair(cur, args, 2, Relative(c))
      else if c in ['c', 'C'] then Pair(cur, args, 4, Relative(c))
      else if IsArc(c) then Pair(cur, args, 5, Relative(c))
      else if |args| >= 2 then Point(args[|args| - 2], args[|args| - 1])
      else cur
  }

  function Abs(x: real): real {
    if x < 0.0 then -x else x
  }

  /** An arc of no length or without a radius is drawn as a line. */
  predicate Degenerate(c: char, cur: Point, args: seq<real>) {
    var dx, dy := cur.x - EndOf(c, cur, args).x, cur.y - EndOf(c, cur, args).y;
    dx * dx + dy * dy < 0.000001 * 0.000001 || Abs(Arg(args, 0)) < 0.000001 || Abs(Arg(args, 1)) < 0.000001
  }

  function Mirror(s: S): Point {
    Point(2.0 * s.cur.x - s.ctl.x, 2.0 * s.cur.y - s.ctl.y)
  }

  function QuadControl(p: Point, c: Point): Point {
    Point(p.x + 2.0 / 3.0 * (c.x - p.x), p.y + 2.0 / 3.0 * (c.y - p.y))
  }

  /** The cubic of a quadratic curve from the current point. */
  function QuadCubic(cur: Point, c: Point, p: Point): Cubic {
    Cubic(QuadControl(cur, c), QuadControl(p, c), p)
  }

  /** The second control point, for quadratic curves the only one. */
  function ControlOf(s: S): Point {
    var rel := Relative(s.cmd);
    if s.cmd in ['c', 'C'] then Pair(s.cur, s.args, 2, rel)
    else if s.cmd in ['t', 'T'] then Mirror(s)
    else Pair(s.cur, s.args, 0, rel)
  }

  /** The curve that a command adds, once its arguments are complete. */
  function CurveOf(s: S): Cubic {
    var p := EndOf(s.cmd, s.cur, s.args);
    if s.cmd in ['c', 'C'] then Cubic(Pair(s.cur, s.args, 0, Relative(s.cmd)), ControlOf(s), p)
    else if s.cmd in ['s', 'S'] then Cubic(Mirror(s), ControlOf(s), p)
    else QuadCubic(s.cur, ControlOf(s), p)
  }

  /** The points behind an arc. */
  function ArcTo(arcs: Arcs, s: S): seq<Point> {
    if Degenerate(s.cmd, s.cur, s.args) then LineTo(s.pts, EndOf(s.cmd, s.cur, s.args))
    else var arc := arcs(s.cur, s.args, Relative(s.cmd)); CubicsTo(CubicTo(s.pts, arc.first), arc.more)
  }

  /** A command with all its arguments. */
  function Perform(arcs: Arcs, s: S): S {
    var p := EndOf(s.cmd, s.cur, s.args);
    if IsMove(s.cmd) then
      s.(pts := MoveTo(s.pts, p), cur := p, ctl := p, cmd := if s.cmd == 'm' then 'l' else 'L', rargs := 2)
    else if IsLine(s.cmd) then s.(pts := LineTo(s.pts, p), cur := p, ctl := p)
    else if IsArc(s.cmd) then s.(pts := ArcTo(arcs, s), cur := p, ctl := p)
    else if IsBezier(s.cmd) then s.(pts := CubicTo(s.pts, CurveOf(s)), cur := p, ctl := ControlOf(s))
    else s.(cur := p, ctl := if |s.args| >= 2 then p else s.ctl)
  }

  /** `nsvg__addPath`: too few points are no path; a closed path gets its last line. */
  function AddPath(pts: seq<Point>, paths: seq<Path>, closed: bool): (seq<Point>, seq<Path>) {
    if |pts| < 4 then (pts, paths)
    else
      var all := if closed then LineTo(pts, pts[0]) else pts;
      (all, paths + [Path(all, closed)])
  }

  /** The paths once the points so far are committed. */
  function Committed(s: S, closed: bool): seq<Path> {
    if |s.pts| > 0 then AddPath(s.pts, s.paths, closed).1 else s.paths
  }

  function WithArg(s: S, v: real): S {
    if |s.args| < 10 then s.(args := s.args + [v]) else s
  }

  function Step(arcs: Arcs, s: S, i: Item): S {
    match i
    case Num(v) =>
      var s1 := WithArg(s, v);
      if |s1.args| >= s1.rargs then Perform(arcs, s1).(args := []) else s1
    case Cmd(c) =>
      var s1 := s.(cmd := c, rargs := ArgsPerElement(c));
      if IsMove(c) then s1.(pts := [], paths := Committed(s, false), args := [])
      else if c == 'z' || c == 'Z' then
        var cur := if |s.pts| > 0 then s.pts[0] else s.cur;
        s1.(pts := [cur], paths := Committed(s, true), cur := cur,
            ctl := if |s.pts| > 0 then cur else s.ctl, args := [])
      else s1
  }

  const Start: S := S([], [], Point(0.0, 0.0), Point(0.0, 0.0), 0 as char, [], 0)

  function Run(arcs: Arcs, items: seq<Item>): S {
    if items == [] then Start else Step(arcs, Run(arcs, items[..|items| - 1]), items[|items| - 1])
  }

  function Finish(s: S): S {
    if s.pts == [] then s else var (pts, paths) := AddPath(s.pts, s.paths, false); s.(pts := pts, paths := paths)
  }

  // ---------- what each command draws ----------

  function Nums(vs: seq<real>): seq<Item> {
    seq(|vs|, i requires 0 <= i < |vs| => Num(vs[i]))
  }

  /** A command with its arguments, as it is written. */
  function Draw(c: char, vs: seq<real>): seq<Item> {
    [Cmd(c)] + Nums(vs)
  }

  /** The points, the paths, the current point and the last control point. */
  ghost predicate Now(r: S, paths: seq<Path>, pts: seq<Point>, cur: Point, ctl: Point) {
    r.paths == paths && r.pts == pts && r.cur == cur && r.ctl == ctl && r.args == []
  }

  /** Two runs have drawn the same. */
  ghost predicate Same(r: S, r': S) {
    Now(r, r'.paths, r'.pts, r'.cur, r'.ctl) && r'.args == []
  }

  lemma RunOne(arcs: Arcs, items: seq<Item>, i: Item)
    ensures Run(arcs, items + [i]) == Step(arcs, Run(arcs, items), i)
  {
    assert (items + [i])[..|items|] == items;
  }

  lemma NumsSnoc(vs: seq<real>, n: nat)
    requires n < |vs|
    ensures vs[..n + 1] == vs[..n] + [vs[n]] && Nums(vs[..n + 1]) == Nums(vs[..n]) + [Num(vs[n])]
  {
  }

  lemma {:induction false} RunNums(arcs: Arcs, items: seq<Item>, vs: seq<real>, n: nat)
    requires n <= |vs| && n < Run(arcs, items).rargs <= 10 && Run(arcs, items).args == []
    ensures Run(arcs, items + Nums(vs[..n])) == Run(arcs, items).(args := vs[..n])
    decreases n
  {
    hide Run;
    hide Nums;
    hide Perform;
    if n == 0 {
      assert items + Nums(vs[..0]) == items by { NumsNone(vs); }
    } else {
      RunNums(arcs, items, vs, n - 1);
      NumsSnoc(vs, n - 1);
      RunOne(arcs, items + Nums(vs[..n - 1]), Num(vs[n - 1]));
      assert items + Nums(vs[..n - 1]) + [Num(vs[n - 1])] == items + Nums(vs[..n]);
    }
  }

  lemma NumsNone(vs: seq<real>)
    ensures Nums(vs[..0]) == []
  {
  }

  /** A command is performed when its arguments are complete. */
  lemma Performed(arcs: Arcs, items: seq<Item>, vs: seq<real>)
    requires var s := Run(arcs, items); s.args == [] && 0 < |vs| == s.rargs <= 10
    ensures Run(arcs, items + Nums(vs)) == Perform(arcs, Run(arcs, items).(args := vs)).(args := [])
  {
    hide Perform;
    hide Run;
    hide Nums;
    var n := |vs| - 1;
    RunNums(arcs, items, vs, n);
    NumsSnoc(vs, n);
    assert vs[..n + 1] == vs;
    RunOne(arcs, items + Nums(vs[..n]), Num(vs[n]));
    assert items + Nums(vs[..n]) + [Num(vs[n])] == items + Nums(vs);
  }

  lemma Given(arcs: Arcs, items: seq<Item>, c: char, vs: seq<real>)
    requires var s := Run(arcs, items + [Cmd(c)]); s.args == [] && 0 < |vs| == s.rargs <= 10
    ensures Run(arcs, items + Draw(c, vs)) == Perform(arcs, Run(arcs, items + [Cmd(c)]).(args := vs)).(args := [])
  {
    hide Perform;
    Performed(arcs, items + [Cmd(c)], vs);
    assert items + Draw(c, vs) == items + [Cmd(c)] + Nums(vs);
  }

  lemma RunCmd(arcs: Arcs, items: seq<Item>, c: char)
    ensures Run(arcs, items + [Cmd(c)]) == Step(arcs, Run(arcs, items), Cmd(c))
  {
    RunOne(arcs, items, Cmd(c));
  }

  /** More numbers repeat the command. */
  lemma Repeated(arcs: Arcs, items: seq<Item>, vs: seq<real>)
    requires var s := Run(arcs, items); s.rargs == ArgsPerElement(s.cmd) && s.cmd !in ['m', 'M', 'z', 'Z']
    ensures Run(arcs, items + Nums(vs)) == Run(arcs, items + Draw(Run(arcs, items).cmd, vs))
  {
    var s := Run(arcs, items);
    RunCmd(arcs, items, s.cmd);
    hide Run;
    SameRun(arcs, items, items + [Cmd(s.cmd)], Nums(vs));
    assert items + Draw(s.cmd, vs) == items + [Cmd(s.cmd)] + Nums(vs);
  }

  lemma {:induction false} SameRun(arcs: Arcs, a: seq<Item>, b: seq<Item>, more: seq<Item>)
    requires Run(arcs, a) == Run(arcs, b)
    ensures Run(arcs, a + more) == Run(arcs, b + more)
    decreases |more|
  {
    if more == [] {
      assert a + more == a && b + more == b;
    } else {
      var rest := more[..|more| - 1];
      SameRun(arcs, a, b, rest);
      assert (a + more)[..|a + more| - 1] == a + rest && (b + more)[..|b + more| - 1] == b + rest;
    }
  }

  /** L, H and V draw a line to a point, or in one direction. */
  lemma LineCommands(arcs: Arcs, d: seq<Item>, x: real, y: real)
    requires Run(arcs, d).args == []
    ensures var s := Run(arcs, d); var l, h, v := Point(x, y), Point(x, s.cur.y), Point(s.cur.x, y);
      && Now(Run(arcs, d + Draw('L', [x, y])), s.paths, LineTo(s.pts, l), l, l)
      && Now(Run(arcs, d + Draw('H', [x])), s.paths, LineTo(s.pts, h), h, h)
      && Now(Run(arcs, d + Draw('V', [y])), s.paths, LineTo(s.pts, v), v, v)
  {
    hide LineTo;
    hide Run;
    hide Now;
    Lined(arcs, d, 'L', [x, y]);
    Lined(arcs, d, 'H', [x]);
    Lined(arcs, d, 'V', [y]);
  }

  lemma Lined(arcs: Arcs, d: seq<Item>, c: char, vs: seq<real>)
    requires Run(arcs, d).args == [] && IsLine(c) && |vs| == ArgsPerElement(c)
    ensures var s := Run(arcs, d); var p := EndOf(c, s.cur, vs);
      Now(Run(arcs, d + Draw(c, vs)), s.paths, LineTo(s.pts, p), p, p)
  {
    RunCmd(arcs, d, c);
    hide Run;
    hide LineTo;
    hide EndOf;
    Given(arcs, d, c, vs);
  }

  /** C draws the cubic with the control points given. */
  lemma CubicCommand(arcs: Arcs, d: seq<Item>, x1: real, y1: real, x2: real, y2: real, x: real, y: real)
    requires Run(arcs, d).args == []
    ensures var s := Run(arcs, d); var p, c1, c2 := Point(x, y), Point(x1, y1), Point(x2, y2);
      Now(Run(arcs, d + Draw('C', [x1, y1, x2, y2, x, y])), s.paths, s.pts + [c1, c2, p], p, c2)
  {
    RunCmd(arcs, d, 'C');
    hide Run;
    Given(arcs, d, 'C', [x1, y1, x2, y2, x, y]);
  }

  /** S takes the last control point, mirrored in the current point, for the first. */
  lemma ShortCubicCommand(arcs: Arcs, d: seq<Item>, x2: real, y2: real, x: real, y: real)
    requires Run(arcs, d).args == []
    ensures var s := Run(arcs, d); var p, c2 := Point(x, y), Point(x2, y2);
      var c1 := Point(2.0 * s.cur.x - s.ctl.x, 2.0 * s.cur.y - s.ctl.y);
      Now(Run(arcs, d + Draw('S', [x2, y2, x, y])), s.paths, s.pts + [c1, c2, p], p, c2)
  {
    RunCmd(arcs, d, 'S');
    hide Run;
    Given(arcs, d, 'S', [x2, y2, x, y]);
  }

  /** The points of the quadratic curve from s with control point c to p, as a cubic. */
  function QuadPoints(s: Point, c: Point, p: Point): seq<Point> {
    [Point(s.x + 2.0 / 3.0 * (c.x - s.x), s.y + 2.0 / 3.0 * (c.y - s.y)),
     Point(p.x + 2.0 / 3.0 * (c.x - p.x), p.y + 2.0 / 3.0 * (c.y - p.y)), p]
  }

  /** Q draws the quadratic curve with the control point given. */
  lemma QuadraticCommand(arcs: Arcs, d: seq<Item>, x1: real, y1: real, x: real, y: real)
    requires Run(arcs, d).args == []
    ensures var s := Run(arcs, d); var p, c := Point(x, y), Point(x1, y1);
      Now(Run(arcs, d + Draw('Q', [x1, y1, x, y])), s.paths, s.pts + QuadPoints(s.cur, c, p), p, c)
  {
    RunCmd(arcs, d, 'Q');
    hide Run;
    Given(arcs, d, 'Q', [x1, y1, x, y]);
  }

  /** T takes the last control point, mirrored in the current point. */
  lemma ShortQuadraticCommand(arcs: Arcs, d: seq<Item>, x: real, y: real)
    requires Run(arcs, d).args == []
    ensures var s := Run(arcs, d); var p, c := Point(x, y), Point(2.0 * s.cur.x - s.ctl.x, 2.0 * s.cur.y - s.ctl.y);
      Now(Run(arcs, d + Draw('T', [x, y])), s.paths, s.pts + QuadPoints(s.cur, c, p), p, c)
  {
    RunCmd(arcs, d, 'T');
    hide Run;
    Given(arcs, d, 'T', [x, y]);
  }

  /** M commits what is open as a path that is not closed, and starts another one. */
  lemma MoveCommand(arcs: Arcs, d: seq<Item>, x: real, y: real)
    requires Run(arcs, d).args == []
    ensures var s := Run(arcs, d); var p := Point(x, y); var r := Run(arcs, d + Draw('M', [x, y]));
      && Now(r, s.paths + (if |s.pts| >= 4 then [Path(s.pts, false)] else []), [p], p, p)
      && r.cmd == 'L' && r.rargs == 2
  {
    RunCmd(arcs, d, 'M');
    hide Run;
    Given(arcs, d, 'M', [x, y]);
  }

  /** Z draws a line back to the first point, and starts a path there. */
  lemma CloseCommand(arcs: Arcs, d: seq<Item>)
    ensures var s, r := Run(arcs, d), Run(arcs, d + [Cmd('Z')]);
      && Run(arcs, d + [Cmd('z')]) == r.(cmd := 'z')
      && if s.pts == [] then Now(r, s.paths, [s.cur], s.cur, s.ctl)
         else
           var p := s.pts[0];
           Now(r, s.paths + (if |s.pts| >= 4 then [Path(LineTo(s.pts, p), true)] else []), [p], p, p)
  {
    hide LineTo;
    hide Step;
    RunCmd(arcs, d, 'Z');
    RunCmd(arcs, d, 'z');
    hide Run;
    CloseStep(arcs, Run(arcs, d));
    CloseSame(arcs, Run(arcs, d));
  }

  lemma CloseStep(arcs: Arcs, s: S)
    ensures var r := Step(arcs, s, Cmd('Z'));
      if s.pts == [] then Now(r, s.paths, [s.cur], s.cur, s.ctl)
      else
        var p := s.pts[0];
        Now(r, s.paths + (if |s.pts| >= 4 then [Path(LineTo(s.pts, p), true)] else []), [p], p, p)
  {
    hide LineTo;
    hide Perform;
    hide WithArg;
  }

  lemma CloseSame(arcs: Arcs, s: S)
    ensures Step(arcs, s, Cmd('z')) == Step(arcs, s, Cmd('Z')).(cmd := 'z')
  {
    hide Committed;
    hide Perform;
    hide WithArg;
  }

  /** What is open at the end is committed as a path that is not closed. */
  lemma FinishCommits(s: S)
    ensures Finish(s).paths == s.paths + if |s.pts| >= 4 then [Path(s.pts, false)] else []
  {
  }

  /** An arc by (dx, dy) is too small, or has no radius. */
  predicate NoArc(dx: real, dy: real, rx: real, ry: real) {
    || dx * dx + dy * dy < 0.000001 * 0.000001
    || -0.000001 < rx < 0.000001
    || -0.000001 < ry < 0.000001
  }

  /** A draws a line if the end is where the arc begins or there is no radius, and otherwise what
      arcs are made of. */
  lemma ArcCommand(arcs: Arcs, d: seq<Item>, rx: real, ry: real, turn: real, large: real, sweep: real, x: real, y: real)
    requires Run(arcs, d).args == []
    ensures var s, p, args := Run(arcs, d), Point(x, y), [rx, ry, turn, large, sweep, x, y];
      var dx, dy, arc := s.cur.x - x, s.cur.y - y, arcs(s.cur, args, false);
      Now(Run(arcs, d + Draw('A', args)), s.paths,
          if NoArc(dx, dy, rx, ry) then LineTo(s.pts, p) else CubicsTo(CubicTo(s.pts, arc.first), arc.more), p, p)
  {
    hide Run;
    hide NoArc;
    hide ArcTo;
    hide EndOf;
    hide LineTo;
    hide CubicTo;
    hide CubicsTo;
    hide Draw;
    var args := [rx, ry, turn, large, sweep, x, y];
    ArcDrawn(arcs, d, 'A', args);
    ArcGiven(arcs, Run(arcs, d), args);
  }

  lemma ArcGiven(arcs: Arcs, s: S, args: seq<real>)
    requires |args| == 7
    ensures EndOf('A', s.cur, args) == Point(args[5], args[6])
    ensures var dx, dy, arc := s.cur.x - args[5], s.cur.y - args[6], arcs(s.cur, args, false);
      ArcTo(arcs, s.(cmd := 'A', args := args, rargs := 7)) ==
        if NoArc(dx, dy, args[0], args[1]) then LineTo(s.pts, Point(args[5], args[6]))
        else CubicsTo(CubicTo(s.pts, arc.first), arc.more)
  {
    hide LineTo;
    hide CubicsTo;
  }

  // ---------- relative commands ----------

  /** Every other argument is an x coordinate, the ones between are y coordinates. */
  function Moved(vs: seq<real>, p: Point): (r: seq<real>)
    ensures |r| == |vs|
    ensures forall i :: 0 <= i < |vs| ==> r[i] == vs[i] + if i % 2 == 0 then p.x else p.y
  {
    seq(|vs|, i requires 0 <= i < |vs| => vs[i] + if i % 2 == 0 then p.x else p.y)
  }

  /** A lower-case command draws what the upper-case one does with the current point added. */
  lemma RelativeCommands(arcs: Arcs, d: seq<Item>, c: char, vs: seq<real>)
    requires Run(arcs, d).args == [] && c in ['m', 'l', 'c', 's', 'q', 't'] && |vs| == ArgsPerElement(c)
    ensures var big := (c as int - 32) as char;
      Same(Run(arcs, d + Draw(c, vs)), Run(arcs, d + Draw(big, Moved(vs, Run(arcs, d).cur))))
  {
    var s, big := Run(arcs, d), (c as int - 32) as char;
    var ws := Moved(vs, s.cur);
    RunCmd(arcs, d, c);
    RunCmd(arcs, d, big);
    hide Run;
    hide Perform;
    hide Moved;
    var s0, s1 := Run(arcs, d + [Cmd(c)]), Run(arcs, d + [Cmd(big)]);
    SameStart(arcs, s, c, big);
    hide Step;
    Given(arcs, d, c, vs);
    Given(arcs, d, big, ws);
    hide Draw;
    SamePerformed(arcs, s0, c, big, vs, ws);
  }

  lemma SameStart(arcs: Arcs, s: S, c: char, big: char)
    requires c in ['m', 'l', 'c', 's', 'q', 't'] && big as int == c as int - 32 && s.args == []
    ensures var s0, n := Step(arcs, s, Cmd(c)), ArgsPerElement(c);
      && Step(arcs, s, Cmd(big)) == s0.(cmd := big) && s0.cmd == c && s0.cur == s.cur && s0.args == [] && s0.rargs == n
      && 0 < n <= 10
  {
  }

  /** h and v add to one coordinate. */
  lemma RelativeLines(arcs: Arcs, d: seq<Item>, v: real)
    requires Run(arcs, d).args == []
    ensures var s := Run(arcs, d); var h, w := Point(s.cur.x + v, s.cur.y), Point(s.cur.x, s.cur.y + v);
      && Now(Run(arcs, d + Draw('h', [v])), s.paths, LineTo(s.pts, h), h, h)
      && Now(Run(arcs, d + Draw('v', [v])), s.paths, LineTo(s.pts, w), w, w)
  {
    hide LineTo;
    hide Run;
    hide Now;
    Lined(arcs, d, 'h', [v]);
    Lined(arcs, d, 'v', [v]);
  }

  /** a ends at its arguments, counted from the current point. */
  lemma RelativeArc(arcs: Arcs, d: seq<Item>, args: seq<real>)
    requires Run(arcs, d).args == [] && |args| == 7
    ensures var s, r := Run(arcs, d), Run(arcs, d + Draw('a', args));
      var p, arc := Point(s.cur.x + args[5], s.cur.y + args[6]), arcs(s.cur, args, true);
      Now(r, s.paths,
          if NoArc(args[5], args[6], args[0], args[1]) then LineTo(s.pts, p)
          else CubicsTo(CubicTo(s.pts, arc.first), arc.more), p, p)
  {
    hide Run;
    hide NoArc;
    hide ArcTo;
    hide EndOf;
    hide LineTo;
    hide CubicTo;
    hide CubicsTo;
    hide Draw;
    ArcDrawn(arcs, d, 'a', args);
    RelativeGiven(arcs, Run(arcs, d), args);
  }

  lemma ArcDrawn(arcs: Arcs, d: seq<Item>, c: char, args: seq<real>)
    requires Run(arcs, d).args == [] && IsArc(c) && |args| == 7
    ensures var s := Run(arcs, d); var p := EndOf(c, s.cur, args);
      Now(Run(arcs, d + Draw(c, args)), s.paths, ArcTo(arcs, s.(cmd := c, args := args, rargs := 7)), p, p)
  {
    RunCmd(arcs, d, c);
    hide Run;
    hide ArcTo;
    hide EndOf;
    Given(arcs, d, c, args);
  }

  lemma RelativeGiven(arcs: Arcs, s: S, args: seq<real>)
    requires |args| == 7
    ensures EndOf('a', s.cur, args) == Point(s.cur.x + args[5], s.cur.y + args[6])
    ensures var arc := arcs(s.cur, args, true);
      ArcTo(arcs, s.(cmd := 'a', args := args, rargs := 7)) ==
        if NoArc(args[5], args[6], args[0], args[1]) then LineTo(s.pts, Point(s.cur.x + args[5], s.cur.y + args[6]))
        else CubicsTo(CubicTo(s.pts, arc.first), arc.more)
  {
    hide LineTo;
    hide CubicsTo;
    var end := EndOf('a', s.cur, args);
    var dx, dy := s.cur.x - end.x, s.cur.y - end.y;
    assert dx == -args[5] && dy == -args[6];
    assert dx * dx == args[5] * args[5] && dy * dy == args[6] * args[6];
  }

  lemma SamePerformed(arcs: Arcs, s: S, c: char, big: char, vs: seq<real>, ws: seq<real>)
    requires c in ['m', 'l', 'c', 's', 'q', 't'] && big as int == c as int - 32 && |vs| == ArgsPerElement(c)
    requires ws == Moved(vs, s.cur)
    ensures var r, r' := Perform(arcs, s.(cmd := c, args := vs)), Perform(arcs, s.(cmd := big, args := ws));
      r.pts == r'.pts && r.cur == r'.cur && r.ctl == r'.ctl && r.paths == r'.paths
  {
    SameEnd(s, c, big, vs, ws);
    hide MoveTo;
    hide LineTo;
    hide CubicTo;
    hide EndOf;
    hide CurveOf;
    hide ControlOf;
    hide ArcTo;
    hide Moved;
  }

  lemma SameEnd(s: S, c: char, big: char, vs: seq<real>, ws: seq<real>)
    requires c in ['m', 'l', 'c', 's', 'q', 't'] && big as int == c as int - 32 && |vs| == ArgsPerElement(c)
    requires ws == Moved(vs, s.cur)
    ensures EndOf(c, s.cur, vs) == EndOf(big, s.cur, ws)
    ensures c !in ['m', 'l'] ==>
      var a, b := s.(cmd := c, args := vs), s.(cmd := big, args := ws);
      ControlOf(a) == ControlOf(b) && CurveOf(a) == CurveOf(b)
  {
    hide QuadCubic;
  }

  // ---------- whole cubics ----------

  /** No points, or a start point and whole cubics behind it. */
  predicate Whole(pts: seq<Point>) {
    pts == [] || |pts| % 3 == 1
  }

  predicate AllWhole(s: S) {
    Whole(s.pts) && forall i :: 0 <= i < |s.paths| ==> |s.paths[i].pts| >= 4 && Whole(s.paths[i].pts)
  }

  /** The command adds cubics even where there is no start point; a line does not. */
  predicate IsCurve(c: char, cur: Point, args: seq<real>) {
    IsBezier(c) || (IsArc(c) && !Degenerate(c, cur, args))
  }

  lemma {:induction false} CubicsWhole(pts: seq<Point>, cs: seq<Cubic>)
    ensures |CubicsTo(pts, cs)| == |pts| + 3 * |cs|
    decreases cs
  {
    if cs != [] {
      CubicsWhole(CubicTo(pts, cs[0]), cs[1..]);
    }
  }

  /** What a command with all its arguments does to the number of points. */
  lemma PerformCount(arcs: Arcs, s: S)
    requires Whole(s.pts)
    ensures var s' := Perform(arcs, s);
      && s'.paths == s.paths
      && (Whole(s'.pts) <==> !(s.pts == [] && IsCurve(s.cmd, s.cur, s.args)))
  {
    hide Degenerate;
    hide EndOf;
    hide CurveOf;
    hide ControlOf;
    var arc := arcs(s.cur, s.args, Relative(s.cmd));
    CubicsWhole(CubicTo(s.pts, arc.first), arc.more);
    hide CubicsTo;
    hide Third;
    hide TwoThirds;
  }

  // ---------- the condition on the path data ----------

  /** What has to be known of path data to tell whether its curves have start points: the start
      of the open subpath, if there is one, the command and its arguments so far, and the
      current point. */
  datatype Scan = Scan(start: Option<Point>, cmd: char, args: seq<real>, rargs: nat, cur: Point)

  function ScanArg(a: Scan, v: real): Scan {
    if |a.args| < 10 then a.(args := a.args + [v]) else a
  }

  function ScanStep(a: Scan, i: Item): Scan {
    match i
    case Num(v) =>
      var a1 := ScanArg(a, v);
      if |a1.args| < a1.rargs then a1
      else
        var p := EndOf(a1.cmd, a1.cur, a1.args);
        if IsMove(a1.cmd) then Scan(Some(p), if a1.cmd == 'm' then 'l' else 'L', [], 2, p)
        else a1.(cur := p, args := [])
    case Cmd(c) =>
      var a1 := a.(cmd := c, rargs := ArgsPerElement(c));
      if IsMove(c) then a1.(start := None, args := [])
      else if c == 'z' || c == 'Z' then
        var cur := if a.start.Some? then a.start.value else a.cur;
        a1.(start := Some(cur), cur := cur, args := [])
      else a1
  }

  /** The item completes a curve where there is no start point. */
  predicate NoStart(a: Scan, i: Item) {
    i.Num? && a.start.None? && |ScanArg(a, i.v).args| >= a.rargs && IsCurve(a.cmd, a.cur, ScanArg(a, i.v).args)
  }

  function Scanned(items: seq<Item>): Scan {
    if items == [] then Scan(None, 0 as char, [], 0, Point(0.0, 0.0))
    else ScanStep(Scanned(items[..|items| - 1]), items[|items| - 1])
  }

  /** Every curve of the path data has a start point: its subpath begins with a moveto and the
      coordinates of it, or at the point where the path before it was closed. */
  predicate Started(items: seq<Item>) {
    items == [] || (Started(items[..|items| - 1]) && !NoStart(Scanned(items[..|items| - 1]), items[|items| - 1]))
  }

  /** What the scan has to do with the parser: a moveto waits for its coordinates only where no
      subpath is open. */
  ghost predicate Follows(s: S, a: Scan) {
    && a == Scan(if s.pts == [] then None else Some(s.pts[0]), s.cmd, s.args, s.rargs, s.cur)
    && (IsMove(s.cmd) ==> s.pts == [])
  }

  /** As long as curves have start points. */
  lemma StepFollows(arcs: Arcs, s: S, a: Scan, i: Item)
    requires Follows(s, a) && !NoStart(a, i)
    ensures Follows(Step(arcs, s, i), ScanStep(a, i))
  {
    hide Degenerate;
    hide EndOf;
    hide CurveOf;
    hide ControlOf;
    hide AddPath;
    if i.Num? {
      var s1 := WithArg(s, i.v);
      assert ScanArg(a, i.v) == Scan(a.start, s1.cmd, s1.args, s1.rargs, s1.cur);
      if |s1.args| >= s1.rargs {
        PerformFirst(arcs, s1);
        hide Perform;
      }
    }
  }

  /** The first point stays the first one. */
  lemma PerformFirst(arcs: Arcs, s: S)
    requires IsMove(s.cmd) ==> s.pts == []
    requires s.pts == [] ==> !IsCurve(s.cmd, s.cur, s.args)
    ensures var s', p := Perform(arcs, s), EndOf(s.cmd, s.cur, s.args);
      && s'.cur == p && s'.args == s.args && !IsMove(s'.cmd)
      && (if IsMove(s.cmd) then s'.pts == [p] && s'.cmd == (if s.cmd == 'm' then 'l' else 'L') && s'.rargs == 2
          else (s'.pts == [] <==> s.pts == []) && (s.pts != [] ==> s'.pts[0] == s.pts[0])
               && s'.cmd == s.cmd && s'.rargs == s.rargs)
  {
    hide Degenerate;
    hide EndOf;
    hide CurveOf;
    hide ControlOf;
    var arc := arcs(s.cur, s.args, Relative(s.cmd));
    CubicsFirst(CubicTo(s.pts, arc.first), arc.more);
    hide CubicsTo;
    hide Third;
    hide TwoThirds;
  }

  lemma {:induction false} CubicsFirst(pts: seq<Point>, cs: seq<Cubic>)
    requires pts != []
    ensures CubicsTo(pts, cs) != [] && CubicsTo(pts, cs)[0] == pts[0]
    decreases cs
  {
    if cs != [] {
      CubicsFirst(CubicTo(pts, cs[0]), cs[1..]);
    }
  }

  lemma StepWhole(arcs: Arcs, s: S, a: Scan, i: Item)
    requires AllWhole(s) && Follows(s, a)
    ensures AllWhole(Step(arcs, s, i)) <==> !NoStart(a, i)
  {
    hide IsCurve;
    if i.Num? {
      PerformCount(arcs, WithArg(s, i.v));
    }
    hide Perform;
  }

  ghost predicate WholeAfter(arcs: Arcs, items: seq<Item>, n: nat)
    requires n <= |items|
  {
    AllWhole(Run(arcs, items[..n]))
  }

  lemma {:induction false} RunFollows(arcs: Arcs, items: seq<Item>)
    requires Started(items)
    ensures Follows(Run(arcs, items), Scanned(items)) && AllWhole(Run(arcs, items))
    decreases |items|
  {
    hide Step;
    hide ScanStep;
    hide NoStart;
    if items != [] {
      var init, last := items[..|items| - 1], items[|items| - 1];
      RunFollows(arcs, init);
      StepFollows(arcs, Run(arcs, init), Scanned(init), last);
      StepWhole(arcs, Run(arcs, init), Scanned(init), last);
      hide AllWhole;
      hide Follows;
    }
  }

  /** The points are a start point and whole cubics in every state of the run, if and only if
      every curve of the path data has a start point. */
  lemma {:induction false} WholeExactly(arcs: Arcs, items: seq<Item>)
    ensures Started(items) <==> forall n :: 0 <= n <= |items| ==> WholeAfter(arcs, items, n)
    decreases |items|
  {
    hide AllWhole;
    hide Step;
    hide NoStart;
    if items == [] {
      RunFollows(arcs, items);
      assert items[..0] == [];
    } else {
      var init, last := items[..|items| - 1], items[|items| - 1];
      WholeExactly(arcs, init);
      forall n | 0 <= n <= |init| ensures WholeAfter(arcs, items, n) == WholeAfter(arcs, init, n) {
        assert items[..n] == init[..n];
      }
      assert items[..|items|] == items;
      assert WholeAfter(arcs, items, |items|) == AllWhole(Step(arcs, Run(arcs, init), last));
      if Started(init) {
        RunFollows(arcs, init);
        StepWhole(arcs, Run(arcs, init), Scanned(init), last);
      }
      hide WholeAfter;
      hide Follows;
    }
  }

  /** So every path that is committed has a start point and whole cubics. */
  lemma PathsWhole(arcs: Arcs, items: seq<Item>)
    requires Started(items)
    ensures AllWhole(Finish(Run(arcs, items)))
  {
    RunFollows(arcs, items);
    hide Run;
    hide Follows;
  }

  // ---------- path data as the standard has it ----------

  /** Before the first subpath, behind a moveto with n coordinates so far, in a subpath, or
      behind something that is no path data. */
  datatype Phase = Before | Moving(n: nat) | Inside | Wrong

  /** The first command is a moveto, and a moveto has its two coordinates. */
  function PhaseStep(f: Phase, i: Item): Phase {
    match f
    case Before => if i.Cmd? && IsMove(i.c) then Moving(0) else Wrong
    case Moving(n) => if i.Cmd? then Wrong else if n == 0 then Moving(1) else Inside
    case Inside => if i.Cmd? && IsMove(i.c) then Moving(0) else Inside
    case Wrong => Wrong
  }

  function PhaseOf(items: seq<Item>): Phase {
    if items == [] then Before else PhaseStep(PhaseOf(items[..|items| - 1]), items[|items| - 1])
  }

  ghost predicate InPhase(f: Phase, a: Scan) {
    match f
    case Before => a == Scanned([])
    case Moving(n) => n <= 1 && a.start.None? && IsMove(a.cmd) && |a.args| == n && a.rargs == 2
    case Inside => a.start.Some?
    case Wrong => false
  }

  lemma {:induction false} PhaseStarted(items: seq<Item>)
    requires PhaseOf(items) != Wrong
    ensures Started(items) && InPhase(PhaseOf(items), Scanned(items))
    decreases |items|
  {
    hide EndOf;
    hide Degenerate;
    if items != [] {
      PhaseStarted(items[..|items| - 1]);
    }
  }

  /** Path data in which every subpath begins with a moveto and its coordinates (or where the
      one before it was closed) gives paths of whole cubics. */
  lemma PathDataWhole(arcs: Arcs, items: seq<Item>)
    requires PhaseOf(items) != Wrong
    ensures AllWhole(Finish(Run(arcs, items))) && forall n :: 0 <= n <= |items| ==> WholeAfter(arcs, items, n)
  {
    PhaseStarted(items);
    WholeExactly(arcs, items);
    PathsWhole(arcs, items);
    hide WholeAfter;
    hide AllWhole;
  }

  // ---------- the loops over the cubics ----------

  /** Going on by three points finds whole cubics all the way if and only if the points are a
      start point and whole cubics. */
  lemma CubicsFit(pts: seq<Point>)
    ensures (forall k :: 0 <= k && 3 * k < |pts| - 1 ==> 3 * k + 3 < |pts|) <==> Whole(pts)
  {
    if pts != [] && |pts| % 3 != 1 {
      var k := (|pts| - 1) / 3;
      assert 3 * k < |pts| - 1 && 3 * k + 3 >= |pts|;
    }
  }

  /** The loops of `nsvg__addPath` and `nsvg__flattenShape`: the cubics that they are about */
  method CubicsOf(pts: seq<Point>) returns (curves: seq<seq<Point>>)
    requires Whole(pts)
    ensures if pts == [] then curves == [] else |pts| == 3 * |curves| + 1
    ensures forall k :: 0 <= k < |curves| ==> 3 * k + 4 <= |pts| && curves[k] == pts[3 * k..3 * k + 4]
  {
    curves := [];
    var i := 0;
    while i < |pts| - 1
      invariant i == 3 * |curves| && (pts != [] ==> i < |pts|)
      invariant forall k :: 0 <= k < |curves| ==> 3 * k + 4 <= |pts| && curves[k] == pts[3 * k..3 * k + 4]
    {
      curves := curves + [pts[i..i + 4]];
      i := i + 3;
    }
  }

  // ---------- lines and quadratics as cubics ----------

  /** `nsvg__evalBezier` */
  function EvalBezier(t: real, p0: real, p1: real, p2: real, p3: real): real {
    var it := 1.0 - t;
    it * it * it * p0 + 3.0 * it * it * t * p1 + 3.0 * it * t * t * p2 + t * t * t * p3
  }

  lemma Collected(t: real, p: real, q: real, k: real)
    requires k == (q - p) / 3.0
    ensures EvalBezier(t, p, p + k, q - k, q) == p + t * (q - p)
  {
    var it, d := 1.0 - t, q - p;
    var a, b, c, e := it * it * it, 3.0 * it * it * t, 3.0 * it * t * t, t * t * t;
    PartitionOfUnity(t);
    assert a + b + c + e == 1.0 && b + 2.0 * c + 3.0 * e == 3.0 * t;
    assert EvalBezier(t, p, p + k, q - k, q) == a * p + b * (p + k) + c * (q - k) + e * q;
    assert q == p + 3.0 * k && q - k == p + 2.0 * k;
    Sum(a, b, c, e, p, k);
    assert (b + 2.0 * c + 3.0 * e) * k == t * (3.0 * k) by {
      assert 3.0 * t * k == t * (3.0 * k);
    }
  }

  lemma Sum(a: real, b: real, c: real, e: real, p: real, k: real)
    requires a + b + c + e == 1.0
    ensures a * p + b * (p + k) + c * (p + 2.0 * k) + e * (p + 3.0 * k) == p + (b + 2.0 * c + 3.0 * e) * k
  {
    assert a * p + b * p + c * p + e * p == (a + b + c + e) * p;
    assert b * (p + k) == b * p + b * k && c * (p + 2.0 * k) == c * p + 2.0 * (c * k)
      && e * (p + 3.0 * k) == e * p + 3.0 * (e * k);
  }

  /** The Bernstein polynomials. */
  lemma PartitionOfUnity(t: real)
    ensures var it := 1.0 - t; var b, c, e := 3.0 * it * it * t, 3.0 * it * t * t, t * t * t;
      it * it * it + b + c + e == 1.0 && b + 2.0 * c + 3.0 * e == 3.0 * t
  {
    var it, t2, t3 := 1.0 - t, t * t, t * t * t;
    assert it * it == 1.0 - 2.0 * t + t2;
    assert it * it * it == 1.0 - 3.0 * t + 3.0 * t2 - t3;
    assert 3.0 * it * it * t == 3.0 * ((it * it) * t);
    assert (it * it) * t == t - 2.0 * t2 + t3;
    assert 3.0 * it * t * t == 3.0 * (it * t2);
    assert it * t2 == t2 - t3;
  }

  /** The cubic that stands for a line is the line, at every parameter. */
  lemma LineIsCubic(pts: seq<Point>, q: Point, t: real)
    requires pts != []
    ensures var p, n, r := pts[|pts| - 1], |pts|, LineTo(pts, q);
      && |r| == n + 3 && r[n + 2] == q
      && EvalBezier(t, p.x, r[n].x, r[n + 1].x, q.x) == p.x + t * (q.x - p.x)
      && EvalBezier(t, p.y, r[n].y, r[n + 1].y, q.y) == p.y + t * (q.y - p.y)
  {
    var p := pts[|pts| - 1];
    Collected(t, p.x, q.x, (q.x - p.x) / 3.0);
    Collected(t, p.y, q.y, (q.y - p.y) / 3.0);
    hide EvalBezier;
  }

  lemma QuadOne(t: real, p: real, c: real, q: real)
    ensures EvalBezier(t, p, p + 2.0 / 3.0 * (c - p), q + 2.0 / 3.0 * (c - q), q)
      == (1.0 - t) * (1.0 - t) * p + 2.0 * (1.0 - t) * t * c + t * t * q
  {
    var it := 1.0 - t;
    var g := 2.0 / 3.0;
    var b, d := it * it * t, it * t * t;
    var cp, cq := p + g * (c - p), q + g * (c - q);
    assert 3.0 * cp == p + 2.0 * c && 3.0 * cq == q + 2.0 * c;
    assert 3.0 * it * it * t * cp == b * (3.0 * cp);
    assert 3.0 * it * t * t * cq == d * (3.0 * cq);
    assert b * (p + 2.0 * c) == b * p + 2.0 * (b * c);
    assert d * (q + 2.0 * c) == d * q + 2.0 * (d * c);
    assert it * it * it + b == it * it;
    assert t * t * t + d == t * t;
    assert b + d == it * t;
    assert it * it * it * p + b * p == (it * it * it + b) * p;
    assert t * t * t * q + d * q == (t * t * t + d) * q;
    assert b * c + d * c == (b + d) * c;
  }

  /** The cubic that stands for a quadratic curve is that curve, at every parameter. */
  lemma QuadIsCubic(p: Point, c: Point, q: Point, t: real)
    ensures var k, it := QuadCubic(p, c, q), 1.0 - t;
      && k.p == q
      && EvalBezier(t, p.x, k.c1.x, k.c2.x, q.x) == it * it * p.x + 2.0 * it * t * c.x + t * t * q.x
      && EvalBezier(t, p.y, k.c1.y, k.c2.y, q.y) == it * it * p.y + 2.0 * it * t * c.y + t * t * q.y
  {
    QuadOne(t, p.x, c.x, q.x);
    QuadOne(t, p.y, c.y, q.y);
    hide EvalBezier;
  }

  // ---------- the parser as it is written ----------

  class Parser {
    const arcs: Arcs
    var pts: seq<Point>
    var plist: seq<Path>

    constructor (arcs: Arcs)
      ensures pts == [] && plist == [] && this.arcs == arcs
    {
      this.arcs, pts, plist := arcs, [], [];
    }

    /** `nsvg__addPoint` */
    method AddPoint(p: Point)
      modifies this`pts
      ensures pts == old(pts) + [p]
    {
      pts := pts + [p];
    }

    /** `nsvg__moveTo` */
    method MoveToPoint(p: Point)
      modifies this`pts
      ensures pts == MoveTo(old(pts), p)
    {
      if |pts| > 0 {
        pts := pts[|pts| - 1 := p];
      } else {
        AddPoint(p);
      }
    }

    /** `nsvg__lineTo` */
    method LineToPoint(q: Point)
      modifies this`pts
      ensures pts == LineTo(old(pts), q)
    {
      if |pts| > 0 {
        var p := pts[|pts| - 1];
        var dx, dy := q.x - p.x, q.y - p.y;
        AddPoint(Point(p.x + dx / 3.0, p.y + dy / 3.0));
        AddPoint(Point(q.x - dx / 3.0, q.y - dy / 3.0));
        AddPoint(q);
      }
    }

    /** `nsvg__cubicBezTo` */
    method CubicBezTo(c: Cubic)
      modifies this`pts
      ensures pts == CubicTo(old(pts), c)
    {
      AddPoint(c.c1);
      AddPoint(c.c2);
      AddPoint(c.p);
    }

    method CubicsBezTo(cs: seq<Cubic>)
      modifies this`pts
      ensures pts == CubicsTo(old(pts), cs)
    {
      var i := 0;
      while i < |cs|
        invariant 0 <= i <= |cs| && CubicsTo(pts, cs[i..]) == CubicsTo(old(pts), cs)
      {
        assert cs[i..][1..] == cs[i + 1..];
        CubicBezTo(cs[i]);
        i := i + 1;
      }
    }

    /** `nsvg__addPath` */
    method CommitPath(closed: bool)
      modifies this
      ensures (pts, plist) == AddPath(old(pts), old(plist), closed)
    {
      if |pts| < 4 {
        return;
      }
      if closed {
        LineToPoint(pts[0]);
      }
      plist := plist + [Path(pts, closed)];
    }

    /** `nsvg__pathArcTo` */
    method ArcToPoint(s: S)
      requires s.pts == pts
      modifies this`pts
      ensures pts == ArcTo(arcs, s)
    {
      if Degenerate(s.cmd, s.cur, s.args) {
        LineToPoint(EndOf(s.cmd, s.cur, s.args));
      } else {
        var arc := arcs(s.cur, s.args, Relative(s.cmd));
        CubicBezTo(arc.first);
        CubicsBezTo(arc.more);
      }
    }

    /** A command whose arguments are complete */
    method Complete(s: S) returns (r: S)
      requires s.pts == pts && s.paths == plist
      modifies this`pts
      ensures r == Perform(arcs, s) && r.pts == pts && r.paths == plist
    {
      hide EndOf;
      hide Degenerate;
      hide CurveOf;
      hide ControlOf;
      hide ArcTo;
      var p := EndOf(s.cmd, s.cur, s.args);
      if IsMove(s.cmd) {
        MoveToPoint(p);
        r := s.(pts := pts, cur := p, ctl := p, cmd := if s.cmd == 'm' then 'l' else 'L', rargs := 2);
      } else if IsLine(s.cmd) {
        LineToPoint(p);
        r := s.(pts := pts, cur := p, ctl := p);
      } else if IsArc(s.cmd) {
        ArcToPoint(s);
        r := s.(pts := pts, cur := p, ctl := p);
      } else if IsBezier(s.cmd) {
        CubicBezTo(CurveOf(s));
        r := s.(pts := pts, cur := p, ctl := ControlOf(s));
      } else {
        r := s.(cur := p);
        if |s.args| >= 2 {
          r := r.(ctl := p);
        }
      }
    }

    /** `nsvg__parsePath`, on the items of the path data */
    method ParsePath(items: seq<Item>)
      modifies this
      ensures pts == Finish(Run(arcs, items)).pts && plist == Finish(Run(arcs, items)).paths
    {
      hide Perform;
      pts, plist := [], [];
      var s, i := Start, 0;
      while i < |items|
        invariant 0 <= i <= |items| && s == Run(arcs, items[..i]) && s.pts == pts && s.paths == plist
      {
        assert items[..i + 1][..i] == items[..i];
        match items[i] {
          case Num(v) =>
            if |s.args| < 10 {
              s := s.(args := s.args + [v]);
            }
            if |s.args| >= s.rargs {
              s := Complete(s);
              s := s.(args := []);
            }
          case Cmd(c) =>
            s := s.(cmd := c, rargs := ArgsPerElement(c));
            if IsMove(c) {
              if |pts| > 0 {
                CommitPath(false);
              }
              pts := [];
              s := s.(pts := pts, paths := plist, args := []);
            } else if c == 'z' || c == 'Z' {
              if |pts| > 0 {
                s := s.(cur := pts[0], ctl := pts[0]);
                CommitPath(true);
              }
              pts := [];
              MoveToPoint(s.cur);
              s := s.(pts := pts, paths := plist, args := []);
            }
        }
        i := i + 1;
      }
      assert items[..|items|] == items;
      if |pts| > 0 {
        CommitPath(false);
      }
    }
  }
}
