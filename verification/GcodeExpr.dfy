/** Expressions of the G-code parser: recursive descent over the tokens of the scanner. */
module GcodeExpr {
  import opened GcodeScan
  import opened GcodeBuffer

  const NUMBER: int := 2
  const PARAM: int := 3
  const IDENT: int := 1
  const LPAREN: int := 6
  const PLUS: int := 9
  const MINUS: int := 10
  const DIVIDE: int := 11
  const TIMES: int := 12
  const POWER: int := 13
  const LBRACK: int := 14
  const RBRACK: int := 15
  const RPAREN: int := 41
  const MIN_ERR_DIST: nat := 2

  /** The character in front of a negated number */
  const MINUS_SIGN: int := 45

  type Double(!new, ==)

  datatype BinOp = OpAdd | OpSub | OpMul | OpDiv | OpPow

  /** The arithmetic of `double`, the reading of numerals and the parameters. */
  datatype Arith = Arith(bin: (BinOp, Double, Double) -> Double, sign: (Double, int) -> Double,
                         strtod: seq<int> -> Double, param: seq<int> -> seq<int>, zero: Double)

  /** The parser between two steps: `pos` is the look-ahead, `last` the text of the token
      before it; errors too close to the one before are not reported. */
  datatype P = P(pos: nat, last: seq<int>, errDist: nat, errors: seq<int>)

  /** The kind of the look-ahead; behind the last token the end of the file repeats. */
  function Kind(ts: seq<Token>, pos: nat): int {
    if pos < |ts| then ts[pos].kind else 0
  }

  function Get(ts: seq<Token>, p: P): (p': P)
    ensures p'.pos == if p.pos < |ts| then p.pos + 1 else p.pos
  {
    if p.pos < |ts| then P(p.pos + 1, ts[p.pos].val, p.errDist + 1, p.errors)
    else p.(last := [], errDist := p.errDist + 1)
  }

  function SynErr(p: P, n: int): P {
    p.(errDist := 0, errors := if p.errDist >= MIN_ERR_DIST then p.errors + [n] else p.errors)
  }

  function Expect(ts: seq<Token>, p: P, n: int): (p': P)
    ensures p.pos <= p'.pos && (p.pos <= |ts| ==> p'.pos <= |ts|)
  {
    if Kind(ts, p.pos) == n then Get(ts, p) else SynErr(p, n)
  }

  // ---------- the grammar, on values ----------

  /** A number with its sign, or the text of a parameter (whose sign is lost). */
  function NumberText(a: Arith, ts: seq<Token>, p: P, sign: int): (r: (P, seq<int>))
    requires p.pos <= |ts|
    ensures p.pos <= r.0.pos <= |ts|
  {
    var k := Kind(ts, p.pos);
    if k == NUMBER then var q := Get(ts, p); (q, if sign == 1 then q.last else [MINUS_SIGN] + q.last)
    else if k == PARAM then var q := Get(ts, p); (q, a.param(q.last))
    else if k == LBRACK then
      var q := Get(ts, p);
      var q' := if Kind(ts, q.pos) == IDENT || Kind(ts, q.pos) == PARAM then Get(ts, q) else SynErr(q, 48);
      (Expect(ts, q', RBRACK), a.param(q'.last))
    else (SynErr(p, 49), [])
  }

  /** The signs in front of an operand. */
  function Signs(ts: seq<Token>, p: P, sign: int): (r: (P, int))
    requires p.pos <= |ts|
    ensures p.pos <= r.0.pos <= |ts|
    decreases |ts| - p.pos
  {
    var k := Kind(ts, p.pos);
    if p.pos < |ts| && (k == PLUS || k == MINUS) then Signs(ts, Get(ts, p), if k == MINUS then sign * -1 else sign)
    else (p, sign)
  }

  function ParseSingle(a: Arith, ts: seq<Token>, p: P): (r: (P, Double))
    requires p.pos <= |ts|
    ensures p.pos <= r.0.pos <= |ts|
    decreases |ts| - p.pos, 1
  {
    var (q, sign) := Signs(ts, p, 1);
    var (q', v) := ParseOperand(a, ts, q);
    (q', a.sign(v, sign))
  }

  function ParseOperand(a: Arith, ts: seq<Token>, p: P): (r: (P, Double))
    requires p.pos <= |ts|
    ensures p.pos <= r.0.pos <= |ts|
    decreases |ts| - p.pos, 0
  {
    var k := Kind(ts, p.pos);
    if p.pos < |ts| && k == LPAREN then
      var (q, v) := ParseAdd(a, ts, Get(ts, p));
      (Expect(ts, q, RPAREN), v)
    else if k == NUMBER || k == PARAM || k == LBRACK then
      var (q, text) := NumberText(a, ts, p, 1);
      (q, a.strtod(text))
    else (SynErr(p, 50), a.zero)
  }

  function ParsePower(a: Arith, ts: seq<Token>, p: P): (r: (P, Double))
    requires p.pos <= |ts|
    ensures p.pos <= r.0.pos <= |ts|
    decreases |ts| - p.pos, 2
  {
    var (q, v) := ParseSingle(a, ts, p);
    if q.pos < |ts| && Kind(ts, q.pos) == POWER then
      var (q', w) := ParseSingle(a, ts, Get(ts, q));
      (q', a.bin(OpPow, v, w))
    else (q, v)
  }

  function ParseMult(a: Arith, ts: seq<Token>, p: P): (r: (P, Double))
    requires p.pos <= |ts|
    ensures p.pos <= r.0.pos <= |ts|
    decreases |ts| - p.pos, 4
  {
    var (q, v) := ParsePower(a, ts, p);
    MultLoop(a, ts, q, v)
  }

  function MultLoop(a: Arith, ts: seq<Token>, p: P, v: Double): (r: (P, Double))
    requires p.pos <= |ts|
    ensures p.pos <= r.0.pos <= |ts|
    decreases |ts| - p.pos, 3
  {
    var k := Kind(ts, p.pos);
    if p.pos < |ts| && (k == DIVIDE || k == TIMES) then
      var (q, w) := ParsePower(a, ts, Get(ts, p));
      MultLoop(a, ts, q, a.bin(if k == TIMES then OpMul else OpDiv, v, w))
    else (p, v)
  }

  function ParseAdd(a: Arith, ts: seq<Token>, p: P): (r: (P, Double))
    requires p.pos <= |ts|
    ensures p.pos <= r.0.pos <= |ts|
    decreases |ts| - p.pos, 6
  {
    var (q, v) := ParseMult(a, ts, p);
    AddLoop(a, ts, q, v)
  }

  function AddLoop(a: Arith, ts: seq<Token>, p: P, v: Double): (r: (P, Double))
    requires p.pos <= |ts|
    ensures p.pos <= r.0.pos <= |ts|
    decreases |ts| - p.pos, 5
  {
    var k := Kind(ts, p.pos);
    if p.pos < |ts| && (k == PLUS || k == MINUS) then
      var (q, w) := ParseMult(a, ts, Get(ts, p));
      AddLoop(a, ts, q, a.bin(if k == PLUS then OpAdd else OpSub, v, w))
    else (p, v)
  }

  // ---------- trees and their text ----------

  /** Operands are numerals, parameters #n, and [name] and [#n], which are read as parameters. */
  datatype Tree =
    | Num(text: seq<int>)
    | Param(text: seq<int>)
    | Bracket(kind: int, text: seq<int>)
    | Sign(minus: bool, e: Tree)
    | Bin(op: BinOp, l: Tree, r: Tree)

  function Eval(a: Arith, e: Tree): Double {
    match e
    case Num(text) => a.strtod(text)
    case Param(text) => a.strtod(a.param(text))
    case Bracket(_, text) => a.strtod(a.param(text))
    case Sign(minus, e1) => a.sign(Eval(a, e1), if minus then -1 else 1)
    case Bin(op, l, r) => a.bin(op, Eval(a, l), Eval(a, r))
  }

  /** In brackets there is a name or a parameter. */
  predicate Proper(e: Tree) {
    match e
    case Bracket(kind, _) => kind == IDENT || kind == PARAM
    case Sign(_, e1) => Proper(e1)
    case Bin(_, l, r) => Proper(l) && Proper(r)
    case _ => true
  }

  /** How tightly an operator binds: sums 0, products 1, powers 2, operands 3. */
  function Level(e: Tree): (level: nat)
    ensures level <= 3
  {
    match e
    case Bin(OpAdd, _, _) => 0
    case Bin(OpSub, _, _) => 0
    case Bin(OpMul, _, _) => 1
    case Bin(OpDiv, _, _) => 1
    case Bin(OpPow, _, _) => 2
    case _ => 3
  }

  function OpKind(op: BinOp): int {
    match op
    case OpAdd => PLUS
    case OpSub => MINUS
    case OpMul => TIMES
    case OpDiv => DIVIDE
    case OpPow => POWER
  }

  function Tok(kind: int): Token {
    Token(kind, 0, 1, [])
  }

  /** The tokens of a tree where at least this level is wanted; parentheses only where needed:
      sums and products associate to the left, powers do not associate, and signs bind tighter
      than anything else. */
  function Print(e: Tree, level: nat): (ts: seq<Token>)
    ensures |ts| >= 1
    decreases e, if Level(e) < level then 1 else 0
  {
    if Level(e) < level then [Tok(LPAREN)] + Print(e, Level(e)) + [Tok(RPAREN)]
    else
      match e
      case Num(text) => [Token(NUMBER, 0, 1, text)]
      case Param(text) => [Token(PARAM, 0, 1, text)]
      case Bracket(kind, text) => [Tok(LBRACK), Token(kind, 0, 1, text), Tok(RBRACK)]
      case Sign(minus, e1) => [Tok(if minus then MINUS else PLUS)] + Print(e1, 3)
      case Bin(op, l, r) =>
        if op == OpPow then Print(l, 3) + [Tok(POWER)] + Print(r, 3)
        else Print(l, Level(e)) + [Tok(OpKind(op))] + Print(r, Level(e) + 1)
  }

  // ---------- parse of print ----------

  /** An operator that would go on at this level. */
  predicate Stops(kind: int, level: nat) {
    && (level == 0 ==> kind != PLUS && kind != MINUS)
    && (level <= 1 ==> kind != TIMES && kind != DIVIDE)
    && (level <= 2 ==> kind != POWER)
  }

  /** At a level, sums and products leave out the last loop, which the caller adds. */
  function Enter(a: Arith, ts: seq<Token>, p: P, level: nat): (r: (P, Double))
    requires p.pos <= |ts|
  {
    if level == 0 then ParseAdd(a, ts, p)
    else if level == 1 then ParseMult(a, ts, p)
    else if level == 2 then ParsePower(a, ts, p)
    else ParseSingle(a, ts, p)
  }

  function Loop(a: Arith, ts: seq<Token>, p: P, v: Double, level: nat): (r: (P, Double))
    requires p.pos <= |ts|
  {
    if level == 0 then AddLoop(a, ts, p, v)
    else if level == 1 then MultLoop(a, ts, p, v)
    else (p, v)
  }

  /** What multiplying by a sign must satisfy. */
  ghost predicate SignLaws(a: Arith) {
    && (forall x :: a.sign(x, 1) == x)
    && (forall x :: a.sign(a.sign(x, -1), -1) == x)
  }

  /** ts continues with `part` at position n. */
  ghost predicate Has(ts: seq<Token>, n: nat, part: seq<Token>) {
    n + |part| <= |ts| && ts[n..n + |part|] == part
  }

  lemma HasParts(ts: seq<Token>, n: nat, x: seq<Token>, y: seq<Token>)
    requires Has(ts, n, x + y)
    ensures Has(ts, n, x) && Has(ts, n + |x|, y)
  {
    var all := ts[n..n + |x + y|];
    assert all[..|x|] == ts[n..n + |x|] && all[|x|..] == ts[n + |x|..n + |x| + |y|];
  }

  lemma HasFirst(ts: seq<Token>, n: nat, t: Token, y: seq<Token>)
    requires Has(ts, n, [t] + y)
    ensures n < |ts| && ts[n] == t && Has(ts, n + 1, y)
  {
    HasParts(ts, n, [t], y);
    assert ts[n..n + 1][0] == ts[n];
  }

  /** The parser after it has gone on to pos without an error. */
  function Moved(ts: seq<Token>, p: P, pos: nat): P
    requires p.pos <= pos <= |ts|
  {
    if pos == p.pos then p else P(pos, ts[pos - 1].val, p.errDist + (pos - p.pos), p.errors)
  }

  lemma MovedOn(ts: seq<Token>, p: P, mid: nat, pos: nat)
    requires p.pos <= mid <= pos <= |ts|
    ensures Moved(ts, Moved(ts, p, mid), pos) == Moved(ts, p, pos)
    ensures mid < |ts| ==> Get(ts, Moved(ts, p, mid)) == Moved(ts, p, mid + 1)
  {
  }

  lemma PrintSame(e: Tree, x: nat, y: nat)
    requires x <= Level(e) && y <= Level(e)
    ensures Print(e, x) == Print(e, y)
  {
  }

  /** With what the parser goes on after an operand of a level. */
  function Need(level: nat): nat {
    if level < 2 then level + 1 else level
  }

  /** Parsing at this level takes exactly these tokens and gives this value, whatever loop of
      the level comes behind. */
  ghost predicate Takes(a: Arith, ts: seq<Token>, p: P, level: nat, pos: nat, v: Double)
    requires p.pos <= pos <= |ts|
  {
    Enter(a, ts, p, level) == Loop(a, ts, Moved(ts, p, pos), v, level)
  }

  /** An operand taken at one level is taken at a lower one. */
  lemma Lift(a: Arith, ts: seq<Token>, p: P, from: nat, level: nat, pos: nat, v: Double)
    requires p.pos <= pos <= |ts| && level <= from <= 3 && Takes(a, ts, p, from, pos, v)
    requires Stops(Kind(ts, pos), Need(level))
    ensures Takes(a, ts, p, level, pos, v)
    decreases from
  {
    if level < from {
      var q := Moved(ts, p, pos);
      assert q.pos == pos;
      if from == 3 {
        assert ParsePower(a, ts, p) == (q, v);
      } else if from == 2 {
        assert ParseMult(a, ts, p) == MultLoop(a, ts, q, v);
      } else {
        assert MultLoop(a, ts, q, v) == (q, v);
        assert ParseAdd(a, ts, p) == AddLoop(a, ts, q, v);
      }
      Lift(a, ts, p, from - 1, level, pos, v);
    }
  }

  /** An operand with signs in front, some of which have been read already. */
  ghost predicate TakesSigned(a: Arith, ts: seq<Token>, p: P, pos: nat, v: Double, sign: int)
    requires p.pos <= pos <= |ts|
  {
    var (q, s) := Signs(ts, p, sign);
    var (q', w) := ParseOperand(a, ts, q);
    q' == Moved(ts, p, pos) && a.sign(w, s) == a.sign(v, sign)
  }

  lemma {:induction false} ParseTree(a: Arith, ts: seq<Token>, p: P, e: Tree, level: nat)
    requires SignLaws(a) && Proper(e) && level <= 3 && Has(ts, p.pos, Print(e, level))
    requires Stops(Kind(ts, p.pos + |Print(e, level)|), Need(level))
    ensures Takes(a, ts, p, level, p.pos + |Print(e, level)|, Eval(a, e))
    ensures level == 3 ==> EitherSign(a, ts, p, p.pos + |Print(e, level)|, Eval(a, e))
    decreases e, if Level(e) < level then 1 else 0, if Level(e) < level then 0 else Level(e) - level
  {
    var pos := p.pos + |Print(e, level)|;
    HasRoom(ts, p.pos, Print(e, level));
    hide Has;
    hide Takes;
    hide EitherSign;
    hide SignLaws;
    hide Stops;
    hide Eval;
    hide Print;
    hide Kind;
    hide Need;
    hide Level;
    hide Proper;
    hide Enter;
    hide Loop;
    if level < Level(e) {
      PrintSame(e, level, Level(e));
      ParseTree(a, ts, p, e, Level(e));
      Lift(a, ts, p, Level(e), level, pos, Eval(a, e));
    } else if Level(e) < level {
      ParseParen(a, ts, p, e, level);
    } else {
      ParseHere(a, ts, p, e);
    }
  }

  /** At its own level a tree is printed without parentheses. */
  lemma {:induction false} ParseHere(a: Arith, ts: seq<Token>, p: P, e: Tree)
    requires SignLaws(a) && Proper(e) && Has(ts, p.pos, Print(e, Level(e)))
    requires Stops(Kind(ts, p.pos + |Print(e, Level(e))|), Need(Level(e)))
    ensures Takes(a, ts, p, Level(e), p.pos + |Print(e, Level(e))|, Eval(a, e))
    ensures Level(e) == 3 ==> EitherSign(a, ts, p, p.pos + |Print(e, 3)|, Eval(a, e))
    decreases e, 0, 0, 1
  {
    HasRoom(ts, p.pos, Print(e, Level(e)));
    hide Has;
    hide Takes;
    hide EitherSign;
    hide SignLaws;
    hide Stops;
    hide Need;
    hide Eval;
    hide Print;
    hide Kind;
    match e
    case Num(_) => ParseLeaf(a, ts, p, e);
    case Param(_) => ParseLeaf(a, ts, p, e);
    case Bracket(_, _) => ParseLeaf(a, ts, p, e);
    case Sign(minus, e1) => ParseSign(a, ts, p, minus, e1);
    case Bin(op, l, r) => ParseBin(a, ts, p, op, l, r);
  }

  lemma SignedSingle(a: Arith, ts: seq<Token>, p: P, pos: nat, v: Double)
    requires p.pos <= pos <= |ts| && TakesSigned(a, ts, p, pos, v, 1) && SignLaws(a)
    ensures Takes(a, ts, p, 3, pos, v)
  {
  }

  predicate Leaf(e: Tree) {
    e.Num? || e.Param? || e.Bracket?
  }

  /** The text that `Number` gives for an operand of a sign. */
  function TextOf(a: Arith, e: Tree, sign: int): seq<int>
    requires Leaf(e)
  {
    match e
    case Num(text) => if sign == 1 then text else [45] + text
    case Param(text) => a.param(text)
    case Bracket(_, text) => a.param(text)
  }

  lemma NumberOfLeaf(a: Arith, ts: seq<Token>, p: P, e: Tree, sign: int)
    requires Leaf(e) && Proper(e) && Has(ts, p.pos, Print(e, 3))
    ensures var (q, text) := NumberText(a, ts, p, sign);
      q == Moved(ts, p, p.pos + |Print(e, 3)|) && text == TextOf(a, e, sign)
  {
    match e
    case Num(text) => HasFirst(ts, p.pos, Token(NUMBER, 0, 1, text), []);
    case Param(text) => HasFirst(ts, p.pos, Token(PARAM, 0, 1, text), []);
    case Bracket(kind, text) =>
      var t := Token(kind, 0, 1, text);
      assert Print(e, 3) == [Tok(LBRACK)] + ([t] + ([Tok(RBRACK)] + []));
      HasFirst(ts, p.pos, Tok(LBRACK), [t] + ([Tok(RBRACK)] + []));
      HasFirst(ts, p.pos + 1, t, [Tok(RBRACK)] + []);
      HasFirst(ts, p.pos + 2, Tok(RBRACK), []);
  }

  lemma LeafFirst(ts: seq<Token>, p: P, e: Tree)
    requires Leaf(e) && Proper(e) && Has(ts, p.pos, Print(e, 3))
    ensures var k := Kind(ts, p.pos); k == NUMBER || k == PARAM || k == LBRACK
  {
    assert ts[p.pos] == ts[p.pos..p.pos + |Print(e, 3)|][0];
  }

  lemma ParseLeaf(a: Arith, ts: seq<Token>, p: P, e: Tree)
    requires SignLaws(a) && Leaf(e) && Proper(e) && Has(ts, p.pos, Print(e, 3))
    ensures var pos := p.pos + |Print(e, 3)|;
      Takes(a, ts, p, 3, pos, Eval(a, e)) && EitherSign(a, ts, p, pos, Eval(a, e))
  {
    NumberOfLeaf(a, ts, p, e, 1);
    LeafFirst(ts, p, e);
    hide NumberText;
    hide Moved;
    assert Signs(ts, p, 1) == (p, 1) && Signs(ts, p, -1) == (p, -1);
    SignedSingle(a, ts, p, p.pos + |Print(e, 3)|, Eval(a, e));
  }

  // ---------- signs in front of a number ----------

  function SignTokens(minus: seq<bool>): (r: seq<Token>)
    ensures |r| == |minus|
  {
    seq(|minus|, i requires 0 <= i < |minus| => Tok(if minus[i] then MINUS else PLUS))
  }

  /** An odd number of them is minus. */
  predicate Odd(minus: seq<bool>) {
    minus != [] && minus[0] != Odd(minus[1..])
  }

  lemma {:induction false} SignsRead(ts: seq<Token>, p: P, minus: seq<bool>, sign: int)
    requires Has(ts, p.pos, SignTokens(minus)) && (sign == 1 || sign == -1)
    requires var k := Kind(ts, p.pos + |minus|); k != PLUS && k != MINUS
    ensures Signs(ts, p, sign) == (Moved(ts, p, p.pos + |minus|), if Odd(minus) then -sign else sign)
    decreases minus
  {
    if minus == [] {
      HasRoom(ts, p.pos, SignTokens(minus));
      MovedNone(ts, p);
      hide Moved;
    } else {
      var rest := minus[1..];
      assert Odd(minus) == (minus[0] != Odd(rest));
      FirstSign(ts, p, minus);
      hide SignTokens;
      hide Has;
      hide Signs;
      hide Odd;
      hide Moved;
      hide Kind;
      hide Get;
      SignsStep(ts, p, minus[0], sign);
      SignsRead(ts, Get(ts, p), rest, if minus[0] then -sign else sign);
    }
  }

  lemma FirstSign(ts: seq<Token>, p: P, minus: seq<bool>)
    requires minus != [] && Has(ts, p.pos, SignTokens(minus))
    ensures p.pos + |minus| <= |ts| && Kind(ts, p.pos) == (if minus[0] then MINUS else PLUS)
    ensures var q := Get(ts, p);
      && q.pos == p.pos + 1 && Has(ts, q.pos, SignTokens(minus[1..]))
      && Moved(ts, q, p.pos + |minus|) == Moved(ts, p, p.pos + |minus|)
  {
    var t, rest, end := Tok(if minus[0] then MINUS else PLUS), minus[1..], p.pos + |minus|;
    HasRoom(ts, p.pos, SignTokens(minus));
    SignTokensFirst(minus);
    hide SignTokens;
    HasFirst(ts, p.pos, t, SignTokens(rest));
    hide Has;
    MovedOn(ts, p, p.pos, end);
    MovedOn(ts, p, p.pos + 1, end);
    MovedNone(ts, p);
  }

  lemma SignsStep(ts: seq<Token>, p: P, minus: bool, sign: int)
    requires p.pos < |ts| && Kind(ts, p.pos) == (if minus then MINUS else PLUS)
    ensures Signs(ts, p, sign) == Signs(ts, Get(ts, p), if minus then -sign else sign)
  {
  }

  lemma SignTokensFirst(minus: seq<bool>)
    requires minus != []
    ensures SignTokens(minus) == [Tok(if minus[0] then MINUS else PLUS)] + SignTokens(minus[1..])
  {
  }

  lemma SignedParts(ts: seq<Token>, n: nat, x: seq<Token>, y: seq<Token>, k: nat)
    requires Has(ts, n, x + y) && |x| == k
    ensures Has(ts, n, x) && Has(ts, n + k, y) && n + k + |y| <= |ts|
  {
    HasParts(ts, n, x, y);
  }

  /** `NumberSign` behind any signs: a numeral gets a minus in front if their number of minuses is
      odd; the sign of a parameter is lost. */
  lemma NumberSigned(a: Arith, ts: seq<Token>, p: P, minus: seq<bool>, e: Tree)
    requires Leaf(e) && Proper(e) && Has(ts, p.pos, SignTokens(minus) + Print(e, 3))
    ensures var (q, sign) := Signs(ts, p, 1); var (q', text) := NumberText(a, ts, q, sign);
      q' == Moved(ts, p, p.pos + |minus| + |Print(e, 3)|) && text == TextOf(a, e, if Odd(minus) then -1 else 1)
  {
    hide Print;
    hide NumberText;
    hide TextOf;
    hide Odd;
    hide Signs;
    hide SignTokens;
    hide Has;
    hide Leaf;
    hide Proper;
    hide Kind;
    hide Moved;
    hide Get;
    SignedParts(ts, p.pos, SignTokens(minus), Print(e, 3), |minus|);
    var pos := p.pos + |minus|;
    var q := Moved(ts, p, pos);
    MovedPos(ts, p, pos);
    MovedOn(ts, p, pos, pos + |Print(e, 3)|);
    LeafFirst(ts, q, e);
    SignsRead(ts, p, minus, 1);
    assert Signs(ts, p, 1) == (q, if Odd(minus) then -1 else 1);
    NumberOfLeaf(a, ts, q, e, if Odd(minus) then -1 else 1);
  }

  ghost predicate EitherSign(a: Arith, ts: seq<Token>, p: P, pos: nat, v: Double)
    requires p.pos <= pos <= |ts|
  {
    TakesSigned(a, ts, p, pos, v, 1) && TakesSigned(a, ts, p, pos, v, -1)
  }

  /** One more sign is read. */
  lemma SignRead(a: Arith, ts: seq<Token>, p: P, q: P, pos: nat, x: Double, m: int, sign: int)
    requires SignLaws(a) && p.pos < |ts| && q == Get(ts, p) && q.pos <= pos <= |ts| && EitherSign(a, ts, q, pos, x)
    requires Kind(ts, p.pos) == (if m == -1 then MINUS else PLUS) && (m == 1 || m == -1) && (sign == 1 || sign == -1)
    requires Moved(ts, q, pos) == Moved(ts, p, pos)
    ensures TakesSigned(a, ts, p, pos, a.sign(x, m), sign)
  {
    hide ParseOperand;
    assert Signs(ts, p, sign) == Signs(ts, q, sign * m);
    assert a.sign(x, sign * m) == a.sign(a.sign(x, m), sign);
  }

  lemma {:induction false} ParseSign(a: Arith, ts: seq<Token>, p: P, minus: bool, e: Tree)
    requires SignLaws(a) && Proper(e) && Has(ts, p.pos, Print(Sign(minus, e), 3))
    ensures var pos := p.pos + |Print(Sign(minus, e), 3)|; var v := Eval(a, Sign(minus, e));
      Takes(a, ts, p, 3, pos, v) && EitherSign(a, ts, p, pos, v)
    decreases Sign(minus, e), 0, 0, 0
  {
    hide ParseSingle;
    hide TakesSigned;
    hide Takes;
    hide Moved;
    hide Signs;
    PrintSign(minus, e);
    hide Print;
    var t, m := Tok(if minus then MINUS else PLUS), if minus then -1 else 1;
    HasFirst(ts, p.pos, t, Print(e, 3));
    var q := Get(ts, p);
    var pos, v, x := p.pos + |Print(Sign(minus, e), 3)|, Eval(a, Sign(minus, e)), Eval(a, e);
    MovedOn(ts, p, p.pos, pos);
    MovedOn(ts, p, p.pos + 1, pos);
    MovedNone(ts, p);
    ParseTree(a, ts, q, e, 3);
    SignRead(a, ts, p, q, pos, x, m, 1);
    SignRead(a, ts, p, q, pos, x, m, -1);
    SignedSingle(a, ts, p, pos, v);
  }

  lemma PrintSign(minus: bool, e: Tree)
    ensures Print(Sign(minus, e), 3) == [Tok(if minus then MINUS else PLUS)] + Print(e, 3)
  {
  }

  lemma PrintParen(e: Tree, level: nat)
    requires Level(e) < level
    ensures Print(e, level) == [Tok(LPAREN)] + (Print(e, 0) + [Tok(RPAREN)] + [])
  {
    PrintSame(e, Level(e), 0);
  }

  lemma PrintBin(op: BinOp, l: Tree, r: Tree)
    ensures var level := Level(Bin(op, l, r));
      Print(Bin(op, l, r), level)
      == Print(l, LeftLevel(op, level)) + ([Tok(OpKind(op))] + Print(r, RightLevel(op, level)))
  {
  }

  lemma MovedPos(ts: seq<Token>, p: P, pos: nat)
    requires p.pos <= pos <= |ts|
    ensures Moved(ts, p, pos).pos == pos
  {
  }

  lemma MovedNone(ts: seq<Token>, p: P)
    requires p.pos <= |ts|
    ensures Moved(ts, p, p.pos) == p
  {
  }

  lemma {:induction false} ParseParen(a: Arith, ts: seq<Token>, p: P, e: Tree, level: nat)
    requires SignLaws(a) && Proper(e) && Level(e) < level <= 3 && Has(ts, p.pos, Print(e, level))
    requires Stops(Kind(ts, p.pos + |Print(e, level)|), Need(level))
    ensures var pos := p.pos + |Print(e, level)|; var v := Eval(a, e);
      Takes(a, ts, p, level, pos, v) && (level == 3 ==> EitherSign(a, ts, p, pos, v))
    decreases e, 1, 0, 0
  {
    hide Moved;
    hide TakesSigned;
    hide Takes;
    hide SignLaws;
    hide Proper;
    hide Eval;
    hide Get;
    hide Need;
    PrintParen(e, level);
    var inner := Print(e, 0);
    var pos, v, q := p.pos + |inner| + 2, Eval(a, e), Get(ts, p);
    ParenParts(ts, p, inner);
    hide Print;
    hide Has;
    hide Level;
    CloseStops();
    hide Stops;
    hide Kind;
    ParseTree(a, ts, q, e, 0);
    ParenTakes(a, ts, p, q, pos, v);
    SignedSingle(a, ts, p, pos, v);
    Lift(a, ts, p, 3, level, pos, v);
  }

  lemma CloseStops()
    ensures Stops(RPAREN, Need(0))
  {
  }

  lemma ParenParts(ts: seq<Token>, p: P, inner: seq<Token>)
    requires Has(ts, p.pos, [Tok(LPAREN)] + (inner + [Tok(RPAREN)] + []))
    ensures var pos := p.pos + |inner| + 2;
      && pos <= |ts| && Kind(ts, p.pos) == LPAREN && Kind(ts, pos - 1) == RPAREN
      && var q := Get(ts, p);
      && q.pos == p.pos + 1 && Has(ts, q.pos, inner) && Moved(ts, q, pos - 1) == Moved(ts, p, pos - 1)
      && Get(ts, Moved(ts, p, pos - 1)) == Moved(ts, p, pos)
  {
    var pos := p.pos + |inner| + 2;
    var close := [Tok(RPAREN)];
    assert inner + close + [] == inner + (close + []);
    HasFirst(ts, p.pos, Tok(LPAREN), inner + (close + []));
    HasParts(ts, p.pos + 1, inner, close + []);
    HasFirst(ts, p.pos + 1 + |inner|, Tok(RPAREN), []);
    hide Has;
    MovedOn(ts, p, p.pos, pos);
    MovedOn(ts, p, p.pos + 1, pos - 1);
    MovedOn(ts, p, pos - 1, pos);
    MovedNone(ts, p);
  }

  lemma ParenTakes(a: Arith, ts: seq<Token>, p: P, q: P, pos: nat, v: Double)
    requires p.pos < |ts| && Kind(ts, p.pos) == LPAREN && q == Get(ts, p) && q.pos < pos <= |ts|
    requires Kind(ts, pos - 1) == RPAREN
    requires Takes(a, ts, q, 0, pos - 1, v) && Moved(ts, q, pos - 1) == Moved(ts, p, pos - 1)
    requires Get(ts, Moved(ts, p, pos - 1)) == Moved(ts, p, pos)
    ensures EitherSign(a, ts, p, pos, v)
  {
    var q' := Moved(ts, q, pos - 1);
    assert q'.pos == pos - 1;
    hide Moved;
    hide ParseAdd;
    assert AddLoop(a, ts, q', v) == (q', v);
    assert ParseOperand(a, ts, p) == (Moved(ts, p, pos), v);
    assert Signs(ts, p, 1) == (p, 1) && Signs(ts, p, -1) == (p, -1);
  }

  /** The levels of the operands. */
  function LeftLevel(op: BinOp, level: nat): nat {
    if op == OpPow then 3 else level
  }

  function RightLevel(op: BinOp, level: nat): nat {
    if op == OpPow then 3 else level + 1
  }

  /** The operator ends its left operand, and what ends the whole ends the right one. */
  lemma OpStops(op: BinOp, level: nat, kind: int)
    requires level == (if op == OpPow then 2 else if op == OpMul || op == OpDiv then 1 else 0)
    requires Stops(kind, Need(level))
    ensures Stops(OpKind(op), Need(LeftLevel(op, level))) && Stops(kind, Need(RightLevel(op, level)))
  {
  }

  lemma BinFacts(a: Arith, op: BinOp, l: Tree, r: Tree)
    ensures var e := Bin(op, l, r);
      && Level(e) == (if op == OpPow then 2 else if op == OpMul || op == OpDiv then 1 else 0)
      && LeftLevel(op, Level(e)) <= 3 && RightLevel(op, Level(e)) <= 3
      && Eval(a, e) == a.bin(op, Eval(a, l), Eval(a, r))
  {
  }

  lemma {:induction false} ParseBin(a: Arith, ts: seq<Token>, p: P, op: BinOp, l: Tree, r: Tree)
    requires SignLaws(a) && Proper(l) && Proper(r) && Has(ts, p.pos, Print(Bin(op, l, r), Level(Bin(op, l, r))))
    requires Stops(Kind(ts, p.pos + |Print(Bin(op, l, r), Level(Bin(op, l, r)))|), Need(Level(Bin(op, l, r))))
    ensures var e := Bin(op, l, r); Takes(a, ts, p, Level(e), p.pos + |Print(e, Level(e))|, Eval(a, e))
    decreases Bin(op, l, r), 0, 0, 0
  {
    hide Moved;
    hide Takes;
    hide EitherSign;
    hide SignLaws;
    hide Has;
    hide Stops;
    hide Need;
    hide Level;
    hide Eval;
    hide LeftLevel;
    hide RightLevel;
    var e := Bin(op, l, r);
    var level := Level(e);
    BinFacts(a, op, l, r);
    PrintBin(op, l, r);
    hide Print;
    var ll, rl := LeftLevel(op, level), RightLevel(op, level);
    var x, y, t := Print(l, ll), Print(r, rl), Tok(OpKind(op));
    var mid, pos := p.pos + |x|, p.pos + |x| + 1 + |y|;
    HasParts(ts, p.pos, x, [t] + y);
    HasFirst(ts, mid, t, y);
    HasRoom(ts, mid + 1, y);
    OpStops(op, level, Kind(ts, pos));
    var q := Moved(ts, p, mid);
    var q1 := Get(ts, q);
    MovedOn(ts, p, mid, pos);
    MovedOn(ts, p, mid + 1, pos);
    MovedPos(ts, p, mid);
    MovedPos(ts, p, mid + 1);
    ParseTree(a, ts, p, l, ll);
    ParseTree(a, ts, q1, r, rl);
    BinTakes(a, ts, p, q, q1, op, Eval(a, l), Eval(a, r), level, mid, pos);
  }

  lemma HasRoom(ts: seq<Token>, n: nat, part: seq<Token>)
    requires Has(ts, n, part)
    ensures n + |part| <= |ts|
  {
  }

  lemma BinTakes(a: Arith, ts: seq<Token>, p: P, q: P, q1: P, op: BinOp, v: Double, w: Double, level: nat, mid: nat,
                 pos: nat)
    requires p.pos <= mid < pos <= |ts| && q == Moved(ts, p, mid) && Kind(ts, mid) == OpKind(op) && q1 == Get(ts, q)
    requires q.pos == mid && q1.pos == mid + 1 && Moved(ts, q1, pos) == Moved(ts, p, pos)
    requires level == (if op == OpPow then 2 else if op == OpMul || op == OpDiv then 1 else 0)
    requires Takes(a, ts, p, LeftLevel(op, level), mid, v)
    requires Takes(a, ts, q1, RightLevel(op, level), pos, w) && Stops(Kind(ts, pos), Need(level))
    ensures Takes(a, ts, p, level, pos, a.bin(op, v, w))
  {
    BinStep(a, ts, q, q1, op, v, w, level, pos);
    hide Moved;
    hide ParseAdd;
    hide ParseMult;
    hide ParseSingle;
    hide MultLoop;
    hide AddLoop;
  }

  /** One turn of the loop of the operator's level. */
  lemma BinStep(a: Arith, ts: seq<Token>, q: P, q1: P, op: BinOp, v: Double, w: Double, level: nat, pos: nat)
    requires q.pos < |ts| && Kind(ts, q.pos) == OpKind(op) && q1 == Get(ts, q) && q1.pos <= pos <= |ts|
    requires level == (if op == OpPow then 2 else if op == OpMul || op == OpDiv then 1 else 0)
    requires Takes(a, ts, q1, RightLevel(op, level), pos, w) && Stops(Kind(ts, pos), Need(level))
    ensures level < 2 ==> Loop(a, ts, q, v, level) == Loop(a, ts, Moved(ts, q1, pos), a.bin(op, v, w), level)
    ensures level == 2 ==> ParseSingle(a, ts, q1) == (Moved(ts, q1, pos), w)
  {
    var q2 := Moved(ts, q1, pos);
    if level == 0 {
      assert MultLoop(a, ts, q2, w) == (q2, w);
    }
  }

  /** Parsing the text of a tree, followed by anything that is no operator, takes exactly that
      text, reports no error, and returns the value of the tree. */
  lemma ParseOfPrint(a: Arith, ts: seq<Token>, p: P, e: Tree)
    requires SignLaws(a) && Proper(e) && Has(ts, p.pos, Print(e, 0)) && Stops(Kind(ts, p.pos + |Print(e, 0)|), 0)
    ensures ParseAdd(a, ts, p) == (Moved(ts, p, p.pos + |Print(e, 0)|), Eval(a, e))
  {
    ParseTree(a, ts, p, e, 0);
  }

  // ---------- characters of the grammar ----------

  function OpChar(op: BinOp): char {
    match op
    case OpAdd => '+'
    case OpSub => '-'
    case OpMul => '*'
    case OpDiv => '/'
    case OpPow => '^'
  }

  /** The character of an operator, a parenthesis or a bracket is scanned to the token that the
      grammar takes for it. */
  lemma SignsScanned(s: seq<byte>, pos: nat, op: BinOp)
    requires pos < |s|
    ensures s[pos] == OpChar(op) as int ==> Tokens(s, pos)[0].kind == OpKind(op)
    ensures s[pos] == '(' as int ==> Tokens(s, pos)[0].kind == LPAREN
    ensures s[pos] == ')' as int ==> Tokens(s, pos)[0].kind == RPAREN
    ensures s[pos] == '[' as int ==> Tokens(s, pos)[0].kind == LBRACK
    ensures s[pos] == ']' as int ==> Tokens(s, pos)[0].kind == RBRACK
  {
    hide Tokens;
    assert SIGNS == "(%=+-/*^[]";
    var c: int := s[pos];
    if c in {40, 43, 45, 47, 42, 94, 91, 93} {
      var i := if c == 40 then 0 else if c == 43 then 3 else if c == 45 then 4 else if c == 47 then 5
        else if c == 42 then 6 else if c == 94 then 7 else if c == 91 then 8 else 9;
      assert SIGNS[i] as int == c;
      SignKind(s, pos, i);
    } else if c == 41 {
      SignKind(s, pos, 0);
    }
  }

  // ---------- the parser as it is written ----------

  class Parser {
    const a: Arith
    const ts: seq<Token>   // what the scanner delivers
    var pos: nat           // index of the look-ahead `la`
    var last: seq<int>     // text of the current token `t`
    var errDist: nat
    var errors: seq<int>

    ghost function View(): P
      reads this
    {
      P(pos, last, errDist, errors)
    }

    constructor (a: Arith, ts: seq<Token>)
      ensures View() == P(0, [], MIN_ERR_DIST, []) && this.a == a && this.ts == ts
    {
      this.a, this.ts, pos, last, errDist, errors := a, ts, 0, [], MIN_ERR_DIST, [];
    }

    function La(): int
      reads this
    {
      Kind(ts, pos)
    }

    method Next()
      modifies this
      ensures View() == Get(ts, old(View()))
    {
      if pos < |ts| {
        last := ts[pos].val;
        pos := pos + 1;
      } else {
        last := [];
      }
      errDist := errDist + 1;
    }

    method Error(n: int)
      modifies this
      ensures View() == SynErr(old(View()), n)
    {
      if errDist >= MIN_ERR_DIST {
        errors := errors + [n];
      }
      errDist := 0;
    }

    method Require(n: int)
      modifies this
      ensures View() == Expect(ts, old(View()), n)
    {
      if La() == n {
        Next();
      } else {
        Error(n);
      }
    }

    /** `NumberSign` */
    method NumberSign() returns (num: seq<int>)
      requires pos <= |ts|
      modifies this
      ensures var (q, sign) := Signs(ts, old(View()), 1); (View(), num) == NumberText(a, ts, q, sign)
    {
      hide NumberText;
      var sign := 1;
      while La() == PLUS || La() == MINUS
        invariant old(pos) <= pos <= |ts| && Signs(ts, View(), sign) == Signs(ts, old(View()), 1)
        decreases |ts| - pos
      {
        if La() == MINUS {
          Next();
          sign := sign * -1;
        } else {
          Next();
        }
      }
      num := Number(sign);
    }

    /** `Number` */
    method Number(sign: int) returns (num: seq<int>)
      requires pos <= |ts|
      modifies this
      ensures (View(), num) == NumberText(a, ts, old(View()), sign) && old(pos) <= pos <= |ts|
    {
      if La() == NUMBER {
        Next();
        num := if sign == 1 then last else [MINUS_SIGN] + last;
      } else if La() == PARAM {
        Next();
        num := a.param(last);
      } else if La() == LBRACK {
        Next();
        if La() == IDENT {
          Next();
        } else if La() == PARAM {
          Next();
        } else {
          Error(48);
        }
        num := a.param(last);
        Require(RBRACK);
      } else {
        Error(49);
        num := [];
      }
    }

    /** `Expression` and `Add` */
    method Add() returns (result: Double)
      requires pos <= |ts|
      modifies this
      ensures (View(), result) == ParseAdd(a, ts, old(View())) && old(pos) <= pos <= |ts|
      decreases |ts| - pos, 3
    {
      hide ParseMult;
      result := Mult();
      while La() == PLUS || La() == MINUS
        invariant old(pos) <= pos <= |ts| && AddLoop(a, ts, View(), result) == ParseAdd(a, ts, old(View()))
        decreases |ts| - pos
      {
        var op := if La() == PLUS then OpAdd else OpSub;
        Next();
        var result2 := Mult();
        result := a.bin(op, result, result2);
      }
    }

    /** `Mult` */
    method Mult() returns (result: Double)
      requires pos <= |ts|
      modifies this
      ensures (View(), result) == ParseMult(a, ts, old(View())) && old(pos) <= pos <= |ts|
      decreases |ts| - pos, 2
    {
      hide ParsePower;
      result := Power();
      while La() == DIVIDE || La() == TIMES
        invariant old(pos) <= pos <= |ts| && MultLoop(a, ts, View(), result) == ParseMult(a, ts, old(View()))
        decreases |ts| - pos
      {
        var op := if La() == TIMES then OpMul else OpDiv;
        Next();
        var result2 := Power();
        result := a.bin(op, result, result2);
      }
    }

    /** `Power`: one exponent only */
    method Power() returns (result: Double)
      requires pos <= |ts|
      modifies this
      ensures (View(), result) == ParsePower(a, ts, old(View())) && old(pos) <= pos <= |ts|
      decreases |ts| - pos, 1
    {
      hide ParseSingle;
      result := Single();
      if La() == POWER {
        Next();
        var result2 := Single();
        result := a.bin(OpPow, result, result2);
      }
    }

    /** `Single` */
    method Single() returns (result: Double)
      requires pos <= |ts|
      modifies this
      ensures (View(), result) == ParseSingle(a, ts, old(View())) && old(pos) <= pos <= |ts|
      decreases |ts| - pos, 0
    {
      hide ParseAdd;
      hide NumberText;
      var sign := 1;
      result := a.zero;
      while La() == PLUS || La() == MINUS
        invariant old(pos) <= pos <= |ts| && Signs(ts, View(), sign) == Signs(ts, old(View()), 1)
        decreases |ts| - pos
      {
        if La() == MINUS {
          Next();
          sign := sign * -1;
        } else {
          Next();
        }
      }
      if La() == LPAREN {
        Next();
        result := Add();
        Require(RPAREN);
      } else if La() == NUMBER || La() == PARAM || La() == LBRACK {
        var num := Number(1);
        result := a.strtod(num);
      } else {
        Error(50);
      }
      result := a.sign(result, sign);
    }
  }
}
