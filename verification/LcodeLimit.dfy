/** Why a numeral that comes first must fit the operand of an instruction: it is put into R/K
    form only after the code of the second operand, so a numeral that needs a register is
    loaded on some of its paths only. */
module LcodeLimit {
  import opened LuaVM
  import opened LuaExpr
  import opened LcodeSpec
  import opened LcodeGrow
  import opened LcodeEmit
  import opened LcodeExpr
  import opened LcodeOps
  import opened LcodeBinary
  import opened LcodeLate
  import opened LcodeCompile
  import opened LcodeMain
  import opened LcodeSteps

  /** x + (L0 or L1) */
  function Sum(x: int): Expr {
    EBinary(OprArith(ADD), ENumber(I(x)), EParen(EBinary(OprOr, ELocal(0), ELocal(1))))
  }

  // ---------- the code of the sum ----------

  /** Nothing but locals is in use, and there are two of them. */
  predicate Between(s: State) {
    s.freereg == s.nactvar && s.nactvar >= 2
  }

  /** The code so far, with the jumps to its end patched. */
  function Base0(s: State): (code: seq<Instr>) {
    DischargeJpc(s).code
  }

  lemma BaseLength(s: State)
    ensures |Base0(s)| == |s.code|
  {
    PatchListLength(s, s.jpc, |s.code|, NO_REG, |s.code|);
  }

  lemma EmitSettled(s: State, i: Instr)
    requires s.jpc == []
    ensures Emit(s, i) == s.(code := s.code + [i])
  {
  }

  lemma EmitBase(s: State, i: Instr)
    ensures Emit(s, i) == s.(code := Base0(s) + [i], jpc := [], failed := Emit(s, i).failed)
    ensures s.jpc == [] ==> Emit(s, i).failed == s.failed
  {
    PatchListGrows(s, s.jpc, |s.code|, NO_REG, |s.code|);
  }

  /** The test and its jump, behind everything else. */
  lemma TestCode(s: State, t: Instr)
    ensures var (s', l) := CondJump(s, t); var n := |s.code|;
      && s' == s.(code := Base0(s) + [t, Jmp(NO_JUMP)], jpc := [], failed := s'.failed) && l == [n + 1]
      && (s.jpc == [] ==> s'.failed == s.failed)
  {
    BaseLength(s);
    EmitBase(s, t);
    var sa := Emit(s, t);
    EmitSettled(sa, Jmp(NO_JUMP));
    assert sa.(jpc := []) == sa;
    assert [|sa.code|] + sa.jpc == [|s.code| + 1];
    assert Base0(s) + [t] + [Jmp(NO_JUMP)] == Base0(s) + [t, Jmp(NO_JUMP)];
    hide Emit;
    hide Base0;
  }

  /** The second operand: a test whose jump is pending, and the other local. */
  lemma OrCode(m: Machine, s: State)
    requires Between(s)
    ensures var (s', d) := Compile(m, s, EParen(EBinary(OprOr, ELocal(0), ELocal(1)))); var n := |s.code|;
      && s' == s.(code := Base0(s) + [TestSet(NO_REG, 0, true), Jmp(NO_JUMP)], jpc := [], lasttarget := n + 2,
                  failed := s'.failed)
      && d == Desc(VNonReloc(1), [n + 1], []) && (s.jpc == [] ==> s'.failed == s.failed)
  {
    hide CondJump;
    hide Base0;
    var e0, e1, t := Desc(VLocal(0), [], []), Desc(VNonReloc(0), [], []), TestSet(NO_REG, 0, true);
    BaseLength(s);
    TestCode(s, t);
    var (sb, l) := CondJump(s, t);
    assert JumpOnCond(s, e1, true) == (sb, VNonReloc(0), l);
    assert [] + l == l && sb.jpc + [] == [];
    assert PatchToHere(sb, []) == sb.(lasttarget := |sb.code|);
    hide PatchToHere;
    hide JumpOnCond;
    assert GoIfFalse(s, e0) == (sb.(lasttarget := |sb.code|), Desc(VNonReloc(0), l, []));
    assert Compile(m, s, ELocal(0)) == (s, e0);
    hide GoIfFalse;
    var s2 := sb.(lasttarget := |sb.code|);
    assert Compile(m, s2, ELocal(1)) == (s2, Desc(VLocal(1), [], []));
  }

  /** The numeral, in a register because no operand can name its index. */
  lemma FirstCode(s: State, x: int)
    requires s.jpc == [] && AddK(s, Number(I(x))).1 > MAXINDEXRK
    ensures var (s', d, rk) := Exp2RK(s, Desc(VKInt(x), [], [])); var (n, k) := (s.freereg, AddK(s, Number(I(x))).1);
      && s'.code == s.code + [LoadK(n, k)] && s'.jpc == [] && s'.freereg == n + 1 && s'.nactvar == s.nactvar
      && d == Desc(VNonReloc(n), [], []) && rk == R(n) && s'.kst == AddK(s, Number(I(x))).0.kst
      && s'.maxstack == (if n + 1 > s.maxstack then n + 1 else s.maxstack)
      && (n + 1 < MAXREGS && k < MAXARG_Ax ==> s'.failed == s.failed)
  {
    var (s1, k) := AddK(s, Number(I(x)));
    var s2 := Reserve(s1, 1);
    EmitSettled(s2, LoadK(s.freereg, k));
  }

  /** The second operand, closed: its jump now skips the code in between. */
  lemma SecondCode(s: State, b: seq<Instr>, n: nat, k: nat)
    requires s.code == b + [TestSet(NO_REG, 0, true), Jmp(NO_JUMP), LoadK(n, k)]
    requires s.jpc == [] && s.nactvar == n >= 2 && s.freereg == n + 1 && n + 1 != NO_REG
    ensures var (s', d, rk) := Exp2RK(s, Desc(VNonReloc(1), [|b| + 1], []));
      && s'.code == b + [TestSet(n + 1, 0, true), Jmp(2), LoadK(n, k), Move(n + 1, 1)]
      && s'.jpc == [] && d == Desc(VNonReloc(n + 1), [], []) && rk == R(n + 1) && s'.kst == s.kst
      && s'.freereg == n + 2 && s'.nactvar == n && s'.maxstack == (if n + 2 > s.maxstack then n + 2 else s.maxstack)
      && (n + 2 < MAXREGS ==> s'.failed == s.failed)
  {
    hide CloseLists;
    hide Emit;
    var d := Desc(VNonReloc(1), [|b| + 1], []);
    var s1 := Reserve(s, 1);
    EmitSettled(s1, Move(n + 1, 1));
    var s2 := s1.(code := s.code + [Move(n + 1, 1)]);
    CloseOne(s2, |b|, n);
    assert Exp2Reg(s1, d, n + 1).0 == CloseLists(s2, false, [|b| + 1], [], n + 1);
  }

  lemma CloseOne(s: State, q: nat, n: nat)
    requires |s.code| == q + 4 && s.code[q] == TestSet(NO_REG, 0, true) && s.code[q + 1].Jmp? && n + 1 != NO_REG
    requires n >= 2
    ensures var s' := CloseLists(s, false, [q + 1], [], n + 1);
      s' == s.(code := s.code[q := TestSet(n + 1, 0, true)][q + 1 := Jmp(2)], lasttarget := q + 4)
  {
    var l := [q + 1];
    assert l[1..] == [];
    assert Producing(s.code, q + 1) && !NeedValue(s.code, l);
    var s1 := GetLabel(s);
    assert PatchList(s1, l, q + 4, n + 1, NO_JUMP) == PatchOne(s1, q + 1, q + 4, n + 1, NO_JUMP);
  }

  /** What the sum adds to the code. */
  function SumInstrs(n: nat, k: nat, reg: nat): seq<Instr> {
    [TestSet(n + 1, 0, true), Jmp(2), LoadK(n, k), Move(n + 1, 1), Binary(ADD, reg, R(n), R(n + 1))]
  }

  /** The code of the sum when x is not among the constants that an operand can name. */
  lemma SumCode(m: Machine, s: State, x: int)
    requires Between(s) && AddK(s, Number(I(x))).1 > MAXINDEXRK && s.nactvar + 1 != NO_REG
    ensures var (s', d) := Compile(m, s, Sum(x)); var (n, k) := (s.nactvar, AddK(s, Number(I(x))).1);
      && s'.code == Base0(s) + SumInstrs(n, k, 0) && s'.jpc == [] && d == Desc(VReloc(|s.code| + 4), [], [])
      && s'.freereg == s'.nactvar == n && s'.kst == AddK(s, Number(I(x))).0.kst
      && s'.maxstack == (if n + 2 > s.maxstack then n + 2 else s.maxstack)
      && (s.jpc == [] && n + 2 < MAXREGS && k < MAXARG_Ax ==> s'.failed == s.failed)
  {
    hide AddK;
    hide Base0;
    hide Compile;
    hide CodeBinExpVal;
    BaseLength(s);
    OrCode(m, s);
    var s3 := Compile(m, s, EParen(EBinary(OprOr, ELocal(0), ELocal(1)))).0;
    SumIs(m, s, x);
    SameConstant(s, s3, Number(I(x)));
    SumParts(s3, Base0(s), s.nactvar, AddK(s, Number(I(x))).1, x);
  }

  lemma SumParts(s: State, b: seq<Instr>, n: nat, k: nat, x: int)
    requires s.code == b + [TestSet(NO_REG, 0, true), Jmp(NO_JUMP)] && s.jpc == []
    requires s.freereg == s.nactvar == n >= 2 && n + 1 != NO_REG && AddK(s, Number(I(x))).1 == k > MAXINDEXRK
    ensures var (s', d) := CodeBinExpVal(s, ADD, Desc(VKInt(x), [], []), Desc(VNonReloc(1), [|b| + 1], []));
      && s'.code == b + SumInstrs(n, k, 0) && s'.jpc == [] && d == Desc(VReloc(|b| + 4), [], [])
      && s'.freereg == s'.nactvar == n && s'.kst == AddK(s, Number(I(x))).0.kst
      && s'.maxstack == (if n + 2 > s.maxstack then n + 2 else s.maxstack)
      && (n + 2 < MAXREGS && k < MAXARG_Ax ==> s'.failed == s.failed)
  {
    hide Exp2RK;
    hide Emit;
    hide AddK;
    var e1, e2 := Desc(VKInt(x), [], []), Desc(VNonReloc(1), [|b| + 1], []);
    FirstCode(s, x);
    var (s4, d4, rk1) := Exp2RK(s, e1);
    assert s4.code == b + [TestSet(NO_REG, 0, true), Jmp(NO_JUMP), LoadK(n, k)];
    SecondCode(s4, b, n, k);
    var (s5, d5, rk2) := Exp2RK(s4, e2);
    FreeTwo(s5, n);
    EmitSettled(FreeExps(s5, d4, d5), Binary(ADD, 0, rk1, rk2));
    hide FreeExps;
    assert s5.code + [Binary(ADD, 0, rk1, rk2)] == b + SumInstrs(n, k, 0);
  }

  lemma FreeTwo(s: State, n: nat)
    requires s.freereg == n + 2 && s.nactvar == n
    ensures FreeExps(s, Desc(VNonReloc(n), [], []), Desc(VNonReloc(n + 1), [], [])) == s.(freereg := n)
  {
  }

  lemma SumIs(m: Machine, s: State, x: int)
    ensures var (s3, d2) := Compile(m, s, EParen(EBinary(OprOr, ELocal(0), ELocal(1))));
      var e1 := Desc(VKInt(x), [], []);
      d2.t != [] ==> Compile(m, s, Sum(x)) == CodeBinExpVal(s3, ADD, e1, d2)
  {
    hide CodeBinExpVal;
    hide GoIfFalse;
  }

  lemma SameConstant(s: State, s1: State, v: Value)
    requires s1.kst == s.kst && s1.cache == s.cache
    ensures AddK(s1, v).1 == AddK(s, v).1 && AddK(s1, v).0.kst == AddK(s, v).0.kst
  {
  }

  // ---------- any second operand ----------

  /** What the sum, or other operation, of a numeral and a second operand comes to when the
      numeral is loaded behind that operand, whose run has come to o with the value ev. */
  function LateValue(m: Machine, op: ArithOp, x: Value, d2: Desc, o: Outcome, r: nat, ev: Res): Res {
    BinRes(m, op, if Leaves(d2, o) then Get(o.regs, r) else x, ev)
  }

  /** A numeral that has no jumps, comes first in an operation that is not folded, and that no
      operand of an instruction can name. */
  predicate ComesLate(m: Machine, s: State, op: ArithOp, e1: Expr, e2: Expr) {
    var (s1, d1) := Compile(m, s, e1);
    var (s2, d2) := Compile(m, s1, e2);
    && ToNumeral(d1).Some? && ConstFolding(m, PArith(op), d1, d2).None? && !Named(s2, d1)
  }

  /** The numeral is a first operand that is set aside, and the operation is not folded. */
  lemma LateForm(m: Machine, s: State, op: ArithOp, e1: Expr, e2: Expr)
    requires ComesLate(m, s, op, e1, e2)
    ensures var (s1, d1) := Compile(m, s, e1); var (s2, d2) := Compile(m, s1, e2);
      && Infix(s1, OprArith(op), d1) == (s1, d1) && !HasJumps(d1) && (d1.k.VKInt? || d1.k.VKFlt?)
      && Compile(m, s, EBinary(OprArith(op), e1, e2)) == CodeBinExpVal(s2, op, d1, d2)
      && (forall c, regs :: OperandVal(c, d1.k, regs) == Number(ToNumeral(d1).value))
  {
    hide CodeBinExpVal;
    hide Named;
  }

  /** Both operands, and the step to the result. */
  lemma LateParts(c: Ctx, s: State, op: ArithOp, e1: Expr, e2: Expr, outer: set<nat>)
    requires var e := EBinary(OprArith(op), e1, e2);
      Ready(c, s, outer) && Proper(e, s.nactvar) && Compile(c.m, s, e).0.kst <= c.kst
    requires ComesLate(c.m, s, op, e1, e2)
    requires Nameable(c.m, s, e1) && Nameable(c.m, Compile(c.m, s, e1).0, e2)
    ensures var (s1, d1) := Compile(c.m, s, e1); var (s2, d2) := Compile(c.m, s1, e2);
      var (s', d) := CodeBinExpVal(s2, op, d1, d2);
      && RunS(c, s1, outer) == RunE(c, s1, d1, outer) && FirstOK(s1, OprArith(op), d1)
      && s1.freereg == s2.freereg == s.freereg && (s.failed ==> s1.failed) && (s1.failed ==> s2.failed)
      && (s2.failed ==> s'.failed) && s.nactvar <= s.freereg
      && (s1.failed || Simulates(c, s, e1, s1, d1, outer)) && (s2.failed || Simulates(c, s1, e2, s2, d2, outer))
      && JoinsSeen(c, s2, d1, d2, s', d, outer, op)
  {
    LevelHigh(s, Fresh, outer);
    hide Compile;
    hide Ready;
    hide CodeBinExpVal;
    hide Named;
    hide JoinsSeen;
    hide Simulates;
    hide RunE;
    hide RunS;
    var (s1, d1) := Compile(c.m, s, e1);
    var (s2, d2) := Compile(c.m, s1, e2);
    LateForm(c.m, s, op, e1, e2);
    CodeBinGrows(s2, op, d1, d2);
    CompileGrows(c.m, s1, e2);
    CompileSound(c, s, e1, outer);
    StrictReady(c, s, OprArith(op), e1, s1, d1, outer, true);
    CompileSound(c, s1, e2, outer);
    CompiledWF(c, s, e1, s1, d1, outer, true);
    CompiledWF(c, s1, e2, s2, d2, outer, true);
    ComesFree(s2, d2.k);
    ComesFree(s1, d1.k);
    OperandAside(s1, OprArith(op), d1, s2, d2, outer);
    OperandsLate(s2, d1, d2);
    CodeBinLate(c, s2, op, d1, d2, outer);
    hide WF;
    hide Comes;
  }

  /** A numeral that comes late: on every run that comes to the operation, the code gives the
      operation on the numeral, or, if the run leaves the second operand by a jump of its lists
      or by its comparison, on what was in the free register.  So the code is right for that run
      if and only if the second operand fails, or is not left by a jump, or the operation makes
      no difference between the two. */
  lemma FullTableFails(c: Ctx, s: State, op: ArithOp, e1: Expr, e2: Expr, outer: set<nat>)
    requires var e := EBinary(OprArith(op), e1, e2);
      Ready(c, s, outer) && Proper(e, s.nactvar) && Compile(c.m, s, e).0.kst <= c.kst
    requires ComesLate(c.m, s, op, e1, e2) && !Compile(c.m, s, EBinary(OprArith(op), e1, e2)).0.failed
    requires Nameable(c.m, s, e1) && Nameable(c.m, Compile(c.m, s, e1).0, e2)
    requires var o := RunS(c, s, outer); o.Exit? && o.pc == |s.code| && Eval(c.m, e1, o.regs, o.w).Ok?
    ensures var e := EBinary(OprArith(op), e1, e2); var (s', d) := Compile(c.m, s, e);
      var (s1, d1) := Compile(c.m, s, e1); var (s2, d2) := Compile(c.m, s1, e2);
      var o0, o2, r, x := RunS(c, s, outer), RunE(c, s2, d2, outer), s.freereg, Number(ToNumeral(d1).value);
      var ev := Eval(c.m, e2, o0.regs, Eval(c.m, e1, o0.regs, o0.w).w);
      && Eval(c.m, e, o0.regs, o0.w) == BinRes(c.m, op, x, ev)
      && Sem(c, s', d, outer, LateValue(c.m, op, x, d2, o2, r, ev), o0.regs, r)
      && (Sem(c, s', d, outer, Eval(c.m, e, o0.regs, o0.w), o0.regs, r) <==>
            ev.Err? || !Leaves(d2, o2) || Arith(c.m, op, Get(o2.regs, r), ev.v, ev.w) == Arith(c.m, op, x, ev.v, ev.w))
  {
    hide Compile;
    hide Ready;
    hide CodeBinExpVal;
    hide Named;
    hide Sem;
    hide RunE;
    hide RunS;
    hide Eval;
    hide Arith;
    hide ComesLate;
    LateForm(c.m, s, op, e1, e2);
    LateParts(c, s, op, e1, e2, outer);
    LateMeant(c, s, op, e1, e2, outer);
    var (s', d) := Compile(c.m, s, EBinary(OprArith(op), e1, e2));
    SemOnce(c, s', d, outer, RunS(c, s, outer).regs, s.freereg);
  }

  lemma SemOnce(c: Ctx, s: State, d: Desc, outer: set<nat>, regs0: Regs, fr: int)
    ensures forall ev, ev' :: Sem(c, s, d, outer, ev, regs0, fr) && Sem(c, s, d, outer, ev', regs0, fr) ==> ev == ev'
  {
    hide RunE;
    hide Denote;
  }

  lemma LateMeant(c: Ctx, s: State, op: ArithOp, e1: Expr, e2: Expr, outer: set<nat>)
    requires var e := EBinary(OprArith(op), e1, e2);
      Ready(c, s, outer) && Proper(e, s.nactvar) && Compile(c.m, s, e).0.kst <= c.kst
    requires ComesLate(c.m, s, op, e1, e2) && !Compile(c.m, s, EBinary(OprArith(op), e1, e2)).0.failed
    requires Nameable(c.m, s, e1) && Nameable(c.m, Compile(c.m, s, e1).0, e2)
    requires var o := RunS(c, s, outer); o.Exit? && o.pc == |s.code| && Eval(c.m, e1, o.regs, o.w).Ok?
    ensures var e := EBinary(OprArith(op), e1, e2); var (s', d) := Compile(c.m, s, e);
      var (s1, d1) := Compile(c.m, s, e1); var (s2, d2) := Compile(c.m, s1, e2);
      var o0, o2, r, x := RunS(c, s, outer), RunE(c, s2, d2, outer), s.freereg, Number(ToNumeral(d1).value);
      var ev := Eval(c.m, e2, o0.regs, Eval(c.m, e1, o0.regs, o0.w).w);
      && Eval(c.m, e, o0.regs, o0.w) == BinRes(c.m, op, x, ev)
      && Sem(c, s', d, outer, LateValue(c.m, op, x, d2, o2, r, ev), o0.regs, r)
  {
    hide Compile;
    hide Ready;
    hide CodeBinExpVal;
    hide Named;
    hide Sem;
    hide RunE;
    hide RunS;
    hide Eval;
    hide ComesLate;
    hide Arith;
    LateForm(c.m, s, op, e1, e2);
    LateParts(c, s, op, e1, e2, outer);
    var (s1, d1) := Compile(c.m, s, e1);
    var (s2, d2) := Compile(c.m, s1, e2);
    var o0, o1, r := RunS(c, s, outer), RunS(c, s1, outer), s.freereg;
    FirstValue(c, s1, OprArith(op), d1, outer, Eval(c.m, e1, o0.regs, o0.w), o0.regs, r);
    EvalLocals(c.m, e2, s.nactvar, o1.regs, o0.regs, o1.w);
    BinaryEval(c.m, OprArith(op), e1, e2, o0.regs, o0.w, Eval(c.m, e2, o0.regs, o1.w));
  }

  lemma SumEval(m: Machine, x: int, regs: Regs, w: World)
    requires Truthy(Get(regs, 0))
    ensures Eval(m, Sum(x), regs, w) == Arith(m, ADD, Number(I(x)), Get(regs, 0), w)
  {
    var or := EBinary(OprOr, ELocal(0), ELocal(1));
    assert Eval(m, ELocal(0), regs, w) == Ok(Get(regs, 0), w);
    assert Eval(m, or, regs, w) == Ok(Get(regs, 0), w);
    assert Eval(m, EParen(or), regs, w) == Ok(Get(regs, 0), w);
  }

  // ---------- a whole function ----------

  /** Assignments of the constants k + 2 .. n + 1 to the second local, and then the sum of 1. */
  function Filling(k: nat, n: nat): Body
    requires k <= n
    decreases n - k
  {
    if k == n then Ret(Sum(1)) else Seq(Assign(1, ENumber(I(k + 2))), Filling(k + 1, n))
  }

  function Consts(k: nat): seq<Value> {
    if k == 0 then [] else Consts(k - 1) + [Number(I(k + 1))]
  }

  function Loads(k: nat): seq<Instr> {
    if k == 0 then [] else Loads(k - 1) + [LoadK(1, k - 1)]
  }

  function Cached(k: nat): map<Key, Slot> {
    if k == 0 then map[] else Cached(k - 1)[KeyPtr(k + 1) := Index(k - 1)]
  }

  /** The state behind k assignments. */
  function Filled(k: nat): State {
    State(Loads(k), [], 0, 2, 2, 2, Consts(k), Cached(k), false)
  }

  lemma {:induction false} FillFacts(k: nat)
    ensures |Consts(k)| == |Loads(k)| == k
    ensures forall i: int :: KeyPtr(i) in Cached(k) ==> 2 <= i < k + 2
    ensures forall i: nat :: i < k ==> Loads(k)[i] == LoadK(1, i)
  {
    if k > 0 {
      FillFacts(k - 1);
    }
  }

  lemma FillStep(m: Machine, k: nat)
    requires k < MAXARG_Ax
    ensures CompileStmt(m, Filled(k), Assign(1, ENumber(I(k + 2)))) == Filled(k + 1)
  {
    var s, v, d := Filled(k), Number(I(k + 2)), Desc(VKInt(k + 2), [], []);
    FillFacts(k);
    assert Compile(m, s, ENumber(I(k + 2))) == (s, d);
    assert FreeExp(s, d) == s;
    var s1 := AddK(s, v).0;
    assert AddK(s, v) == (s.(kst := Consts(k + 1), cache := Cached(k + 1)), k);
    hide AddK;
    EmitSettled(s1, LoadK(1, k));
    hide Emit;
    assert Discharge2Reg(s, d, 1) == (s1.(code := Loads(k) + [LoadK(1, k)]), Desc(VNonReloc(1), [], []));
    hide Discharge2Reg;
    hide CloseLists;
    assert StoreLocal(s, 1, d).0 == Filled(k + 1);
  }

  lemma {:induction false} FillCode(m: Machine, k: nat, n: nat)
    requires k <= n < MAXARG_Ax
    ensures CompileBody(m, Filled(k), Filling(k, n)) == CompileReturn(m, Filled(n), Sum(1))
    decreases n - k
  {
    hide CompileStmt;
    hide CompileReturn;
    if k < n {
      FillStep(m, k);
      FillCode(m, k + 1, n);
    }
  }

  /** Its state when the sum comes. */
  lemma FilledSum(m: Machine, n: nat)
    requires MAXINDEXRK < n < MAXARG_Ax
    ensures var (s, d) := Compile(m, Filled(n), Sum(1));
      && s.code == Loads(n) + SumInstrs(2, n, 0) && |Loads(n)| == n && s.jpc == [] && d == Desc(VReloc(n + 4), [], [])
      && s.freereg == s.nactvar == 2 && s.maxstack == 4 && !s.failed && s.kst == Consts(n) + [Number(I(1))]
  {
    var s0 := Filled(n);
    FillFacts(n);
    assert AddK(s0, Number(I(1))).1 == n && AddK(s0, Number(I(1))).0.kst == Consts(n) + [Number(I(1))];
    hide AddK;
    assert Base0(s0) == Loads(n);
    hide Base0;
    SumCode(m, s0, 1);
    hide Compile;
  }

  /** The return of the sum. */
  lemma ReturnCode(m: Machine, n: nat)
    requires MAXINDEXRK < n < MAXARG_Ax
    ensures var s := CompileReturn(m, Filled(n), Sum(1));
      s.code == Loads(n) + SumInstrs(2, n, 2) + [LuaVM.Return(2, 2)] && s.kst == Consts(n) + [Number(I(1))] && !s.failed
  {
    hide Compile;
    hide Filled;
    hide Loads;
    hide Consts;
    hide Exp2AnyReg;
    hide Emit;
    FilledSum(m, n);
    var (s1, d) := Compile(m, Filled(n), Sum(1));
    assert s1.code[n + 4] == SumInstrs(2, n, 0)[4] == Binary(ADD, 0, R(2), R(3));
    TakeReg(s1, n + 4);
    var (s2, d2) := Exp2AnyReg(s1, d);
    EmitSettled(s2, LuaVM.Return(2, 2));
    assert s2.code == Loads(n) + SumInstrs(2, n, 2);
  }

  lemma TakeReg(s: State, pc: nat)
    requires s.freereg == 2 && s.nactvar == 2 && s.jpc == [] && s.maxstack == 4 && pc < |s.code| && s.code[pc].Binary?
    ensures var (s', d) := Exp2AnyReg(s, Desc(VReloc(pc), [], []));
      && s'.code == s.code[pc := WithA(s.code[pc], 2)] && s'.jpc == [] && s'.kst == s.kst && s'.failed == s.failed
      && d == Desc(VNonReloc(2), [], [])
  {
  }

  /** Nothing can make it right: once it has come to the end, the machine has done an addition
      to nil that the function does not mean. */
  lemma {:induction false} FillRun(m: Machine, kst: seq<Value>, n: nat, fuel: nat, pc: nat, regs: Regs)
    requires pc <= n && fuel > n + 5 - pc && Get(regs, 0) == Number(I(5)) && Get(regs, 2) == Nil
    ensures var code := Loads(n) + SumInstrs(2, n, 2) + [LuaVM.Return(2, 2)];
      var h := Exec(m, kst, code, fuel, pc, regs, []); var e := Event(PArith(ADD), Nil, Number(I(5)));
      h == Raised([e]) || (h.Returned? && h.w == [e])
    decreases n - pc
  {
    var code := Loads(n) + SumInstrs(2, n, 2) + [LuaVM.Return(2, 2)];
    FillFacts(n);
    if pc < n {
      assert code[pc] == LoadK(1, pc);
      FillRun(m, kst, n, fuel - 1, pc + 1, regs[1 := RKValue(kst, regs, K(pc))]);
    } else {
      assert code[n] == TestSet(3, 0, true) && code[n + 1] == Jmp(2) && code[n + 4] == Binary(ADD, 2, R(2), R(3));
      assert code[n + 5] == LuaVM.Return(2, 2);
      SumExec(m, kst, code, n, fuel, regs);
    }
  }

  lemma SumExec(m: Machine, kst: seq<Value>, code: seq<Instr>, n: nat, fuel: nat, regs: Regs)
    requires |code| == n + 6 && code[n] == TestSet(3, 0, true) && code[n + 1] == Jmp(2)
    requires code[n + 4] == Binary(ADD, 2, R(2), R(3)) && code[n + 5] == LuaVM.Return(2, 2)
    requires fuel > 5 && Get(regs, 0) == Number(I(5)) && Get(regs, 2) == Nil
    ensures var h := Exec(m, kst, code, fuel, n, regs, []); var e := Event(PArith(ADD), Nil, Number(I(5)));
      h == Raised([e]) || (h.Returned? && h.w == [e])
  {
    var regs1, e := regs[3 := Number(I(5))], Event(PArith(ADD), Nil, Number(I(5)));
    assert Exec(m, kst, code, fuel, n, regs, []) == Exec(m, kst, code, fuel - 1, n + 1, regs1, []);
    assert Exec(m, kst, code, fuel - 1, n + 1, regs1, []) == Exec(m, kst, code, fuel - 2, n + 4, regs1, []);
    assert [] + [e] == [e];
    var v := m.meta([e]);
    if v.Some? {
      var regs2 := regs1[2 := v.value];
      assert Exec(m, kst, code, fuel - 2, n + 4, regs1, []) == Exec(m, kst, code, fuel - 3, n + 5, regs2, [e]);
    } else {
      assert Exec(m, kst, code, fuel - 2, n + 4, regs1, []) == Raised([e]);
    }
  }

  /** What the function means: the sum of 1 and the first argument, without any operation that
      could be seen. */
  lemma {:induction false} FillMeans(m: Machine, k: nat, n: nat, regs: Regs)
    requires k <= n && Get(regs, 0) == Number(I(5))
    ensures EvalBody(m, Filling(k, n), 2, At(regs, [])).Value? && EvalBody(m, Filling(k, n), 2, At(regs, [])).w == []
    decreases n - k
  {
    hide Sum;
    if k == n {
      SumEval(m, 1, regs, []);
    } else {
      var regs' := regs[1 := Number(I(k + 2))];
      assert EvalStmt(m, Assign(1, ENumber(I(k + 2))), 2, At(regs, [])) == At(regs', []);
      FillMeans(m, k + 1, n, regs');
    }
  }

  lemma {:induction false} FillProper(k: nat, n: nat)
    requires k <= n
    ensures ProperBody(Filling(k, n), 2)
    decreases n - k
  {
    if k < n {
      FillProper(k + 1, n);
    }
  }

  /** The bound is needed: a function of two parameters with 257 constants that is accepted and
      that the machine runs to a wrong end, whatever the machine does. */
  lemma LimitNeeded(m: Machine)
    ensures exists b, regs: Regs :: ProperBody(b, 2) && WrongFunction(m, b, regs)
  {
    var b, regs := Filling(0, MAXINDEXRK + 1), map[0 := Number(I(5))];
    FillProper(0, MAXINDEXRK + 1);
    Fails(m, MAXINDEXRK + 1, regs);
  }

  /** Compiled without an error, to code that does not do what the function means. */
  ghost predicate WrongFunction(m: Machine, b: Body, regs: Regs) {
    var s := CompileBody(m, Opened(2, map[]), b);
    && !s.failed && |s.kst| == MAXINDEXRK + 2
    && !Halts(Exec(m, s.kst, s.code, |s.code|, 0, regs, []), EvalBody(m, b, 2, At(regs, [])))
  }

  lemma Fails(m: Machine, n: nat, regs: Regs)
    requires n == MAXINDEXRK + 1 && Get(regs, 0) == Number(I(5)) && Get(regs, 2) == Nil
    ensures WrongFunction(m, Filling(0, n), regs)
  {
    hide Exec;
    hide EvalBody;
    hide CompileBody;
    hide CompileReturn;
    FillFacts(n);
    assert Opened(2, map[]) == Filled(0);
    FillCode(m, 0, n);
    ReturnCode(m, n);
    var s := CompileBody(m, Opened(2, map[]), Filling(0, n));
    FillRun(m, s.kst, n, |s.code|, 0, regs);
    FillMeans(m, 0, n, regs);
  }
}
