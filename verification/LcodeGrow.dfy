/** The constant table only grows, by no more than the expression's budget; errors and the
    stack size are never taken back.  Nothing here needs the invariant. */
module LcodeGrow {
  import opened LuaVM
  import opened LuaExpr
  import opened LcodeSpec

  predicate Grows(s: State, s': State) {
    && s.kst <= s'.kst && (s.failed ==> s'.failed)
    && s.maxstack <= s'.maxstack && s'.nactvar == s.nactvar
  }

  /** A literal that may still be moved to the constant table. */
  function Cost(k: Kind): nat {
    if ConstantOf(k).Some? then 1 else 0
  }

  lemma {:induction false} PatchListGrows(s: State, l: seq<nat>, vtarget: int, reg: nat, dtarget: int)
    ensures var s' := PatchList(s, l, vtarget, reg, dtarget);
      s' == s.(code := s'.code, failed := s'.failed) && (s.failed ==> s'.failed)
    decreases |l|
  {
    if l != [] {
      PatchListGrows(PatchOne(s, l[0], vtarget, reg, dtarget), l[1..], vtarget, reg, dtarget);
    }
  }

  lemma EmitGrows(s: State, i: Instr)
    ensures Grows(s, Emit(s, i)) && Emit(s, i).kst == s.kst
    ensures Emit(s, i).freereg == s.freereg && Emit(s, i).maxstack == s.maxstack
  {
    PatchListGrows(s, s.jpc, |s.code|, NO_REG, |s.code|);
  }

  lemma CondJumpGrows(s: State, i: Instr)
    ensures Grows(s, CondJump(s, i).0) && CondJump(s, i).0.kst == s.kst
  {
    EmitGrows(s, i);
    JumpGrows(Emit(s, i));
  }

  lemma JumpGrows(s: State)
    ensures Grows(s, EmitJump(s).0) && EmitJump(s).0.kst == s.kst
  {
    EmitGrows(s.(jpc := []), Jmp(NO_JUMP));
    hide Emit;
  }

  lemma LoadBoolsGrows(s: State, isJump: bool, reg: nat)
    ensures Grows(s, LoadBools(s, isJump, reg)) && LoadBools(s, isJump, reg).kst == s.kst
  {
    JumpGrows(s);
    var s1 := if isJump then s else EmitJump(s).0;
    EmitGrows(GetLabel(s1), LoadBool(reg, false, true));
    var s2 := EmitLoadBool(s1, reg, false, true);
    EmitGrows(GetLabel(s2), LoadBool(reg, true, false));
    hide Emit;
    hide EmitJump;
  }

  lemma FinishGrows(s: State, t: seq<nat>, f: seq<nat>, reg: nat, pf: int, pt: int)
    ensures Grows(s, FinishLists(s, t, f, reg, pf, pt)) && FinishLists(s, t, f, reg, pf, pt).kst == s.kst
  {
    var n := |s.code|;
    PatchListGrows(GetLabel(s), f, n, reg, pf);
    PatchListGrows(PatchList(GetLabel(s), f, n, reg, pf), t, n, reg, pt);
  }

  lemma CloseGrows(s: State, isJump: bool, t: seq<nat>, f: seq<nat>, reg: nat)
    ensures Grows(s, CloseLists(s, isJump, t, f, reg)) && CloseLists(s, isJump, t, f, reg).kst == s.kst
  {
    var s1 := LoadBools(s, isJump, reg);
    LoadBoolsGrows(s, isJump, reg);
    FinishGrows(s1, t, f, reg, |s1.code| - 2, |s1.code| - 1);
    FinishGrows(s, t, f, reg, NO_JUMP, NO_JUMP);
    hide LoadBools;
    hide FinishLists;
  }

  lemma ConstGrows(s: State, v: Value, reg: nat)
    ensures Grows(s, LoadConst(s, v, reg)) && |LoadConst(s, v, reg).kst| <= |s.kst| + 1
  {
    var (s1, k) := AddK(s, v);
    EmitGrows(s1, LoadK(reg, k));
    hide Emit;
  }

  lemma NilGrows(s: State, reg: nat)
    ensures Grows(s, CodeNil(s, reg, 1)) && CodeNil(s, reg, 1).kst == s.kst
  {
    EmitGrows(s, LoadNil(reg, 0));
    hide Emit;
  }

  lemma DischargeGrows(s: State, e: Desc, reg: nat)
    ensures Grows(s, Discharge2Reg(s, e, reg).0)
    ensures |Discharge2Reg(s, e, reg).0.kst| + Cost(Discharge2Reg(s, e, reg).1.k) <= |s.kst| + Cost(e.k)
  {
    match DischargeVars(e).k
    case VNil => NilGrows(s, reg); hide CodeNil;
    case VTrue => EmitGrows(s, LoadBool(reg, true, false)); hide Emit;
    case VFalse => EmitGrows(s, LoadBool(reg, false, false)); hide Emit;
    case VK(info) => EmitGrows(s, LoadK(reg, info)); hide Emit;
    case VKFlt(x) => ConstGrows(s, Number(F(x)), reg); hide LoadConst;
    case VKInt(i) => ConstGrows(s, Number(I(i)), reg); hide LoadConst;
    case VNonReloc(r) => EmitGrows(s, Move(reg, r)); hide Emit;
    case _ =>
  }

  lemma Exp2RegGrows(s: State, e: Desc, reg: nat)
    ensures Grows(s, Exp2Reg(s, e, reg).0) && |Exp2Reg(s, e, reg).0.kst| <= |s.kst| + Cost(e.k)
  {
    hide CloseLists;
    hide Discharge2Reg;
    DischargeGrows(s, e, reg);
    var (s1, e1) := Discharge2Reg(s, e, reg);
    var (s2, t2) := if e1.k.VJmp? then (Link(s1, e1.t, [e1.k.pc]), e1.t + [e1.k.pc]) else (s1, e1.t);
    CloseGrows(s2, e1.k.VJmp?, t2, e1.f, reg);
  }

  lemma NextRegGrows(s: State, e: Desc)
    ensures Grows(s, Exp2NextReg(s, e).0) && |Exp2NextReg(s, e).0.kst| <= |s.kst| + Cost(e.k)
  {
    hide Exp2Reg;
    var s1 := Reserve(FreeExp(s, DischargeVars(e)), 1);
    Exp2RegGrows(s1, DischargeVars(e), s1.freereg - 1);
  }

  lemma AnyRegGrows(s: State, e: Desc)
    ensures Grows(s, Exp2AnyReg(s, e).0) && |Exp2AnyReg(s, e).0.kst| + Cost(Exp2AnyReg(s, e).1.k) <= |s.kst| + Cost(e.k)
  {
    var e1 := DischargeVars(e);
    NextRegGrows(s, e1);
    if e1.k.VNonReloc? {
      Exp2RegGrows(s, e1, e1.k.reg);
    }
    NextRegDesc(s, e1);
    hide Exp2NextReg;
  }

  lemma NextRegDesc(s: State, e: Desc)
    ensures Exp2NextReg(s, e).1.k.VNonReloc? && !HasJumps(Exp2NextReg(s, e).1)
  {
  }

  lemma ValGrows(s: State, e: Desc)
    ensures Grows(s, Exp2Val(s, e).0) && |Exp2Val(s, e).0.kst| + Cost(Exp2Val(s, e).1.k) <= |s.kst| + Cost(e.k)
  {
    AnyRegGrows(s, e);
    hide Exp2AnyReg;
  }

  lemma RKGrows(s: State, e: Desc)
    ensures var s1, s' := Exp2Val(s, e).0, Exp2RK(s, e).0;
      && Grows(s, s') && s1.kst <= s'.kst && (s1.failed ==> s'.failed)
      && |s'.kst| + Cost(Exp2RK(s, e).1.k) <= |s.kst| + Cost(e.k)
      && (ConstantOf(Exp2Val(s, e).1.k).Some? ==> AddK(s1, ConstantOf(Exp2Val(s, e).1.k).value).0.kst <= s'.kst)
  {
    hide Exp2AnyReg;
    hide Exp2Val;
    ValGrows(s, e);
    var (s1, e1) := Exp2Val(s, e);
    var c := ConstantOf(e1.k);
    var (s2, e2) := if c.Some? then (AddK(s1, c.value).0, e1.(k := VK(AddK(s1, c.value).1))) else (s1, e1);
    AnyRegGrows(s2, e2);
  }

  lemma AnyPlaceGrows(s: State, e: Desc)
    ensures Grows(s, Discharge2AnyReg(s, e).0)
    ensures |Discharge2AnyReg(s, e).0.kst| + Cost(Discharge2AnyReg(s, e).1.k) <= |s.kst| + Cost(e.k)
  {
    var s1 := Reserve(s, 1);
    DischargeGrows(s1, e, s1.freereg - 1);
    hide Discharge2Reg;
  }

  lemma JumpOnCondGrows(s: State, e: Desc, cond: bool)
    ensures Grows(s, JumpOnCond(s, e, cond).0) && |JumpOnCond(s, e, cond).0.kst| <= |s.kst| + Cost(e.k)
    ensures !(e.k.VReloc? && |s.code| > 0 && s.code[|s.code| - 1].Not?) ==>
      JumpOnCond(s, e, cond).0.kst == Discharge2AnyReg(s, e).0.kst
      && (Discharge2AnyReg(s, e).0.failed ==> JumpOnCond(s, e, cond).0.failed)
  {
    hide CondJump;
    hide Discharge2AnyReg;
    var n := |s.code|;
    AnyPlaceGrows(s, e);
    if e.k.VReloc? && n > 0 && s.code[n - 1].Not? {
      CondJumpGrows(s.(code := s.code[..n - 1]), Test(s.code[n - 1].b, !cond));
    } else {
      var (s1, e1) := Discharge2AnyReg(s, e);
      CondJumpGrows(FreeExp(s1, e1), TestSet(NO_REG, if e1.k.VNonReloc? then e1.k.reg else 0, cond));
    }
  }

  lemma GoIfTrueGrows(s: State, e: Desc)
    ensures Grows(s, GoIfTrue(s, e).0) && |GoIfTrue(s, e).0.kst| <= |s.kst| + Cost(e.k)
    ensures var e1 := DischargeVars(e);
      !e1.k.VJmp? && !AlwaysTrue(e1.k) ==> JumpOnCond(s, e1, false).0.kst == GoIfTrue(s, e).0.kst
  {
    hide JumpOnCond;
    JumpOnCondGrows(s, DischargeVars(e), false);
  }

  lemma GoIfFalseGrows(s: State, e: Desc)
    ensures Grows(s, GoIfFalse(s, e).0) && |GoIfFalse(s, e).0.kst| <= |s.kst| + Cost(e.k)
    ensures var e1 := DischargeVars(e);
      !e1.k.VJmp? && !AlwaysFalse(e1.k) ==> JumpOnCond(s, e1, true).0.kst == GoIfFalse(s, e).0.kst
  {
    hide JumpOnCond;
    JumpOnCondGrows(s, DischargeVars(e), true);
  }

  lemma CodeNotGrows(s: State, e: Desc)
    ensures Grows(s, CodeNot(s, e).0) && |CodeNot(s, e).0.kst| + Cost(CodeNot(s, e).1.k) <= |s.kst| + Cost(e.k) + 1
    ensures var e1 := DischargeVars(e);
      !AlwaysFalse(e1.k) && !AlwaysTrue(e1.k) && !e1.k.VJmp? ==>
        Discharge2AnyReg(s, e1).0.kst == CodeNot(s, e).0.kst
          && (Discharge2AnyReg(s, e1).0.failed ==> CodeNot(s, e).0.failed)
  {
    hide Emit;
    hide Discharge2AnyReg;
    hide RemoveValues;
    var e1 := DischargeVars(e);
    AnyPlaceGrows(s, e1);
    var (s2, e2) := Discharge2AnyReg(s, e1);
    EmitGrows(FreeExp(s2, e2), Not(0, if e2.k.VNonReloc? then e2.k.reg else 0));
  }

  lemma CodeUnGrows(s: State, op: UnOp, e: Desc)
    ensures Grows(s, CodeUnExpVal(s, op, e).0) && |CodeUnExpVal(s, op, e).0.kst| <= |s.kst| + Cost(e.k)
    ensures Exp2AnyReg(s, e).0.kst == CodeUnExpVal(s, op, e).0.kst
    ensures Exp2AnyReg(s, e).0.failed ==> CodeUnExpVal(s, op, e).0.failed
  {
    hide Emit;
    hide Exp2AnyReg;
    AnyRegGrows(s, e);
    var (s1, e1) := Exp2AnyReg(s, e);
    EmitGrows(FreeExp(s1, e1), Unary(op, 0, if e1.k.VNonReloc? then e1.k.reg else 0));
  }

  lemma CodeBinGrows(s: State, op: ArithOp, e1: Desc, e2: Desc)
    ensures Grows(s, CodeBinExpVal(s, op, e1, e2).0)
    ensures |CodeBinExpVal(s, op, e1, e2).0.kst| <= |s.kst| + Cost(e1.k) + Cost(e2.k)
    ensures var s1 := Exp2RK(s, e1).0; var s2 := Exp2RK(s1, e2).0;
      s1.kst <= s2.kst && s2.kst == CodeBinExpVal(s, op, e1, e2).0.kst
        && (s2.failed ==> CodeBinExpVal(s, op, e1, e2).0.failed)
  {
    hide Emit;
    hide Exp2RK;
    var (s1, d1, rk1) := Exp2RK(s, e1);
    var (s2, d2, rk2) := Exp2RK(s1, e2);
    RKGrows(s, e1);
    RKGrows(s1, e2);
    FreeExpsGrows(s2, d1, d2);
    EmitGrows(FreeExps(s2, d1, d2), Binary(op, 0, rk1, rk2));
    hide FreeExps;
  }

  lemma FreeExpsGrows(s: State, d1: Desc, d2: Desc)
    ensures FreeExps(s, d1, d2) == s.(freereg := FreeExps(s, d1, d2).freereg)
  {
  }

  lemma CodeCompGrows(s: State, rel: Rel, e1: Desc, e2: Desc)
    ensures Grows(s, CodeComp(s, rel, e1, e2).0) && |CodeComp(s, rel, e1, e2).0.kst| <= |s.kst| + Cost(e2.k)
    ensures var s2 := Exp2RK(s, e2).0;
      s2.kst == CodeComp(s, rel, e1, e2).0.kst && (s2.failed ==> CodeComp(s, rel, e1, e2).0.failed)
  {
    hide Exp2RK;
    var (s2, d2, rk2) := Exp2RK(s, e2);
    RKGrows(s, e2);
    FreeExpsGrows(s2, e1, d2);
    CondJumpGrows(FreeExps(s2, e1, d2), CompareInstr(rel, OperandRK(e1.k), rk2));
    hide FreeExps;
    hide CondJump;
  }

  lemma AnyRegDesc(s: State, e: Desc)
    ensures Exp2AnyReg(s, e).1.k.VNonReloc?
  {
    NextRegDesc(s, DischargeVars(e));
    hide Exp2NextReg;
  }

  lemma CodeConcatGrows(s: State, e1: Desc, e2: Desc)
    ensures Grows(s, CodeConcat(s, e1, e2).0) && |CodeConcat(s, e1, e2).0.kst| <= |s.kst| + Cost(e2.k)
    ensures CodeConcat(s, e1, e2).1.k.VReloc?
    ensures var (s1, d2) := Exp2Val(s, e2);
      && s1.kst <= CodeConcat(s, e1, e2).0.kst && (s1.failed ==> CodeConcat(s, e1, e2).0.failed)
      && (!CanMergeConcat(s1, d2) ==>
            && Exp2NextReg(s1, d2).0.kst == CodeConcat(s, e1, e2).0.kst
            && (Exp2NextReg(s1, d2).0.failed ==> CodeConcat(s, e1, e2).0.failed))
  {
    hide Exp2Val;
    hide Exp2NextReg;
    hide Emit;
    var (s1, d2) := Exp2Val(s, e2);
    ValGrows(s, e2);
    NextRegGrows(s1, d2);
    var (s2, d3) := Exp2NextReg(s1, d2);
    FreeExpsGrows(s2, e1, d3);
    var r1 := if e1.k.VNonReloc? then e1.k.reg else 0;
    EmitGrows(FreeExps(s2, e1, d3), Concat(0, r1, if d3.k.VNonReloc? then d3.k.reg else 0));
    hide FreeExps;
  }

  // ---------- the driver ----------

  lemma PrefixGrows(m: Machine, s: State, op: UnOp, e: Desc)
    ensures Grows(s, Prefix(m, s, op, e).0)
    ensures |Prefix(m, s, op, e).0.kst| + Cost(Prefix(m, s, op, e).1.k) <= |s.kst| + Cost(e.k)
  {
    hide CodeUnExpVal;
    CodeUnGrows(s, op, e);
    CodeUnKind(s, op, e);
  }

  lemma CodeUnKind(s: State, op: UnOp, e: Desc)
    ensures Cost(CodeUnExpVal(s, op, e).1.k) == 0
  {
  }

  lemma CodeBinKind(s: State, op: ArithOp, e1: Desc, e2: Desc)
    ensures Cost(CodeBinExpVal(s, op, e1, e2).1.k) == 0
  {
    hide Exp2RK;
    hide Emit;
  }

  lemma CodeCompKind(s: State, rel: Rel, e1: Desc, e2: Desc)
    ensures Cost(CodeComp(s, rel, e1, e2).1.k) == 0
  {
    hide Exp2RK;
    hide CondJump;
  }

  lemma InfixGrows(s: State, op: BinOpr, e: Desc)
    ensures var (s', e') := Infix(s, op, e);
      Grows(s, s') && |s'.kst| + (if op.OprAnd? || op.OprOr? then 0 else Cost(e'.k)) <= |s.kst| + Cost(e.k)
  {
    hide GoIfTrue;
    hide GoIfFalse;
    hide Exp2RK;
    hide Exp2NextReg;
    match op
    case OprAnd => GoIfTrueGrows(s, e);
    case OprOr => GoIfFalseGrows(s, e);
    case OprConcat => NextRegGrows(s, e); NextRegDesc(s, e);
    case OprArith(_) => RKGrows(s, e);
    case OprRel(_) => RKGrows(s, e);
  }

  lemma LinkGrows(s: State, a: seq<nat>, b: seq<nat>)
    ensures Grows(s, Link(s, a, b)) && Link(s, a, b).kst == s.kst
  {
  }

  lemma FoldCost(m: Machine, op: BinOpr, e1: Desc, e2: Desc)
    ensures op.OprArith? && ConstFolding(m, PArith(op.op), e1, e2).Some? ==> Cost(e1.k) == 1
    ensures forall k :: Cost(k) <= 1
  {
  }

  lemma PosfixGrows(m: Machine, s: State, op: BinOpr, e1: Desc, e2: Desc)
    ensures var (s', e') := Posfix(m, s, op, e1, e2);
      Grows(s, s')
        && |s'.kst| + Cost(e'.k) <= |s.kst| + (if op.OprAnd? || op.OprOr? then 0 else Cost(e1.k)) + Cost(e2.k)
  {
    hide CodeBinExpVal;
    hide CodeConcat;
    hide CodeComp;
    hide ConstFolding;
    hide Link;
    FoldCost(m, op, e1, e2);
    match op
    case OprAnd => LinkGrows(s, e2.f, e1.f);
    case OprOr => LinkGrows(s, e2.t, e1.t);
    case OprConcat => CodeConcatGrows(s, e1, e2);
    case OprArith(aop) => CodeBinGrows(s, aop, e1, e2); CodeBinKind(s, aop, e1, e2);
    case OprRel(rel) => CodeCompGrows(s, rel, e1, e2); CodeCompKind(s, rel, e1, e2);
  }

  /** Compiling e adds no more constants than the budget of e. */
  lemma {:induction false} CompileGrows(m: Machine, s: State, e: Expr)
    ensures var (s', d) := Compile(m, s, e);
      Grows(s, s') && |s'.kst| + Cost(d.k) <= |s.kst| + Budget(e)
    decreases e
  {
    hide CodeNot;
    hide Prefix;
    hide Infix;
    hide Posfix;
    match e
    case EParen(e1) => CompileGrows(m, s, e1);
    case ENot(e1) =>
      CompileGrows(m, s, e1);
      CodeNotGrows(Compile(m, s, e1).0, Compile(m, s, e1).1);
    case EUnary(op, e1) =>
      CompileGrows(m, s, e1);
      PrefixGrows(m, Compile(m, s, e1).0, op, Compile(m, s, e1).1);
    case EBinary(op, e1, e2) =>
      CompileGrows(m, s, e1);
      var (s1, d1) := Compile(m, s, e1);
      InfixGrows(s1, op, d1);
      var (s2, d1') := Infix(s1, op, d1);
      CompileGrows(m, s2, e2);
      var (s3, d2) := Compile(m, s2, e2);
      PosfixGrows(m, s3, op, d1', d2);
    case _ =>
  }
}
