/** How much code and how many registers a function takes: the compiler refuses nothing that
    stays below its limits. */
module LcodeFits {
  import opened LuaVM
  import opened LuaExpr
  import opened LcodeSpec
  import opened LcodeGrow
  import opened LcodeInv
  import opened LcodePlace
  import opened LcodeOps
  import opened LcodeCond
  import opened LcodeBinary
  import opened LcodeLate
  import opened LcodeCompile
  import opened LcodeMain
  import opened LcodeSteps

  /** A jump offset, a register or a constant index may no longer fit. */
  predicate AtLimit(s: State) {
    |s.code| >= MAXARG_sBx || s.maxstack >= MAXREGS || |s.kst| > MAXARG_Ax
  }

  /** From s to s' there are at most k more instructions, the stack has grown to no more than
      h registers, and nothing was refused unless a limit has been reached. */
  predicate Within(s: State, s': State, k: nat, h: int) {
    && |s.code| <= |s'.code| <= |s.code| + k
    && s.maxstack <= s'.maxstack && (s'.maxstack <= s.maxstack || s'.maxstack <= h)
    && |s.kst| <= |s'.kst|
    && (s'.failed ==> s.failed || AtLimit(s'))
  }

  lemma Then(s: State, s1: State, s2: State, k1: nat, k2: nat, h: int)
    requires Within(s, s1, k1, h) && Within(s1, s2, k2, h)
    ensures Within(s, s2, k1 + k2, h)
  {
  }

  /** Positions in the code. */
  predicate Inside(code: seq<Instr>, l: seq<nat>) {
    forall i :: 0 <= i < |l| ==> l[i] < |code|
  }

  lemma WFInside(s: State, e: Desc, outer: set<nat>)
    requires Core(s, e, outer)
    ensures Inside(s.code, s.jpc) && Inside(s.code, e.t) && Inside(s.code, e.f) && (e.k.VJmp? ==> e.k.pc < |s.code|)
  {
    CoreChains(s, e, outer);
    hide Core;
  }

  lemma WFLevel(s: State, e: Desc, outer: set<nat>)
    requires WF(s, e, outer)
    ensures Core(s, e, outer) && FreeExp(s, e) == s.(freereg := Floor(s, e.k))
    ensures Floor(s, e.k) <= s.freereg <= Floor(s, e.k) + 1
    ensures Floor(s, DischargeVars(e).k) == Floor(s, e.k) && FreeExp(s, DischargeVars(e)) == FreeExp(s, e)
    ensures s.nactvar <= s.freereg <= s.maxstack
  {
    FreeOK(s, e);
  }

  // ---------- jumps and emitting ----------

  lemma {:induction false} PatchFits(s: State, l: seq<nat>, vtarget: int, reg: nat, dtarget: int, h: int)
    requires Inside(s.code, l) && -1 <= vtarget <= |s.code| && -1 <= dtarget <= |s.code|
    ensures Within(s, PatchList(s, l, vtarget, reg, dtarget), 0, h)
    decreases |l|
  {
    if l != [] {
      var s1 := PatchOne(s, l[0], vtarget, reg, dtarget);
      assert Within(s, s1, 0, h);
      PatchFits(s1, l[1..], vtarget, reg, dtarget, h);
    }
  }

  lemma LinkFits(s: State, a: seq<nat>, b: seq<nat>, h: int)
    requires Inside(s.code, a) && Inside(s.code, b)
    ensures Within(s, Link(s, a, b), 0, h)
  {
  }

  lemma EmitFits(s: State, i: Instr, h: int)
    requires Inside(s.code, s.jpc)
    ensures Within(s, Emit(s, i), 1, h) && |Emit(s, i).code| == |s.code| + 1 && Emit(s, i).jpc == []
  {
    PatchFits(s, s.jpc, |s.code|, NO_REG, |s.code|, h);
    hide PatchList;
  }

  lemma JumpFits(s: State, h: int)
    requires Inside(s.code, s.jpc)
    ensures var (s', l) := EmitJump(s);
      Within(s, s', 1, h) && |s'.code| == |s.code| + 1 && s'.jpc == [] && Inside(s'.code, l)
  {
    var s0 := s.(jpc := []);
    EmitFits(s0, Jmp(NO_JUMP), h);
    LinkFits(Emit(s0, Jmp(NO_JUMP)), [|s.code|], s.jpc, h);
    hide Emit;
  }

  lemma CondJumpFits(s: State, i: Instr, h: int)
    requires Inside(s.code, s.jpc)
    ensures var (s', l) := CondJump(s, i);
      Within(s, s', 2, h) && |s'.code| == |s.code| + 2 && s'.jpc == [] && Inside(s'.code, l)
  {
    EmitFits(s, i, h);
    JumpFits(Emit(s, i), h);
    hide Emit;
    hide EmitJump;
  }

  lemma ToHereFits(s: State, l: seq<nat>, h: int)
    requires Inside(s.code, s.jpc) && Inside(s.code, l)
    ensures Within(s, PatchToHere(s, l), 0, h)
  {
    LinkFits(GetLabel(s), s.jpc, l, h);
  }

  // ---------- placing values ----------

  lemma ConstFits(s: State, v: Value, h: int)
    ensures Within(s, AddK(s, v).0, 0, h) && AddK(s, v).0.code == s.code && AddK(s, v).0.jpc == s.jpc
    ensures AddK(s, v).0.freereg == s.freereg
  {
  }

  lemma LoadFits(s: State, v: Value, reg: nat, h: int)
    requires Inside(s.code, s.jpc)
    ensures Within(s, LoadConst(s, v, reg), 1, h)
  {
    var (s1, k) := AddK(s, v);
    ConstFits(s, v, h);
    EmitFits(s1, LoadK(reg, k), h);
    hide AddK;
    hide Emit;
  }

  lemma PlaceFits(s: State, e: Desc, reg: nat, h: int)
    requires Inside(s.code, s.jpc)
    ensures Within(s, Discharge2Reg(s, e, reg).0, 1, h)
  {
    match DischargeVars(e).k
    case VNil => EmitFits(s, LoadNil(reg, 0), h); hide Emit;
    case VFalse => EmitFits(s, LoadBool(reg, false, false), h); hide Emit;
    case VTrue => EmitFits(s, LoadBool(reg, true, false), h); hide Emit;
    case VK(info) => EmitFits(s, LoadK(reg, info), h); hide Emit;
    case VKFlt(x) => LoadFits(s, Number(F(x)), reg, h); hide LoadConst;
    case VKInt(i) => LoadFits(s, Number(I(i)), reg, h); hide LoadConst;
    case VNonReloc(r) => EmitFits(s, Move(reg, r), h); hide Emit;
    case _ =>
  }

  lemma PlaceJpc(s: State, e: Desc, reg: nat)
    requires Inside(s.code, s.jpc)
    ensures Inside(Discharge2Reg(s, e, reg).0.code, Discharge2Reg(s, e, reg).0.jpc)
  {
  }

  lemma BoolsFits(s: State, isJump: bool, reg: nat, h: int)
    requires Inside(s.code, s.jpc)
    ensures Within(s, LoadBools(s, isJump, reg), 3, h) && |LoadBools(s, isJump, reg).code| >= 2
  {
    hide Emit;
    hide EmitJump;
    var (s1, fj) := if isJump then (s, []) else EmitJump(s);
    JumpFits(s, h);
    EmitFits(GetLabel(s1), LoadBool(reg, false, true), h);
    var s2 := EmitLoadBool(s1, reg, false, true);
    EmitFits(GetLabel(s2), LoadBool(reg, true, false), h);
    ToHereFits(EmitLoadBool(s2, reg, true, false), fj, h);
    hide PatchToHere;
  }

  lemma FinishFits(s: State, t: seq<nat>, f: seq<nat>, reg: nat, pf: int, pt: int, h: int)
    requires Inside(s.code, t) && Inside(s.code, f) && -1 <= pf <= |s.code| && -1 <= pt <= |s.code|
    ensures Within(s, FinishLists(s, t, f, reg, pf, pt), 0, h)
  {
    var s1, n := GetLabel(s), |s.code|;
    PatchFits(s1, f, n, reg, pf, h);
    PatchFits(PatchList(s1, f, n, reg, pf), t, n, reg, pt, h);
    hide PatchList;
  }

  lemma CloseFits(s: State, isJump: bool, t: seq<nat>, f: seq<nat>, reg: nat, h: int)
    requires Inside(s.code, s.jpc) && Inside(s.code, t) && Inside(s.code, f)
    ensures Within(s, CloseLists(s, isJump, t, f, reg), 3, h)
  {
    hide LoadBools;
    hide FinishLists;
    BoolsFits(s, isJump, reg, h);
    var s1 := LoadBools(s, isJump, reg);
    FinishFits(s1, t, f, reg, |s1.code| - 2, |s1.code| - 1, h);
    FinishFits(s, t, f, reg, NO_JUMP, NO_JUMP, h);
  }

  lemma Exp2RegFits(s: State, e: Desc, reg: nat, h: int)
    requires Inside(s.code, s.jpc) && Inside(s.code, e.t) && Inside(s.code, e.f) && (e.k.VJmp? ==> e.k.pc < |s.code|)
    ensures Within(s, Exp2Reg(s, e, reg).0, 4, h)
  {
    hide CloseLists;
    hide Discharge2Reg;
    PlaceFits(s, e, reg, h);
    PlaceJpc(s, e, reg);
    PlaceKind(s, e, reg);
    var (s1, e1) := Discharge2Reg(s, e, reg);
    var (s2, t2) := if e1.k.VJmp? then (Link(s1, e1.t, [e1.k.pc]), e1.t + [e1.k.pc]) else (s1, e1.t);
    if e1.k.VJmp? {
      LinkFits(s1, e1.t, [e1.k.pc], h);
    }
    CloseFits(s2, e1.k.VJmp?, t2, e1.f, reg, h);
  }

  lemma PlaceKind(s: State, e: Desc, reg: nat)
    ensures var e1 := Discharge2Reg(s, e, reg).1; e1.t == e.t && e1.f == e.f && (e1.k.VJmp? ==> e1.k == e.k)
  {
  }

  // ---------- operands ----------

  lemma NextRegFits(s: State, e: Desc, outer: set<nat>, h: int)
    requires WF(s, e, outer) && Floor(s, e.k) < h
    ensures Within(s, Exp2NextReg(s, e).0, 4, h)
  {
    hide Exp2Reg;
    hide WF;
    hide Core;
    WFLevel(s, e, outer);
    WFInside(s, e, outer);
    var e1 := DischargeVars(e);
    var s1 := Reserve(FreeExp(s, e1), 1);
    assert Within(s, s1, 0, h);
    Exp2RegFits(s1, e1, s1.freereg - 1, h);
  }

  lemma AnyRegFits(m: Machine, s: State, e: Desc, outer: set<nat>, h: int)
    requires WF(s, e, outer) && Floor(s, e.k) < h
    ensures Within(s, Exp2AnyReg(s, e).0, 4, h)
  {
    hide Exp2Reg;
    hide Exp2NextReg;
    hide WF;
    hide Core;
    var e1 := DischargeVars(e);
    WFLevel(s, e, outer);
    WFInside(s, e, outer);
    VarsWF(m, s, e, outer);
    NextRegFits(s, e1, outer, h);
    if e1.k.VNonReloc? {
      Exp2RegFits(s, e1, e1.k.reg, h);
    }
  }

  lemma ValFits(m: Machine, s: State, e: Desc, outer: set<nat>, h: int)
    requires WF(s, e, outer) && Floor(s, e.k) < h
    ensures Within(s, Exp2Val(s, e).0, if HasJumps(e) then 4 else 0, h)
  {
    hide Exp2AnyReg;
    AnyRegFits(m, s, e, outer, h);
  }

  lemma RKFits(m: Machine, s: State, e: Desc, outer: set<nat>, h: int)
    requires WF(s, e, outer) && Floor(s, e.k) < h
    ensures Within(s, Exp2RK(s, e).0, 4, h)
  {
    hide WF;
    hide AddK;
    hide Exp2AnyReg;
    hide Exp2Val;
    var (s1, e1) := Exp2Val(s, e);
    var v := ConstantOf(e1.k);
    RKSteps(m, s, e, outer);
    ValFits(m, s, e, outer, h);
    ValWF(m, s, e, outer);
    if v.Some? {
      ConstFits(s1, v.value, h);
    }
    var (s2, e2) := if v.Some? then (AddK(s1, v.value).0, e1.(k := VK(AddK(s1, v.value).1))) else (s1, e1);
    if v.Some? {
      AddKSound(s1, v.value);
    }
    RKInner(m, s, e, s1, e1, s2, e2, outer, h);
  }

  /** The value is either in a register already, or had no jumps. */
  lemma RKInner(m: Machine, s: State, e: Desc, s1: State, e1: Desc, s2: State, e2: Desc, outer: set<nat>, h: int)
    requires (s1, e1) == Exp2Val(s, e) && WF(s, e, outer) && WF(s2, e2, outer)
    requires Floor(s1, e1.k) == Floor(s, e.k) < h && s2.freereg == s1.freereg && s2.nactvar == s1.nactvar
    requires Within(s, s1, if HasJumps(e) then 4 else 0, h) && Within(s1, s2, 0, h)
    requires if ConstantOf(e1.k).Some? then e2.k.VK? && e2 == e1.(k := e2.k) else (s2, e2) == (s1, e1)
    ensures Within(s, Exp2AnyReg(s2, e2).0, 4, h) && Within(s, s2, 4, h)
  {
    hide WF;
    AnyRegFits(m, s2, e2, outer, h);
    if HasJumps(e) {
      AnyRegWF(m, s, e, outer);
      hide Exp2NextReg;
      hide Exp2Reg;
    } else {
      hide Exp2AnyReg;
    }
  }

  lemma AnyPlaceFits(s: State, e: Desc, outer: set<nat>, h: int)
    requires WF(s, e, outer) && Floor(s, e.k) < h
    ensures Within(s, Discharge2AnyReg(s, e).0, 1, h)
  {
    hide Discharge2Reg;
    hide Core;
    WFLevel(s, e, outer);
    WFInside(s, e, outer);
    var s1 := Reserve(s, 1);
    PlaceFits(s1, e, s1.freereg - 1, h);
  }

  // ---------- conditions ----------

  lemma JumpOnCondFits(m: Machine, s: State, e: Desc, cond: bool, outer: set<nat>, h: int)
    requires WF(s, e, outer) && !e.k.VJmp? && !e.k.VLocal? && Floor(s, e.k) < h
    ensures var (s', k, l) := JumpOnCond(s, e, cond);
      Within(s, s', 3, h) && s'.jpc == [] && Inside(s'.code, l)
  {
    hide CondJump;
    hide Discharge2AnyReg;
    hide WF;
    hide Core;
    hide Base;
    var n := |s.code|;
    WFCore(s, e, outer);
    if e.k.VReloc? && n > 0 && s.code[n - 1].Not? {
      NotSettled(s, e, outer);
      CondJumpFits(s.(code := s.code[..n - 1]), Test(s.code[n - 1].b, !cond), h);
    } else {
      var (s1, e1) := Discharge2AnyReg(s, e);
      AnyPlaceFits(s, e, outer, h);
      AnyPlaceWF(m, s, e, outer);
      WFLevel(s1, e1, outer);
      WFInside(s1, e1, outer);
      CondJumpFits(FreeExp(s1, e1), TestSet(NO_REG, e1.k.reg, cond), h);
    }
  }

  /** No jump leads behind the instruction of a delayed value. */
  lemma NotSettled(s: State, e: Desc, outer: set<nat>)
    requires WF(s, e, outer) && e.k.VReloc?
    ensures s.jpc == []
  {
  }

  lemma BranchFits(m: Machine, s: State, e: Desc, cond: bool, outer: set<nat>, h: int)
    requires WF(s, e, outer) && !e.k.VLocal? && Floor(s, e.k) < h
    ensures var (s', k, l) := Branch(s, e, cond);
      Within(s, s', 3, h) && Inside(s'.code, s'.jpc) && Inside(s'.code, l)
  {
    hide JumpOnCond;
    hide WF;
    hide Core;
    WFCore(s, e, outer);
    WFInside(s, e, outer);
    if !e.k.VJmp? {
      JumpOnCondFits(m, s, e, cond, outer, h);
    }
  }

  lemma GoIfFits(m: Machine, s: State, e: Desc, cond: bool, outer: set<nat>, h: int)
    requires WF(s, e, outer) && Floor(s, e.k) < h
    ensures Within(s, GoIf(s, e, cond).0, 3, h)
  {
    hide Branch;
    hide GoIf;
    hide Link;
    hide PatchToHere;
    hide WF;
    hide Core;
    var e1 := DischargeVars(e);
    var (s1, k, l) := Branch(s, e1, cond);
    VarsWF(m, s, e, outer);
    WFLevel(s, e, outer);
    WFCore(s, e1, outer);
    WFInside(s, e1, outer);
    GoIfBranch(s, e, cond);
    BranchFits(m, s, e1, cond, outer, h);
    var a, b := Joined(e1, cond), Joined(e1, !cond);
    LinkFits(s1, a, l, h);
    LinkJpc(s1, a, l);
    ToHereFits(Link(s1, a, l), b, h);
  }

  lemma LinkJpc(s: State, a: seq<nat>, b: seq<nat>)
    ensures Link(s, a, b).jpc == s.jpc && |Link(s, a, b).code| == |s.code|
  {
  }

  lemma CodeNotFits(m: Machine, s: State, e: Desc, outer: set<nat>, h: int)
    requires WF(s, e, outer) && Floor(s, e.k) < h
    ensures Within(s, CodeNot(s, e).0, 2, h)
  {
    hide Discharge2AnyReg;
    hide Emit;
    hide RemoveValues;
    hide WF;
    hide Core;
    var e1 := DischargeVars(e);
    VarsWF(m, s, e, outer);
    WFLevel(s, e, outer);
    if !e1.k.VJmp? {
      var (s1, d) := Discharge2AnyReg(s, e1);
      AnyPlaceFits(s, e1, outer, h);
      AnyPlaceWF(m, s, e1, outer);
      WFLevel(s1, d, outer);
      WFInside(s1, d, outer);
      EmitFits(FreeExp(s1, d), Not(0, d.k.reg), h);
    }
  }

  // ---------- operators ----------

  lemma PrefixFits(m: Machine, s: State, op: UnOp, e: Desc, outer: set<nat>, h: int)
    requires WF(s, e, outer) && Floor(s, e.k) < h
    ensures Within(s, Prefix(m, s, op, e).0, 5, h)
  {
    hide Exp2AnyReg;
    hide Emit;
    hide ConstFolding;
    hide WF;
    hide Core;
    var (s1, d) := Exp2AnyReg(s, e);
    AnyRegFits(m, s, e, outer, h);
    AnyRegWF(m, s, e, outer);
    WFLevel(s1, d, outer);
    WFInside(s1, d, outer);
    EmitFits(FreeExp(s1, d), Unary(op, 0, d.k.reg), h);
  }

  lemma InfixFits(m: Machine, s: State, op: BinOpr, e: Desc, outer: set<nat>, h: int)
    requires WF(s, e, outer) && Floor(s, e.k) < h
    ensures Within(s, Infix(s, op, e).0, 4, h)
  {
    hide GoIf;
    hide GoIfTrue;
    hide GoIfFalse;
    hide Exp2RK;
    hide Exp2NextReg;
    hide WF;
    match op
    case OprAnd => GoIfFits(m, s, e, false, outer, h); GoIfIs(s, e, false);
    case OprOr => GoIfFits(m, s, e, true, outer, h); GoIfIs(s, e, true);
    case OprConcat => NextRegFits(s, e, outer, h);
    case OprArith(_) => RKFits(m, s, e, outer, h);
    case OprRel(_) => RKFits(m, s, e, outer, h);
  }

  /** At most the first operand holds a register when the second one is compiled. */
  lemma InfixLevel(m: Machine, s: State, op: BinOpr, e: Desc, outer: set<nat>)
    requires WF(s, e, outer) && Testable(s, e.k)
    ensures Infix(s, op, e).0.freereg <= Floor(s, e.k) + if Strict(op) then 1 else 0
    ensures var k := Infix(s, op, e).1.k;
      Strict(op) && (k.VKInt? || k.VKFlt?) ==> Infix(s, op, e).0.freereg == Floor(s, e.k)
  {
    hide Infix;
    hide WF;
    if Strict(op) {
      var (s', d') := Infix(s, op, e);
      var c := FromStart(m, s'.kst);
      WFCore(s, e, outer);
      hide Core;
      StartedHere(m, c.kst, s, e, outer);
      InfixKeeps(c, s, op, e, outer);
    } else {
      ShortInfix(s, op, e);
      GoIfWF(m, s, e, op.OprOr?, outer);
    }
  }

  /** A settled operand adds no code. */
  lemma FirstFits(s: State, d: Desc, h: int)
    requires Settled(s, d)
    ensures Within(s, Exp2RK(s, d).0, 0, h) && Exp2RK(s, d).0.freereg == s.freereg
    ensures Exp2RK(s, d).0.nactvar == s.nactvar
  {
    var v := ConstantOf(d.k);
    if v.Some? {
      ConstFits(s, v.value, h);
    }
    hide AddK;
  }

  lemma CodeBinFits(m: Machine, s: State, op: ArithOp, d: Desc, e: Desc, outer: set<nat>, h: int)
    requires WF(s, e, outer) && OperandOK(s, d, e) && Floor(s, e.k) == s.freereg
    requires s.freereg + (if Named(s, d) then 0 else 1) < h
    ensures Within(s, CodeBinExpVal(s, op, d, e).0, 9, h)
  {
    hide Exp2RK;
    hide Emit;
    hide WF;
    hide Core;
    var (s1, d1, rk1) := Exp2RK(s, d);
    var (s2, e2, rk2) := Exp2RK(s1, e);
    BinSteps(m, s, op, d, e, outer);
    var (u, eu) := Second(s, d, e);
    SecondFits(s, d, e, outer, h);
    hide Second;
    RKFits(m, u, eu, outer, h);
    WFCore(s2, e2, outer);
    WFInside(s2, e2, outer);
    FreeExpsGrows(s2, d1, e2);
    var s3 := FreeExps(s2, d1, e2);
    hide FreeExps;
    EmitFits(s3, Binary(op, 0, rk1, rk2), h);
  }

  /** The first operand needs no code, or one load. */
  lemma SecondFits(s: State, d: Desc, e: Desc, outer: set<nat>, h: int)
    requires WF(s, e, outer) && OperandOK(s, d, e) && s.freereg + (if Named(s, d) then 0 else 1) < h
    requires Named(s, d) ==> Settled(s, d)
    ensures Within(s, Second(s, d, e).0, 1, h)
  {
    hide Exp2RK;
    hide Emit;
    hide AddK;
    hide WF;
    if Named(s, d) {
      FirstFits(s, d, h);
    } else {
      LateCode(s, d);
      var v := ConstantOf(d.k).value;
      ConstFits(s, v, h);
      AddKSound(s, v);
      WFCore(s, e, outer);
      WFInside(s, e, outer);
      var t := BeforeLoad(s, d);
      assert Within(s, t, 0, h);
      EmitFits(t, LoadOf(s, d), h);
      EmitGrows(t, LoadOf(s, d));
    }
  }

  lemma CodeCompFits(m: Machine, s: State, rel: Rel, d: Desc, e: Desc, outer: set<nat>, h: int)
    requires WF(s, e, outer) && OperandOK(s, d, e) && Floor(s, e.k) < h
    ensures Within(s, CodeComp(s, rel, d, e).0, 6, h)
  {
    hide Exp2RK;
    hide CondJump;
    hide WF;
    hide Core;
    var (s2, e2, rk2) := Exp2RK(s, e);
    CompSteps(m, s, d, e, outer);
    RKFits(m, s, e, outer, h);
    WFCore(s2, e2, outer);
    WFInside(s2, e2, outer);
    FreeExpsGrows(s2, d, e2);
    var s3 := FreeExps(s2, d, e2);
    hide FreeExps;
    CondJumpFits(s3, CompareInstr(rel, OperandRK(d.k), rk2), h);
  }

  lemma CodeConcatFits(m: Machine, s: State, d: Desc, e: Desc, outer: set<nat>, h: int)
    requires WF(s, e, outer) && ConcatOperand(s, d, e) && ConcatShape(s, e.k) && Floor(s, e.k) < h
    ensures Within(s, CodeConcat(s, d, e).0, 9, h)
  {
    hide Exp2Val;
    hide Exp2NextReg;
    hide Emit;
    hide WF;
    hide Core;
    var (s1, e1) := Exp2Val(s, e);
    ConcatSteps(m, s, d, e, outer);
    ValFits(m, s, e, outer, h);
    if !CanMergeConcat(s1, e1) {
      var (s2, e2) := Exp2NextReg(s1, e1);
      ValWF(m, s, e, outer);
      NextRegFits(s1, e1, outer, h);
      WFCore(s2, e2, outer);
      WFInside(s2, e2, outer);
      FreeExpsGrows(s2, d, e2);
      var s3 := FreeExps(s2, d, e2);
      hide FreeExps;
      EmitFits(s3, Concat(0, d.k.reg, e2.k.reg), h);
    }
  }

  lemma PosfixFits(m: Machine, s: State, op: BinOpr, d: Desc, e: Desc, waiting: set<nat>, h: int)
    requires Operands(m, s, op, d, e, waiting) && Floor(s, e.k) < h
    requires op.OprArith? && !Named(s, d) ==> s.freereg + 1 < h
    requires Inside(s.code, d.t) && Inside(s.code, d.f)
    ensures Within(s, Posfix(m, s, op, d, e).0, 9, h)
  {
    hide WF;
    hide Core;
    hide CodeBinExpVal;
    hide CodeConcat;
    hide CodeComp;
    hide ConstFolding;
    WFCore(s, e, waiting);
    WFInside(s, e, waiting);
    match op
    case OprAnd => LinkFits(s, e.f, d.f, h);
    case OprOr => LinkFits(s, e.t, d.t, h);
    case OprConcat => CodeConcatFits(m, s, d, e, waiting, h);
    case OprArith(aop) =>
      if ConstFolding(m, PArith(aop), d, e).None? {
        CodeBinFits(m, s, aop, d, e, waiting, h);
      }
    case OprRel(rel) => CodeCompFits(m, s, rel, d, e, waiting, h);
  }

  // ---------- expressions ----------

  /** The registers that an expression takes above the first free one: only operands to the
      right of a strict operator wait for another one in a register. */
  function Need(e: Expr): (n: nat)
    ensures n >= 1
  {
    match e
    case EParen(e1) => Need(e1)
    case ENot(e1) => Need(e1)
    case EUnary(_, e1) => Need(e1)
    case EBinary(op, e1, e2) =>
      var n1, n2 := Need(e1), Need(e2) + if Strict(op) then 1 else 0;
      if n1 > n2 then n1 else n2
    case _ => 1
  }

  /** An upper bound for the instructions of an expression. */
  function Length(e: Expr): nat {
    match e
    case EParen(e1) => Length(e1)
    case ENot(e1) => Length(e1) + 2
    case EUnary(_, e1) => Length(e1) + 5
    case EBinary(_, e1, e2) => Length(e1) + Length(e2) + 13
    case _ => 0
  }

  lemma {:induction false} CompileFits(m: Machine, s: State, e: Expr, outer: set<nat>, h: int)
    requires WF(s, Fresh, outer) && Proper(e, s.nactvar)
    requires s.freereg + Need(e) <= h
    ensures Within(s, Compile(m, s, e).0, Length(e), h)
    decreases e
  {
    hide WF;
    hide CodeNot;
    hide Prefix;
    match e
    case EParen(e1) => CompileFits(m, s, e1, outer, h);
    case ENot(e1) =>
      CompileWF(m, s, e1, outer);
      CompileFits(m, s, e1, outer, h);
      CodeNotFits(m, Compile(m, s, e1).0, Compile(m, s, e1).1, outer, h);
    case EUnary(op, e1) =>
      CompileWF(m, s, e1, outer);
      CompileFits(m, s, e1, outer, h);
      PrefixFits(m, Compile(m, s, e1).0, op, Compile(m, s, e1).1, outer, h);
    case EBinary(op, e1, e2) => BinaryFits(m, s, op, e1, e2, outer, h);
    case EString(str) => ConstFits(s, Str(str), h);
    case _ =>
  }

  lemma {:induction false} BinaryFits(m: Machine, s: State, op: BinOpr, e1: Expr, e2: Expr, outer: set<nat>, h: int)
    requires WF(s, Fresh, outer) && Proper(EBinary(op, e1, e2), s.nactvar)
    requires s.freereg + Need(EBinary(op, e1, e2)) <= h
    ensures Within(s, Compile(m, s, EBinary(op, e1, e2)).0, Length(EBinary(op, e1, e2)), h)
    decreases EBinary(op, e1, e2), 0
  {
    hide WF;
    hide Infix;
    hide Posfix;
    hide Operands;
    hide Within;
    hide Compile;
    hide Named;
    hide Testable;
    hide Advance;
    hide ConcatShape;
    hide Inside;
    hide HasJumps;
    hide Elems;
    BinaryParts(m, s, op, e1, e2);
    var (s1, d1) := Compile(m, s, e1);
    var (s2, d1') := Infix(s1, op, d1);
    var (s3, d2) := Compile(m, s2, e2);
    BinarySteps(m, s, op, e1, e2, outer);
    CompileWF(m, s, e1, outer);
    CompileFits(m, s, e1, outer, h);
    InfixFits(m, s1, op, d1, outer, h);
    InfixLevel(m, s1, op, d1, outer);
    var waiting := outer + if op.OprAnd? then Elems(d1'.f) else if op.OprOr? then Elems(d1'.t) else {};
    CompileWF(m, s2, e2, waiting);
    CompileFits(m, s2, e2, waiting, h);
    FirstInside(m, s1, op, d1, outer);
    Longer(s2, s3, Length(e2), h, d1');
    PosfixAfter(m, s, op, d1', s2, s3, d2, waiting, h, Need(e2));
    Then(s, s1, s2, Length(e1), 4, h);
    Then(s, s2, s3, Length(e1) + 4, Length(e2), h);
    Then(s, s3, Posfix(m, s3, op, d1', d2).0, Length(e1) + 4 + Length(e2), 9, h);
  }

  lemma PosfixAfter(m: Machine, s: State, op: BinOpr, d: Desc, s2: State, s3: State, d2: Desc, waiting: set<nat>,
                    h: int,
                    need: int)
    requires WF(s3, d2, waiting) && Operands(m, s3, op, d, d2, waiting) && Inside(s3.code, d.t) && Inside(s3.code, d.f)
    requires Floor(s3, d2.k) == s3.freereg == s2.freereg
    requires Strict(op) && (d.k.VKInt? || d.k.VKFlt?) ==> s2.freereg == s.freereg
    requires need >= 1 && s.freereg + need + (if Strict(op) then 1 else 0) <= h && s3.freereg < h
    ensures Within(s3, Posfix(m, s3, op, d, d2).0, 9, h)
  {
    hide WF;
    hide Posfix;
    hide Operands;
    hide Named;
    hide Inside;
    WFLevel(s3, d2, waiting);
    LateRoom(s, op, d, s2, s3, d2, h, need);
    PosfixFits(m, s3, op, d, d2, waiting, h);
  }

  /** A numeral that is still to be loaded has taken no register before. */
  lemma LateRoom(s: State, op: BinOpr, d: Desc, s2: State, s3: State, d2: Desc, h: int, need: int)
    requires Floor(s3, d2.k) == s3.freereg == s2.freereg
    requires Strict(op) && (d.k.VKInt? || d.k.VKFlt?) ==> s2.freereg == s.freereg
    requires need >= 1 && s.freereg + need + (if Strict(op) then 1 else 0) <= h && s3.nactvar <= s3.freereg
    ensures op.OprArith? && !Named(s3, d) ==> s3.freereg + 1 < h
  {
  }

  lemma Longer(s: State, s': State, k: nat, h: int, d: Desc)
    requires Within(s, s', k, h) && Inside(s.code, d.t) && Inside(s.code, d.f)
    ensures Inside(s'.code, d.t) && Inside(s'.code, d.f)
  {
  }

  lemma FirstInside(m: Machine, s: State, op: BinOpr, e: Desc, outer: set<nat>)
    requires WF(s, e, outer) && Testable(s, e.k)
    ensures var (s', d') := Infix(s, op, e); Inside(s'.code, d'.t) && Inside(s'.code, d'.f)
  {
    hide Infix;
    hide WF;
    var (s', d') := Infix(s, op, e);
    if Strict(op) {
      StrictSteps(m, s, op, e, outer);
      WFCore(s', d', outer);
      WFInside(s', d', outer);
    } else {
      ShortInfix(s, op, e);
      GoIfWF(m, s, e, op.OprOr?, outer);
      ChainJumps(s'.code, d'.t);
      ChainJumps(s'.code, d'.f);
    }
  }

  // ---------- functions ----------

  function BodyLength(b: Body): nat {
    match b
    case Ret(e) => Length(e) + 5
    case Seq(st, rest) => Length(st.e) + 4 + BodyLength(rest)
  }

  /** The registers of a body with n active locals. */
  function BodyNeed(b: Body, n: nat): nat {
    match b
    case Ret(e) => n + Need(e)
    case Seq(st, rest) =>
      var n1, n2 := n + Need(st.e), BodyNeed(rest, Locals(st, n));
      if n1 > n2 then n1 else n2
  }

  lemma StmtFits(m: Machine, s: State, st: Stmt, h: int)
    requires WF(s, Fresh, {}) && s.freereg == s.nactvar && ProperStmt(st, s.nactvar)
    requires s.nactvar + Need(st.e) <= h
    ensures var s' := CompileStmt(m, s, st);
      WF(s', Fresh, {}) && s'.freereg == s'.nactvar && Within(s, s', Length(st.e) + 4, h)
  {
    hide WF;
    hide Core;
    hide Compile;
    hide Exp2Reg;
    hide Exp2NextReg;
    var (s1, d) := Compile(m, s, st.e);
    CompileWF(m, s, st.e, {});
    CompileFits(m, s, st.e, {}, h);
    match st
    case Local(e) =>
      LocalIdle(m, s, e);
      NextRegFits(s1, d, {}, h);
    case Assign(r, e) =>
      AssignIdle(m, s, r, e);
      WFLevel(s1, d, {});
      WFInside(s1, d, {});
      Exp2RegFits(FreeExp(s1, d), d, r, h);
  }

  lemma ReturnFits(m: Machine, s: State, e: Expr, h: int)
    requires WF(s, Fresh, {}) && s.freereg == s.nactvar && Proper(e, s.nactvar)
    requires s.nactvar + Need(e) <= h
    ensures Within(s, CompileReturn(m, s, e), Length(e) + 5, h)
  {
    hide WF;
    hide Core;
    hide Compile;
    hide Exp2AnyReg;
    hide Emit;
    var (s1, d) := Compile(m, s, e);
    CompileWF(m, s, e, {});
    CompileFits(m, s, e, {}, h);
    var (s2, d2) := Exp2AnyReg(s1, d);
    AnyRegFits(m, s1, d, {}, h);
    AnyRegWF(m, s1, d, {});
    WFCore(s2, d2, {});
    WFInside(s2, d2, {});
    EmitFits(s2, Return(d2.k.reg, 2), h);
  }

  lemma {:induction false} BodyFits(m: Machine, s: State, b: Body, h: int)
    requires WF(s, Fresh, {}) && s.freereg == s.nactvar && ProperBody(b, s.nactvar)
    requires BodyNeed(b, s.nactvar) <= h
    ensures Within(s, CompileBody(m, s, b), BodyLength(b), h)
    decreases b
  {
    hide WF;
    hide CompileStmt;
    hide CompileReturn;
    match b
    case Ret(e) => ReturnFits(m, s, e, h);
    case Seq(st, rest) =>
      StmtGrows(m, s, st);
      StmtFits(m, s, st, h);
      BodyFits(m, CompileStmt(m, s, st), rest, h);
  }

  /** A stack that is too high has been refused. */
  lemma {:induction false} BodyStack(m: Machine, s: State, b: Body)
    requires WF(s, Fresh, {}) && s.freereg == s.nactvar && ProperBody(b, s.nactvar)
    ensures var s' := CompileBody(m, s, b); s'.failed || s'.maxstack < MAXREGS
    decreases b
  {
    hide WF;
    hide CompileStmt;
    match b
    case Ret(e) => ReturnStack(m, s, e);
    case Seq(st, rest) =>
      StmtGrows(m, s, st);
      StmtFits(m, s, st, s.nactvar + Need(st.e));
      BodyStack(m, CompileStmt(m, s, st), rest);
  }

  lemma ReturnStack(m: Machine, s: State, e: Expr)
    requires WF(s, Fresh, {}) && Proper(e, s.nactvar)
    ensures var s' := CompileReturn(m, s, e); s'.failed || s'.maxstack < MAXREGS
  {
    hide WF;
    hide Compile;
    hide Exp2AnyReg;
    hide Emit;
    var (s1, d) := Compile(m, s, e);
    CompileWF(m, s, e, {});
    var (s2, d2) := Exp2AnyReg(s1, d);
    AnyRegWF(m, s1, d, {});
    StackKnown(s2, d2);
    EmitGrows(s2, Return(d2.k.reg, 2));
  }

  lemma StackKnown(s: State, d: Desc)
    requires WF(s, d, {})
    ensures s.failed || s.maxstack < MAXREGS
  {
  }

  /** The code of a function is no longer than its length bound, its stack no higher than its
      need and its constants no more than its leaves and negations; the generator refuses it if
      the stack reaches its limit, and only at a limit. */
  lemma FunctionFits(m: Machine, b: Body, n: nat, cache: map<Key, Slot>)
    requires ProperBody(b, n) && n < MAXREGS
    ensures var s' := CompileBody(m, Opened(n, cache), b);
      && |s'.code| <= BodyLength(b) && (s'.maxstack <= 2 || s'.maxstack <= BodyNeed(b, n))
      && (s'.maxstack >= MAXREGS ==> s'.failed)
      && |s'.kst| <= BodyBudget(b) <= BodyLength(b) && (s'.failed ==> AtLimit(s'))
  {
    OpenedIdle(m, n, cache);
    NeedAbove(b, n);
    BodyGrows(m, Opened(n, cache), b);
    BudgetLength(b);
    hide WF;
    hide CompileBody;
    BodyFits(m, Opened(n, cache), b, BodyNeed(b, n));
    BodyStack(m, Opened(n, cache), b);
  }

  lemma {:induction false} BudgetLength(b: Body)
    ensures BodyBudget(b) <= BodyLength(b)
  {
    match b
    case Ret(e) => LeafLength(e);
    case Seq(st, rest) =>
      LeafLength(st.e);
      BudgetLength(rest);
  }

  lemma {:induction false} LeafLength(e: Expr)
    ensures Budget(e) <= Length(e) + 1
  {
    match e
    case EParen(e1) => LeafLength(e1);
    case ENot(e1) => LeafLength(e1);
    case EUnary(_, e1) => LeafLength(e1);
    case EBinary(_, e1, e2) =>
      LeafLength(e1);
      LeafLength(e2);
    case _ =>
  }

  lemma {:induction false} NeedAbove(b: Body, n: nat)
    ensures BodyNeed(b, n) > n
  {
  }

  /** The compiler accepts a body, with `used` C levels in use. */
  predicate Accepted(m: Machine, b: Body, n: nat, cache: map<Key, Slot>, used: nat)
    requires n < MAXREGS
  {
    !Refused(b, n, used) && !CompileBody(m, Opened(n, cache), b).failed
  }

  /** A body of moderate length is refused if and only if it nests too deep, has too many
      locals, or needs too many registers. */
  lemma AcceptedExactly(m: Machine, b: Body, n: nat, cache: map<Key, Slot>, used: nat)
    requires ProperBody(b, n) && n < MAXREGS && BodyLength(b) < MAXARG_sBx
    ensures Accepted(m, b, n, cache, used) <==>
      used + BodyLevels(b) <= MAXCCALLS && BodyVars(b, n) <= MAXVARS
      && CompileBody(m, Opened(n, cache), b).maxstack < MAXREGS
  {
    hide CompileBody;
    FunctionFits(m, b, n, cache);
  }

  /** A body below the limits is accepted, and then the machine does what it means. */
  lemma SmallFunctionSound(m: Machine, b: Body, n: nat, cache: map<Key, Slot>, used: nat, regs: Regs, w: World)
    requires ProperBody(b, n) && BodyBudget(b) <= MAXINDEXRK + 1
    requires used + BodyLevels(b) <= MAXCCALLS && BodyVars(b, n) <= MAXVARS
    requires BodyNeed(b, n) < MAXREGS && BodyLength(b) < MAXARG_sBx
    ensures n < MAXREGS && Accepted(m, b, n, cache, used)
    ensures var s' := CompileBody(m, Opened(n, cache), b);
      Halts(Exec(m, s'.kst, s'.code, |s'.code|, 0, regs, w), EvalBody(m, b, n, At(regs, w)))
  {
    NeedAbove(b, n);
    SmallLoadable(m, b, n, cache);
    FunctionFits(m, b, n, cache);
    FunctionSound(m, b, n, cache, regs, w);
    hide Exec;
    hide Halts;
    hide EvalBody;
    hide CompileBody;
  }

  /** Two hundred and fifty negations are too deep, two hundred and forty locals too many. */
  lemma RefusedInputs(used: nat)
    ensures Refused(Ret(Nots(250)), 1, used) && Refused(Locals0(240), 1, used)
  {
    NotsLevels(250);
    LocalsCount(240, 1);
  }

  function Nots(k: nat): Expr {
    if k == 0 then ELocal(0) else ENot(Nots(k - 1))
  }

  lemma {:induction false} NotsLevels(k: nat)
    ensures Levels(Nots(k)) == k + 1
  {
    if k > 0 {
      NotsLevels(k - 1);
    }
  }

  function Locals0(k: nat): Body {
    if k == 0 then Ret(ENil) else Seq(Local(ENil), Locals0(k - 1))
  }

  lemma {:induction false} LocalsCount(k: nat, n: nat)
    ensures BodyVars(Locals0(k), n) == n + k
    decreases k
  {
    if k > 0 {
      LocalsCount(k - 1, n + 1);
    }
  }
}
