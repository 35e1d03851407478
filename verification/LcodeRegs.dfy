/** The finished code is well-formed: every register it names is below the stack size that the
    function asks for, every constant index is in the table, and every test that produces a
    value has a register to put it in. */
module LcodeRegs {
  import opened LuaVM
  import opened LuaExpr
  import opened LcodeSpec
  import opened LcodeGrow
  import opened LcodeRun
  import opened LcodeInv
  import opened LcodePlace
  import opened LcodeClose
  import opened LcodeExpr
  import opened LcodeOps
  import opened LcodeCond
  import opened LcodeValue
  import opened LcodeBinary
  import opened LcodeLate
  import opened LcodeCompile
  import opened LcodeMain
  import opened LcodeSteps

  predicate InRK(x: RK, top: nat, nk: nat) {
    match x
    case R(r) => r < top
    case K(k) => k < nk
  }

  /** The instruction uses registers below top and constants below nk; only a test that
      controls a pending jump (`open`) may still lack its register. */
  predicate InBounds(i: Instr, top: nat, nk: nat, open: bool) {
    match i
    case Move(a, b) => a < top && b < top
    case LoadK(a, bx) => a < top && bx < nk
    case LoadBool(a, _, _) => a < top
    case LoadNil(a, count) => a + count < top
    case Binary(_, a, rb, rc) => a < top && InRK(rb, top, nk) && InRK(rc, top, nk)
    case Unary(_, a, b) => a < top && b < top
    case Not(a, b) => a < top && b < top
    case Concat(a, b, c) => a < top && b < top && c < top
    case Jmp(_) => true
    case Cmp(_, _, rb, rc) => InRK(rb, top, nk) && InRK(rc, top, nk)
    case Test(a, _) => a < top
    case TestSet(a, b, _) => b < top && (a < top || (open && a == NO_REG))
    case Return(a, _) => a < top
  }

  ghost predicate BoundAt(s: State, pend: set<nat>, p: nat)
    requires p < |s.code|
  {
    InBounds(s.code[p], s.maxstack, |s.kst|, p + 1 in pend + Elems(s.jpc))
  }

  /** All instructions are in bounds; `pend` are the pending jumps but those to here. */
  ghost predicate Bounded(s: State, pend: set<nat>) {
    0 < s.maxstack && (forall p: nat :: p < |s.code| ==> BoundAt(s, pend, p))
  }

  /** More registers, constants or pending jumps do no harm. */
  lemma Widen(s: State, pend: set<nat>, s': State, pend': set<nat>)
    requires Bounded(s, pend) && s'.code == s.code && s.maxstack <= s'.maxstack && |s.kst| <= |s'.kst|
    requires pend + Elems(s.jpc) <= pend' + Elems(s'.jpc)
    ensures Bounded(s', pend')
  {
    forall p: nat | p < |s'.code| ensures BoundAt(s', pend', p) {
      assert BoundAt(s, pend, p);
    }
  }

  // ---------- jump lists and emitting ----------

  lemma PatchBounded(s: State, l: seq<nat>, vtarget: int, reg: nat, dtarget: int, pend: set<nat>)
    requires Chain(s.code, l) && NoDup(l) && Bounded(s, pend + Elems(l)) && (reg == NO_REG || reg < s.maxstack)
    requires Elems(l) !! Elems(s.jpc)
    ensures Bounded(PatchList(s, l, vtarget, reg, dtarget), pend)
  {
    var s' := PatchList(s, l, vtarget, reg, dtarget);
    ChainJumps(s.code, l);
    PatchListPatched(s, l, vtarget, reg, dtarget);
    hide PatchList;
    hide InBounds;
    hide PatchedInstr;
    hide Chain;
    hide NoDup;
    forall p: nat | p < |s'.code| ensures BoundAt(s', pend, p) {
      assert BoundAt(s, pend + Elems(l), p);
      assert s'.code[p] == PatchedInstr(s.code, Elems(l), vtarget, reg, dtarget, p);
      PatchedInBounds(s.code, Elems(l), vtarget, reg, dtarget, p, s.maxstack, |s.kst|, p + 1 in pend + Elems(s.jpc));
    }
  }

  lemma PatchedInBounds(code: seq<Instr>, list: set<nat>, vtarget: int, reg: nat, dtarget: int, p: nat, top: nat,
                        nk: nat, open: bool)
    requires p < |code| && InBounds(code[p], top, nk, open || p + 1 in list) && (reg == NO_REG || reg < top)
    ensures InBounds(PatchedInstr(code, list, vtarget, reg, dtarget, p), top, nk, open)
  {
  }

  lemma DischargeBounded(s: State, pend: set<nat>)
    requires Threads(s) && Bounded(s, pend)
    ensures Bounded(DischargeJpc(s), pend)
  {
    var s0 := s.(jpc := []);
    JpcPatch(s, s.jpc, |s.code|);
    Widen(s, pend, s0, pend + Elems(s.jpc));
    PatchBounded(s0, s.jpc, |s.code|, NO_REG, |s.code|, pend);
  }

  lemma {:induction false} JpcPatch(s: State, l: seq<nat>, n: int)
    ensures PatchList(s.(jpc := []), l, n, NO_REG, n) == PatchList(s, l, n, NO_REG, n).(jpc := [])
    decreases |l|
  {
    if l != [] {
      JpcPatch(PatchOne(s, l[0], n, NO_REG, n), l[1..], n);
    }
  }

  lemma EmitBounded(s: State, i: Instr, pend: set<nat>)
    requires Threads(s) && Bounded(s, pend) && InBounds(i, s.maxstack, |s.kst|, |s.code| + 1 in pend)
    ensures Bounded(Emit(s, i), pend)
  {
    var s1, s' := DischargeJpc(s), Emit(s, i);
    DischargeBounded(s, pend);
    PatchListGrows(s, s.jpc, |s.code|, NO_REG, |s.code|);
    PatchListLength(s, s.jpc, |s.code|, NO_REG, |s.code|);
    hide PatchList;
    forall p: nat | p < |s'.code| ensures BoundAt(s', pend, p) {
      if p < |s1.code| {
        assert BoundAt(s1, pend, p);
      }
    }
  }

  lemma LinkBounded(s: State, a: seq<nat>, b: seq<nat>, pend: set<nat>)
    requires Bounded(s, pend) && Jumps(s.code, Elems(a))
    ensures Bounded(Link(s, a, b), pend)
  {
    var s' := Link(s, a, b);
    LinkCode(s, a, b);
    forall p: nat | p < |s'.code| ensures BoundAt(s', pend, p) {
      assert BoundAt(s, pend, p);
    }
  }

  lemma ToHereBounded(s: State, l: seq<nat>, pend: set<nat>)
    requires Threads(s) && Bounded(s, pend + Elems(l))
    ensures Bounded(PatchToHere(s, l), pend)
  {
    var s1 := GetLabel(s);
    Widen(s, pend + Elems(l), s1, pend + Elems(l));
    ChainJumps(s.code, s.jpc);
    LinkBounded(s1, s.jpc, l, pend + Elems(l));
    ElemsAppend(s.jpc, l);
    Widen(Link(s1, s.jpc, l), pend + Elems(l), PatchToHere(s, l), pend);
  }

  /** The jumps to here are held back with the new one. */
  lemma JumpBounded(s: State, pend: set<nat>)
    requires Bounded(s, pend)
    ensures Bounded(EmitJump(s).0, pend + Elems(s.jpc))
  {
    hide Bounded;
    var s0, n := s.(jpc := []), |s.code|;
    Widen(s, pend, s0, pend + Elems(s.jpc));
    JumpBoundedHere(s0, pend + Elems(s.jpc));
    var s1 := Emit(s0, Jmp(NO_JUMP));
    EmitSettledJump(s0);
    LinkBounded(s1, [n], s.jpc, pend + Elems(s.jpc));
  }

  lemma EmitSettledJump(s: State)
    requires s.jpc == []
    ensures Emit(s, Jmp(NO_JUMP)) == s.(code := s.code + [Jmp(NO_JUMP)])
  {
  }

  lemma JumpBoundedHere(s: State, pend: set<nat>)
    requires Bounded(s, pend) && s.jpc == []
    ensures Bounded(Emit(s, Jmp(NO_JUMP)), pend)
  {
    EmitBounded(s, Jmp(NO_JUMP), pend);
  }

  lemma CondJumpBounded(s: State, i: Instr, pend: set<nat>)
    requires Threads(s) && Bounded(s, pend) && InBounds(i, s.maxstack, |s.kst|, true)
    ensures var (s', l) := CondJump(s, i); Bounded(s', pend + Elems(l))
  {
    hide Bounded;
    var n := |s.code| + 1;
    Widen(s, pend, s, pend + {n});
    EmitBounded(s, i, pend + {n});
    JumpBounded(Emit(s, i), pend + {n});
    var (s', l) := CondJump(s, i);
    CondJumpHead(s, i);
    assert n in Elems(l);
    Widen(s', pend + {n} + Elems([]), s', pend + Elems(l));
  }

  /** A comparison writes no register: its jump need not be counted as pending. */
  lemma CompareBounded(s: State, i: Instr, pend: set<nat>)
    requires Threads(s) && Bounded(s, pend) && i.Cmp? && InBounds(i, s.maxstack, |s.kst|, true)
    ensures Bounded(CondJump(s, i).0, pend)
  {
    hide Bounded;
    EmitBounded(s, i, pend);
    JumpBounded(Emit(s, i), pend);
    assert pend + Elems([]) == pend;
  }

  // ---------- placing values ----------

  lemma NilBounded(s: State, reg: nat, pend: set<nat>)
    requires Threads(s) && Bounded(s, pend) && reg < s.maxstack
    ensures Bounded(CodeNil(s, reg, 1), pend)
  {
    hide Emit;
    EmitBounded(s, LoadNil(reg, 0), pend);
    var s' := CodeNil(s, reg, 1);
    var n := |s.code|;
    if n > s.lasttarget && CanMergeNil(s.code[n - 1], reg, 1) {
      forall p: nat | p < |s'.code| ensures BoundAt(s', pend, p) {
        assert BoundAt(s, pend, p);
      }
    }
  }

  predicate KindIn(s: State, k: Kind) {
    match k
    case VNonReloc(r) => r < s.maxstack
    case VLocal(r) => r < s.maxstack
    case VK(i) => i < |s.kst|
    case _ => true
  }

  lemma WFKind(s: State, e: Desc, outer: set<nat>)
    requires WF(s, e, outer)
    ensures KindIn(s, e.k) && Threads(s)
    ensures e.k.VNonReloc? ==> e.k.reg < s.freereg <= s.maxstack || e.k.reg < s.nactvar
  {
  }

  lemma ConstBounded(s: State, v: Value, reg: nat, pend: set<nat>)
    requires Threads(s) && Bounded(s, pend) && reg < s.maxstack
    ensures Bounded(LoadConst(s, v, reg), pend)
  {
    var (s1, k) := AddK(s, v);
    AddKSound(s, v);
    Widen(s, pend, s1, pend);
    EmitBounded(s1, LoadK(reg, k), pend);
  }

  lemma PlaceBounded(s: State, e: Desc, reg: nat, pend: set<nat>)
    requires Threads(s) && Bounded(s, pend) && KindIn(s, e.k) && KindCode(s, e.k) && reg < s.maxstack
    ensures Bounded(Discharge2Reg(s, e, reg).0, pend)
  {
    hide Emit;
    hide CodeNil;
    hide LoadConst;
    match DischargeVars(e).k
    case VNil => NilBounded(s, reg, pend);
    case VFalse => EmitBounded(s, LoadBool(reg, false, false), pend);
    case VTrue => EmitBounded(s, LoadBool(reg, true, false), pend);
    case VK(info) => EmitBounded(s, LoadK(reg, info), pend);
    case VKFlt(x) => ConstBounded(s, Number(F(x)), reg, pend);
    case VKInt(i) => ConstBounded(s, Number(I(i)), reg, pend);
    case VReloc(pc) => SetABounded(s, pc, reg, pend);
    case VNonReloc(r) => EmitBounded(s, Move(reg, r), pend);
    case _ =>
  }

  lemma SetABounded(s: State, pc: nat, reg: nat, pend: set<nat>)
    requires Bounded(s, pend) && reg < s.maxstack
    ensures Bounded(s.(code := SetA(s.code, pc, reg)), pend)
  {
    var s' := s.(code := SetA(s.code, pc, reg));
    forall p: nat | p < |s'.code| ensures BoundAt(s', pend, p) {
      assert BoundAt(s, pend, p);
    }
  }

  lemma JumpSettles(s: State)
    ensures EmitJump(s).0.jpc == []
  {
  }

  lemma JumpList(s: State)
    ensures Elems(s.jpc) <= Elems(EmitJump(s).1)
  {
    assert EmitJump(s).1 == [|s.code|] + s.jpc;
  }

  lemma BoolsBounded(s: State, isJump: bool, reg: nat, pend: set<nat>)
    requires Threads(s) && Bounded(s, pend) && reg < s.maxstack && (isJump ==> s.jpc == [])
    ensures Bounded(LoadBools(s, isJump, reg), pend)
  {
    hide Bounded;
    hide EmitJump;
    hide PatchToHere;
    hide Emit;
    var (s1, fj) := if isJump then (s, []) else EmitJump(s);
    JumpBounded(s, pend);
    JumpSettles(s);
    JumpGrows(s);
    var p1 := pend + Elems(fj);
    assert s1.jpc == [];
    JumpList(s);
    Widen(s1, if isJump then pend else pend + Elems(s.jpc), GetLabel(s1), p1);
    EmitBounded(GetLabel(s1), LoadBool(reg, false, true), p1);
    var s2 := EmitLoadBool(s1, reg, false, true);
    EmitGrows(GetLabel(s1), LoadBool(reg, false, true));
    EmitSettles(GetLabel(s1), LoadBool(reg, false, true));
    Widen(s2, p1, GetLabel(s2), p1);
    EmitBounded(GetLabel(s2), LoadBool(reg, true, false), p1);
    EmitSettles(GetLabel(s2), LoadBool(reg, true, false));
    ToHereBounded(EmitLoadBool(s2, reg, true, false), fj, pend);
  }

  lemma FinishBounded(s: State, t: seq<nat>, f: seq<nat>, reg: nat, pf: int, pt: int, pend: set<nat>)
    requires Chains(s.code, Desc(VNil, t, f)) && Bounded(s, pend + Elems(t) + Elems(f)) && reg < s.maxstack
    requires Elems(t) !! Elems(f) && Elems(t) + Elems(f) !! Elems(s.jpc)
    ensures Bounded(FinishLists(s, t, f, reg, pf, pt), pend)
  {
    var s1, n := GetLabel(s), |s.code|;
    Widen(s, pend + Elems(t) + Elems(f), s1, pend + Elems(t) + Elems(f));
    PatchBounded(s1, f, n, reg, pf, pend + Elems(t));
    SecondChain(s1, f, t, n, reg, pf);
    PatchListGrows(s1, f, n, reg, pf);
    PatchBounded(PatchList(s1, f, n, reg, pf), t, n, reg, pt, pend);
  }

  lemma CloseBounded(m: Machine, s: State, isJump: bool, t: seq<nat>, f: seq<nat>, reg: nat, outer: set<nat>)
    requires Base(s, Elems(t) + Elems(f) + outer) && Lists(s.code, t, f, outer) && (isJump ==> s.jpc == [])
    requires Bounded(s, Elems(t) + Elems(f) + outer) && reg < s.maxstack
    ensures Bounded(CloseLists(s, isJump, t, f, reg), outer)
  {
    hide Bounded;
    hide FinishLists;
    hide LoadBools;
    hide Run;
    var all := Elems(t) + Elems(f) + outer;
    assert outer + Elems(t) + Elems(f) == all;
    ListsChains(s, t, f, outer);
    if NeedValue(s.code, t) || NeedValue(s.code, f) {
      var s1 := LoadBools(s, isJump, reg);
      BoolsBounded(s, isJump, reg, all);
      LoadBoolsRun(FromStart(m, s.kst), s, isJump, reg, all);
      BoolsChains(m, s, isJump, t, f, reg, outer);
      FinishBounded(s1, t, f, reg, |s1.code| - 2, |s1.code| - 1, outer);
    } else {
      FinishBounded(s, t, f, reg, NO_JUMP, NO_JUMP, outer);
    }
  }

  lemma Exp2RegBounded(m: Machine, s: State, e: Desc, reg: nat, outer: set<nat>)
    requires Core(s, e, outer) && Bounded(s, Waiting(e, outer)) && KindIn(s, e.k) && reg < s.maxstack
    ensures Bounded(Exp2Reg(s, e, reg).0, outer)
  {
    hide Bounded;
    hide CloseLists;
    hide Discharge2Reg;
    hide Core;
    hide Base;
    hide Lists;
    CoreChains(s, e, outer);
    if e.k.VJmp? {
      var s2, t2 := Link(s, e.t, [e.k.pc]), e.t + [e.k.pc];
      TestDischarge(s, e, reg);
      TestClose(m, s, e, outer);
      ChainJumps(s.code, e.t);
      LinkBounded(s, e.t, [e.k.pc], Waiting(e, outer));
      ElemsAppend(e.t, [e.k.pc]);
      Widen(s2, Waiting(e, outer), s2, Elems(t2) + Elems(e.f) + outer);
      CloseBounded(m, s2, true, t2, e.f, reg, outer);
    } else {
      var s1 := Discharge2Reg(s, e, reg).0;
      PlaceChains(m, s, e, reg, outer);
      PlaceBounded(s, e, reg, Waiting(e, outer));
      DischargeGrows(s, e, reg);
      if e.t == [] && e.f == [] {
        assert Waiting(e, outer) == outer;
      } else {
        CloseBounded(m, s1, false, e.t, e.f, reg, outer);
      }
    }
  }

  // ---------- operands ----------

  lemma NextRegBounded(m: Machine, s: State, e: Desc, outer: set<nat>)
    requires WF(s, e, outer) && Bounded(s, Waiting(e, outer))
    ensures Bounded(Exp2NextReg(s, e).0, outer)
  {
    hide Bounded;
    hide Exp2Reg;
    hide WF;
    hide Core;
    hide Threads;
    hide KindCode;
    var e1 := DischargeVars(e);
    var s1 := Reserve(FreeExp(s, e1), 1);
    WFKind(s, e, outer);
    NextRegCore(m, s, e, outer);
    Widen(s, Waiting(e, outer), s1, Waiting(e1, outer));
    Exp2RegBounded(m, s1, e1, s1.freereg - 1, outer);
  }

  lemma AnyRegBounded(m: Machine, s: State, e: Desc, outer: set<nat>)
    requires WF(s, e, outer) && Bounded(s, Waiting(e, outer))
    ensures var (s', e') := Exp2AnyReg(s, e); Bounded(s', Waiting(e', outer))
  {
    hide Bounded;
    hide Exp2Reg;
    hide Exp2NextReg;
    hide WF;
    hide Core;
    var e1 := DischargeVars(e);
    VarsWF(m, s, e, outer);
    WFKind(s, e1, outer);
    WFCore(s, e1, outer);
    if e1.k.VNonReloc? && !HasJumps(e1) {
    } else if e1.k.VNonReloc? && e1.k.reg >= s.nactvar {
      Exp2RegBounded(m, s, e1, e1.k.reg, outer);
      ExpRegDesc(s, e1, e1.k.reg);
    } else {
      NextRegBounded(m, s, e1, outer);
      NextRegDesc(s, e1);
    }
    AnyRegWF(m, s, e, outer);
    var d := Exp2AnyReg(s, e).1;
    assert Waiting(d, outer) == outer;
  }

  lemma ValBounded(m: Machine, s: State, e: Desc, outer: set<nat>)
    requires WF(s, e, outer) && Bounded(s, Waiting(e, outer))
    ensures var (s', e') := Exp2Val(s, e); Bounded(s', Waiting(e', outer))
  {
    hide Exp2AnyReg;
    AnyRegBounded(m, s, e, outer);
  }

  lemma ConstOnly(s: State, v: Value, pend: set<nat>)
    requires Bounded(s, pend)
    ensures Bounded(AddK(s, v).0, pend)
  {
    AddKSound(s, v);
    Widen(s, pend, AddK(s, v).0, pend);
  }

  lemma RKBounded(m: Machine, s: State, e: Desc, outer: set<nat>)
    requires WF(s, e, outer) && Bounded(s, Waiting(e, outer))
    ensures var (s', e', rk) := Exp2RK(s, e);
      Bounded(s', Waiting(e', outer)) && InRK(rk, s'.maxstack, |s'.kst|)
  {
    hide Bounded;
    hide Exp2AnyReg;
    hide Exp2Val;
    hide AddK;
    hide WF;
    var (s1, e1) := Exp2Val(s, e);
    var v := ConstantOf(e1.k);
    RKSteps(m, s, e, outer);
    ValBounded(m, s, e, outer);
    WFKind(s1, e1, outer);
    var (s2, e2) := if v.Some? then (AddK(s1, v.value).0, e1.(k := VK(AddK(s1, v.value).1))) else (s1, e1);
    if v.Some? {
      ConstOnly(s1, v.value, Waiting(e1, outer));
      assert Waiting(e2, outer) == Waiting(e1, outer);
    }
    WFKind(s2, e2, outer);
    AnyRegBounded(m, s2, e2, outer);
    AnyRegWF(m, s2, e2, outer);
    WFKind(Exp2AnyReg(s2, e2).0, Exp2AnyReg(s2, e2).1, outer);
  }

  lemma AnyPlaceBounded(m: Machine, s: State, e: Desc, outer: set<nat>)
    requires WF(s, e, outer) && !e.k.VJmp? && Bounded(s, Waiting(e, outer))
    ensures Bounded(Discharge2AnyReg(s, e).0, Waiting(e, outer))
  {
    hide Bounded;
    hide Discharge2Reg;
    hide Core;
    WFCore(s, e, outer);
    CoreChains(s, e, outer);
    WFKind(s, e, outer);
    var s1 := Reserve(s, 1);
    Widen(s, Waiting(e, outer), s1, Waiting(e, outer));
    PlaceBounded(s1, e, s1.freereg - 1, Waiting(e, outer));
  }

  // ---------- conditions ----------

  lemma CutBounded(s: State, pend: set<nat>)
    requires Bounded(s, pend) && |s.code| > 0
    ensures Bounded(s.(code := s.code[..|s.code| - 1]), pend)
  {
    var s' := s.(code := s.code[..|s.code| - 1]);
    forall p: nat | p < |s'.code| ensures BoundAt(s', pend, p) {
      assert BoundAt(s, pend, p);
    }
  }

  lemma NotBounded(s: State, cond: bool, pend: set<nat>)
    requires Bounded(s, pend) && |s.code| > 0 && s.code[|s.code| - 1].Not? && s.jpc == []
    ensures var (s', l) := CondJump(s.(code := s.code[..|s.code| - 1]), Test(s.code[|s.code| - 1].b, cond));
      Bounded(s', pend + Elems(l))
  {
    hide CondJump;
    var k: nat := |s.code| - 1;
    assert BoundAt(s, pend, k);
    CutBounded(s, pend);
    CondJumpBounded(s.(code := s.code[..k]), Test(s.code[k].b, cond), pend);
  }

  lemma JumpOnCondBounded(m: Machine, s: State, e: Desc, cond: bool, outer: set<nat>)
    requires WF(s, e, outer) && !e.k.VJmp? && Bounded(s, Waiting(e, outer))
    ensures var (s', k, l) := JumpOnCond(s, e, cond); Bounded(s', Waiting(e, outer) + Elems(l))
  {
    hide Bounded;
    hide CondJump;
    hide Discharge2AnyReg;
    hide Core;
    hide WF;
    hide Base;
    var n := |s.code|;
    WFCore(s, e, outer);
    CoreChains(s, e, outer);
    if e.k.VReloc? && n > 0 && s.code[n - 1].Not? {
      NotBounded(s, !cond, Waiting(e, outer));
    } else {
      var (s1, e1) := Discharge2AnyReg(s, e);
      AnyPlaceBounded(m, s, e, outer);
      AnyPlaceWF(m, s, e, outer);
      WFKind(s1, e1, outer);
      Widen(s1, Waiting(e, outer), FreeExp(s1, e1), Waiting(e, outer));
      CondJumpBounded(FreeExp(s1, e1), TestSet(NO_REG, e1.k.reg, cond), Waiting(e, outer));
    }
  }

  lemma NegateBounded(s: State, pc: nat, pend: set<nat>)
    requires Bounded(s, pend)
    ensures Bounded(s.(code := Negate(s.code, pc)), pend)
  {
    var s' := s.(code := Negate(s.code, pc));
    forall p: nat | p < |s'.code| ensures BoundAt(s', pend, p) {
      assert BoundAt(s, pend, p);
    }
  }

  lemma BranchBounded(m: Machine, s: State, e: Desc, cond: bool, outer: set<nat>)
    requires WF(s, e, outer) && Bounded(s, Waiting(e, outer))
    ensures var (s', k, l) := Branch(s, e, cond); Bounded(s', Waiting(e, outer) + Elems(l))
  {
    hide Bounded;
    hide JumpOnCond;
    hide Negate;
    hide WF;
    var (s', k, l) := Branch(s, e, cond);
    var all := Waiting(e, outer);
    if e.k.VJmp? {
      NegateBounded(s, e.k.pc, all);
      Widen(s', all, s', all + Elems(l));
    } else if if cond then AlwaysFalse(e.k) else AlwaysTrue(e.k) {
      Widen(s', all, s', all + Elems(l));
    } else {
      JumpOnCondBounded(m, s, e, cond, outer);
    }
  }

  lemma GoIfBounded(m: Machine, s: State, e: Desc, cond: bool, outer: set<nat>)
    requires WF(s, e, outer) && Bounded(s, Waiting(e, outer))
    ensures var (s', e') := GoIf(s, e, cond); Bounded(s', Waiting(e', outer))
  {
    hide Bounded;
    hide GoIf;
    hide JumpOnCond;
    hide Negate;
    hide Link;
    hide PatchToHere;
    hide WF;
    hide Branch;
    var e1 := DischargeVars(e);
    var (s1, k, l) := Branch(s, e1, cond);
    VarsWF(m, s, e, outer);
    GoIfBranch(s, e, cond);
    BranchChains(m, s, e1, cond, outer);
    BranchBounded(m, s, e1, cond, outer);
    var a, b := Joined(e1, cond), Joined(e1, !cond);
    ChainJumps(s1.code, a);
    LinkBounded(s1, a, l, Waiting(e, outer) + Elems(l));
    ElemsAppend(a, l);
    var s2 := Link(s1, a, l);
    assert Waiting(e, outer) + Elems(l) == Elems(a + l) + outer + Elems(b);
    ToHereBounded(s2, b, Elems(a + l) + outer);
    assert Waiting(GoIf(s, e, cond).1, outer) == Elems(a + l) + outer;
  }

  lemma NegateValueBounded(m: Machine, s: State, e: Desc, outer: set<nat>)
    requires WF(s, e, outer) && !e.k.VLocal? && Bounded(s, Waiting(e, outer))
    ensures Bounded(NegateValue(s, e).0, Waiting(e, outer))
  {
    hide Bounded;
    hide Discharge2AnyReg;
    hide Emit;
    hide Negate;
    hide Core;
    if e.k.VJmp? {
      NegateBounded(s, e.k.pc, Waiting(e, outer));
    } else {
      var (s1, e1) := Discharge2AnyReg(s, e);
      AnyPlaceBounded(m, s, e, outer);
      AnyPlaceWF(m, s, e, outer);
      WFKind(s1, e1, outer);
      var s2 := FreeExp(s1, e1);
      Widen(s1, Waiting(e, outer), s2, Waiting(e, outer));
      EmitBounded(s2, Not(0, e1.k.reg), Waiting(e, outer));
    }
  }

  lemma RemoveBounded(s: State, t: seq<nat>, f: seq<nat>, pend: set<nat>)
    requires Bounded(s, pend) && Controlled(s.code, Elems(t)) && Controlled(s.code, Elems(f))
    ensures Bounded(s.(code := RemoveValues(RemoveValues(s.code, t), f)), pend)
  {
    hide RemoveValues;
    RemovedBoth(s.code, t, f);
    var s' := s.(code := RemoveValues(RemoveValues(s.code, t), f));
    forall p: nat | p < |s'.code| ensures BoundAt(s', pend, p) {
      assert BoundAt(s, pend, p);
      assert s'.code[p] == RemovedInstr(s.code, Elems(t) + Elems(f), p);
    }
  }

  lemma CodeNotBounded(m: Machine, s: State, e: Desc, outer: set<nat>)
    requires WF(s, e, outer) && Testable(s, e.k) && Bounded(s, Waiting(e, outer))
    ensures var (s', e') := CodeNot(s, e); Bounded(s', Waiting(e', outer))
  {
    hide Bounded;
    hide NegateValue;
    hide RemoveValues;
    hide WF;
    hide Base;
    var e1 := DischargeVars(e);
    VarsWF(m, s, e, outer);
    NegateCore(m, s, e1, outer);
    NegateValueBounded(m, s, e1, outer);
    var s1 := NegateValue(s, e1).0;
    RemoveBounded(s1, e.t, e.f, Waiting(e, outer));
    assert Waiting(CodeNot(s, e).1, outer) == Waiting(e, outer);
  }

  // ---------- operators ----------

  lemma CodeUnBounded(m: Machine, s: State, op: UnOp, e: Desc, outer: set<nat>)
    requires WF(s, e, outer) && Bounded(s, Waiting(e, outer))
    ensures var (s', e') := CodeUnExpVal(s, op, e); Bounded(s', Waiting(e', outer))
  {
    hide Bounded;
    hide Exp2AnyReg;
    hide Emit;
    hide WF;
    var (s1, e1) := Exp2AnyReg(s, e);
    AnyRegBounded(m, s, e, outer);
    AnyRegWF(m, s, e, outer);
    WFKind(s1, e1, outer);
    var s2 := FreeExp(s1, e1);
    Widen(s1, Waiting(e1, outer), s2, outer);
    EmitBounded(s2, Unary(op, 0, e1.k.reg), outer);
    assert Waiting(CodeUnExpVal(s, op, e).1, outer) == outer;
  }

  lemma CodeBinBounded(m: Machine, s: State, op: ArithOp, d: Desc, e: Desc, outer: set<nat>)
    requires WF(s, e, outer) && OperandOK(s, d, e) && Floor(s, e.k) == s.freereg
    requires Bounded(s, Waiting(e, outer)) && KindIn(s, d.k)
    ensures var (s', e') := CodeBinExpVal(s, op, d, e); Bounded(s', Waiting(e', outer))
  {
    hide Bounded;
    hide Exp2RK;
    hide Emit;
    hide WF;
    hide Second;
    var (s1, d1, rk1) := Exp2RK(s, d);
    var (s2, e2, rk2) := Exp2RK(s1, e);
    BinSteps(m, s, op, d, e, outer);
    var (u, eu) := Second(s, d, e);
    FirstInRK(m, s, d, e, outer);
    RKBounded(m, u, eu, outer);
    RKGrows(s1, e);
    AfterRK(m, u, eu, outer);
    WFKind(s2, e2, outer);
    FreeExpsGrows(s2, d1, e2);
    var s3 := FreeExps(s2, d1, e2);
    hide FreeExps;
    Widen(s2, Waiting(e2, outer), s3, outer);
    EmitBounded(s3, Binary(op, 0, rk1, rk2), outer);
    assert Waiting(CodeBinExpVal(s, op, d, e).1, outer) == outer;
  }

  /** The first operand in R/K form, whether it needs no code or is loaded now. */
  lemma FirstInRK(m: Machine, s: State, d: Desc, e: Desc, outer: set<nat>)
    requires WF(s, e, outer) && OperandOK(s, d, e) && Floor(s, e.k) == s.freereg && KindIn(s, d.k)
    requires Named(s, d) ==> Settled(s, d)
    requires Bounded(s, Waiting(e, outer))
    ensures var (u, eu) := Second(s, d, e); var (s1, d1, rk) := Exp2RK(s, d);
      Bounded(u, Waiting(eu, outer)) && InRK(rk, s1.maxstack, |s1.kst|)
  {
    hide Bounded;
    hide Exp2RK;
    hide WF;
    var pend, s1 := Waiting(e, outer), Exp2RK(s, d).0;
    if Named(s, d) {
      FirstBounded(s, d, pend);
    } else {
      LateCode(s, d);
      LoadBounded(s, d, e, outer);
      hide Emit;
      var s2 := Reserve(s1, 1);
      Widen(s1, pend, s2, pend);
      if e.k.VReloc? {
        SetABounded(s2, e.k.pc, s1.freereg, pend);
      }
      assert Waiting(Second(s, d, e).1, outer) == pend;
    }
  }

  lemma LoadBounded(s: State, d: Desc, e: Desc, outer: set<nat>)
    requires WF(s, e, outer) && (d.k.VKInt? || d.k.VKFlt?) && Bounded(s, Waiting(e, outer))
    ensures var s1 := Emit(BeforeLoad(s, d), LoadOf(s, d));
      Bounded(s1, Waiting(e, outer)) && s.freereg < s1.maxstack && s1.freereg == s.freereg + 1
  {
    hide Bounded;
    hide AddK;
    hide Emit;
    var v, pend := ConstantOf(d.k).value, Waiting(e, outer);
    WFKind(s, e, outer);
    hide WF;
    ConstOnly(s, v, pend);
    AddKSound(s, v);
    var t := BeforeLoad(s, d);
    Widen(AddK(s, v).0, pend, t, pend);
    EmitBounded(t, LoadOf(s, d), pend);
    EmitGrows(t, LoadOf(s, d));
  }

  lemma AfterRK(m: Machine, s: State, e: Desc, outer: set<nat>)
    requires WF(s, e, outer)
    ensures Waiting(Exp2RK(s, e).1, outer) == outer
  {
    hide Exp2RK;
    var c := FromStart(m, Exp2RK(s, e).0.kst);
    StartedHere(m, c.kst, s, e, outer);
    RKKeeps(c, s, e, outer);
  }

  /** An operand that needs no code. */
  lemma FirstBounded(s: State, d: Desc, pend: set<nat>)
    requires Settled(s, d) && KindIn(s, d.k) && Bounded(s, pend)
    ensures var (s', d', rk) := Exp2RK(s, d);
      Bounded(s', pend) && InRK(rk, s'.maxstack, |s'.kst|)
  {
    var v := ConstantOf(d.k);
    if v.Some? {
      ConstOnly(s, v.value, pend);
      AddKSound(s, v.value);
    }
    hide AddK;
  }

  /** The second operand in R/K form, and no jumps but those outside. */
  lemma RKDone(m: Machine, s: State, e: Desc, outer: set<nat>)
    requires WF(s, e, outer) && Bounded(s, Waiting(e, outer))
    ensures var (s', e', rk) := Exp2RK(s, e);
      && Bounded(s', outer) && Threads(s') && InRK(rk, s'.maxstack, |s'.kst|)
      && s.maxstack <= s'.maxstack && s.kst <= s'.kst
  {
    hide Bounded;
    hide Exp2RK;
    hide Core;
    var (s', e', rk) := Exp2RK(s, e);
    RKBounded(m, s, e, outer);
    RKGrows(s, e);
    AfterRK(m, s, e, outer);
    RKWF(m, s, e, outer);
    WFKind(s', e', outer);
  }

  lemma CodeCompBounded(m: Machine, s: State, rel: Rel, d: Desc, e: Desc, outer: set<nat>)
    requires WF(s, e, outer) && OperandOK(s, d, e) && (d.k.VK? || d.k.VNonReloc?)
    requires Bounded(s, Waiting(e, outer)) && KindIn(s, d.k)
    ensures var (s', e') := CodeComp(s, rel, d, e); Bounded(s', Waiting(e', outer))
  {
    hide Bounded;
    hide Exp2RK;
    hide CondJump;
    hide WF;
    hide OperandOK;
    hide Chain;
    hide NoDup;
    hide FreeExps;
    var (s2, e2, rk2) := Exp2RK(s, e);
    RKDone(m, s, e, outer);
    FreeExpsGrows(s2, d, e2);
    var s3 := FreeExps(s2, d, e2);
    Widen(s2, outer, s3, outer);
    CompareBounded(s3, CompareInstr(rel, OperandRK(d.k), rk2), outer);
    assert Waiting(CodeComp(s, rel, d, e).1, outer) == outer;
  }

  lemma CodeConcatBounded(m: Machine, s: State, d: Desc, e: Desc, outer: set<nat>)
    requires WF(s, e, outer) && ConcatOperand(s, d, e) && ConcatShape(s, e.k)
    requires Bounded(s, Waiting(e, outer)) && KindIn(s, d.k)
    ensures var (s', e') := CodeConcat(s, d, e); Bounded(s', Waiting(e', outer))
  {
    hide Exp2Val;
    hide Exp2NextReg;
    hide Emit;
    hide WF;
    var (s1, e1) := Exp2Val(s, e);
    ConcatSteps(m, s, d, e, outer);
    ValBounded(m, s, e, outer);
    ValGrows(s, e);
    assert Waiting(CodeConcat(s, d, e).1, outer) == outer;
    if CanMergeConcat(s1, e1) {
      AfterVal(m, s, e, outer);
      var i := s1.code[e1.k.pc];
      var s2 := s1.(code := s1.code[e1.k.pc := Concat(i.a, d.k.reg, i.c)]);
      assert BoundAt(s1, outer, e1.k.pc);
      forall p: nat | p < |s2.code| ensures BoundAt(s2, outer, p) {
        assert BoundAt(s1, outer, p);
      }
      Widen(s2, outer, CodeConcat(s, d, e).0, outer);
    } else {
      hide Bounded;
      var (s2, e2) := Exp2NextReg(s1, e1);
      NextRegBounded(m, s1, e1, outer);
      NextRegGrows(s1, e1);
      WFKind(s2, e2, outer);
      FreeExpsGrows(s2, d, e2);
      var s3 := FreeExps(s2, d, e2);
      hide FreeExps;
      Widen(s2, outer, s3, outer);
      EmitBounded(s3, Concat(0, d.k.reg, e2.k.reg), outer);
    }
  }

  lemma AfterVal(m: Machine, s: State, e: Desc, outer: set<nat>)
    requires WF(s, e, outer)
    ensures Waiting(Exp2Val(s, e).1, outer) == outer
  {
    hide Exp2Val;
    var c := FromStart(m, Exp2Val(s, e).0.kst);
    StartedHere(m, c.kst, s, e, outer);
    ValKeeps(c, s, e, outer);
  }

  lemma PrefixBounded(m: Machine, s: State, op: UnOp, e: Desc, outer: set<nat>)
    requires WF(s, e, outer) && Bounded(s, Waiting(e, outer))
    ensures var (s', e') := Prefix(m, s, op, e); Bounded(s', Waiting(e', outer))
  {
    hide CodeUnExpVal;
    hide Bounded;
    hide WF;
    CodeUnBounded(m, s, op, e, outer);
  }

  lemma InfixBounded(m: Machine, s: State, op: BinOpr, e: Desc, outer: set<nat>)
    requires WF(s, e, outer) && Bounded(s, Waiting(e, outer))
    ensures var (s', e') := Infix(s, op, e); Bounded(s', Waiting(e', outer))
  {
    hide Bounded;
    hide WF;
    hide GoIfTrue;
    hide GoIfFalse;
    hide Exp2RK;
    hide Exp2NextReg;
    match op
    case OprAnd => GoIfBounded(m, s, e, false, outer); GoIfIs(s, e, false);
    case OprOr => GoIfBounded(m, s, e, true, outer); GoIfIs(s, e, true);
    case OprConcat =>
      NextRegBounded(m, s, e, outer);
      NextRegDesc(s, e);
      assert Waiting(Exp2NextReg(s, e).1, outer) == outer;
    case OprArith(_) => RKBounded(m, s, e, outer);
    case OprRel(_) => RKBounded(m, s, e, outer);
  }

  lemma PosfixBounded(m: Machine, s: State, op: BinOpr, d: Desc, e: Desc, outer: set<nat>, waiting: set<nat>)
    requires Operands(m, s, op, d, e, waiting) && Bounded(s, Waiting(e, waiting))
    requires waiting == outer + if op.OprAnd? then Elems(d.f) else if op.OprOr? then Elems(d.t) else {}
    requires Strict(op) ==> KindIn(s, d.k) && !HasJumps(d)
    ensures var (s', e') := Posfix(m, s, op, d, e); Bounded(s', Waiting(e', outer))
  {
    hide Bounded;
    hide WF;
    hide CodeBinExpVal;
    hide CodeConcat;
    hide CodeComp;
    hide Link;
    hide ConstFolding;
    assert Strict(op) ==> waiting == outer;
    match op
    case OprAnd => LinkBackBounded(s, e, false, d.f, outer, waiting);
    case OprOr => LinkBackBounded(s, e, true, d.t, outer, waiting);
    case OprConcat => CodeConcatBounded(m, s, d, e, outer);
    case OprArith(aop) =>
      if ConstFolding(m, PArith(aop), d, e).Some? {
        FoldedNoJumps(m, aop, d, e);
        assert Waiting(Posfix(m, s, op, d, e).1, outer) == Waiting(e, outer);
      } else {
        CodeBinBounded(m, s, aop, d, e, outer);
      }
    case OprRel(rel) => CodeCompBounded(m, s, rel, d, e, outer);
  }

  lemma FoldedNoJumps(m: Machine, op: ArithOp, d: Desc, e: Desc)
    requires ConstFolding(m, PArith(op), d, e).Some?
    ensures !HasJumps(d) && !HasJumps(e)
  {
  }

  lemma LinkBackBounded(s: State, e: Desc, cond: bool, l: seq<nat>, outer: set<nat>, waiting: set<nat>)
    requires WF(s, e, waiting) && Bounded(s, Waiting(e, waiting)) && waiting == outer + Elems(l)
    ensures var (s', e') := LinkBack(s, DischargeVars(e), cond, l); Bounded(s', Waiting(e', outer))
  {
    hide Bounded;
    var a := Joined(e, cond);
    CoreChains(s, e, waiting);
    ChainJumps(s.code, a);
    hide Core;
    ElemsAppend(a, l);
    LinkBounded(s, a, l, Waiting(e, waiting));
    hide Link;
    assert Waiting(LinkBack(s, DischargeVars(e), cond, l).1, outer) == Waiting(e, waiting);
  }

  // ---------- the driver ----------

  lemma {:induction false} CompileBounded(m: Machine, s: State, e: Expr, outer: set<nat>)
    requires WF(s, Fresh, outer) && Bounded(s, outer) && Proper(e, s.nactvar)
    ensures var (s', d) := Compile(m, s, e); Bounded(s', Waiting(d, outer))
    decreases e
  {
    hide Bounded;
    hide WF;
    hide CodeNot;
    hide Prefix;
    match e
    case EParen(e1) =>
      CompileBounded(m, s, e1, outer);
      assert Waiting(Compile(m, s, e).1, outer) == Waiting(Compile(m, s, e1).1, outer);
    case ENot(e1) =>
      CompileWF(m, s, e1, outer);
      CompileBounded(m, s, e1, outer);
      CodeNotBounded(m, Compile(m, s, e1).0, Compile(m, s, e1).1, outer);
    case EUnary(op, e1) =>
      CompileWF(m, s, e1, outer);
      CompileBounded(m, s, e1, outer);
      PrefixBounded(m, Compile(m, s, e1).0, op, Compile(m, s, e1).1, outer);
    case EBinary(op, e1, e2) => BinaryBounded(m, s, op, e1, e2, outer);
    case EString(str) =>
      ConstOnly(s, Str(str), outer);
      assert Waiting(Compile(m, s, e).1, outer) == outer;
    case _ => assert Waiting(Compile(m, s, e).1, outer) == outer;
  }

  lemma {:induction false} BinaryBounded(m: Machine, s: State, op: BinOpr, e1: Expr, e2: Expr, outer: set<nat>)
    requires WF(s, Fresh, outer) && Bounded(s, outer) && Proper(EBinary(op, e1, e2), s.nactvar)
    ensures var (s', d) := Compile(m, s, EBinary(op, e1, e2)); Bounded(s', Waiting(d, outer))
    decreases EBinary(op, e1, e2), 0
  {
    hide Bounded;
    hide WF;
    hide Infix;
    hide Posfix;
    var (s1, d1) := Compile(m, s, e1);
    var (s2, d1') := Infix(s1, op, d1);
    var (s3, d2) := Compile(m, s2, e2);
    BinarySteps(m, s, op, e1, e2, outer);
    CompileWF(m, s, e1, outer);
    CompileBounded(m, s, e1, outer);
    InfixBounded(m, s1, op, d1, outer);
    InfixLists(m, s1, op, d1, outer);
    var waiting := outer + if op.OprAnd? then Elems(d1'.f) else if op.OprOr? then Elems(d1'.t) else {};
    CompileBounded(m, s2, e2, waiting);
    CompileGrows(m, s2, e2);
    PosfixBounded(m, s3, op, d1', d2, outer, waiting);
  }

  /** What is still waiting after `luaK_infix`. */
  lemma InfixLists(m: Machine, s: State, op: BinOpr, d: Desc, outer: set<nat>)
    requires WF(s, d, outer) && Testable(s, d.k)
    ensures var (s', d') := Infix(s, op, d);
      && Waiting(d', outer) == outer + (if op.OprAnd? then Elems(d'.f) else if op.OprOr? then Elems(d'.t) else {})
      && (Strict(op) ==> !HasJumps(d') && KindIn(s', d'.k))
  {
    hide WF;
    hide Infix;
    var (s', d') := Infix(s, op, d);
    if Strict(op) {
      StrictSteps(m, s, op, d, outer);
      WFKind(s', d', outer);
    } else {
      ShortInfix(s, op, d);
    }
  }

  // ---------- whole functions ----------

  ghost predicate Finished(s: State) {
    forall p: nat :: p < |s.code| ==> FineAt(s, p)
  }

  /** In bounds, and no test lacks its register. */
  ghost predicate FineAt(s: State, p: nat)
    requires p < |s.code|
  {
    InBounds(s.code[p], s.maxstack, |s.kst|, false)
  }

  lemma StmtBounded(m: Machine, s: State, st: Stmt)
    requires WF(s, Fresh, {}) && s.freereg == s.nactvar && ProperStmt(st, s.nactvar)
    requires Bounded(s, {})
    ensures var s' := CompileStmt(m, s, st); WF(s', Fresh, {}) && s'.freereg == s'.nactvar && Bounded(s', {})
  {
    hide Bounded;
    hide WF;
    hide Compile;
    hide Exp2Reg;
    hide Exp2NextReg;
    var (s1, d) := Compile(m, s, st.e);
    CompileWF(m, s, st.e, {});
    CompileBounded(m, s, st.e, {});
    match st
    case Local(e) =>
      LocalIdle(m, s, e);
      NextRegBounded(m, s1, d, {});
      Widen(Exp2NextReg(s1, d).0, {}, CompileLocal(m, s, e), {});
    case Assign(r, e) =>
      AssignIdle(m, s, r, e);
      WFKind(s, Fresh, {});
      StoreCore(m, s1, d, {});
      WFKind(s1, d, {});
      LocalsBelow(s, Fresh);
      Widen(s1, Waiting(d, {}), FreeExp(s1, d), Waiting(d, {}));
      Exp2RegBounded(m, FreeExp(s1, d), d, r, {});
  }

  lemma LocalsBelow(s: State, e: Desc)
    requires WF(s, e, {})
    ensures s.nactvar <= s.freereg <= s.maxstack
  {
  }

  lemma ReturnBounded(m: Machine, s: State, e: Expr)
    requires WF(s, Fresh, {}) && s.freereg == s.nactvar && Proper(e, s.nactvar)
    requires Bounded(s, {})
    ensures Finished(CompileReturn(m, s, e))
  {
    hide Bounded;
    hide WF;
    hide Compile;
    hide Exp2AnyReg;
    hide Emit;
    var (s1, d) := Compile(m, s, e);
    CompileWF(m, s, e, {});
    CompileBounded(m, s, e, {});
    var (s2, d2) := Exp2AnyReg(s1, d);
    AnyRegBounded(m, s1, d, {});
    AnyRegWF(m, s1, d, {});
    WFKind(s2, d2, {});
    assert Waiting(d2, {}) == {};
    var s' := CompileReturn(m, s, e);
    EmitBounded(s2, Return(d2.k.reg, 2), {});
    EmitSettles(s2, Return(d2.k.reg, 2));
    BoundedFinished(s');
  }

  lemma EmitSettles(s: State, i: Instr)
    ensures Emit(s, i).jpc == []
  {
  }

  lemma BoundedFinished(s: State)
    requires Bounded(s, {}) && s.jpc == []
    ensures Finished(s)
  {
    forall p: nat | p < |s.code| ensures FineAt(s, p) {
      assert BoundAt(s, {}, p);
    }
  }

  lemma {:induction false} BodyBounded(m: Machine, s: State, b: Body)
    requires WF(s, Fresh, {}) && s.freereg == s.nactvar && ProperBody(b, s.nactvar)
    requires Bounded(s, {})
    ensures Finished(CompileBody(m, s, b))
    decreases b
  {
    hide Bounded;
    hide Finished;
    hide WF;
    hide CompileStmt;
    hide CompileReturn;
    match b
    case Ret(e) => ReturnBounded(m, s, e);
    case Seq(st, rest) =>
      StmtGrows(m, s, st);
      StmtBounded(m, s, st);
      BodyBounded(m, CompileStmt(m, s, st), rest);
  }

  /** In the finished code of every function body each register is below the stack size, each
      constant index is in the table, and no TESTSET is left without a register. */
  lemma FunctionBounded(m: Machine, b: Body, n: nat, cache: map<Key, Slot>)
    requires ProperBody(b, n) && n < MAXREGS
    ensures Finished(CompileBody(m, Opened(n, cache), b))
  {
    OpenedIdle(m, n, cache);
    hide WF;
    BodyBounded(m, Opened(n, cache), b);
  }
}
