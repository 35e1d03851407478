/** Expressions as operands: register discipline and values. */
module LcodeOps {
  import opened LuaVM
  import opened LcodeSpec
  import opened LcodeGrow
  import opened LcodeInv
  import opened LcodeEmit
  import opened LcodePlace
  import opened LcodeClose
  import opened LcodeExpr

  /** A value in a temporary register is in the last one. */
  ghost predicate RegOK(s: State, k: Kind) {
    match k
    case VNonReloc(r) => r < s.nactvar || r + 1 == s.freereg
    case VLocal(r) => r < s.nactvar
    case _ => true
  }

  /** The invariant of a state with one live descriptor, while `outer` jumps wait. */
  ghost predicate WF(s: State, e: Desc, outer: set<nat>) {
    Core(s, e, outer) && RegOK(s, e.k)
  }

  /** The first free register once the descriptor is freed. */
  function Floor(s: State, k: Kind): int {
    if k.VNonReloc? && k.reg >= s.nactvar then s.freereg - 1 else s.freereg
  }

  ghost predicate Below(regs: Regs, regs0: Regs, fr: int) {
    forall r: nat :: r < fr ==> Get(regs, r) == Get(regs0, r)
  }

  /** The run of the code so far means: the expression has the value `ev`, registers below fr
      are as in regs0, and the true (false) list is only left with a true (false) value. */
  ghost predicate Means(c: Ctx, code: seq<Instr>, e: Desc, outer: set<nat>, o: Outcome, ev: Res, regs0: Regs, fr: int) {
    && Denote(c, code, e, o) == Some(ev)
    && (o.Exit? ==>
          && o.pc !in outer && Below(o.regs, regs0, fr)
          && (o.pc in Elems(e.t) ==> ev.Ok? && Truthy(ev.v))
          && (o.pc in Elems(e.f) ==> ev.Ok? && !Truthy(ev.v)))
  }

  function RunE(c: Ctx, s: State, e: Desc, outer: set<nat>): Outcome {
    RunS(c, s, Stops(e, outer))
  }

  ghost predicate Sem(c: Ctx, s: State, e: Desc, outer: set<nat>, ev: Res, regs0: Regs, fr: int) {
    Means(c, s.code, e, outer, RunE(c, s, e, outer), ev, regs0, fr)
  }

  /** Runs that are over already (at an outer jump, or by an error) stay as they are. */
  ghost predicate Pass(o: Outcome, o': Outcome, outer: set<nat>) {
    (o.Exit? && o.pc in outer ==> o' == o) && (o.Fail? ==> o' == o)
  }

  /** A step from (s, e) to (s', e') that keeps the invariant, the register level and the
      meaning of the expression. */
  ghost predicate Keeps(c: Ctx, s: State, e: Desc, s': State, e': Desc, outer: set<nat>) {
    && WF(s', e', outer) && Started(c, s', e'.k) && Advance(s, s', outer)
    && Floor(s', e'.k) == Floor(s, e.k)
    && (s'.failed || (
          && Pass(RunE(c, s, e, outer), RunE(c, s', e', outer), outer)
          && (forall ev, regs0 :: Sem(c, s, e, outer, ev, regs0, Floor(s, e.k)) ==>
                Sem(c, s', e', outer, ev, regs0, Floor(s, e.k)))))
  }

  lemma KeepsTwice(c: Ctx, s: State, e: Desc, s1: State, e1: Desc, s2: State, e2: Desc, outer: set<nat>)
    requires Keeps(c, s, e, s1, e1, outer) && Keeps(c, s1, e1, s2, e2, outer)
    ensures Keeps(c, s, e, s2, e2, outer)
  {
    hide WF;
    hide Sem;
    hide Started;
    AdvanceTwice(s, s1, s2, outer);
    hide Kept;
  }

  lemma KeepsSelf(c: Ctx, s: State, e: Desc, outer: set<nat>)
    requires WF(s, e, outer) && Started(c, s, e.k)
    ensures Keeps(c, s, e, s, e, outer)
  {
    hide Sem;
    SelfAdvance(s, e, outer);
  }

  lemma SelfAdvance(s: State, e: Desc, outer: set<nat>)
    requires Core(s, e, outer)
    ensures Advance(s, s, outer)
  {
    hide Base;
    KeptSelf(s, e, outer);
    KeptUnion(s.code, s.code, Elems(e.t) + Elems(e.f), outer);
  }

  /** `luaK_dischargevars` on a local. */
  lemma KeepsVars(c: Ctx, s: State, e: Desc, outer: set<nat>)
    requires WF(s, e, outer) && Started(c, s, e.k)
    ensures Keeps(c, s, e, s, DischargeVars(e), outer)
  {
    hide Base;
    hide Lists;
    hide KindValue;
    var e1 := DischargeVars(e);
    VarsDenote(c, s.code, e);
    assert Stops(e1, outer) == Stops(e, outer);
    SelfAdvance(s, e, outer);
    hide Denote;
    assert Waiting(e1, outer) == Waiting(e, outer);
  }

  lemma VarsDenote(c: Ctx, code: seq<Instr>, e: Desc)
    ensures forall o :: Denote(c, code, DischargeVars(e), o) == Denote(c, code, e, o)
  {
  }

  /** Changing the register level only. */
  lemma LevelCore(c: Ctx, s: State, s': State, e: Desc, outer: set<nat>)
    requires Core(s, e, outer) && Started(c, s, e.k) && StackOK(s') && s'.nactvar == s.nactvar
    requires s.maxstack <= s'.maxstack
    requires s' == s.(freereg := s'.freereg, maxstack := s'.maxstack, failed := s'.failed) && (s.failed ==> s'.failed)
    ensures Core(s', e, outer) && Started(c, s', e.k) && Advance(s, s', outer)
    ensures RunE(c, s', e, outer) == RunE(c, s, e, outer)
  {
    SelfAdvance(s, e, outer);
  }

  lemma ReserveOK(s: State, n: nat)
    requires StackOK(s)
    ensures StackOK(Reserve(s, n))
  {
  }

  lemma FreeOK(s: State, e: Desc)
    requires StackOK(s) && RegOK(s, e.k)
    ensures StackOK(FreeExp(s, e)) && FreeExp(s, e).freereg == Floor(s, e.k)
    ensures FreeExp(s, e) == s.(freereg := FreeExp(s, e).freereg)
  {
  }

  /** The value has been put into the register at the register level. */
  lemma PlacedKeeps(c: Ctx, s: State, e: Desc, s0: State, s': State, reg: nat, outer: set<nat>)
    requires WF(s, e, outer) && InReg(c, s0, e, outer, reg, s') && Started(c, s', VNonReloc(reg))
    requires Advance(s, s0, outer)
    requires RunE(c, s0, e, outer) == RunE(c, s, e, outer) && s0.code == s.code
    requires reg == Floor(s, e.k) && s'.freereg == reg + 1 && s.nactvar <= reg
    ensures Keeps(c, s, e, s', Desc(VNonReloc(reg), [], []), outer)
  {
    var e' := Desc(VNonReloc(reg), [], []);
    assert Stops(e', outer) == outer && Waiting(e', outer) == outer;
    AdvanceTwice(s, s0, s', outer);
    NoLists(s'.code, outer);
    hide Base;
    hide Lists;
    hide Kept;
    if !s'.failed {
      assert reg != NO_REG;
      var o, o' := RunE(c, s, e, outer), RunE(c, s', e', outer);
      forall ev, regs0 | Sem(c, s, e, outer, ev, regs0, Floor(s, e.k))
        ensures Sem(c, s', e', outer, ev, regs0, Floor(s, e.k))
      {
        PlacedMeans(c, s, e, s', e', outer, reg, ev, regs0);
      }
    }
  }

  lemma NoLists(code: seq<Instr>, outer: set<nat>)
    requires Controlled(code, outer)
    ensures Lists(code, [], [], outer)
  {
  }

  lemma PlacedMeans(c: Ctx, s: State, e: Desc, s': State, e': Desc, outer: set<nat>, reg: nat, ev: Res, regs0: Regs)
    requires e' == Desc(VNonReloc(reg), [], []) && reg == Floor(s, e.k) && reg != NO_REG && Base(s', outer)
    requires var o := RunE(c, s, e, outer);
      Placed(o, Denote(c, s.code, e, o), outer, reg, RunE(c, s', e', outer), |s'.code|)
    requires Sem(c, s, e, outer, ev, regs0, Floor(s, e.k))
    ensures Sem(c, s', e', outer, ev, regs0, Floor(s, e.k))
  {
    hide RunS;
    StopsBelow(s', outer);
    hide Base;
  }

  /** `luaK_exp2nextreg`. */
  lemma NextRegKeeps(c: Ctx, s: State, e: Desc, outer: set<nat>)
    requires WF(s, e, outer) && Started(c, s, e.k) && Exp2NextReg(s, e).0.kst <= c.kst
    ensures var (s', e') := Exp2NextReg(s, e);
      Keeps(c, s, e, s', e', outer) && Floor(s, e.k) >= 0 && e' == Desc(VNonReloc(Floor(s, e.k)), [], [])
        && s'.freereg == Floor(s, e.k) + 1
  {
    hide Exp2Reg;
    var e1 := DischargeVars(e);
    KeepsVars(c, s, e, outer);
    FreeOK(s, e1);
    var s0 := Reserve(FreeExp(s, e1), 1);
    ReserveOK(FreeExp(s, e1), 1);
    LevelCore(c, s, s0, e1, outer);
    var reg := s0.freereg - 1;
    hide Core;
    Exp2RegSound(c, s0, e1, reg, outer);
    PlacedKeeps(c, s, e1, s0, Exp2Reg(s0, e1, reg).0, reg, outer);
    KeepsTwice(c, s, e, s, e1, Exp2Reg(s0, e1, reg).0, Desc(VNonReloc(reg), [], []), outer);
  }

  /** `luaK_exp2anyreg`: the value is in some register, and no jumps are left. */
  lemma AnyRegKeeps(c: Ctx, s: State, e: Desc, outer: set<nat>)
    requires WF(s, e, outer) && Started(c, s, e.k) && Exp2AnyReg(s, e).0.kst <= c.kst
    ensures var (s', e') := Exp2AnyReg(s, e);
      Keeps(c, s, e, s', e', outer) && e'.k.VNonReloc? && !HasJumps(e')
  {
    hide Exp2Reg;
    hide Exp2NextReg;
    hide Keeps;
    var e1 := DischargeVars(e);
    KeepsVars(c, s, e, outer);
    KeepsWF(c, s, e, s, e1, outer);
    if e1.k.VNonReloc? && !HasJumps(e1) {
    } else if e1.k.VNonReloc? && e1.k.reg >= s.nactvar {
      InPlaceKeeps(c, s, e1, outer);
      KeepsTwice(c, s, e, s, e1, Exp2Reg(s, e1, e1.k.reg).0, Desc(e1.k, [], []), outer);
      ExpRegDesc(s, e1, e1.k.reg);
    } else {
      NextRegKeeps(c, s, e1, outer);
      KeepsTwice(c, s, e, s, e1, Exp2NextReg(s, e1).0, Exp2NextReg(s, e1).1, outer);
    }
  }

  lemma KeepsWF(c: Ctx, s: State, e: Desc, s': State, e': Desc, outer: set<nat>)
    requires Keeps(c, s, e, s', e', outer)
    ensures WF(s', e', outer) && Started(c, s', e'.k) && Advance(s, s', outer) && Floor(s', e'.k) == Floor(s, e.k)
  {
  }

  lemma ExpRegDesc(s: State, e: Desc, reg: nat)
    ensures Exp2Reg(s, e, reg).1 == Desc(VNonReloc(reg), [], [])
  {
  }

  /** `exp2reg` of a value that is already in its temporary register. */
  lemma InPlaceKeeps(c: Ctx, s: State, e: Desc, outer: set<nat>)
    requires WF(s, e, outer) && Started(c, s, e.k) && e.k.VNonReloc? && e.k.reg >= s.nactvar
    requires Exp2Reg(s, e, e.k.reg).0.kst <= c.kst
    ensures Keeps(c, s, e, Exp2Reg(s, e, e.k.reg).0, Desc(e.k, [], []), outer)
  {
    hide Exp2Reg;
    SelfAdvance(s, e, outer);
    hide Core;
    Exp2RegSound(c, s, e, e.k.reg, outer);
    PlacedKeeps(c, s, e, s, Exp2Reg(s, e, e.k.reg).0, e.k.reg, outer);
  }

  /** `luaK_exp2val`. */
  lemma ValKeeps(c: Ctx, s: State, e: Desc, outer: set<nat>)
    requires WF(s, e, outer) && Started(c, s, e.k) && Exp2Val(s, e).0.kst <= c.kst
    ensures var (s', e') := Exp2Val(s, e); Keeps(c, s, e, s', e', outer) && !HasJumps(e') && !e'.k.VLocal?
  {
    hide Exp2AnyReg;
    hide Keeps;
    if HasJumps(e) {
      AnyRegKeeps(c, s, e, outer);
    } else {
      KeepsVars(c, s, e, outer);
    }
  }

  /** A literal moved to the constant table. */
  lemma ConstKeeps(c: Ctx, s: State, e: Desc, outer: set<nat>)
    requires WF(s, e, outer) && Started(c, s, e.k) && ConstantOf(e.k).Some?
    requires AddK(s, ConstantOf(e.k).value).0.kst <= c.kst
    ensures var (s', i) := AddK(s, ConstantOf(e.k).value);
      Keeps(c, s, e, s', e.(k := VK(i)), outer) && s'.freereg == s.freereg
  {
    var v := ConstantOf(e.k).value;
    var (s', i) := AddK(s, v);
    var e' := e.(k := VK(i));
    AddKSound(s, v);
    AddKExact(s, v);
    CoreConst(s, s', e, outer);
    SelfAdvance(s, e, outer);
    hide AddK;
    hide Base;
    hide Lists;
    hide Kept;
    assert Stops(e', outer) == Stops(e, outer) && Waiting(e', outer) == Waiting(e, outer);
    assert RunE(c, s', e', outer) == RunE(c, s, e, outer);
    ConstDenote(c, s.code, e, v, i);
    hide Denote;
  }

  lemma ConstDenote(c: Ctx, code: seq<Instr>, e: Desc, v: Value, i: nat)
    requires ConstantOf(e.k) == Some(v) && i < |c.kst| && c.kst[i] == v
    ensures forall o :: Denote(c, code, e.(k := VK(i)), o) == Denote(c, code, e, o)
  {
  }

  /** The operand form of a descriptor. */
  ghost predicate IsOperand(k: Kind, rk: RK) {
    (k.VK? && rk == K(k.info)) || (k.VNonReloc? && rk == R(k.reg))
  }

  /** `luaK_exp2RK`. */
  lemma RKKeeps(c: Ctx, s: State, e: Desc, outer: set<nat>)
    requires WF(s, e, outer) && Started(c, s, e.k) && Exp2RK(s, e).0.kst <= c.kst
    ensures var (s', e', rk) := Exp2RK(s, e);
      Keeps(c, s, e, s', e', outer) && !HasJumps(e') && IsOperand(e'.k, rk)
  {
    hide Exp2AnyReg;
    hide Exp2Val;
    hide Keeps;
    hide AddK;
    var (s1, e1) := Exp2Val(s, e);
    var (s', e', rk) := Exp2RK(s, e);
    RKGrows(s, e);
    ValKeeps(c, s, e, outer);
    KeepsWF(c, s, e, s1, e1, outer);
    if ConstantOf(e1.k).Some? {
      var (s2, i) := AddK(s1, ConstantOf(e1.k).value);
      var e2 := e1.(k := VK(i));
      ConstKeeps(c, s1, e1, outer);
      KeepsTwice(c, s, e, s1, e1, s2, e2, outer);
      KeepsWF(c, s, e, s2, e2, outer);
      if i > MAXINDEXRK {
        AnyRegKeeps(c, s2, e2, outer);
        KeepsTwice(c, s, e, s2, e2, Exp2AnyReg(s2, e2).0, Exp2AnyReg(s2, e2).1, outer);
      }
    } else if !(e1.k.VK? && e1.k.info <= MAXINDEXRK) {
      AnyRegKeeps(c, s1, e1, outer);
      KeepsTwice(c, s, e, s1, e1, Exp2AnyReg(s1, e1).0, Exp2AnyReg(s1, e1).1, outer);
    }
  }
}
