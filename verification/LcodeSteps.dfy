/** What the code generator relies on between its steps: the lists it is about to walk are
    chains, the instructions it is about to change are there, and registers are freed from the
    top of the stack. */
module LcodeSteps {
  import opened LuaVM
  import opened LuaExpr
  import opened LcodeSpec
  import opened LcodeGrow
  import opened LcodeRun
  import opened LcodeInv
  import opened LcodeEmit
  import opened LcodePlace
  import opened LcodeClose
  import opened LcodeExpr
  import opened LcodeOps
  import opened LcodeCond
  import opened LcodeValue
  import opened LcodeBinary
  import opened LcodeLate
  import opened LcodeCompile
  import opened LcodeMain

  function Head(l: seq<nat>): int {
    if l == [] then NO_JUMP else l[0]
  }

  lemma NoDupTail(l: seq<nat>)
    requires NoDup(l) && l != []
    ensures NoDup(l[1..]) && l[0] !in Elems(l[1..])
  {
    forall i, j | 0 <= i < j < |l[1..]| ensures l[1..][i] != l[1..][j] {
      assert l[i + 1] != l[j + 1];
    }
  }

  lemma ChainRest(code: seq<Instr>, l: seq<nat>)
    requires Chain(code, l) && l != []
    ensures Chain(code, l[1..])
  {
    var rest := l[1..];
    forall i | 0 <= i < |rest| ensures rest[i] < |code| && code[rest[i]] == Jmp(LinkOffset(rest, i)) {
      var j := i + 1;
      assert rest[i] == l[j] && code[l[j]] == Jmp(LinkOffset(l, j));
    }
  }

  lemma ChainTail(code: seq<Instr>, l: seq<nat>)
    requires Chain(code, l) && NoDup(l) && l != []
    ensures Chain(code, l[1..]) && NoDup(l[1..]) && l[0] !in Elems(l[1..])
    ensures l[0] < |code| && code[l[0]].Jmp?
    ensures Head(l[1..]) == if code[l[0]].sbx == NO_JUMP then NO_JUMP else l[0] + 1 + code[l[0]].sbx
  {
    NoDupTail(l);
    ChainRest(code, l);
    assert |l| > 1 ==> l[1] != l[0];
    assert code[l[0]] == Jmp(LinkOffset(l, 0));
    hide Chain;
    hide NoDup;
    hide Elems;
  }

  lemma PatchOneChain(s: State, p: nat, vtarget: int, reg: nat, dtarget: int, l: seq<nat>)
    requires Chain(s.code, l) && p !in Elems(l) && p < |s.code| && s.code[p].Jmp?
    ensures Chain(PatchOne(s, p, vtarget, reg, dtarget).code, l)
  {
    PatchOneAt(s, p, vtarget, reg, dtarget);
    var s' := PatchOne(s, p, vtarget, reg, dtarget);
    forall i | 0 <= i < |l| ensures l[i] < |s'.code| && s'.code[l[i]] == Jmp(LinkOffset(l, i)) {
      assert l[i] in Elems(l) && s.code[l[i]] == Jmp(LinkOffset(l, i));
      assert s'.code[l[i]] == PatchedInstr(s.code, {p}, vtarget, reg, dtarget, l[i]);
    }
  }

  lemma PatchTestChain(code: seq<Instr>, p: nat, reg: nat, l: seq<nat>)
    requires Chain(code, l)
    ensures Chain(PatchTestReg(code, p, reg), l)
  {
    forall i | 0 <= i < |l| ensures l[i] < |code| && PatchTestReg(code, p, reg)[l[i]] == Jmp(LinkOffset(l, i)) {
      assert code[l[i]] == Jmp(LinkOffset(l, i));
    }
  }

  lemma {:induction false} PatchListLength(s: State, l: seq<nat>, vtarget: int, reg: nat, dtarget: int)
    ensures |PatchList(s, l, vtarget, reg, dtarget).code| == |s.code|
    decreases |l|
  {
    if l != [] {
      PatchListLength(PatchOne(s, l[0], vtarget, reg, dtarget), l[1..], vtarget, reg, dtarget);
    }
  }

  // ---------- the lists of a state and a descriptor ----------

  ghost predicate Threads(s: State) {
    Chain(s.code, s.jpc) && NoDup(s.jpc)
  }

  ghost predicate Chains(code: seq<Instr>, e: Desc) {
    Chain(code, e.t) && NoDup(e.t) && Chain(code, e.f) && NoDup(e.f)
  }

  /** A run of the whole code; the values in the locals do not matter. */
  function FromStart(m: Machine, kst: seq<Value>): Ctx {
    Ctx(m, kst, 0, map[], [])
  }

  lemma StartedHere(m: Machine, kst: seq<Value>, s: State, e: Desc, outer: set<nat>)
    requires Core(s, e, outer)
    ensures Started(FromStart(m, kst), s, e.k)
  {
  }

  lemma CoreChains(s: State, e: Desc, outer: set<nat>)
    requires Core(s, e, outer)
    ensures Threads(s) && Chains(s.code, e) && KindCode(s, e.k) && Elems(s.jpc) !! Waiting(e, outer)
    ensures e.k.VJmp? ==> Elems(e.t) !! {e.k.pc} && Chain(s.code, [e.k.pc])
  {
  }

  lemma WFCore(s: State, e: Desc, outer: set<nat>)
    requires WF(s, e, outer)
    ensures Core(s, e, outer) && RegOK(s, e.k)
  {
  }

  /** `hasjumps` may compare the heads: no jump is in both lists. */
  lemma HeadsDiffer(code: seq<Instr>, e: Desc, outer: set<nat>)
    requires Lists(code, e.t, e.f, outer)
    ensures Head(e.t) == Head(e.f) <==> !HasJumps(e)
  {
    if e.t != [] && e.f != [] {
      assert e.t[0] in Elems(e.t) && e.f[0] in Elems(e.f);
    }
  }

  lemma WFHeads(s: State, e: Desc, outer: set<nat>)
    requires WF(s, e, outer)
    ensures Head(e.t) == Head(e.f) <==> !HasJumps(e)
  {
    HeadsDiffer(s.code, e, outer);
  }

  /** `discharge2reg` leaves the lists alone. */
  lemma PlaceChains(m: Machine, s: State, e: Desc, reg: nat, outer: set<nat>)
    requires Core(s, e, outer) && !e.k.VJmp?
    ensures var (s', e') := Discharge2Reg(s, e, reg);
      && Threads(s') && Base(s', Waiting(e, outer)) && Lists(s'.code, e.t, e.f, outer) && e' == e.(k := VNonReloc(reg))
  {
    hide Discharge2Reg;
    var c := FromStart(m, Discharge2Reg(s, e, reg).0.kst);
    StartedHere(m, c.kst, s, e, outer);
    PlaceValue(c, s, e, reg, outer);
  }

  /** A test's own jump joins its true list. */
  lemma TestClose(m: Machine, s: State, e: Desc, outer: set<nat>)
    requires Core(s, e, outer) && e.k.VJmp?
    ensures var s', t := Link(s, e.t, [e.k.pc]), e.t + [e.k.pc];
      && s'.jpc == [] && Base(s', Elems(t) + Elems(e.f) + outer) && Lists(s'.code, t, e.f, outer)
  {
    hide Run;
    hide Closed;
    hide Chain;
    hide Frame;
    var c, stops := FromStart(m, s.kst), Stops(e, outer);
    StartedHere(m, s.kst, s, e, outer);
    assert Elems([e.k.pc]) == {e.k.pc};
    TestChain(s, e, outer);
    LinkRun(c, s, e.t, [e.k.pc], stops);
    TestLists(s, e, outer);
    TestBase(s, e, outer);
    assert Elems(e.t + [e.k.pc]) + Elems(e.f) + outer == stops;
  }

  lemma TestDischarge(s: State, e: Desc, reg: nat)
    requires e.k.VJmp?
    ensures Discharge2Reg(s, e, reg) == (s, e)
  {
  }

  /** The lists while the `LOADBOOL` pair is emitted. */
  lemma BoolsChains(m: Machine, s: State, isJump: bool, t: seq<nat>, f: seq<nat>, reg: nat, outer: set<nat>)
    requires Base(s, Elems(t) + Elems(f) + outer) && Lists(s.code, t, f, outer) && (isJump ==> s.jpc == [])
    ensures var s1 := LoadBools(s, isJump, reg); Chains(s1.code, Desc(VNil, t, f)) && |s1.code| >= 2
  {
    hide Run;
    hide LoadBools;
    var c := FromStart(m, s.kst);
    LoadBoolsRun(c, s, isJump, reg, Elems(t) + Elems(f) + outer);
    JpcJumps(s, Elems(t) + Elems(f) + outer);
    ListsKept(s.code, LoadBools(s, isJump, reg).code, t, f, outer, Elems(s.jpc));
  }

  lemma ListsChains(s: State, t: seq<nat>, f: seq<nat>, outer: set<nat>)
    requires Base(s, Elems(t) + Elems(f) + outer) && Lists(s.code, t, f, outer)
    ensures Threads(s) && Chains(s.code, Desc(VNil, t, f)) && Elems(t) !! Elems(f)
  {
  }

  /** Patching one list leaves the other one alone. */
  lemma SecondChain(s: State, f: seq<nat>, t: seq<nat>, vtarget: int, reg: nat, dtarget: int)
    requires Chain(s.code, f) && NoDup(f) && Chain(s.code, t) && Elems(f) !! Elems(t)
    ensures Chain(PatchList(s, f, vtarget, reg, dtarget).code, t)
  {
    var s' := PatchList(s, f, vtarget, reg, dtarget);
    ChainJumps(s.code, f);
    PatchListPatched(s, f, vtarget, reg, dtarget);
    PatchedFrame(s.code, s'.code, Elems(f), vtarget, reg, dtarget);
    ChainKept(s.code, s'.code, t, Elems(f));
  }

  lemma CondJumpHead(s: State, i: Instr)
    ensures CondJump(s, i).1 != [] && CondJump(s, i).1[0] == |s.code| + 1
  {
    PatchListLength(s, s.jpc, |s.code|, NO_REG, |s.code|);
  }

  // ---------- freeing registers ----------

  /** What `freereg` asserts when it frees the registers of both expressions. */
  predicate Stacked(s: State, k1: Kind, k2: Kind) {
    var r1 := if k1.VNonReloc? && k1.reg >= s.nactvar then k1.reg as int else -1;
    var r2 := if k2.VNonReloc? && k2.reg >= s.nactvar then k2.reg as int else -1;
    if r1 < 0 || r2 < 0 then (r1 < 0 || r1 + 1 == s.freereg) && (r2 < 0 || r2 + 1 == s.freereg)
    else if r1 > r2 then r1 + 1 == s.freereg && r2 + 2 == s.freereg
    else r2 + 1 == s.freereg && r1 + 2 == s.freereg
  }

  lemma BothStacked(s: State, d1: Desc, d2: Desc)
    requires RegOK(s, d2.k) && OperandOK(s, d1, d2)
    ensures Stacked(s, d1.k, d2.k)
  {
  }

  // ---------- what each operation keeps ----------

  lemma NextRegWF(m: Machine, s: State, e: Desc, outer: set<nat>)
    requires WF(s, e, outer)
    ensures WF(Exp2NextReg(s, e).0, Exp2NextReg(s, e).1, outer)
  {
    hide Exp2NextReg;
    var (s', e') := Exp2NextReg(s, e);
    var c := FromStart(m, s'.kst);
    StartedHere(m, c.kst, s, e, outer);
    NextRegKeeps(c, s, e, outer);
    KeepsWF(c, s, e, s', e', outer);
  }

  /** What `luaK_exp2nextreg` passes to `exp2reg`. */
  lemma NextRegCore(m: Machine, s: State, e: Desc, outer: set<nat>)
    requires WF(s, e, outer)
    ensures Core(Reserve(FreeExp(s, DischargeVars(e)), 1), DischargeVars(e), outer)
    ensures RegOK(s, DischargeVars(e).k)
  {
    var c := FromStart(m, s.kst);
    StartedHere(m, c.kst, s, e, outer);
    KeepsVars(c, s, e, outer);
    FreeOK(s, DischargeVars(e));
    ReserveOK(FreeExp(s, DischargeVars(e)), 1);
    LevelCore(c, s, Reserve(FreeExp(s, DischargeVars(e)), 1), DischargeVars(e), outer);
  }

  lemma AnyRegWF(m: Machine, s: State, e: Desc, outer: set<nat>)
    requires WF(s, e, outer)
    ensures WF(Exp2AnyReg(s, e).0, Exp2AnyReg(s, e).1, outer) && Exp2AnyReg(s, e).1.k.VNonReloc?
    ensures !HasJumps(Exp2AnyReg(s, e).1)
  {
    hide Exp2AnyReg;
    var (s', e') := Exp2AnyReg(s, e);
    var c := FromStart(m, s'.kst);
    StartedHere(m, c.kst, s, e, outer);
    AnyRegKeeps(c, s, e, outer);
    KeepsWF(c, s, e, s', e', outer);
  }

  lemma ValWF(m: Machine, s: State, e: Desc, outer: set<nat>)
    requires WF(s, e, outer)
    ensures WF(Exp2Val(s, e).0, Exp2Val(s, e).1, outer) && Floor(Exp2Val(s, e).0, Exp2Val(s, e).1.k) == Floor(s, e.k)
  {
    hide Exp2Val;
    var (s', e') := Exp2Val(s, e);
    var c := FromStart(m, s'.kst);
    StartedHere(m, c.kst, s, e, outer);
    ValKeeps(c, s, e, outer);
    KeepsWF(c, s, e, s', e', outer);
  }

  /** A literal moved to the constant table. */
  lemma ConstWF(m: Machine, s: State, e: Desc, outer: set<nat>)
    requires WF(s, e, outer) && ConstantOf(e.k).Some?
    ensures var (s', i) := AddK(s, ConstantOf(e.k).value); WF(s', e.(k := VK(i)), outer)
  {
    hide AddK;
    var (s', i) := AddK(s, ConstantOf(e.k).value);
    var c := FromStart(m, s'.kst);
    StartedHere(m, c.kst, s, e, outer);
    ConstKeeps(c, s, e, outer);
    KeepsWF(c, s, e, s', e.(k := VK(i)), outer);
  }

  lemma RKWF(m: Machine, s: State, e: Desc, outer: set<nat>)
    requires WF(s, e, outer)
    ensures var (s', e', rk) := Exp2RK(s, e);
      WF(s', e', outer) && Floor(s', e'.k) == Floor(s, e.k) && s'.nactvar == s.nactvar && s.kst <= s'.kst
  {
    hide Exp2RK;
    var (s', e', rk) := Exp2RK(s, e);
    var c := FromStart(m, s'.kst);
    StartedHere(m, c.kst, s, e, outer);
    RKKeeps(c, s, e, outer);
    KeepsWF(c, s, e, s', e', outer);
  }

  /** The steps of `luaK_exp2RK`. */
  lemma RKSteps(m: Machine, s: State, e: Desc, outer: set<nat>)
    ensures var (s1, e1) := Exp2Val(s, e); var v := ConstantOf(e1.k);
      WF(s, e, outer) ==>
        && WF(s1, e1, outer) && (v.Some? ==> WF(AddK(s1, v.value).0, e1.(k := VK(AddK(s1, v.value).1)), outer))
        && WF(Exp2RK(s, e).0, Exp2RK(s, e).1, outer)
    ensures Settled(s, e) ==> Exp2Val(s, e) == (s, e)
  {
    hide WF;
    if WF(s, e, outer) {
      hide Exp2Val;
      hide Exp2RK;
      hide AddK;
      var (s1, e1) := Exp2Val(s, e);
      ValWF(m, s, e, outer);
      if ConstantOf(e1.k).Some? {
        ConstWF(m, s1, e1, outer);
      }
      RKWF(m, s, e, outer);
    }
  }

  lemma StoreCore(m: Machine, s: State, e: Desc, outer: set<nat>)
    requires WF(s, e, outer)
    ensures Core(FreeExp(s, e), e, outer)
  {
    var c := FromStart(m, s.kst);
    StartedHere(m, c.kst, s, e, outer);
    FreeOK(s, e);
    LevelCore(c, s, FreeExp(s, e), e, outer);
  }

  lemma AnyPlaceWF(m: Machine, s: State, e: Desc, outer: set<nat>)
    requires WF(s, e, outer) && !e.k.VJmp?
    ensures var (s', e') := Discharge2AnyReg(s, e); WF(s', e', outer) && e'.k.VNonReloc?
  {
    hide Discharge2AnyReg;
    var (s', e') := Discharge2AnyReg(s, e);
    var c := FromStart(m, s'.kst);
    StartedHere(m, c.kst, s, e, outer);
    AnyPlaceKeeps(c, s, e, outer);
    KeepsWF(c, s, e, s', e', outer);
  }

  lemma VarsWF(m: Machine, s: State, e: Desc, outer: set<nat>)
    requires WF(s, e, outer)
    ensures WF(s, DischargeVars(e), outer)
  {
    var c := FromStart(m, s.kst);
    StartedHere(m, c.kst, s, e, outer);
    KeepsVars(c, s, e, outer);
    KeepsWF(c, s, e, s, DischargeVars(e), outer);
  }

  // ---------- conditions ----------

  lemma JumpOnCondChains(m: Machine, s: State, e: Desc, cond: bool, outer: set<nat>)
    requires WF(s, e, outer) && !e.k.VJmp?
    ensures var (s', k, l) := JumpOnCond(s, e, cond);
      && s'.jpc == [] && Chains(s'.code, e)
  {
    hide CondJump;
    hide Discharge2AnyReg;
    var (s', k, l) := JumpOnCond(s, e, cond);
    var c := FromStart(m, s'.kst);
    StartedHere(m, c.kst, s, e, outer);
    if e.k.VReloc? && s.code[|s.code| - 1].Not? {
      BranchNot(c, s, e, cond, outer);
      CondJumpSettles(s.(code := s.code[..|s.code| - 1]), Test(s.code[|s.code| - 1].b, !cond));
    } else {
      var (s2, e2) := Discharge2AnyReg(s, e);
      JumpOnCondGrows(s, e, cond);
      AnyPlaceKeeps(c, s, e, outer);
      KeepsWF(c, s, e, s2, e2, outer);
      BranchReg(c, s2, e2, cond, outer);
      CondJumpSettles(FreeExp(s2, e2), TestSet(NO_REG, e2.k.reg, cond));
    }
  }

  lemma CondJumpSettles(s: State, i: Instr)
    ensures CondJump(s, i).0.jpc == []
  {
  }

  lemma CutThreads(s: State)
    requires s.jpc == []
    ensures Threads(s.(code := s.code[..if |s.code| > 0 then |s.code| - 1 else 0]))
  {
  }

  /** The first half of `luaK_goiftrue` and `luaK_goiffalse`: the new jump. */
  function Branch(s: State, e: Desc, cond: bool): (State, Kind, seq<nat>) {
    if e.k.VJmp? then (s.(code := if cond then s.code else Negate(s.code, e.k.pc)), e.k, [e.k.pc])
    else if (if cond then AlwaysFalse(e.k) else AlwaysTrue(e.k)) then (s, e.k, [])
    else JumpOnCond(s, e, cond)
  }

  /** The second half: it joins one list, the other list ends here. */
  lemma GoIfBranch(s: State, e: Desc, cond: bool)
    ensures var e1 := DischargeVars(e); var (s1, k, l) := Branch(s, e1, cond);
      GoIf(s, e, cond) ==
        (JoinState(s1, e1, cond, l), if cond then Desc(k, e1.t + l, []) else Desc(k, [], e1.f + l))
  {
    hide JumpOnCond;
    hide Link;
    hide Negate;
    hide PatchToHere;
  }

  /** The lists that they walk. */
  lemma BranchChains(m: Machine, s: State, e: Desc, cond: bool, outer: set<nat>)
    requires WF(s, e, outer) && !e.k.VLocal?
    ensures var (s1, k, l) := Branch(s, e, cond);
      Threads(Link(s1, Joined(e, cond), l)) && Chains(s1.code, e)
  {
    hide JumpOnCond;
    CoreChains(s, e, outer);
    if e.k.VJmp? {
      NegateCode(s, e, outer);
      var code' := Negate(s.code, e.k.pc);
      ChainKept(s.code, code', e.t, {e.k.pc});
      ChainKept(s.code, code', e.f, {e.k.pc});
    } else {
      JumpOnCondChains(m, s, e, cond, outer);
    }
  }

  lemma GoIfWF(m: Machine, s: State, e: Desc, cond: bool, outer: set<nat>)
    requires WF(s, e, outer) && Testable(s, e.k)
    ensures var (s', e') := GoIf(s, e, cond); var l := if cond then e'.t else e'.f;
      && WF(s', Fresh, Elems(l) + outer) && Threads(s') && ListOK(s'.code, l) && Elems(l) !! outer
      && s'.nactvar == s.nactvar && s'.freereg == Floor(s, e.k)
  {
    hide GoIf;
    var (s', e') := GoIf(s, e, cond);
    var l := if cond then e'.t else e'.f;
    var c := FromStart(m, s'.kst);
    StartedHere(m, c.kst, s, e, outer);
    GoIfSound(c, s, e, cond, outer);
    GoneReady(c, s, outer, s', l, Floor(s, e.k));
    CoreChains(s', Fresh, Elems(l) + outer);
  }

  /** `codenot` before the lists are exchanged. */
  lemma NegateCore(m: Machine, s: State, e: Desc, outer: set<nat>)
    requires WF(s, e, outer) && Testable(s, e.k) && !e.k.VLocal?
    ensures var (s', k) := NegateValue(s, e); Core(s', e.(k := k), outer)
  {
    hide Discharge2AnyReg;
    hide Emit;
    hide Negate;
    var (s', k) := NegateValue(s, e);
    var c := FromStart(m, s'.kst);
    StartedHere(m, c.kst, s, e, outer);
    if AlwaysFalse(e.k) || AlwaysTrue(e.k) {
      NegateConst(c, s, e, k, outer);
    } else if e.k.VJmp? {
      NegateTest(c, s, e, outer);
    } else {
      var (s2, e2) := Discharge2AnyReg(s, e);
      EmitGrows(FreeExp(s2, e2), Not(0, if e2.k.VNonReloc? then e2.k.reg else 0));
      AnyPlaceKeeps(c, s, e, outer);
      KeepsWF(c, s, e, s2, e2, outer);
      NegateReg(c, s2, e2, outer);
      assert e2.(k := k) == e.(k := k);
    }
  }

  lemma {:induction false} RemoveChain(code: seq<Instr>, list: seq<nat>, l: seq<nat>)
    requires Chain(code, l)
    ensures Chain(RemoveValues(code, list), l)
    decreases |list|
  {
    if list != [] {
      PatchTestChain(code, list[0], NO_REG, l);
      RemoveChain(PatchTestReg(code, list[0], NO_REG), list[1..], l);
    }
  }

  lemma CodeNotWF(m: Machine, s: State, e: Desc, outer: set<nat>)
    requires WF(s, e, outer) && Testable(s, e.k)
    ensures WF(CodeNot(s, e).0, CodeNot(s, e).1, outer)
  {
    hide CodeNot;
    var (s', e') := CodeNot(s, e);
    var c := FromStart(m, s'.kst);
    StartedHere(m, c.kst, s, e, outer);
    CodeNotSound(c, s, e, outer);
  }

  // ---------- operators ----------

  /** What `luaK_posfix` may assume of its operands: the first one is set aside. */
  ghost predicate Operands(m: Machine, s: State, op: BinOpr, d: Desc, d2: Desc, outer: set<nat>) {
    && WF(s, d2, outer)
    && (Strict(op) ==>
          && OperandOK(s, d, d2) && ConcatShape(s, d2.k)
          && (op.OprConcat? ==> ConcatOperand(s, d, d2)) && (op.OprRel? ==> d.k.VK? || d.k.VNonReloc?)
          && (op.OprArith? ==> Floor(s, d2.k) == s.freereg))
  }

  lemma UnaryWF(m: Machine, s: State, op: UnOp, e: Desc, outer: set<nat>)
    requires WF(s, e, outer)
    ensures WF(CodeUnExpVal(s, op, e).0, CodeUnExpVal(s, op, e).1, outer)
  {
    hide CodeUnExpVal;
    var (s', e') := CodeUnExpVal(s, op, e);
    var c := FromStart(m, s'.kst);
    StartedHere(m, c.kst, s, e, outer);
    CodeUnSound(c, s, op, e, outer);
  }

  /** Something has been emitted behind the instruction that waits for its register. */
  ghost predicate Buried(s: State, e: Desc, outer: set<nat>) {
    && e.k.VReloc? && e.k.pc < |s.code| && Relocatable(s.code[e.k.pc])
    && s.nactvar <= s.freereg && WF(Taken(s, e).0, Taken(s, e).1, outer)
  }

  /** What `exp2reg` needs of it. */
  ghost predicate Placeable(s: State, e: Desc, reg: nat, outer: set<nat>) {
    && e.k.VReloc? && e.k.pc < |s.code| && Relocatable(s.code[e.k.pc])
    && (var s' := Discharge2Reg(s, e, reg).0;
        Threads(s') && Base(s', Waiting(e, outer)) && Lists(s'.code, e.t, e.f, outer))
  }

  lemma BuriedNext(m: Machine, s: State, e: Desc, outer: set<nat>)
    requires Buried(s, e, outer)
    ensures Placeable(Reserve(s, 1), e, s.freereg, outer) && (Head(e.t) == Head(e.f) <==> !HasJumps(e))
    ensures WF(Exp2NextReg(s, e).0, Exp2NextReg(s, e).1, outer) && Exp2AnyReg(s, e) == Exp2NextReg(s, e)
    ensures WF(Exp2RK(s, e).0, Exp2RK(s, e).1, outer)
  {
    hide WF;
    hide Exp2RK;
    hide Exp2Reg;
    hide Taken;
    var (u, eu) := Taken(s, e);
    BuriedPlace(s, e, outer);
    TakenRK(s, e);
    TakenNext(s, e);
    hide Exp2NextReg;
    AnyRegWF(m, u, eu, outer);
    RKWF(m, u, eu, outer);
  }

  lemma BuriedConstant(s: State, e: Desc, outer: set<nat>)
    requires ConstantOf(e.k).Some?
    ensures !Buried(s, e, outer)
  {
  }

  lemma BuriedPlace(s: State, e: Desc, outer: set<nat>)
    requires Buried(s, e, outer)
    ensures Placeable(Reserve(s, 1), e, s.freereg, outer) && (Head(e.t) == Head(e.f) <==> !HasJumps(e))
    ensures Exp2AnyReg(s, e) == Exp2NextReg(s, e)
  {
    hide Exp2NextReg;
    var (u, eu) := Taken(s, e);
    assert u == Discharge2Reg(Reserve(s, 1), e, s.freereg).0 && eu == e.(k := VNonReloc(s.freereg));
    hide Taken;
    hide Discharge2Reg;
    LiveLists(u, eu, outer);
    hide WF;
    hide Base;
    hide Lists;
    hide Threads;
    HeadsDiffer(u.code, eu, outer);
    assert Waiting(eu, outer) == Waiting(e, outer);
  }

  lemma LiveLists(s: State, e: Desc, outer: set<nat>)
    requires WF(s, e, outer) && e.k.VNonReloc?
    ensures Threads(s) && Base(s, Waiting(e, outer)) && Lists(s.code, e.t, e.f, outer)
  {
    assert Waiting(e, outer) + KStops(e.k) == Waiting(e, outer);
  }

  lemma TakenNext(s: State, e: Desc)
    requires e.k.VReloc? && s.nactvar <= s.freereg
    ensures var (u, eu) := Taken(s, e); Exp2NextReg(s, e) == Exp2AnyReg(u, eu)
  {
    hide CloseLists;
    var (u, d) := Taken(s, e);
    assert Exp2Reg(Reserve(s, 1), e, s.freereg) == Exp2Reg(u, d, s.freereg);
  }

  /** Both operands of an arithmetic operation in R/K form: the first one needs no code, or it is
      loaded while the jumps of the second one wait. */
  lemma BinSteps(m: Machine, s: State, op: ArithOp, d: Desc, d2: Desc, outer: set<nat>)
    requires WF(s, d2, outer) && OperandOK(s, d, d2) && Floor(s, d2.k) == s.freereg
    ensures if Named(s, d) then Settled(s, d) else WF(s, d, Pending(d2, outer)) && Floor(s, d.k) == s.freereg
    ensures var (s1, d1, rk1) := Exp2RK(s, d); var (u, eu) := Second(s, d, d2); var (s2, e2, rk2) := Exp2RK(s1, d2);
      && WF(u, eu, outer) && Exp2RK(u, eu) == Exp2RK(s1, d2) && !HasJumps(d1)
      && Floor(u, eu.k) == s.freereg + (if Named(s, d) then 0 else 1)
      && WF(s2, e2, outer) && Stacked(s2, d1.k, e2.k)
      && (WF(s1, d2, outer) || Buried(s1, d2, outer))
  {
    hide Exp2RK;
    hide Taken;
    hide Core;
    hide AddK;
    var (s1, d1, rk1) := Exp2RK(s, d);
    var (u, eu) := Second(s, d, d2);
    var (s2, e2, rk2) := Exp2RK(s1, d2);
    CodeBinGrows(s, op, d, d2);
    var c := FromStart(m, CodeBinExpVal(s, op, d, d2).0.kst);
    hide CodeBinExpVal;
    StartedHere(m, c.kst, s, d2, outer);
    if Named(s, d) {
      FirstSettled(c, s, d, d2, outer);
      FirstRK(c, s, d, d2, outer);
      KeepsWF(c, s, d2, s1, d2, outer);
      FirstLevel(c, s, d2, s1, outer);
    } else {
      OperandsLate(s, d, d2);
      LateReady(c, s, d, d2, outer);
      LateTaken(c, s, d, d2, outer);
      LateBuried(s, d, d2, outer);
    }
    RKWF(m, u, eu, outer);
    AsideStacked(u, d1, eu, s2, e2);
  }

  lemma LateBuried(s: State, d: Desc, e2: Desc, outer: set<nat>)
    requires WF(s, e2, outer) && LateOperands(s, d, e2)
    requires WF(Taken(Exp2RK(s, d).0, e2).0, Taken(Exp2RK(s, d).0, e2).1, outer)
    ensures var s1 := Exp2RK(s, d).0; WF(s1, e2, outer) || Buried(s1, e2, outer)
  {
    hide Emit;
    hide Base;
    hide Lists;
    hide AddK;
    LateCode(s, d);
    LevelUp(s, d);
    hide Exp2RK;
    if e2.k.VReloc? {
      RelocCode(s, d, e2);
      hide WF;
    }
  }

  lemma FirstLevel(c: Ctx, s: State, e: Desc, s': State, outer: set<nat>)
    requires Keeps(c, s, e, s', e, outer)
    ensures Floor(s', e.k) == Floor(s, e.k)
  {
  }

  lemma FirstSettled(c: Ctx, s: State, d: Desc, d2: Desc, outer: set<nat>)
    requires WF(s, d2, outer) && OperandOK(s, d, d2) && Exp2RK(s, d).0.kst <= c.kst && Named(s, d)
    ensures Settled(s, d) && Exp2RK(s, d).0.code == s.code && Exp2RK(s, d).0.jpc == s.jpc
  {
    hide Exp2AnyReg;
    RKGrows(s, d);
    assert StackOK(s);
    hide WF;
    if d.k.VKInt? || d.k.VKFlt? {
      FirstConst(c, s, d, ConstantOf(d.k).value);
    } else {
      FirstSame(c, s, d, d2);
    }
  }

  lemma AsideStacked(s: State, d1: Desc, d2: Desc, s': State, e2: Desc)
    requires OperandOK(s, d1, d2) && RegOK(s', e2.k) && Floor(s', e2.k) == Floor(s, d2.k)
    requires s'.nactvar == s.nactvar && s.kst <= s'.kst
    ensures Stacked(s', d1.k, e2.k)
  {
    BothStacked(s', d1, e2);
  }

  lemma CompSteps(m: Machine, s: State, d: Desc, d2: Desc, outer: set<nat>)
    requires WF(s, d2, outer) && OperandOK(s, d, d2)
    ensures var (s2, e2, rk2) := Exp2RK(s, d2); WF(s2, e2, outer) && Stacked(s2, d.k, e2.k) && !HasJumps(d)
  {
    hide Exp2RK;
    var (s2, e2, rk2) := Exp2RK(s, d2);
    RKWF(m, s, d2, outer);
    AsideStacked(s, d, d2, s2, e2);
  }

  /** A concatenation that is not merged: both operands on top of the stack. */
  lemma ConcatSteps(m: Machine, s: State, d: Desc, d2: Desc, outer: set<nat>)
    requires WF(s, d2, outer) && ConcatOperand(s, d, d2) && ConcatShape(s, d2.k)
    ensures var (s1, e1) := Exp2Val(s, d2); var (s2, e2) := Exp2NextReg(s1, e1);
      && WF(s1, e1, outer) && (CanMergeConcat(s1, e1) ==> d.k.reg + 1 == s1.freereg == s1.code[e1.k.pc].b)
      && WF(s2, e2, outer) && Stacked(s2, d.k, e2.k)
      && d.k.reg < s2.freereg && e2 == Desc(VNonReloc(d.k.reg + 1), [], [])
  {
    hide Exp2NextReg;
    hide Exp2AnyReg;
    var (s1, e1) := Exp2Val(s, d2);
    var (s2, e2) := Exp2NextReg(s1, e1);
    var c := FromStart(m, s2.kst);
    ValGrows(s, d2);
    NextRegGrows(s1, e1);
    ValWF(m, s, d2, outer);
    if e1.k.VReloc? {
      ValOpen(s, d2);
    }
    StartedHere(m, c.kst, s1, e1, outer);
    NextRegKeeps(c, s1, e1, outer);
    KeepsWF(c, s1, e1, s2, e2, outer);
    hide Exp2Val;
    AsideStacked(s, d, d2, s2, e2);
  }

  // ---------- the driver ----------

  lemma CompileWF(m: Machine, s: State, e: Expr, outer: set<nat>)
    requires WF(s, Fresh, outer) && Proper(e, s.nactvar)
    ensures var (s', d) := Compile(m, s, e);
      && WF(s', d, outer) && Testable(s', d.k) && ConcatShape(s', d.k) && s'.nactvar == s.nactvar
      && Floor(s', d.k) == s.freereg == s'.freereg && Advance(s, s', outer)
  {
    hide Compile;
    var (s', d) := Compile(m, s, e);
    var c := FromStart(m, s'.kst);
    StartedHere(m, c.kst, s, Fresh, outer);
    CompileGrows(m, s, e);
    CompileSound(c, s, e, outer);
    CompiledWF(c, s, e, s', d, outer, Nameable(m, s, e));
    ComesFree(s', d.k);
    hide WF;
  }

  lemma BinaryParts(m: Machine, s: State, op: BinOpr, x1: Expr, x2: Expr)
    ensures var (s1, d1) := Compile(m, s, x1); var (s2, d1') := Infix(s1, op, d1);
      var (s3, d2) := Compile(m, s2, x2);
      Compile(m, s, EBinary(op, x1, x2)) == Posfix(m, s3, op, d1', d2)
  {
    hide Infix;
    hide Posfix;
  }

  /** Between the parts of a binary expression: nothing is live but what waits outside. */
  lemma BinarySteps(m: Machine, s: State, op: BinOpr, e1: Expr, e2: Expr, outer: set<nat>)
    requires WF(s, Fresh, outer) && Proper(EBinary(op, e1, e2), s.nactvar)
    ensures var (s1, d1) := Compile(m, s, e1); var (s2, d1') := Infix(s1, op, d1); var (s3, d2) := Compile(m, s2, e2);
      var waiting := outer + if op.OprAnd? then Elems(d1'.f) else if op.OprOr? then Elems(d1'.t) else {};
      && WF(s2, Fresh, waiting) && s2.nactvar == s.nactvar
      && Operands(m, s3, op, d1', d2, waiting)
  {
    hide WF;
    hide Advance;
    hide ConcatShape;
    hide OperandOK;
    hide ConcatOperand;
    hide FirstOK;
    hide Testable;
    hide Infix;
    hide Posfix;
    hide Compile;
    var (s1, d1) := Compile(m, s, e1);
    var (s2, d1') := Infix(s1, op, d1);
    var (s3, d2) := Compile(m, s2, e2);
    CompileGrows(m, s, e1);
    InfixGrows(s1, op, d1);
    CompileGrows(m, s2, e2);
    PosfixGrows(m, s3, op, d1', d2);
    CompileWF(m, s, e1, outer);
    if Strict(op) {
      StrictSteps(m, s1, op, d1, outer);
      assert outer + {} == outer;
      CompileWF(m, s2, e2, outer);
      OperandAside(s2, op, d1', s3, d2, outer);
      StrictForm(s2, op, d1');
    } else {
      ShortInfix(s1, op, d1);
      GoIfWF(m, s1, d1, op.OprOr?, outer);
      var l := if op.OprOr? then d1'.t else d1'.f;
      assert Elems(l) + outer == outer + Elems(l);
      CompileWF(m, s2, e2, Elems(l) + outer);
    }
  }

  lemma StrictSteps(m: Machine, s: State, op: BinOpr, d: Desc, outer: set<nat>)
    requires WF(s, d, outer) && Strict(op)
    ensures var (s', d') := Infix(s, op, d);
      && WF(s', Fresh, outer) && WF(s', d', outer) && FirstOK(s', op, d') && s'.nactvar == s.nactvar
  {
    hide Infix;
    var (s', d') := Infix(s, op, d);
    var c := FromStart(m, s'.kst);
    StartedHere(m, c.kst, s, d, outer);
    InfixKeeps(c, s, op, d, outer);
    KeepsWF(c, s, d, s', d', outer);
    OperandReady(c, s', op, d', outer);
  }

  // ---------- statements ----------

  lemma LocalIdle(m: Machine, s: State, e: Expr)
    requires WF(s, Fresh, {}) && s.freereg == s.nactvar && Proper(e, s.nactvar)
    ensures var s' := CompileLocal(m, s, e); WF(s', Fresh, {}) && s'.freereg == s'.nactvar
  {
    hide CompileLocal;
    LocalGrows(m, s, e);
    var c := FromStart(m, CompileLocal(m, s, e).kst);
    StartedHere(m, c.kst, s, Fresh, {});
    LocalAt(c, s, e);
  }

  lemma AssignIdle(m: Machine, s: State, r: nat, e: Expr)
    requires WF(s, Fresh, {}) && s.freereg == s.nactvar && Proper(e, s.nactvar) && r < s.nactvar
    ensures var s' := CompileAssign(m, s, r, e); WF(s', Fresh, {}) && s'.freereg == s'.nactvar
  {
    hide CompileAssign;
    AssignGrows(m, s, r, e);
    var c := FromStart(m, CompileAssign(m, s, r, e).kst);
    StartedHere(m, c.kst, s, Fresh, {});
    AssignAt(c, s, r, e);
  }

  lemma OpenedIdle(m: Machine, n: nat, cache: map<Key, Slot>)
    requires n < MAXREGS
    ensures WF(Opened(n, cache), Fresh, {})
  {
  }
}
