/** Unary and binary operators that evaluate all their operands. */
module LcodeBinary {
  import opened LuaVM
  import opened LuaExpr
  import opened LcodeSpec
  import opened LcodeGrow
  import opened LcodeRun
  import opened LcodeInv
  import opened LcodeEmit
  import opened LcodePlace
  import opened LcodeClose
  import opened LcodeExpr
  import opened LcodeOps
  import opened LcodeCond
  import opened LcodeValue

  function UnRes(m: Machine, op: UnOp, ev: Res): Res {
    match ev
    case Ok(v, w) => UnArith(m, op, v, w)
    case Err(w) => Err(w)
  }

  /** A value in a register, freed, and the instruction that takes it as its last operand. */
  lemma OpenReg(c: Ctx, s: State, e: Desc, s0: State, i: Instr, outer: set<nat>)
    requires WF(s, e, outer) && Started(c, s, e.k) && KStops(e.k) == {} && Relocatable(i)
    requires s0 == s.(freereg := s0.freereg) && StackOK(s0)
    ensures var s', e', n := Emit(s0, i), e.(k := VReloc(|s.code|)), |s.code|;
      && WF(s', e', outer) && Started(c, s', e'.k) && Advance(s, s', outer) && Floor(s', e'.k) == s0.freereg
      && |s'.code| == n + 1 && s'.code[n] == i && s'.kst == s.kst
      && RunE(c, s', e', outer) == RunE(c, s, e, outer)
  {
    hide Emit;
    LevelCore(c, s, s0, e, outer);
    OpenAfter(c, s0, e, i, outer);
    AdvanceTwice(s, s0, Emit(s0, i), outer);
    hide Core;
    hide Kept;
    hide RunE;
  }

  /** `codeunexpval`. */
  lemma CodeUnSound(c: Ctx, s: State, op: UnOp, e: Desc, outer: set<nat>)
    requires WF(s, e, outer) && Started(c, s, e.k) && CodeUnExpVal(s, op, e).0.kst <= c.kst
    ensures var (s', e') := CodeUnExpVal(s, op, e);
      Maps(c, s, e, s', e', outer, ev => UnRes(c.m, op, ev)) && e'.k.VReloc? && s'.code[e'.k.pc].Unary?
  {
    hide Maps;
    hide Keeps;
    hide Exp2AnyReg;
    hide Emit;
    var (s1, e1) := Exp2AnyReg(s, e);
    CodeUnGrows(s, op, e);
    AnyRegKeeps(c, s, e, outer);
    KeepsWF(c, s, e, s1, e1, outer);
    UnaryMaps(c, s1, e1, op, outer);
    MapsAfter(c, s, e, s1, e1, CodeUnExpVal(s, op, e).0, CodeUnExpVal(s, op, e).1, outer, ev => UnRes(c.m, op, ev));
  }

  lemma UnaryMaps(c: Ctx, s: State, e: Desc, op: UnOp, outer: set<nat>)
    requires WF(s, e, outer) && Started(c, s, e.k) && e.k.VNonReloc? && !HasJumps(e)
    ensures var s0 := FreeExp(s, e); var s', e' := Emit(s0, Unary(op, 0, e.k.reg)), Desc(VReloc(|s0.code|), [], []);
      Maps(c, s, e, s', e', outer, ev => UnRes(c.m, op, ev)) && |s'.code| == |s0.code| + 1 && s'.code[|s0.code|].Unary?
  {
    hide Emit;
    hide Base;
    hide Lists;
    hide Kept;
    hide Run;
    FreeOK(s, e);
    OpenReg(c, s, e, FreeExp(s, e), Unary(op, 0, e.k.reg), outer);
    hide Core;
    hide RunE;
    hide Started;
  }

  // ---------- two operands ----------

  /** A first operand, done before the second one e2: its register is just below e2's. */
  ghost predicate OperandOK(s: State, d: Desc, e2: Desc) {
    && !HasJumps(d)
    && match d.k {
        case VNonReloc(r) => r < s.nactvar || r + 1 == Floor(s, e2.k)
        case VK(i) => i < |s.kst| && i <= MAXINDEXRK
        case VKInt(_) => true
        case VKFlt(x) => x != NaN && x != NegZero
        case _ => false
      }
  }

  /** The register level below both operands. */
  function FloorBelow(s: State, d: Desc, e2: Desc): int {
    if d.k.VNonReloc? && d.k.reg >= s.nactvar then d.k.reg else Floor(s, e2.k)
  }

  function OperandVal(c: Ctx, k: Kind, regs: Regs): Value {
    match k
    case VNonReloc(r) => Get(regs, r)
    case VK(i) => RKValue(c.kst, regs, K(i))
    case VKInt(i) => Number(I(i))
    case VKFlt(x) => Number(F(x))
    case _ => Nil
  }

  /** The step from two operands to the result: f maps their values to its value. */
  ghost predicate Joins(c: Ctx, s: State, d: Desc, e2: Desc, s': State, e': Desc, outer: set<nat>,
                        f: (Value, Res) -> Res) {
    && JoinsOK(c, s, d, e2, s', e', outer)
    && (s'.failed || (
          && Pass(RunE(c, s, e2, outer), RunE(c, s', e', outer), outer)
          && (forall ev, regs1, regs0 ::
                Sem(c, s, e2, outer, ev, regs1, Floor(s, e2.k)) && Below(regs1, regs0, FloorBelow(s, d, e2))
                ==> Sem(c, s', e', outer, f(OperandVal(c, d.k, regs1), ev), regs0, FloorBelow(s, d, e2)))))
  }

  /** The result is live, and both operands are freed. */
  ghost predicate JoinsOK(c: Ctx, s: State, d: Desc, e2: Desc, s': State, e': Desc, outer: set<nat>) {
    WF(s', e', outer) && Started(c, s', e'.k) && Advance(s, s', outer) && Floor(s', e'.k) == FloorBelow(s, d, e2)
  }

  lemma JoinsUse(c: Ctx, s: State, d1: Desc, e2: Desc, s': State, d: Desc, outer: set<nat>, f: (Value, Res) -> Res,
                 ev: Res, regs1: Regs, regs0: Regs)
    requires Joins(c, s, d1, e2, s', d, outer, f) && !s'.failed
    requires Sem(c, s, e2, outer, ev, regs1, Floor(s, e2.k)) && Below(regs1, regs0, FloorBelow(s, d1, e2))
    ensures Sem(c, s', d, outer, f(OperandVal(c, d1.k, regs1), ev), regs0, FloorBelow(s, d1, e2))
  {
    hide Sem;
    hide WF;
    hide Started;
    hide RunE;
    hide Advance;
    hide Below;
  }

  /** A constant added to the table while e2 is the live descriptor. */
  lemma AddKKeeps(c: Ctx, s: State, e: Desc, v: Value, outer: set<nat>)
    requires WF(s, e, outer) && Started(c, s, e.k) && PlainConst(v)
    ensures Keeps(c, s, e, AddK(s, v).0, e, outer)
  {
    var s' := AddK(s, v).0;
    AddKSound(s, v);
    AddKExact(s, v);
    CoreConst(s, s', e, outer);
    SelfAdvance(s, e, outer);
    hide AddK;
    hide Base;
    hide Lists;
    hide Kept;
    assert RunE(c, s', e, outer) == RunE(c, s, e, outer);
    hide RunE;
    hide Denote;
  }

  /** The first operand in R/K form: at most a constant is added. */
  lemma FirstRK(c: Ctx, s: State, d: Desc, e2: Desc, outer: set<nat>)
    requires WF(s, e2, outer) && Started(c, s, e2.k) && OperandOK(s, d, e2) && Named(s, d)
    requires Exp2RK(s, d).0.kst <= c.kst
    ensures var (s1, d1, rk) := Exp2RK(s, d);
      && Keeps(c, s, e2, s1, e2, outer) && s1.code == s.code && s1.freereg == s.freereg
      && OperandOK(s1, d1, e2) && IsOperand(d1.k, rk) && FloorBelow(s1, d1, e2) == FloorBelow(s, d, e2)
      && (forall regs :: OperandVal(c, d1.k, regs) == OperandVal(c, d.k, regs))
      && (forall regs :: RKValue(c.kst, regs, rk) == OperandVal(c, d.k, regs))
  {
    assert StackOK(s);
    hide Keeps;
    hide Core;
    RKGrows(s, d);
    match d.k
    case VKInt(i) =>
      AddKKeeps(c, s, e2, Number(I(i)), outer);
      FirstConst(c, s, d, Number(I(i)));
    case VKFlt(x) =>
      AddKKeeps(c, s, e2, Number(F(x)), outer);
      FirstConst(c, s, d, Number(F(x)));
    case _ =>
      KeepsSelf(c, s, e2, outer);
      FirstSame(c, s, d, e2);
  }

  lemma FirstConst(c: Ctx, s: State, d: Desc, v: Value)
    requires ConstantOf(d.k) == Some(v) && v.Number? && !HasJumps(d) && StackOK(s) && PlainConst(v)
    requires Exp2RK(s, d).0.kst <= c.kst && AddK(s, v).1 <= MAXINDEXRK
    ensures var (s1, i) := AddK(s, v);
      && Exp2RK(s, d) == (s1, d.(k := VK(i)), K(i)) && i < |s1.kst| && c.kst[i] == v
      && s1.nactvar == s.nactvar && s1.freereg == s.freereg && s1.code == s.code
  {
    hide Exp2AnyReg;
    RKGrows(s, d);
    AddKSound(s, v);
    AddKExact(s, v);
    hide AddK;
  }

  lemma FirstSame(c: Ctx, s: State, d: Desc, e2: Desc)
    requires OperandOK(s, d, e2) && (d.k.VNonReloc? || d.k.VK?) && s.kst <= c.kst
    ensures Exp2RK(s, d) == (s, d, if d.k.VK? then K(d.k.info) else R(d.k.reg))
  {
  }

  /** Both operands freed, in whatever order. */
  lemma FreeBoth(s: State, d1: Desc, d2: Desc)
    requires StackOK(s) && RegOK(s, d2.k) && OperandOK(s, d1, d2)
    ensures var s' := FreeExps(s, d1, d2);
      s' == s.(freereg := s'.freereg) && s'.freereg == FloorBelow(s, d1, d2) && StackOK(s')
  {
  }

  /** Two operands in R/K form: what the instruction that combines them finds there. */
  ghost predicate TwoOK(c: Ctx, s: State, d1: Desc, rk1: RK, d2: Desc, rk2: RK, outer: set<nat>) {
    && WF(s, d2, outer) && Started(c, s, d2.k) && OperandOK(s, d1, d2) && s.kst <= c.kst
    && IsOperand(d1.k, rk1) && IsOperand(d2.k, rk2) && !HasJumps(d2)
  }

  /** Both operands as the run finds them at its end. */
  lemma TwoValues(c: Ctx, s: State, d1: Desc, rk1: RK, d2: Desc, rk2: RK, outer: set<nat>, ev: Res, regs1: Regs)
    requires TwoOK(c, s, d1, rk1, d2, rk2, outer) && Sem(c, s, d2, outer, ev, regs1, Floor(s, d2.k))
    ensures var o := RunE(c, s, d2, outer);
      match ev {
        case Err(w) => o == Fail(w)
        case Ok(v2, w) =>
          && o.Exit? && o.pc == |s.code| && o.w == w && Below(o.regs, regs1, Floor(s, d2.k))
          && RKValue(c.kst, o.regs, rk1) == OperandVal(c, d1.k, regs1) && RKValue(c.kst, o.regs, rk2) == v2
      }
  {
    hide RunE;
    hide Base;
    hide Lists;
    assert s.nactvar <= Floor(s, d2.k);
    hide Core;
  }

  lemma BinaryMeans(c: Ctx, s: State, d1: Desc, rk1: RK, d2: Desc, rk2: RK, outer: set<nat>, op: ArithOp,
                    s': State, ev: Res, regs1: Regs, regs0: Regs)
    requires TwoOK(c, s, d1, rk1, d2, rk2, outer) && Sem(c, s, d2, outer, ev, regs1, Floor(s, d2.k))
    requires Below(regs1, regs0, FloorBelow(s, d1, d2))
    requires |s'.code| == |s.code| + 1 && s'.code[|s.code|] == Binary(op, 0, rk1, rk2)
    requires RunE(c, s', d2.(k := VReloc(|s.code|)), outer) == RunE(c, s, d2, outer)
    ensures Sem(c, s', d2.(k := VReloc(|s.code|)), outer, BinRes(c.m, op, OperandVal(c, d1.k, regs1), ev), regs0,
                FloorBelow(s, d1, d2))
  {
    TwoValues(c, s, d1, rk1, d2, rk2, outer, ev, regs1);
    hide RunE;
    hide Core;
    hide Arith;
    hide OperandVal;
    hide RKValue;
    assert FloorBelow(s, d1, d2) <= Floor(s, d2.k);
    var o := RunE(c, s, d2, outer);
    assert o.Exit? ==> Below(o.regs, regs0, FloorBelow(s, d1, d2));
    assert o.Exit? ==> o.pc !in Elems(d2.t) && o.pc !in Elems(d2.f);
    assert Denote(c, s'.code, d2.(k := VReloc(|s.code|)), o) == Some(BinRes(c.m, op, OperandVal(c, d1.k, regs1), ev));
  }

  function BinRes(m: Machine, op: ArithOp, v1: Value, ev: Res): Res {
    match ev
    case Ok(v2, w) => Arith(m, op, v1, v2, w)
    case Err(w) => Err(w)
  }

  lemma BinaryJoins(c: Ctx, s: State, d1: Desc, rk1: RK, d2: Desc, rk2: RK, outer: set<nat>, op: ArithOp)
    requires TwoOK(c, s, d1, rk1, d2, rk2, outer)
    ensures var s0 := FreeExps(s, d1, d2);
      Joins(c, s, d1, d2, Emit(s0, Binary(op, 0, rk1, rk2)), Desc(VReloc(|s0.code|), [], []), outer,
            (v1, ev) => BinRes(c.m, op, v1, ev))
      && |Emit(s0, Binary(op, 0, rk1, rk2)).code| == |s0.code| + 1
        && Emit(s0, Binary(op, 0, rk1, rk2)).code[|s0.code|].Binary?
  {
    hide Emit;
    hide FreeExps;
    hide Sem;
    FreeBoth(s, d1, d2);
    var s0, i, e' := FreeExps(s, d1, d2), Binary(op, 0, rk1, rk2), d2.(k := VReloc(|s.code|));
    OpenReg(c, s, d2, s0, i, outer);
    var s' := Emit(s0, i);
    hide WF;
    hide RunE;
    assert Floor(s', e'.k) == FloorBelow(s, d1, d2);
    if !s'.failed {
      forall ev, regs1, regs0 | Sem(c, s, d2, outer, ev, regs1, Floor(s, d2.k))
        && Below(regs1, regs0, FloorBelow(s, d1, d2))
        ensures Sem(c, s', e', outer, BinRes(c.m, op, OperandVal(c, d1.k, regs1), ev), regs0, FloorBelow(s, d1, d2))
      {
        BinaryMeans(c, s, d1, rk1, d2, rk2, outer, op, s', ev, regs1, regs0);
      }
    }
  }

  /** Bringing the operands into R/K form changes neither value. */
  lemma JoinsAfter(c: Ctx, s: State, d: Desc, e2: Desc, s1: State, d1: Desc, e1: Desc, s': State, e': Desc,
                   outer: set<nat>, f: (Value, Res) -> Res)
    requires Keeps(c, s, e2, s1, e1, outer) && Joins(c, s1, d1, e1, s', e', outer, f)
    requires FloorBelow(s1, d1, e1) == FloorBelow(s, d, e2)
    requires forall regs :: OperandVal(c, d1.k, regs) == OperandVal(c, d.k, regs)
    ensures Joins(c, s, d, e2, s', e', outer, f)
  {
    hide WF;
    hide Sem;
    hide Started;
    hide OperandVal;
    AdvanceTwice(s, s1, s', outer);
    hide Kept;
    hide FloorBelow;
    hide Below;
  }

  /** The second operand and the instruction, the first one being an operand already. */
  lemma SecondSound(c: Ctx, s: State, op: ArithOp, d: Desc, rk: RK, e2: Desc, outer: set<nat>)
    requires WF(s, e2, outer) && Started(c, s, e2.k) && OperandOK(s, d, e2) && IsOperand(d.k, rk)
    requires Exp2RK(s, e2).0.kst <= c.kst
    ensures var (s2, d2, rk2) := Exp2RK(s, e2); var s3 := FreeExps(s2, d, d2);
      Joins(c, s, d, e2, Emit(s3, Binary(op, 0, rk, rk2)), Desc(VReloc(|s3.code|), [], []), outer,
            (v1, ev) => BinRes(c.m, op, v1, ev))
      && |Emit(s3, Binary(op, 0, rk, rk2)).code| == |s3.code| + 1
        && Emit(s3, Binary(op, 0, rk, rk2)).code[|s3.code|].Binary?
  {
    hide Exp2RK;
    hide Emit;
    hide FreeExps;
    hide Keeps;
    hide Joins;
    var (s2, d2, rk2) := Exp2RK(s, e2);
    RKGrows(s, e2);
    RKKeeps(c, s, e2, outer);
    KeepsWF(c, s, e2, s2, d2, outer);
    SecondOperand(c, s, d, e2, s2, d2, outer);
    hide Core;
    BinaryJoins(c, s2, d, rk, d2, rk2, outer, op);
    var s3 := FreeExps(s2, d, d2);
    JoinsAfter(c, s, d, e2, s2, d, d2, Emit(s3, Binary(op, 0, rk, rk2)), Desc(VReloc(|s3.code|), [], []), outer,
               (v1, ev) => BinRes(c.m, op, v1, ev));
  }

  /** The first operand stays one. */
  lemma SecondOperand(c: Ctx, s: State, d: Desc, e2: Desc, s2: State, d2: Desc, outer: set<nat>)
    requires OperandOK(s, d, e2) && Keeps(c, s, e2, s2, d2, outer) && s.kst <= s2.kst && s2.nactvar == s.nactvar
    ensures OperandOK(s2, d, d2) && FloorBelow(s2, d, d2) == FloorBelow(s, d, e2)
  {
    hide WF;
    hide Started;
    hide RunE;
    hide Sem;
    hide Kept;
  }

  // ---------- comparisons ----------

  function RelRes(m: Machine, rel: Rel, v1: Value, ev: Res): Res {
    match ev
    case Ok(v2, w) => EvalRel(m, rel, v1, v2, w)
    case Err(w) => Err(w)
  }

  /** A comparison and its jump, emitted after two operands. */
  lemma OpenTest(c: Ctx, s: State, d2: Desc, s0: State, i: Instr, outer: set<nat>)
    requires WF(s, d2, outer) && Started(c, s, d2.k) && KStops(d2.k) == {} && !HasJumps(d2) && i.Cmp?
    requires s0 == s.(freereg := s0.freereg) && StackOK(s0)
    ensures var s', e', n := CondJump(s0, i).0, Desc(VJmp(|s.code| + 1), [], []), |s.code|;
      && WF(s', e', outer) && Started(c, s', e'.k) && Advance(s, s', outer) && Floor(s', e'.k) == s0.freereg
      && |s'.code| == n + 2
      && RunE(c, s', e', outer) == AfterStep(c, RunE(c, s, d2, outer), n, i)
  {
    hide CondJump;
    hide Run;
    hide Step;
    hide Closed;
    hide Chain;
    LevelCore(c, s, s0, d2, outer);
    var n, s', e' := |s.code|, CondJump(s0, i).0, Desc(VJmp(|s.code| + 1), [], []);
    assert Waiting(d2, outer) == outer && outer + KStops(d2.k) == outer && Waiting(e', outer) == outer;
    assert Stops(e', outer) == outer + {n + 1} && Stops(d2, outer) == outer;
    BelowEnd(s, outer);
    EmitTest(c, s0, i, outer);
    JpcJumps(s, outer);
    ListsKept(s.code, s'.code, [], [], outer, Elems(s.jpc));
    KeptUnion(s.code, s'.code, Elems([]) + Elems([]), outer);
    StackSame(s0, s');
    hide Frame;
    hide Kept;
    hide Base;
    hide Lists;
    hide RunS;
  }

  lemma CompareStep(c: Ctx, rel: Rel, rk1: RK, rk2: RK, n: nat, o: Outcome, v1: Value, v2: Value)
    requires o.Exit? && o.pc == n && RKValue(c.kst, o.regs, rk1) == v1 && RKValue(c.kst, o.regs, rk2) == v2
    ensures AfterStep(c, o, n, CompareInstr(rel, rk1, rk2)) ==
      match EvalRel(c.m, rel, v1, v2, o.w) {
        case Err(w) => Fail(w)
        case Ok(v, w) => Exit(if v == Bool(true) then n + 1 else n + 2, o.regs, w)
      }
    ensures EvalRel(c.m, rel, v1, v2, o.w).Ok? ==> EvalRel(c.m, rel, v1, v2, o.w).v.Bool?
  {
    hide Call;
    hide RKValue;
  }

  lemma CompareMeans(c: Ctx, s: State, d1: Desc, rk1: RK, d2: Desc, rk2: RK, outer: set<nat>, rel: Rel,
                     s': State, ev: Res, regs1: Regs, regs0: Regs)
    requires TwoOK(c, s, d1, rk1, d2, rk2, outer) && Sem(c, s, d2, outer, ev, regs1, Floor(s, d2.k))
    requires Below(regs1, regs0, FloorBelow(s, d1, d2)) && |s'.code| == |s.code| + 2
    requires |s.code| !in outer && |s.code| + 1 !in outer && |s.code| + 2 !in outer
    requires RunE(c, s', Desc(VJmp(|s.code| + 1), [], []), outer)
          == AfterStep(c, RunE(c, s, d2, outer), |s.code|, CompareInstr(rel, rk1, rk2))
    ensures Sem(c, s', Desc(VJmp(|s.code| + 1), [], []), outer, RelRes(c.m, rel, OperandVal(c, d1.k, regs1), ev),
                regs0, FloorBelow(s, d1, d2))
  {
    TwoValues(c, s, d1, rk1, d2, rk2, outer, ev, regs1);
    hide Core;
    assert FloorBelow(s, d1, d2) <= Floor(s, d2.k);
    var o, n, e' := RunE(c, s, d2, outer), |s.code|, Desc(VJmp(|s.code| + 1), [], []);
    var v1 := OperandVal(c, d1.k, regs1);
    hide OperandVal;
    if o.Exit? {
      CompareStep(c, rel, rk1, rk2, n, o, v1, ev.v);
      assert Below(o.regs, regs0, FloorBelow(s, d1, d2));
    }
    hide RunE;
    hide RKValue;
    hide Compare;
    hide EvalRel;
    hide CompareInstr;
    hide Step;
    assert Denote(c, s'.code, e', RunE(c, s', e', outer)) == Some(RelRes(c.m, rel, v1, ev));
  }

  lemma StopsClear(c: Ctx, s: State, d1: Desc, rk1: RK, d2: Desc, rk2: RK, outer: set<nat>)
    requires TwoOK(c, s, d1, rk1, d2, rk2, outer)
    ensures |s.code| !in outer && |s.code| + 1 !in outer && |s.code| + 2 !in outer
  {
  }

  lemma CompareJoins(c: Ctx, s: State, d1: Desc, rk1: RK, d2: Desc, rk2: RK, outer: set<nat>, rel: Rel)
    requires TwoOK(c, s, d1, rk1, d2, rk2, outer)
    ensures var s0 := FreeExps(s, d1, d2);
      Joins(c, s, d1, d2, CondJump(s0, CompareInstr(rel, rk1, rk2)).0, Desc(VJmp(|s0.code| + 1), [], []), outer,
            (v1, ev) => RelRes(c.m, rel, v1, ev))
      && |CondJump(s0, CompareInstr(rel, rk1, rk2)).0.code| == |s0.code| + 2
  {
    hide CondJump;
    hide FreeExps;
    hide Sem;
    FreeBoth(s, d1, d2);
    StopsClear(c, s, d1, rk1, d2, rk2, outer);
    var s0, i, e' := FreeExps(s, d1, d2), CompareInstr(rel, rk1, rk2), Desc(VJmp(|s.code| + 1), [], []);
    OpenTest(c, s, d2, s0, i, outer);
    var s' := CondJump(s0, i).0;
    hide WF;
    hide RunE;
    hide CompareInstr;
    hide Step;
    assert Floor(s', e'.k) == FloorBelow(s, d1, d2);
    if !s'.failed {
      forall ev, regs1, regs0 | Sem(c, s, d2, outer, ev, regs1, Floor(s, d2.k))
        && Below(regs1, regs0, FloorBelow(s, d1, d2))
        ensures Sem(c, s', e', outer, RelRes(c.m, rel, OperandVal(c, d1.k, regs1), ev), regs0, FloorBelow(s, d1, d2))
      {
        CompareMeans(c, s, d1, rk1, d2, rk2, outer, rel, s', ev, regs1, regs0);
      }
    }
  }

  /** `codecomp`, its first operand already in R/K form. */
  lemma CodeCompSound(c: Ctx, s: State, rel: Rel, d: Desc, e2: Desc, outer: set<nat>)
    requires WF(s, e2, outer) && Started(c, s, e2.k) && OperandOK(s, d, e2) && (d.k.VK? || d.k.VNonReloc?)
    requires CodeComp(s, rel, d, e2).0.kst <= c.kst
    ensures var (s', e') := CodeComp(s, rel, d, e2);
      Joins(c, s, d, e2, s', e', outer, (v1, ev) => RelRes(c.m, rel, v1, ev))
      && e'.k.VJmp? && e'.k.pc + 1 == |s'.code|
  {
    hide Exp2RK;
    hide CondJump;
    hide FreeExps;
    hide Keeps;
    hide Joins;
    CodeCompGrows(s, rel, d, e2);
    var (s2, d2, rk2) := Exp2RK(s, e2);
    RKKeeps(c, s, e2, outer);
    KeepsWF(c, s, e2, s2, d2, outer);
    hide Core;
    CompareJoins(c, s2, d, OperandRK(d.k), d2, rk2, outer, rel);
    FreeExpsGrows(s2, d, d2);
    JoinsAfter(c, s, d, e2, s2, d, d2, CodeComp(s, rel, d, e2).0, CodeComp(s, rel, d, e2).1, outer,
               (v1, ev) => RelRes(c.m, rel, v1, ev));
  }

  // ---------- concatenation ----------

  function ConcatRes(m: Machine, v1: Value, ev: Res): Res {
    match ev
    case Ok(v2, w) => Call(m, PConcat, v1, v2, w)
    case Err(w) => Err(w)
  }

  /** An open concatenation starts at the first free register. */
  ghost predicate ConcatShape(s: State, k: Kind) {
    k.VReloc? && k.pc < |s.code| && s.code[k.pc].Concat? ==>
      s.code[k.pc].b == s.freereg && s.code[k.pc].b <= s.code[k.pc].c
  }

  /** The first operand of a concatenation: in the register just below the second one. */
  ghost predicate ConcatOperand(s: State, d: Desc, e2: Desc) {
    d.k.VNonReloc? && !HasJumps(d) && s.nactvar <= d.k.reg && d.k.reg + 1 == Floor(s, e2.k)
  }

  /** Replacing the open instruction by another one that is open, too. */
  lemma ReopenCore(c: Ctx, s: State, e: Desc, i: Instr, outer: set<nat>)
    requires Core(s, e, outer) && Started(c, s, e.k) && e.k.VReloc? && Relocatable(i)
    ensures var s' := s.(code := s.code[e.k.pc := i]);
      && Core(s', e, outer) && Started(c, s', e.k) && Advance(s, s', outer)
        && RunE(c, s', e, outer) == RunE(c, s, e, outer)
  {
    var pc, s', all := e.k.pc, s.(code := s.code[e.k.pc := i]), Stops(e, outer) + Elems(s.jpc);
    forall p: nat | p < |s.code| ensures SafeAt(s'.code, all, s.lasttarget, p) {
      assert SafeAt(s.code, all, s.lasttarget, p);
    }
    RunFrame(c.m, c.kst, s.code, s'.code, all, c.start, c.regs, c.w);
    hide Closed;
    hide Run;
    ReopenLists(s, e, i, outer);
    hide Lists;
    hide Kept;
  }

  lemma ReopenLists(s: State, e: Desc, i: Instr, outer: set<nat>)
    requires Core(s, e, outer) && e.k.VReloc? && Relocatable(i)
    ensures var code' := s.code[e.k.pc := i]; Lists(code', e.t, e.f, outer) && Kept(s.code, code', outer)
  {
    var code' := s.code[e.k.pc := i];
    assert Frame(s.code, code', {e.k.pc}) by {
      forall p: nat | p < |s.code| ensures TMode(code'[p]) == TMode(s.code[p]) {
      }
    }
    hide Base;
    forall p: nat | p in Waiting(e, outer) ensures ControlledAt(code', p) && KeptAt(s.code, code', p) {
      assert ControlledAt(s.code, p);
    }
    ChainReopen(s.code, code', e.k.pc, e.t);
    ChainReopen(s.code, code', e.k.pc, e.f);
  }

  lemma ChainReopen(code: seq<Instr>, code': seq<Instr>, pc: nat, l: seq<nat>)
    requires Chain(code, l) && pc < |code| && !code[pc].Jmp? && |code'| == |code|
    requires forall p: nat :: p < |code| && p != pc ==> code'[p] == code[p]
    ensures Chain(code', l)
  {
    forall i | 0 <= i < |l| ensures l[i] < |code'| && code'[l[i]] == Jmp(LinkOffset(l, i)) {
      assert code[l[i]] == Jmp(LinkOffset(l, i));
    }
  }

  /** Extending the second concatenation by the first operand. */
  lemma MergeConcatJoins(c: Ctx, s: State, d: Desc, e2: Desc, outer: set<nat>)
    requires WF(s, e2, outer) && Started(c, s, e2.k) && ConcatOperand(s, d, e2) && CanMergeConcat(s, e2)
    requires ConcatShape(s, e2.k) && !HasJumps(e2)
    ensures var s0 := FreeExp(s, d); var i := Concat(s.code[e2.k.pc].a, d.k.reg, s.code[e2.k.pc].c);
      var s' := s0.(code := s0.code[e2.k.pc := i]);
      Joins(c, s, d, e2, s', e2, outer, (v1, ev) => ConcatRes(c.m, v1, ev)) && ConcatShape(s', e2.k)
  {
    var s0, pc := FreeExp(s, d), e2.k.pc;
    var i := Concat(s.code[pc].a, d.k.reg, s.code[pc].c);
    var s' := s0.(code := s0.code[pc := i]);
    LevelCore(c, s, s0, e2, outer);
    ReopenCore(c, s0, e2, i, outer);
    AdvanceTwice(s, s0, s', outer);
    hide Base;
    hide Lists;
    hide Kept;
    hide RunE;
    var o := RunE(c, s, e2, outer);
    if o.Exit? && o.pc == pc {
      assert ExecVal(c.m, c.kst, i, o.regs, o.w) == ConcatRes(c.m, Get(o.regs, d.k.reg),
                                                              ExecVal(c.m, c.kst, s.code[pc], o.regs, o.w));
    }
    hide ExecVal;
    forall ev, regs1, regs0 | Sem(c, s, e2, outer, ev, regs1, Floor(s, e2.k))
      && Below(regs1, regs0, FloorBelow(s, d, e2))
      ensures Sem(c, s', e2, outer, ConcatRes(c.m, OperandVal(c, d.k, regs1), ev), regs0, FloorBelow(s, d, e2))
    {
      assert FloorBelow(s, d, e2) <= Floor(s, e2.k);
      assert o.Exit? ==> o.pc == pc && Get(o.regs, d.k.reg) == Get(regs1, d.k.reg);
      assert o.Exit? ==> Below(o.regs, regs0, FloorBelow(s, d, e2));
    }
  }

  lemma ConcatMeans(c: Ctx, s: State, d: Desc, d2: Desc, outer: set<nat>, s': State, ev: Res, regs1: Regs, regs0: Regs)
    requires WF(s, d2, outer) && ConcatOperand(s, d, d2) && d2.k == VNonReloc(d.k.reg + 1) && !HasJumps(d2)
    requires s.kst <= c.kst && Started(c, s, d2.k)
    requires Sem(c, s, d2, outer, ev, regs1, Floor(s, d2.k)) && Below(regs1, regs0, FloorBelow(s, d, d2))
    requires |s'.code| == |s.code| + 1 && s'.code[|s.code|] == Concat(0, d.k.reg, d2.k.reg)
    requires RunE(c, s', d2.(k := VReloc(|s.code|)), outer) == RunE(c, s, d2, outer)
    ensures Sem(c, s', d2.(k := VReloc(|s.code|)), outer, ConcatRes(c.m, OperandVal(c, d.k, regs1), ev), regs0,
                FloorBelow(s, d, d2))
  {
    TwoValues(c, s, d, R(d.k.reg), d2, R(d2.k.reg), outer, ev, regs1);
    var o, r := RunE(c, s, d2, outer), d.k.reg;
    assert ev.Ok? ==>
      ConcatRange(c.m, o.regs, r, r + 1, o.w) == Call(c.m, PConcat, Get(o.regs, r), Get(o.regs, r + 1), o.w);
    hide RunE;
    hide Core;
    hide ConcatRange;
    assert FloorBelow(s, d, d2) <= Floor(s, d2.k);
    assert o.Exit? ==> Below(o.regs, regs0, FloorBelow(s, d, d2));
    assert Denote(c, s'.code, d2.(k := VReloc(|s.code|)), o) == Some(ConcatRes(c.m, OperandVal(c, d.k, regs1), ev));
  }

  lemma ConcatJoins(c: Ctx, s: State, d: Desc, d2: Desc, outer: set<nat>)
    requires WF(s, d2, outer) && Started(c, s, d2.k) && ConcatOperand(s, d, d2)
    requires d2.k == VNonReloc(d.k.reg + 1) && !HasJumps(d2) && s.kst <= c.kst
    ensures var s0 := FreeExps(s, d, d2);
      var s', e' := Emit(s0, Concat(0, d.k.reg, d2.k.reg)), Desc(VReloc(|s0.code|), [], []);
      Joins(c, s, d, d2, s', e', outer, (v1, ev) => ConcatRes(c.m, v1, ev)) && ConcatShape(s', e'.k)
  {
    hide Emit;
    hide FreeExps;
    hide Sem;
    FreeBoth(s, d, d2);
    var s0, i, e' := FreeExps(s, d, d2), Concat(0, d.k.reg, d2.k.reg), d2.(k := VReloc(|s.code|));
    OpenReg(c, s, d2, s0, i, outer);
    var s' := Emit(s0, i);
    EmitGrows(s0, i);
    hide WF;
    hide RunE;
    if !s'.failed {
      forall ev, regs1, regs0 | Sem(c, s, d2, outer, ev, regs1, Floor(s, d2.k))
        && Below(regs1, regs0, FloorBelow(s, d, d2))
        ensures Sem(c, s', e', outer, ConcatRes(c.m, OperandVal(c, d.k, regs1), ev), regs0, FloorBelow(s, d, d2))
      {
        ConcatMeans(c, s, d, d2, outer, s', ev, regs1, regs0);
      }
    }
  }

  /** The concatenation case of `luaK_posfix`. */
  lemma CodeConcatSound(c: Ctx, s: State, d: Desc, e2: Desc, outer: set<nat>)
    requires WF(s, e2, outer) && Started(c, s, e2.k) && ConcatOperand(s, d, e2) && ConcatShape(s, e2.k)
    requires CodeConcat(s, d, e2).0.kst <= c.kst
    ensures var (s', e') := CodeConcat(s, d, e2);
      Joins(c, s, d, e2, s', e', outer, (v1, ev) => ConcatRes(c.m, v1, ev)) && e'.k.VReloc? && ConcatShape(s', e'.k)
  {
    hide Exp2AnyReg;
    hide Exp2NextReg;
    hide FreeExps;
    hide Emit;
    hide Joins;
    hide Keeps;
    CodeConcatGrows(s, d, e2);
    var (s1, d2) := Exp2Val(s, e2);
    ValKeeps(c, s, e2, outer);
    KeepsWF(c, s, e2, s1, d2, outer);
    if CanMergeConcat(s1, d2) {
      ValOpen(s, e2);
      MergeConcatJoins(c, s, d, e2, outer);
    } else {
      NextRegKeeps(c, s1, d2, outer);
      var (s2, d3) := Exp2NextReg(s1, d2);
      KeepsTwice(c, s, e2, s1, d2, s2, d3, outer);
      KeepsWF(c, s, e2, s2, d3, outer);
      hide Core;
      ConcatJoins(c, s2, d, d3, outer);
      FreeExpsGrows(s2, d, d3);
      JoinsAfter(c, s, d, e2, s2, d, d3, CodeConcat(s, d, e2).0, CodeConcat(s, d, e2).1, outer,
                 (v1, ev) => ConcatRes(c.m, v1, ev));
    }
  }

  lemma ValOpen(s: State, e: Desc)
    requires Exp2Val(s, e).1.k.VReloc?
    ensures Exp2Val(s, e) == (s, e) && !HasJumps(e)
  {
    AnyRegDesc(s, e);
  }
}
