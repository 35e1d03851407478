/** The correctness of the whole expression compiler. */
module LcodeCompile {
  import opened LuaVM
  import opened LuaExpr
  import opened LcodeSpec
  import opened LcodeGrow
  import opened LcodeRun
  import opened LcodeInv
  import opened LcodeEmit
  import opened LcodePlace
  import opened LcodeClose
  import opened LcodeExpr
  import opened LcodeOps
  import opened LcodeCond
  import opened LcodeValue
  import opened LcodeBinary
  import opened LcodeLate

  /** No descriptor is live: between two expressions. */
  const Fresh: Desc := Desc(VNil, [], [])

  ghost predicate Ready(c: Ctx, s: State, outer: set<nat>) {
    WF(s, Fresh, outer) && Started(c, s, VNil)
  }

  /** The state s' and descriptor d after compiling e from s: the invariant, the register
      level of s, and, if this is said to be right, for every run: if it came to the end of the
      old code it now means the value of e there, otherwise it is unchanged. */
  ghost predicate Compiled(c: Ctx, s: State, e: Expr, s': State, d: Desc, outer: set<nat>, right: bool) {
    && WF(s', d, outer) && Started(c, s', d.k) && Advance(s, s', outer) && Floor(s', d.k) == s.freereg
    && Comes(s', d.k)
    && (s'.failed || !right || Simulates(c, s, e, s', d, outer))
  }

  /** What an expression comes as: fit to be tested and to be concatenated, and in no temporary
      register. */
  ghost predicate Comes(s: State, k: Kind) {
    Testable(s, k) && ConcatShape(s, k) && (k.VNonReloc? ==> k.reg < s.nactvar)
  }

  ghost predicate Simulates(c: Ctx, s: State, e: Expr, s': State, d: Desc, outer: set<nat>) {
    var o0, o := RunS(c, s, outer), RunE(c, s', d, outer);
    if o0.Exit? && o0.pc == |s.code|
    then Sem(c, s', d, outer, Eval(c.m, e, o0.regs, o0.w), o0.regs, s.freereg)
    else o == o0
  }

  // ---------- runs of a ready state ----------

  lemma {:induction false} RunNotStuck(m: Machine, kst: seq<Value>, code: seq<Instr>, stops: set<nat>, last: nat,
                                       pc: nat, regs: Regs, w: World)
    requires Closed(code, stops, last) && pc <= |code|
    ensures Run(m, kst, code, stops, pc, regs, w) != Stuck
    decreases |code| - pc
  {
    if pc < |code| && pc !in stops {
      StepForward(m, kst, code, stops, last, pc, regs, w);
      var n := Step(m, kst, code[pc], pc, regs, w);
      if n.Goto? {
        RunNotStuck(m, kst, code, stops, last, n.pc, n.regs, n.w);
      }
    }
  }

  /** A run is at the end, at a stop, or has failed. */
  lemma RunEnds(c: Ctx, s: State, stops: set<nat>)
    requires Base(s, stops) && Entry(s.code, c.start)
    ensures var o := RunS(c, s, stops); o != Stuck && (o.Exit? ==> o.pc == |s.code| || o.pc in stops)
  {
    hide Run;
    RunNotStuck(c.m, c.kst, s.code, stops + Elems(s.jpc), s.lasttarget, c.start, c.regs, c.w);
    RunWithin(c.m, c.kst, s.code, stops + Elems(s.jpc), c.start, c.regs, c.w);
  }

  lemma ReadyEnds(c: Ctx, s: State, outer: set<nat>)
    requires Ready(c, s, outer)
    ensures Stops(Fresh, outer) == outer && RunE(c, s, Fresh, outer) == RunS(c, s, outer) && |s.code| !in outer
    ensures var o := RunS(c, s, outer); o != Stuck && (o.Exit? ==> o.pc == |s.code| || o.pc in outer)
  {
    assert Stops(Fresh, outer) == outer;
    RunEnds(c, s, outer);
  }

  // ---------- leaves ----------

  ghost predicate LeafKind(s: State, e: Expr, k: Kind) {
    match e
    case ENil => k == VNil
    case ETrue => k == VTrue
    case EFalse => k == VFalse
    case ENumber(I(i)) => k == VKInt(i)
    case ENumber(F(x)) => k == VKFlt(x)
    case EString(str) => k.VK? && k.info < |s.kst| && s.kst[k.info] == Str(str)
    case ELocal(r) => k == VLocal(r)
    case _ => false
  }

  lemma LeafCompiled(c: Ctx, s: State, e: Expr, k: Kind, outer: set<nat>)
    requires Ready(c, s, outer) && LeafKind(s, e, k) && Proper(e, s.nactvar) && s.kst <= c.kst
    ensures Compiled(c, s, e, s, Desc(k, [], []), outer, true)
  {
    var d := Desc(k, [], []);
    assert Waiting(d, outer) == Waiting(Fresh, outer) && Stops(d, outer) == Stops(Fresh, outer);
    ReadyEnds(c, s, outer);
    SelfAdvance(s, Fresh, outer);
    hide Base;
    hide Lists;
    hide Kept;
    hide RunS;
  }

  lemma StringCompiled(c: Ctx, s: State, str: string, outer: set<nat>)
    requires Ready(c, s, outer) && AddK(s, Str(str)).0.kst <= c.kst
    ensures Compiled(c, s, EString(str), AddK(s, Str(str)).0, Desc(VK(AddK(s, Str(str)).1), [], []), outer, true)
  {
    var (s1, k) := AddK(s, Str(str));
    AddKKeeps(c, s, Fresh, Str(str), outer);
    AddKSound(s, Str(str));
    AddKExact(s, Str(str));
    hide AddK;
    LeafCompiled(c, s1, EString(str), VK(k), outer);
    CompiledFrom(c, s, s1, EString(str), s1, Desc(VK(k), [], []), outer, true);
  }

  /** Compiling from a state that differs in the constants only. */
  lemma CompiledFrom(c: Ctx, s: State, s1: State, e: Expr, s': State, d: Desc, outer: set<nat>, right: bool)
    requires Compiled(c, s1, e, s', d, outer, right) && Advance(s, s1, outer)
    requires s1 == s.(kst := s1.kst, cache := s1.cache, failed := s1.failed)
    ensures Compiled(c, s, e, s', d, outer, right)
  {
    hide WF;
    hide Sem;
    AdvanceTwice(s, s1, s', outer);
    hide Kept;
    assert RunS(c, s1, outer) == RunS(c, s, outer);
  }

  // ---------- one operand ----------

  lemma MapsCompiled(c: Ctx, s: State, e1: Expr, s1: State, d1: Desc, e: Expr, s': State, d: Desc, outer: set<nat>,
                     f: Res -> Res, right: bool)
    requires Ready(c, s, outer) && Compiled(c, s, e1, s1, d1, outer, right) && Maps(c, s1, d1, s', d, outer, f)
    requires forall regs, w :: Eval(c.m, e, regs, w) == f(Eval(c.m, e1, regs, w))
    requires Comes(s', d.k)
    ensures Compiled(c, s, e, s', d, outer, right)
  {
    ReadyEnds(c, s, outer);
    hide WF;
    hide Sem;
    hide Started;
    hide RunE;
    hide RunS;
    hide Eval;
    AdvanceTwice(s, s1, s', outer);
    hide Kept;
  }

  /** A folded unary operation. */
  lemma FoldMaps(c: Ctx, s: State, op: UnOp, d: Desc, k: Kind, outer: set<nat>)
    requires WF(s, d, outer) && Started(c, s, d.k) && op != LEN
    requires ConstFolding(c.m, PUn(op), d, Desc(VKInt(0), [], [])) == Some(k)
    ensures Maps(c, s, d, s, d.(k := k), outer, ev => UnRes(c.m, op, ev))
  {
    var d' := d.(k := k);
    assert Waiting(d', outer) == Waiting(d, outer) && Stops(d', outer) == Stops(d, outer);
    SelfAdvance(s, d, outer);
    BelowEnd(s, Stops(d, outer));
    hide Base;
    hide Lists;
    hide Kept;
    assert RunE(c, s, d', outer) == RunE(c, s, d, outer);
    hide RunE;
    FoldedUn(c.m, op, ToNumeral(d).value, k);
    forall ev, regs0 | Sem(c, s, d, outer, ev, regs0, Floor(s, d.k))
      ensures Sem(c, s, d', outer, UnRes(c.m, op, ev), regs0, Floor(s, d.k))
    {
    }
  }

  /** The value of a folded numeral. */
  function FoldedValue(k: Kind): Value {
    match k
    case VKInt(i) => Number(I(i))
    case VKFlt(z) => Number(F(z))
    case _ => Nil
  }

  lemma FoldedUn(m: Machine, op: UnOp, x: Num, k: Kind)
    requires op != LEN && ValidOp(PUn(op), x, I(0))
    requires k == match m.raw(PUn(op), x, I(0)) { case I(i) => VKInt(i) case F(z) => VKFlt(z) }
    ensures forall w :: UnArith(m, op, Number(x), w) == Ok(FoldedValue(k), w)
  {
  }

  lemma PrefixCompiled(c: Ctx, s: State, op: UnOp, e1: Expr, s1: State, d1: Desc, outer: set<nat>, right: bool)
    requires Ready(c, s, outer) && Compiled(c, s, e1, s1, d1, outer, right) && Prefix(c.m, s1, op, d1).0.kst <= c.kst
    ensures Compiled(c, s, EUnary(op, e1), Prefix(c.m, s1, op, d1).0, Prefix(c.m, s1, op, d1).1, outer,
                     right)
  {
    var folded := if op == LEN then None else ConstFolding(c.m, PUn(op), d1, Desc(VKInt(0), [], []));
    var (s', d) := Prefix(c.m, s1, op, d1);
    if folded.Some? {
      FoldMaps(c, s1, op, d1, folded.value, outer);
    } else {
      hide CodeUnExpVal;
      CodeUnSound(c, s1, op, d1, outer);
    }
    hide Maps;
    hide ConstFolding;
    UnaryEval(c.m, op, e1);
    MapsCompiled(c, s, e1, s1, d1, EUnary(op, e1), s', d, outer, ev => UnRes(c.m, op, ev), right);
  }

  lemma UnaryEval(m: Machine, op: UnOp, e1: Expr)
    ensures forall regs, w :: Eval(m, EUnary(op, e1), regs, w) == UnRes(m, op, Eval(m, e1, regs, w))
    ensures forall regs, w :: Eval(m, ENot(e1), regs, w) == NotRes(Eval(m, e1, regs, w))
  {
  }

  /** `(e)`: only a local is discharged. */
  lemma ParenCompiled(c: Ctx, s: State, e1: Expr, s1: State, d1: Desc, outer: set<nat>, right: bool)
    requires Ready(c, s, outer) && Compiled(c, s, e1, s1, d1, outer, right)
    ensures Compiled(c, s, EParen(e1), s1, DischargeVars(d1), outer, right)
  {
    var d := DischargeVars(d1);
    KeepsVars(c, s1, d1, outer);
    hide WF;
    hide Sem;
    hide Started;
    hide Kept;
    hide RunE;
    hide RunS;
    assert Maps(c, s1, d1, s1, d, outer, ev => ev);
    hide Maps;
    hide Keeps;
    MapsCompiled(c, s, e1, s1, d1, EParen(e1), s1, d, outer, ev => ev, right);
  }

  lemma NotCompiled(c: Ctx, s: State, e1: Expr, s1: State, d1: Desc, outer: set<nat>, right: bool)
    requires Ready(c, s, outer) && Compiled(c, s, e1, s1, d1, outer, right) && CodeNot(s1, d1).0.kst <= c.kst
    ensures Compiled(c, s, ENot(e1), CodeNot(s1, d1).0, CodeNot(s1, d1).1, outer, right)
  {
    hide CodeNot;
    hide Maps;
    var (s', d) := CodeNot(s1, d1);
    CodeNotSound(c, s1, d1, outer);
    UnaryEval(c.m, LEN, e1);
    MapsCompiled(c, s, e1, s1, d1, ENot(e1), s', d, outer, NotRes, right);
  }

  // ---------- two operands ----------

  /** An operator that evaluates both operands. */
  predicate Strict(op: BinOpr) {
    !op.OprAnd? && !op.OprOr?
  }

  function ApplyRes(m: Machine, op: BinOpr, v1: Value, ev: Res): Res
    requires Strict(op)
  {
    match ev
    case Ok(v2, w) => Apply(m, op, v1, v2, w)
    case Err(w) => Err(w)
  }

  /** What `luaK_infix` leaves of the first operand. */
  ghost predicate FirstOK(s: State, op: BinOpr, d: Desc) {
    && !HasJumps(d)
    && match op {
        case OprArith(_) => d.k.VNonReloc? || (d.k.VK? && d.k.info <= MAXINDEXRK) || d.k.VKInt? || d.k.VKFlt?
        case OprRel(_) => d.k.VNonReloc? || (d.k.VK? && d.k.info <= MAXINDEXRK)
        case OprConcat => d.k.VNonReloc? && s.nactvar <= d.k.reg && d.k.reg + 1 == s.freereg
        case _ => false
      }
  }

  lemma InfixKeeps(c: Ctx, s: State, op: BinOpr, d: Desc, outer: set<nat>)
    requires WF(s, d, outer) && Started(c, s, d.k) && Strict(op) && Infix(s, op, d).0.kst <= c.kst
    ensures var (s', d') := Infix(s, op, d); Keeps(c, s, d, s', d', outer) && FirstOK(s', op, d')
  {
    hide Exp2RK;
    hide Exp2NextReg;
    hide Keeps;
    match op
    case OprConcat =>
      LevelHigh(s, d, outer);
      NextRegKeeps(c, s, d, outer);
      KeepsWF(c, s, d, Exp2NextReg(s, d).0, Exp2NextReg(s, d).1, outer);
    case OprArith(_) =>
      if ToNumeral(d).Some? {
        KeepsSelf(c, s, d, outer);
      } else {
        RKKeeps(c, s, d, outer);
        RKNamed(s, d);
      }
    case OprRel(_) => RKKeeps(c, s, d, outer); RKNamed(s, d);
  }

  /** `luaK_exp2RK` leaves no constant that an operand cannot name. */
  lemma RKNamed(s: State, e: Desc)
    ensures Exp2RK(s, e).1.k.VK? ==> Exp2RK(s, e).1.k.info <= MAXINDEXRK
  {
    hide Exp2Val;
    hide Exp2AnyReg;
    var (s1, e1) := Exp2Val(s, e);
    var c := ConstantOf(e1.k);
    var (s2, e2) := if c.Some? then var (s', i) := AddK(s1, c.value); (s', e1.(k := VK(i))) else (s1, e1);
    hide AddK;
    AnyRegDesc(s2, e2);
  }

  lemma LevelHigh(s: State, d: Desc, outer: set<nat>)
    requires WF(s, d, outer)
    ensures s.nactvar <= Floor(s, d.k)
  {
  }

  /** The first operand is set aside. */
  lemma OperandReady(c: Ctx, s: State, op: BinOpr, d: Desc, outer: set<nat>)
    requires WF(s, d, outer) && Started(c, s, d.k) && FirstOK(s, op, d)
    ensures Ready(c, s, outer) && RunS(c, s, outer) == RunE(c, s, d, outer)
  {
    assert Waiting(d, outer) == Waiting(Fresh, outer) && Stops(d, outer) == Stops(Fresh, outer) == outer;
  }

  lemma OperandAside(s2: State, op: BinOpr, d: Desc, s3: State, d2: Desc, outer: set<nat>)
    requires WF(s2, d, outer) && FirstOK(s2, op, d) && Advance(s2, s3, outer) && Floor(s3, d2.k) == s2.freereg
    ensures OperandOK(s3, d, d2) && FloorBelow(s3, d, d2) == Floor(s2, d.k)
    ensures op.OprConcat? ==> ConcatOperand(s3, d, d2)
  {
    hide Base;
    hide Lists;
  }

  /** The value of the first operand as the run finds it. */
  lemma FirstValue(c: Ctx, s: State, op: BinOpr, d: Desc, outer: set<nat>, ev: Res, regs0: Regs, fr: int)
    requires FirstOK(s, op, d) && Sem(c, s, d, outer, ev, regs0, fr)
    ensures var o := RunE(c, s, d, outer);
      match ev {
        case Err(w) => o == Fail(w)
        case Ok(v, w) => o.Exit? && o.pc == |s.code| && o.w == w && OperandVal(c, d.k, o.regs) == v
          && Below(o.regs, regs0, fr)
      }
  {
    hide RunE;
  }

  /** The case that the run comes to the second operand. */
  lemma JoinValue(c: Ctx, op: BinOpr, e1: Expr, e2: Expr, n: nat, s2: State, d1: Desc, s3: State, d2: Desc,
                  s4: State, d: Desc, outer: set<nat>, regs0: Regs, w0: World)
    requires Strict(op) && Proper(e2, n) && n <= Floor(s2, d1.k) && FirstOK(s2, op, d1)
    requires RunS(c, s2, outer) == RunE(c, s2, d1, outer) && Simulates(c, s2, e2, s3, d2, outer)
    requires Floor(s3, d2.k) == s2.freereg && FloorBelow(s3, d1, d2) == Floor(s2, d1.k)
    requires Joins(c, s3, d1, d2, s4, d, outer, (v1, ev) => ApplyRes(c.m, op, v1, ev)) && !s4.failed
    requires Sem(c, s2, d1, outer, Eval(c.m, e1, regs0, w0), regs0, Floor(s2, d1.k)) && Eval(c.m, e1, regs0, w0).Ok?
    ensures Sem(c, s4, d, outer, Eval(c.m, EBinary(op, e1, e2), regs0, w0), regs0, Floor(s2, d1.k))
  {
    hide WF;
    hide Started;
    hide RunE;
    hide FirstOK;
    hide RunS;
    hide Eval;
    hide Sem;
    hide Advance;
    hide OperandVal;
    hide ApplyRes;
    hide Joins;
    hide Proper;
    var ev1, o2, fr := Eval(c.m, e1, regs0, w0), RunS(c, s2, outer), Floor(s2, d1.k);
    FirstValue(c, s2, op, d1, outer, ev1, regs0, fr);
    EvalLocals(c.m, e2, n, o2.regs, regs0, o2.w);
    var ev2 := Eval(c.m, e2, o2.regs, o2.w);
    BinaryEval(c.m, op, e1, e2, regs0, w0, ev2);
    JoinsUse(c, s3, d1, d2, s4, d, outer, (v1, ev) => ApplyRes(c.m, op, v1, ev), ev2, o2.regs, regs0);
  }

  lemma KeepsUse(c: Ctx, s: State, e: Desc, s': State, e': Desc, outer: set<nat>, ev: Res, regs0: Regs)
    requires Keeps(c, s, e, s', e', outer) && !s'.failed && Sem(c, s, e, outer, ev, regs0, Floor(s, e.k))
    ensures Sem(c, s', e', outer, ev, regs0, Floor(s, e.k))
  {
    hide Sem;
    hide WF;
    hide Started;
    hide RunE;
    hide Advance;
  }

  lemma KeepsPass(c: Ctx, s: State, e: Desc, s': State, e': Desc, outer: set<nat>)
    requires Keeps(c, s, e, s', e', outer) && !s'.failed
    ensures Pass(RunE(c, s, e, outer), RunE(c, s', e', outer), outer) && Floor(s', e'.k) == Floor(s, e.k)
  {
    hide Sem;
    hide WF;
    hide Started;
    hide RunE;
    hide Advance;
  }

  /** The cases that it has stopped or failed before. */
  lemma JoinNoValue(c: Ctx, s2: State, d1: Desc, e2: Expr, s3: State, d2: Desc, s4: State, d: Desc, outer: set<nat>,
                    f: (Value, Res) -> Res)
    requires Ready(c, s2, outer) && RunS(c, s2, outer) == RunE(c, s2, d1, outer) && Simulates(c, s2, e2, s3, d2, outer)
    requires Joins(c, s3, d1, d2, s4, d, outer, f) && !s4.failed
    ensures var o2 := RunE(c, s2, d1, outer);
      o2.Fail? || (o2.Exit? && o2.pc in outer) ==> RunE(c, s4, d, outer) == o2
  {
    ReadyEnds(c, s2, outer);
    hide WF;
    hide Started;
    hide RunE;
    hide RunS;
    hide Sem;
    hide Advance;
    hide OperandVal;
    hide Eval;
  }

  lemma JoinSimulates(c: Ctx, s: State, op: BinOpr, e1: Expr, e2: Expr, s1: State, d1: Desc, s2: State, d1': Desc,
                      s3: State, d2: Desc,
                      s4: State, d: Desc, outer: set<nat>)
    requires Ready(c, s, outer) && Ready(c, s2, outer) && Strict(op) && Proper(e2, s.nactvar) && s.nactvar <= s.freereg
    requires Simulates(c, s, e1, s1, d1, outer) && Floor(s1, d1.k) == s.freereg
    requires Keeps(c, s1, d1, s2, d1', outer) && FirstOK(s2, op, d1') && !s2.failed
    requires Simulates(c, s2, e2, s3, d2, outer) && RunS(c, s2, outer) == RunE(c, s2, d1', outer)
    requires Floor(s3, d2.k) == s2.freereg && FloorBelow(s3, d1', d2) == Floor(s2, d1'.k)
    requires Joins(c, s3, d1', d2, s4, d, outer, (v1, ev) => ApplyRes(c.m, op, v1, ev))
    requires !s4.failed
    ensures Simulates(c, s, EBinary(op, e1, e2), s4, d, outer)
  {
    hide Joins;
    hide Sem;
    hide Keeps;
    hide Ready;
    hide RunE;
    hide RunS;
    hide Proper;
    hide FirstOK;
    hide ApplyRes;
    hide Floor;
    hide FloorBelow;
    ReadyEnds(c, s, outer);
    JoinNoValue(c, s2, d1', e2, s3, d2, s4, d, outer, (v1, ev) => ApplyRes(c.m, op, v1, ev));
    KeepsPass(c, s1, d1, s2, d1', outer);
    var o0, fr := RunS(c, s, outer), s.freereg;
    if o0.Exit? && o0.pc == |s.code| {
      var ev1 := Eval(c.m, e1, o0.regs, o0.w);
      KeepsUse(c, s1, d1, s2, d1', outer, ev1, o0.regs);
      if ev1.Ok? {
        JoinValue(c, op, e1, e2, s.nactvar, s2, d1', s3, d2, s4, d, outer, o0.regs, o0.w);
      } else {
        FirstValue(c, s2, op, d1', outer, ev1, o0.regs, fr);
        assert Eval(c.m, EBinary(op, e1, e2), o0.regs, o0.w) == ev1;
        ErrMeans(c, s4, d, outer, ev1, o0.regs, fr);
      }
    }
  }

  lemma BinaryEval(m: Machine, op: BinOpr, e1: Expr, e2: Expr, regs: Regs, w: World, ev2: Res)
    requires Strict(op) && Eval(m, e1, regs, w).Ok? && ev2 == Eval(m, e2, regs, Eval(m, e1, regs, w).w)
    ensures Eval(m, EBinary(op, e1, e2), regs, w) == ApplyRes(m, op, Eval(m, e1, regs, w).v, ev2)
  {
  }

  lemma ErrMeans(c: Ctx, s: State, d: Desc, outer: set<nat>, ev: Res, regs0: Regs, fr: int)
    requires ev.Err? && RunE(c, s, d, outer) == Fail(ev.w)
    ensures Sem(c, s, d, outer, ev, regs0, fr)
  {
  }

  /** A folded binary operation. */
  lemma FoldJoins(c: Ctx, s: State, op: ArithOp, d: Desc, d2: Desc, k: Kind, outer: set<nat>)
    requires WF(s, d2, outer) && Started(c, s, d2.k) && OperandOK(s, d, d2)
    requires ConstFolding(c.m, PArith(op), d, d2) == Some(k)
    ensures Joins(c, s, d, d2, s, d.(k := k), outer, (v1, ev) => ApplyRes(c.m, OprArith(op), v1, ev))
  {
    var d' := d.(k := k);
    assert Waiting(d', outer) == Waiting(d2, outer) && Stops(d', outer) == Stops(d2, outer);
    SelfAdvance(s, d2, outer);
    BelowEnd(s, Stops(d2, outer));
    hide Base;
    hide Lists;
    hide Kept;
    assert RunE(c, s, d', outer) == RunE(c, s, d2, outer);
    hide RunE;
    FoldedBin(c.m, op, ToNumeral(d).value, ToNumeral(d2).value, k);
    forall ev, regs1, regs0 | Sem(c, s, d2, outer, ev, regs1, Floor(s, d2.k))
      && Below(regs1, regs0, FloorBelow(s, d, d2))
      ensures Sem(c, s, d', outer, ApplyRes(c.m, OprArith(op), OperandVal(c, d.k, regs1), ev), regs0,
                  FloorBelow(s, d, d2))
    {
    }
  }

  lemma FoldedBin(m: Machine, op: ArithOp, x: Num, y: Num, k: Kind)
    requires ValidOp(PArith(op), x, y)
    requires k == match m.raw(PArith(op), x, y) { case I(i) => VKInt(i) case F(z) => VKFlt(z) }
    ensures forall w :: Arith(m, op, Number(x), Number(y), w) == Ok(FoldedValue(k), w)
  {
  }

  /** `luaK_posfix` of an operator that evaluates both operands. */
  lemma PosfixJoins(c: Ctx, s: State, op: BinOpr, d: Desc, d2: Desc, outer: set<nat>)
    requires WF(s, d2, outer) && Started(c, s, d2.k) && Strict(op) && OperandOK(s, d, d2) && ConcatShape(s, d2.k)
    requires (op.OprConcat? ==> ConcatOperand(s, d, d2)) && (op.OprRel? ==> d.k.VK? || d.k.VNonReloc?)
    requires Posfix(c.m, s, op, d, d2).0.kst <= c.kst && (op.OprArith? ==> Floor(s, d2.k) == s.freereg)
    ensures var (s', e') := Posfix(c.m, s, op, d, d2);
      && JoinsOK(c, s, d, d2, s', e', outer) && Comes(s', e'.k)
      && (InTime(c.m, s, op, d, d2) ==> Joins(c, s, d, d2, s', e', outer, (v1, ev) => ApplyRes(c.m, op, v1, ev)))
  {
    hide CodeBinExpVal;
    hide CodeConcat;
    hide CodeComp;
    hide WF;
    hide ConstFolding;
    hide Named;
    match op
    case OprConcat =>
      CodeConcatSound(c, s, d, d2, outer);
      JoinsSame(c, s, d, d2, CodeConcat(s, d, d2).0, CodeConcat(s, d, d2).1, outer,
                (v1, ev) => ConcatRes(c.m, v1, ev), op);
    case OprRel(rel) =>
      CodeCompSound(c, s, rel, d, d2, outer);
      JoinsSame(c, s, d, d2, CodeComp(s, rel, d, d2).0, CodeComp(s, rel, d, d2).1, outer,
                (v1, ev) => RelRes(c.m, rel, v1, ev), op);
    case OprArith(aop) =>
      var folded := ConstFolding(c.m, PArith(aop), d, d2);
      if folded.Some? {
        FoldJoins(c, s, aop, d, d2, folded.value, outer);
        FoldKind(c.m, PArith(aop), d, d2);
      } else {
        CodeBinSound(c, s, aop, d, d2, outer);
        if Named(s, d) || Straight(d2) {
          JoinsSame(c, s, d, d2, CodeBinExpVal(s, aop, d, d2).0, CodeBinExpVal(s, aop, d, d2).1, outer,
                    (v1, ev) => BinRes(c.m, aop, v1, ev), op);
        }
      }
  }

  lemma FoldKind(m: Machine, op: Prim, d: Desc, d2: Desc)
    requires ConstFolding(m, op, d, d2).Some?
    ensures ConstFolding(m, op, d, d2).value.VKInt? || ConstFolding(m, op, d, d2).value.VKFlt?
  {
  }

  lemma JoinsSame(c: Ctx, s: State, d: Desc, d2: Desc, s': State, e': Desc, outer: set<nat>, f: (Value, Res) -> Res,
                  op: BinOpr)
    requires Joins(c, s, d, d2, s', e', outer, f) && Strict(op)
    requires forall v1, ev :: f(v1, ev) == ApplyRes(c.m, op, v1, ev)
    ensures Joins(c, s, d, d2, s', e', outer, (v1, ev) => ApplyRes(c.m, op, v1, ev))
  {
    hide WF;
    hide Sem;
    hide Started;
    hide Advance;
    hide RunE;
    hide ApplyRes;
    hide OperandVal;
  }

  lemma StrictCompiled(c: Ctx, s: State, op: BinOpr, e1: Expr, e2: Expr, s1: State, d1: Desc, s2: State, d1': Desc,
                       s3: State, d2: Desc,
                       s4: State, d: Desc, outer: set<nat>, right: bool)
    requires Ready(c, s, outer) && Strict(op) && Proper(e2, s.nactvar)
    requires Compiled(c, s, e1, s1, d1, outer, right)
    requires Keeps(c, s1, d1, s2, d1', outer) && FirstOK(s2, op, d1')
    requires Compiled(c, s2, e2, s3, d2, outer, right) && JoinsOK(c, s3, d1', d2, s4, d, outer)
    requires right ==> Joins(c, s3, d1', d2, s4, d, outer, (v1, ev) => ApplyRes(c.m, op, v1, ev))
    requires Comes(s4, d.k)
    ensures Compiled(c, s, EBinary(op, e1, e2), s4, d, outer, right)
  {
    LevelHigh(s, Fresh, outer);
    OperandReady(c, s2, op, d1', outer);
    OperandAside(s2, op, d1', s3, d2, outer);
    hide WF;
    hide Sem;
    hide Simulates;
    hide Started;
    hide RunE;
    hide RunS;
    AdvanceTwice(s, s1, s2, outer);
    AdvanceTwice(s, s2, s3, outer);
    AdvanceTwice(s, s3, s4, outer);
    hide Kept;
    if !s4.failed && right {
      JoinSimulates(c, s, op, e1, e2, s1, d1, s2, d1', s3, d2, s4, d, outer);
    }
  }

  // ---------- and, or ----------

  /** After the first operand of and/or, its jumps wait outside. */
  lemma GoneReady(c: Ctx, s1: State, outer: set<nat>, s2: State, l: seq<nat>, fr: int)
    requires GoneOK(c, s1, outer, s2, l, fr)
    ensures Ready(c, s2, Elems(l) + outer)
  {
    ControlledUnion(s2.code, Elems(l), outer);
    NoLists(s2.code, Elems(l) + outer);
    assert Waiting(Fresh, Elems(l) + outer) + KStops(VNil) == Elems(l) + outer;
    hide Base;
    hide Lists;
    hide ListOK;
  }

  lemma ListWaited(code: seq<Instr>, code': seq<Instr>, l: seq<nat>, outer: set<nat>)
    requires ListOK(code, l) && Kept(code, code', Elems(l) + outer)
    ensures ListOK(code', l)
  {
    forall p: nat | p in Elems(l) ensures ControlledAt(code', p) {
      assert ControlledAt(code, p) && p in Elems(l) + outer && KeptAt(code, code', p);
    }
    forall i | 0 <= i < |l| ensures l[i] < |code'| && code'[l[i]] == Jmp(LinkOffset(l, i)) {
      assert l[i] in Elems(l) + outer && KeptAt(code, code', l[i]);
      assert code[l[i]] == Jmp(LinkOffset(l, i));
    }
  }

  /** `luaK_posfix` for and/or, the second operand's variable discharged. */
  function LinkBack(s: State, d: Desc, cond: bool, l: seq<nat>): (State, Desc) {
    (Link(s, Joined(d, cond), l), if cond then d.(t := d.t + l) else d.(f := d.f + l))
  }

  lemma LinkBackKind(s: State, s': State, a: seq<nat>, k: Kind)
    requires KindCode(s, k) && s' == s.(code := s'.code, failed := s'.failed) && |s'.code| == |s.code|
    requires Frame(s.code, s'.code, Elems(a)) && Jumps(s.code, Elems(a)) && KStops(k) !! Elems(a)
    requires forall p: nat :: p < |s.code| && !s.code[p].Jmp? ==> s'.code[p] == s.code[p]
    ensures KindCode(s', k)
  {
    match k
    case VReloc(pc) => assert s'.code[pc] == s.code[pc];
    case VJmp(pc) =>
      var q: nat := pc - 1;
      assert !MayDiffer(s.code, Elems(a), pc);
      assert s'.code[q] == s.code[q] && s'.code[pc] == s.code[pc];
    case _ =>
  }

  lemma LinkBackCore(c: Ctx, s: State, d: Desc, cond: bool, l: seq<nat>, outer: set<nat>)
    requires WF(s, d, Elems(l) + outer) && Started(c, s, d.k) && ListOK(s.code, l) && Elems(l) !! outer
    ensures var (s', d') := LinkBack(s, d, cond, l); var a := Joined(d, cond);
      && Base(s', Stops(d', outer)) && Stops(d', outer) == Stops(d, Elems(l) + outer)
      && s' == s.(code := s'.code, failed := s'.failed) && (s.failed ==> s'.failed) && |s'.code| == |s.code|
      && Entry(s'.code, c.start) && Elems(a + l) == Elems(a) + Elems(l) && Chain(s'.code, a + l) && NoDup(a + l)
      && Frame(s.code, s'.code, Elems(a)) && Jumps(s.code, Elems(a))
      && RunE(c, s', d', outer) == RunE(c, s, d, Elems(l) + outer)
  {
    hide Run;
    hide Closed;
    hide Frame;
    hide Link;
    hide Controlled;
    var (s', d') := LinkBack(s, d, cond, l);
    var a, all := Joined(d, cond), Stops(d, Elems(l) + outer);
    LinkRun(c, s, a, l, all);
    LinkedBase(s, s', a, all);
    hide Base;
    hide Chain;
    hide NoDup;
    assert Stops(d', outer) == all;
  }

  lemma LinkBackOK(c: Ctx, s: State, d: Desc, cond: bool, l: seq<nat>, outer: set<nat>)
    requires WF(s, d, Elems(l) + outer) && Started(c, s, d.k) && ListOK(s.code, l) && Elems(l) !! outer
    ensures var (s', d') := LinkBack(s, d, cond, l);
      && WF(s', d', outer) && Started(c, s', d'.k) && Advance(s, s', outer) && Floor(s', d'.k) == Floor(s, d.k)
      && s'.kst == s.kst && (forall p: nat :: p < |s.code| && !s.code[p].Jmp? ==> s'.code[p] == s.code[p])
      && |s'.code| == |s.code| && TestsKept(s.code, s'.code, Waiting(d', outer))
      && RunE(c, s', d', outer) == RunE(c, s, d, Elems(l) + outer)
  {
    hide Run;
    hide Closed;
    hide Frame;
    hide Link;
    var (s', d') := LinkBack(s, d, cond, l);
    var a := Joined(d, cond);
    LinkBackCore(c, s, d, cond, l, outer);
    OuterLists(s.code, d, l, outer);
    JoinLists(s, d, outer, cond, l);
    LinkCode(s, a, l);
    LinkBackKind(s, s', a, d.k);
    hide Chain;
    hide Base;
    hide Lists;
    LinkBackTests(s, s', d, d', cond, l, outer);
    LinkBackStart(c, s, s', d.k);
    StackSame(s, s');
    hide Kept;
    hide TestsKept;
  }

  lemma OuterLists(code: seq<Instr>, d: Desc, l: seq<nat>, outer: set<nat>)
    requires Lists(code, d.t, d.f, Elems(l) + outer) && Elems(l) !! outer
    ensures Lists(code, d.t, d.f, outer) && Elems(l) !! Waiting(d, outer)
  {
  }

  lemma LinkBackTests(s: State, s': State, d: Desc, d': Desc, cond: bool, l: seq<nat>, outer: set<nat>)
    requires TestsKept(s.code, s'.code, Elems(Joined(d, cond)) + Elems(l) + Elems(Joined(d, !cond)))
    requires Kept(s.code, s'.code, outer)
    requires d' == LinkBack(s, d, cond, l).1 && Elems(Joined(d, cond) + l) == Elems(Joined(d, cond)) + Elems(l)
    ensures TestsKept(s.code, s'.code, Waiting(d', outer))
  {
    forall p: nat | p in Waiting(d', outer) ensures TestKeptAt(s.code, s'.code, p) {
      assert p in Elems(Joined(d, cond)) + Elems(l) + Elems(Joined(d, !cond)) || KeptAt(s.code, s'.code, p);
    }
  }

  lemma LinkBackStart(c: Ctx, s: State, s': State, k: Kind)
    requires Started(c, s, k) && Entry(s'.code, c.start) && |s'.code| == |s.code| && s'.lasttarget == s.lasttarget
    requires forall p: nat :: p < |s.code| && !s.code[p].Jmp? ==> s'.code[p] == s.code[p]
    requires forall p: nat :: p < |s.code| && s.code[p].Jmp? ==> s'.code[p].Jmp?
    ensures Started(c, s', k)
  {
    if |s.code| > 0 {
      var q: nat := |s.code| - 1;
      assert s.code[q].Jmp? ==> s'.code[q].Jmp?;
    }
  }

  lemma KindValueKept(c: Ctx, s: State, s': State, k: Kind)
    requires KindCode(s, k) && |s'.code| == |s.code|
    requires forall p: nat :: p < |s.code| && !s.code[p].Jmp? ==> s'.code[p] == s.code[p]
    ensures forall pc, regs, w :: KindValue(c, s'.code, k, pc, regs, w) == KindValue(c, s.code, k, pc, regs, w)
  {
  }

  /** A run that means a value of the second operand still does after the lists are joined. */
  lemma BackMeans(c: Ctx, s: State, d: Desc, cond: bool, l: seq<nat>, outer: set<nat>, o: Outcome, ev: Res,
                  regs0: Regs, fr: int)
    requires WF(s, d, Elems(l) + outer) && Started(c, s, d.k) && ListOK(s.code, l) && Elems(l) !! outer
    requires Means(c, s.code, d, Elems(l) + outer, o, ev, regs0, fr)
    ensures var (s', d') := LinkBack(s, d, cond, l); Means(c, s'.code, d', outer, o, ev, regs0, fr)
  {
    hide Run;
    hide Closed;
    hide Link;
    var (s', d') := LinkBack(s, d, cond, l);
    LinkBackCore(c, s, d, cond, l, outer);
    LinkBackOK(c, s, d, cond, l, outer);
    KindValueKept(c, s, s', d.k);
    hide Frame;
    hide Base;
    hide Lists;
    hide ListOK;
    hide Chain;
    if o.Exit? && o.pc in Elems(d.t) + Elems(d.f) {
      assert o.pc in Waiting(d', outer);
      assert TestKeptAt(s.code, s'.code, o.pc);
      JumpValueTests(s.code, s'.code, o.pc, o.regs);
    }
    hide JumpValue;
    hide KindValue;
    hide TestsKept;
    hide Below;
    BackLists(d, cond, l, outer);
  }

  lemma BackLists(d: Desc, cond: bool, l: seq<nat>, outer: set<nat>)
    ensures Elems(Joined(d, cond) + l) == Elems(Joined(d, cond)) + Elems(l)
  {
  }

  /** The first operand has decided: the run stops at one of its jumps with its value. */
  lemma DecidedMeans(c: Ctx, s2: State, s: State, d: Desc, cond: bool, l: seq<nat>, outer: set<nat>, o: Outcome,
                     v: Value, w: World, regs0: Regs, fr: int)
    requires WF(s, d, Elems(l) + outer) && Started(c, s, d.k) && ListOK(s2.code, l) && Elems(l) !! outer
    requires Kept(s2.code, s.code, Elems(l) + outer)
    requires o.Exit? && o.w == w && Below(o.regs, regs0, fr) && o.pc in Elems(l) && Truthy(v) == cond
    requires JumpValue(s2.code, o.pc, o.regs, cond) == v
    ensures var (s', d') := LinkBack(s, d, cond, l); Means(c, s'.code, d', outer, o, Ok(v, w), regs0, fr)
  {
    hide Run;
    hide Closed;
    hide Link;
    var (s', d') := LinkBack(s, d, cond, l);
    ListWaited(s2.code, s.code, l, outer);
    LinkBackOK(c, s, d, cond, l, outer);
    BackLists(d, cond, l, outer);
    assert KeptAt(s2.code, s.code, o.pc);
    JumpValueKept(s2.code, s.code, o.pc, o.regs);
    assert o.pc in Waiting(d', outer);
    assert TestKeptAt(s.code, s'.code, o.pc);
    JumpValueTests(s.code, s'.code, o.pc, o.regs);
    DecidedLists(s, d, cond, l, outer, o.pc);
    hide WF;
    hide JumpValue;
    hide KindValue;
    hide Kept;
    hide TestsKept;
    hide ListOK;
    hide Below;
  }

  lemma DecidedLists(s: State, d: Desc, cond: bool, l: seq<nat>, outer: set<nat>, p: nat)
    requires WF(s, d, Elems(l) + outer) && p in Elems(l) && Elems(l) !! outer
    ensures var d' := LinkBack(s, d, cond, l).1;
      p !in outer && p in Elems(Joined(d', cond)) && p !in Elems(Joined(d', !cond))
  {
    hide Base;
    BackLists(d, cond, l, outer);
  }

  /** Short-circuit evaluation. */
  lemma ShortEval(m: Machine, op: BinOpr, e1: Expr, e2: Expr, regs: Regs, w: World)
    requires !Strict(op)
    ensures Eval(m, EBinary(op, e1, e2), regs, w) ==
      match Eval(m, e1, regs, w) {
        case Err(w') => Err(w')
        case Ok(v1, w') => if Truthy(v1) == op.OprOr? then Ok(v1, w') else Eval(m, e2, regs, w')
      }
  {
  }

  lemma ShortSimulates(c: Ctx, s: State, op: BinOpr, e1: Expr, e2: Expr, s1: State, d1: Desc, s2: State, l: seq<nat>,
                       s3: State, d2: Desc, outer: set<nat>)
    requires Ready(c, s, outer) && !Strict(op) && Proper(e2, s.nactvar) && s.nactvar <= s.freereg
    requires Simulates(c, s, e1, s1, d1, outer) && Floor(s1, d1.k) == s.freereg
    requires Gone(c, s1, d1, outer, op.OprOr?, s2, l) && !s2.failed
    requires Ready(c, s2, Elems(l) + outer) && Simulates(c, s2, e2, s3, d2, Elems(l) + outer) && s2.freereg == s.freereg
    requires WF(s3, d2, Elems(l) + outer) && Started(c, s3, d2.k) && ListOK(s2.code, l) && Elems(l) !! outer
    requires Kept(s2.code, s3.code, Elems(l) + outer)
    ensures var (s4, d) := LinkBack(s3, d2, op.OprOr?, l); Simulates(c, s, EBinary(op, e1, e2), s4, d, outer)
  {
    hide Sem;
    hide WF;
    hide Ready;
    hide RunE;
    hide RunS;
    hide Proper;
    hide Started;
    hide GoneOK;
    hide Kept;
    hide ListOK;
    hide Denote;
    hide Eval;
    hide Link;
    var cond, fr := op.OprOr?, s.freereg;
    var (s4, d) := LinkBack(s3, d2, cond, l);
    ReadyEnds(c, s, outer);
    ReadyEnds(c, s2, Elems(l) + outer);
    ListWaited(s2.code, s3.code, l, outer);
    LinkBackOK(c, s3, d2, cond, l, outer);
    var o0, o2 := RunS(c, s, outer), RunS(c, s2, Elems(l) + outer);
    if o0.Exit? && o0.pc == |s.code| {
      ShortEval(c.m, op, e1, e2, o0.regs, o0.w);
      var ev1 := Eval(c.m, e1, o0.regs, o0.w);
      assert Gate(c, s2, l, outer, cond, ev1, o0.regs, fr);
      if ev1.Err? {
        ErrMeans(c, s4, d, outer, ev1, o0.regs, fr);
      } else if Truthy(ev1.v) == cond {
        DecidedMeans(c, s2, s3, d2, cond, l, outer, o2, ev1.v, ev1.w, o0.regs, fr);
        SemIs(c, s4, d, outer, ev1, o0.regs, fr);
      } else {
        EvalLocals(c.m, e2, s.nactvar, o2.regs, o0.regs, o2.w);
        var ev2 := Eval(c.m, e2, o2.regs, o2.w);
        SecondMeans(c, s3, d2, Elems(l) + outer, ev2, o2.regs, o0.regs, fr);
        BackMeans(c, s3, d2, cond, l, outer, RunE(c, s3, d2, Elems(l) + outer), ev2, o0.regs, fr);
        SemIs(c, s4, d, outer, ev2, o0.regs, fr);
      }
    }
  }

  lemma SemIs(c: Ctx, s: State, d: Desc, outer: set<nat>, ev: Res, regs0: Regs, fr: int)
    ensures Sem(c, s, d, outer, ev, regs0, fr) <==> Means(c, s.code, d, outer, RunE(c, s, d, outer), ev, regs0, fr)
  {
  }

  lemma SecondMeans(c: Ctx, s: State, d: Desc, outer: set<nat>, ev: Res, regs1: Regs, regs0: Regs, fr: int)
    requires Sem(c, s, d, outer, ev, regs1, fr) && Below(regs1, regs0, fr)
    ensures Means(c, s.code, d, outer, RunE(c, s, d, outer), ev, regs0, fr)
  {
    hide RunE;
    hide Denote;
  }

  lemma ShortCompiled(c: Ctx, s: State, op: BinOpr, e1: Expr, e2: Expr, s1: State, d1: Desc, s2: State, l: seq<nat>,
                      s3: State, d2: Desc, outer: set<nat>, right: bool)
    requires Ready(c, s, outer) && !Strict(op) && Proper(e2, s.nactvar)
    requires Compiled(c, s, e1, s1, d1, outer, right)
    requires Gone(c, s1, d1, outer, op.OprOr?, s2, l)
    requires Compiled(c, s2, e2, s3, d2, Elems(l) + outer, right)
    ensures var (s4, d) := LinkBack(s3, DischargeVars(d2), op.OprOr?, l);
      Compiled(c, s, EBinary(op, e1, e2), s4, d, outer, right)
  {
    hide Link;
    hide Sem;
    hide Gate;
    hide Simulates;
    var cond, outer2, d2' := op.OprOr?, Elems(l) + outer, DischargeVars(d2);
    var (s4, d) := LinkBack(s3, d2', cond, l);
    LevelHigh(s, Fresh, outer);
    GoneReady(c, s1, outer, s2, l, Floor(s1, d1.k));
    KeepsVars(c, s3, d2, outer2);
    KeepsWF(c, s3, d2, s3, d2', outer2);
    ShortParts(c, s, s1, s2, l, s3, outer);
    LinkBackOK(c, s3, d2', cond, l, outer);
    ShapeKept(s3, d2, s4);
    hide Comes;
    AdvanceTwice(s, s3, s4, outer);
    hide Kept;
    hide TestsKept;
    if !s4.failed && right {
      VarsSimulates(c, s2, e2, s3, d2, outer2);
      assert ListOK(s2.code, l) && Elems(l) !! outer && Kept(s2.code, s3.code, outer2) && s.nactvar <= s.freereg;
      hide WF;
      hide ListOK;
      hide Ready;
      hide Started;
      ShortSimulates(c, s, op, e1, e2, s1, d1, s2, l, s3, d2', outer);
    }
    hide WF;
    hide Started;
    hide Ready;
    hide RunE;
    hide ListOK;
    hide GoneOK;
  }

  /** What an expression comes as does not depend on its jumps. */
  lemma ShapeKept(s: State, d: Desc, s': State)
    requires Comes(s, d.k) && KindCode(s, d.k) && RegOK(s, d.k) && s'.nactvar == s.nactvar
    requires s'.kst == s.kst && |s'.code| == |s.code| && Floor(s', DischargeVars(d).k) == Floor(s, DischargeVars(d).k)
    requires forall p: nat :: p < |s.code| && !s.code[p].Jmp? ==> s'.code[p] == s.code[p]
    ensures Comes(s', DischargeVars(d).k)
  {
  }

  lemma VarsSimulates(c: Ctx, s2: State, e2: Expr, s3: State, d2: Desc, outer: set<nat>)
    requires WF(s3, d2, outer) && Started(c, s3, d2.k) && Simulates(c, s2, e2, s3, d2, outer)
    requires Floor(s3, d2.k) == s2.freereg && !s3.failed
    ensures Simulates(c, s2, e2, s3, DischargeVars(d2), outer)
  {
    KeepsVars(c, s3, d2, outer);
    assert Stops(DischargeVars(d2), outer) == Stops(d2, outer);
    hide Sem;
    hide WF;
    hide Eval;
  }

  lemma ShortParts(c: Ctx, s: State, s1: State, s2: State, l: seq<nat>, s3: State, outer: set<nat>)
    requires Advance(s, s1, outer) && GoneOK(c, s1, outer, s2, l, s.freereg) && Advance(s2, s3, Elems(l) + outer)
    ensures Advance(s, s3, outer) && ListOK(s3.code, l) && Elems(l) !! outer && s2.freereg == s.freereg
  {
    ListWaited(s2.code, s3.code, l, outer);
    KeptUnion(s2.code, s3.code, Elems(l), outer);
    KeptTwice(s.code, s1.code, s2.code, outer);
    KeptTwice(s.code, s2.code, s3.code, outer);
    hide Kept;
    hide ListOK;
    hide Base;
  }

  // ---------- the theorem ----------

  lemma ShortPosfix(m: Machine, s: State, op: BinOpr, d: Desc, d2: Desc)
    requires !Strict(op)
    ensures Posfix(m, s, op, d, d2) == LinkBack(s, DischargeVars(d2), op.OprOr?, if op.OprOr? then d.t else d.f)
  {
  }

  lemma ShortInfix(s: State, op: BinOpr, d: Desc)
    requires !Strict(op)
    ensures Infix(s, op, d) == GoIf(s, d, op.OprOr?)
  {
  }

  /** Compiler correctness: every expression is compiled to well-formed code, at the register
      level it started from; and if no jump can skip the load of one of its numerals then, for
      every run of the code around it, this code delivers the value of the expression, whatever
      way out the run takes, with the primitive operations done in the same order, and raises the
      same errors. */
  lemma {:induction false} CompileSound(c: Ctx, s: State, e: Expr, outer: set<nat>)
    requires Ready(c, s, outer) && Proper(e, s.nactvar)
    requires Compile(c.m, s, e).0.kst <= c.kst
    ensures Compiled(c, s, e, Compile(c.m, s, e).0, Compile(c.m, s, e).1, outer, Nameable(c.m, s, e))
    decreases e
  {
    match e
    case EParen(e1) =>
      hide Compiled;
      CompileSound1(c, s, e, e1, outer);
      ParenCompiled(c, s, e1, Compile(c.m, s, e1).0, Compile(c.m, s, e1).1, outer, Nameable(c.m, s, e1));
    case ENot(e1) =>
      hide CodeNot;
      hide Compiled;
      CompileSound1(c, s, e, e1, outer);
      NotCompiled(c, s, e1, Compile(c.m, s, e1).0, Compile(c.m, s, e1).1, outer, Nameable(c.m, s, e1));
    case EUnary(op, e1) =>
      hide Prefix;
      hide Compiled;
      CompileSound1(c, s, e, e1, outer);
      PrefixCompiled(c, s, op, e1, Compile(c.m, s, e1).0, Compile(c.m, s, e1).1, outer, Nameable(c.m, s, e1));
    case EBinary(op, e1, e2) => BinarySound(c, s, op, e1, e2, outer);
    case EString(str) =>
      hide Compiled;
      StringCompiled(c, s, str, outer);
    case _ =>
      hide Compiled;
      LeafCompiled(c, s, e, Compile(c.m, s, e).1.k, outer);
  }

  lemma {:induction false} CompileSound1(c: Ctx, s: State, e: Expr, e1: Expr, outer: set<nat>)
    requires Ready(c, s, outer) && Proper(e, s.nactvar)
    requires e == EParen(e1) || e == ENot(e1) || (e.EUnary? && e.e == e1)
    requires Compile(c.m, s, e).0.kst <= c.kst
    ensures Compiled(c, s, e1, Compile(c.m, s, e1).0, Compile(c.m, s, e1).1, outer, Nameable(c.m, s, e1))
    decreases e, 0
  {
    hide CodeNot;
    hide Prefix;
    hide Compiled;
    var (s1, d1) := Compile(c.m, s, e1);
    if e.ENot? {
      CodeNotGrows(s1, d1);
    } else if e.EUnary? {
      PrefixGrows(c.m, s1, e.uop, d1);
    }
    CompileSound(c, s, e1, outer);
  }

  lemma {:induction false} BinarySound(c: Ctx, s: State, op: BinOpr, e1: Expr, e2: Expr, outer: set<nat>)
    requires Ready(c, s, outer) && Proper(EBinary(op, e1, e2), s.nactvar)
    requires Compile(c.m, s, EBinary(op, e1, e2)).0.kst <= c.kst
    ensures var e := EBinary(op, e1, e2); var (s', d) := Compile(c.m, s, e);
      Compiled(c, s, e, s', d, outer, Nameable(c.m, s, e))
    decreases EBinary(op, e1, e2), 0
  {
    hide Infix;
    hide Posfix;
    hide Compiled;
    hide Ready;
    hide InTime;
    var (s1, d1) := Compile(c.m, s, e1);
    var (s2, d1') := Infix(s1, op, d1);
    var (s3, d2) := Compile(c.m, s2, e2);
    InfixGrows(s1, op, d1);
    CompileGrows(c.m, s, e1);
    CompileGrows(c.m, s2, e2);
    PosfixGrows(c.m, s3, op, d1', d2);
    var right := Nameable(c.m, s, EBinary(op, e1, e2));
    CompileSound(c, s, e1, outer);
    CompiledIf(c, s, e1, s1, d1, outer, Nameable(c.m, s, e1), right);
    if Strict(op) {
      StrictReady(c, s, op, e1, s1, d1, outer, right);
      CompileSound(c, s2, e2, outer);
      CompiledIf(c, s2, e2, s3, d2, outer, Nameable(c.m, s2, e2), right);
      StrictSound(c, s, op, e1, e2, outer);
    } else {
      var waiting := Elems(if op.OprOr? then d1'.t else d1'.f) + outer;
      ShortReady(c, s, op, e1, s1, d1, outer, right);
      CompileSound(c, s2, e2, waiting);
      CompiledIf(c, s2, e2, s3, d2, waiting, Nameable(c.m, s2, e2), right);
      ShortSound(c, s, op, e1, e2, outer);
    }
  }

  /** Between the operands of an operator that evaluates both. */
  lemma StrictReady(c: Ctx, s: State, op: BinOpr, e1: Expr, s1: State, d1: Desc, outer: set<nat>,
                    right: bool)
    requires Compiled(c, s, e1, s1, d1, outer, right) && Strict(op) && Infix(s1, op, d1).0.kst <= c.kst
    ensures var (s2, d) := Infix(s1, op, d1);
      && Ready(c, s2, outer) && RunS(c, s2, outer) == RunE(c, s2, d, outer) && s2.nactvar == s.nactvar
      && Keeps(c, s1, d1, s2, d, outer) && FirstOK(s2, op, d) && WF(s2, d, outer)
  {
    hide Infix;
    hide Compiled;
    hide WF;
    hide Ready;
    var (s2, d) := Infix(s1, op, d1);
    CompiledWF(c, s, e1, s1, d1, outer, right);
    InfixGrows(s1, op, d1);
    InfixKeeps(c, s1, op, d1, outer);
    KeepsWF(c, s1, d1, s2, d, outer);
    OperandReady(c, s2, op, d, outer);
  }

  lemma StrictSound(c: Ctx, s: State, op: BinOpr, e1: Expr, e2: Expr, outer: set<nat>)
    requires Ready(c, s, outer) && Proper(EBinary(op, e1, e2), s.nactvar) && Strict(op)
    requires Compile(c.m, s, EBinary(op, e1, e2)).0.kst <= c.kst
    requires var right := Nameable(c.m, s, EBinary(op, e1, e2));
      var (s1, d1) := Compile(c.m, s, e1); var (s2, d1') := Infix(s1, op, d1);
      var (s3, d2) := Compile(c.m, s2, e2);
      && Compiled(c, s, e1, s1, d1, outer, right) && Compiled(c, s2, e2, s3, d2, outer, right) && s2.kst <= c.kst
    ensures var e := EBinary(op, e1, e2); var (s', d) := Compile(c.m, s, e);
      Compiled(c, s, e, s', d, outer, Nameable(c.m, s, e))
  {
    hide Infix;
    hide Posfix;
    hide Compiled;
    hide Ready;
    hide InTime;
    hide Keeps;
    hide WF;
    var (s1, d1) := Compile(c.m, s, e1);
    var (s2, d1') := Infix(s1, op, d1);
    var (s3, d2) := Compile(c.m, s2, e2);
    var right := Nameable(c.m, s, EBinary(op, e1, e2));
    StrictReady(c, s, op, e1, s1, d1, outer, right);
    CompiledWF(c, s2, e2, s3, d2, outer, right);
    ComesFree(s3, d2.k);
    OperandAside(s2, op, d1', s3, d2, outer);
    StrictForm(s2, op, d1');
    hide FirstOK;
    hide Compile;
    PosfixJoins(c, s3, op, d1', d2, outer);
    StrictCompiled(c, s, op, e1, e2, s1, d1, s2, d1', s3, d2, Posfix(c.m, s3, op, d1', d2).0,
                   Posfix(c.m, s3, op, d1', d2).1, outer, right);
  }

  lemma StrictForm(s: State, op: BinOpr, d: Desc)
    requires FirstOK(s, op, d)
    ensures op.OprRel? ==> d.k.VK? || d.k.VNonReloc?
  {
  }

  /** Between the operands of and/or: the jumps of the first one wait outside. */
  lemma ShortReady(c: Ctx, s: State, op: BinOpr, e1: Expr, s1: State, d1: Desc, outer: set<nat>,
                   right: bool)
    requires Compiled(c, s, e1, s1, d1, outer, right) && !Strict(op) && Infix(s1, op, d1).0.kst <= c.kst
    ensures var (s2, d) := Infix(s1, op, d1); var l := if op.OprOr? then d.t else d.f;
      && Ready(c, s2, Elems(l) + outer) && Gone(c, s1, d1, outer, op.OprOr?, s2, l) && s2.nactvar == s.nactvar
  {
    hide Infix;
    hide Compiled;
    hide WF;
    hide Ready;
    hide GoIf;
    var (s2, d) := Infix(s1, op, d1);
    var l := if op.OprOr? then d.t else d.f;
    CompiledWF(c, s, e1, s1, d1, outer, right);
    InfixGrows(s1, op, d1);
    ShortInfix(s1, op, d1);
    GoIfSound(c, s1, d1, op.OprOr?, outer);
    GoneReady(c, s1, outer, s2, l, Floor(s1, d1.k));
  }

  lemma ShortSound(c: Ctx, s: State, op: BinOpr, e1: Expr, e2: Expr, outer: set<nat>)
    requires Ready(c, s, outer) && Proper(EBinary(op, e1, e2), s.nactvar) && !Strict(op)
    requires Compile(c.m, s, EBinary(op, e1, e2)).0.kst <= c.kst
    requires var (s1, d1) := Compile(c.m, s, e1); var (s2, d1') := Infix(s1, op, d1);
      var (s3, d2) := Compile(c.m, s2, e2);
      var right := Nameable(c.m, s, EBinary(op, e1, e2));
      && Compiled(c, s, e1, s1, d1, outer, right) && s2.kst <= c.kst
      && Compiled(c, s2, e2, s3, d2, Elems(if op.OprOr? then d1'.t else d1'.f) + outer, right)
    ensures var e := EBinary(op, e1, e2); var (s', d) := Compile(c.m, s, e);
      Compiled(c, s, e, s', d, outer, Nameable(c.m, s, e))
  {
    hide Infix;
    hide Posfix;
    hide Compiled;
    hide Ready;
    hide Gone;
    hide GoIf;
    var (s1, d1) := Compile(c.m, s, e1);
    var (s2, d1') := Infix(s1, op, d1);
    var (s3, d2) := Compile(c.m, s2, e2);
    var l := if op.OprOr? then d1'.t else d1'.f;
    var right := Nameable(c.m, s, EBinary(op, e1, e2));
    ShortReady(c, s, op, e1, s1, d1, outer, right);
    ShortInfix(s1, op, d1);
    ShortPosfix(c.m, s3, op, d1', d2);
    hide Compile;
    ShortCompiled(c, s, op, e1, e2, s1, d1, s2, l, s3, d2, outer, right);
  }

  lemma CompiledIf(c: Ctx, s: State, e: Expr, s': State, d: Desc, outer: set<nat>, right: bool, right': bool)
    requires Compiled(c, s, e, s', d, outer, right) && (right' ==> right)
    ensures Compiled(c, s, e, s', d, outer, right')
  {
  }

  lemma ComesFree(s: State, k: Kind)
    requires Comes(s, k)
    ensures Floor(s, k) == s.freereg && ConcatShape(s, k)
  {
  }

  lemma CompiledWF(c: Ctx, s: State, e: Expr, s': State, d: Desc, outer: set<nat>, right: bool)
    requires Compiled(c, s, e, s', d, outer, right)
    ensures WF(s', d, outer) && Started(c, s', d.k) && Advance(s, s', outer) && Floor(s', d.k) == s.freereg
    ensures Comes(s', d.k)
  {
  }

  // ---------- constant expressions ----------

  function Checked(n: Num): Option<Num> {
    if n in {F(NaN), F(PosZero), F(NegZero)} then None else Some(n)
  }

  /** The number that numerals under arithmetic operators stand for, as far as no operation
      could fail and none gives a NaN or a float zero. */
  function Literal(m: Machine, e: Expr): Option<Num> {
    match e
    case ENumber(n) => Some(n)
    case EParen(e1) => Literal(m, e1)
    case EUnary(op, e1) =>
      var x := Literal(m, e1);
      if x.Some? && op != LEN && ValidOp(PUn(op), x.value, I(0)) then Checked(m.raw(PUn(op), x.value, I(0))) else None
    case EBinary(OprArith(op), e1, e2) =>
      var x, y := Literal(m, e1), Literal(m, e2);
      if x.Some? && y.Some? && ValidOp(PArith(op), x.value, y.value)
      then Checked(m.raw(PArith(op), x.value, y.value)) else None
    case _ => None
  }

  function Numeral(n: Num): Desc {
    Desc(match n case I(i) => VKInt(i) case F(x) => VKFlt(x), [], [])
  }

  lemma FoldUnary(m: Machine, s: State, op: UnOp, x: Num)
    requires op != LEN && ValidOp(PUn(op), x, I(0)) && Checked(m.raw(PUn(op), x, I(0))).Some?
    ensures Prefix(m, s, op, Numeral(x)) == (s, Numeral(m.raw(PUn(op), x, I(0))))
  {
    hide ValidOp;
    hide CodeUnExpVal;
    assert ToNumeral(Numeral(x)) == Some(x);
    assert ToNumeral(Desc(VKInt(0), [], [])) == Some(I(0));
  }

  lemma FoldBinary(m: Machine, s: State, op: ArithOp, x: Num, y: Num)
    requires ValidOp(PArith(op), x, y) && Checked(m.raw(PArith(op), x, y)).Some?
    ensures Infix(s, OprArith(op), Numeral(x)) == (s, Numeral(x))
    ensures Posfix(m, s, OprArith(op), Numeral(x), Numeral(y)) == (s, Numeral(m.raw(PArith(op), x, y)))
  {
    hide ValidOp;
    hide Exp2RK;
    hide CodeBinExpVal;
    assert ToNumeral(Numeral(x)) == Some(x) && ToNumeral(Numeral(y)) == Some(y);
  }

  /** Such an expression is computed by the compiler: it needs no code, no register and no
      constant, and comes as the numeral of its value. */
  lemma {:induction false} FoldsAway(m: Machine, s: State, e: Expr)
    requires Literal(m, e).Some?
    ensures Compile(m, s, e) == (s, Numeral(Literal(m, e).value))
    decreases e
  {
    hide ValidOp;
    hide Checked;
    hide Prefix;
    hide Infix;
    hide Posfix;
    hide CodeNot;
    match e
    case ENumber(_) =>
    case EParen(e1) => FoldsAway(m, s, e1);
    case EUnary(op, e1) =>
      FoldsAway(m, s, e1);
      FoldUnary(m, s, op, Literal(m, e1).value);
      NumeralKept(m, PUn(op), Literal(m, e1).value, I(0));
    case EBinary(op, e1, e2) =>
      FoldsAway(m, s, e1);
      FoldsAway(m, s, e2);
      FoldBinary(m, s, op.op, Literal(m, e1).value, Literal(m, e2).value);
      NumeralKept(m, PArith(op.op), Literal(m, e1).value, Literal(m, e2).value);
  }

  lemma NumeralKept(m: Machine, op: Prim, x: Num, y: Num)
    requires Checked(m.raw(op, x, y)).Some?
    ensures Checked(m.raw(op, x, y)).value == m.raw(op, x, y)
  {
  }
}
