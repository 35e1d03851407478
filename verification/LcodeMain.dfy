/** Whole functions: local declarations, assignments to locals and a final return, compiled
    and run by the machine from the first instruction to the RETURN. */
module LcodeMain {
  import opened LuaVM
  import opened LuaExpr
  import opened LcodeSpec
  import opened LcodeGrow
  import opened LcodeRun
  import opened LcodeInv
  import opened LcodeEmit
  import opened LcodePlace
  import opened LcodeClose
  import opened LcodeExpr
  import opened LcodeOps
  import opened LcodeCompile

  /** What a finished function does. */
  datatype Halt = Returned(v: Value, regs: Regs, w: World) | Raised(w: World) | Lost

  /** The machine: executes instructions until a RETURN, an error, or the fuel is used up. */
  function Exec(m: Machine, kst: seq<Value>, code: seq<Instr>, fuel: nat, pc: int, regs: Regs, w: World): Halt
    decreases fuel
  {
    if fuel == 0 || pc < 0 || pc >= |code| then Lost
    else if code[pc].Return? then Returned(Get(regs, code[pc].a), regs, w)
    else
      match Step(m, kst, code[pc], pc, regs, w)
      case Goto(t, regs', w') => Exec(m, kst, code, fuel - 1, t, regs', w')
      case Raise(w') => Raised(w')
  }

  // ---------- statements ----------

  datatype Stmt =
    | Local(e: Expr)               // local x = e
    | Assign(reg: nat, e: Expr)    // x = e

  datatype Body = Ret(e: Expr) | Seq(first: Stmt, rest: Body)

  predicate ProperStmt(st: Stmt, n: nat) {
    Proper(st.e, n) && (st.Assign? ==> st.reg < n)
  }

  /** The number of active locals after a statement. */
  function Locals(st: Stmt, n: nat): nat {
    if st.Local? then n + 1 else n
  }

  predicate ProperBody(b: Body, n: nat) {
    match b
    case Ret(e) => Proper(e, n)
    case Seq(st, rest) => ProperStmt(st, n) && ProperBody(rest, Locals(st, n))
  }

  function BodyBudget(b: Body): nat {
    match b
    case Ret(e) => Budget(e)
    case Seq(st, rest) => Budget(st.e) + BodyBudget(rest)
  }

  // ---------- the parser's own limits ----------

  const MAXCCALLS: nat := 200

  const MAXVARS: nat := 200

  function Larger(x: nat, y: nat): nat {
    if x > y then x else y
  }

  /** The nested levels of `subexpr` that an expression takes. */
  function Levels(e: Expr): nat
    decreases e, 1
  {
    1 + Inner(e)
  }

  /** Those inside the first one: operators on the left go on at the same level. */
  function Inner(e: Expr): nat
    decreases e, 0
  {
    match e
    case EParen(e1) => Levels(e1)
    case ENot(e1) => Levels(e1)
    case EUnary(_, e1) => Levels(e1)
    case EBinary(_, e1, e2) => Larger(Inner(e1), Levels(e2))
    case _ => 0
  }

  /** With one for the statement. */
  function BodyLevels(b: Body): nat {
    match b
    case Ret(e) => 1 + Levels(e)
    case Seq(st, rest) => Larger(1 + Levels(st.e), BodyLevels(rest))
  }

  /** The locals at the end of a body. */
  function BodyVars(b: Body, n: nat): nat {
    match b
    case Ret(_) => n
    case Seq(st, rest) => BodyVars(rest, Locals(st, n))
  }

  /** The parser refuses the body: it nests deeper than the C levels that are left, or it has
      too many locals. */
  predicate Refused(b: Body, n: nat, used: nat) {
    used + BodyLevels(b) > MAXCCALLS || BodyVars(b, n) > MAXVARS
  }

  /** How far a body has come: values in the locals, or an error. */
  datatype Progress = At(regs: Regs, w: World) | Failed(w: World)

  /** The meaning of a statement with n active locals. */
  function EvalStmt(m: Machine, st: Stmt, n: nat, p: Progress): Progress {
    match p
    case Failed(_) => p
    case At(regs, w) =>
      match Eval(m, st.e, regs, w)
      case Err(w') => Failed(w')
      case Ok(v, w') => At(regs[if st.Local? then n else st.reg := v], w')
  }

  /** What a function body returns, and the values of its n locals when it does. */
  datatype Meaning = Value(v: Value, locals: Regs, n: nat, w: World) | Error(w: World)

  function EvalRet(m: Machine, e: Expr, n: nat, p: Progress): Meaning {
    match p
    case Failed(w) => Error(w)
    case At(regs, w) =>
      match Eval(m, e, regs, w)
      case Err(w') => Error(w')
      case Ok(v, w') => Value(v, regs, n, w')
  }

  /** The meaning of a function body with n active locals. */
  function EvalBody(m: Machine, b: Body, n: nat, p: Progress): Meaning
    decreases b
  {
    match b
    case Ret(e) => EvalRet(m, e, n, p)
    case Seq(st, rest) => EvalBody(m, rest, Locals(st, n), EvalStmt(m, st, n, p))
  }

  // ---------- compiling them ----------

  /** `localstat`: the value goes to the next register, which becomes a local. */
  function CompileLocal(m: Machine, s: State, e: Expr): State {
    var (s1, d) := Compile(m, s, e);
    var s2 := Exp2NextReg(s1, d).0;
    s2.(nactvar := s2.nactvar + 1)
  }

  /** `restassign` with one local variable. */
  function CompileAssign(m: Machine, s: State, r: nat, e: Expr): State {
    var (s1, d) := Compile(m, s, e);
    StoreLocal(s1, r, d).0
  }

  function CompileStmt(m: Machine, s: State, st: Stmt): State {
    match st
    case Local(e) => CompileLocal(m, s, e)
    case Assign(r, e) => CompileAssign(m, s, r, e)
  }

  /** `retstat` with one expression. */
  function CompileReturn(m: Machine, s: State, e: Expr): State {
    var (s1, d) := Compile(m, s, e);
    var (s2, d2) := Exp2AnyReg(s1, d);
    Emit(s2, Return(if d2.k.VNonReloc? then d2.k.reg else 0, 2))
  }

  function CompileBody(m: Machine, s: State, b: Body): State
    decreases b
  {
    match b
    case Ret(e) => CompileReturn(m, s, e)
    case Seq(st, rest) => CompileBody(m, CompileStmt(m, s, st), rest)
  }

  /** `open_func`, with n parameters. */
  function Opened(n: nat, cache: map<Key, Slot>): State {
    State([], [], 0, n, n, if n > 2 then n else 2, [], cache, false)
  }

  /** No jump in the body can skip the load of a numeral. */
  predicate NameableBody(m: Machine, s: State, b: Body)
    decreases b
  {
    match b
    case Ret(e) => Nameable(m, s, e)
    case Seq(st, rest) => Nameable(m, s, st.e) && NameableBody(m, CompileStmt(m, s, st), rest)
  }

  // ---------- the constant table ----------

  lemma LocalGrows(m: Machine, s: State, e: Expr)
    ensures var s' := CompileLocal(m, s, e);
      s.kst <= s'.kst && |s'.kst| <= |s.kst| + Budget(e) && (s.failed ==> s'.failed)
      && s'.nactvar == s.nactvar + 1 && Exp2NextReg(Compile(m, s, e).0, Compile(m, s, e).1).0.kst == s'.kst
  {
    hide Compile;
    hide Exp2NextReg;
    CompileGrows(m, s, e);
    NextRegGrows(Compile(m, s, e).0, Compile(m, s, e).1);
  }

  lemma AssignGrows(m: Machine, s: State, r: nat, e: Expr)
    ensures var s' := CompileAssign(m, s, r, e);
      s.kst <= s'.kst && |s'.kst| <= |s.kst| + Budget(e) && (s.failed ==> s'.failed) && s'.nactvar == s.nactvar
      && Compile(m, s, e).0.kst <= s'.kst
  {
    hide Compile;
    hide Exp2Reg;
    CompileGrows(m, s, e);
    var (s1, d) := Compile(m, s, e);
    Exp2RegGrows(FreeExp(s1, d), d, r);
  }

  lemma ReturnGrows(m: Machine, s: State, e: Expr)
    ensures var s' := CompileReturn(m, s, e);
      s.kst <= s'.kst && |s'.kst| <= |s.kst| + Budget(e) && (s.failed ==> s'.failed)
      && Compile(m, s, e).0.kst <= s'.kst && Exp2AnyReg(Compile(m, s, e).0, Compile(m, s, e).1).0.kst == s'.kst
      && (Exp2AnyReg(Compile(m, s, e).0, Compile(m, s, e).1).0.failed ==> s'.failed)
  {
    hide Compile;
    hide Exp2AnyReg;
    hide Emit;
    CompileGrows(m, s, e);
    var (s1, d) := Compile(m, s, e);
    AnyRegGrows(s1, d);
    var (s2, d2) := Exp2AnyReg(s1, d);
    EmitGrows(s2, Return(if d2.k.VNonReloc? then d2.k.reg else 0, 2));
  }

  lemma StmtGrows(m: Machine, s: State, st: Stmt)
    ensures var s' := CompileStmt(m, s, st);
      s.kst <= s'.kst && |s'.kst| <= |s.kst| + Budget(st.e) && (s.failed ==> s'.failed)
        && s'.nactvar == Locals(st, s.nactvar)
  {
    hide CompileLocal;
    hide CompileAssign;
    match st
    case Local(e) => LocalGrows(m, s, e);
    case Assign(r, e) => AssignGrows(m, s, r, e);
  }

  lemma {:induction false} BodyGrows(m: Machine, s: State, b: Body)
    ensures var s' := CompileBody(m, s, b);
      s.kst <= s'.kst && |s'.kst| <= |s.kst| + BodyBudget(b) && (s.failed ==> s'.failed)
    decreases b
  {
    hide CompileStmt;
    hide CompileReturn;
    match b
    case Ret(e) => ReturnGrows(m, s, e);
    case Seq(st, rest) =>
      StmtGrows(m, s, st);
      BodyGrows(m, CompileStmt(m, s, st), rest);
  }

  // ---------- one statement ----------

  /** Between two statements only the locals are in use. */
  ghost predicate AtStatement(c: Ctx, s: State) {
    Ready(c, s, {}) && s.freereg == s.nactvar
  }

  /** The run of the code so far has made this progress. */
  ghost predicate Follows(c: Ctx, s: State, p: Progress) {
    var o := RunS(c, s, {});
    match p
    case Failed(w) => o == Fail(w)
    case At(regs, w) => o.Exit? && o.pc == |s.code| && o.w == w && Below(o.regs, regs, s.nactvar)
  }

  /** The run of the code so far has made this progress towards the value of e. */
  ghost predicate Valued(c: Ctx, s: State, d: Desc, m: Machine, e: Expr, p: Progress, n: nat) {
    match p
    case Failed(w) => RunE(c, s, d, {}) == Fail(w)
    case At(regs, w) => Sem(c, s, d, {}, Eval(m, e, regs, w), regs, n)
  }

  lemma ExprRun(c: Ctx, s: State, e: Expr, p: Progress)
    requires AtStatement(c, s) && (s.failed || Follows(c, s, p)) && Proper(e, s.nactvar)
    requires Compile(c.m, s, e).0.kst <= c.kst && Nameable(c.m, s, e)
    ensures var (s1, d) := Compile(c.m, s, e);
      && WF(s1, d, {}) && Started(c, s1, d.k) && Floor(s1, d.k) == s.nactvar == s1.nactvar
      && (s1.failed || Valued(c, s1, d, c.m, e, p, s.nactvar))
  {
    hide Compile;
    hide Sem;
    hide WF;
    hide Started;
    var (s1, d) := Compile(c.m, s, e);
    CompileSound(c, s, e, {});
    if !s1.failed && p.At? {
      var o := RunS(c, s, {});
      EvalLocals(c.m, e, s.nactvar, o.regs, p.regs, p.w);
      SemFrom(c, s1, d, Eval(c.m, e, p.regs, p.w), o.regs, p.regs, s.nactvar);
    }
  }

  lemma SemFrom(c: Ctx, s: State, d: Desc, ev: Res, regs1: Regs, regs0: Regs, n: nat)
    requires Sem(c, s, d, {}, ev, regs1, n) && Below(regs1, regs0, n)
    ensures Sem(c, s, d, {}, ev, regs0, n)
  {
    hide RunE;
    hide Denote;
  }

  lemma LocalAt(c: Ctx, s: State, e: Expr)
    requires AtStatement(c, s) && Proper(e, s.nactvar)
    requires CompileLocal(c.m, s, e).kst <= c.kst
    ensures AtStatement(c, CompileLocal(c.m, s, e))
  {
    hide Compile;
    hide Exp2NextReg;
    hide WF;
    hide Started;
    LocalGrows(c.m, s, e);
    CompileGrows(c.m, s, e);
    var (s1, d) := Compile(c.m, s, e);
    NextRegGrows(s1, d);
    CompileSound(c, s, e, {});
    CompiledWF(c, s, e, s1, d, {}, Nameable(c.m, s, e));
    NextRegKeeps(c, s1, d, {});
    var (s2, d2) := Exp2NextReg(s1, d);
    KeepsWF(c, s1, d, s2, d2, {});
    LocalState(c, s2, d2);
  }

  lemma LocalRun(c: Ctx, s: State, e: Expr, p: Progress)
    requires AtStatement(c, s) && (s.failed || Follows(c, s, p)) && Proper(e, s.nactvar)
    requires CompileLocal(c.m, s, e).kst <= c.kst && Nameable(c.m, s, e)
    ensures var s' := CompileLocal(c.m, s, e);
      s'.failed || Follows(c, s', EvalStmt(c.m, Local(e), s.nactvar, p))
  {
    hide Compile;
    hide Exp2NextReg;
    hide WF;
    hide Started;
    hide Sem;
    hide Follows;
    hide AtStatement;
    LocalGrows(c.m, s, e);
    CompileGrows(c.m, s, e);
    var (s1, d) := Compile(c.m, s, e);
    NextRegGrows(s1, d);
    ExprRun(c, s, e, p);
    NextRegKeeps(c, s1, d, {});
    var (s2, d2) := Exp2NextReg(s1, d);
    KeepsWF(c, s1, d, s2, d2, {});
    if !s2.failed {
      KeepsPass(c, s1, d, s2, d2, {});
      if p.At? {
        KeepsUse(c, s1, d, s2, d2, {}, Eval(c.m, e, p.regs, p.w), p.regs);
      }
      LocalFollows(c, s2, e, p, s.nactvar);
    }
  }

  lemma LocalState(c: Ctx, s: State, d: Desc)
    requires WF(s, d, {}) && Started(c, s, d.k) && d == Desc(VNonReloc(s.nactvar), [], []) && s.freereg == s.nactvar + 1
    ensures AtStatement(c, s.(nactvar := s.nactvar + 1))
  {
    assert Waiting(d, {}) == Waiting(Fresh, {});
  }

  lemma LocalFollows(c: Ctx, s: State, e: Expr, p: Progress, n: nat)
    requires Valued(c, s, Desc(VNonReloc(n), [], []), c.m, e, p, n)
    ensures Follows(c, s.(nactvar := n + 1), EvalStmt(c.m, Local(e), n, p))
  {
    var d := Desc(VNonReloc(n), [], []);
    assert Stops(d, {}) == {};
    assert RunE(c, s, d, {}) == RunS(c, s, {}) == RunS(c, s.(nactvar := n + 1), {});
    hide RunE;
    hide RunS;
  }

  lemma AssignAt(c: Ctx, s: State, r: nat, e: Expr)
    requires AtStatement(c, s) && Proper(e, s.nactvar) && r < s.nactvar
    requires CompileAssign(c.m, s, r, e).kst <= c.kst
    ensures AtStatement(c, CompileAssign(c.m, s, r, e))
  {
    hide Compile;
    hide Exp2Reg;
    hide Core;
    hide Started;
    hide InReg;
    AssignGrows(c.m, s, r, e);
    var (s1, d) := Compile(c.m, s, e);
    CompileSound(c, s, e, {});
    CompiledWF(c, s, e, s1, d, {}, Nameable(c.m, s, e));
    AssignStart(c, s1, d);
    Exp2RegSound(c, FreeExp(s1, d), d, r, {});
    AssignState(c, FreeExp(s1, d), d, r, CompileAssign(c.m, s, r, e));
  }

  lemma AssignRun(c: Ctx, s: State, r: nat, e: Expr, p: Progress)
    requires AtStatement(c, s) && (s.failed || Follows(c, s, p)) && Proper(e, s.nactvar) && r < s.nactvar
    requires CompileAssign(c.m, s, r, e).kst <= c.kst && Nameable(c.m, s, e)
    ensures var s' := CompileAssign(c.m, s, r, e);
      s'.failed || Follows(c, s', EvalStmt(c.m, Assign(r, e), s.nactvar, p))
  {
    hide Compile;
    hide Exp2Reg;
    hide Core;
    hide Started;
    hide Sem;
    hide Follows;
    hide AtStatement;
    hide InReg;
    AssignGrows(c.m, s, r, e);
    var (s1, d) := Compile(c.m, s, e);
    ExprRun(c, s, e, p);
    var s0 := FreeExp(s1, d);
    AssignStart(c, s1, d);
    Exp2RegSound(c, s0, d, r, {});
    var s' := CompileAssign(c.m, s, r, e);
    if !s'.failed {
      Exp2RegGrows(s0, d, r);
      AssignFollows(c, s1, s0, d, e, p, r, s');
    }
  }

  lemma AssignStart(c: Ctx, s: State, d: Desc)
    requires WF(s, d, {}) && Started(c, s, d.k)
    ensures var s0 := FreeExp(s, d);
      && Core(s0, d, {}) && Started(c, s0, d.k) && RunE(c, s0, d, {}) == RunE(c, s, d, {})
      && s0 == s.(freereg := s0.freereg) && s0.freereg == Floor(s, d.k)
  {
    FreeOK(s, d);
    LevelCore(c, s, FreeExp(s, d), d, {});
  }

  lemma AssignState(c: Ctx, s0: State, d: Desc, r: nat, s': State)
    requires InReg(c, s0, d, {}, r, s') && Started(c, s', VNonReloc(r)) && s0.freereg == s0.nactvar
    ensures AtStatement(c, s')
  {
    hide Base;
    NoLists(s'.code, {});
    assert Waiting(Fresh, {}) + KStops(VNil) == {};
  }

  lemma AssignFollows(c: Ctx, s1: State, s0: State, d: Desc, e: Expr, p: Progress, r: nat, s': State)
    requires InReg(c, s0, d, {}, r, s') && RunE(c, s0, d, {}) == RunE(c, s1, d, {}) && s0.code == s1.code
    requires s0.nactvar == s1.nactvar
    requires r < s1.nactvar && !s'.failed && Valued(c, s1, d, c.m, e, p, s1.nactvar)
    ensures Follows(c, s', EvalStmt(c.m, Assign(r, e), s1.nactvar, p))
  {
    hide Base;
    hide RunS;
    hide KindValue;
    hide JumpValue;
    assert r != NO_REG;
  }

  // ---------- the return ----------

  /** Code that has returned from the run ending in its last instruction. */
  lemma {:induction false} ExecRun(m: Machine, kst: seq<Value>, code: seq<Instr>, r: nat, last: nat, fuel: nat,
                                   pc: nat, regs: Regs, w: World)
    requires Closed(code, {}, last) && pc <= |code| && fuel > |code| - pc
    ensures Exec(m, kst, code + [Return(r, 2)], fuel, pc, regs, w) ==
      match Run(m, kst, code, {}, pc, regs, w) {
        case Exit(_, regs', w') => Returned(Get(regs', r), regs', w')
        case Fail(w') => Raised(w')
        case Stuck => Lost
      }
    decreases |code| - pc
  {
    if pc < |code| {
      StepForward(m, kst, code, {}, last, pc, regs, w);
      assert SafeAt(code, {}, last, pc);
      var n := Step(m, kst, code[pc], pc, regs, w);
      if n.Goto? {
        ExecRun(m, kst, code, r, last, fuel - 1, n.pc, n.regs, n.w);
      }
    }
  }

  /** The machine has done what the body means: the same value and final locals, or the same
      error, after the same operations. */
  ghost predicate Halts(h: Halt, mean: Meaning) {
    match mean
    case Error(w) => h == Raised(w)
    case Value(v, locals, n, w) => h.Returned? && h.v == v && h.w == w && Below(h.regs, locals, n)
  }

  lemma ReturnRun(c: Ctx, s: State, e: Expr, p: Progress)
    requires AtStatement(c, s) && (s.failed || Follows(c, s, p)) && Proper(e, s.nactvar) && c.start == 0
    requires CompileReturn(c.m, s, e).kst <= c.kst && Nameable(c.m, s, e)
    ensures var s' := CompileReturn(c.m, s, e);
      s'.failed || Halts(Exec(c.m, c.kst, s'.code, |s'.code|, 0, c.regs, c.w), EvalRet(c.m, e, s.nactvar, p))
  {
    hide Compile;
    hide Exp2AnyReg;
    hide Emit;
    hide WF;
    hide Started;
    hide Sem;
    hide Follows;
    hide AtStatement;
    hide Exec;
    hide Halts;
    hide EvalRet;
    ReturnGrows(c.m, s, e);
    ExprRun(c, s, e, p);
    var (s1, d) := Compile(c.m, s, e);
    AnyRegKeeps(c, s1, d, {});
    var (s2, d2) := Exp2AnyReg(s1, d);
    KeepsWF(c, s1, d, s2, d2, {});
    if !CompileReturn(c.m, s, e).failed {
      KeepsPass(c, s1, d, s2, d2, {});
      if p.At? {
        KeepsUse(c, s1, d, s2, d2, {}, Eval(c.m, e, p.regs, p.w), p.regs);
      }
      ReturnHalts(c, s2, d2.k.reg, e, p, s.nactvar);
    }
  }

  lemma ReturnHalts(c: Ctx, s: State, r: nat, e: Expr, p: Progress, n: nat)
    requires c.start == 0 && WF(s, Desc(VNonReloc(r), [], []), {}) && Started(c, s, VNonReloc(r))
    requires Valued(c, s, Desc(VNonReloc(r), [], []), c.m, e, p, n)
    ensures var s' := Emit(s, Return(r, 2));
      Halts(Exec(c.m, c.kst, s'.code, |s'.code|, 0, c.regs, c.w), EvalRet(c.m, e, n, p))
  {
    hide Run;
    hide Closed;
    hide Exec;
    var d := Desc(VNonReloc(r), [], []);
    assert Stops(d, {}) == {} && Waiting(d, {}) + KStops(d.k) == {};
    Discharged(c, s, {});
    var s1 := DischargeJpc(s);
    ExecRun(c.m, c.kst, s1.code, r, s.lasttarget, |s1.code| + 1, 0, c.regs, c.w);
    hide Base;
  }

  // ---------- the theorem ----------

  lemma StmtRun(c: Ctx, s: State, st: Stmt, p: Progress)
    requires AtStatement(c, s) && (s.failed || Follows(c, s, p)) && ProperStmt(st, s.nactvar)
    requires CompileStmt(c.m, s, st).kst <= c.kst && Nameable(c.m, s, st.e)
    ensures var s' := CompileStmt(c.m, s, st);
      AtStatement(c, s') && (s'.failed || Follows(c, s', EvalStmt(c.m, st, s.nactvar, p)))
  {
    hide CompileLocal;
    hide CompileAssign;
    hide AtStatement;
    hide Follows;
    hide EvalStmt;
    match st
    case Local(e) => LocalAt(c, s, e); LocalRun(c, s, e, p);
    case Assign(r, e) => AssignAt(c, s, r, e); AssignRun(c, s, r, e, p);
  }

  lemma {:induction false} BodyRun(c: Ctx, s: State, b: Body, p: Progress)
    requires AtStatement(c, s) && (s.failed || Follows(c, s, p)) && ProperBody(b, s.nactvar) && c.start == 0
    requires CompileBody(c.m, s, b).kst <= c.kst && NameableBody(c.m, s, b)
    ensures var s' := CompileBody(c.m, s, b);
      s'.failed || Halts(Exec(c.m, c.kst, s'.code, |s'.code|, 0, c.regs, c.w), EvalBody(c.m, b, s.nactvar, p))
    decreases b
  {
    hide CompileStmt;
    hide CompileReturn;
    hide AtStatement;
    hide Follows;
    hide Exec;
    hide Halts;
    hide EvalStmt;
    hide EvalRet;
    match b
    case Ret(e) => ReturnRun(c, s, e, p);
    case Seq(st, rest) =>
      StmtGrows(c.m, s, st);
      BodyGrows(c.m, CompileStmt(c.m, s, st), rest);
      StmtRun(c, s, st, p);
      BodyRun(c, CompileStmt(c.m, s, st), rest, EvalStmt(c.m, st, s.nactvar, p));
  }

  /** Every constant fits an instruction; and every numeral that comes first fits an operand, or
      no jump leads around its load. */
  predicate Loadable(m: Machine, b: Body, n: nat, cache: map<Key, Slot>) {
    NameableBody(m, Opened(n, cache), b) && |CompileBody(m, Opened(n, cache), b).kst| <= MAXARG_Bx + 1
  }

  /** Compiler correctness: if no jump can skip the load of a numeral then, unless the compiler
      raises a syntax error, the machine started on the code of a body halts within
      one step per instruction, having returned the value, and left the values in the locals,
      that the body means, or having raised its error, with the same primitive operations done
      in the same order. */
  lemma FunctionSound(m: Machine, b: Body, n: nat, cache: map<Key, Slot>, regs: Regs, w: World)
    requires ProperBody(b, n) && n < MAXREGS && Loadable(m, b, n, cache)
    ensures var s' := CompileBody(m, Opened(n, cache), b);
      s'.failed || Halts(Exec(m, s'.kst, s'.code, |s'.code|, 0, regs, w), EvalBody(m, b, n, At(regs, w)))
  {
    var s0, s' := Opened(n, cache), CompileBody(m, Opened(n, cache), b);
    var c := Ctx(m, s'.kst, 0, regs, w);
    OpenedReady(c, n, cache);
    hide AtStatement;
    hide Follows;
    BodyRun(c, s0, b, At(regs, w));
  }

  lemma OpenedReady(c: Ctx, n: nat, cache: map<Key, Slot>)
    requires c.start == 0 && n < MAXREGS
    ensures var s := Opened(n, cache); AtStatement(c, s) && Follows(c, s, At(c.regs, c.w))
  {
  }

  // ---------- small tables ----------

  /** With no more constants than an operand can name, every operand can be named. */
  lemma {:induction false} FewNameable(m: Machine, s: State, e: Expr)
    requires |Compile(m, s, e).0.kst| <= MAXINDEXRK + 1
    ensures Nameable(m, s, e)
    decreases e
  {
    hide CodeNot;
    hide Prefix;
    hide Infix;
    hide Posfix;
    hide InTime;
    match e
    case EParen(e1) => FewNameable(m, s, e1);
    case ENot(e1) =>
      CodeNotGrows(Compile(m, s, e1).0, Compile(m, s, e1).1);
      FewNameable(m, s, e1);
    case EUnary(op, e1) =>
      PrefixGrows(m, Compile(m, s, e1).0, op, Compile(m, s, e1).1);
      FewNameable(m, s, e1);
    case EBinary(op, e1, e2) =>
      var (s1, d1) := Compile(m, s, e1);
      var (s2, d1') := Infix(s1, op, d1);
      var (s3, d2) := Compile(m, s2, e2);
      InfixGrows(s1, op, d1);
      CompileGrows(m, s2, e2);
      PosfixGrows(m, s3, op, d1', d2);
      FewNameable(m, s, e1);
      FewNameable(m, s2, e2);
      FewInTime(m, s3, op, d1', d2);
    case _ =>
  }

  lemma FewInTime(m: Machine, s: State, op: BinOpr, d: Desc, d2: Desc)
    requires |Posfix(m, s, op, d, d2).0.kst| <= MAXINDEXRK + 1
    ensures InTime(m, s, op, d, d2)
  {
    hide Exp2RK;
    hide AddK;
    hide ConstFolding;
    if op.OprArith? && ConstFolding(m, PArith(op.op), d, d2).None? && (d.k.VKInt? || d.k.VKFlt?) {
      CodeBinGrows(s, op.op, d, d2);
      hide CodeBinExpVal;
      FirstAdded(s, d);
    }
  }

  /** A numeral that is an operand is in the table afterwards. */
  lemma FirstAdded(s: State, d: Desc)
    requires d.k.VKInt? || d.k.VKFlt?
    ensures HasJumps(d) || AddK(s, ConstantOf(d.k).value).1 < |Exp2RK(s, d).0.kst|
  {
    RKGrows(s, d);
    AddKSound(s, ConstantOf(d.k).value);
    hide Exp2RK;
    hide AddK;
  }

  lemma {:induction false} FewNameableBody(m: Machine, s: State, b: Body)
    requires |CompileBody(m, s, b).kst| <= MAXINDEXRK + 1
    ensures NameableBody(m, s, b)
    decreases b
  {
    hide Nameable;
    hide CompileStmt;
    hide CompileReturn;
    match b
    case Ret(e) =>
      ReturnGrows(m, s, e);
      FewNameable(m, s, e);
    case Seq(st, rest) =>
      BodyGrows(m, CompileStmt(m, s, st), rest);
      FewStmt(m, s, st);
      FewNameableBody(m, CompileStmt(m, s, st), rest);
  }

  lemma FewStmt(m: Machine, s: State, st: Stmt)
    requires |CompileStmt(m, s, st).kst| <= MAXINDEXRK + 1
    ensures Nameable(m, s, st.e)
  {
    hide Nameable;
    hide Compile;
    hide Exp2NextReg;
    hide Exp2Reg;
    var (s1, d) := Compile(m, s, st.e);
    match st {
      case Local(e) => NextRegGrows(s1, d);
      case Assign(r, e) => Exp2RegGrows(FreeExp(s1, d), d, r);
    }
    FewNameable(m, s, st.e);
  }

  /** So it is for a body of no more leaves and negations. */
  lemma SmallLoadable(m: Machine, b: Body, n: nat, cache: map<Key, Slot>)
    requires BodyBudget(b) <= MAXINDEXRK + 1
    ensures Loadable(m, b, n, cache)
  {
    BodyGrows(m, Opened(n, cache), b);
    FewNameableBody(m, Opened(n, cache), b);
    hide CompileBody;
    hide NameableBody;
  }
}
