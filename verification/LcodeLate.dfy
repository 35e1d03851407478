/** `codebinexpval`: its first operand is brought into R/K form behind the code of the second
    one.  A numeral that no operand can name is loaded only there, so the ways out of the second
    operand that jump over the load find the old contents of the register. */
module LcodeLate {
  import opened LuaVM
  import opened LcodeSpec
  import opened LcodeGrow
  import opened LcodeRun
  import opened LcodeInv
  import opened LcodeEmit
  import opened LcodePlace
  import opened LcodeClose
  import opened LcodeExpr
  import opened LcodeOps
  import opened LcodeBinary

  // ---------- the numeral ----------

  /** A first operand that needs a register, and a second one that is in no temporary one. */
  ghost predicate LateOperands(s: State, d: Desc, e2: Desc) {
    && !HasJumps(d) && (d.k.VKInt? || d.k.VKFlt?) && !Named(s, d) && PlainConst(ConstantOf(d.k).value)
    && Floor(s, e2.k) == s.freereg
  }

  /** The jumps that wait while the numeral is loaded. */
  function Pending(e: Desc, outer: set<nat>): set<nat> {
    Waiting(e, outer) + if e.k.VJmp? then {e.k.pc} else {}
  }

  /** The state just before the load of a numeral. */
  function BeforeLoad(s: State, d: Desc): State
    requires ConstantOf(d.k).Some?
  {
    Reserve(AddK(s, ConstantOf(d.k).value).0, 1)
  }

  function LoadOf(s: State, d: Desc): Instr
    requires ConstantOf(d.k).Some?
  {
    LoadK(s.freereg, AddK(s, ConstantOf(d.k).value).1)
  }

  lemma LateCode(s: State, d: Desc)
    requires (d.k.VKInt? || d.k.VKFlt?) && !HasJumps(d) && !Named(s, d)
    ensures Exp2RK(s, d) == (Emit(BeforeLoad(s, d), LoadOf(s, d)), Desc(VNonReloc(s.freereg), [], []), R(s.freereg))
  {
    hide Emit;
    hide AddK;
    hide CloseLists;
    var (s1, k) := AddK(s, ConstantOf(d.k).value);
    AddKSound(s, ConstantOf(d.k).value);
    var e1 := d.(k := VK(k));
    assert Exp2Val(s, d) == (s, d);
    assert Exp2AnyReg(s1, e1) == Exp2NextReg(s1, e1);
  }

  /** The numeral is an expression of its own, the jumps of the second operand waiting outside. */
  lemma LateReady(c: Ctx, s: State, d: Desc, e2: Desc, outer: set<nat>)
    requires WF(s, e2, outer) && Started(c, s, e2.k) && LateOperands(s, d, e2)
    ensures WF(s, d, Pending(e2, outer)) && Started(c, s, d.k) && Floor(s, d.k) == s.freereg
  {
    var all := Pending(e2, outer);
    assert Waiting(d, all) + KStops(d.k) == all;
    if e2.k.VReloc? {
      forall p: nat | p < |s.code| ensures SafeAt(s.code, all + Elems(s.jpc), s.lasttarget, p) {
        assert SafeAt(s.code, Waiting(e2, outer) + KStops(e2.k) + Elems(s.jpc), s.lasttarget, p);
      }
    }
    hide Closed;
    forall p: nat | p in all ensures ControlledAt(s.code, p) {
    }
    NoLists(s.code, all);
  }

  /** Nothing that waits is touched. */
  lemma ListsFollow(code: seq<Instr>, code': seq<Instr>, t: seq<nat>, f: seq<nat>, outer: set<nat>)
    requires Lists(code, t, f, outer) && Kept(code, code', Elems(t) + Elems(f) + outer)
    ensures Lists(code', t, f, outer)
  {
    forall p: nat | p in Elems(t) + Elems(f) + outer ensures ControlledAt(code', p) {
      assert ControlledAt(code, p) && KeptAt(code, code', p);
    }
    ChainFollows(code, code', t, Elems(t) + Elems(f) + outer);
    ChainFollows(code, code', f, Elems(t) + Elems(f) + outer);
  }

  lemma ChainFollows(code: seq<Instr>, code': seq<Instr>, l: seq<nat>, all: set<nat>)
    requires Chain(code, l) && Kept(code, code', all) && Elems(l) <= all
    ensures Chain(code', l)
  {
    forall i | 0 <= i < |l| ensures l[i] < |code'| && code'[l[i]] == Jmp(LinkOffset(l, i)) {
      assert l[i] in Elems(l) && KeptAt(code, code', l[i]);
    }
  }

  /** The load, with the jumps of the second operand waiting. */
  lemma LoadAfter(c: Ctx, s: State, d: Desc, e2: Desc, outer: set<nat>)
    requires WF(s, e2, outer) && Started(c, s, e2.k) && LateOperands(s, d, e2)
    ensures var t, i, all := BeforeLoad(s, d), LoadOf(s, d), Pending(e2, outer); var s1 := Emit(t, i);
      && Base(s1, all) && Entry(s1.code, c.start) && c.start < |s1.code|
      && |s1.code| == |s.code| + 1 && s1.jpc == [] && s1.lasttarget == s.lasttarget && s1.freereg == s.freereg + 1
      && Advance(s, s1, all) && StackOK(s1) && s1.kst == t.kst
      && RunS(c, s1, all) == AfterStep(c, RunS(c, s, all), |s.code|, i)
  {
    hide Base;
    hide Emit;
    hide AddK;
    hide Named;
    hide RunC;
    var t, i, all := BeforeLoad(s, d), LoadOf(s, d), Pending(e2, outer);
    var s0 := AddK(s, ConstantOf(d.k).value).0;
    LateReady(c, s, d, e2, outer);
    AddKSound(s, ConstantOf(d.k).value);
    AddKExact(s, ConstantOf(d.k).value);
    CoreConst(s, s0, d, all);
    SelfAdvance(s, d, all);
    ReserveOK(s0, 1);
    LevelCore(c, s0, t, d, all);
    assert Waiting(d, all) == all;
    EmitAfter(c, t, d, i, all);
    AdvanceTwice(s, t, Emit(t, i), all);
  }

  /** Behind the load the second operand is as live as before, unless its own instruction still
      waits for a register. */
  lemma LateLive(c: Ctx, s: State, d: Desc, e2: Desc, outer: set<nat>)
    requires WF(s, e2, outer) && Started(c, s, e2.k) && LateOperands(s, d, e2) && !e2.k.VReloc?
    ensures var s1 := Emit(BeforeLoad(s, d), LoadOf(s, d));
      && WF(s1, e2, outer) && Started(c, s1, e2.k) && Advance(s, s1, Waiting(e2, outer))
      && s1.freereg == s.freereg + 1 && |s1.code| == |s.code| + 1
      && RunE(c, s1, e2, outer) == AfterStep(c, RunE(c, s, e2, outer), |s.code|, LoadOf(s, d))
  {
    var all, s1 := Pending(e2, outer), Emit(BeforeLoad(s, d), LoadOf(s, d));
    LoadAfter(c, s, d, e2, outer);
    assert Stops(e2, outer) == all;
    hide Emit;
    hide AddK;
    hide RunS;
    hide Base;
    hide Named;
    KeptUnion(s.code, s1.code, Waiting(e2, outer), KStops(e2.k));
    ListsFollow(s.code, s1.code, e2.t, e2.f, outer);
    if e2.k.VJmp? {
      assert KeptAt(s.code, s1.code, e2.k.pc);
    }
  }

  // ---------- a second operand that waits for its register ----------

  /** The second operand behind the load: its instruction, if it still waits, gets its register. */
  function Taken(s: State, e: Desc): (State, Desc) {
    if e.k.VReloc? then Discharge2AnyReg(s, e) else (s, e)
  }

  lemma TakenRK(s: State, e: Desc)
    requires s.nactvar <= s.freereg
    ensures Exp2RK(Taken(s, e).0, Taken(s, e).1) == Exp2RK(s, e)
  {
    hide CloseLists;
    if e.k.VReloc? {
      var (u, d) := Taken(s, e);
      var s1 := Reserve(s, 1);
      assert Exp2Reg(s1, e, s.freereg) == Exp2Reg(u, d, s.freereg);
      assert Exp2AnyReg(s, e) == Exp2Reg(s1, e, s.freereg);
      assert Exp2AnyReg(u, d) == if HasJumps(d) then Exp2Reg(u, d, s.freereg) else (u, d);
    }
  }

  /** Both registers are reserved, and the waiting instruction has got the second one. */
  function Given(s: State, d: Desc, pc: nat): State
    requires ConstantOf(d.k).Some?
  {
    Reserve(BeforeLoad(s, d), 1).(code := SetA(s.code, pc, s.freereg + 1))
  }

  /** The load and the waiting instruction, whichever is done first. */
  lemma RelocCode(s: State, d: Desc, e2: Desc)
    requires ConstantOf(d.k).Some? && e2.k.VReloc? && KindCode(s, e2.k)
    ensures var r := s.freereg; var s1 := Emit(BeforeLoad(s, d), LoadOf(s, d));
      && Taken(s1, e2) == (Emit(Given(s, d, e2.k.pc), LoadOf(s, d)), e2.(k := VNonReloc(r + 1)))
      && s1 == BeforeLoad(s, d).(code := s.code + [LoadOf(s, d)])
  {
    AddKSound(s, ConstantOf(d.k).value);
    hide AddK;
    var pc, r, i := e2.k.pc, s.freereg, LoadOf(s, d);
    assert SetA(s.code + [i], pc, r + 1) == SetA(s.code, pc, r + 1) + [i];
  }

  lemma GivenStack(s: State, d: Desc, pc: nat)
    requires (d.k.VKInt? || d.k.VKFlt?) && PlainConst(ConstantOf(d.k).value) && StackOK(s)
    ensures var t := Given(s, d, pc);
      && StackOK(t) && t.freereg == s.freereg + 2 && s.kst <= t.kst && s.maxstack <= t.maxstack
      && t.nactvar == s.nactvar && t.jpc == s.jpc && t.lasttarget == s.lasttarget && (s.failed ==> t.failed)
  {
    AddKSound(s, ConstantOf(d.k).value);
    AddKExact(s, ConstantOf(d.k).value);
    hide AddK;
  }

  lemma GivenLive(c: Ctx, s: State, d: Desc, e2: Desc, outer: set<nat>)
    requires WF(s, e2, outer) && Started(c, s, e2.k) && LateOperands(s, d, e2) && e2.k.VReloc?
    ensures var t, eu, all := Given(s, d, e2.k.pc), e2.(k := VNonReloc(s.freereg + 1)), Waiting(e2, outer);
      && Core(t, eu, outer) && Started(c, t, eu.k) && Advance(s, t, all) && |t.code| == |s.code|
      && (var o := RunE(c, s, e2, outer); Placed(o, ValueAt(c, s.code, e2.k, o), all, s.freereg + 1, RunS(c, t, all),
                                                 |s.code|))
  {
    hide Base;
    hide Lists;
    hide RunS;
    hide Named;
    hide Placed;
    var r, all := s.freereg, Waiting(e2, outer);
    var s2, t := s.(code := SetA(s.code, e2.k.pc, r + 1)), Given(s, d, e2.k.pc);
    GivenStack(s, d, e2.k.pc);
    PlaceReloc(c, s, e2, r + 1, outer);
    assert t.code == s2.code;
    hide Given;
    RunSame(c, s2, t, all);
    RelocCore(s2, t, e2.(k := VNonReloc(r + 1)), outer);
    hide Core;
    AdvanceTwice(s, s2, t, all) by { assert Kept(s2.code, t.code,
                                                 all) by { KeptHere(t, e2.(k := VNonReloc(r + 1)), outer); } }
  }

  lemma KeptHere(s: State, e: Desc, outer: set<nat>)
    requires Core(s, e, outer)
    ensures Kept(s.code, s.code, Waiting(e, outer))
  {
    hide Base;
    KeptSelf(s, e, outer);
  }

  lemma RelocLive(c: Ctx, s: State, d: Desc, e2: Desc, outer: set<nat>)
    requires WF(s, e2, outer) && Started(c, s, e2.k) && LateOperands(s, d, e2) && e2.k.VReloc?
    ensures var s1 := Emit(BeforeLoad(s, d), LoadOf(s, d)); var (u, eu) := Taken(s1, e2);
      && WF(u, eu, outer) && Started(c, u, eu.k) && Advance(s, u, Waiting(e2, outer))
      && eu == e2.(k := VNonReloc(s.freereg + 1)) && u.freereg == s.freereg + 2 && |u.code| == |s.code| + 1
      && RunS(c, u, Waiting(e2, outer))
        == AfterStep(c, RunS(c, Given(s, d, e2.k.pc), Waiting(e2, outer)), |s.code|, LoadOf(s, d))
  {
    var t, i, eu := Given(s, d, e2.k.pc), LoadOf(s, d), e2.(k := VNonReloc(s.freereg + 1));
    RelocCode(s, d, e2);
    GivenStack(s, d, e2.k.pc);
    GivenLive(c, s, d, e2, outer);
    assert Plain(i) && KStops(eu.k) == {};
    hide Emit;
    hide Base;
    hide RunS;
    hide Lists;
    hide Taken;
    hide Given;
    hide LoadOf;
    hide Core;
    hide Plain;
    hide AfterStep;
    hide LateOperands;
    EmitAfter(c, t, eu, i, outer);
    RelocCore(Emit(t, i), Emit(t, i), eu, outer);
    hide StackOK;
    AdvanceTwice(s, t, Emit(t, i), Waiting(e2, outer));
  }

  lemma RunSame(c: Ctx, s: State, s': State, stops: set<nat>)
    requires s'.code == s.code && s'.jpc == s.jpc
    ensures RunS(c, s', stops) == RunS(c, s, stops)
  {
  }

  lemma RelocCore(s: State, t: State, e: Desc, outer: set<nat>)
    requires Base(s, Waiting(e, outer)) && Lists(s.code, e.t, e.f, outer) && e.k.VNonReloc?
    requires t.code == s.code && t.jpc == s.jpc && t.lasttarget == s.lasttarget && StackOK(t)
    ensures Core(t, e, outer)
  {
    assert Waiting(e, outer) + KStops(e.k) == Waiting(e, outer);
  }

  // ---------- what the instruction finds ----------

  /** The run leaves the second operand by a jump. */
  predicate Leaves(e: Desc, o: Outcome) {
    o.Exit? && (o.pc in Elems(e.t) || o.pc in Elems(e.f) || e.k == VJmp(o.pc))
  }

  /** What is found of a numeral that is loaded behind the second operand. */
  function Seen(c: Ctx, s: State, d: Desc, e2: Desc, outer: set<nat>): Value {
    var o := RunE(c, s, e2, outer);
    if Leaves(e2, o) then Get(o.regs, s.freereg) else OperandVal(c, d.k, map[])
  }

  function Loaded(o: Outcome, n: nat, r: nat, x: Value): Outcome {
    if o.Exit? && o.pc == n then Exit(n + 1, o.regs[r := x], o.w) else o
  }

  lemma LoadStep(c: Ctx, s: State, d: Desc, o: Outcome)
    requires StackOK(s) && (d.k.VKInt? || d.k.VKFlt?) && PlainConst(ConstantOf(d.k).value)
    requires BeforeLoad(s, d).kst <= c.kst
    ensures AfterStep(c, o, |s.code|, LoadOf(s, d)) ==
      if o.Exit? && o.pc == |s.code|
      then Exit(|s.code| + 1, o.regs[s.freereg := OperandVal(c, d.k, map[])], o.w) else o
  {
    AddKSound(s, ConstantOf(d.k).value);
    AddKExact(s, ConstantOf(d.k).value);
    hide AddK;
  }

  lemma WaitKept(s: State, s': State, e: Desc, e': Desc, outer: set<nat>, p: nat, regs: Regs)
    requires Advance(s, s', Waiting(e, outer)) && p in Waiting(e, outer)
    ensures forall b :: JumpValue(s'.code, p, regs, b) == JumpValue(s.code, p, regs, b)
  {
    assert KeptAt(s.code, s'.code, p);
    JumpValueKept(s.code, s'.code, p, regs);
  }

  /** A way out of an operand that needs no register yet, once the load to r is behind it. */
  lemma LateOut(c: Ctx, s: State, e2: Desc, s1: State, outer: set<nat>, r: nat, x: Value, o: Outcome, ev: Res,
                regs1: Regs)
    returns (regs: Regs)
    requires Means(c, s.code, e2, outer, o, ev, regs1, r) && !e2.k.VReloc?
    requires Advance(s, s1, Waiting(e2, outer)) && |s1.code| == |s.code| + 1
    requires |s.code| !in Waiting(e2, outer) && |s.code| + 1 !in Waiting(e2, outer)
    requires (e2.k.VNonReloc? || e2.k.VLocal? ==> e2.k.reg < r) && (e2.k.VJmp? ==> e2.k.pc < |s.code|)
    ensures Means(c, s1.code, e2, outer, Loaded(o, |s.code|, r, x), ev, regs, r + 1) && Below(regs, regs1, r)
    ensures Get(regs, r) == if Leaves(e2, o) then Get(o.regs, r) else x
  {
    hide Advance;
    hide ExecVal;
    var o1 := Loaded(o, |s.code|, r, x);
    regs := if o1.Exit? then o1.regs else regs1[r := x];
    if o.Exit? && o.pc in Elems(e2.t) + Elems(e2.f) {
      WaitKept(s, s1, e2, e2, outer, o.pc, o.regs);
    }
    hide JumpValue;
  }

  /** The values of both operands behind the load, if the second one had its value before. */
  lemma LateMeans(c: Ctx, s: State, d: Desc, e2: Desc, outer: set<nat>, ev: Res, regs1: Regs) returns (regs: Regs)
    requires WF(s, e2, outer) && Started(c, s, e2.k) && LateOperands(s, d, e2) && !e2.k.VReloc?
    requires BeforeLoad(s, d).kst <= c.kst && Sem(c, s, e2, outer, ev, regs1, s.freereg)
    ensures var s1 := Emit(BeforeLoad(s, d), LoadOf(s, d));
      Sem(c, s1, e2, outer, ev, regs, s.freereg + 1) && Below(regs, regs1, s.freereg)
      && Get(regs, s.freereg) == Seen(c, s, d, e2, outer)
  {
    var s1, o := Emit(BeforeLoad(s, d), LoadOf(s, d)), RunE(c, s, e2, outer);
    LateLive(c, s, d, e2, outer);
    LoadStep(c, s, d, o);
    StopsBelow(s, Stops(e2, outer));
    StopsBelow(s1, Stops(e2, outer));
    hide Base;
    hide Lists;
    hide Emit;
    hide BeforeLoad;
    hide LoadOf;
    hide RunE;
    hide Advance;
    hide OperandVal;
    hide AfterStep;
    hide Means;
    regs := LateOut(c, s, e2, s1, outer, s.freereg, OperandVal(c, d.k, map[]), o, ev, regs1);
  }

  /** A way out of an operand whose instruction waited, once it has its register r + 1 and the
      load to r is behind it. */
  lemma RelocOut(c: Ctx, s: State, e2: Desc, u: State, outer: set<nat>, r: nat, x: Value, o: Outcome, o': Outcome,
                 ev: Res, regs1: Regs) returns (regs: Regs)
    requires Means(c, s.code, e2, outer, o, ev, regs1, r) && e2.k.VReloc? && r + 1 != NO_REG
    requires Placed(o, ValueAt(c, s.code, e2.k, o), Waiting(e2, outer), r + 1, o', |s.code|)
    requires Advance(s, u, Waiting(e2, outer)) && |u.code| == |s.code| + 1
    requires |s.code| !in Waiting(e2, outer) && |s.code| + 1 !in Waiting(e2, outer)
    ensures var ou := Loaded(o', |s.code|, r, x); var eu := e2.(k := VNonReloc(r + 1));
      Means(c, u.code, eu, outer, ou, ev, regs, r + 1) && Below(regs, regs1, r)
      && Get(regs, r) == if Leaves(e2, o) then Get(o.regs, r) else x
  {
    hide Advance;
    hide ExecVal;
    var ou := Loaded(o', |s.code|, r, x);
    regs := if ou.Exit? then ou.regs else regs1[r := x];
    if o.Exit? && o.pc in Elems(e2.t) + Elems(e2.f) {
      WaitKept(s, u, e2, e2, outer, o.pc, o.regs);
    }
    hide JumpValue;
  }

  /** The run that has passed the waiting instruction and the load. */
  lemma RelocRun(c: Ctx, s: State, d: Desc, e2: Desc, outer: set<nat>) returns (o': Outcome)
    requires WF(s, e2, outer) && Started(c, s, e2.k) && LateOperands(s, d, e2) && e2.k.VReloc?
    requires BeforeLoad(s, d).kst <= c.kst
    ensures var o, n, r := RunE(c, s, e2, outer), |s.code|, s.freereg;
      var (u, eu) := Taken(Emit(BeforeLoad(s, d), LoadOf(s, d)), e2);
      && Placed(o, ValueAt(c, s.code, e2.k, o), Waiting(e2, outer), r + 1, o', n)
      && RunE(c, u, eu, outer) == Loaded(o', n, r, OperandVal(c, d.k, map[]))
      && Advance(s, u, Waiting(e2, outer)) && |u.code| == n + 1 && eu == e2.(k := VNonReloc(r + 1))
      && n !in Waiting(e2, outer) && n + 1 !in Waiting(e2, outer)
  {
    var r, n, all := s.freereg, |s.code|, Waiting(e2, outer);
    var (u, eu) := Taken(Emit(BeforeLoad(s, d), LoadOf(s, d)), e2);
    RelocLive(c, s, d, e2, outer);
    assert Stops(eu, outer) == all;
    StopsBelow(s, Stops(e2, outer));
    StopsBelow(u, Stops(eu, outer));
    hide RunS;
    hide Emit;
    hide Placed;
    hide Base;
    hide Lists;
    o' := RunS(c, Given(s, d, e2.k.pc), all);
    GivenLive(c, s, d, e2, outer);
    LoadStep(c, s, d, o');
    hide Step;
    hide AddK;
  }

  lemma RelocMeans(c: Ctx, s: State, d: Desc, e2: Desc, outer: set<nat>, ev: Res, regs1: Regs) returns (regs: Regs)
    requires WF(s, e2, outer) && Started(c, s, e2.k) && LateOperands(s, d, e2) && e2.k.VReloc?
    requires BeforeLoad(s, d).kst <= c.kst && Sem(c, s, e2, outer, ev, regs1, s.freereg) && s.freereg + 1 < MAXREGS
    ensures var (u, eu) := Taken(Emit(BeforeLoad(s, d), LoadOf(s, d)), e2);
      Sem(c, u, eu, outer, ev, regs, s.freereg + 1) && Below(regs, regs1, s.freereg)
      && Get(regs, s.freereg) == Seen(c, s, d, e2, outer)
  {
    hide Emit;
    hide BeforeLoad;
    hide LoadOf;
    hide RunE;
    hide Advance;
    hide OperandVal;
    hide Placed;
    hide WF;
    hide Taken;
    hide Means;
    hide Loaded;
    var o' := RelocRun(c, s, d, e2, outer);
    var u := Taken(Emit(BeforeLoad(s, d), LoadOf(s, d)), e2).0;
    regs := RelocOut(c, s, e2, u, outer, s.freereg, OperandVal(c, d.k, map[]), RunE(c, s, e2, outer), o', ev, regs1);
  }

  // ---------- the instruction ----------

  lemma LatePass(c: Ctx, s: State, d: Desc, e2: Desc, outer: set<nat>)
    requires WF(s, e2, outer) && Started(c, s, e2.k) && LateOperands(s, d, e2)
    ensures var (u, eu) := Taken(Emit(BeforeLoad(s, d), LoadOf(s, d)), e2);
      && WF(u, eu, outer) && Started(c, u, eu.k) && Advance(s, u, outer)
      && Pass(RunE(c, s, e2, outer), RunE(c, u, eu, outer), outer)
      && u.freereg == s.freereg + (if e2.k.VReloc? then 2 else 1) && (e2.k.VReloc? ==> eu.k == VNonReloc(s.freereg + 1))
  {
    hide Emit;
    hide BeforeLoad;
    hide LoadOf;
    hide RunS;
    StopsBelow(s, Stops(e2, outer));
    if e2.k.VReloc? {
      RelocLive(c, s, d, e2, outer);
      GivenLive(c, s, d, e2, outer);
      hide Given;
      assert Stops(Taken(Emit(BeforeLoad(s, d), LoadOf(s, d)), e2).1, outer) == Waiting(e2, outer);
    } else {
      LateLive(c, s, d, e2, outer);
    }
    hide WF;
    hide Started;
    KeptUnion(s.code, Taken(Emit(BeforeLoad(s, d), LoadOf(s, d)), e2).0.code, Elems(e2.t) + Elems(e2.f), outer);
  }

  /** Both operands, the numeral in the first free register. */
  lemma LateTaken(c: Ctx, s: State, d: Desc, e2: Desc, outer: set<nat>)
    requires WF(s, e2, outer) && Started(c, s, e2.k) && LateOperands(s, d, e2)
    ensures var (s1, d1, rk) := Exp2RK(s, d); var (u, eu) := Taken(s1, e2);
      && s1 == Emit(BeforeLoad(s, d), LoadOf(s, d)) && rk == R(s.freereg) && d1 == Desc(VNonReloc(s.freereg), [], [])
      && WF(u, eu, outer) && Started(c, u, eu.k) && OperandOK(u, d1, eu) && Advance(s, u, outer)
      && Pass(RunE(c, s, e2, outer), RunE(c, u, eu, outer), outer)
      && Exp2RK(u, eu) == Exp2RK(s1, e2) && FloorBelow(u, d1, eu) == s.freereg && Floor(u, eu.k) == s.freereg + 1
      && (e2.k.VReloc? ==> u.freereg == s.freereg + 2) && s1.kst == BeforeLoad(s, d).kst
  {
    hide Exp2RK;
    hide Emit;
    hide BeforeLoad;
    hide LoadOf;
    hide RunE;
    hide Base;
    hide Named;
    LateCode(s, d);
    LatePass(c, s, d, e2, outer);
    LateReady(c, s, d, e2, outer);
    var s1 := Exp2RK(s, d).0;
    RKGrows(s, d);
    LevelUp(s, d);
    TakenRK(s1, e2);
    hide Core;
  }

  lemma LevelUp(s: State, d: Desc)
    requires ConstantOf(d.k).Some?
    ensures var s1 := Emit(BeforeLoad(s, d), LoadOf(s, d));
      s1.freereg == s.freereg + 1 && s1.kst == BeforeLoad(s, d).kst && Grows(s, s1)
  {
    hide AddK;
    AddKSound(s, ConstantOf(d.k).value);
    EmitGrows(BeforeLoad(s, d), LoadOf(s, d));
  }

  /** The step from two operands to the result, if the first one is loaded behind the second. */
  ghost predicate JoinsSeen(c: Ctx, s: State, d: Desc, e2: Desc, s': State, e': Desc, outer: set<nat>, op: ArithOp) {
    s'.failed || (
      && Pass(RunE(c, s, e2, outer), RunE(c, s', e', outer), outer)
      && (forall ev, regs1, regs0 ::
            Sem(c, s, e2, outer, ev, regs1, s.freereg) && Below(regs1, regs0, s.freereg)
            ==> Sem(c, s', e', outer, BinRes(c.m, op, Seen(c, s, d, e2, outer), ev), regs0, s.freereg)))
  }

  lemma SeenAfter(c: Ctx, s: State, d: Desc, e2: Desc, u: State, d1: Desc, eu: Desc, s': State, e': Desc,
                  outer: set<nat>, op: ArithOp)
    requires WF(s, e2, outer) && Started(c, s, e2.k) && LateOperands(s, d, e2) && BeforeLoad(s, d).kst <= c.kst
    requires (u, eu) == Taken(Emit(BeforeLoad(s, d), LoadOf(s, d)), e2) && d1 == Desc(VNonReloc(s.freereg), [], [])
    requires e2.k.VReloc? && !s'.failed ==> s.freereg + 1 < MAXREGS
    requires FloorBelow(u, d1, eu) == s.freereg && Floor(u, eu.k) == s.freereg + 1
    requires Pass(RunE(c, s, e2, outer), RunE(c, u, eu, outer), outer)
    requires Joins(c, u, d1, eu, s', e', outer, (v1, ev) => BinRes(c.m, op, v1, ev))
    ensures JoinsSeen(c, s, d, e2, s', e', outer, op)
  {
    hide Emit;
    hide BeforeLoad;
    hide LoadOf;
    hide WF;
    hide Started;
    hide LateOperands;
    hide Sem;
    hide RunE;
    hide Seen;
    hide BinRes;
    hide Below;
    hide Advance;
    hide Discharge2AnyReg;
    hide FloorBelow;
    hide Floor;
    if !s'.failed {
      assert Pass(RunE(c, u, eu, outer), RunE(c, s', e', outer), outer);
      hide Joins;
      forall ev, regs1, regs0 | Sem(c, s, e2, outer, ev, regs1, s.freereg) && Below(regs1, regs0, s.freereg)
        ensures Sem(c, s', e', outer, BinRes(c.m, op, Seen(c, s, d, e2, outer), ev), regs0, s.freereg)
      {
        var regs: Regs;
        if e2.k.VReloc? {
          regs := RelocMeans(c, s, d, e2, outer, ev, regs1);
        } else {
          regs := LateMeans(c, s, d, e2, outer, ev, regs1);
        }
        BelowTwice(regs, regs1, regs0, s.freereg);
        JoinsUse(c, u, d1, eu, s', e', outer, (v1, ev) => BinRes(c.m, op, v1, ev), ev, regs, regs0);
      }
    }
  }

  lemma BelowTwice(a: Regs, b: Regs, d: Regs, fr: int)
    requires Below(a, b, fr) && Below(b, d, fr)
    ensures Below(a, d, fr)
  {
  }

  lemma LateLevel(c: Ctx, s: State, d: Desc, e2: Desc, u: State, d1: Desc, eu: Desc, s': State, e': Desc,
                  outer: set<nat>, f: (Value, Res) -> Res)
    requires LateOperands(s, d, e2) && WF(u, eu, outer) && Advance(s, u, outer) && Joins(c, u, d1, eu, s', e', outer, f)
    requires FloorBelow(u, d1, eu) == s.freereg
    ensures JoinsOK(c, s, d, e2, s', e', outer) && FloorBelow(s, d, e2) == s.freereg
    ensures u.freereg < MAXREGS || s'.failed
  {
    hide Base;
    hide Lists;
    hide RunE;
    hide Sem;
    AdvanceTwice(s, u, s', outer);
    hide Kept;
  }

  /** `codebinexpval` of a numeral that is loaded behind the second operand: the instruction
      applies the operation to the numeral, or, if the run left that operand by a jump, to
      what was in the register before. */
  lemma CodeBinLate(c: Ctx, s: State, op: ArithOp, d: Desc, e2: Desc, outer: set<nat>)
    requires WF(s, e2, outer) && Started(c, s, e2.k) && LateOperands(s, d, e2)
    requires CodeBinExpVal(s, op, d, e2).0.kst <= c.kst
    ensures var (s', e') := CodeBinExpVal(s, op, d, e2);
      && JoinsOK(c, s, d, e2, s', e', outer) && JoinsSeen(c, s, d, e2, s', e', outer, op)
      && e'.k.VReloc? && s'.code[e'.k.pc].Binary?
  {
    hide Exp2RK;
    hide Emit;
    hide FreeExps;
    hide Joins;
    hide WF;
    hide BeforeLoad;
    hide LoadOf;
    hide JoinsSeen;
    hide RunE;
    CodeBinGrows(s, op, d, e2);
    LateTaken(c, s, d, e2, outer);
    var (s1, d1, rk1) := Exp2RK(s, d);
    var (u, eu) := Taken(s1, e2);
    var (s', e') := CodeBinExpVal(s, op, d, e2);
    SecondSound(c, u, op, d1, rk1, eu, outer);
    LateLevel(c, s, d, e2, u, d1, eu, s', e', outer, (v1, ev) => BinRes(c.m, op, v1, ev));
    hide FloorBelow;
    hide OperandOK;
    hide Taken;
    SeenAfter(c, s, d, e2, u, d1, eu, s', e', outer, op);
  }

  /** A straight second operand is never left by a jump. */
  lemma StraightSeen(c: Ctx, s: State, d: Desc, e2: Desc, s': State, e': Desc, outer: set<nat>, op: ArithOp)
    requires LateOperands(s, d, e2) && Straight(e2) && JoinsOK(c, s, d, e2, s', e', outer)
    requires JoinsSeen(c, s, d, e2, s', e', outer, op)
    ensures Joins(c, s, d, e2, s', e', outer, (v1, ev) => BinRes(c.m, op, v1, ev))
  {
    hide WF;
    hide Started;
    hide Sem;
    hide RunE;
    hide Advance;
    hide BinRes;
    assert Seen(c, s, d, e2, outer) == OperandVal(c, d.k, map[]);
  }

  /** `codebinexpval`: whatever the operands, the result is live and both are freed; and if the
      numeral needs no register, or no jump leads around its load, the instruction applies the
      operation to the values of both. */
  lemma CodeBinSound(c: Ctx, s: State, op: ArithOp, d: Desc, e2: Desc, outer: set<nat>)
    requires WF(s, e2, outer) && Started(c, s, e2.k) && OperandOK(s, d, e2)
    requires Named(s, d) || Floor(s, e2.k) == s.freereg
    requires CodeBinExpVal(s, op, d, e2).0.kst <= c.kst
    ensures var (s', e') := CodeBinExpVal(s, op, d, e2);
      && JoinsOK(c, s, d, e2, s', e', outer) && e'.k.VReloc? && s'.code[e'.k.pc].Binary?
      && (Named(s, d) || Straight(e2) ==> Joins(c, s, d, e2, s', e', outer, (v1, ev) => BinRes(c.m, op, v1, ev)))
  {
    hide Exp2RK;
    hide Emit;
    hide FreeExps;
    hide Keeps;
    hide WF;
    hide JoinsSeen;
    hide RunE;
    hide Sem;
    hide AddK;
    var (s', e') := CodeBinExpVal(s, op, d, e2);
    if Named(s, d) {
      CodeBinGrows(s, op, d, e2);
      var (s1, d1, rk1) := Exp2RK(s, d);
      FirstRK(c, s, d, e2, outer);
      KeepsWF(c, s, e2, s1, e2, outer);
      SecondSound(c, s1, op, d1, rk1, e2, outer);
      JoinsAfter(c, s, d, e2, s1, d1, e2, s', e', outer, (v1, ev) => BinRes(c.m, op, v1, ev));
    } else {
      CodeBinLate(c, s, op, d, e2, outer);
      if Straight(e2) {
        StraightSeen(c, s, d, e2, s', e', outer, op);
      }
    }
  }

  /** The second operand once the first one is in R/K form. */
  function Second(s: State, d: Desc, e2: Desc): (State, Desc) {
    var s1 := Exp2RK(s, d).0;
    if Named(s, d) then (s1, e2) else Taken(s1, e2)
  }

  lemma OperandsLate(s: State, d: Desc, e2: Desc)
    requires OperandOK(s, d, e2) && !Named(s, d) && Floor(s, e2.k) == s.freereg
    ensures LateOperands(s, d, e2)
  {
  }
}
