/** Conditions: `jumponcond`, `luaK_goiftrue` and `luaK_goiffalse`. */
module LcodeCond {
  import opened LuaVM
  import opened LcodeSpec
  import opened LcodeGrow
  import opened LcodeRun
  import opened LcodeInv
  import opened LcodeEmit
  import opened LcodePlace
  import opened LcodeClose
  import opened LcodeExpr
  import opened LcodeOps

  /** `discharge2anyreg`: the value moves to a register, the lists stay. */
  lemma AnyPlaceKeeps(c: Ctx, s: State, e: Desc, outer: set<nat>)
    requires WF(s, e, outer) && Started(c, s, e.k) && !e.k.VJmp? && Discharge2AnyReg(s, e).0.kst <= c.kst
    ensures var (s', e') := Discharge2AnyReg(s, e);
      Keeps(c, s, e, s', e', outer) && e'.k.VNonReloc? && e' == e.(k := e'.k)
        && Kept(s.code, s'.code, Waiting(e, outer))
  {
    if e.k.VNonReloc? {
      hide Keeps;
      KeepsSelf(c, s, e, outer);
      hide Base;
      KeptSelf(s, e, outer);
    } else {
      hide Discharge2Reg;
      hide Base;
      var s0 := Reserve(s, 1);
      ReserveOK(s, 1);
      LevelCore(c, s, s0, e, outer);
      var reg := s0.freereg - 1;
      DischargeKind(s0, e, reg);
      PlaceValue(c, s0, e, reg, outer);
      PlacedWaiting(c, s, s0, e, outer, reg);
    }
  }

  lemma PlacedWaiting(c: Ctx, s: State, s0: State, e: Desc, outer: set<nat>, reg: nat)
    requires WF(s, e, outer) && !e.k.VJmp? && !e.k.VNonReloc? && s0 == Reserve(s, 1) && reg == s.freereg
    requires Advance(s, s0, outer)
    requires RunE(c, s0, e, outer) == RunE(c, s, e, outer) && Core(s0, e, outer)
    requires var s', e' := Discharge2Reg(s0, e, reg).0, e.(k := VNonReloc(reg));
      && Base(s', Waiting(e, outer)) && Lists(s'.code, e.t, e.f, outer) && Started(c, s', e'.k)
      && s'.freereg == s0.freereg && Advance(s0, s', Waiting(e, outer)) && StackOK(s')
      && (var o := RunE(c, s0, e, outer);
          Placed(o, ValueAt(c, s0.code, e.k, o), Waiting(e, outer), reg, RunS(c, s', Waiting(e, outer)), |s'.code|))
    ensures Keeps(c, s, e, Discharge2Reg(s0, e, reg).0, e.(k := VNonReloc(reg)), outer)
  {
    hide Discharge2Reg;
    hide Lists;
    var s', e', all := Discharge2Reg(s0, e, reg).0, e.(k := VNonReloc(reg)), Waiting(e, outer);
    KeptUnion(s0.code, s'.code, Elems(e.t) + Elems(e.f), outer);
    AdvanceTwice(s, s0, s', outer);
    assert Waiting(e', outer) == all && Stops(e', outer) == all;
    StopsBelow(s', all);
    hide Base;
    if !s'.failed {
      var o, o' := RunE(c, s, e, outer), RunE(c, s', e', outer);
      if o.Exit? && o.pc in all {
        assert KeptAt(s0.code, s'.code, o.pc);
        JumpValueKept(s0.code, s'.code, o.pc, o.regs);
      }
      forall ev, regs0 | Sem(c, s, e, outer, ev, regs0, Floor(s, e.k))
        ensures Sem(c, s', e', outer, ev, regs0, Floor(s, e.k))
      {
        hide JumpValue;
        hide RunS;
      }
    }
  }

  // ---------- branching on a value ----------

  /** The run o has delivered the value; o' branches on it: it stops at the jump pcj if the
      truth of the value is cond, and else goes on to n'. */
  ghost predicate Branched(o: Outcome, value: Option<Res>, waiting: set<nat>, cond: bool, l: seq<nat>,
                           code': seq<Instr>, o': Outcome, fr: int) {
    match o
    case Fail(_) => o' == o
    case Stuck => true
    case Exit(pc, regs, w) =>
      if pc in waiting then o' == o
      else
        match value
        case None => true
        case Some(Err(w')) => o' == Fail(w')
        case Some(Ok(v, w')) =>
          && o'.Exit? && o'.w == w' && Below(o'.regs, regs, fr)
          && (if Truthy(v) == cond
              then o'.pc in Elems(l) && JumpValue(code', o'.pc, o'.regs, cond) == v
              else o'.pc == |code'|)
  }

  /** The state after branching: the new jumps l wait besides the old lists. */
  ghost predicate BranchOK(c: Ctx, s: State, e: Desc, outer: set<nat>, cond: bool, s': State, l: seq<nat>) {
    && Base(s', Waiting(e, outer) + Elems(l)) && Lists(s'.code, e.t, e.f, outer) && ListOK(s'.code, l)
    && Elems(l) !! Waiting(e, outer) && StackOK(s') && s'.freereg == Floor(s, e.k) && Started(c, s', VNil)
    && Advance(s, s', Waiting(e, outer))
    && (s'.failed || (var o := RunE(c, s, e, outer);
        Branched(o, ValueAt(c, s.code, e.k, o), Waiting(e, outer), cond, l, s'.code,
                 RunS(c, s', Waiting(e, outer) + Elems(l)), Floor(s, e.k))))
  }

  /** Branching on a value in a register. */
  lemma BranchReg(c: Ctx, s: State, e: Desc, cond: bool, outer: set<nat>)
    requires WF(s, e, outer) && Started(c, s, e.k) && e.k.VNonReloc?
    ensures var (s', l) := CondJump(FreeExp(s, e), TestSet(NO_REG, e.k.reg, cond));
      BranchOK(c, s, e, outer, cond, s', l)
  {
    hide CondJump;
    hide Run;
    hide Chain;
    hide Closed;
    hide ListOK;
    hide Frame;
    var all, n, i := Waiting(e, outer), |s.code|, TestSet(NO_REG, e.k.reg, cond);
    assert all + KStops(e.k) == all;
    FreeOK(s, e);
    var s0 := FreeExp(s, e);
    KeptSelf(s, e, outer);
    LevelCore(c, s, s0, e, outer);
    assert Elems([n + 1]) == {n + 1};
    BelowEnd(s, all);
    EmitTest(c, s0, i, all);
    var s', l := CondJump(s0, i).0, CondJump(s0, i).1;
    JpcJumps(s, all);
    ListsKept(s.code, s'.code, e.t, e.f, outer, Elems(s.jpc));
    hide Lists;
    hide Frame;
    hide Kept;
    hide Base;
    hide ListOK;
    hide Step;
    hide RunS;
    var o := RunS(c, s, all);
    if o.Exit? && o.pc == n {
      RegBranch(c, s'.code, i, n, o);
    }
  }

  lemma BelowEnd(s: State, stops: set<nat>)
    requires Base(s, stops)
    ensures |s.code| !in stops && |s.code| + 1 !in stops
  {
  }

  lemma RegBranch(c: Ctx, code: seq<Instr>, i: Instr, n: nat, o: Outcome)
    requires i.TestSet? && i.a == NO_REG && |code| == n + 2 && code[n] == i && o.Exit? && o.pc == n
    ensures var o', v := AfterStep(c, o, n, i), Get(o.regs, i.b);
      && o' == Exit(if Truthy(v) == i.cond then n + 1 else n + 2, o.regs, o.w)
      && JumpValue(code, n + 1, o.regs, i.cond) == v
  {
  }

  /** Branching on a `not` whose instruction is taken back. */
  lemma BranchNot(c: Ctx, s: State, e: Desc, cond: bool, outer: set<nat>)
    requires WF(s, e, outer) && Started(c, s, e.k) && e.k.VReloc? && s.code[|s.code| - 1].Not?
    ensures var n := |s.code| - 1;
      var (s', l) := CondJump(s.(code := s.code[..n]), Test(s.code[n].b, !cond));
      BranchOK(c, s, e, outer, cond, s', l)
  {
    hide CondJump;
    hide Run;
    hide Chain;
    hide Closed;
    var all, n := Waiting(e, outer), |s.code| - 1;
    var b := s.code[n].b;
    var s0, i := s.(code := s.code[..n]), Test(b, !cond);
    CutNot(c, s, e, outer);
    assert Elems([n + 1]) == {n + 1};
    BelowEnd(s0, all);
    EmitTest(c, s0, i, all);
    var s', l := CondJump(s0, i).0, CondJump(s0, i).1;
    JpcJumps(s0, all);
    ListsKept(s0.code, s'.code, e.t, e.f, outer, Elems(s0.jpc));
    KeptTwice(s.code, s0.code, s'.code, all);
    hide Lists;
    hide Frame;
    hide Kept;
    hide Base;
    hide ListOK;
    var o := RunS(c, s0, all);
    if o.Exit? && o.pc == n {
      NotBranch(c, s'.code, s.code[n], i, cond, n, o);
    }
  }

  /** The state before the `not`: the same run, ending just before it. */
  lemma CutNot(c: Ctx, s: State, e: Desc, outer: set<nat>)
    requires WF(s, e, outer) && Started(c, s, e.k) && e.k.VReloc?
    ensures var s0, all := s.(code := s.code[..|s.code| - 1]), Waiting(e, outer);
      && Base(s0, all) && Lists(s0.code, e.t, e.f, outer) && Kept(s.code, s0.code, all) && Entry(s0.code, c.start)
      && RunS(c, s0, all) == RunE(c, s, e, outer)
  {
    hide Run;
    var all, stops, n := Waiting(e, outer), Stops(e, outer), |s.code| - 1;
    var s0 := s.(code := s.code[..n]);
    forall p: nat | p in all ensures p < n {
      assert ControlledAt(s.code, p);
    }
    assert stops + Elems(s.jpc) == stops && all + Elems(s0.jpc) == all;
    Truncate(c, s.code, n, stops, all, s.lasttarget);
    ThenStop(c, RunC(c, s.code[..n], all), n, s.code, stops);
    ListsPrefix(s.code, n, e.t, e.f, outer);
    RunSettled(c, s, stops);
    RunSettled(c, s0, all);
    if n > 0 {
      var q: nat := n - 1;
      assert SafeAt(s.code, stops + Elems(s.jpc), s.lasttarget, q);
    }
  }

  lemma NotBranch(c: Ctx, code: seq<Instr>, i0: Instr, i: Instr, cond: bool, n: nat, o: Outcome)
    requires i0.Not? && i == Test(i0.b, !cond) && |code| == n + 2 && code[n] == i && o.Exit? && o.pc == n
    ensures var o', v := AfterStep(c, o, n, i), Bool(!Truthy(Get(o.regs, i0.b)));
      && ExecVal(c.m, c.kst, i0, o.regs, o.w) == Ok(v, o.w)
      && o' == Exit(if Truthy(v) == cond then n + 1 else n + 2, o.regs, o.w)
      && (Truthy(v) == cond ==> JumpValue(code, n + 1, o.regs, cond) == v)
  {
  }

  // ---------- negating a test ----------

  /** The outcome with the two ways out of the test at pc exchanged. */
  function Swapped(o: Outcome, pc: nat): Outcome {
    if o.Exit? && o.pc == pc then Exit(pc + 1, o.regs, o.w)
    else if o.Exit? && o.pc == pc + 1 then Exit(pc, o.regs, o.w)
    else o
  }

  lemma NegateCode(s: State, e: Desc, outer: set<nat>)
    requires Core(s, e, outer) && e.k.VJmp?
    ensures var pc, code' := e.k.pc, Negate(s.code, e.k.pc);
      && code' == s.code[pc - 1 := code'[pc - 1]] && code'[pc - 1].Cmp?
      && code'[pc - 1] == Cmp(s.code[pc - 1].cop, !s.code[pc - 1].want, s.code[pc - 1].rb, s.code[pc - 1].rc)
      && |code'| == |s.code| && code'[pc] == s.code[pc] && code'[..pc - 1] == s.code[..pc - 1]
      && Frame(s.code, code', {pc})
  {
  }

  lemma NegateClosed(s: State, e: Desc, outer: set<nat>)
    requires Core(s, e, outer) && e.k.VJmp? && e.k.pc + 1 == |s.code|
    ensures Closed(Negate(s.code, e.k.pc), Stops(e, outer) + Elems(s.jpc), s.lasttarget)
  {
    NegateCode(s, e, outer);
    var code', all := Negate(s.code, e.k.pc), Stops(e, outer) + Elems(s.jpc);
    forall p: nat | p < |s.code| ensures SafeAt(code', all, s.lasttarget, p) {
      assert SafeAt(s.code, all, s.lasttarget, p);
    }
  }

  lemma TestEither(c: Ctx, i: Instr, pc: nat, o: Outcome)
    requires i.Cmp? && o.Exit? && o.pc == pc
    ensures var i' := Cmp(i.cop, !i.want, i.rb, i.rc);
      AfterStep(c, o, pc, i') == Swapped(AfterStep(c, o, pc, i), pc + 1)
  {
  }

  lemma NegateRun(c: Ctx, s: State, e: Desc, outer: set<nat>)
    requires Core(s, e, outer) && Started(c, s, e.k) && e.k.VJmp? && e.k.pc + 1 == |s.code|
    ensures var s', stops := s.(code := Negate(s.code, e.k.pc)), Stops(e, outer);
      && Core(s', e, outer) && Started(c, s', e.k) && Kept(s.code, s'.code, Waiting(e, outer))
      && RunS(c, s', stops) == Swapped(RunS(c, s, stops), e.k.pc)
  {
    hide Run;
    hide Step;
    var pc, stops, all := e.k.pc, Stops(e, outer), Waiting(e, outer);
    var k: nat := pc - 1;
    var code', pre := Negate(s.code, pc), s.code[..k];
    var s' := s.(code := code');
    NegateCode(s, e, outer);
    NegateClosed(s, e, outer);
    forall p: nat | p in all ensures p < k {
      assert ControlledAt(s.code, p);
      assert p != pc;
    }
    assert stops + Elems(s.jpc) == stops;
    ListsKept(s.code, code', e.t, e.f, outer, {pc});
    hide Negate;
    hide Lists;
    Truncate(c, s.code, k, stops, all, s.lasttarget);
    Truncate(c, code', k, stops, all, s.lasttarget);
    hide Closed;
    var o0 := RunC(c, pre, all);
    RunTest(c, s.code, stops, o0);
    RunTest(c, code', stops, o0);
    RunSettled(c, s, stops);
    RunSettled(c, s', stops);
    RunWithin(c.m, c.kst, pre, all, c.start, c.regs, c.w);
    if o0.Exit? && o0.pc == k {
      TestEither(c, s.code[k], k, o0);
    }
  }

  /** Branching on a test: jumping if it is true, or, once negated, if it is false. */
  lemma BranchJump(c: Ctx, s: State, e: Desc, cond: bool, outer: set<nat>)
    requires WF(s, e, outer) && Started(c, s, e.k) && e.k.VJmp? && e.k.pc + 1 == |s.code|
    ensures BranchOK(c, s, e, outer, cond, s.(code := if cond then s.code else Negate(s.code, e.k.pc)), [e.k.pc])
  {
    hide Run;
    var pc, stops := e.k.pc, Stops(e, outer);
    var s' := s.(code := if cond then s.code else Negate(s.code, pc));
    assert Elems([pc]) == {pc};
    if cond {
      KeptSelf(s, e, outer);
    } else {
      NegateRun(c, s, e, outer);
      NegateCode(s, e, outer);
    }
    hide Negate;
    BelowEnd(s, stops);
    JumpList(s', e, outer);
    hide Base;
    hide Lists;
    hide Kept;
    hide ListOK;
  }

  lemma JumpList(s: State, e: Desc, outer: set<nat>)
    requires Core(s, e, outer) && e.k.VJmp?
    ensures ListOK(s.code, [e.k.pc]) && (forall regs, b :: JumpValue(s.code, e.k.pc, regs, b) == Bool(b))
  {
  }

  /** What an expression comes as: a constant in the table is a true one (a string), and a test
      is the last that was emitted. */
  ghost predicate Testable(s: State, k: Kind) {
    && (k.VK? ==> k.info < |s.kst| && Truthy(s.kst[k.info]))
    && (k.VJmp? ==> k.pc + 1 == |s.code|)
  }

  /** A constant needs no branch if its truth decides the matter. */
  lemma BranchConst(c: Ctx, s: State, e: Desc, cond: bool, outer: set<nat>)
    requires WF(s, e, outer) && Started(c, s, e.k) && (if cond then AlwaysFalse(e.k) else AlwaysTrue(e.k))
    requires s.kst <= c.kst && Testable(s, e.k)
    ensures BranchOK(c, s, e, outer, cond, s, [])
  {
    hide Run;
    var all := Waiting(e, outer);
    assert all + KStops(e.k) == all && all + Elems([]) == all;
    KeptSelf(s, e, outer);
    hide Base;
    hide Lists;
    hide Kept;
  }

  // ---------- going through ----------

  /** The run after going through: an error, a stop at one of the jumps l with the value if
      its truth is cond, or else the current end. */
  ghost predicate Gate(c: Ctx, s: State, l: seq<nat>, outer: set<nat>, cond: bool, ev: Res, regs0: Regs, fr: int) {
    var o := RunS(c, s, Elems(l) + outer);
    match ev
    case Err(w) => o == Fail(w)
    case Ok(v, w) =>
      && o.Exit? && o.w == w && Below(o.regs, regs0, fr)
      && (if Truthy(v) == cond
          then o.pc in Elems(l) && JumpValue(s.code, o.pc, o.regs, cond) == v
          else o.pc == |s.code|)
  }

  /** The first operand of and/or is done: only its jumps l are left. */
  ghost predicate GoneOK(c: Ctx, s: State, outer: set<nat>, s': State, l: seq<nat>, fr: int) {
    && Base(s', Elems(l) + outer) && ListOK(s'.code, l) && Controlled(s'.code, outer) && Elems(l) !! outer
    && StackOK(s') && s'.freereg == fr && Started(c, s', VNil) && Advance(s, s', outer)
  }

  ghost predicate Gone(c: Ctx, s: State, e: Desc, outer: set<nat>, cond: bool, s': State, l: seq<nat>) {
    && GoneOK(c, s, outer, s', l, Floor(s, e.k))
    && (s'.failed || (
          && Pass(RunE(c, s, e, outer), RunS(c, s', Elems(l) + outer), outer)
          && (forall ev, regs0 :: Sem(c, s, e, outer, ev, regs0, Floor(s, e.k)) ==>
                Gate(c, s', l, outer, cond, ev, regs0, Floor(s, e.k)))))
  }

  /** The list that the new jump joins. */
  function Joined(e: Desc, cond: bool): seq<nat> {
    if cond then e.t else e.f
  }

  function JoinState(s1: State, e: Desc, cond: bool, l: seq<nat>): State {
    PatchToHere(Link(s1, Joined(e, cond), l), Joined(e, !cond))
  }

  ghost predicate TestKeptAt(code: seq<Instr>, code': seq<Instr>, p: nat) {
    1 <= p < |code| && p < |code'| && code'[p - 1] == code[p - 1]
  }

  /** The tests that control these jumps are untouched. */
  ghost predicate TestsKept(code: seq<Instr>, code': seq<Instr>, stops: set<nat>) {
    forall p: nat :: p in stops ==> TestKeptAt(code, code', p)
  }

  /** After linking: the joined list, the other list and the outer jumps. */
  lemma JoinLink(c: Ctx, s1: State, e: Desc, outer: set<nat>, cond: bool, l: seq<nat>)
    requires Base(s1, Waiting(e, outer) + Elems(l)) && Lists(s1.code, e.t, e.f, outer) && ListOK(s1.code, l)
    requires Elems(l) !! Waiting(e, outer) && Started(c, s1, VNil)
    ensures var a, b, all := Joined(e, cond), Joined(e, !cond), Waiting(e, outer) + Elems(l); var s2 := Link(s1, a, l);
      && s2 == s1.(code := s2.code, failed := s2.failed) && (s1.failed ==> s2.failed) && |s2.code| == |s1.code|
      && Base(s2, all) && Entry(s2.code, c.start)
      && Frame(s1.code, s2.code, Elems(a)) && Jumps(s1.code, Elems(a))
      && Chain(s2.code, a + l) && NoDup(a + l) && Elems(a + l) == Elems(a) + Elems(l)
      && RunS(c, s2, all) == RunS(c, s1, all)
  {
    hide Run;
    hide Closed;
    hide Controlled;
    hide Frame;
    hide NoDup;
    hide Link;
    var a, all := Joined(e, cond), Waiting(e, outer) + Elems(l);
    LinkRun(c, s1, a, l, all);
    var s2 := Link(s1, a, l);
    LinkedBase(s1, s2, a, all);
    hide Chain;
    hide Base;
    hide Unset;
  }

  lemma LinkedBase(s1: State, s2: State, a: seq<nat>, all: set<nat>)
    requires Base(s1, all) && s2 == s1.(code := s2.code, failed := s2.failed) && |s2.code| == |s1.code|
    requires Elems(a) <= all
    requires Closed(s2.code, all + Elems(s1.jpc), s1.lasttarget) && Unset(s2.code, Elems(s1.jpc))
    requires Frame(s1.code, s2.code, Elems(a))
    ensures Base(s2, all)
  {
    hide Closed;
    ChainKept(s1.code, s2.code, s1.jpc, Elems(a));
    hide Chain;
    if |s1.code| > 0 {
      var q: nat := |s1.code| - 1;
      FrameTMode(s1.code, s2.code, Elems(a), q);
    }
  }

  lemma JoinLists(s1: State, e: Desc, outer: set<nat>, cond: bool, l: seq<nat>)
    requires Lists(s1.code, e.t, e.f, outer) && ListOK(s1.code, l) && Elems(l) !! Waiting(e, outer)
    requires var a := Joined(e, cond); var s2 := Link(s1, a, l);
      && Frame(s1.code, s2.code, Elems(a)) && Jumps(s1.code, Elems(a)) && |s2.code| == |s1.code|
      && Chain(s2.code, a + l) && NoDup(a + l) && Elems(a + l) == Elems(a) + Elems(l)
    ensures var a, b := Joined(e, cond), Joined(e, !cond); var s2 := Link(s1, a, l);
      && Lists(s2.code, a + l, b, outer) && Kept(s1.code, s2.code, outer)
      && TestsKept(s1.code, s2.code, Elems(a) + Elems(l) + Elems(b))
  {
    var a, b := Joined(e, cond), Joined(e, !cond);
    var s2 := Link(s1, a, l);
    LinkCode(s1, a, l);
    hide Link;
    hide Chain;
    hide NoDup;
    forall p: nat | p in Elems(a) + Elems(l) + Elems(b) ensures TestKeptAt(s1.code, s2.code, p)
      && ControlledAt(s2.code, p) {
      assert ControlledAt(s1.code, p);
      var r: nat := p - 1;
      assert s2.code[r] == s1.code[r];
    }
    ListKept(s1.code, s2.code, b, Elems(a));
    ControlledKept(s1.code, s2.code, outer, Elems(a));
  }

  /** The other list ends here. */
  lemma JoinHere(c: Ctx, s2: State, al: seq<nat>, b: seq<nat>, outer: set<nat>)
    requires Base(s2, Elems(al) + outer + Elems(b)) && Lists(s2.code, al, b, outer) && Entry(s2.code, c.start)
    ensures var s' := PatchToHere(s2, b);
      && s' == s2.(code := s'.code, lasttarget := |s2.code|, jpc := s'.jpc, failed := s'.failed)
        && (s2.failed ==> s'.failed)
      && |s'.code| == |s2.code|
      && Base(s', Elems(al) + outer) && Entry(s'.code, c.start) && ListOK(s'.code, al) && Controlled(s'.code, outer)
      && Kept(s2.code, s'.code, Elems(al) + outer)
      && RunS(c, s', Elems(al) + outer) == Land(RunS(c, s2, Elems(al) + outer + Elems(b)), Elems(b), |s2.code|)
  {
    hide Run;
    hide Closed;
    var all := Elems(al) + outer;
    forall p | p in b ensures UnsetAt(s2.code, p) {
      assert p in Elems(b) && ControlledAt(s2.code, p);
    }
    ToHere(c, s2, b, all);
    JpcJumps(s2, all + Elems(b));
    hide Base;
    ListKept(s2.code, PatchToHere(s2, b).code, al, Elems(s2.jpc));
    ControlledKept(s2.code, PatchToHere(s2, b).code, all, Elems(s2.jpc));
    ControlledKept(s2.code, PatchToHere(s2, b).code, outer, Elems(s2.jpc));
  }

  /** Linking the new jumps, then letting the other list end here: lists and runs. */
  lemma JoinRun(c: Ctx, s: State, e: Desc, outer: set<nat>, cond: bool, s1: State, l: seq<nat>)
    requires BranchOK(c, s, e, outer, cond, s1, l)
    ensures var s', a, b := JoinState(s1, e, cond, l), Joined(e, cond), Joined(e, !cond);
      && GoneOK(c, s, outer, s', a + l, Floor(s, e.k)) && |s'.code| == |s1.code| && (s1.failed ==> s'.failed)
      && Elems(a + l) == Elems(a) + Elems(l) && TestsKept(s1.code, s'.code, Elems(a) + Elems(l))
      && RunS(c, s', Elems(a + l) + outer)
      == Land(RunS(c, s1, Waiting(e, outer) + Elems(l)), Elems(b), |s1.code|)
  {
    hide Run;
    hide Closed;
    hide Branched;
    hide RunE;
    var a, b, all := Joined(e, cond), Joined(e, !cond), Waiting(e, outer) + Elems(l);
    JoinLink(c, s1, e, outer, cond, l);
    JoinLists(s1, e, outer, cond, l);
    var s2 := Link(s1, a, l);
    assert all == Elems(a + l) + outer + Elems(b);
    hide Link;
    hide Frame;
    hide Chain;
    hide Base;
    JoinHere(c, s2, a + l, b, outer);
    var s' := JoinState(s1, e, cond, l);
    hide PatchToHere;
    hide Lists;
    KeptUnion(s.code, s1.code, Elems(e.t) + Elems(e.f), outer);
    KeptUnion(s2.code, s'.code, Elems(a + l), outer);
    KeptTwice(s.code, s1.code, s2.code, outer);
    KeptTwice(s.code, s2.code, s'.code, outer);
    TestsTwice(s1.code, s2.code, s'.code, Elems(a) + Elems(l), Elems(b));
    StackSame(s1, s');
  }

  lemma TestsTwice(x: seq<Instr>, y: seq<Instr>, z: seq<Instr>, stops: set<nat>, more: set<nat>)
    requires TestsKept(x, y, stops + more)
    requires Kept(y, z, stops)
    ensures TestsKept(x, z, stops)
  {
    forall p: nat | p in stops ensures TestKeptAt(x, z, p) {
      assert KeptAt(y, z, p) && TestKeptAt(x, y, p);
    }
  }

  lemma JumpValueTests(code: seq<Instr>, code': seq<Instr>, p: nat, regs: Regs)
    requires TestKeptAt(code, code', p)
    ensures forall b :: JumpValue(code', p, regs, b) == JumpValue(code, p, regs, b)
  {
  }

  /** What joining the lists makes of the run that has the expression's value. */
  lemma JoinGate(c: Ctx, s: State, e: Desc, outer: set<nat>, cond: bool, s1: State, l: seq<nat>, ev: Res, regs0: Regs)
    requires BranchOK(c, s, e, outer, cond, s1, l) && !s1.failed && Sem(c, s, e, outer, ev, regs0, Floor(s, e.k))
    ensures Gate(c, JoinState(s1, e, cond, l), Joined(e, cond) + l, outer, cond, ev, regs0, Floor(s, e.k))
  {
    var s', a, b, n1 := JoinState(s1, e, cond, l), Joined(e, cond), Joined(e, !cond), |s1.code|;
    JoinRun(c, s, e, outer, cond, s1, l);
    var o, o1 := RunE(c, s, e, outer), RunS(c, s1, Waiting(e, outer) + Elems(l));
    StopsBelow(s1, Waiting(e, outer) + Elems(l));
    if o.Exit? && o.pc in Elems(a) {
      assert KeptAt(s.code, s1.code, o.pc) && TestKeptAt(s1.code, s'.code, o.pc);
      JumpValueKept(s.code, s1.code, o.pc, o.regs);
      JumpValueTests(s1.code, s'.code, o.pc, o.regs);
    } else if o1.Exit? && o1.pc in Elems(l) {
      assert TestKeptAt(s1.code, s'.code, o1.pc);
      JumpValueTests(s1.code, s'.code, o1.pc, o1.regs);
    }
    hide RunS;
    hide JumpValue;
    hide Base;
    hide ListOK;
    hide Controlled;
    hide Kept;
    hide KindValue;
    hide JoinState;
  }

  lemma JoinPass(c: Ctx, s: State, e: Desc, outer: set<nat>, cond: bool, s1: State, l: seq<nat>)
    requires BranchOK(c, s, e, outer, cond, s1, l) && !s1.failed
    ensures Pass(RunE(c, s, e, outer), RunS(c, JoinState(s1, e, cond, l), Elems(Joined(e, cond) + l) + outer), outer)
  {
    JoinRun(c, s, e, outer, cond, s1, l);
    hide RunS;
    hide Base;
    hide ListOK;
    hide Controlled;
    hide Kept;
    hide JoinState;
    hide KindValue;
  }

  lemma JoinGone(c: Ctx, s: State, e: Desc, outer: set<nat>, cond: bool, s1: State, l: seq<nat>)
    requires BranchOK(c, s, e, outer, cond, s1, l)
    ensures Gone(c, s, e, outer, cond, JoinState(s1, e, cond, l), Joined(e, cond) + l)
  {
    hide Sem;
    hide Gate;
    hide GoneOK;
    var s', al := JoinState(s1, e, cond, l), Joined(e, cond) + l;
    JoinRun(c, s, e, outer, cond, s1, l);
    if !s'.failed {
      JoinPass(c, s, e, outer, cond, s1, l);
      hide BranchOK;
      hide JoinState;
      forall ev, regs0 | Sem(c, s, e, outer, ev, regs0, Floor(s, e.k))
        ensures Gate(c, s', al, outer, cond, ev, regs0, Floor(s, e.k))
      {
        JoinGate(c, s, e, outer, cond, s1, l, ev, regs0);
      }
    }
  }

  lemma GoneAfter(c: Ctx, s: State, e: Desc, s1: State, e1: Desc, outer: set<nat>, cond: bool, s': State, l: seq<nat>)
    requires Keeps(c, s, e, s1, e1, outer) && Gone(c, s1, e1, outer, cond, s', l)
    ensures Gone(c, s, e, outer, cond, s', l)
  {
    hide WF;
    hide Sem;
    hide Gate;
    hide Started;
    AdvanceTwice(s, s1, s', outer);
    hide Kept;
  }

  /** `luaK_goiftrue` (cond false: jump if false) and `luaK_goiffalse` (cond true). */
  function GoIf(s: State, e: Desc, cond: bool): (State, Desc) {
    if cond then GoIfFalse(s, e) else GoIfTrue(s, e)
  }

  lemma GoIfIs(s: State, e: Desc, cond: bool)
    ensures GoIf(s, e, cond) == if cond then GoIfFalse(s, e) else GoIfTrue(s, e)
  {
  }

  lemma GoIfUnfold(s: State, e: Desc, cond: bool)
    ensures var e1 := DischargeVars(e); var (s', e') := GoIf(s, e, cond);
      var s1 := if e1.k.VJmp? then s.(code := if cond then s.code else Negate(s.code, e1.k.pc))
                else if (if cond then AlwaysFalse(e1.k) else AlwaysTrue(e1.k)) then s else JumpOnCond(s, e1, cond).0;
      var l := if e1.k.VJmp? then [e1.k.pc]
               else if (if cond then AlwaysFalse(e1.k) else AlwaysTrue(e1.k)) then [] else JumpOnCond(s, e1, cond).2;
      && s' == JoinState(s1, e1, cond, l) && e'.t == (if cond then e1.t + l else [])
        && e'.f == (if cond then [] else e1.f + l)
  {
    hide JumpOnCond;
    hide Link;
    hide Negate;
  }

  lemma GoIfSound(c: Ctx, s: State, e: Desc, cond: bool, outer: set<nat>)
    requires WF(s, e, outer) && Started(c, s, e.k) && Testable(s, e.k) && GoIf(s, e, cond).0.kst <= c.kst
    ensures var (s', e') := GoIf(s, e, cond);
      Gone(c, s, e, outer, cond, s', if cond then e'.t else e'.f) && (if cond then e'.f else e'.t) == []
  {
    hide JumpOnCond;
    hide Keeps;
    hide BranchOK;
    hide Gone;
    hide Negate;
    hide JoinState;
    hide GoIf;
    var e1 := DischargeVars(e);
    GoIfUnfold(s, e, cond);
    GoIfTrueGrows(s, e);
    GoIfFalseGrows(s, e);
    GoIfIs(s, e, cond);
    KeepsVars(c, s, e, outer);
    KeepsWF(c, s, e, s, e1, outer);
    if e1.k.VJmp? {
      var s1 := s.(code := if cond then s.code else Negate(s.code, e1.k.pc));
      BranchJump(c, s, e1, cond, outer);
      JoinGone(c, s, e1, outer, cond, s1, [e1.k.pc]);
      GoneAfter(c, s, e, s, e1, outer, cond, JoinState(s1, e1, cond, [e1.k.pc]), Joined(e1, cond) + [e1.k.pc]);
    } else if if cond then AlwaysFalse(e1.k) else AlwaysTrue(e1.k) {
      BranchConst(c, s, e1, cond, outer);
      JoinGone(c, s, e1, outer, cond, s, []);
      GoneAfter(c, s, e, s, e1, outer, cond, JoinState(s, e1, cond, []), Joined(e1, cond) + []);
    } else {
      JumpGone(c, s, e1, cond, outer);
      var s1, l := JumpOnCond(s, e1, cond).0, JumpOnCond(s, e1, cond).2;
      GoneAfter(c, s, e, s, e1, outer, cond, JoinState(s1, e1, cond, l), Joined(e1, cond) + l);
    }
  }

  /** `jumponcond`. */
  lemma JumpGone(c: Ctx, s: State, e: Desc, cond: bool, outer: set<nat>)
    requires WF(s, e, outer) && Started(c, s, e.k) && !e.k.VJmp? && JumpOnCond(s, e, cond).0.kst <= c.kst
    ensures var s1, l := JumpOnCond(s, e, cond).0, JumpOnCond(s, e, cond).2;
      Gone(c, s, e, outer, cond, JoinState(s1, e, cond, l), Joined(e, cond) + l)
  {
    hide CondJump;
    hide Keeps;
    hide BranchOK;
    hide Gone;
    hide JoinState;
    hide Discharge2AnyReg;
    var s1, l := JumpOnCond(s, e, cond).0, JumpOnCond(s, e, cond).2;
    if e.k.VReloc? && s.code[|s.code| - 1].Not? {
      BranchNot(c, s, e, cond, outer);
      JoinGone(c, s, e, outer, cond, s1, l);
    } else {
      var (s2, e2) := Discharge2AnyReg(s, e);
      JumpOnCondGrows(s, e, cond);
      AnyPlaceKeeps(c, s, e, outer);
      KeepsWF(c, s, e, s2, e2, outer);
      BranchReg(c, s2, e2, cond, outer);
      JoinGone(c, s2, e2, outer, cond, s1, l);
      JoinSame(s1, e, e2, cond, l);
      GoneAfter(c, s, e, s2, e2, outer, cond, JoinState(s1, e2, cond, l), Joined(e2, cond) + l);
    }
  }

  lemma JoinSame(s1: State, e: Desc, e2: Desc, cond: bool, l: seq<nat>)
    requires e2 == e.(k := e2.k)
    ensures JoinState(s1, e2, cond, l) == JoinState(s1, e, cond, l)
  {
  }
}
