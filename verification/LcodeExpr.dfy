/** The value that a delayed expression denotes, and the functions that put it somewhere:
    `exp2reg`, `luaK_exp2nextreg`, `luaK_exp2anyreg`, `luaK_exp2RK`. */
module LcodeExpr {
  import opened LuaVM
  import opened LcodeSpec
  import opened LcodeGrow
  import opened LcodeRun
  import opened LcodeInv
  import opened LcodeEmit
  import opened LcodePlace
  import opened LcodeClose

  /** What a descriptor denotes once the run of the code so far has come to o. */
  function Denote(c: Ctx, code: seq<Instr>, e: Desc, o: Outcome): Option<Res> {
    match o
    case Fail(w) => Some(Err(w))
    case Stuck => None
    case Exit(pc, regs, w) =>
      if pc in Elems(e.t) then Some(Ok(JumpValue(code, pc, regs, true), w))
      else if pc in Elems(e.f) then Some(Ok(JumpValue(code, pc, regs, false), w))
      else KindValue(c, code, e.k, pc, regs, w)
  }

  function Stops(e: Desc, outer: set<nat>): set<nat> {
    Waiting(e, outer) + KStops(e.k)
  }

  lemma {:induction false} NeedValueLast(code: seq<Instr>, l: seq<nat>, p: nat)
    requires !Producing(code, p)
    ensures NeedValue(code, l + [p])
    decreases |l|
  {
    if l == [] {
      assert l + [p] == [p];
    } else {
      assert (l + [p])[1..] == l[1..] + [p];
      NeedValueLast(code, l[1..], p);
    }
  }

  /** The result of `exp2reg`, as a relation between a state and descriptor before it and
      the state after it. */
  ghost predicate InReg(c: Ctx, s: State, e: Desc, outer: set<nat>, reg: nat, s': State) {
    && Base(s', outer) && Controlled(s'.code, outer) && Entry(s'.code, c.start)
    && s'.freereg == s.freereg && Advance(s, s', outer) && StackOK(s')
    && Placed(RunS(c, s, Stops(e, outer)), Denote(c, s.code, e, RunS(c, s, Stops(e, outer))), outer, reg,
              RunS(c, s', outer), |s'.code|)
  }

  /** `exp2reg` of a value that is not itself a test. */
  lemma Exp2RegValue(c: Ctx, s: State, e: Desc, reg: nat, outer: set<nat>)
    requires Core(s, e, outer) && Started(c, s, e.k) && !e.k.VJmp?
    requires Exp2Reg(s, e, reg).0.kst <= c.kst
    ensures InReg(c, s, e, outer, reg, Exp2Reg(s, e, reg).0) && Started(c, Exp2Reg(s, e, reg).0, VNonReloc(reg))
  {
    hide Closed;
    hide Chain;
    hide Run;
    hide CloseLists;
    hide Discharge2Reg;
    var (s1, e1) := Discharge2Reg(s, e, reg);
    var s' := Exp2Reg(s, e, reg).0;
    var all, stops := Waiting(e, outer), Stops(e, outer);
    DischargeKind(s, e, reg);
    CloseGrows(s1, false, e.t, e.f, reg);
    PlaceValue(c, s, e, reg, outer);
    StopsBelow(s1, all);
    var o, o1 := RunS(c, s, stops), RunS(c, s1, all);
    if o.Exit? && o.pc in Elems(e.t) + Elems(e.f) {
      assert o.pc in all && KeptAt(s.code, s1.code, o.pc);
      JumpValueKept(s.code, s1.code, o.pc, o.regs);
    }
    KeptUnion(s.code, s1.code, Elems(e.t) + Elems(e.f), outer);
    if e.t == [] && e.f == [] {
      assert all == outer;
    } else {
      hide Core;
      CloseRun(c, s1, false, e.t, e.f, reg, outer);
      KeptTwice(s.code, s1.code, s'.code, outer);
      StackSame(s1, s');
    }
  }

  lemma DischargeKind(s: State, e: Desc, reg: nat)
    requires !e.k.VJmp?
    ensures Discharge2Reg(s, e, reg).1 == e.(k := VNonReloc(reg))
  {
  }

  lemma LinkCode(s: State, a: seq<nat>, b: seq<nat>)
    requires forall p :: p in Elems(a) ==> p < |s.code| && s.code[p].Jmp?
    ensures |Link(s, a, b).code| == |s.code|
    ensures forall p: nat :: p < |s.code| && !s.code[p].Jmp? ==> Link(s, a, b).code[p] == s.code[p]
    ensures forall p: nat :: p < |s.code| && s.code[p].Jmp? ==> Link(s, a, b).code[p].Jmp?
  {
    if a != [] && b != [] {
      assert a[|a| - 1] in Elems(a);
    }
  }

  /** Putting the test's own jump at the end of its true list keeps the lists. */
  lemma TestLists(s: State, e: Desc, outer: set<nat>)
    requires Core(s, e, outer) && e.k.VJmp?
    requires var s2, t2 := Link(s, e.t, [e.k.pc]), e.t + [e.k.pc];
      Chain(s2.code, t2) && NoDup(t2) && Elems(t2) == Elems(e.t) + {e.k.pc}
      && Frame(s.code, s2.code, Elems(e.t)) && Jumps(s.code, Elems(e.t))
    ensures Lists(Link(s, e.t, [e.k.pc]).code, e.t + [e.k.pc], e.f, outer)
    ensures Kept(s.code, Link(s, e.t, [e.k.pc]).code, outer)
  {
    var pc, s2 := e.k.pc, Link(s, e.t, [e.k.pc]);
    LinkCode(s, e.t, [pc]);
    hide Link;
    hide Base;
    hide Chain;
    hide NoDup;
    forall p: nat | p in Elems(e.t) + {pc} ensures ControlledAt(s2.code, p) {
      assert p == pc || ControlledAt(s.code, p);
      TestControlled(s.code, s2.code, p);
    }
    hide KindCode;
    hide UnsetAt;
    ListKept(s.code, s2.code, e.f, Elems(e.t));
    ControlledKept(s.code, s2.code, outer, Elems(e.t));
  }

  lemma TestControlled(code: seq<Instr>, code': seq<Instr>, p: nat)
    requires 1 <= p < |code| && |code'| == |code| && TMode(code[p - 1]) && UnsetAt(code, p) && code[p].Jmp?
    requires forall q: nat :: q < |code| && !code[q].Jmp? ==> code'[q] == code[q]
    requires forall q: nat :: q < |code| && code[q].Jmp? ==> code'[q].Jmp?
    ensures ControlledAt(code', p)
  {
    var r: nat := p - 1;
    assert code'[r] == code[r];
  }

  lemma TestBase(s: State, e: Desc, outer: set<nat>)
    requires Core(s, e, outer) && e.k.VJmp?
    requires var s2 := Link(s, e.t, [e.k.pc]);
      && s2 == s.(code := s2.code, failed := s2.failed) && |s2.code| == |s.code|
      && Closed(s2.code, Stops(e, outer) + Elems(s.jpc), s.lasttarget)
      && Frame(s.code, s2.code, Elems(e.t)) && Jumps(s.code, Elems(e.t))
    ensures Base(Link(s, e.t, [e.k.pc]), Stops(e, outer)) && NeedValue(Link(s, e.t, [e.k.pc]).code, e.t + [e.k.pc])
  {
    var pc, s2 := e.k.pc, Link(s, e.t, [e.k.pc]);
    var last: nat := |s.code| - 1;
    LinkCode(s, e.t, [pc]);
    hide Link;
    hide Closed;
    hide Lists;
    FrameTMode(s.code, s2.code, Elems(e.t), last);
    assert Base(s2, Stops(e, outer));
    hide Base;
    hide Frame;
    NotProducing(s.code, s2.code, pc);
    NeedValueLast(s2.code, e.t, pc);
  }

  /** A comparison copies no value. */
  lemma NotProducing(code: seq<Instr>, code': seq<Instr>, pc: nat)
    requires 1 <= pc < |code| && |code'| == |code| && code[pc - 1].Cmp? && code[pc].Jmp?
    requires forall p: nat :: p < |code| && !code[p].Jmp? ==> code'[p] == code[p]
    requires forall p: nat :: p < |code| && code[p].Jmp? ==> code'[p].Jmp?
    ensures !Producing(code', pc)
  {
    var q: nat := pc - 1;
    assert code'[q] == code[q];
  }

  /** The value of each way out of a test. */
  lemma TestPlaced(c: Ctx, s: State, e: Desc, outer: set<nat>, reg: nat, o: Outcome, o': Outcome, n': nat)
    requires Core(s, e, outer) && e.k.VJmp? && Jumps(s.code, Elems(e.t))
    requires Elems(e.t + [e.k.pc]) == Elems(e.t) + {e.k.pc}
    requires |Link(s, e.t, [e.k.pc]).code| == |s.code|
    requires CloseOut(Link(s, e.t, [e.k.pc]).code, true, e.t + [e.k.pc], e.f, reg, o, o', n')
    ensures Placed(o, Denote(c, s.code, e, o), outer, reg, o', n')
  {
    hide Put;
    hide Closed;
    hide Chain;
    StopsBelow(s, Stops(e, outer));
    if o.Exit? && o.pc in Stops(e, outer) {
      TestJumpValue(s, e, outer, o.pc, o.regs);
    }
    hide Link;
    hide Base;
    hide JumpValue;
  }

  lemma TestJumpValue(s: State, e: Desc, outer: set<nat>, p: nat, regs: Regs)
    requires Core(s, e, outer) && e.k.VJmp? && p in Stops(e, outer)
    ensures forall b :: JumpValue(Link(s, e.t, [e.k.pc]).code, p, regs, b) == JumpValue(s.code, p, regs, b)
    ensures p == e.k.pc ==> forall b :: JumpValue(s.code, p, regs, b) == Bool(b)
  {
    forall q: nat | q in Stops(e, outer) ensures 1 <= q < |s.code| && s.code[q].Jmp? && TMode(s.code[q - 1]) {
      assert q == e.k.pc || ControlledAt(s.code, q);
    }
    LinkCode(s, e.t, [e.k.pc]);
    var r: nat := p - 1;
    assert Link(s, e.t, [e.k.pc]).code[r] == s.code[r];
  }

  /** `exp2reg` of a test. */
  lemma Exp2RegTest(c: Ctx, s: State, e: Desc, reg: nat, outer: set<nat>)
    requires Core(s, e, outer) && Started(c, s, e.k) && e.k.VJmp?
    ensures InReg(c, s, e, outer, reg, Exp2Reg(s, e, reg).0) && Started(c, Exp2Reg(s, e, reg).0, VNonReloc(reg))
  {
    hide Closed;
    hide Run;
    hide CloseLists;
    hide Chain;
    hide Frame;
    var pc, stops := e.k.pc, Stops(e, outer);
    var s2, t2 := Link(s, e.t, [pc]), e.t + [pc];
    assert Elems([pc]) == {pc};
    TestChain(s, e, outer);
    LinkRun(c, s, e.t, [pc], stops);
    TestLists(s, e, outer);
    TestBase(s, e, outer);
    RunSettled(c, s, stops);
    RunSettled(c, s2, stops);
    assert stops + Elems(s.jpc) == stops;
    assert Elems(t2) + Elems(e.f) + outer == stops;
    hide Base;
    hide Lists;
    CloseRun(c, s2, true, t2, e.f, reg, outer);
    var s' := Exp2Reg(s, e, reg).0;
    CloseGrows(s2, true, t2, e.f, reg);
    KeptTwice(s.code, s2.code, s'.code, outer);
    TestPlaced(c, s, e, outer, reg, RunS(c, s, stops), RunS(c, s', outer), |s'.code|);
    hide Link;
    StackSame(s, s');
  }

  lemma TestChain(s: State, e: Desc, outer: set<nat>)
    requires Core(s, e, outer) && e.k.VJmp?
    ensures Chain(s.code, [e.k.pc]) && NoDup([e.k.pc]) && Elems(e.t) !! Elems([e.k.pc])
    ensures Chain(s.code, e.t) && NoDup(e.t) && Elems(e.t) <= Stops(e, outer)
  {
    assert Elems([e.k.pc]) == {e.k.pc};
  }

  /** `exp2reg`: wherever the run of the expression's code ends, the run of the finished code
      ends at its end with the expression's value in reg. */
  lemma Exp2RegSound(c: Ctx, s: State, e: Desc, reg: nat, outer: set<nat>)
    requires Core(s, e, outer) && Started(c, s, e.k)
    requires Exp2Reg(s, e, reg).0.kst <= c.kst
    ensures InReg(c, s, e, outer, reg, Exp2Reg(s, e, reg).0) && Started(c, Exp2Reg(s, e, reg).0, VNonReloc(reg))
    ensures Exp2Reg(s, e, reg).1 == Desc(VNonReloc(reg), [], [])
  {
    hide Core;
    hide InReg;
    hide Started;
    hide Discharge2Reg;
    if e.k.VJmp? {
      Exp2RegTest(c, s, e, reg, outer);
    } else {
      Exp2RegValue(c, s, e, reg, outer);
    }
  }
}
