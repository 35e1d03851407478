/** Operators that produce values: `codenot`, unary and binary arithmetic, concatenation. */
module LcodeValue {
  import opened LuaVM
  import opened LcodeSpec
  import opened LcodeGrow
  import opened LcodeRun
  import opened LcodeInv
  import opened LcodeEmit
  import opened LcodePlace
  import opened LcodeClose
  import opened LcodeExpr
  import opened LcodeOps
  import opened LcodeCond

  /** As `Keeps`, with the value of the expression mapped by `f`. */
  ghost predicate Maps(c: Ctx, s: State, e: Desc, s': State, e': Desc, outer: set<nat>, f: Res -> Res) {
    && WF(s', e', outer) && Started(c, s', e'.k) && Advance(s, s', outer)
    && Floor(s', e'.k) == Floor(s, e.k)
    && (s'.failed || (
          && Pass(RunE(c, s, e, outer), RunE(c, s', e', outer), outer)
          && (forall ev, regs0 :: Sem(c, s, e, outer, ev, regs0, Floor(s, e.k)) ==>
                Sem(c, s', e', outer, f(ev), regs0, Floor(s, e.k)))))
  }

  lemma MapsAfter(c: Ctx, s: State, e: Desc, s1: State, e1: Desc, s2: State, e2: Desc, outer: set<nat>, f: Res -> Res)
    requires Keeps(c, s, e, s1, e1, outer) && Maps(c, s1, e1, s2, e2, outer, f)
    ensures Maps(c, s, e, s2, e2, outer, f)
  {
    hide WF;
    hide Sem;
    hide Started;
    AdvanceTwice(s, s1, s2, outer);
    hide Kept;
  }

  /** Emitting an instruction that waits for its register. */
  lemma OpenAfter(c: Ctx, s: State, e: Desc, i: Instr, outer: set<nat>)
    requires Core(s, e, outer) && Started(c, s, e.k) && KStops(e.k) == {} && Relocatable(i)
    ensures var s', e', n := Emit(s, i), e.(k := VReloc(|s.code|)), |s.code|;
      && Core(s', e', outer) && Started(c, s', e'.k) && Advance(s, s', Waiting(e, outer)) && Advance(s, s', outer)
      && s'.freereg == s.freereg && |s'.code| == n + 1 && s'.code[n] == i && s'.kst == s.kst
      && RunE(c, s', e', outer) == RunE(c, s, e, outer)
  {
    hide Run;
    hide Closed;
    hide Kept;
    var s', all, n := Emit(s, i), Waiting(e, outer), |s.code|;
    assert all + {} == all;
    EmitAfter(c, s, e, i, outer);
    EmitOpen(c, s, i, all);
    EmitPlain(c, s, i, all);
    BelowEnd(s, all);
    KeptUnion(s.code, s'.code, Elems(e.t) + Elems(e.f), outer);
    hide Emit;
    hide Lists;
  }

  // ---------- not ----------

  function NotRes(ev: Res): Res {
    match ev
    case Ok(v, w) => Ok(Bool(!Truthy(v)), w)
    case Err(w) => Err(w)
  }

  /** The value, but not the lists, of e is negated by going on with kind k1. */
  ghost predicate Negated(o: Outcome, value: Option<Res>, waiting: set<nat>, o1: Outcome, value1: Option<Res>) {
    match o
    case Fail(_) => o1 == o
    case Stuck => true
    case Exit(pc, regs, w) =>
      if pc in waiting then o1 == o
      else
        match value
        case None => true
        case Some(Err(w')) => o1 == Fail(w') || (o1.Exit? && o1.pc !in waiting && value1 == value && o1.regs == regs)
        case Some(Ok(v, w')) => o1.Exit? && o1.pc !in waiting && o1.regs == regs && value1 == Some(NotRes(Ok(v, w')))
  }

  ghost predicate NegatedOK(c: Ctx, s: State, e: Desc, outer: set<nat>, s1: State, k1: Kind) {
    && Core(s1, e.(k := k1), outer) && RegOK(s1, k1) && Started(c, s1, k1)
    && Floor(s1, k1) == Floor(s, e.k) && Advance(s, s1, Waiting(e, outer))
    && (var o, o1 := RunE(c, s, e, outer), RunE(c, s1, e.(k := k1), outer);
        Negated(o, ValueAt(c, s.code, e.k, o), Waiting(e, outer), o1, ValueAt(c, s1.code, k1, o1)))
  }

  lemma NegateConst(c: Ctx, s: State, e: Desc, k1: Kind, outer: set<nat>)
    requires WF(s, e, outer) && Started(c, s, e.k) && Testable(s, e.k) && s.kst <= c.kst
    requires (AlwaysFalse(e.k) && k1 == VTrue) || (AlwaysTrue(e.k) && k1 == VFalse)
    ensures NegatedOK(c, s, e, outer, s, k1)
  {
    hide Run;
    KeptSelf(s, e, outer);
    assert Waiting(e.(k := k1), outer) == Waiting(e, outer);
    assert Stops(e.(k := k1), outer) == Stops(e, outer);
    hide Kept;
    hide Lists;
    BelowEnd(s, Stops(e, outer));
    hide Base;
  }

  lemma NegateTest(c: Ctx, s: State, e: Desc, outer: set<nat>)
    requires WF(s, e, outer) && Started(c, s, e.k) && e.k.VJmp? && e.k.pc + 1 == |s.code|
    ensures NegatedOK(c, s, e, outer, s.(code := Negate(s.code, e.k.pc)), e.k)
  {
    hide Run;
    NegateRun(c, s, e, outer);
    NegateCode(s, e, outer);
    BelowEnd(s, Stops(e, outer));
    hide Negate;
    hide Kept;
    hide Lists;
    hide Base;
  }

  lemma NegateReg(c: Ctx, s: State, e: Desc, outer: set<nat>)
    requires WF(s, e, outer) && Started(c, s, e.k) && e.k.VNonReloc?
    ensures var s0 := FreeExp(s, e);
      NegatedOK(c, s, e, outer, Emit(s0, Not(0, e.k.reg)), VReloc(|s.code|))
      && |Emit(s0, Not(0, e.k.reg)).code| == |s.code| + 1 && Emit(s0, Not(0, e.k.reg)).code[|s.code|].Not?
  {
    hide Run;
    hide Kept;
    FreeOK(s, e);
    var s0 := FreeExp(s, e);
    KeptSelf(s, e, outer);
    LevelCore(c, s, s0, e, outer);
    OpenAfter(c, s0, e, Not(0, e.k.reg), outer);
    BelowEnd(s, Waiting(e, outer) + KStops(e.k));
    hide Emit;
    hide Lists;
    hide Base;
    assert Waiting(e.(k := VReloc(|s.code|)), outer) == Waiting(e, outer);
  }

  // ---------- dropping the values of negated lists ----------

  /** The instruction at p once the tests that control `list` produce no value. */
  function RemovedInstr(code: seq<Instr>, list: set<nat>, p: nat): Instr
    requires p < |code|
  {
    if p + 1 in list && code[p].TestSet? then Test(code[p].b, code[p].cond) else code[p]
  }

  ghost predicate Removed(code: seq<Instr>, code': seq<Instr>, list: set<nat>) {
    |code'| == |code| && (forall p: nat :: p < |code| ==> code'[p] == RemovedInstr(code, list, p))
  }

  lemma {:induction false} RemoveAll(code: seq<Instr>, l: seq<nat>)
    requires Controlled(code, Elems(l))
    ensures Removed(code, RemoveValues(code, l), Elems(l))
    decreases |l|
  {
    if l != [] {
      var rest, p0 := l[1..], l[0];
      assert p0 in Elems(l) && ControlledAt(code, p0) && Elems(l) == {p0} + Elems(rest);
      var code1 := PatchTestReg(code, p0, NO_REG);
      assert Removed(code, code1, {p0});
      forall p: nat | p in Elems(rest) ensures ControlledAt(code1, p) {
        assert ControlledAt(code, p);
        var q: nat := p - 1;
        assert code1[q] == RemovedInstr(code, {p0}, q) && code1[p] == RemovedInstr(code, {p0}, p);
      }
      RemoveAll(code1, rest);
      RemovedUnion(code, code1, RemoveValues(code1, rest), {p0}, Elems(rest));
    }
  }

  lemma RemovedUnion(c0: seq<Instr>, c1: seq<Instr>, c2: seq<Instr>, a: set<nat>, b: set<nat>)
    requires Removed(c0, c1, a) && Removed(c1, c2, b)
    ensures Removed(c0, c2, a + b)
  {
    forall p: nat | p < |c0| ensures c2[p] == RemovedInstr(c0, a + b, p) {
      assert c1[p] == RemovedInstr(c0, a, p) && c2[p] == RemovedInstr(c1, b, p);
    }
  }

  /** Such tests wrote no register anyway. */
  lemma {:induction false} RemovedRun(m: Machine, kst: seq<Value>, code: seq<Instr>, code': seq<Instr>,
                                      list: set<nat>, stops: set<nat>,
                                      pc: nat, regs: Regs, w: World)
    requires Removed(code, code', list) && Controlled(code, list)
    ensures Run(m, kst, code', stops, pc, regs, w) == Run(m, kst, code, stops, pc, regs, w)
    decreases |code| - pc
  {
    if pc < |code| && pc !in stops {
      var n := Step(m, kst, code[pc], pc, regs, w);
      assert code'[pc] == RemovedInstr(code, list, pc);
      if pc + 1 in list && code[pc].TestSet? {
        var j: nat := pc + 1;
        assert ControlledAt(code, j);
        TestStep(m, kst, code[pc], code'[pc], NO_REG, pc, regs, w);
      }
      if n.Goto? && pc < n.pc <= |code| {
        RemovedRun(m, kst, code, code', list, stops, n.pc, n.regs, n.w);
      }
    }
  }

  lemma RemovedFrame(code: seq<Instr>, code': seq<Instr>, list: set<nat>)
    requires Removed(code, code', list)
    ensures forall p: nat :: p < |code| ==>
      TMode(code'[p]) == TMode(code[p]) && (!TMode(code[p]) ==> code'[p] == code[p])
        && (code[p].Cmp? ==> code'[p] == code[p])
    ensures forall p: nat :: p < |code| && p + 1 !in list ==> code'[p] == code[p]
  {
    forall p: nat | p < |code|
      ensures TMode(code'[p]) == TMode(code[p]) && (!TMode(code[p]) ==> code'[p] == code[p])
        && (code[p].Cmp? ==> code'[p] == code[p]) && (p + 1 !in list ==> code'[p] == code[p])
    {
      assert code'[p] == RemovedInstr(code, list, p);
    }
  }

  lemma RemovedClosed(code: seq<Instr>, code': seq<Instr>, list: set<nat>, stops: set<nat>, last: nat)
    requires Closed(code, stops, last) && Removed(code, code', list)
    ensures Closed(code', stops, last)
  {
    RemovedFrame(code, code', list);
    forall p: nat | p < |code'| ensures SafeAt(code', stops, last, p) {
      assert SafeAt(code, stops, last, p);
      assert code'[p] == RemovedInstr(code, list, p);
      if code[p].Jmp? && p !in stops {
        var t: nat := p + code[p].sbx;
        assert TMode(code'[t]) == TMode(code[t]);
      }
    }
  }

  lemma RemovedControlled(code: seq<Instr>, code': seq<Instr>, list: set<nat>, stops: set<nat>)
    requires Controlled(code, stops) && Removed(code, code', list)
    ensures Controlled(code', stops) && (stops !! list ==> Kept(code, code', stops))
  {
    RemovedFrame(code, code', list);
    forall p: nat | p in stops ensures ControlledAt(code', p) && (stops !! list ==> KeptAt(code, code', p)) {
      assert ControlledAt(code, p);
      var q: nat := p - 1;
      assert code'[q] == RemovedInstr(code, list, q) && code'[p] == RemovedInstr(code, list, p);
    }
  }

  lemma RemovedChain(code: seq<Instr>, code': seq<Instr>, list: set<nat>, l: seq<nat>)
    requires Chain(code, l) && Removed(code, code', list)
    ensures Chain(code', l)
  {
    forall i | 0 <= i < |l| ensures l[i] < |code'| && code'[l[i]] == Jmp(LinkOffset(l, i)) {
      assert code[l[i]] == Jmp(LinkOffset(l, i));
      assert code'[l[i]] == RemovedInstr(code, list, l[i]);
    }
  }

  lemma RemovedUnset(code: seq<Instr>, code': seq<Instr>, list: set<nat>, stops: set<nat>)
    requires Unset(code, stops) && Removed(code, code', list)
    ensures Unset(code', stops)
  {
    forall p: nat | p in stops ensures UnsetAt(code', p) {
      assert UnsetAt(code, p);
      if 1 <= p <= |code| {
        var q: nat := p - 1;
        assert code'[q] == RemovedInstr(code, list, q);
      }
    }
  }

  lemma RemovedBase(s: State, code': seq<Instr>, list: set<nat>, stops: set<nat>)
    requires Base(s, stops) && Removed(s.code, code', list)
    ensures Base(s.(code := code'), stops)
  {
    RemovedClosed(s.code, code', list, stops + Elems(s.jpc), s.lasttarget);
    RemovedChain(s.code, code', list, s.jpc);
    RemovedUnset(s.code, code', list, Elems(s.jpc));
    hide Closed;
    hide Chain;
    hide Unset;
    RemovedFrame(s.code, code', list);
    if |s.code| > 0 {
      var q: nat := |s.code| - 1;
      assert TMode(code'[q]) == TMode(s.code[q]);
    }
  }

  lemma RemovedBoth(code: seq<Instr>, t: seq<nat>, f: seq<nat>)
    requires Controlled(code, Elems(t)) && Controlled(code, Elems(f))
    ensures Removed(code, RemoveValues(RemoveValues(code, t), f), Elems(t) + Elems(f))
  {
    var code1 := RemoveValues(code, t);
    RemoveAll(code, t);
    RemovedControlled(code, code1, Elems(t), Elems(f));
    RemoveAll(code1, f);
    RemovedUnion(code, code1, RemoveValues(code1, f), Elems(t), Elems(f));
  }

  lemma RemovedLists(code: seq<Instr>, code': seq<Instr>, t: seq<nat>, f: seq<nat>, outer: set<nat>)
    requires Lists(code, t, f, outer) && Removed(code, code', Elems(t) + Elems(f))
    ensures Lists(code', f, t, outer) && Kept(code, code', outer)
  {
    var both := Elems(t) + Elems(f);
    RemovedChain(code, code', both, t);
    RemovedChain(code, code', both, f);
    RemovedControlled(code, code', both, Elems(t));
    RemovedControlled(code, code', both, Elems(f));
    RemovedControlled(code, code', both, outer);
    hide Removed;
    hide Chain;
    hide Controlled;
  }

  /** Swapping the lists and dropping their values keeps the invariant and the runs. */
  lemma RemovedCore(c: Ctx, s: State, e: Desc, outer: set<nat>)
    requires Core(s, e, outer) && Started(c, s, e.k)
    ensures var code', e' := RemoveValues(RemoveValues(s.code, e.t), e.f), Desc(e.k, e.f, e.t);
      var s' := s.(code := code');
      && Removed(s.code, code', Elems(e.t) + Elems(e.f))
      && Core(s', e', outer) && Started(c, s', e.k) && Advance(s, s', outer)
        && RunE(c, s', e', outer) == RunE(c, s, e, outer)
  {
    hide Run;
    hide RemoveValues;
    hide Removed;
    var code' := RemoveValues(RemoveValues(s.code, e.t), e.f);
    var both, e', s' := Elems(e.t) + Elems(e.f), Desc(e.k, e.f, e.t), s.(code := code');
    RemovedBoth(s.code, e.t, e.f);
    ControlledUnion(s.code, Elems(e.t), Elems(e.f));
    RemovedRun(c.m, c.kst, s.code, code', both, Stops(e, outer) + Elems(s.jpc), c.start, c.regs, c.w);
    assert Waiting(e', outer) == Waiting(e, outer) && Stops(e', outer) == Stops(e, outer);
    RemovedBase(s, code', both, Stops(e, outer));
    RemovedLists(s.code, code', e.t, e.f, outer);
    RemovedKind(s, code', e.k, both);
    RemovedStart(c, s, code', e.k, both);
    RemovedLength(s.code, code', both);
    hide Base;
    hide Lists;
    hide KindCode;
    hide Started;
  }

  lemma RemovedLength(code: seq<Instr>, code': seq<Instr>, list: set<nat>)
    requires Removed(code, code', list)
    ensures |code'| == |code|
  {
  }

  lemma RemovedKind(s: State, code': seq<Instr>, k: Kind, list: set<nat>)
    requires KindCode(s, k) && Removed(s.code, code', list)
    ensures KindCode(s.(code := code'), k)
  {
    RemovedFrame(s.code, code', list);
    match k
    case VReloc(pc) => assert code'[pc] == s.code[pc];
    case VJmp(pc) =>
      var q: nat := pc - 1;
      assert code'[pc] == s.code[pc] && code'[q] == s.code[q];
    case _ =>
  }

  lemma RemovedStart(c: Ctx, s: State, code': seq<Instr>, k: Kind, list: set<nat>)
    requires Started(c, s, k) && Removed(s.code, code', list)
    ensures Started(c, s.(code := code'), k)
  {
    RemovedFrame(s.code, code', list);
    if c.start > 0 {
      var q: nat := c.start - 1;
      assert TMode(code'[q]) == TMode(s.code[q]);
    }
    if |s.code| > 0 {
      var q: nat := |s.code| - 1;
      assert code'[q] == RemovedInstr(s.code, list, q);
    }
  }

  /** The value of `not e`: own value negated, lists swapped, their values dropped. */
  lemma NotMeans(c: Ctx, s: State, e: Desc, outer: set<nat>, s1: State, k1: Kind, ev: Res, regs0: Regs)
    requires NegatedOK(c, s, e, outer, s1, k1) && Sem(c, s, e, outer, ev, regs0, Floor(s, e.k)) && WF(s, e, outer)
    ensures var e' := Desc(k1, e.f, e.t);
      Sem(c, s1.(code := RemoveValues(RemoveValues(s1.code, e.t), e.f)), e', outer, NotRes(ev), regs0, Floor(s, e.k))
  {
    hide Run;
    hide RemoveValues;
    var e1, e' := e.(k := k1), Desc(k1, e.f, e.t);
    var code' := RemoveValues(RemoveValues(s1.code, e.t), e.f);
    RemovedCore(c, s1, e1, outer);
    RemovedKindValue(c, s1, e1, outer, code');
    var o, o1 := RunE(c, s, e, outer), RunE(c, s1, e1, outer);
    if o.Exit? && o.pc in Elems(e.t) + Elems(e.f) {
      assert ControlledAt(s1.code, o.pc);
      RemovedJump(s1.code, code', Elems(e.t) + Elems(e.f), o.pc, o.regs);
    }
    hide RunE;
    hide Base;
    hide Lists;
    hide Removed;
    hide Kept;
    hide KindValue;
    hide JumpValue;
  }

  lemma RemovedJump(code: seq<Instr>, code': seq<Instr>, list: set<nat>, p: nat, regs: Regs)
    requires Removed(code, code', list) && p in list && 1 <= p <= |code|
    ensures forall b :: JumpValue(code', p, regs, b) == Bool(b)
  {
    var q: nat := p - 1;
    assert code'[q] == RemovedInstr(code, list, q);
  }

  lemma RemovedKindValue(c: Ctx, s: State, e: Desc, outer: set<nat>, code': seq<Instr>)
    requires KindCode(s, e.k) && Removed(s.code, code', Elems(e.t) + Elems(e.f))
    ensures forall pc, regs, w :: KindValue(c, code', e.k, pc, regs, w) == KindValue(c, s.code, e.k, pc, regs, w)
  {
    RemovedKind(s, code', e.k, Elems(e.t) + Elems(e.f));
    RemovedFrame(s.code, code', Elems(e.t) + Elems(e.f));
  }

  lemma NotKeeps(c: Ctx, s: State, e: Desc, outer: set<nat>, s1: State, k1: Kind)
    requires NegatedOK(c, s, e, outer, s1, k1) && WF(s, e, outer)
    ensures Maps(c, s, e, s1.(code := RemoveValues(RemoveValues(s1.code, e.t), e.f)), Desc(k1, e.f, e.t), outer, NotRes)
    ensures k1.VReloc? && k1.pc < |s1.code| && s1.code[k1.pc].Not? ==>
      RemoveValues(RemoveValues(s1.code, e.t), e.f)[k1.pc].Not?
  {
    NotMaps(c, s, e, outer, s1, k1);
    hide Maps;
    RemovedNot(c, s1, e.(k := k1), outer);
  }

  lemma RemovedNot(c: Ctx, s: State, e: Desc, outer: set<nat>)
    requires Core(s, e, outer) && Started(c, s, e.k)
    ensures e.k.VReloc? && e.k.pc < |s.code| && s.code[e.k.pc].Not? ==>
      RemoveValues(RemoveValues(s.code, e.t), e.f)[e.k.pc].Not?
  {
    hide RemoveValues;
    RemovedCore(c, s, e, outer);
    hide Base;
    hide Lists;
  }

  lemma NotMaps(c: Ctx, s: State, e: Desc, outer: set<nat>, s1: State, k1: Kind)
    requires NegatedOK(c, s, e, outer, s1, k1) && WF(s, e, outer)
    ensures Maps(c, s, e, s1.(code := RemoveValues(RemoveValues(s1.code, e.t), e.f)), Desc(k1, e.f, e.t), outer, NotRes)
  {
    hide Sem;
    hide RemoveValues;
    var e1, e' := e.(k := k1), Desc(k1, e.f, e.t);
    var s' := s1.(code := RemoveValues(RemoveValues(s1.code, e.t), e.f));
    RemovedCore(c, s1, e1, outer);
    RemovedFrame(s1.code, s'.code, Elems(e.t) + Elems(e.f));
    KeptUnion(s.code, s1.code, Elems(e.t) + Elems(e.f), outer);
    AdvanceTwice(s, s1, s', outer);
    hide Base;
    hide Lists;
    hide Kept;
    hide Removed;
    if !s'.failed {
      forall ev, regs0 | Sem(c, s, e, outer, ev, regs0, Floor(s, e.k))
        ensures Sem(c, s', e', outer, NotRes(ev), regs0, Floor(s, e.k))
      {
        NotMeans(c, s, e, outer, s1, k1, ev, regs0);
      }
    }
  }

  /** `codenot`. */
  lemma CodeNotSound(c: Ctx, s: State, e: Desc, outer: set<nat>)
    requires WF(s, e, outer) && Started(c, s, e.k) && Testable(s, e.k) && CodeNot(s, e).0.kst <= c.kst
    ensures var (s', e') := CodeNot(s, e);
      && Maps(c, s, e, s', e', outer, NotRes) && !e'.k.VK? && !e'.k.VNonReloc?
      && (e'.k.VReloc? ==> e'.k.pc < |s'.code| && s'.code[e'.k.pc].Not?)
      && (e'.k.VJmp? ==> e'.k.pc + 1 == |s'.code|)
  {
    hide Maps;
    hide Keeps;
    hide NegatedOK;
    hide Discharge2AnyReg;
    hide Emit;
    hide Negate;
    hide RemoveValues;
    var e1 := DischargeVars(e);
    KeepsVars(c, s, e, outer);
    KeepsWF(c, s, e, s, e1, outer);
    var (s1, k1) := NegateValue(s, e1);
    CodeNotGrows(s, e);
    if AlwaysFalse(e1.k) || AlwaysTrue(e1.k) {
      NegateConst(c, s, e1, k1, outer);
      NotKeeps(c, s, e1, outer, s1, k1);
    } else if e1.k.VJmp? {
      NegateTest(c, s, e1, outer);
      NotKeeps(c, s, e1, outer, s1, k1);
    } else {
      var (s2, e2) := Discharge2AnyReg(s, e1);
      AnyPlaceKeeps(c, s, e1, outer);
      KeepsWF(c, s, e1, s2, e2, outer);
      NegateReg(c, s2, e2, outer);
      NotKeeps(c, s2, e2, outer, s1, k1);
      MapsAfter(c, s, e1, s2, e2, CodeNot(s, e).0, CodeNot(s, e).1, outer, NotRes);
    }
    MapsAfter(c, s, e, s, e1, CodeNot(s, e).0, CodeNot(s, e).1, outer, NotRes);
  }
}
