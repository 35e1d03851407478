/** Emitting instructions: the invariant they keep and the runs they extend. */
module LcodeEmit {
  import opened LuaVM
  import opened LcodeSpec
  import opened LcodeRun
  import opened LcodeInv

  /** A run: the machine, the finished constant table, and where and how it starts. */
  datatype Ctx = Ctx(m: Machine, kst: seq<Value>, start: nat, regs: Regs, w: World)

  /** Reaching one of the pending jumps `l` to position n is reaching n. */
  function Land(o: Outcome, l: set<nat>, n: nat): Outcome {
    if o.Exit? && o.pc in l then Exit(n, o.regs, o.w) else o
  }

  function RunC(c: Ctx, code: seq<Instr>, stops: set<nat>): Outcome {
    Run(c.m, c.kst, code, stops, c.start, c.regs, c.w)
  }

  /** The run of the code so far, with the jumps pending to its end taken. */
  function RunS(c: Ctx, s: State, stops: set<nat>): Outcome {
    Land(RunC(c, s.code, stops + Elems(s.jpc)), Elems(s.jpc), |s.code|)
  }

  lemma RunSettled(c: Ctx, s: State, stops: set<nat>)
    requires s.jpc == []
    ensures RunS(c, s, stops) == RunC(c, s.code, stops)
  {
    assert stops + Elems(s.jpc) == stops;
  }

  lemma ClosedLast(code: seq<Instr>, stops: set<nat>, last: nat, last': nat)
    requires Closed(code, stops, last) && last <= last'
    ensures Closed(code, stops, last')
  {
    forall p: nat | p < |code| ensures SafeAt(code, stops, last', p) {
      assert SafeAt(code, stops, last, p);
    }
  }

  lemma Discharged(c: Ctx, s: State, stops: set<nat>)
    requires Base(s, stops) && Entry(s.code, c.start)
    ensures var s1 := DischargeJpc(s);
      && s1 == s.(code := s1.code, jpc := [], failed := s1.failed) && (s.failed ==> s1.failed)
      && |s1.code| == |s.code| && Frame(s.code, s1.code, Elems(s.jpc))
      && Closed(s1.code, stops, s.lasttarget) && Entry(s1.code, c.start)
      && RunC(c, s1.code, stops) == RunS(c, s, stops)
  {
    hide Run;
    hide Closed;
    hide Frame;
    hide Patched;
    hide PatchList;
    hide Chain;
    var l, n := Elems(s.jpc), |s.code|;
    var s1 := DischargeJpc(s);
    ChainJumps(s.code, s.jpc);
    PatchListPatched(s, s.jpc, n, NO_REG, n);
    PatchedFrame(s.code, s1.code, l, n, NO_REG, n);
    PatchedClosed(s.code, s1.code, stops, l, n, NO_REG, n, s.lasttarget, s.lasttarget);
    RunPatch(c.m, c.kst, s.code, s1.code, stops, l, n, NO_REG, n, s.lasttarget, c.start, c.regs, c.w);
    var o := RunC(c, s.code, stops + l);
    if o.Exit? {
      RunEnd(c, s1.code, stops, o.regs, o.w);
    }
  }

  lemma RunEnd(c: Ctx, code: seq<Instr>, stops: set<nat>, regs: Regs, w: World)
    ensures Run(c.m, c.kst, code, stops, |code|, regs, w) == Exit(|code|, regs, w)
  {
  }

  /** Running the discharged code followed by more instructions. */
  lemma BlockRun(c: Ctx, s: State, ext: seq<Instr>, stops: set<nat>, stops': set<nat>)
    requires Base(s, stops) && Entry(s.code, c.start)
    requires forall p :: p < |s.code| ==> (p in stops <==> p in stops')
    ensures var code := DischargeJpc(s).code + ext;
      && RunC(c, code, stops') == Then(c.m, c.kst, RunS(c, s, stops), |s.code|, code, stops')
      && Entry(code, c.start)
  {
    Discharged(c, s, stops);
    RunAppend(c.m, c.kst, DischargeJpc(s).code, ext, stops, stops', s.lasttarget, c.start, c.regs, c.w);
  }

  lemma ThenStop(c: Ctx, o: Outcome, n: nat, code: seq<Instr>, stops: set<nat>)
    requires n in stops || n >= |code|
    ensures Then(c.m, c.kst, o, n, code, stops) == o
  {
  }

  lemma ClosedAppend(code: seq<Instr>, i: Instr, stops: set<nat>, stops': set<nat>, last: nat)
    requires Closed(code, stops, last) && (forall p :: p < |code| ==> (p in stops <==> p in stops'))
    requires SafeAt(code + [i], stops', last, |code|)
    ensures Closed(code + [i], stops', last)
  {
    forall p: nat | p < |code + [i]| ensures SafeAt(code + [i], stops', last, p) {
      if p < |code| {
        assert SafeAt(code, stops, last, p);
      }
    }
  }

  /** An instruction that just goes on to the next one. */
  predicate Plain(i: Instr) {
    !TMode(i) && !i.Jmp? && !i.Return? && !(i.LoadBool? && i.skip)
  }

  function AfterStep(c: Ctx, o: Outcome, n: nat, i: Instr): Outcome {
    if o.Exit? && o.pc == n then
      match Step(c.m, c.kst, i, n, o.regs, o.w)
      case Goto(t, regs, w) => if t < 0 then Stuck else Exit(t, regs, w)
      case Raise(w) => Fail(w)
    else o
  }

  lemma PlainStep(c: Ctx, i: Instr, pc: nat, regs: Regs, w: World)
    requires Plain(i)
    ensures var n := Step(c.m, c.kst, i, pc, regs, w); n.Goto? ==> n.pc == pc + 1
  {
  }

  /** The last instruction of some code. */
  lemma RunLast(c: Ctx, code: seq<Instr>, stops: set<nat>, o: Outcome)
    requires |code| > 0 && Plain(code[|code| - 1]) && |code| - 1 !in stops
    ensures Then(c.m, c.kst, o, |code| - 1, code, stops) == AfterStep(c, o, |code| - 1, code[|code| - 1])
  {
    if o.Exit? && o.pc == |code| - 1 {
      PlainStep(c, code[o.pc], o.pc, o.regs, o.w);
      var n := Step(c.m, c.kst, code[o.pc], o.pc, o.regs, o.w);
      if n.Goto? {
        assert Run(c.m, c.kst, code, stops, n.pc, n.regs, n.w) == Exit(n.pc, n.regs, n.w);
      }
    }
  }

  lemma FrameAppend(code: seq<Instr>, code': seq<Instr>, ext: seq<Instr>, touched: set<nat>)
    requires Frame(code, code', touched)
    ensures Frame(code, code' + ext, touched)
  {
  }

  lemma EmitPlain(c: Ctx, s: State, i: Instr, stops: set<nat>)
    requires Base(s, stops) && Entry(s.code, c.start) && Plain(i)
    ensures var s' := Emit(s, i);
      && s' == s.(code := s'.code, jpc := [], failed := s'.failed) && (s.failed ==> s'.failed)
      && |s'.code| == |s.code| + 1 && s'.code[|s.code|] == i
      && Base(s', stops) && Frame(s.code, s'.code, Elems(s.jpc)) && Entry(s'.code, c.start)
      && RunS(c, s', stops) == AfterStep(c, RunS(c, s, stops), |s.code|, i)
  {
    hide Run;
    hide Step;
    hide Frame;
    var n, d := |s.code|, DischargeJpc(s);
    Discharged(c, s, stops);
    FrameAppend(s.code, d.code, [i], Elems(s.jpc));
    BlockRun(c, s, [i], stops, stops);
    ClosedAppend(d.code, i, stops, stops, s.lasttarget);
    hide Closed;
    var s' := Emit(s, i);
    assert n !in stops && s'.code[n] == i;
    RunLast(c, s'.code, stops, RunS(c, s, stops));
    RunSettled(c, s', stops);
    assert stops + Elems(s'.jpc) == stops;
  }

  /** The same, if the new instruction is still open (it waits for its register). */
  lemma EmitOpen(c: Ctx, s: State, i: Instr, stops: set<nat>)
    requires Base(s, stops) && Entry(s.code, c.start) && Plain(i)
    ensures var s', n := Emit(s, i), |s.code|;
      Base(s', stops + {n}) && RunS(c, s', stops + {n}) == RunS(c, s, stops)
  {
    hide Run;
    hide Step;
    var n, d, s' := |s.code|, DischargeJpc(s), Emit(s, i);
    EmitPlain(c, s, i, stops);
    BlockRun(c, s, [i], stops, stops + {n});
    ThenStop(c, RunS(c, s, stops), n, s'.code, stops + {n});
    Discharged(c, s, stops);
    ClosedAppend(d.code, i, stops, stops + {n}, s.lasttarget);
    RunSettled(c, s', stops + {n});
    assert stops + {n} + Elems(s'.jpc) == stops + {n};
  }

  lemma CondJumpCode(s: State, i: Instr)
    ensures CondJump(s, i).1 == [|DischargeJpc(s).code| + 1]
    ensures CondJump(s, i).0 == DischargeJpc(s).(code := DischargeJpc(s).code + [i] + [Jmp(NO_JUMP)])
  {
  }

  lemma RunTest(c: Ctx, code: seq<Instr>, stops: set<nat>, o: Outcome)
    requires |code| >= 2 && TMode(code[|code| - 2]) && |code| - 2 !in stops && |code| - 1 in stops
    ensures Then(c.m, c.kst, o, |code| - 2, code, stops) == AfterStep(c, o, |code| - 2, code[|code| - 2])
  {
    if o.Exit? && o.pc == |code| - 2 {
      var i := code[o.pc];
      TestStep(c.m, c.kst, i, i, 0, o.pc, o.regs, o.w);
      var n := Step(c.m, c.kst, i, o.pc, o.regs, o.w);
      if n.Goto? {
        assert Run(c.m, c.kst, code, stops, n.pc, n.regs, n.w) == Exit(n.pc, n.regs, n.w);
      }
    }
  }

  lemma EmitTestState(s: State, i: Instr, stops: set<nat>, c: Ctx)
    requires Base(s, stops) && Entry(s.code, c.start) && TMode(i) && (i.TestSet? ==> i.a == NO_REG)
    ensures var s', n := CondJump(s, i).0, |s.code|;
      && s' == s.(code := s'.code, jpc := [], failed := s'.failed) && (s.failed ==> s'.failed)
      && s'.code == DischargeJpc(s).code + ([i] + [Jmp(NO_JUMP)])
      && |s'.code| == n + 2 && s'.code[n] == i && s'.code[n + 1] == Jmp(NO_JUMP)
      && Base(s', stops + {n + 1}) && Frame(s.code, s'.code, Elems(s.jpc))
  {
    hide Run;
    hide Step;
    hide Frame;
    var n, d, stops' := |s.code|, DischargeJpc(s), stops + {|s.code| + 1};
    CondJumpCode(s, i);
    Discharged(c, s, stops);
    FrameAppend(s.code, d.code, [i] + [Jmp(NO_JUMP)], Elems(s.jpc));
    var s' := CondJump(s, i).0;
    assert s'.code == d.code + ([i] + [Jmp(NO_JUMP)]);
    forall p: nat | p < |s'.code| ensures SafeAt(s'.code, stops', s.lasttarget, p) {
      if p < n {
        assert SafeAt(d.code, stops, s.lasttarget, p);
      }
    }
    assert stops' + Elems(s'.jpc) == stops';
  }

  /** A test and its jump: the run falls through, or stops at the new jump. */
  lemma EmitTest(c: Ctx, s: State, i: Instr, stops: set<nat>)
    requires Base(s, stops) && Entry(s.code, c.start) && TMode(i) && (i.TestSet? ==> i.a == NO_REG)
    ensures var s', l, n := CondJump(s, i).0, CondJump(s, i).1, |s.code|;
      && l == [n + 1] && s' == s.(code := s'.code, jpc := [], failed := s'.failed) && (s.failed ==> s'.failed)
      && |s'.code| == n + 2 && s'.code[n] == i && s'.code[n + 1] == Jmp(NO_JUMP)
      && Base(s', stops + {n + 1}) && ListOK(s'.code, l)
      && Frame(s.code, s'.code, Elems(s.jpc)) && Entry(s'.code, c.start)
      && RunS(c, s', stops + {n + 1}) == AfterStep(c, RunS(c, s, stops), n, i)
  {
    hide Run;
    hide Step;
    hide Closed;
    var n, stops' := |s.code|, stops + {|s.code| + 1};
    CondJumpCode(s, i);
    EmitTestState(s, i, stops, c);
    var s' := CondJump(s, i).0;
    Discharged(c, s, stops);
    BlockRun(c, s, [i] + [Jmp(NO_JUMP)], stops, stops');
    RunTest(c, s'.code, stops', RunS(c, s, stops));
    RunSettled(c, s', stops');
  }

  lemma EmitJumpCode(s: State)
    ensures EmitJump(s).0 == Link(s.(code := s.code + [Jmp(NO_JUMP)], jpc := []), [|s.code|], s.jpc)
    ensures EmitJump(s).1 == [|s.code|] + s.jpc
  {
  }

  lemma ChainExtend(code: seq<Instr>, ext: seq<Instr>, l: seq<nat>)
    requires Chain(code, l)
    ensures Chain(code + ext, l)
  {
    forall i | 0 <= i < |l| ensures l[i] < |code + ext| && (code + ext)[l[i]] == Jmp(LinkOffset(l, i)) {
      assert code[l[i]] == Jmp(LinkOffset(l, i));
    }
  }

  lemma HoldCode(s: State)
    requires Chain(s.code, s.jpc) && NoDup(s.jpc)
    ensures var s', l, n := EmitJump(s).0, EmitJump(s).1, |s.code|;
      && l == [n] + s.jpc && s' == s.(code := s'.code, jpc := [], failed := s'.failed) && (s.failed ==> s'.failed)
      && |s'.code| == n + 1 && s'.code[n].Jmp? && s'.code == s.code + [s'.code[n]]
      && Chain(s'.code, l) && NoDup(l) && Elems(l) == {n} + Elems(s.jpc)
  {
    hide EmitJump;
    hide Link;
    EmitJumpCode(s);
    var n := |s.code|;
    var s0 := s.(code := s.code + [Jmp(NO_JUMP)], jpc := []);
    ChainExtend(s.code, [Jmp(NO_JUMP)], s.jpc);
    assert Chain(s0.code, [n]);
    ChainJumps(s.code, s.jpc);
    assert Elems([n]) == {n};
    hide Chain;
    LinkChain(s0, [n], s.jpc);
  }

  lemma EmitHoldState(s: State, stops: set<nat>)
    requires Base(s, stops)
    ensures var s', l, n := EmitJump(s).0, EmitJump(s).1, |s.code|;
      && |s'.code| == n + 1 && Elems(l) == {n} + Elems(s.jpc)
      && Base(s', stops + Elems(l)) && (forall p :: p in l ==> UnsetAt(s'.code, p))
  {
    HoldCode(s);
    var s', l, n := EmitJump(s).0, EmitJump(s).1, |s.code|;
    var stops' := stops + Elems(l);
    ClosedAppend(s.code, s'.code[n], stops + Elems(s.jpc), stops', s.lasttarget);
    assert stops' + Elems(s'.jpc) == stops';
    forall p | p in l ensures UnsetAt(s'.code, p) {
      assert p == n || (p in Elems(s.jpc) && UnsetAt(s.code, p));
    }
  }

  /** An unconditional jump, on hold together with the jumps to its own position. */
  lemma EmitHold(c: Ctx, s: State, stops: set<nat>)
    requires Base(s, stops) && Entry(s.code, c.start)
    ensures var s', l, n := EmitJump(s).0, EmitJump(s).1, |s.code|;
      && l == [n] + s.jpc && s' == s.(code := s'.code, jpc := [], failed := s'.failed) && (s.failed ==> s'.failed)
      && |s'.code| == n + 1 && s'.code[..n] == s.code && s'.code[n].Jmp?
      && Base(s', stops + Elems(l)) && Chain(s'.code, l) && NoDup(l) && Elems(l) == {n} + Elems(s.jpc)
      && (forall p :: p in l ==> UnsetAt(s'.code, p))
      && Entry(s'.code, c.start)
      && RunS(c, s', stops + Elems(l)) == RunC(c, s.code, stops + Elems(s.jpc))
  {
    hide Run;
    HoldCode(s);
    EmitHoldState(s, stops);
    var s', n := EmitJump(s).0, |s.code|;
    var old', stops' := stops + Elems(s.jpc), stops + Elems(EmitJump(s).1);
    RunAppend(c.m, c.kst, s.code, [s'.code[n]], old', stops', s.lasttarget, c.start, c.regs, c.w);
    ThenStop(c, RunC(c, s.code, old'), n, s'.code, stops');
    RunSettled(c, s', stops');
  }

  lemma LinkUnset(code: seq<Instr>, code': seq<Instr>, touched: set<nat>, p: nat)
    requires Frame(code, code', touched) && |code'| == |code| && UnsetAt(code, p) && p !in touched
    requires Jumps(code, touched)
    ensures UnsetAt(code', p)
  {
    if 1 <= p <= |code| && code'[p - 1].TestSet? {
      var q: nat := p - 1;
      assert TMode(code'[q]) == TMode(code[q]);
      assert !MayDiffer(code, touched, q);
    }
  }

  /** Rewriting the offsets of pending jumps keeps the code closed. */
  lemma RelinkClosed(code: seq<Instr>, code': seq<Instr>, touched: set<nat>, stops: set<nat>, last: nat)
    requires Closed(code, stops, last) && Jumps(code, touched) && Jumps(code', touched) && touched <= stops
    requires |code'| == |code| && (forall p: nat :: p < |code| && p !in touched ==> code'[p] == code[p])
    ensures Closed(code', stops, last) && Frame(code, code', touched)
  {
    forall p: nat | p < |code| ensures TMode(code'[p]) == TMode(code[p]) && code'[p].Jmp? == code[p].Jmp?
      && code'[p].LoadBool? == code[p].LoadBool?
    {
      if p !in touched {
        assert code'[p] == code[p];
      }
    }
    forall p: nat | p < |code| ensures SafeAt(code', stops, last, p) {
      assert SafeAt(code, stops, last, p);
      if p !in touched {
        assert code'[p] == code[p];
      }
    }
  }

  /** Changing the link in a pending jump changes no run. */
  lemma LinkRun(c: Ctx, s: State, a: seq<nat>, b: seq<nat>, stops: set<nat>)
    requires Base(s, stops) && Entry(s.code, c.start)
    requires Chain(s.code, a) && Chain(s.code, b) && NoDup(a) && NoDup(b) && Elems(a) !! Elems(b)
    requires Elems(a) <= stops + Elems(s.jpc)
    ensures var s' := Link(s, a, b);
      && s' == s.(code := s'.code, failed := s'.failed) && (s.failed ==> s'.failed) && |s'.code| == |s.code|
      && Chain(s'.code, a + b) && NoDup(a + b) && Elems(a + b) == Elems(a) + Elems(b)
      && Closed(s'.code, stops + Elems(s.jpc), s.lasttarget) && Unset(s'.code, Elems(s.jpc))
      && Frame(s.code, s'.code, Elems(a)) && Entry(s'.code, c.start) && Jumps(s.code, Elems(a))
      && RunC(c, s'.code, stops + Elems(s.jpc)) == RunC(c, s.code, stops + Elems(s.jpc))
  {
    hide Run;
    var s', all := Link(s, a, b), stops + Elems(s.jpc);
    LinkChain(s, a, b);
    ChainJumps(s.code, a);
    RelinkClosed(s.code, s'.code, Elems(a), all, s.lasttarget);
    RunFrame(c.m, c.kst, s.code, s'.code, all, c.start, c.regs, c.w);
    forall p: nat | p in Elems(s.jpc) ensures UnsetAt(s'.code, p) {
      assert UnsetAt(s.code, p);
      RelinkUnset(s.code, s'.code, Elems(a), p);
    }
    if c.start > 0 {
      var q: nat := c.start - 1;
      assert TMode(s'.code[q]) == TMode(s.code[q]);
    }
  }

  lemma RelinkUnset(code: seq<Instr>, code': seq<Instr>, touched: set<nat>, p: nat)
    requires |code'| == |code| && (forall q: nat :: q < |code| && q !in touched ==> code'[q] == code[q])
    requires Jumps(code', touched) && UnsetAt(code, p)
    ensures UnsetAt(code', p)
  {
    if 1 <= p <= |code| {
      var q: nat := p - 1;
      assert q in touched ==> code'[q].Jmp?;
    }
  }

  lemma LandTwice(o: Outcome, a: set<nat>, b: set<nat>, n: nat)
    ensures Land(Land(o, a, n), b, n) == Land(o, a + b, n)
  {
  }

  lemma ToHereState(c: Ctx, s: State, l: seq<nat>, stops: set<nat>)
    requires Base(s, stops + Elems(l)) && Entry(s.code, c.start)
    requires Chain(s.code, l) && NoDup(l) && (forall p :: p in l ==> UnsetAt(s.code, p)) && Elems(l) !! stops
    ensures var s' := PatchToHere(s, l);
      && s' == s.(code := s'.code, lasttarget := |s.code|, jpc := s.jpc + l, failed := s'.failed)
        && (s.failed ==> s'.failed)
      && |s'.code| == |s.code| && Base(s', stops) && Elems(s'.jpc) == Elems(s.jpc) + Elems(l)
      && Frame(s.code, s'.code, Elems(s.jpc)) && Entry(s'.code, c.start)
      && RunC(c, s'.code, stops + Elems(l) + Elems(s.jpc)) == RunC(c, s.code, stops + Elems(l) + Elems(s.jpc))
  {
    hide Run;
    hide Closed;
    hide Frame;
    hide Jumps;
    var s1, s' := GetLabel(s), PatchToHere(s, l);
    var all := stops + Elems(l) + Elems(s.jpc);
    ClosedLast(s.code, all, s.lasttarget, |s.code|);
    assert s1.jpc == s.jpc && s1.code == s.code && Base(s1, stops + Elems(l));
    LinkRun(c, s1, s.jpc, l, stops + Elems(l));
    assert stops + Elems(s'.jpc) == all;
    forall p: nat | p in Elems(s'.jpc) ensures UnsetAt(s'.code, p) {
      if p !in Elems(s.jpc) {
        LinkUnset(s.code, s'.code, Elems(s.jpc), p);
      }
    }
    ToHereLast(s, l, stops);
  }

  /** Joining a list to the jumps pending to the current end: its exits now end there. */
  lemma ToHere(c: Ctx, s: State, l: seq<nat>, stops: set<nat>)
    requires Base(s, stops + Elems(l)) && Entry(s.code, c.start)
    requires Chain(s.code, l) && NoDup(l) && (forall p :: p in l ==> UnsetAt(s.code, p)) && Elems(l) !! stops
    ensures var s' := PatchToHere(s, l);
      && s' == s.(code := s'.code, lasttarget := |s.code|, jpc := s.jpc + l, failed := s'.failed)
        && (s.failed ==> s'.failed)
      && |s'.code| == |s.code| && Base(s', stops)
      && Frame(s.code, s'.code, Elems(s.jpc)) && Entry(s'.code, c.start)
      && RunS(c, s', stops) == Land(RunS(c, s, stops + Elems(l)), Elems(l), |s.code|)
  {
    hide Run;
    hide Base;
    hide Frame;
    hide PatchToHere;
    ToHereState(c, s, l, stops);
    var all := stops + Elems(l) + Elems(s.jpc);
    assert stops + (Elems(s.jpc) + Elems(l)) == all;
    LandTwice(RunC(c, s.code, all), Elems(s.jpc), Elems(l), |s.code|);
  }

  lemma ToHereLast(s: State, l: seq<nat>, stops: set<nat>)
    requires Base(s, stops + Elems(l)) && |PatchToHere(s, l).code| == |s.code|
    requires Frame(s.code, PatchToHere(s, l).code, Elems(s.jpc))
    ensures |s.code| > 0 ==> !TMode(PatchToHere(s, l).code[|s.code| - 1])
  {
    if |s.code| > 0 {
      var q: nat := |s.code| - 1;
      assert TMode(PatchToHere(s, l).code[q]) == TMode(s.code[q]);
    }
  }
}
