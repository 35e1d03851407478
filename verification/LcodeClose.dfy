/** Closing the patch lists of an expression: every way out of it leads to the same place
    with its value in the same register (`exp2reg`). */
module LcodeClose {
  import opened LuaVM
  import opened LcodeSpec
  import opened LcodeRun
  import opened LcodeInv
  import opened LcodeEmit
  import opened LcodePlace

  /** The value with which the jump at p leaves: what its test copies, or the boolean b. */
  function JumpValue(code: seq<Instr>, p: nat, regs: Regs, b: bool): Value {
    if 1 <= p <= |code| && code[p - 1].TestSet? then Get(regs, code[p - 1].b) else Bool(b)
  }

  lemma ChainKept(code: seq<Instr>, code': seq<Instr>, l: seq<nat>, touched: set<nat>)
    requires Chain(code, l) && Frame(code, code', touched) && touched !! Elems(l)
    ensures Chain(code', l)
  {
    forall i | 0 <= i < |l| ensures l[i] < |code'| && code'[l[i]] == Jmp(LinkOffset(l, i)) {
      assert l[i] in Elems(l) && code[l[i]] == Jmp(LinkOffset(l, i));
    }
  }

  /** Base after patching a list to the current end (or just before it). */
  lemma PatchBase(s: State, l: seq<nat>, others: set<nat>, reg: nat, dt: int)
    requires Base(s, Elems(l) + others) && ListOK(s.code, l) && Elems(l) !! others
    requires s.lasttarget == |s.code|
    requires forall p: nat :: p in Elems(l) && !Producing(s.code, p) ==> TargetOK(s.code, p, dt)
    ensures var s' := PatchList(s, l, |s.code|, reg, dt);
      && s' == s.(code := s'.code, failed := s'.failed) && (s.failed ==> s'.failed)
      && Patched(s.code, s'.code, Elems(l), |s.code|, reg, dt) && Jumps(s.code, Elems(l))
      && Frame(s.code, s'.code, Elems(l)) && Base(s', others)
  {
    hide Closed;
    hide Chain;
    hide Patched;
    hide Frame;
    hide PatchList;
    var n, s' := |s.code|, PatchList(s, l, |s.code|, reg, dt);
    ChainJumps(s.code, l);
    PatchListPatched(s, l, n, reg, dt);
    PatchedFrame(s.code, s'.code, Elems(l), n, reg, dt);
    assert (others + Elems(s.jpc)) + Elems(l) == Elems(l) + others + Elems(s.jpc);
    PatchedClosed(s.code, s'.code, others + Elems(s.jpc), Elems(l), n, reg, dt, n, n);
    ChainKept(s.code, s'.code, s.jpc, Elems(l));
    assert |s'.code| == n by { PatchedLength(s.code, s'.code, Elems(l), n, reg, dt); }
    forall p: nat | p in Elems(s.jpc) ensures UnsetAt(s'.code, p) {
      assert UnsetAt(s.code, p);
      LinkUnset(s.code, s'.code, Elems(l), p);
    }
    if n > 0 {
      var q: nat := n - 1;
      FrameTMode(s.code, s'.code, Elems(l), q);
    }
  }

  lemma PatchedLength(code: seq<Instr>, code': seq<Instr>, list: set<nat>, vtarget: int, reg: nat, dtarget: int)
    requires Patched(code, code', list, vtarget, reg, dtarget)
    ensures |code'| == |code|
  {
  }

  lemma FrameTMode(code: seq<Instr>, code': seq<Instr>, touched: set<nat>, q: nat)
    requires Frame(code, code', touched) && q < |code|
    ensures TMode(code'[q]) == TMode(code[q])
  {
  }

  /** A run that used to stop at a jump of the list goes on to its target. */
  lemma PatchRun(c: Ctx, s: State, l: seq<nat>, others: set<nat>, reg: nat, dt: int)
    requires Base(s, Elems(l) + others) && ListOK(s.code, l) && Elems(l) !! others && Entry(s.code, c.start)
    requires s.lasttarget == |s.code|
    requires forall p: nat :: p in Elems(l) && !Producing(s.code, p) ==> TargetOK(s.code, p, dt)
    ensures var s', n := PatchList(s, l, |s.code|, reg, dt), |s.code|;
      var o, o' := RunS(c, s, Elems(l) + others), RunS(c, s', others);
      if o.Exit? && o.pc in Elems(l) then
        if Producing(s.code, o.pc) then o' == Exit(n, PatchRegs(s.code, o.pc, reg, o.regs), o.w)
        else dt >= 0 && o' == Land(Run(c.m, c.kst, s'.code, others + Elems(s.jpc), dt, o.regs, o.w), Elems(s.jpc), n)
      else o' == o
  {
    hide Closed;
    hide Chain;
    hide Patched;
    hide Frame;
    hide PatchList;
    hide Run;
    PatchBase(s, l, others, reg, dt);
    var n, s' := |s.code|, PatchList(s, l, |s.code|, reg, dt);
    var rest := others + Elems(s.jpc);
    assert rest + Elems(l) == Elems(l) + others + Elems(s.jpc);
    PatchedLength(s.code, s'.code, Elems(l), n, reg, dt);
    assert forall p: nat :: p in Elems(l) ==> UnsetAt(s.code, p) by {
      forall p: nat | p in Elems(l) ensures UnsetAt(s.code, p) { assert ControlledAt(s.code, p); }
    }
    RunPatch(c.m, c.kst, s.code, s'.code, rest, Elems(l), n, reg, dt, n, c.start, c.regs, c.w);
    var o0 := RunC(c, s.code, rest + Elems(l));
    if o0.Exit? && o0.pc in Elems(l) {
      assert ControlledAt(s.code, o0.pc);
      if Producing(s.code, o0.pc) {
        RunEnd(c, s'.code, rest, PatchRegs(s.code, o0.pc, reg, o0.regs), o0.w);
      } else {
        assert PatchRegs(s.code, o0.pc, reg, o0.regs) == o0.regs;
      }
    }
  }

  lemma PatchRegsPut(code: seq<Instr>, p: nat, reg: nat, regs: Regs, b: bool)
    requires ControlledAt(code, p) && Producing(code, p)
    ensures Put(regs, PatchRegs(code, p, reg, regs), reg, JumpValue(code, p, regs, b))
  {
  }

  // ---------- the pair of LOADBOOLs ----------

  function BoolPair(reg: nat): seq<Instr> {
    [LoadBool(reg, false, true)] + [LoadBool(reg, true, false)]
  }

  /** The code ends with the pair. */
  predicate EndsWithPair(code: seq<Instr>, reg: nat) {
    |code| >= 2 && code[|code| - 2] == LoadBool(reg, false, true) && code[|code| - 1] == LoadBool(reg, true, false)
  }

  lemma LoadBoolCode(s: State, reg: nat)
    requires s.jpc == []
    ensures EmitLoadBool(EmitLoadBool(s, reg, false, true), reg, true, false)
         == s.(code := s.code + BoolPair(reg), lasttarget := |s.code| + 1)
  {
  }

  lemma LoadBoolRun(c: Ctx, code: seq<Instr>, reg: nat, stops: set<nat>, o: Outcome)
    requires EndsWithPair(code, reg) && |code| - 2 !in stops
    ensures Then(c.m, c.kst, o, |code| - 2, code, stops)
         == if o.Exit? && o.pc == |code| - 2 then Exit(|code|, o.regs[reg := Bool(false)], o.w) else o
  {
    if o.Exit? && o.pc == |code| - 2 {
      RunEnd(c, code, stops, o.regs[reg := Bool(false)], o.w);
    }
  }

  lemma ClosedPair(code: seq<Instr>, code': seq<Instr>, reg: nat, stops: set<nat>, last: nat)
    requires Closed(code, stops, last) && code' == code + BoolPair(reg)
    ensures Closed(code', stops, last)
  {
    forall p: nat | p < |code'| ensures SafeAt(code', stops, last, p) {
      if p < |code| {
        assert SafeAt(code, stops, last, p);
      }
    }
  }

  /** Falling into the pair loads false. */
  lemma LoadBoolPair(c: Ctx, s: State, reg: nat, stops: set<nat>)
    requires Base(s, stops) && s.jpc == [] && Entry(s.code, c.start)
    ensures var s', n := s.(code := s.code + BoolPair(reg), lasttarget := |s.code| + 1), |s.code|;
      && Base(s', stops) && Entry(s'.code, c.start) && Frame(s.code, s'.code, {})
      && (var o := RunS(c, s, stops);
          RunS(c, s', stops) == if o.Exit? && o.pc == n then Exit(n + 2, o.regs[reg := Bool(false)], o.w) else o)
  {
    hide Run;
    var n, code' := |s.code|, s.code + BoolPair(reg);
    var s' := s.(code := code', lasttarget := n + 1);
    assert stops + Elems(s.jpc) == stops;
    ClosedLast(s.code, stops, s.lasttarget, n + 1);
    ClosedPair(s.code, code', reg, stops, n + 1);
    RunAppend(c.m, c.kst, s.code, BoolPair(reg), stops, stops, s.lasttarget, c.start, c.regs, c.w);
    RunSettled(c, s, stops);
    RunSettled(c, s', stops);
    LoadBoolRun(c, code', reg, stops, RunC(c, s.code, stops));
  }

  /** After an unconditional jump or, for a test, its own jump: the two ways to load a
      boolean, with every run that ends before them now ending behind them. */
  lemma LoadBoolsRun(c: Ctx, s: State, isJump: bool, reg: nat, stops: set<nat>)
    requires Base(s, stops) && Entry(s.code, c.start) && (isJump ==> s.jpc == [])
    ensures var s', n := LoadBools(s, isJump, reg), |s.code|;
      && Base(s', stops) && Entry(s'.code, c.start) && Frame(s.code, s'.code, Elems(s.jpc))
      && s' == s.(code := s'.code, jpc := s'.jpc, lasttarget := |s'.code|, failed := s'.failed)
        && (s.failed ==> s'.failed)
      && |s'.code| == n + (if isJump then 2 else 3) && EndsWithPair(s'.code, reg)
      && (|s'.code| > 2 ==> !TMode(s'.code[|s'.code| - 3]))
      && (var o, o' := RunS(c, s, stops), RunS(c, s', stops);
          o' == if o.Exit? && o.pc == n
                then Exit(|s'.code|, if isJump then o.regs[reg := Bool(false)] else o.regs, o.w) else o)
  {
    hide Run;
    hide Base;
    hide Frame;
    hide LoadBools;
    if isJump {
      BaseLast(s, stops);
      assert Elems(s.jpc) == {};
      LoadBoolsJump(c, s, reg, stops);
    } else {
      LoadBoolsHold(c, s, reg, stops);
    }
  }

  lemma BaseLast(s: State, stops: set<nat>)
    requires Base(s, stops)
    ensures |s.code| > 0 ==> !TMode(s.code[|s.code| - 1])
  {
  }

  lemma LoadBoolsJump(c: Ctx, s: State, reg: nat, stops: set<nat>)
    requires Base(s, stops) && Entry(s.code, c.start) && s.jpc == []
    ensures var s', n := LoadBools(s, true, reg), |s.code|;
      && Base(s', stops) && Entry(s'.code, c.start) && Frame(s.code, s'.code, {})
      && s' == s.(code := s.code + BoolPair(reg), lasttarget := n + 2)
      && (var o, o' := RunS(c, s, stops), RunS(c, s', stops);
          o' == if o.Exit? && o.pc == n then Exit(n + 2, o.regs[reg := Bool(false)], o.w) else o)
  {
    hide Run;
    LoadBoolCode(s, reg);
    LoadBoolPair(c, s, reg, stops);
    var s3 := s.(code := s.code + BoolPair(reg), lasttarget := |s.code| + 1);
    assert stops + Elems([]) == stops;
    hide Emit;
    ToHere(c, s3, [], stops);
    assert PatchToHere(s3, []) == s3.(lasttarget := |s3.code|);
  }

  /** The pair, and the jumps on hold joined to the position behind it. */
  lemma PairToHere(c: Ctx, s: State, l: seq<nat>, reg: nat, stops: set<nat>)
    requires Base(s, stops + Elems(l)) && s.jpc == [] && Entry(s.code, c.start)
    requires Chain(s.code, l) && NoDup(l) && (forall p :: p in l ==> UnsetAt(s.code, p)) && Elems(l) !! stops
    ensures var s3 := s.(code := s.code + BoolPair(reg), lasttarget := |s.code| + 1);
      var s', n := PatchToHere(s3, l), |s.code|;
      && s' == s3.(lasttarget := n + 2, jpc := l) && Base(s', stops) && Entry(s'.code, c.start)
      && (var o := RunS(c, s, stops + Elems(l));
          RunS(c, s', stops) ==
            if o.Exit? && o.pc == n then Exit(n + 2, o.regs[reg := Bool(false)], o.w) else Land(o, Elems(l), n + 2))
  {
    hide Run;
    hide Closed;
    hide Frame;
    var s3 := s.(code := s.code + BoolPair(reg), lasttarget := |s.code| + 1);
    LoadBoolPair(c, s, reg, stops + Elems(l));
    ChainExtend(s.code, BoolPair(reg), l);
    forall p | p in l ensures UnsetAt(s3.code, p) {
      assert UnsetAt(s.code, p) && p in Elems(l);
    }
    hide Chain;
    ToHere(c, s3, l, stops);
    LinkNone(s3, l);
    ChainBelow(s, l, stops);
  }

  lemma ChainBelow(s: State, l: seq<nat>, stops: set<nat>)
    requires Base(s, stops + Elems(l))
    ensures forall p :: p in Elems(l) ==> p < |s.code|
  {
  }

  lemma LoadBoolsHoldCode(s: State, reg: nat)
    requires EmitJump(s).0.jpc == []
    ensures var s1 := EmitJump(s).0;
      LoadBools(s, false, reg) == PatchToHere(s1.(code := s1.code + BoolPair(reg), lasttarget := |s1.code| + 1),
                                              EmitJump(s).1)
  {
    hide EmitJump;
    LoadBoolCode(EmitJump(s).0, reg);
  }

  lemma LoadBoolsHold(c: Ctx, s: State, reg: nat, stops: set<nat>)
    requires Base(s, stops) && Entry(s.code, c.start)
    ensures var s', n := LoadBools(s, false, reg), |s.code|;
      && Base(s', stops) && Entry(s'.code, c.start) && Frame(s.code, s'.code, Elems(s.jpc))
      && s' == s.(code := s'.code, jpc := s'.jpc, lasttarget := |s'.code|, failed := s'.failed)
        && (s.failed ==> s'.failed)
      && |s'.code| == n + 3 && s'.code[n].Jmp? && EndsWithPair(s'.code, reg)
      && (var o, o' := RunS(c, s, stops), RunS(c, s', stops);
          o' == if o.Exit? && o.pc == n then Exit(n + 3, o.regs, o.w) else o)
  {
    hide Run;
    hide EmitJump;
    hide Closed;
    hide Chain;
    hide Frame;
    var n, s1, l := |s.code|, EmitJump(s).0, EmitJump(s).1;
    EmitHold(c, s, stops);
    LoadBoolsHoldCode(s, reg);
    hide LoadBools;
    PairToHere(c, s1, l, reg, stops);
    hide Base;
    HoldFrame(s, s1.code, s1.code + BoolPair(reg));
    RunWithin(c.m, c.kst, s.code, stops + Elems(s.jpc), c.start, c.regs, c.w);
    HoldLand(RunC(c, s.code, stops + Elems(s.jpc)), Elems(s.jpc), n);
    hide Land;
    hide PatchToHere;
  }

  lemma HoldLand(o: Outcome, js: set<nat>, n: nat)
    requires o.Exit? ==> o.pc <= n
    ensures Land(o, {n} + js, n + 3)
         == if Land(o, js, n).Exit? && Land(o, js, n).pc == n then Exit(n + 3, o.regs, o.w) else Land(o, js, n)
    ensures Land(o, js, n).Exit? ==> o.Exit? && Land(o, js, n).regs == o.regs && Land(o, js, n).w == o.w
  {
  }

  lemma LinkNone(s: State, l: seq<nat>)
    requires s.jpc == []
    ensures PatchToHere(s, l) == s.(lasttarget := |s.code|, jpc := l)
  {
  }

  lemma HoldFrame(s: State, code1: seq<Instr>, code': seq<Instr>)
    requires |code1| == |s.code| + 1 && code1[..|s.code|] == s.code && |code1| <= |code'| && code'[..|code1|] == code1
    ensures Frame(s.code, code', Elems(s.jpc))
  {
    forall p: nat | p < |s.code| ensures code'[p] == s.code[p] {
      assert code'[p] == code'[..|code1|][p] == code1[p] == code1[..|s.code|][p];
    }
  }

  // ---------- patching to the end ----------

  lemma {:induction false} NoNeedValue(code: seq<Instr>, l: seq<nat>)
    requires !NeedValue(code, l)
    ensures forall p: nat :: p in Elems(l) ==> Producing(code, p)
    decreases |l|
  {
    if l != [] {
      NoNeedValue(code, l[1..]);
      assert Elems(l) == {l[0]} + Elems(l[1..]);
    }
  }

  /** The load of the boolean b in the pair that ends the code. */
  ghost predicate LoadsAt(code: seq<Instr>, reg: nat, b: bool, dt: int) {
    && EndsWithPair(code, reg)
    && dt == (if b then |code| - 1 else |code| - 2)
    && (|code| > 2 ==> !TMode(code[|code| - 3]))
  }

  lemma LoadsRun(c: Ctx, code: seq<Instr>, reg: nat, b: bool, dt: int, stops: set<nat>, regs: Regs, w: World)
    requires LoadsAt(code, reg, b, dt) && Jumps(code, stops)
    ensures Run(c.m, c.kst, code, stops, dt, regs, w) == Exit(|code|, regs[reg := Bool(b)], w)
  {
    RunEnd(c, code, stops, regs[reg := Bool(b)], w);
  }

  lemma LoadsTarget(code: seq<Instr>, reg: nat, b: bool, dt: int, l: seq<nat>)
    requires LoadsAt(code, reg, b, dt) && Controlled(code, Elems(l))
    ensures forall p: nat :: p in Elems(l) ==> TargetOK(code, p, dt)
  {
    forall p: nat | p in Elems(l) ensures TargetOK(code, p, dt) {
      assert ControlledAt(code, p);
    }
  }

  lemma LoadsKept(code: seq<Instr>, code': seq<Instr>, touched: set<nat>, reg: nat, b: bool, dt: int)
    requires LoadsAt(code, reg, b, dt) && Frame(code, code', touched) && Jumps(code, touched) && |code'| == |code|
    ensures LoadsAt(code', reg, b, dt)
  {
    var k: nat := |code| - 2;
    var k1: nat := |code| - 1;
    assert !MayDiffer(code, touched, k) && !MayDiffer(code, touched, k1);
    assert code'[k] == code[k] && code'[k1] == code[k1];
    if |code| > 2 {
      var q: nat := |code| - 3;
      FrameTMode(code, code', touched, q);
    }
  }

  /** The other stops of a state are jumps. */
  lemma StopsJumps(s: State, stops: set<nat>)
    requires Base(s, stops) && Controlled(s.code, stops)
    ensures Jumps(s.code, stops + Elems(s.jpc))
  {
    ChainJumps(s.code, s.jpc);
    forall p: nat | p in stops ensures p < |s.code| && s.code[p].Jmp? {
      assert ControlledAt(s.code, p);
    }
  }

  /** One list: every run that stops at one of its jumps now ends at the current end with
      the jump's value in reg. */
  lemma FinishList(c: Ctx, s: State, l: seq<nat>, others: set<nat>, reg: nat, b: bool, dt: int)
    requires Base(s, Elems(l) + others) && ListOK(s.code, l) && Elems(l) !! others && Entry(s.code, c.start)
    requires Controlled(s.code, others)
    requires s.lasttarget == |s.code|
    requires !NeedValue(s.code, l) || LoadsAt(s.code, reg, b, dt)
    ensures var s', n := PatchList(s, l, |s.code|, reg, dt), |s.code|;
      && s' == s.(code := s'.code, failed := s'.failed) && (s.failed ==> s'.failed) && |s'.code| == n
      && Frame(s.code, s'.code, Elems(l)) && Base(s', others) && Entry(s'.code, c.start)
      && Controlled(s'.code, others) && Kept(s.code, s'.code, others)
      && (var o, o' := RunS(c, s, Elems(l) + others), RunS(c, s', others);
          if o.Exit? && o.pc in Elems(l)
          then o'.Exit? && o'.pc == n && o'.w == o.w && Put(o.regs, o'.regs, reg, JumpValue(s.code, o.pc, o.regs, b))
          else o' == o)
  {
    hide Closed;
    hide Chain;
    hide Patched;
    hide PatchList;
    hide Run;
    hide LoadsAt;
    hide Frame;
    if !NeedValue(s.code, l) {
      NoNeedValue(s.code, l);
    } else {
      LoadsTarget(s.code, reg, b, dt, l);
    }
    hide TargetOK;
    PatchBase(s, l, others, reg, dt);
    PatchRun(c, s, l, others, reg, dt);
    var s', n := PatchList(s, l, |s.code|, reg, dt), |s.code|;
    PatchedLength(s.code, s'.code, Elems(l), n, reg, dt);
    EntryKept(s.code, s'.code, Elems(l), c.start);
    ControlledKept(s.code, s'.code, others, Elems(l));
    var o := RunS(c, s, Elems(l) + others);
    if o.Exit? && o.pc in Elems(l) {
      assert ControlledAt(s.code, o.pc);
      if Producing(s.code, o.pc) {
        PatchRegsPut(s.code, o.pc, reg, o.regs, b);
      } else {
        LoadsKept(s.code, s'.code, Elems(l), reg, b, dt);
        StopsJumps(s', others);
        LoadsRun(c, s'.code, reg, b, dt, others + Elems(s.jpc), o.regs, o.w);
      }
    }
  }

  lemma EntryKept(code: seq<Instr>, code': seq<Instr>, touched: set<nat>, pc: nat)
    requires Entry(code, pc) && Frame(code, code', touched)
    ensures Entry(code', pc)
  {
    if pc > 0 {
      var q: nat := pc - 1;
      FrameTMode(code, code', touched, q);
    }
  }

  // ---------- closing both lists ----------

  /** What a run of an expression's code comes to when its lists are closed: the run ends at
      n' with the expression's value in reg, unless it stopped at an outer jump. */
  ghost predicate ClosedRun(code: seq<Instr>, t: seq<nat>, f: seq<nat>, reg: nat, o: Outcome, o': Outcome, n': nat) {
    if o.Exit? && o.pc in Elems(t) then
      o'.Exit? && o'.pc == n' && o'.w == o.w && Put(o.regs, o'.regs, reg, JumpValue(code, o.pc, o.regs, true))
    else if o.Exit? && o.pc in Elems(f) then
      o'.Exit? && o'.pc == n' && o'.w == o.w && Put(o.regs, o'.regs, reg, JumpValue(code, o.pc, o.regs, false))
    else o' == o
  }

  lemma NeedValueKept(code: seq<Instr>, code': seq<Instr>, l: seq<nat>)
    requires Controlled(code, Elems(l)) && Kept(code, code', Elems(l))
    ensures NeedValue(code', l) == NeedValue(code, l)
    decreases |l|
  {
    if l != [] {
      assert l[0] in Elems(l) && Elems(l[1..]) <= Elems(l);
      assert KeptAt(code, code', l[0]) && ControlledAt(code, l[0]);
      NeedValueKept(code, code', l[1..]);
    }
  }

  lemma FinishBoth(c: Ctx, s: State, t: seq<nat>, f: seq<nat>, reg: nat, pf: int, pt: int, outer: set<nat>)
    requires Base(s, Elems(t) + Elems(f) + outer) && Lists(s.code, t, f, outer) && Entry(s.code, c.start)
    requires || (!NeedValue(s.code, t) && !NeedValue(s.code, f))
             || (LoadsAt(s.code, reg, false, pf) && LoadsAt(s.code, reg, true, pt))
    ensures var s' := FinishLists(s, t, f, reg, pf, pt);
      && s' == s.(code := s'.code, lasttarget := |s.code|, failed := s'.failed) && (s.failed ==> s'.failed)
        && |s'.code| == |s.code|
      && Base(s', outer) && Entry(s'.code, c.start) && Controlled(s'.code, outer) && Kept(s.code, s'.code, outer)
      && ClosedRun(s.code, t, f, reg, RunS(c, s, Elems(t) + Elems(f) + outer), RunS(c, s', outer), |s.code|)
  {
    hide Closed;
    hide Chain;
    hide Run;
    hide LoadsAt;
    hide Frame;
    hide NeedValue;
    hide Put;
    hide PatchList;
    var all, n := Elems(t) + Elems(f) + outer, |s.code|;
    var s1 := GetLabel(s);
    LabelBase(c, s, all);
    var others := Elems(t) + outer;
    assert Elems(f) + others == all;
    ControlledUnion(s.code, Elems(t), outer);
    hide Base;
    FinishList(c, s1, f, others, reg, false, pf);
    var s2 := PatchList(s1, f, n, reg, pf);
    SecondList(s, s2, t, f, outer, reg, pt);
    FinishList(c, s2, t, outer, reg, true, pt);
    KeptUnion(s.code, s2.code, Elems(t), outer);
    var s3 := PatchList(s2, t, n, reg, pt);
    KeptTwice(s.code, s2.code, s3.code, outer);
    StopsBelow(s1, all);
    var o := RunS(c, s, all);
    if o.Exit? && o.pc in Elems(t) {
      assert KeptAt(s.code, s2.code, o.pc);
      assert JumpValue(s2.code, o.pc, o.regs, true) == JumpValue(s.code, o.pc, o.regs, true);
    }
  }

  lemma StopsBelow(s: State, stops: set<nat>)
    requires Base(s, stops)
    ensures |s.code| !in stops
  {
  }

  lemma LabelBase(c: Ctx, s: State, stops: set<nat>)
    requires Base(s, stops)
    ensures Base(GetLabel(s), stops) && RunS(c, GetLabel(s), stops) == RunS(c, s, stops)
  {
    ClosedLast(s.code, stops + Elems(s.jpc), s.lasttarget, |s.code|);
  }

  lemma ControlledUnion(code: seq<Instr>, a: set<nat>, b: set<nat>)
    requires Controlled(code, a) && Controlled(code, b)
    ensures Controlled(code, a + b)
  {
  }

  lemma KeptUnion(code: seq<Instr>, code': seq<Instr>, a: set<nat>, b: set<nat>)
    requires Kept(code, code', a + b)
    ensures Kept(code, code', a) && Kept(code, code', b)
  {
    forall p: nat | p in a || p in b ensures KeptAt(code, code', p) {
      assert p in a + b;
    }
  }

  /** The second list is still as it was after the first one is patched. */
  lemma SecondList(s: State, s2: State, t: seq<nat>, f: seq<nat>, outer: set<nat>, reg: nat, pt: int)
    requires Lists(s.code, t, f, outer) && Frame(s.code, s2.code, Elems(f)) && |s2.code| == |s.code|
    requires Kept(s.code, s2.code, Elems(t) + outer)
    requires (!NeedValue(s.code, t) && !NeedValue(s.code, f)) || LoadsAt(s.code, reg, true, pt)
    ensures ListOK(s2.code, t) && Elems(t) !! outer
    ensures !NeedValue(s2.code, t) || LoadsAt(s2.code, reg, true, pt)
  {
    ChainJumps(s.code, f);
    hide Frame;
    hide Chain;
    hide LoadsAt;
    ListKept(s.code, s2.code, t, Elems(f));
    KeptUnion(s.code, s2.code, Elems(t), outer);
    NeedValueKept(s.code, s2.code, t);
    if LoadsAt(s.code, reg, true, pt) {
      LoadsKept(s.code, s2.code, Elems(f), reg, true, pt);
    }
  }

  /** As `ClosedRun`, when the run may also fall off the end: past a test its value is false,
      otherwise it is already in reg. */
  ghost predicate CloseOut(code: seq<Instr>, isJump: bool, t: seq<nat>, f: seq<nat>, reg: nat, o: Outcome,
                           o': Outcome, n': nat) {
    if o.Exit? && o.pc == |code| then
      o'.Exit? && o'.pc == n' && o'.w == o.w
        && Put(o.regs, o'.regs, reg, if isJump then Bool(false) else Get(o.regs, reg))
    else ClosedRun(code, t, f, reg, o, o', n')
  }

  lemma CloseRun(c: Ctx, s: State, isJump: bool, t: seq<nat>, f: seq<nat>, reg: nat, outer: set<nat>)
    requires Base(s, Elems(t) + Elems(f) + outer) && Lists(s.code, t, f, outer) && Entry(s.code, c.start)
    requires isJump ==> s.jpc == [] && NeedValue(s.code, t)
    ensures var s' := CloseLists(s, isJump, t, f, reg);
      && s' == s.(code := s'.code, jpc := s'.jpc, lasttarget := |s'.code|, failed := s'.failed)
        && (s.failed ==> s'.failed)
      && |s'.code| >= |s.code|
      && Base(s', outer) && Entry(s'.code, c.start) && Controlled(s'.code, outer) && Kept(s.code, s'.code, outer)
      && CloseOut(s.code, isJump, t, f, reg, RunS(c, s, Elems(t) + Elems(f) + outer), RunS(c, s', outer), |s'.code|)
  {
    hide Closed;
    hide Chain;
    hide Run;
    hide Frame;
    hide NeedValue;
    hide PatchList;
    hide FinishLists;
    hide LoadBools;
    var all := Elems(t) + Elems(f) + outer;
    StopsBelow(s, all);
    if NeedValue(s.code, t) || NeedValue(s.code, f) {
      CloseWithBools(c, s, isJump, t, f, reg, outer);
    } else {
      hide Base;
      FinishBoth(c, s, t, f, reg, NO_JUMP, NO_JUMP, outer);
    }
  }

  lemma CloseWithBools(c: Ctx, s: State, isJump: bool, t: seq<nat>, f: seq<nat>, reg: nat, outer: set<nat>)
    requires Base(s, Elems(t) + Elems(f) + outer) && Lists(s.code, t, f, outer) && Entry(s.code, c.start)
    requires isJump ==> s.jpc == []
    ensures var s1 := LoadBools(s, isJump, reg); var s' := FinishLists(s1, t, f, reg, |s1.code| - 2, |s1.code| - 1);
      && s' == s.(code := s'.code, jpc := s'.jpc, lasttarget := |s'.code|, failed := s'.failed)
        && (s.failed ==> s'.failed)
      && |s'.code| >= |s.code|
      && Base(s', outer) && Entry(s'.code, c.start) && Controlled(s'.code, outer) && Kept(s.code, s'.code, outer)
      && CloseOut(s.code, isJump, t, f, reg, RunS(c, s, Elems(t) + Elems(f) + outer), RunS(c, s', outer), |s'.code|)
  {
    hide Closed;
    hide Chain;
    hide Run;
    hide Frame;
    hide NeedValue;
    hide PatchList;
    hide FinishLists;
    hide LoadBools;
    var all := Elems(t) + Elems(f) + outer;
    var s1 := LoadBools(s, isJump, reg);
    LoadBoolsRun(c, s, isJump, reg, all);
    StopsBelow(s1, all);
    StopsBelow(s, all);
    JpcJumps(s, all);
    ListsKept(s.code, s1.code, t, f, outer, Elems(s.jpc));
    KeptUnion(s.code, s1.code, Elems(t) + Elems(f), outer);
    hide Base;
    var pf, pt := |s1.code| - 2, |s1.code| - 1;
    assert LoadsAt(s1.code, reg, false, pf) && LoadsAt(s1.code, reg, true, pt);
    hide LoadsAt;
    FinishBoth(c, s1, t, f, reg, pf, pt, outer);
    var s' := FinishLists(s1, t, f, reg, pf, pt);
    KeptTwice(s.code, s1.code, s'.code, outer);
    var o := RunS(c, s, all);
    if o.Exit? && o.pc in Elems(t) + Elems(f) {
      assert KeptAt(s.code, s1.code, o.pc);
      JumpValueKept(s.code, s1.code, o.pc, o.regs);
    }
  }

  lemma JumpValueKept(code: seq<Instr>, code': seq<Instr>, p: nat, regs: Regs)
    requires KeptAt(code, code', p)
    ensures forall b :: JumpValue(code', p, regs, b) == JumpValue(code, p, regs, b)
  {
  }

  lemma JpcJumps(s: State, stops: set<nat>)
    requires Base(s, stops)
    ensures Jumps(s.code, Elems(s.jpc)) && Elems(s.jpc) !! stops
  {
    ChainJumps(s.code, s.jpc);
  }
}
