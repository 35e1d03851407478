/** How running unfinished code relates to running the code it is turned into.

    Jumps that are still in a list are exits of a run; everything else jumps forward. */
module LcodeRun {
  import opened LuaVM
  import opened LcodeSpec

  /** A jump at p may lead to t: forward, and not to a jump that a test controls. */
  ghost predicate TargetOK(code: seq<Instr>, p: nat, t: int) {
    p < t <= |code| && !TMode(code[t - 1])
  }

  /** `last` bounds the targets of the resolved jumps (it is `lasttarget`). */
  ghost predicate SafeAt(code: seq<Instr>, stops: set<nat>, last: nat, p: nat)
    requires p < |code|
  {
    match code[p]
    case Jmp(sbx) => p in stops || (TargetOK(code, p, p + 1 + sbx) && p + 1 + sbx <= last)
    case Cmp(_, _, _, _) => p + 1 < |code| && code[p + 1].Jmp?
    case Test(_, _) => p + 1 < |code| && code[p + 1].Jmp?
    case TestSet(a, _, _) => p + 1 < |code| && code[p + 1].Jmp? && (a == NO_REG ==> p + 1 in stops)
    case LoadBool(_, _, skip) => skip ==> p + 1 < |code| && code[p + 1].LoadBool?
    case Return(_, _) => p in stops
    case _ => true
  }

  ghost predicate Closed(code: seq<Instr>, stops: set<nat>, last: nat) {
    forall p: nat :: p < |code| ==> SafeAt(code, stops, last, p)
  }

  /** In closed code every step that does not stop goes forward within the code. */
  lemma StepForward(m: Machine, kst: seq<Value>, code: seq<Instr>, stops: set<nat>, last: nat, pc: nat, regs: Regs,
                    w: World)
    requires Closed(code, stops, last) && pc < |code| && pc !in stops
    ensures var n := Step(m, kst, code[pc], pc, regs, w);
      n.Goto? ==> pc < n.pc <= |code| && (code[pc].Jmp? || TMode(code[pc]) || !TMode(code[n.pc - 1]))
  {
    assert SafeAt(code, stops, last, pc);
  }

  /** Continues an outcome at the end of the first n instructions in longer code. */
  function Then(m: Machine, kst: seq<Value>, o: Outcome, n: nat, code: seq<Instr>, stops: set<nat>): Outcome {
    if o.Exit? && o.pc == n then Run(m, kst, code, stops, n, o.regs, o.w) else o
  }

  /** Appending instructions: the run of the prefix, continued. */
  lemma {:induction false} RunAppend(m: Machine, kst: seq<Value>, code: seq<Instr>, ext: seq<Instr>, stops: set<nat>,
                                     stops': set<nat>,
                  last: nat, pc: nat, regs: Regs, w: World)
    requires Closed(code, stops, last) && pc <= |code|
    requires forall p :: p < |code| ==> (p in stops <==> p in stops')
    ensures Run(m, kst, code + ext, stops', pc, regs, w)
         == Then(m, kst, Run(m, kst, code, stops, pc, regs, w), |code|, code + ext, stops')
    decreases |code| - pc
  {
    if pc < |code| && pc !in stops {
      StepForward(m, kst, code, stops, last, pc, regs, w);
      var n := Step(m, kst, code[pc], pc, regs, w);
      if n.Goto? {
        RunAppend(m, kst, code, ext, stops, stops', last, n.pc, n.regs, n.w);
      }
    }
  }

  /** The instructions at the stops do not matter. */
  lemma {:induction false} RunFrame(m: Machine, kst: seq<Value>, code: seq<Instr>, code': seq<Instr>, stops: set<nat>,
                 pc: nat, regs: Regs, w: World)
    requires |code'| == |code|
    requires forall p: nat :: p < |code| && p !in stops ==> code'[p] == code[p]
    ensures Run(m, kst, code', stops, pc, regs, w) == Run(m, kst, code, stops, pc, regs, w)
    decreases |code| - pc
  {
    if pc < |code| && pc !in stops {
      var n := Step(m, kst, code[pc], pc, regs, w);
      if n.Goto? && pc < n.pc <= |code| {
        RunFrame(m, kst, code, code', stops, n.pc, n.regs, n.w);
      }
    }
  }

  /** Where the patched jump at p leads to. */
  function Target(code: seq<Instr>, p: nat, vtarget: int, dtarget: int): int {
    if Producing(code, p) then vtarget else dtarget
  }

  /** The registers after a patched test has jumped, if `regs` is what the unpatched one left. */
  function PatchRegs(code: seq<Instr>, p: nat, reg: nat, regs: Regs): Regs {
    if Producing(code, p) && reg != NO_REG && Control(code, p) < p && reg != code[Control(code, p)].b
    then regs[reg := Get(regs, code[Control(code, p)].b)] else regs
  }

  /** The test `i`, given the register its value is wanted in. */
  function PatchTest(i: Instr, reg: nat): Instr
    requires i.TestSet?
  {
    if reg != NO_REG && reg != i.b then TestSet(reg, i.b, i.cond) else Test(i.b, i.cond)
  }

  /** The instruction at p once the jumps in `list` and the tests controlling them are patched. */
  function PatchedInstr(code: seq<Instr>, list: set<nat>, vtarget: int, reg: nat, dtarget: int, p: nat): Instr
    requires p < |code|
  {
    if p in list then Jmp(Target(code, p, vtarget, dtarget) - (p + 1))
    else if p + 1 in list && code[p].TestSet? then PatchTest(code[p], reg)
    else code[p]
  }

  ghost predicate Patched(code: seq<Instr>, code': seq<Instr>, list: set<nat>, vtarget: int, reg: nat, dtarget: int) {
    && |code'| == |code|
    && (forall p: nat :: p < |code| ==> code'[p] == PatchedInstr(code, list, vtarget, reg, dtarget, p))
  }

  ghost predicate Jumps(code: seq<Instr>, list: set<nat>) {
    forall p: nat :: p in list ==> p < |code| && code[p].Jmp?
  }

  ghost predicate UnsetAt(code: seq<Instr>, p: nat) {
    1 <= p <= |code| && code[p - 1].TestSet? ==> code[p - 1].a == NO_REG
  }

  /** The unpatched tests of the list write no register yet. */
  ghost predicate Unset(code: seq<Instr>, list: set<nat>) {
    forall p: nat :: p in list ==> UnsetAt(code, p)
  }

  ghost predicate Entry(code: seq<Instr>, pc: nat) {
    pc <= |code| && (pc == 0 || !TMode(code[pc - 1]))
  }

  /** What patching a list does to a run: a run that used to stop at a jump of the list now
      goes on at the jump's target, with the tested value in `reg` if the test produces it. */
  function Redirect(m: Machine, kst: seq<Value>, o: Outcome, code: seq<Instr>, code': seq<Instr>, stops: set<nat>,
                    list: set<nat>, vtarget: int, reg: nat, dtarget: int): Outcome {
    if o.Exit? && o.pc in list then
      var t := Target(code, o.pc, vtarget, dtarget);
      if o.pc < t <= |code'|
      then Run(m, kst, code', stops, t, PatchRegs(code, o.pc, reg, o.regs), o.w) else Stuck
    else o
  }

  lemma {:induction false} RunPatch(m: Machine, kst: seq<Value>, code: seq<Instr>, code': seq<Instr>, stops: set<nat>,
                                    list: set<nat>,
                 vtarget: int, reg: nat, dtarget: int, last: nat, pc: nat, regs: Regs, w: World)
    requires Closed(code, stops + list, last) && Entry(code, pc)
    requires stops !! list && Patched(code, code', list, vtarget, reg, dtarget) && Unset(code, list)
    requires Jumps(code, list)
    ensures Run(m, kst, code', stops, pc, regs, w)
         == Redirect(m, kst, Run(m, kst, code, stops + list, pc, regs, w), code, code', stops, list, vtarget, reg,
                     dtarget)
    decreases |code| - pc
  {
    if pc < |code| && pc !in stops {
      if pc in list {
        assert !Producing(code, pc);
      } else {
        assert SafeAt(code, stops + list, last, pc);
        StepForward(m, kst, code, stops + list, last, pc, regs, w);
        var n := Step(m, kst, code[pc], pc, regs, w);
        if !TMode(code[pc]) {
          assert code'[pc] == code[pc];
          if n.Goto? {
            RunPatch(m, kst, code, code', stops, list, vtarget, reg, dtarget, last, n.pc, n.regs, n.w);
          }
        } else if n.Goto? {
          RunPatchTest(m, kst, code, code', stops, list, vtarget, reg, dtarget, last, pc, regs, w);
        }
      }
    }
  }

  /** A test and its patched form take the same branch. */
  lemma TestStep(m: Machine, kst: seq<Value>, i: Instr, i': Instr, reg: nat, pc: nat, regs: Regs, w: World)
    requires TMode(i) && (i' == i || (i.TestSet? && i.a == NO_REG && i' == PatchTest(i, reg)))
    ensures var n, n' := Step(m, kst, i, pc, regs, w), Step(m, kst, i', pc, regs, w);
      n.Goto? ==>
        && n'.Goto? && n'.pc == n.pc && n'.w == n.w && (n.pc == pc + 1 || n.pc == pc + 2)
        && (i' == i || n.pc == pc + 2 ==> n'.regs == n.regs)
        && (i' != i && n.pc == pc + 1 ==>
              n.regs == regs && n'.regs == if reg != NO_REG && reg != i.b then regs[reg := Get(regs, i.b)] else regs)
  {
  }

  /** The step for a test: it fails and skips its jump, or it runs into its jump. */
  lemma {:induction false} RunPatchTest(m: Machine, kst: seq<Value>, code: seq<Instr>, code': seq<Instr>,
                                        stops: set<nat>, list: set<nat>,
                 vtarget: int, reg: nat, dtarget: int, last: nat, pc: nat, regs: Regs, w: World)
    requires Closed(code, stops + list, last) && pc < |code|
    requires stops !! list && Patched(code, code', list, vtarget, reg, dtarget) && Unset(code, list)
    requires Jumps(code, list)
    requires pc !in stops + list && TMode(code[pc]) && Step(m, kst, code[pc], pc, regs, w).Goto?
    ensures Run(m, kst, code', stops, pc, regs, w)
         == Redirect(m, kst, Run(m, kst, code, stops + list, pc, regs, w), code, code', stops, list, vtarget, reg,
                     dtarget)
    decreases |code| - pc, 0
  {
    assert SafeAt(code, stops + list, last, pc);
    var next: nat := pc + 1;
    assert SafeAt(code, stops + list, last, next);
    assert next in list ==> UnsetAt(code, next);
    var n := Step(m, kst, code[pc], pc, regs, w);
    assert code'[pc] == PatchedInstr(code, list, vtarget, reg, dtarget, pc);
    assert code'[next] == PatchedInstr(code, list, vtarget, reg, dtarget, next);
    TestStep(m, kst, code[pc], code'[pc], reg, pc, regs, w);
    var n' := Step(m, kst, code'[pc], pc, regs, w);
    assert Run(m, kst, code, stops + list, pc, regs, w) == Run(m, kst, code, stops + list, n.pc, n.regs, n.w);
    assert Run(m, kst, code', stops, pc, regs, w) == Run(m, kst, code', stops, n.pc, n'.regs, n.w);
    if n.pc == pc + 2 {
      RunPatch(m, kst, code, code', stops, list, vtarget, reg, dtarget, last, n.pc, n.regs, n.w);
    } else {
      RunPatchJump(m, kst, code, code', stops, list, vtarget, reg, dtarget, last, next, n.regs, n.w, n'.regs);
    }
  }

  /** The jump that a test has just run into. */
  lemma {:induction false} RunPatchJump(m: Machine, kst: seq<Value>, code: seq<Instr>, code': seq<Instr>,
                                        stops: set<nat>, list: set<nat>,
                 vtarget: int, reg: nat, dtarget: int, last: nat, pc: nat, regs: Regs, w: World, regs': Regs)
    requires Closed(code, stops + list, last) && 1 <= pc < |code|
    requires stops !! list && Patched(code, code', list, vtarget, reg, dtarget) && Unset(code, list)
    requires Jumps(code, list)
    requires TMode(code[pc - 1]) && code[pc].Jmp?
    requires regs' == if pc in list then PatchRegs(code, pc, reg, regs) else regs
    ensures Run(m, kst, code', stops, pc, regs', w)
         == Redirect(m, kst, Run(m, kst, code, stops + list, pc, regs, w), code, code', stops, list, vtarget, reg,
                     dtarget)
    decreases |code| - pc
  {
    assert SafeAt(code, stops + list, last, pc);
    assert code'[pc] == PatchedInstr(code, list, vtarget, reg, dtarget, pc);
    if pc !in stops + list {
      RunPatch(m, kst, code, code', stops, list, vtarget, reg, dtarget, last, pc + 1 + code[pc].sbx, regs, w);
    }
  }
}
