/** Placing a delayed value in a register: `addk`, `luaK_nil`, `discharge2reg`. */
module LcodePlace {
  import opened LuaVM
  import opened LcodeSpec
  import opened LcodeRun
  import opened LcodeInv
  import opened LcodeEmit

  // ---------- constants ----------

  /** `addk` returns the index of a constant of the same type that is raw-equal to the one
      asked for, whatever the cache holds, and earlier indices keep their meaning.  (A NaN is
      no key of the cache.) */
  lemma AddKSound(s: State, v: Value)
    ensures var (s', k) := AddK(s, v);
      && k < |s'.kst| && SameType(s'.kst[k], v) && (v != Number(F(NaN)) ==> RawEqual(s'.kst[k], v))
      && s.kst <= s'.kst && |s'.kst| <= |s.kst| + 1
      && s' == s.(kst := s'.kst, cache := s'.cache, failed := s'.failed) && (s.failed ==> s'.failed)
  {
  }

  /** Without NaN and minus zero in the table, raw equality within a type is identity. */
  lemma AddKExact(s: State, v: Value)
    requires PlainConst(v) && (forall i :: 0 <= i < |s.kst| ==> PlainConst(s.kst[i]))
    ensures var (s', k) := AddK(s, v);
      s'.kst[k] == v && (forall i :: 0 <= i < |s'.kst| ==> PlainConst(s'.kst[i]))
  {
    AddKSound(s, v);
    var (s', k) := AddK(s, v);
    assert PlainConst(s'.kst[k]);
  }

  /** A second request finds the first one and leaves everything as it is, unless NaN is asked
      for: that is added every time. */
  lemma AddKAgain(s: State, v: Value)
    ensures var (s', k) := AddK(s, v);
      AddK(s', v) == (if v == Number(F(NaN)) then (AddK(s', v).0, |s'.kst|) else (s', k))
  {
  }

  /** What the compiler asks for: nil, a boolean, a numeral or a string.  (`Whole` stands for
      non-zero floats.) */
  ghost predicate Asked(v: Value) {
    PlainConst(v) && !v.Object? && v != Number(F(Whole(0)))
  }

  /** Every constant of the table is found again; the other entries of the cache, which other
      functions may have left there, can be any. */
  ghost predicate Found(s: State) {
    forall i :: 0 <= i < |s.kst| ==>
      Asked(s.kst[i]) && KeyOf(s.kst[i]) in s.cache && s.cache[KeyOf(s.kst[i])] == Index(i)
  }

  /** Different constants have different keys. */
  lemma KeysApart(v: Value, w: Value)
    requires Asked(v) && Asked(w) && KeyOf(v) == KeyOf(w)
    ensures v == w
  {
  }

  lemma AddKFound(s: State, v: Value)
    requires Found(s) && Asked(v)
    ensures var (s', k) := AddK(s, v);
      Found(s') && k < |s'.kst| && s'.kst[k] == v && s.kst <= s'.kst
    ensures v in s.kst ==> AddK(s, v).0 == s
    ensures v !in s.kst ==> AddK(s, v).0.kst == s.kst + [v] && AddK(s, v).1 == |s.kst|
  {
    AddKSound(s, v);
    AddKExact(s, v);
    var (s', k) := AddK(s, v);
    forall i | 0 <= i < |s.kst| && KeyOf(s.kst[i]) == KeyOf(v) ensures s.kst[i] == v {
      KeysApart(s.kst[i], v);
    }
    if s' != s {
      forall i | 0 <= i < |s'.kst|
        ensures Asked(s'.kst[i]) && KeyOf(s'.kst[i]) in s'.cache && s'.cache[KeyOf(s'.kst[i])] == Index(i)
      {
        assert i < |s.kst| ==> s'.kst[i] == s.kst[i];
      }
    }
  }

  /** The requests in this order: the state after them, and the indices returned. */
  function AddAll(s: State, vs: seq<Value>): (State, seq<nat>)
    decreases |vs|
  {
    if vs == [] then (s, [])
    else
      var (s1, k) := AddK(s, vs[0]);
      var (s2, ks) := AddAll(s1, vs[1..]);
      (s2, [k] + ks)
  }

  /** Whatever is asked for in whatever order, every answer is the index of the constant asked
      for, two answers are the same exactly for the same constant, the table has no constant
      twice and none that was not asked for. */
  lemma ConstantsOnce(s: State, vs: seq<Value>)
    requires Found(s) && forall i :: 0 <= i < |vs| ==> Asked(vs[i])
    ensures var (s', ks) := AddAll(s, vs);
      && Found(s') && s.kst <= s'.kst && |ks| == |vs|
      && (forall i :: 0 <= i < |vs| ==> ks[i] < |s'.kst| && s'.kst[ks[i]] == vs[i])
      && (forall i, j :: 0 <= i < |vs| && 0 <= j < |vs| ==> (ks[i] == ks[j] <==> vs[i] == vs[j]))
      && (forall i, j :: 0 <= i < j < |s'.kst| ==> s'.kst[i] != s'.kst[j])
      && (forall i :: |s.kst| <= i < |s'.kst| ==> s'.kst[i] in vs)
  {
    hide Found;
    AllAnswered(s, vs);
    NoneTwice(AddAll(s, vs).0);
  }

  lemma {:induction false} AllAnswered(s: State, vs: seq<Value>)
    requires Found(s) && forall i :: 0 <= i < |vs| ==> Asked(vs[i])
    ensures var (s', ks) := AddAll(s, vs);
      && Found(s') && s.kst <= s'.kst && Answers(s', vs, ks)
      && (forall i :: |s.kst| <= i < |s'.kst| ==> s'.kst[i] in vs)
    decreases |vs|
  {
    hide AddK;
    hide Found;
    hide Asked;
    if vs != [] {
      var (s1, k) := AddK(s, vs[0]);
      AddKFound(s, vs[0]);
      AllAnswered(s1, vs[1..]);
      var (s', ks) := AddAll(s1, vs[1..]);
      AnswersMore(s1, s', vs, k, ks);
      forall i | |s.kst| <= i < |s'.kst| ensures s'.kst[i] in vs {
        assert i < |s1.kst| ==> s'.kst[i] == s1.kst[i];
        assert i < |s1.kst| || s'.kst[i] in vs[1..];
      }
    }
  }

  /** Each index holds the constant asked for. */
  ghost predicate Answers(s: State, vs: seq<Value>, ks: seq<nat>) {
    |ks| == |vs| && forall i :: 0 <= i < |vs| ==> ks[i] < |s.kst| && s.kst[ks[i]] == vs[i]
  }

  lemma AnswersMore(s: State, s': State, vs: seq<Value>, k: nat, ks: seq<nat>)
    requires vs != [] && k < |s.kst| && s.kst[k] == vs[0] && s.kst <= s'.kst && Answers(s', vs[1..], ks)
    ensures Answers(s', vs, [k] + ks)
  {
    forall i | 0 <= i < |vs| ensures ([k] + ks)[i] < |s'.kst| && s'.kst[([k] + ks)[i]] == vs[i] {
      assert i > 0 ==> ks[i - 1] < |s'.kst| && s'.kst[ks[i - 1]] == vs[1..][i - 1];
    }
  }

  lemma NoneTwice(s: State)
    requires Found(s)
    ensures forall i, j :: 0 <= i < j < |s.kst| ==> s.kst[i] != s.kst[j]
  {
  }

  // ---------- code whose last instructions are still open ----------

  /** Code, cut before an instruction that no resolved jump passes. */
  lemma Truncate(c: Ctx, code: seq<Instr>, k: nat, stops: set<nat>, stops0: set<nat>, last: nat)
    requires Closed(code, stops, last) && last <= k < |code| && !code[k].Jmp? && !code[k].LoadBool?
    requires forall p :: p < k ==> (p in stops0 <==> p in stops)
    requires c.start <= k
    ensures Closed(code[..k], stops0, last)
    ensures RunC(c, code, stops) == Then(c.m, c.kst, RunC(c, code[..k], stops0), k, code, stops)
  {
    hide Run;
    var pre := code[..k];
    forall p: nat | p < |pre| ensures SafeAt(pre, stops0, last, p) {
      assert SafeAt(code, stops, last, p);
    }
    RunAppend(c.m, c.kst, pre, code[k..], stops0, stops, last, c.start, c.regs, c.w);
    assert pre + code[k..] == code;
  }

  /** Replacing the last instruction of a settled state by a plain one. */
  lemma ReplaceLast(c: Ctx, s: State, i: Instr, stops: set<nat>, stops': set<nat>)
    requires Base(s, stops) && Entry(s.code, c.start) && |s.code| > 0 && s.lasttarget < |s.code| && c.start < |s.code|
    requires !s.code[|s.code| - 1].Jmp? && !s.code[|s.code| - 1].LoadBool? && Plain(i) && !i.LoadBool?
    requires stops' == stops - {|s.code| - 1}
    ensures var s' := s.(code := s.code[|s.code| - 1 := i]); var n := |s.code| - 1;
      && Base(s', stops') && Entry(s'.code, c.start)
      && Frame(s.code[..n], s'.code, {}) && s.jpc == []
      && (var o0 := RunC(c, s.code[..n], stops');
          && RunS(c, s', stops') == AfterStep(c, o0, n, i)
          && RunS(c, s, stops) == Then(c.m, c.kst, o0, n, s.code, stops)
          && (o0.Exit? ==> o0.pc <= n))
  {
    hide Run;
    hide Step;
    var n := |s.code| - 1;
    var pre, s' := s.code[..n], s.(code := s.code[|s.code| - 1 := i]);
    assert stops + Elems(s.jpc) == stops;
    Truncate(c, s.code, n, stops, stops', s.lasttarget);
    assert s'.code == pre + [i];
    ClosedAppend(pre, i, stops', stops', s.lasttarget);
    RunAppend(c.m, c.kst, pre, [i], stops', stops', s.lasttarget, c.start, c.regs, c.w);
    RunLast(c, s'.code, stops', RunC(c, pre, stops'));
    RunSettled(c, s', stops');
    RunSettled(c, s, stops);
    assert stops' + Elems(s'.jpc) == stops';
    RunWithin(c.m, c.kst, pre, stops', c.start, c.regs, c.w);
  }

  lemma {:induction false} RunWithin(m: Machine, kst: seq<Value>, code: seq<Instr>, stops: set<nat>, pc: nat,
                                     regs: Regs, w: World)
    requires pc <= |code|
    ensures var o := Run(m, kst, code, stops, pc, regs, w);
      o.Exit? ==> o.pc <= |code| && (o.pc == |code| || o.pc in stops)
    decreases |code| - pc
  {
    if pc < |code| && pc !in stops {
      var n := Step(m, kst, code[pc], pc, regs, w);
      if n.Goto? && pc < n.pc <= |code| {
        RunWithin(m, kst, code, stops, n.pc, n.regs, n.w);
      }
    }
  }

  // ---------- the value of a delayed expression ----------

  /** What a kind denotes when the run so far has reached pc. */
  function KindValue(c: Ctx, code: seq<Instr>, k: Kind, pc: nat, regs: Regs, w: World): Option<Res> {
    match k
    case VReloc(p) =>
      if pc == p && p < |code| && Relocatable(code[p]) then Some(ExecVal(c.m, c.kst, code[p], regs, w)) else None
    case VJmp(p) =>
      if pc == p then Some(Ok(Bool(true), w)) else if pc == |code| then Some(Ok(Bool(false), w)) else None
    case _ =>
      if pc != |code| then None
      else
        match k
        case VNil => Some(Ok(Nil, w))
        case VTrue => Some(Ok(Bool(true), w))
        case VFalse => Some(Ok(Bool(false), w))
        case VK(i) => Some(Ok(RKValue(c.kst, regs, K(i)), w))
        case VKFlt(x) => Some(Ok(Number(F(x)), w))
        case VKInt(i) => Some(Ok(Number(I(i)), w))
        case VNonReloc(r) => Some(Ok(Get(regs, r), w))
        case VLocal(r) => Some(Ok(Get(regs, r), w))
        case _ => None
  }

  /** regs' is regs with v in reg (if reg is a register at all). */
  ghost predicate Put(regs: Regs, regs': Regs, reg: nat, v: Value) {
    reg != NO_REG ==> Get(regs', reg) == v && (forall r: nat :: r != reg ==> Get(regs', r) == Get(regs, r))
  }

  /** The run o of the code so far, and the run o' of code that also puts the value in reg. */
  ghost predicate Placed(o: Outcome, value: Option<Res>, stops: set<nat>, reg: nat, o': Outcome, n': nat) {
    match o
    case Fail(_) => o' == o
    case Stuck => true
    case Exit(pc, regs, w) =>
      if pc in stops then o' == o
      else
        match value
        case None => true
        case Some(Err(w')) => o' == Fail(w')
        case Some(Ok(v, w')) => o'.Exit? && o'.pc == n' && o'.w == w' && Put(regs, o'.regs, reg, v)
  }

  function ValueAt(c: Ctx, code: seq<Instr>, k: Kind, o: Outcome): Option<Res> {
    if o.Exit? then KindValue(c, code, k, o.pc, o.regs, o.w) else None
  }

  // ---------- what stays ----------

  ghost predicate Lists(code: seq<Instr>, t: seq<nat>, f: seq<nat>, outer: set<nat>) {
    && ListOK(code, t) && ListOK(code, f) && Controlled(code, outer)
    && Elems(t) !! Elems(f) !! outer
  }

  /** All pending positions but the one of the kind. */
  function Waiting(e: Desc, outer: set<nat>): set<nat> {
    Elems(e.t) + Elems(e.f) + outer
  }

  lemma ListsKept(code: seq<Instr>, code': seq<Instr>, t: seq<nat>, f: seq<nat>, outer: set<nat>, touched: set<nat>)
    requires Lists(code, t, f, outer) && Frame(code, code', touched) && Jumps(code, touched)
    requires touched !! Elems(t) + Elems(f) + outer
    ensures Lists(code', t, f, outer) && Kept(code, code', Elems(t) + Elems(f) + outer)
  {
    hide Frame;
    hide Chain;
    hide NoDup;
    ListKept(code, code', t, touched);
    ListKept(code, code', f, touched);
    ControlledKept(code, code', outer, touched);
    ControlledKept(code, code', Elems(t), touched);
    ControlledKept(code, code', Elems(f), touched);
  }

  /** Cutting off instructions that are no pending jumps. */
  lemma ListsPrefix(code: seq<Instr>, k: nat, t: seq<nat>, f: seq<nat>, outer: set<nat>)
    requires Lists(code, t, f, outer) && k <= |code|
    requires forall p: nat :: p in Elems(t) + Elems(f) + outer ==> p < k
    ensures Lists(code[..k], t, f, outer) && Kept(code, code[..k], Elems(t) + Elems(f) + outer)
  {
    forall p: nat | p in Elems(t) + Elems(f) + outer
      ensures ControlledAt(code[..k], p) && KeptAt(code, code[..k], p)
    {
      assert ControlledAt(code, p);
    }
    forall p: nat | p in Elems(t) || p in Elems(f) ensures p < k {
      assert p in Elems(t) + Elems(f) + outer;
    }
    ChainPrefix(code, k, t);
    ChainPrefix(code, k, f);
  }

  lemma ChainPrefix(code: seq<Instr>, k: nat, l: seq<nat>)
    requires Chain(code, l) && k <= |code| && (forall p: nat :: p in Elems(l) ==> p < k)
    ensures Chain(code[..k], l)
  {
    forall i | 0 <= i < |l| ensures l[i] < k && code[..k][l[i]] == Jmp(LinkOffset(l, i)) {
      assert l[i] in Elems(l) && code[l[i]] == Jmp(LinkOffset(l, i));
    }
  }

  lemma KeptTwice(a: seq<Instr>, b: seq<Instr>, d: seq<Instr>, outer: set<nat>)
    requires Kept(a, b, outer) && Kept(b, d, outer)
    ensures Kept(a, d, outer)
  {
    forall p: nat | p in outer ensures KeptAt(a, d, p) {
      assert KeptAt(a, b, p) && KeptAt(b, d, p);
    }
  }

  /** The invariant without the register discipline of the descriptor. */
  ghost predicate Core(s: State, e: Desc, outer: set<nat>) {
    && Base(s, Waiting(e, outer) + KStops(e.k))
    && Lists(s.code, e.t, e.f, outer)
    && KStops(e.k) !! Waiting(e, outer)
    && KindCode(s, e.k)
    && StackOK(s)
  }

  /** The code that a kind relies on. */
  ghost predicate KindCode(s: State, k: Kind) {
    match k
    case VReloc(pc) => pc + 1 == |s.code| && Relocatable(s.code[pc]) && s.jpc == [] && s.lasttarget <= pc
    case VJmp(pc) =>
      1 <= pc < |s.code| && s.code[pc] == Jmp(NO_JUMP) && s.code[pc - 1].Cmp? && s.jpc == []
        && s.lasttarget < pc
    case VK(i) => i < |s.kst|
    case VKFlt(x) => x != NaN && x != NegZero
    case _ => true
  }

  /** The run starts at or before the open instructions. */
  ghost predicate Started(c: Ctx, s: State, k: Kind) {
    && Entry(s.code, c.start)
    && (c.start < |s.code| || s.lasttarget >= |s.code| || !s.code[|s.code| - 1].LoadNil?)
    && (k.VReloc? ==> c.start <= k.pc)
    && (k.VJmp? ==> c.start < k.pc)
  }

  /** What a step of the generator leaves alone. */
  ghost predicate Advance(s: State, s': State, outer: set<nat>) {
    && |s.code| <= |s'.code| && Kept(s.code, s'.code, outer)
    && s.kst <= s'.kst && (s.failed ==> s'.failed)
    && s.maxstack <= s'.maxstack && s'.nactvar == s.nactvar
  }

  lemma AdvanceTwice(a: State, b: State, d: State, outer: set<nat>)
    requires Advance(a, b, outer) && Advance(b, d, outer)
    ensures Advance(a, d, outer)
  {
    KeptTwice(a.code, b.code, d.code, outer);
  }

  // ---------- discharging ----------

  lemma StackSame(s: State, s': State)
    requires StackOK(s) && s'.nactvar == s.nactvar && s'.freereg == s.freereg && s'.maxstack == s.maxstack
    requires s'.kst == s.kst
    requires s.failed ==> s'.failed
    ensures StackOK(s')
  {
  }

  /** Emitting a plain instruction after an expression that is not itself open. */
  lemma EmitAfter(c: Ctx, s: State, e: Desc, i: Instr, outer: set<nat>)
    requires Core(s, e, outer) && Started(c, s, e.k) && KStops(e.k) == {} && Plain(i)
    ensures var s', stops := Emit(s, i), Waiting(e, outer);
      && Base(s', stops) && Lists(s'.code, e.t, e.f, outer) && Entry(s'.code, c.start) && c.start < |s'.code|
      && |s'.code| == |s.code| + 1 && s'.jpc == [] && s'.lasttarget == s.lasttarget && s'.freereg == s.freereg
      && Advance(s, s', stops) && StackOK(s') && s'.kst == s.kst
      && RunS(c, s', stops) == AfterStep(c, RunS(c, s, stops), |s.code|, i)
  {
    hide Run;
    hide Step;
    hide Closed;
    hide Frame;
    hide Chain;
    var stops := Waiting(e, outer);
    assert stops + {} == stops;
    EmitPlain(c, s, i, stops);
    ChainJumps(s.code, s.jpc);
    ListsKept(s.code, Emit(s, i).code, e.t, e.f, outer, Elems(s.jpc));
    StackSame(s, Emit(s, i));
  }

  lemma RelocStep(c: Ctx, i: Instr, reg: nat, pc: nat, regs: Regs, w: World)
    requires Relocatable(i)
    ensures Step(c.m, c.kst, WithA(i, reg), pc, regs, w) ==
      match ExecVal(c.m, c.kst, i, regs, w) {
        case Ok(v, w') => Goto(pc + 1, regs[reg := v], w')
        case Err(w') => Raise(w')
      }
  {
  }

  /** The changed last instruction: lists, frame and stack. */
  lemma ReplaceAfter(c: Ctx, s: State, e: Desc, i: Instr, outer: set<nat>)
    requires Core(s, e, outer) && Started(c, s, e.k) && |s.code| > 0 && s.lasttarget < |s.code| && c.start < |s.code|
    requires KStops(e.k) <= {|s.code| - 1}
    requires !s.code[|s.code| - 1].Jmp? && !s.code[|s.code| - 1].LoadBool? && Plain(i) && !i.LoadBool?
    ensures var s', stops, n := s.(code := s.code[|s.code| - 1 := i]), Waiting(e, outer), |s.code| - 1;
      && Base(s', stops) && Lists(s'.code, e.t, e.f, outer) && Entry(s'.code, c.start)
      && Advance(s, s', stops) && StackOK(s') && s.jpc == []
      && (var o0 := RunC(c, s.code[..n], stops);
          && RunS(c, s', stops) == AfterStep(c, o0, n, i)
          && RunS(c, s, stops + KStops(e.k)) == Then(c.m, c.kst, o0, n, s.code, stops + KStops(e.k))
          && (o0.Exit? ==> o0.pc <= n))
  {
    hide Run;
    hide Step;
    hide Closed;
    var n, stops := |s.code| - 1, Waiting(e, outer);
    var s', all := s.(code := s.code[n := i]), stops + KStops(e.k);
    forall p: nat | p in stops ensures p < n {
      assert ControlledAt(s.code, p);
    }
    assert all - {n} == stops;
    ReplaceLast(c, s, i, all, stops);
    ListsPrefix(s.code, n, e.t, e.f, outer);
    ListsKept(s.code[..n], s'.code, e.t, e.f, outer, {});
    KeptTwice(s.code, s.code[..n], s'.code, stops);
    StackSame(s, s');
  }

  /** `VRELOCABLE`: the open instruction gets its register. */
  lemma PlaceReloc(c: Ctx, s: State, e: Desc, reg: nat, outer: set<nat>)
    requires Core(s, e, outer) && Started(c, s, e.k) && e.k.VReloc?
    ensures var s', stops := s.(code := SetA(s.code, e.k.pc, reg)), Waiting(e, outer);
      && Base(s', stops) && Lists(s'.code, e.t, e.f, outer) && Entry(s'.code, c.start) && c.start < |s'.code|
      && Advance(s, s', stops) && StackOK(s')
      && (var o := RunS(c, s, stops + KStops(e.k));
          Placed(o, ValueAt(c, s.code, e.k, o), stops, reg, RunS(c, s', stops), |s'.code|))
  {
    hide Run;
    hide Step;
    hide Closed;
    hide ExecVal;
    hide Base;
    hide Lists;
    hide Advance;
    var pc, stops := e.k.pc, Waiting(e, outer);
    var i, all := WithA(s.code[pc], reg), stops + {pc};
    ReplaceAfter(c, s, e, i, outer);
    var o0 := RunC(c, s.code[..pc], stops);
    ThenStop(c, o0, pc, s.code, all);
    if o0.Exit? && o0.pc == pc {
      RelocStep(c, s.code[pc], reg, pc, o0.regs, o0.w);
    }
  }

  /** A merged LOADNIL has the effect of the two separate ones. */
  lemma MergeNilSound(i: Instr, from: nat, n: nat, regs: Regs)
    requires n >= 1 && CanMergeNil(i, from, n)
    ensures var j := MergeNil(i, from, n);
      && j.LoadNil?
      && SetNil(regs, j.a, j.count) == SetNil(SetNil(regs, i.a, i.count), from, n - 1)
  {
    hide SetNil;
    var j := MergeNil(i, from, n);
    var x, y := SetNil(regs, j.a, j.count), SetNil(SetNil(regs, i.a, i.count), from, n - 1);
    assert forall r :: r in x <==> r in y;
    assert forall r :: r in x ==> x[r] == y[r];
  }

  lemma NilPut(regs: Regs, reg: nat)
    ensures Put(regs, SetNil(regs, reg, 0), reg, Nil)
  {
  }

  /** `luaK_nil`, whether it emits an instruction or extends the previous one. */
  lemma PlaceNil(c: Ctx, s: State, e: Desc, reg: nat, outer: set<nat>)
    requires Core(s, e, outer) && Started(c, s, e.k) && e.k.VNil?
    ensures var s', stops := CodeNil(s, reg, 1), Waiting(e, outer);
      && Base(s', stops) && Lists(s'.code, e.t, e.f, outer) && Entry(s'.code, c.start) && c.start < |s'.code|
      && s'.freereg == s.freereg
      && Advance(s, s', stops) && StackOK(s')
      && (var o := RunS(c, s, stops + KStops(e.k));
          Placed(o, ValueAt(c, s.code, e.k, o), stops, reg, RunS(c, s', stops), |s'.code|))
  {
    hide Run;
    hide Closed;
    hide Lists;
    hide Advance;
    var n, stops := |s.code|, Waiting(e, outer);
    var s' := CodeNil(s, reg, 1);
    assert stops + KStops(e.k) == stops;
    if n > s.lasttarget && CanMergeNil(s.code[n - 1], reg, 1) {
      MergeNilRun(c, s, e, reg, outer);
    } else {
      EmitAfter(c, s, e, LoadNil(reg, 0), outer);
      var o := RunS(c, s, stops);
      if o.Exit? && o.pc == n {
        NilPut(o.regs, reg);
      }
    }
  }

  lemma MergeNilRun(c: Ctx, s: State, e: Desc, reg: nat, outer: set<nat>)
    requires Core(s, e, outer) && Started(c, s, e.k) && e.k.VNil?
    requires |s.code| > s.lasttarget && CanMergeNil(s.code[|s.code| - 1], reg, 1)
    ensures var s', stops := CodeNil(s, reg, 1), Waiting(e, outer);
      && Base(s', stops) && Lists(s'.code, e.t, e.f, outer) && Entry(s'.code, c.start) && c.start < |s'.code|
      && s'.freereg == s.freereg
      && Advance(s, s', stops) && StackOK(s')
      && (var o := RunS(c, s, stops);
          Placed(o, ValueAt(c, s.code, e.k, o), stops, reg, RunS(c, s', stops), |s'.code|))
  {
    var k, stops := |s.code| - 1, Waiting(e, outer);
    assert stops + {} == stops && |s.code| !in stops;
    hide Run;
    hide Closed;
    hide Lists;
    hide Advance;
    hide Base;
    hide SetNil;
    var i := s.code[k];
    var j := MergeNil(i, reg, 1);
    ReplaceAfter(c, s, e, j, outer);
    var o0 := RunC(c, s.code[..k], stops);
    WaitingBelow(s, e, outer);
    RunLast(c, s.code, stops, o0);
    if o0.Exit? && o0.pc == k {
      MergeNilSound(i, reg, 1, o0.regs);
      NilPut(SetNil(o0.regs, i.a, i.count), reg);
    }
  }

  lemma WaitingBelow(s: State, e: Desc, outer: set<nat>)
    requires Core(s, e, outer) && |s.code| > 0 && !s.code[|s.code| - 1].Jmp?
    ensures |s.code| - 1 !in Waiting(e, outer)
  {
    var k: nat := |s.code| - 1;
    if k in Waiting(e, outer) {
      assert ControlledAt(s.code, k);
    }
  }

  /** The other kinds: one plain instruction that loads the value. */
  lemma PlaceEmit(c: Ctx, s: State, e: Desc, i: Instr, reg: nat, outer: set<nat>)
    requires Core(s, e, outer) && Started(c, s, e.k)
    requires match e.k {
        case VTrue => i == LoadBool(reg, true, false)
        case VFalse => i == LoadBool(reg, false, false)
        case VK(info) => i == LoadK(reg, info)
        case VKInt(n) => i.LoadK? && i.a == reg && i.bx < |c.kst| && c.kst[i.bx] == Number(I(n))
        case VKFlt(x) => i.LoadK? && i.a == reg && i.bx < |c.kst| && c.kst[i.bx] == Number(F(x))
        case VNonReloc(r) => i == Move(reg, r)
        case _ => false
      }
    ensures var s', stops := Emit(s, i), Waiting(e, outer);
      && Base(s', stops) && Lists(s'.code, e.t, e.f, outer) && Entry(s'.code, c.start) && c.start < |s'.code|
      && s'.freereg == s.freereg && s'.kst == s.kst
      && Advance(s, s', stops) && StackOK(s')
      && (var o := RunS(c, s, stops + KStops(e.k));
          Placed(o, ValueAt(c, s.code, e.k, o), stops, reg, RunS(c, s', stops), |s'.code|))
  {
    hide Run;
    hide Closed;
    hide Lists;
    hide Advance;
    assert Waiting(e, outer) + KStops(e.k) == Waiting(e, outer);
    EmitAfter(c, s, e, i, outer);
  }

  lemma CoreConst(s: State, s': State, e: Desc, outer: set<nat>)
    requires Core(s, e, outer) && s' == s.(kst := s'.kst, cache := s'.cache, failed := s'.failed) && StackOK(s')
    requires s.kst <= s'.kst
    ensures Core(s', e, outer)
  {
  }

  /** A numeric constant, moved to the table first. */
  lemma PlaceConst(c: Ctx, s: State, e: Desc, v: Value, reg: nat, outer: set<nat>)
    requires Core(s, e, outer) && Started(c, s, e.k) && LoadConst(s, v, reg).kst <= c.kst
    requires (e.k.VKInt? && v == Number(I(e.k.ival))) || (e.k.VKFlt? && v == Number(F(e.k.nval)))
    ensures var s', stops := LoadConst(s, v, reg), Waiting(e, outer);
      && Base(s', stops) && Lists(s'.code, e.t, e.f, outer) && Entry(s'.code, c.start) && c.start < |s'.code|
      && s'.freereg == s.freereg
      && Advance(s, s', stops) && StackOK(s')
      && (var o := RunS(c, s, stops + KStops(e.k));
          Placed(o, ValueAt(c, s.code, e.k, o), stops, reg, RunS(c, s', stops), |s'.code|))
  {
    hide Run;
    hide Closed;
    hide Lists;
    hide Base;
    AddKSound(s, v);
    AddKExact(s, v);
    var (s1, k) := AddK(s, v);
    CoreConst(s, s1, e, outer);
    hide Core;
    hide AddK;
    EmitKst(s1, e, LoadK(reg, k), outer);
    PlaceEmit(c, s1, e, LoadK(reg, k), reg, outer);
  }

  lemma EmitKst(s: State, e: Desc, i: Instr, outer: set<nat>)
    requires Core(s, e, outer)
    ensures Emit(s, i).kst == s.kst
  {
    ChainJumps(s.code, s.jpc);
    PatchListPatched(s, s.jpc, |s.code|, NO_REG, |s.code|);
  }

  /** `discharge2reg`: afterwards the run has the value in reg, wherever it was delayed. */
  lemma PlaceValue(c: Ctx, s: State, e: Desc, reg: nat, outer: set<nat>)
    requires Core(s, e, outer) && Started(c, s, e.k) && !e.k.VJmp? && Discharge2Reg(s, e, reg).0.kst <= c.kst
    ensures var (s', e') := Discharge2Reg(s, e, reg); var stops := Waiting(e, outer);
      && e' == e.(k := VNonReloc(reg))
      && Base(s', stops) && Lists(s'.code, e.t, e.f, outer) && Started(c, s', e'.k)
      && s'.freereg == s.freereg
      && Advance(s, s', stops) && StackOK(s')
      && (var o := RunS(c, s, stops + KStops(e.k));
          Placed(o, ValueAt(c, s.code, e.k, o), stops, reg, RunS(c, s', stops), |s'.code|))
  {
    hide Run;
    hide Closed;
    hide Lists;
    hide Base;
    hide Emit;
    hide LoadConst;
    hide CodeNil;
    match e.k
    case VNil => PlaceNil(c, s, e, reg, outer);
    case VTrue => PlaceEmit(c, s, e, LoadBool(reg, true, false), reg, outer);
    case VFalse => PlaceEmit(c, s, e, LoadBool(reg, false, false), reg, outer);
    case VK(info) => PlaceEmit(c, s, e, LoadK(reg, info), reg, outer);
    case VKFlt(x) => PlaceConst(c, s, e, Number(F(x)), reg, outer);
    case VKInt(i) => PlaceConst(c, s, e, Number(I(i)), reg, outer);
    case VReloc(_) => PlaceReloc(c, s, e, reg, outer);
    case VNonReloc(r) => PlaceMove(c, s, e, r, reg, outer);
    case VLocal(r) =>
      CoreLocal(c, s, e, outer);
      PlaceMove(c, s, DischargeVars(e), r, reg, outer);
  }

  /** `luaK_dischargevars` changes nothing but the kind. */
  lemma CoreLocal(c: Ctx, s: State, e: Desc, outer: set<nat>)
    requires Core(s, e, outer) && Started(c, s, e.k)
    ensures Core(s, DischargeVars(e), outer) && Started(c, s, DischargeVars(e).k)
    ensures KStops(DischargeVars(e).k) == KStops(e.k) && Waiting(DischargeVars(e), outer) == Waiting(e, outer)
    ensures forall o :: ValueAt(c, s.code, DischargeVars(e).k, o) == ValueAt(c, s.code, e.k, o)
  {
  }

  lemma PlaceMove(c: Ctx, s: State, e: Desc, r: nat, reg: nat, outer: set<nat>)
    requires Core(s, e, outer) && Started(c, s, e.k) && e.k == VNonReloc(r)
    ensures var s', stops := if r != reg then Emit(s, Move(reg, r)) else s, Waiting(e, outer);
      && Base(s', stops) && Lists(s'.code, e.t, e.f, outer) && Started(c, s', e.k)
      && s'.freereg == s.freereg
      && Advance(s, s', stops) && StackOK(s')
      && (var o := RunS(c, s, stops + KStops(e.k));
          Placed(o, ValueAt(c, s.code, e.k, o), stops, reg, RunS(c, s', stops), |s'.code|))
  {
    hide Run;
    hide Closed;
    hide Emit;
    var stops := Waiting(e, outer);
    assert stops + KStops(e.k) == stops;
    if r != reg {
      PlaceEmit(c, s, e, Move(reg, r), reg, outer);
    } else {
      KeptSelf(s, e, outer);
    }
  }

  lemma KeptSelf(s: State, e: Desc, outer: set<nat>)
    requires Lists(s.code, e.t, e.f, outer)
    ensures Advance(s, s, Waiting(e, outer))
  {
    forall p: nat | p in Waiting(e, outer) ensures KeptAt(s.code, s.code, p) {
      assert ControlledAt(s.code, p);
    }
  }
}
