/** What every step of the code generator keeps: the pending jumps form disjoint chains
    through the code, all other jumps lead forward, and registers are used as a stack. */
module LcodeInv {
  import opened LuaVM
  import opened LcodeSpec
  import opened LcodeRun

  function Elems(l: seq<nat>): set<nat> {
    set x | x in l
  }

  ghost predicate NoDup(l: seq<nat>) {
    forall i, j :: 0 <= i < j < |l| ==> l[i] != l[j]
  }

  /** The offset stored in the jump at l[i]. */
  function LinkOffset(l: seq<nat>, i: nat): int
    requires i < |l|
  {
    if i + 1 < |l| then l[i + 1] as int - (l[i] + 1) else NO_JUMP
  }

  /** Following the jumps from l[0] visits exactly l. */
  ghost predicate Chain(code: seq<Instr>, l: seq<nat>) {
    forall i :: 0 <= i < |l| ==> l[i] < |code| && code[l[i]] == Jmp(LinkOffset(l, i))
  }

  ghost predicate ControlledAt(code: seq<Instr>, p: nat) {
    1 <= p < |code| && code[p].Jmp? && TMode(code[p - 1]) && UnsetAt(code, p)
  }

  /** Each of these is a jump under the control of a test that writes no register yet. */
  ghost predicate Controlled(code: seq<Instr>, stops: set<nat>) {
    forall p: nat :: p in stops ==> ControlledAt(code, p)
  }

  ghost predicate ListOK(code: seq<Instr>, l: seq<nat>) {
    NoDup(l) && Controlled(code, Elems(l)) && Chain(code, l)
  }

  /** The code and the jumps pending to its end; `stops` are the other pending positions. */
  ghost predicate Base(s: State, stops: set<nat>) {
    && s.lasttarget <= |s.code|
    && Closed(s.code, stops + Elems(s.jpc), s.lasttarget)
    && Elems(s.jpc) !! stops
    && NoDup(s.jpc) && Chain(s.code, s.jpc) && Unset(s.code, Elems(s.jpc))
    && (s.jpc != [] ==> s.lasttarget == |s.code|)
    && (|s.code| > 0 ==> !TMode(s.code[|s.code| - 1]))
    && (forall p :: p in stops ==> p < |s.code|)
  }

  /** The one position at which the code of a delayed value is still open. */
  function KStops(k: Kind): set<nat> {
    match k
    case VJmp(pc) => {pc}
    case VReloc(pc) => {pc}
    case _ => {}
  }

  ghost predicate PlainConst(v: Value) {
    v != Number(F(NaN)) && v != Number(F(NegZero))
  }

  ghost predicate StackOK(s: State) {
    && s.nactvar <= s.freereg <= s.maxstack
    && (s.failed || s.maxstack < MAXREGS)
    && (forall i :: 0 <= i < |s.kst| ==> PlainConst(s.kst[i]))
  }

  ghost predicate KeptAt(code: seq<Instr>, code': seq<Instr>, p: nat) {
    1 <= p < |code| && p < |code'| && code'[p] == code[p] && code'[p - 1] == code[p - 1]
  }

  /** The suspended jumps and their tests are untouched. */
  ghost predicate Kept(code: seq<Instr>, code': seq<Instr>, outer: set<nat>) {
    forall p: nat :: p in outer ==> KeptAt(code, code', p)
  }

  /** The instruction at p is a touched jump or a test that controls one. */
  predicate MayDiffer(code: seq<Instr>, touched: set<nat>, p: nat)
    requires p < |code|
  {
    p in touched || (p + 1 in touched && TMode(code[p]))
  }

  /** Only the touched jumps and the tests controlling them differ. */
  ghost predicate Frame(code: seq<Instr>, code': seq<Instr>, touched: set<nat>) {
    && |code| <= |code'|
    && (forall p: nat :: p < |code| && !MayDiffer(code, touched, p) ==> code'[p] == code[p])
    && (forall p: nat :: p < |code| ==> TMode(code'[p]) == TMode(code[p]))
  }

  // ---------- lists ----------

  lemma ListKept(code: seq<Instr>, code': seq<Instr>, l: seq<nat>, touched: set<nat>)
    requires ListOK(code, l) && Frame(code, code', touched) && touched !! Elems(l)
    requires Jumps(code, touched)
    ensures ListOK(code', l)
  {
    ControlledKept(code, code', Elems(l), touched);
    forall i | 0 <= i < |l| ensures code'[l[i]] == code[l[i]] {
      assert l[i] in Elems(l);
    }
  }

  lemma ControlledKept(code: seq<Instr>, code': seq<Instr>, outer: set<nat>, touched: set<nat>)
    requires Controlled(code, outer) && Frame(code, code', touched) && touched !! outer
    requires Jumps(code, touched)
    ensures Controlled(code', outer) && Kept(code, code', outer)
  {
    forall p: nat | p in outer ensures KeptAt(code, code', p) && ControlledAt(code', p) {
      assert ControlledAt(code, p);
      var c: nat := p - 1;
      assert !MayDiffer(code, touched, p) && !MayDiffer(code, touched, c);
      assert code'[p] == code[p] && code'[c] == code[c];
    }
  }

  lemma ChainJumps(code: seq<Instr>, l: seq<nat>)
    requires Chain(code, l)
    ensures Jumps(code, Elems(l))
  {
    forall p | p in Elems(l) ensures p < |code| && code[p].Jmp? {
      var i :| 0 <= i < |l| && l[i] == p;
    }
  }

  lemma ElemsAppend(a: seq<nat>, b: seq<nat>)
    ensures Elems(a + b) == Elems(a) + Elems(b)
  {
  }

  lemma NoDupAppend(a: seq<nat>, b: seq<nat>)
    requires NoDup(a) && NoDup(b) && Elems(a) !! Elems(b)
    ensures NoDup(a + b)
  {
    forall i, j | 0 <= i < j < |a + b| ensures (a + b)[i] != (a + b)[j] {
      if i < |a| <= j {
        assert a[i] in Elems(a) && b[j - |a|] in Elems(b);
      }
    }
  }

  /** `luaK_concat` yields the chain of both lists and changes one pending jump only. */
  lemma LinkChain(s: State, a: seq<nat>, b: seq<nat>)
    requires Chain(s.code, a) && Chain(s.code, b) && NoDup(a) && NoDup(b) && Elems(a) !! Elems(b)
    ensures var s' := Link(s, a, b);
      && Chain(s'.code, a + b) && NoDup(a + b) && Elems(a + b) == Elems(a) + Elems(b)
      && |s'.code| == |s.code|
      && (forall p: nat :: p < |s.code| && p !in Elems(a) ==> s'.code[p] == s.code[p])
      && (forall p: nat :: p in Elems(a) ==> p < |s.code| && s'.code[p].Jmp?)
      && s' == s.(code := s'.code, failed := s'.failed) && (s.failed ==> s'.failed)
  {
    NoDupAppend(a, b);
    ElemsAppend(a, b);
    ChainJumps(s.code, a);
    if a == [] {
      assert a + b == b;
    } else if b == [] {
      assert a + b == a;
    } else {
      var last := a[|a| - 1];
      assert last in Elems(a) && b[0] in Elems(b);
      var code' := SetJump(s.code, last, b[0]);
      forall i | 0 <= i < |a + b|
        ensures (a + b)[i] < |code'| && code'[(a + b)[i]] == Jmp(LinkOffset(a + b, i))
      {
        LinkChainAt(s.code, a, b, i);
      }
    }
  }

  lemma LinkChainAt(code: seq<Instr>, a: seq<nat>, b: seq<nat>, i: nat)
    requires Chain(code, a) && Chain(code, b) && NoDup(a + b) && a != [] && b != [] && i < |a + b|
    ensures var code' := SetJump(code, a[|a| - 1], b[0]);
      (a + b)[i] < |code'| && code'[(a + b)[i]] == Jmp(LinkOffset(a + b, i))
  {
    hide Chain;
    hide NoDup;
    var l := a + b;
    var k := |a| - 1;
    assert l[k] == a[k];
    ChainAt(code, a, k);
    if i != k {
      NoDupAt(l, i, k);
    }
    if i < |a| {
      assert l[i] == a[i];
      ChainAt(code, a, i);
    } else {
      assert l[i] == b[i - |a|];
      ChainAt(code, b, i - |a|);
    }
  }

  lemma ChainAt(code: seq<Instr>, l: seq<nat>, i: nat)
    requires Chain(code, l) && i < |l|
    ensures l[i] < |code| && code[l[i]] == Jmp(LinkOffset(l, i))
  {
  }

  lemma NoDupAt(l: seq<nat>, i: nat, j: nat)
    requires NoDup(l) && i < |l| && j < |l| && i != j
    ensures l[i] != l[j]
  {
  }

  // ---------- patching ----------

  lemma ProducingAt(code: seq<Instr>, p: nat)
    requires p < |code| && code[p].Jmp?
    ensures Producing(code, p) <==> 1 <= p && code[p - 1].TestSet?
  {
  }

  lemma PatchOneAt(s: State, p: nat, vtarget: int, reg: nat, dtarget: int)
    requires p < |s.code| && s.code[p].Jmp?
    ensures var s' := PatchOne(s, p, vtarget, reg, dtarget);
      Patched(s.code, s'.code, {p}, vtarget, reg, dtarget)
      && s' == s.(code := s'.code, failed := s'.failed) && (s.failed ==> s'.failed)
  {
    ProducingAt(s.code, p);
  }

  /** Patching one list after another. */
  lemma PatchedUnion(c0: seq<Instr>, c1: seq<Instr>, c2: seq<Instr>, a: set<nat>, b: set<nat>, vtarget: int, reg: nat,
                     dtarget: int)
    requires Patched(c0, c1, a, vtarget, reg, dtarget) && Patched(c1, c2, b, vtarget, reg, dtarget)
    requires a !! b && Jumps(c0, a) && Jumps(c0, b)
    ensures Patched(c0, c2, a + b, vtarget, reg, dtarget) && Jumps(c1, b)
  {
    forall p: nat | p < |c0| ensures c2[p] == PatchedInstr(c0, a + b, vtarget, reg, dtarget, p) {
      assert c1[p] == PatchedInstr(c0, a, vtarget, reg, dtarget, p);
      assert c2[p] == PatchedInstr(c1, b, vtarget, reg, dtarget, p);
      if p in b {
        ProducingAt(c0, p);
        ProducingAt(c1, p);
        if p >= 1 {
          var q: nat := p - 1;
          assert c1[q] == PatchedInstr(c0, a, vtarget, reg, dtarget, q);
        }
      }
    }
    forall p: nat | p in b ensures p < |c1| && c1[p].Jmp? {
      assert c1[p] == PatchedInstr(c0, a, vtarget, reg, dtarget, p);
    }
  }

  /** `patchlistaux` redirects exactly the listed jumps. */
  lemma {:induction false} PatchListPatched(s: State, l: seq<nat>, vtarget: int, reg: nat, dtarget: int)
    requires NoDup(l) && Jumps(s.code, Elems(l))
    ensures var s' := PatchList(s, l, vtarget, reg, dtarget);
      Patched(s.code, s'.code, Elems(l), vtarget, reg, dtarget)
      && s' == s.(code := s'.code, failed := s'.failed) && (s.failed ==> s'.failed)
    decreases |l|
  {
    if l != [] {
      var rest := l[1..];
      assert l[0] in Elems(l) && Elems(l) == {l[0]} + Elems(rest);
      PatchOneAt(s, l[0], vtarget, reg, dtarget);
      var s1 := PatchOne(s, l[0], vtarget, reg, dtarget);
      forall p | p in Elems(rest) ensures p < |s1.code| && s1.code[p].Jmp? && p != l[0] {
        assert s1.code[p] == PatchedInstr(s.code, {l[0]}, vtarget, reg, dtarget, p);
      }
      PatchListPatched(s1, rest, vtarget, reg, dtarget);
      PatchedUnion(s.code, s1.code, PatchList(s1, rest, vtarget, reg, dtarget).code, {l[0]}, Elems(rest), vtarget,
                   reg, dtarget);
    }
  }

  lemma PatchedFrame(code: seq<Instr>, code': seq<Instr>, list: set<nat>, vtarget: int, reg: nat, dtarget: int)
    requires Patched(code, code', list, vtarget, reg, dtarget) && Jumps(code, list)
    ensures Frame(code, code', list)
  {
    forall p: nat | p < |code| ensures TMode(code'[p]) == TMode(code[p])
      && (!MayDiffer(code, list, p) ==> code'[p] == code[p])
    {
      assert code'[p] == PatchedInstr(code, list, vtarget, reg, dtarget, p);
    }
  }

  lemma PatchedClosed(code: seq<Instr>, code': seq<Instr>, stops: set<nat>, list: set<nat>, vtarget: int, reg: nat,
                      dtarget: int, last: nat, last': nat)
    requires Closed(code, stops + list, last) && last <= last'
    requires stops !! list && Patched(code, code', list, vtarget, reg, dtarget) && Jumps(code, list)
    requires forall p: nat :: p in list ==>
      TargetOK(code, p, Target(code, p, vtarget, dtarget)) && Target(code, p, vtarget, dtarget) <= last'
    ensures Closed(code', stops, last')
  {
    PatchedFrame(code, code', list, vtarget, reg, dtarget);
    forall p: nat | p < |code'| ensures SafeAt(code', stops, last', p) {
      assert SafeAt(code, stops + list, last, p);
      assert code'[p] == PatchedInstr(code, list, vtarget, reg, dtarget, p);
      if p + 1 < |code| {
        var q: nat := p + 1;
        assert code'[q] == PatchedInstr(code, list, vtarget, reg, dtarget, q);
      }
      if p in list {
        var t: nat := Target(code, p, vtarget, dtarget) - 1;
        assert TMode(code'[t]) == TMode(code[t]);
      } else if code[p].Jmp? && p !in stops {
        var t: nat := p + code[p].sbx;
        assert TMode(code'[t]) == TMode(code[t]);
      }
    }
  }
}
