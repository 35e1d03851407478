/** The code generator as it is written: an object whose fields the functions update, with
    the patch lists threaded through the jump instructions. */
module FuncStates {
  import opened LuaVM
  import opened LuaExpr
  import opened LcodeSpec
  import opened LcodeGrow
  import opened LcodeInv
  import opened LcodePlace
  import opened LcodeExpr
  import opened LcodeOps
  import opened LcodeCond
  import opened LcodeBinary
  import opened LcodeLate
  import opened LcodeCompile
  import opened LcodeMain
  import opened LcodeSteps
  import opened LcodeFits

  /** An expression descriptor; `tl` and `fl` are the lists that `t` and `f` head. */
  class ExpDesc {
    var k: Kind
    var t: int
    var f: int
    ghost var tl: seq<nat>
    ghost var fl: seq<nat>

    ghost function View(): Desc
      reads this
    {
      Desc(k, tl, fl)
    }

    ghost predicate Heads()
      reads this
    {
      t == Head(tl) && f == Head(fl)
    }

    constructor (k: Kind)
      ensures View() == Desc(k, [], []) && Heads()
    {
      this.k, t, f := k, NO_JUMP, NO_JUMP;
      tl, fl := [], [];
    }
  }

  /** The state of the parser that all its functions share. */
  class LexState {
    var nCcalls: nat           // C levels in use
    var refused: bool          // one of the parser's limits was exceeded

    constructor (used: nat)
      ensures nCcalls == used && !refused
    {
      nCcalls, refused := used, false;
    }

    /** `checklimit` */
    method CheckLimit(v: nat, limit: nat)
      modifies this`refused
      ensures refused == (old(refused) || v > limit)
    {
      if v > limit {
        refused := true;
      }
    }

    /** `enterlevel` */
    method EnterLevel()
      modifies this
      ensures nCcalls == old(nCcalls) + 1 && refused == (old(refused) || nCcalls > MAXCCALLS)
    {
      nCcalls := nCcalls + 1;
      CheckLimit(nCcalls, MAXCCALLS);
    }

    /** `leavelevel` */
    method LeaveLevel()
      requires nCcalls > 0
      modifies this`nCcalls
      ensures nCcalls == old(nCcalls) - 1
    {
      nCcalls := nCcalls - 1;
    }
  }

  class FuncState {
    const ls: LexState
    const m: Machine           // does the arithmetic of constant folding
    var code: seq<Instr>       // `pc` is its length
    var jpc: int
    var lasttarget: nat
    var freereg: nat
    var nactvar: nat
    var maxstack: nat
    var kst: seq<Value>
    var cache: map<Key, Slot>
    var failed: bool           // a syntax error was raised
    ghost var jpcl: seq<nat>   // the list that `jpc` heads
    ghost var outer: set<nat>  // the pending jumps of expressions that are set aside

    /** `open_func`, with n parameters */
    constructor (ls: LexState, m: Machine, n: nat, cache: map<Key, Slot>)
      ensures View() == Opened(n, cache) && this.m == m && this.ls == ls && jpc == NO_JUMP && outer == {}
    {
      this.ls, this.m := ls, m;
      code, jpc, lasttarget := [], NO_JUMP, 0;
      freereg, nactvar, maxstack := n, n, if n > 2 then n else 2;
      kst, this.cache, failed := [], cache, false;
      jpcl, outer := [], {};
    }

    ghost function View(): State
      reads this
    {
      State(code, jpcl, lasttarget, freereg, nactvar, maxstack, kst, cache, failed)
    }

    // ---------- jump lists ----------

    /** `getjump` */
    function GetJump(pc: nat): int
      reads this
      requires pc < |code| && code[pc].Jmp?
    {
      if code[pc].sbx == NO_JUMP then NO_JUMP else pc + 1 + code[pc].sbx
    }

    method FixJump(pc: nat, dest: int)
      requires pc < |code| && code[pc].Jmp?
      modifies this
      ensures View() == LcodeSpec.FixJump(old(View()), pc, dest) && jpc == old(jpc) && outer == old(outer)
    {
      var offset := dest - (pc + 1);
      if offset > MAXARG_sBx || -offset > MAXARG_sBx {
        failed := true;
      }
      code := code[pc := Jmp(offset)];
    }

    /** `luaK_concat` */
    method Concat(l1: int, l2: int, ghost a: seq<nat>, ghost b: seq<nat>) returns (l: int)
      requires Chain(code, a) && NoDup(a) && l1 == Head(a) && l2 == Head(b)
      modifies this
      ensures View() == Link(old(View()), a, b) && jpc == old(jpc) && jpcl == old(jpcl) && outer == old(outer)
      ensures l == Head(a + b)
    {
      hide Chain;
      hide NoDup;
      if l2 == NO_JUMP {
        assert a + b == a;
        return l1;
      } else if l1 == NO_JUMP {
        assert a + b == b;
        return l2;
      }
      var list := l1;
      ghost var rest := a;
      ChainTail(code, rest);
      var next := GetJump(list);
      while next != NO_JUMP
        invariant rest != [] && rest[|rest| - 1] == a[|a| - 1] && Chain(code, rest) && NoDup(rest)
        invariant list == rest[0] && list < |code| && code[list].Jmp? && next == Head(rest[1..])
        decreases |rest|
        modifies {}
      {
        ghost var tail := rest[1..];
        assert tail != [] && tail[|tail| - 1] == rest[|rest| - 1];
        ChainTail(code, rest);
        ChainTail(code, tail);
        rest := tail;
        list := next;
        next := GetJump(list);
      }
      assert rest[1..] == [] && list == a[|a| - 1];
      FixJump(list, l2);
      return l1;
    }

    /** `luaK_getlabel` */
    method GetLabel() returns (pc: nat)
      modifies this
      ensures View() == LcodeSpec.GetLabel(old(View())) && jpc == old(jpc) && outer == old(outer) && pc == |code|
    {
      lasttarget := |code|;
      return |code|;
    }

    /** `getjumpcontrol`: the position of the controlling instruction. */
    function JumpControl(pc: nat): nat
      reads this
      requires pc < |code|
    {
      if pc >= 1 && TMode(code[pc - 1]) then pc - 1 else pc
    }

    /** `patchtestreg` */
    method PatchTestReg(node: nat, reg: nat) returns (patched: bool)
      requires node < |code|
      modifies this
      ensures View() == old(View()).(code := LcodeSpec.PatchTestReg(old(code), node, reg)) && jpc == old(jpc)
      ensures outer == old(outer)
      ensures patched == Producing(old(code), node)
    {
      var i := JumpControl(node);
      match code[i] {
        case TestSet(_, b, cond) =>
          if reg != NO_REG && reg != b {
            code := code[i := TestSet(reg, b, cond)];
          } else {
            code := code[i := Test(b, cond)];
          }
          return true;
        case _ =>
          return false;
      }
    }

    method RemoveValues(list: int, ghost l: seq<nat>)
      requires Chain(code, l) && NoDup(l) && list == Head(l)
      modifies this
      ensures View() == old(View()).(code := LcodeSpec.RemoveValues(old(code), l)) && jpc == old(jpc)
      ensures outer == old(outer)
    {
      var list := list;
      ghost var rest := l;
      while list != NO_JUMP
        invariant View() == old(View()).(code := code) && jpc == old(jpc) && outer == old(outer)
        invariant Chain(code, rest) && NoDup(rest) && list == Head(rest)
        invariant LcodeSpec.RemoveValues(code, rest) == LcodeSpec.RemoveValues(old(code), l)
        decreases |rest|
      {
        ChainTail(code, rest);
        PatchTestChain(code, list, NO_REG, rest);
        var _ := PatchTestReg(list, NO_REG);
        ChainTail(code, rest);
        list := GetJump(list);
        rest := rest[1..];
      }
    }

    /** `need_value` */
    method NeedValue(list: int, ghost l: seq<nat>) returns (need: bool)
      requires Chain(code, l) && NoDup(l) && list == Head(l)
      ensures need == LcodeSpec.NeedValue(code, l)
    {
      var list := list;
      ghost var rest := l;
      while list != NO_JUMP
        invariant Chain(code, rest) && NoDup(rest) && list == Head(rest)
        invariant LcodeSpec.NeedValue(code, rest) == LcodeSpec.NeedValue(code, l)
        decreases |rest|
      {
        ChainTail(code, rest);
        if !code[JumpControl(list)].TestSet? {
          return true;
        }
        list := GetJump(list);
        rest := rest[1..];
      }
      return false;
    }

    /** `patchlistaux` */
    method PatchListAux(list: int, vtarget: int, reg: nat, dtarget: int, ghost l: seq<nat>)
      requires Chain(code, l) && NoDup(l) && list == Head(l)
      modifies this
      ensures View() == PatchList(old(View()), l, vtarget, reg, dtarget) && jpc == old(jpc) && outer == old(outer)
    {
      var list := list;
      ghost var rest := l;
      while list != NO_JUMP
        invariant jpc == old(jpc) && outer == old(outer)
        invariant Chain(code, rest) && NoDup(rest) && list == Head(rest)
        invariant PatchList(View(), rest, vtarget, reg, dtarget) == PatchList(old(View()), l, vtarget, reg, dtarget)
        decreases |rest|
      {
        ChainTail(code, rest);
        PatchOneChain(View(), list, vtarget, reg, dtarget, rest[1..]);
        var next := GetJump(list);
        var produces := PatchTestReg(list, reg);
        if produces {
          FixJump(list, vtarget);
        } else {
          FixJump(list, dtarget);
        }
        list := next;
        rest := rest[1..];
      }
    }

    method DischargeJpc()
      requires Chain(code, jpcl) && NoDup(jpcl) && jpc == Head(jpcl)
      modifies this
      ensures View() == LcodeSpec.DischargeJpc(old(View())) && jpc == Head(jpcl) && outer == old(outer)
    {
      ghost var l := jpcl;
      PatchListAux(jpc, |code|, NO_REG, |code|, l);
      jpc, jpcl := NO_JUMP, [];
    }

    /** `luaK_patchtohere` */
    method PatchToHere(list: int, ghost l: seq<nat>)
      requires Chain(code, jpcl) && NoDup(jpcl) && jpc == Head(jpcl) && list == Head(l)
      modifies this
      ensures View() == LcodeSpec.PatchToHere(old(View()), l) && jpc == Head(jpcl) && outer == old(outer)
    {
      var _ := GetLabel();
      ghost var js := jpcl;
      var head := Concat(jpc, list, js, l);
      jpc, jpcl := head, js + l;
    }

    // ---------- emitting ----------

    /** `luaK_code` */
    method Code(i: Instr) returns (pc: nat)
      requires Chain(code, jpcl) && NoDup(jpcl) && jpc == Head(jpcl)
      modifies this
      ensures View() == Emit(old(View()), i) && jpc == Head(jpcl) && outer == old(outer)
      ensures pc == |old(code)|
    {
      PatchListLength(View(), jpcl, |code|, NO_REG, |code|);
      DischargeJpc();
      code := code + [i];
      return |code| - 1;
    }

    /** `luaK_jump` */
    method Jump() returns (j: int)
      requires Chain(code, jpcl) && NoDup(jpcl) && jpc == Head(jpcl)
      modifies this
      ensures View() == EmitJump(old(View())).0 && jpc == Head(jpcl) && outer == old(outer)
      ensures j == Head(EmitJump(old(View())).1)
    {
      var held, n := jpc, |code|;
      ghost var js := jpcl;
      jpc, jpcl := NO_JUMP, [];
      j := Code(Jmp(NO_JUMP));
      j := Concat(j, held, [n], js);
    }

    method CondJump(i: Instr) returns (j: int)
      requires Chain(code, jpcl) && NoDup(jpcl) && jpc == Head(jpcl)
      modifies this
      ensures View() == LcodeSpec.CondJump(old(View()), i).0 && jpc == Head(jpcl) && outer == old(outer)
      ensures j == Head(LcodeSpec.CondJump(old(View()), i).1)
    {
      var _ := Code(i);
      j := Jump();
    }

    /** `luaK_nil` */
    method Nil(from: nat, n: nat)
      requires n >= 1 && jpc == Head(jpcl) && Threads(View())
      modifies this
      ensures View() == CodeNil(old(View()), from, n) && jpc == Head(jpcl) && outer == old(outer)
    {
      hide Emit;
      hide Chain;
      hide NoDup;
      var first, last := from, from + n - 1;
      if |code| > lasttarget {
        match code[|code| - 1] {
          case LoadNil(a, count) =>
            var pl := a + count;
            if (a <= first <= pl + 1) || (first <= a <= last + 1) {
              if a < first {
                first := a;
              }
              if pl > last {
                last := pl;
              }
              code := code[|code| - 1 := LoadNil(first, last - first)];
              return;
            }
          case _ =>
        }
      }
      var _ := Code(LoadNil(from, n - 1));
    }

    // ---------- registers ----------

    /** `luaK_checkstack` and `luaK_reserveregs` */
    method ReserveRegs(n: nat)
      modifies this
      ensures View() == Reserve(old(View()), n) && jpc == old(jpc) && outer == old(outer)
    {
      var newstack := freereg + n;
      if newstack > maxstack {
        if newstack >= MAXREGS {
          failed := true;
        }
        maxstack := newstack;
      }
      freereg := freereg + n;
    }

    /** `freereg`, with its assertion */
    method FreeRegister(reg: nat)
      requires reg >= nactvar ==> reg + 1 == freereg
      modifies this
      ensures View() == FreeReg(old(View()), reg) && jpc == old(jpc) && outer == old(outer)
    {
      if reg >= nactvar {
        freereg := freereg - 1;
        assert reg == freereg;
      }
    }

    method FreeExpression(e: ExpDesc)
      requires RegOK(View(), e.k)
      modifies this
      ensures View() == FreeExp(old(View()), e.View()) && jpc == old(jpc) && outer == old(outer)
    {
      match e.k {
        case VNonReloc(r) => FreeRegister(r);
        case _ =>
      }
    }

    /** `freeexps`: in whatever order the operands were put into registers */
    method FreeExpressions(e1: ExpDesc, e2: ExpDesc)
      requires Stacked(View(), e1.k, e2.k)
      modifies this
      ensures View() == FreeExps(old(View()), e1.View(), e2.View()) && jpc == old(jpc) && outer == old(outer)
    {
      var r1 := if e1.k.VNonReloc? then e1.k.reg else -1;
      var r2 := if e2.k.VNonReloc? then e2.k.reg else -1;
      if r1 > r2 {
        FreeRegister(r1);
        if r2 >= 0 {
          FreeRegister(r2);
        }
      } else {
        if r2 >= 0 {
          FreeRegister(r2);
        }
        if r1 >= 0 {
          FreeRegister(r1);
        }
      }
    }

    // ---------- constants ----------

    /** `addk` */
    method AddConstant(v: Value) returns (k: nat)
      modifies this
      ensures View() == AddK(old(View()), v).0 && k == AddK(old(View()), v).1 && jpc == old(jpc)
      ensures jpcl == old(jpcl) && outer == old(outer)
      ensures code == old(code)
    {
      var key := KeyOf(v);
      if key in cache {
        match cache[key] {
          case Index(i) =>
            if i < |kst| && SameType(kst[i], v) && RawEqual(kst[i], v) {
              return i;
            }
          case Anchor =>
        }
      }
      k := |kst|;
      cache := cache[key := Index(k)];
      if k >= MAXARG_Ax {
        failed := true;
      }
      kst := kst + [v];
    }

    // ---------- placing values ----------

    /** The invariant while e is the live expression. */
    ghost predicate Valid(e: ExpDesc)
      reads this, e
    {
      jpc == Head(jpcl) && e.Heads() && WF(View(), e.View(), outer)
    }

    /** The same, or something has been emitted behind its waiting instruction. */
    ghost predicate Live(e: ExpDesc)
      reads this, e
    {
      Valid(e) || (jpc == Head(jpcl) && e.Heads() && Buried(View(), e.View(), outer))
    }

    /** `luaK_dischargevars` */
    method Vars(e: ExpDesc)
      modifies e`k
      ensures e.View() == DischargeVars(old(e.View()))
    {
      match e.k {
        case VLocal(r) => e.k := VNonReloc(r);
        case _ =>
      }
    }

    /** `discharge2reg` */
    method DischargeToReg(e: ExpDesc, reg: nat)
      requires jpc == Head(jpcl) && (e.k.VReloc? || (Threads(View()) && KindCode(View(), e.k)))
      requires e.k.VReloc? ==> e.k.pc < |code| && Relocatable(code[e.k.pc])
      modifies this, e`k
      ensures View() == Discharge2Reg(old(View()), old(e.View()), reg).0
      ensures e.View() == Discharge2Reg(old(View()), old(e.View()), reg).1
      ensures jpc == Head(jpcl) && outer == old(outer)
    {
      hide Emit;
      hide CodeNil;
      hide AddK;
      hide Chain;
      hide NoDup;
      Vars(e);
      match e.k {
        case VJmp(_) => return;
        case VNil => Nil(reg, 1);
        case VFalse => var _ := Code(LoadBool(reg, false, false));
        case VTrue => var _ := Code(LoadBool(reg, true, false));
        case VK(info) => var _ := Code(LoadK(reg, info));
        case VKFlt(x) =>
          var k := AddConstant(Number(F(x)));
          var _ := Code(LoadK(reg, k));
        case VKInt(i) =>
          var k := AddConstant(Number(I(i)));
          var _ := Code(LoadK(reg, k));
        case VReloc(pc) => code := code[pc := WithA(code[pc], reg)];
        case VNonReloc(r) =>
          if r != reg {
            var _ := Code(Move(reg, r));
          }
        case VLocal(_) =>
      }
      e.k := VNonReloc(reg);
    }

    /** `discharge2anyreg` */
    method DischargeToAnyReg(e: ExpDesc)
      requires jpc == Head(jpcl) && Threads(View()) && KindCode(View(), e.k)
      modifies this, e`k
      ensures View() == Discharge2AnyReg(old(View()), old(e.View())).0
      ensures e.View() == Discharge2AnyReg(old(View()), old(e.View())).1
      ensures jpc == Head(jpcl) && outer == old(outer)
    {
      if !e.k.VNonReloc? {
        ReserveRegs(1);
        DischargeToReg(e, freereg - 1);
      }
    }

    /** `code_loadbool` */
    method CodeLoadBool(reg: nat, b: bool, skip: bool)
      requires jpc == Head(jpcl) && Threads(View())
      modifies this
      ensures View() == EmitLoadBool(old(View()), reg, b, skip) && jpc == Head(jpcl) && outer == old(outer)
    {
      var _ := GetLabel();
      var _ := Code(LoadBool(reg, b, skip));
    }

    /** The second half of `exp2reg`: every jump of the lists ends behind the code, with its
        value in the register. */
    method CloseJumps(e: ExpDesc, isJump: bool, reg: nat)
      requires jpc == Head(jpcl) && e.Heads() && (isJump ==> jpcl == [])
      requires Base(View(), Elems(e.tl) + Elems(e.fl) + outer) && Lists(code, e.tl, e.fl, outer)
      modifies this
      ensures View() == CloseLists(old(View()), isJump, e.tl, e.fl, reg) && jpc == Head(jpcl) && outer == old(outer)
    {
      hide Base;
      hide Lists;
      hide LoadBools;
      hide PatchList;
      hide NoDup;
      hide Chain;
      hide LcodeSpec.NeedValue;
      ListsChains(View(), e.tl, e.fl, outer);
      BoolsChains(m, View(), isJump, e.tl, e.fl, reg, outer);
      var pf, pt := NO_JUMP, NO_JUMP;
      var needT := NeedValue(e.t, e.tl);
      var needF := NeedValue(e.f, e.fl);
      ghost var s0 := View();
      if needT || needF {
        EmitBools(isJump, reg);
        pf, pt := |code| - 2, |code| - 1;
      }
      ghost var s1 := LcodeSpec.GetLabel(View());
      var final := GetLabel();
      SecondChain(s1, e.fl, e.tl, final, reg, pf);
      PatchListAux(e.f, final, reg, pf, e.fl);
      PatchListAux(e.t, final, reg, pt, e.tl);
      PatchListGrows(s1, e.fl, final, reg, pf);
      PatchListGrows(PatchList(s1, e.fl, final, reg, pf), e.tl, final, reg, pt);
    }

    /** The `LOADBOOL` pair */
    method EmitBools(isJump: bool, reg: nat)
      requires jpc == Head(jpcl) && Threads(View()) && (isJump ==> jpcl == [])
      modifies this
      ensures View() == LoadBools(old(View()), isJump, reg) && jpc == Head(jpcl) && outer == old(outer)
    {
      ghost var l := if isJump then [] else EmitJump(View()).1;
      var fj := NO_JUMP;
      if !isJump {
        fj := Jump();
      }
      assert jpcl == [];
      CodeLoadBool(reg, false, true);
      CodeLoadBool(reg, true, false);
      PatchToHere(fj, l);
    }

    /** `exp2reg` */
    method ExpToReg(e: ExpDesc, reg: nat)
      requires jpc == Head(jpcl) && e.Heads()
      requires Core(View(), e.View(), outer) || Placeable(View(), e.View(), reg, outer)
      modifies this, e
      ensures View() == Exp2Reg(old(View()), old(e.View()), reg).0
      ensures e.View() == Exp2Reg(old(View()), old(e.View()), reg).1
      ensures jpc == Head(jpcl) && e.Heads() && outer == old(outer)
    {
      hide Core;
      hide Base;
      hide Lists;
      hide Chain;
      hide NoDup;
      hide Link;
      hide Discharge2Reg;
      hide CloseLists;
      ghost var s, d := View(), e.View();
      if Core(s, d, outer) {
        CoreChains(s, d, outer);
      }
      var isJump := e.k.VJmp?;
      DischargeToReg(e, reg);
      if isJump {
        TestClose(m, s, d, outer);
        TestDischarge(s, d, reg);
        e.t := Concat(e.t, e.k.pc, e.tl, [e.k.pc]);
        e.tl := e.tl + [e.k.pc];
      } else {
        if Core(s, d, outer) {
          PlaceChains(m, s, d, reg, outer);
        }
        DischargeKind(s, d, reg);
      }
      HeadsDiffer(code, e.View(), outer);
      if e.t != e.f {
        CloseJumps(e, isJump, reg);
      }
      e.f, e.t := NO_JUMP, NO_JUMP;
      e.fl, e.tl := [], [];
      e.k := VNonReloc(reg);
    }

    /** `luaK_exp2nextreg` */
    method ExpToNextReg(e: ExpDesc)
      requires Live(e)
      modifies this, e
      ensures View() == Exp2NextReg(old(View()), old(e.View())).0
      ensures e.View() == Exp2NextReg(old(View()), old(e.View())).1
      ensures Valid(e) && outer == old(outer)
    {
      hide Core;
      hide Exp2Reg;
      hide Lists;
      hide Base;
      hide WF;
      ghost var s, d := View(), e.View();
      if Valid(e) {
        NextRegCore(m, s, d, outer);
        NextRegWF(m, s, d, outer);
      } else {
        BuriedNext(m, s, d, outer);
      }
      Vars(e);
      FreeExpression(e);
      ReserveRegs(1);
      ExpToReg(e, freereg - 1);
    }

    /** `luaK_exp2anyreg` */
    method ExpToAnyReg(e: ExpDesc) returns (reg: nat)
      requires Live(e) || (e.k.VNonReloc? && e.Heads() && !HasJumps(e.View()) && jpc == Head(jpcl))
      modifies this, e
      ensures View() == Exp2AnyReg(old(View()), old(e.View())).0 && e.View() == Exp2AnyReg(old(View()), old(e.View())).1
      ensures e.Heads() && jpc == Head(jpcl) && outer == old(outer) && (old(Live(e)) ==> Valid(e))
      ensures e.k == VNonReloc(reg)
    {
      hide Exp2NextReg;
      hide Exp2Reg;
      hide WF;
      ghost var s, d := View(), e.View();
      if Valid(e) {
        VarsWF(m, s, d, outer);
        WFHeads(s, d, outer);
        AnyRegWF(m, s, d, outer);
      } else if Live(e) {
        BuriedNext(m, s, d, outer);
      }
      Vars(e);
      match e.k {
        case VNonReloc(r) =>
          if e.t == e.f {
            return r;
          }
          if r >= nactvar {
            WFCore(View(), e.View(), outer);
            ExpRegDesc(s, e.View(), r);
            ExpToReg(e, r);
            return r;
          }
        case _ =>
      }
      NextRegDesc(s, e.View());
      ExpToNextReg(e);
      return e.k.reg;
    }

    /** `luaK_exp2val` */
    method ExpToVal(e: ExpDesc)
      requires Live(e) || (!e.k.VLocal? && e.Heads() && !HasJumps(e.View()) && jpc == Head(jpcl))
      modifies this, e
      ensures View() == Exp2Val(old(View()), old(e.View())).0 && e.View() == Exp2Val(old(View()), old(e.View())).1
      ensures e.Heads() && jpc == Head(jpcl) && outer == old(outer) && (old(Live(e)) ==> Live(e))
    {
      hide Exp2AnyReg;
      hide WF;
      hide Buried;
      if Valid(e) {
        WFHeads(View(), e.View(), outer);
        ValWF(m, View(), e.View(), outer);
      } else if Live(e) {
        BuriedNext(m, View(), e.View(), outer);
      }
      if e.t != e.f {
        var _ := ExpToAnyReg(e);
      } else {
        Vars(e);
      }
    }

    /** `luaK_exp2RK` */
    method ExpToRK(e: ExpDesc) returns (rk: RK)
      requires Live(e) || (Settled(View(), e.View()) && e.Heads() && jpc == Head(jpcl))
      modifies this, e
      ensures View() == Exp2RK(old(View()), old(e.View())).0 && e.View() == Exp2RK(old(View()), old(e.View())).1
      ensures rk == Exp2RK(old(View()), old(e.View())).2
      ensures e.Heads() && jpc == Head(jpcl) && outer == old(outer) && (old(Live(e)) ==> Valid(e))
    {
      hide Exp2AnyReg;
      hide Exp2Val;
      hide WF;
      hide AddK;
      hide Buried;
      ghost var s, d, live := View(), e.View(), Live(e);
      RKSteps(m, s, d, outer);
      if Live(e) && !Valid(e) {
        BuriedNext(m, s, d, outer);
      }
      ExpToVal(e);
      var v := ConstantOf(e.k);
      if v.Some? {
        if live {
          BuriedConstant(View(), e.View(), outer);
          ConstWF(m, View(), e.View(), outer);
        }
        var k := AddConstant(v.value);
        e.k := VK(k);
      }
      assert live ==> Live(e);
      hide Live;
      match e.k {
        case VK(info) =>
          if info <= MAXINDEXRK {
            return K(info);
          }
        case _ =>
      }
      AnyRegDesc(View(), e.View());
      var r := ExpToAnyReg(e);
      return R(r);
    }

    /** `luaK_storevar` for a local variable */
    method StoreVar(reg: nat, e: ExpDesc)
      requires Valid(e)
      modifies this, e
      ensures View() == StoreLocal(old(View()), reg, old(e.View())).0
      ensures e.View() == StoreLocal(old(View()), reg, old(e.View())).1
      ensures jpc == Head(jpcl) && e.Heads() && outer == old(outer)
    {
      hide Core;
      hide Exp2Reg;
      StoreCore(m, View(), e.View(), outer);
      FreeExpression(e);
      ExpToReg(e, reg);
    }

    // ---------- conditions ----------

    /** `negatecondition` */
    method NegateCondition(e: ExpDesc)
      requires e.k.VJmp? && KindCode(View(), e.k)
      modifies this
      ensures View() == old(View()).(code := Negate(old(code), e.k.pc)) && jpc == old(jpc) && outer == old(outer)
    {
      var i := JumpControl(e.k.pc);
      match code[i] {
        case Cmp(op, want, rb, rc) => code := code[i := Cmp(op, !want, rb, rc)];
        case _ =>
      }
    }

    /** `jumponcond` */
    method JumpIf(e: ExpDesc, cond: bool) returns (l: int)
      requires Valid(e) && !e.k.VJmp?
      modifies this, e`k
      ensures View() == JumpOnCond(old(View()), old(e.View()), cond).0
      ensures e.k == JumpOnCond(old(View()), old(e.View()), cond).1
      ensures l == Head(JumpOnCond(old(View()), old(e.View()), cond).2) && jpc == Head(jpcl) && outer == old(outer)
    {
      hide LcodeSpec.CondJump;
      hide Discharge2AnyReg;
      hide Core;
      hide Chain;
      hide NoDup;
      hide Base;
      hide Lists;
      hide WF;
      ghost var s, d := View(), e.View();
      WFCore(s, d, outer);
      CoreChains(s, d, outer);
      match e.k {
        case VReloc(pc) =>
          match code[pc] {
            case Not(_, b) =>
              code := code[..|code| - 1];
              CutThreads(s);
              l := CondJump(Test(b, !cond));
              return;
            case _ =>
          }
        case _ =>
      }
      AnyPlaceWF(m, s, d, outer);
      DischargeToAnyReg(e);
      WFCore(View(), e.View(), outer);
      CoreChains(View(), e.View(), outer);
      ghost var s1 := View();
      FreeExpression(e);
      assert View().code == s1.code && View().jpc == s1.jpc;
      l := CondJump(TestSet(NO_REG, e.k.reg, cond));
    }

    /** The new jump of `luaK_goiftrue` and `luaK_goiffalse`, if one is needed */
    method BranchOn(e: ExpDesc, cond: bool) returns (pc: int)
      requires Valid(e) && !e.k.VLocal?
      modifies this, e`k
      ensures View() == Branch(old(View()), old(e.View()), cond).0 && e.k == Branch(old(View()), old(e.View()), cond).1
      ensures pc == Head(Branch(old(View()), old(e.View()), cond).2) && jpc == Head(jpcl) && outer == old(outer)
    {
      hide JumpOnCond;
      hide Negate;
      hide Core;
      CoreChains(View(), e.View(), outer);
      if e.k.VJmp? {
        if !cond {
          NegateCondition(e);
        }
        pc := e.k.pc;
      } else if if cond then AlwaysFalse(e.k) else AlwaysTrue(e.k) {
        pc := NO_JUMP;
      } else {
        pc := JumpIf(e, cond);
      }
    }

    /** `luaK_goiftrue` (cond false) and `luaK_goiffalse` (cond true) */
    method GoThrough(e: ExpDesc, cond: bool)
      requires Valid(e)
      modifies this, e
      ensures View() == GoIf(old(View()), old(e.View()), cond).0 && e.View() == GoIf(old(View()), old(e.View()), cond).1
      ensures jpc == Head(jpcl) && e.Heads() && outer == old(outer)
    {
      hide Branch;
      hide GoIf;
      hide Link;
      hide LcodeSpec.PatchToHere;
      hide WF;
      hide Chain;
      hide NoDup;
      ghost var s, d := View(), e.View();
      VarsWF(m, s, d, outer);
      GoIfBranch(s, d, cond);
      Vars(e);
      BranchChains(m, s, e.View(), cond, outer);
      ghost var l := Branch(s, e.View(), cond).2;
      var pc := BranchOn(e, cond);
      if cond {
        e.t := Concat(e.t, pc, e.tl, l);
        e.tl := e.tl + l;
        PatchToHere(e.f, e.fl);
        e.f, e.fl := NO_JUMP, [];
      } else {
        e.f := Concat(e.f, pc, e.fl, l);
        e.fl := e.fl + l;
        PatchToHere(e.t, e.tl);
        e.t, e.tl := NO_JUMP, [];
      }
    }

    /** `codenot` */
    method CodeNegation(e: ExpDesc)
      requires Valid(e) && Testable(View(), e.k)
      modifies this, e
      ensures View() == CodeNot(old(View()), old(e.View())).0 && e.View() == CodeNot(old(View()), old(e.View())).1
      ensures Valid(e) && outer == old(outer)
    {
      hide WF;
      hide LcodeSpec.RemoveValues;
      hide NegateValue;
      hide Chain;
      hide NoDup;
      ghost var s, d := View(), e.View();
      CodeNotWF(m, s, d, outer);
      VarsWF(m, s, d, outer);
      Vars(e);
      NegateCore(m, View(), e.View(), outer);
      NegateKind(e);
      CoreChains(View(), e.View(), outer);
      RemoveChain(code, e.tl, e.fl);
      e.t, e.f := e.f, e.t;
      e.tl, e.fl := e.fl, e.tl;
      RemoveValues(e.f, e.fl);
      RemoveValues(e.t, e.tl);
    }

    /** The value, but not the lists, negated. */
    method NegateKind(e: ExpDesc)
      requires Valid(e) && !e.k.VLocal?
      modifies this, e`k
      ensures View() == NegateValue(old(View()), old(e.View())).0 && e.k == NegateValue(old(View()), old(e.View())).1
      ensures jpc == Head(jpcl) && outer == old(outer)
    {
      hide Discharge2AnyReg;
      hide Emit;
      hide Negate;
      hide Core;
      hide Chain;
      hide NoDup;
      ghost var s, d := View(), e.View();
      CoreChains(s, d, outer);
      if AlwaysFalse(e.k) {
        e.k := VTrue;
      } else if AlwaysTrue(e.k) {
        e.k := VFalse;
      } else if e.k.VJmp? {
        NegateCondition(e);
      } else {
        AnyPlaceWF(m, s, d, outer);
        DischargeToAnyReg(e);
        CoreChains(View(), e.View(), outer);
        ghost var s1 := View();
        FreeExpression(e);
        assert View().code == s1.code && View().jpc == s1.jpc;
        var pc := Code(Not(0, e.k.reg));
        e.k := VReloc(pc);
      }
    }

    // ---------- operators ----------

    /** The heads of the lists tell whether there are any jumps. */
    ghost predicate Clear(e: ExpDesc)
      reads e
    {
      e.Heads() && (e.t == e.f <==> !HasJumps(e.View()))
    }

    /** `tonumeral` */
    method Numeral(e: ExpDesc) returns (v: Option<Num>)
      requires Clear(e)
      ensures v == ToNumeral(e.View())
    {
      if e.t != e.f {
        return None;
      }
      match e.k {
        case VKInt(i) => return Some(I(i));
        case VKFlt(x) => return Some(F(x));
        case _ => return None;
      }
    }

    /** `constfolding` */
    method Fold(op: Prim, e1: ExpDesc, e2: ExpDesc) returns (folded: bool)
      requires Clear(e1) && Clear(e2)
      modifies e1`k
      ensures folded == ConstFolding(m, op, old(e1.View()), old(e2.View())).Some?
      ensures e1.View() == if folded
        then old(e1.View()).(k := ConstFolding(m, op, old(e1.View()), old(e2.View())).value) else old(e1.View())
    {
      var x := Numeral(e1);
      var y := Numeral(e2);
      if x.None? || y.None? || !ValidOp(op, x.value, y.value) {
        return false;
      }
      match m.raw(op, x.value, y.value) {
        case I(i) => e1.k := VKInt(i);
        case F(z) =>
          if z == NaN || z == PosZero || z == NegZero {
            return false;
          }
          e1.k := VKFlt(z);
      }
      return true;
    }

    /** `codeunexpval` */
    method CodeUnary(op: UnOp, e: ExpDesc)
      requires Valid(e)
      modifies this, e
      ensures View() == CodeUnExpVal(old(View()), op, old(e.View())).0
      ensures e.View() == CodeUnExpVal(old(View()), op, old(e.View())).1
      ensures Valid(e) && outer == old(outer)
    {
      hide Exp2AnyReg;
      hide Emit;
      hide Core;
      hide WF;
      hide Chain;
      hide NoDup;
      ghost var s, d := View(), e.View();
      AnyRegWF(m, s, d, outer);
      UnaryWF(m, s, op, d, outer);
      var r := ExpToAnyReg(e);
      WFCore(View(), e.View(), outer);
      CoreChains(View(), e.View(), outer);
      FreeExpression(e);
      var pc := Code(Unary(op, 0, r));
      e.k := VReloc(pc);
    }

    /** The first operand in R/K form, while the jumps of the second one wait */
    method FirstToRK(op: ArithOp, e1: ExpDesc, e2: ExpDesc) returns (rk: RK)
      requires e1 != e2 && Valid(e2) && e1.Heads() && OperandOK(View(), e1.View(), e2.View())
      requires Floor(View(), e2.k) == freereg
      modifies this, e1
      ensures View() == Exp2RK(old(View()), old(e1.View())).0 && e1.View() == Exp2RK(old(View()), old(e1.View())).1
      ensures rk == Exp2RK(old(View()), old(e1.View())).2
      ensures e1.Heads() && Live(e2) && jpc == Head(jpcl) && outer == old(outer)
    {
      hide Exp2RK;
      hide WF;
      hide Second;
      hide Settled;
      hide Named;
      hide Buried;
      BinSteps(m, View(), op, e1.View(), e2.View(), outer);
      ghost var waiting := outer;
      if !Settled(View(), e1.View()) {
        outer := Pending(e2.View(), outer);
      }
      rk := ExpToRK(e1);
      outer := waiting;
    }

    /** `codebinexpval` */
    method CodeArith(op: ArithOp, e1: ExpDesc, e2: ExpDesc)
      requires e1 != e2 && Valid(e2) && e1.Heads() && OperandOK(View(), e1.View(), e2.View())
      requires Floor(View(), e2.k) == freereg
      modifies this, e1, e2
      ensures View() == CodeBinExpVal(old(View()), op, old(e1.View()), old(e2.View())).0
      ensures e1.View() == CodeBinExpVal(old(View()), op, old(e1.View()), old(e2.View())).1
      ensures e1.Heads() && jpc == Head(jpcl) && outer == old(outer)
    {
      hide Exp2RK;
      hide FreeExps;
      hide Emit;
      hide WF;
      hide Chain;
      hide NoDup;
      hide Second;
      hide Settled;
      hide Named;
      hide Buried;
      hide Core;
      BinSteps(m, View(), op, e1.View(), e2.View(), outer);
      var rk1 := FirstToRK(op, e1, e2);
      var rk2 := ExpToRK(e2);
      hide Live;
      WFCore(View(), e2.View(), outer);
      CoreChains(View(), e2.View(), outer);
      FreeExpsGrows(View(), e1.View(), e2.View());
      FreeExpressions(e1, e2);
      var pc := Code(Binary(op, 0, rk1, rk2));
      e1.k := VReloc(pc);
    }

    /** `luaK_posfix` of a concatenation */
    method CodeConcatenation(e1: ExpDesc, e2: ExpDesc)
      requires e1 != e2 && Valid(e2) && e1.Heads() && ConcatOperand(View(), e1.View(), e2.View())
      requires ConcatShape(View(), e2.k)
      modifies this, e1, e2
      ensures View() == CodeConcat(old(View()), old(e1.View()), old(e2.View())).0
      ensures e1.View() == CodeConcat(old(View()), old(e1.View()), old(e2.View())).1
      ensures e1.Heads() && jpc == Head(jpcl) && outer == old(outer)
    {
      hide Exp2Val;
      hide Exp2NextReg;
      hide FreeExps;
      hide Emit;
      hide WF;
      hide Chain;
      hide NoDup;
      hide Core;
      hide KindCode;
      ConcatSteps(m, View(), e1.View(), e2.View(), outer);
      ExpToVal(e2);
      WFCore(View(), e2.View(), outer);
      CoreChains(View(), e2.View(), outer);
      match e2.k {
        case VReloc(pc) =>
          match code[pc] {
            case Concat(a, b, c) =>
              assert e1.k.reg == b - 1;
              FreeExpression(e1);
              code := code[pc := LuaVM.Concat(a, e1.k.reg, c)];
              e1.k := VReloc(pc);
              return;
            case _ =>
          }
        case _ =>
      }
      ExpToNextReg(e2);
      ConcatRegs(e1, e2);
    }

    /** A new concatenation of the two topmost registers */
    method ConcatRegs(e1: ExpDesc, e2: ExpDesc)
      requires e1 != e2 && Valid(e2) && e1.Heads() && Stacked(View(), e1.k, e2.k) && e1.k.VNonReloc? && e2.k.VNonReloc?
      modifies this, e1`k
      ensures var s0 := FreeExps(old(View()), old(e1.View()), e2.View());
        View() == Emit(s0, LuaVM.Concat(0, old(e1.k).reg, e2.k.reg)) && e1.k == VReloc(|s0.code|)
      ensures jpc == Head(jpcl) && outer == old(outer)
    {
      hide FreeExps;
      hide Emit;
      hide Core;
      hide Chain;
      hide NoDup;
      CoreChains(View(), e2.View(), outer);
      FreeExpsGrows(View(), e1.View(), e2.View());
      FreeExpressions(e1, e2);
      var pc := Code(LuaVM.Concat(0, e1.k.reg, e2.k.reg));
      e1.k := VReloc(pc);
    }

    /** `codecomp` */
    method CodeCompare(rel: Rel, e1: ExpDesc, e2: ExpDesc)
      requires e1 != e2 && Valid(e2) && e1.Heads() && OperandOK(View(), e1.View(), e2.View())
      requires e1.k.VK? || e1.k.VNonReloc?
      modifies this, e1, e2
      ensures View() == CodeComp(old(View()), rel, old(e1.View()), old(e2.View())).0
      ensures e1.View() == CodeComp(old(View()), rel, old(e1.View()), old(e2.View())).1
      ensures e1.Heads() && jpc == Head(jpcl) && outer == old(outer)
    {
      hide Exp2RK;
      hide FreeExps;
      hide LcodeSpec.CondJump;
      hide WF;
      hide Chain;
      hide NoDup;
      CompSteps(m, View(), e1.View(), e2.View(), outer);
      var rk1 := OperandRK(e1.k);
      var rk2 := ExpToRK(e2);
      WFCore(View(), e2.View(), outer);
      CoreChains(View(), e2.View(), outer);
      FreeExpsGrows(View(), e1.View(), e2.View());
      FreeExpressions(e1, e2);
      CondJumpHead(View(), CompareInstr(rel, rk1, rk2));
      var pc := CondJump(CompareInstr(rel, rk1, rk2));
      e1.k := VJmp(pc);
    }

    /** `luaK_prefix`, but for `not` */
    method Prefix(op: UnOp, e: ExpDesc)
      requires Valid(e)
      modifies this, e
      ensures View() == LcodeSpec.Prefix(m, old(View()), op, old(e.View())).0
      ensures e.View() == LcodeSpec.Prefix(m, old(View()), op, old(e.View())).1
      ensures jpc == Head(jpcl) && e.Heads() && outer == old(outer)
    {
      hide CodeUnExpVal;
      hide ConstFolding;
      hide WF;
      WFHeads(View(), e.View(), outer);
      if op != LEN {
        var zero := new ExpDesc(VKInt(0));
        var folded := Fold(PUn(op), e, zero);
        if folded {
          return;
        }
      }
      CodeUnary(op, e);
    }

    /** `luaK_infix` */
    method Infix(op: BinOpr, e: ExpDesc)
      requires Valid(e)
      modifies this, e
      ensures View() == LcodeSpec.Infix(old(View()), op, old(e.View())).0
      ensures e.View() == LcodeSpec.Infix(old(View()), op, old(e.View())).1
      ensures jpc == Head(jpcl) && e.Heads() && outer == old(outer)
    {
      hide GoIfTrue;
      hide GoIfFalse;
      hide Exp2RK;
      hide Exp2NextReg;
      hide WF;
      match op {
        case OprAnd => GoThrough(e, false);
        case OprOr => GoThrough(e, true);
        case OprConcat => ExpToNextReg(e);
        case OprArith(_) =>
          WFHeads(View(), e.View(), outer);
          var v := Numeral(e);
          if v.None? {
            var _ := ExpToRK(e);
          }
        case OprRel(_) => var _ := ExpToRK(e);
      }
    }

    /** `luaK_posfix`: the result is left in e1 */
    method Posfix(op: BinOpr, e1: ExpDesc, e2: ExpDesc)
      requires e1 != e2 && jpc == Head(jpcl) && e1.Heads() && e2.Heads()
      requires Operands(m, View(), op, e1.View(), e2.View(), outer)
      modifies this, e1, e2
      ensures View() == LcodeSpec.Posfix(m, old(View()), op, old(e1.View()), old(e2.View())).0
      ensures e1.View() == LcodeSpec.Posfix(m, old(View()), op, old(e1.View()), old(e2.View())).1
      ensures jpc == Head(jpcl) && e1.Heads() && outer == old(outer)
    {
      hide CodeBinExpVal;
      hide CodeConcat;
      hide CodeComp;
      hide ConstFolding;
      hide Core;
      hide Link;
      hide Chain;
      hide NoDup;
      match op {
        case OprAnd =>
          VarsWF(m, View(), e2.View(), outer);
          Vars(e2);
          CoreChains(View(), e2.View(), outer);
          e2.f := Concat(e2.f, e1.f, e2.fl, e1.fl);
          e2.fl := e2.fl + e1.fl;
          e1.k, e1.t, e1.f, e1.tl, e1.fl := e2.k, e2.t, e2.f, e2.tl, e2.fl;
        case OprOr =>
          VarsWF(m, View(), e2.View(), outer);
          Vars(e2);
          CoreChains(View(), e2.View(), outer);
          e2.t := Concat(e2.t, e1.t, e2.tl, e1.tl);
          e2.tl := e2.tl + e1.tl;
          e1.k, e1.t, e1.f, e1.tl, e1.fl := e2.k, e2.t, e2.f, e2.tl, e2.fl;
        case OprConcat => CodeConcatenation(e1, e2);
        case OprArith(aop) =>
          WFHeads(View(), e2.View(), outer);
          var folded := Fold(PArith(aop), e1, e2);
          if !folded {
            CodeArith(aop, e1, e2);
          }
        case OprRel(rel) => CodeCompare(rel, e1, e2);
      }
    }

    // ---------- the driver ----------

    /** `subexpr`, on an expression that is already parsed */
    method SubExpr(x: Expr, v: ExpDesc)
      requires jpc == Head(jpcl) && WF(View(), Fresh, outer) && Proper(x, nactvar)
      modifies this, v, ls
      ensures View() == Compile(m, old(View()), x).0 && v.View() == Compile(m, old(View()), x).1
      ensures Valid(v) && outer == old(outer)
      ensures ls.nCcalls == old(ls.nCcalls)
      ensures ls.refused == (old(ls.refused) || old(ls.nCcalls) + Levels(x) > MAXCCALLS)
      decreases x, 2
    {
      hide WF;
      hide Compile;
      hide Inner;
      ls.EnterLevel();
      Operand(x, v);
      ls.LeaveLevel();
    }

    /** What `subexpr` reads at one level: an operand, and the operators that follow it */
    method Operand(x: Expr, v: ExpDesc)
      requires jpc == Head(jpcl) && WF(View(), Fresh, outer) && Proper(x, nactvar)
      requires ls.nCcalls > MAXCCALLS ==> ls.refused
      modifies this, v, ls
      ensures View() == Compile(m, old(View()), x).0 && v.View() == Compile(m, old(View()), x).1
      ensures Valid(v) && outer == old(outer)
      ensures ls.nCcalls == old(ls.nCcalls)
      ensures ls.refused == (old(ls.refused) || old(ls.nCcalls) + Inner(x) > MAXCCALLS)
      decreases x, 1
    {
      hide WF;
      hide CodeNot;
      hide LcodeSpec.Prefix;
      hide LcodeSpec.Infix;
      hide LcodeSpec.Posfix;
      ghost var s := View();
      CompileWF(m, s, x, outer);
      match x {
        case ENil => Leaf(v, VNil);
        case ETrue => Leaf(v, VTrue);
        case EFalse => Leaf(v, VFalse);
        case ENumber(I(i)) => Leaf(v, VKInt(i));
        case ENumber(F(y)) => Leaf(v, VKFlt(y));
        case EString(str) =>
          var k := AddConstant(Str(str));
          Leaf(v, VK(k));
        case ELocal(r) => Leaf(v, VLocal(r));
        case EParen(x1) =>
          SubExpr(x1, v);
          Vars(v);
        case ENot(x1) =>
          SubExpr(x1, v);
          CompileWF(m, s, x1, outer);
          CodeNegation(v);
        case EUnary(op, x1) =>
          SubExpr(x1, v);
          Prefix(op, v);
        case EBinary(op, x1, x2) => BinaryExpr(op, x1, x2, v);
      }
    }

    method Leaf(v: ExpDesc, k: Kind)
      modifies v
      ensures v.View() == Desc(k, [], []) && v.Heads()
    {
      v.k, v.t, v.f := k, NO_JUMP, NO_JUMP;
      v.tl, v.fl := [], [];
    }

    /** The first operand of a binary expression, prepared for its operator */
    method FirstOperand(op: BinOpr, x1: Expr, v: ExpDesc)
      requires jpc == Head(jpcl) && WF(View(), Fresh, outer) && Proper(x1, nactvar)
      requires ls.nCcalls > MAXCCALLS ==> ls.refused
      modifies this, v, ls
      ensures var (s1, d) := Compile(m, old(View()), x1);
        View() == LcodeSpec.Infix(s1, op, d).0 && v.View() == LcodeSpec.Infix(s1, op, d).1
      ensures jpc == Head(jpcl) && v.Heads() && outer == old(outer)
      ensures ls.nCcalls == old(ls.nCcalls)
      ensures ls.refused == (old(ls.refused) || old(ls.nCcalls) + Inner(x1) > MAXCCALLS)
      decreases x1, 2
    {
      hide WF;
      hide LcodeSpec.Infix;
      hide Compile;
      hide Inner;
      Operand(x1, v);
      Infix(op, v);
    }

    /** The jumps of the first operand of and/or wait outside while the second is compiled. */
    method BinaryExpr(op: BinOpr, x1: Expr, x2: Expr, v: ExpDesc)
      requires jpc == Head(jpcl) && WF(View(), Fresh, outer) && Proper(EBinary(op, x1, x2), nactvar)
      requires ls.nCcalls > MAXCCALLS ==> ls.refused
      modifies this, v, ls
      ensures View() == Compile(m, old(View()), EBinary(op, x1, x2)).0
      ensures v.View() == Compile(m, old(View()), EBinary(op, x1, x2)).1
      ensures v.Heads() && jpc == Head(jpcl) && outer == old(outer)
      ensures ls.nCcalls == old(ls.nCcalls)
      ensures ls.refused == (old(ls.refused) || old(ls.nCcalls) + Larger(Inner(x1), Levels(x2)) > MAXCCALLS)
      decreases EBinary(op, x1, x2), 0
    {
      hide WF;
      hide LcodeSpec.Infix;
      hide LcodeSpec.Posfix;
      hide Inner;
      hide Compile;
      hide Operands;
      hide Elems;
      ghost var o0 := outer;
      BinarySteps(m, View(), op, x1, x2, outer);
      BinaryParts(m, View(), op, x1, x2);
      FirstOperand(op, x1, v);
      outer := outer + if op.OprAnd? then Elems(v.fl) else if op.OprOr? then Elems(v.tl) else {};
      SecondOperand(op, x2, v);
      outer := o0;
    }

    /** The second operand and the operator */
    method SecondOperand(op: BinOpr, x2: Expr, v: ExpDesc)
      requires jpc == Head(jpcl) && v.Heads() && WF(View(), Fresh, outer) && Proper(x2, nactvar)
      requires var (s3, d2) := Compile(m, View(), x2); Operands(m, s3, op, v.View(), d2, outer)
      modifies this, v, ls
      ensures var (s3, d2) := Compile(m, old(View()), x2);
        View() == LcodeSpec.Posfix(m, s3, op, old(v.View()), d2).0
        && v.View() == LcodeSpec.Posfix(m, s3, op, old(v.View()), d2).1
      ensures v.Heads() && jpc == Head(jpcl) && outer == old(outer)
      ensures ls.nCcalls == old(ls.nCcalls)
      ensures ls.refused == (old(ls.refused) || old(ls.nCcalls) + Levels(x2) > MAXCCALLS)
      decreases x2, 3
    {
      hide WF;
      hide LcodeSpec.Posfix;
      hide Compile;
      hide Operands;
      hide Levels;
      var v2 := new ExpDesc(VNil);
      SubExpr(x2, v2);
      Posfix(op, v, v2);
    }

    // ---------- statements ----------

    /** Between two statements. */
    ghost predicate Idle()
      reads this
    {
      jpc == Head(jpcl) && outer == {} && WF(View(), Fresh, {}) && freereg == nactvar
    }

    /** `localstat` with one variable and one expression */
    method LocalStat(x: Expr)
      requires Idle() && Proper(x, nactvar)
      modifies this, ls
      ensures View() == CompileLocal(m, old(View()), x) && Idle() && ls.nCcalls == old(ls.nCcalls)
      ensures ls.refused ==
        (old(ls.refused) || old(ls.nCcalls) + Levels(x) > MAXCCALLS || old(nactvar) + 1 > MAXVARS)
    {
      hide WF;
      hide Compile;
      hide Exp2NextReg;
      LocalIdle(m, View(), x);
      ls.CheckLimit(nactvar + 1, MAXVARS);
      var e := new ExpDesc(VNil);
      SubExpr(x, e);
      ExpToNextReg(e);
      nactvar := nactvar + 1;
    }

    /** `restassign` with one local variable and one expression */
    method AssignStat(r: nat, x: Expr)
      requires Idle() && Proper(x, nactvar) && r < nactvar
      modifies this, ls
      ensures View() == CompileAssign(m, old(View()), r, x) && Idle() && ls.nCcalls == old(ls.nCcalls)
      ensures ls.refused == (old(ls.refused) || old(ls.nCcalls) + Levels(x) > MAXCCALLS)
    {
      hide WF;
      hide Compile;
      hide StoreLocal;
      AssignIdle(m, View(), r, x);
      var e := new ExpDesc(VNil);
      SubExpr(x, e);
      StoreVar(r, e);
    }

    /** `retstat` with one expression */
    method RetStat(x: Expr)
      requires Idle() && Proper(x, nactvar)
      modifies this, ls
      ensures View() == CompileReturn(m, old(View()), x) && ls.nCcalls == old(ls.nCcalls)
      ensures ls.refused == (old(ls.refused) || old(ls.nCcalls) + Levels(x) > MAXCCALLS)
    {
      hide Core;
      hide Compile;
      hide Exp2AnyReg;
      hide Emit;
      hide Chain;
      hide NoDup;
      var e := new ExpDesc(VNil);
      SubExpr(x, e);
      var r := ExpToAnyReg(e);
      CoreChains(View(), e.View(), outer);
      var _ := Code(LuaVM.Return(r, 2));
    }

    /** `statement`, but for the return */
    method Statement(st: Stmt)
      requires Idle() && ProperStmt(st, nactvar)
      modifies this, ls
      ensures View() == CompileStmt(m, old(View()), st) && Idle() && ls.nCcalls == old(ls.nCcalls)
      ensures ls.refused ==
        (old(ls.refused) || old(ls.nCcalls) + 1 + Levels(st.e) > MAXCCALLS || (st.Local? && old(nactvar) + 1 > MAXVARS))
    {
      hide WF;
      hide CompileLocal;
      hide CompileAssign;
      hide Inner;
      ls.EnterLevel();
      match st {
        case Local(x) => LocalStat(x);
        case Assign(r, x) => AssignStat(r, x);
      }
      ls.LeaveLevel();
    }

    /** `statlist` */
    method StatList(b: Body)
      requires Idle() && ProperBody(b, nactvar)
      requires nactvar <= MAXVARS || ls.refused
      modifies this, ls
      ensures View() == CompileBody(m, old(View()), b)
      ensures ls.refused == (old(ls.refused) || Refused(b, old(nactvar), old(ls.nCcalls)))
    {
      hide WF;
      hide CompileStmt;
      hide CompileReturn;
      hide Levels;
      var rest := b;
      while rest.Seq?
        invariant Idle() && ProperBody(rest, nactvar)
        invariant CompileBody(m, View(), rest) == CompileBody(m, old(View()), b)
        invariant ls.nCcalls == old(ls.nCcalls) && (nactvar <= MAXVARS || ls.refused)
        invariant (ls.refused || Refused(rest, nactvar, ls.nCcalls)) ==
          (old(ls.refused) || Refused(b, old(nactvar), old(ls.nCcalls)))
        decreases rest
      {
        StmtGrows(m, View(), rest.first);
        VarsGrow(rest.rest, Locals(rest.first, nactvar));
        Statement(rest.first);
        rest := rest.rest;
      }
      ls.EnterLevel();
      RetStat(rest.e);
      ls.LeaveLevel();
    }
  }

  lemma {:induction false} VarsGrow(b: Body, n: nat)
    ensures BodyVars(b, n) >= n
    decreases b
  {
    if b.Seq? {
      VarsGrow(b.rest, Locals(b.first, n));
    }
  }

  /** The whole generator: it compiles a function body with n parameters, `used` C levels being
      in use.  A body of moderate length raises a syntax error if and only if it nests too deep,
      has too many locals, or needs too many registers.  Otherwise, if no jump can skip the load
      of one of its numerals, the machine does with the code what the body means, whatever the
      arguments. */
  method CompileFunction(m: Machine, b: Body, n: nat, cache: map<Key, Slot>, used: nat)
    returns (code: seq<Instr>, kst: seq<Value>, failed: bool)
    requires ProperBody(b, n)
    ensures n <= MAXVARS && BodyLength(b) < MAXARG_sBx ==>
      (failed <==> Refused(b, n, used) || CompileBody(m, Opened(n, cache), b).maxstack >= MAXREGS)
    ensures n > MAXVARS ==> failed
    ensures n <= MAXVARS && !failed ==>
      code == CompileBody(m, Opened(n, cache), b).code && kst == CompileBody(m, Opened(n, cache), b).kst
    ensures Loadable(m, b, n, cache) && !failed ==>
      forall regs, w :: Halts(Exec(m, kst, code, |code|, 0, regs, w), EvalBody(m, b, n, At(regs, w)))
  {
    hide Exec;
    hide Halts;
    hide EvalBody;
    hide CompileBody;
    hide Refused;
    hide Loadable;
    var ls := new LexState(used);
    ls.CheckLimit(n, MAXVARS);
    if ls.refused {
      return [], [], true;
    }
    var fs := new FuncState(ls, m, n, cache);
    OpenedIdle(m, n, cache);
    hide WF;
    fs.StatList(b);
    code, kst, failed := fs.code, fs.kst, fs.failed || ls.refused;
    FunctionFits(m, b, n, cache);
    if Loadable(m, b, n, cache) && !failed {
      forall regs, w ensures Halts(Exec(m, kst, code, |code|, 0, regs, w), EvalBody(m, b, n, At(regs, w))) {
        FunctionSound(m, b, n, cache, regs, w);
      }
    }
  }
}
