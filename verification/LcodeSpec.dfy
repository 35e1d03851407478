/** What each function of the code generator does to its state, on values.

    An expression descriptor here carries its two patch lists as sequences of code positions;
    the lists are also threaded through the jump instructions, as in the source. */
module LcodeSpec {
  import opened LuaVM
  import opened LuaExpr

  const NO_JUMP: int := -1
  const MAXARG_sBx: int := 131071
  const MAXARG_Bx: int := 262143
  const MAXARG_Ax: int := 67108863
  const MAXREGS: nat := 255
  const MAXINDEXRK: nat := 255

  datatype Kind =
    | VNil | VTrue | VFalse
    | VK(info: nat)          // index in the constant table
    | VKFlt(nval: Float) | VKInt(ival: int)
    | VNonReloc(reg: nat)    // value in a fixed register
    | VLocal(reg: nat)
    | VJmp(pc: nat)          // a test: position of its jump
    | VReloc(pc: nat)        // instruction that can put its result in any register

  datatype Desc = Desc(k: Kind, t: seq<nat>, f: seq<nat>)

  /** Keys of the scanner's table that caches constant indices. */
  datatype Key = KeyStr(s: string) | KeyPtr(n: int) | KeyInt(n: int) | KeyFlt(x: Float) | KeyBool(b: bool) | KeyTable

  /** A slot of that table: an index, or the mark by which the scanner anchors a string. */
  datatype Slot = Index(i: nat) | Anchor

  datatype State = State(
    code: seq<Instr>, jpc: seq<nat>, lasttarget: nat,
    freereg: nat, nactvar: nat, maxstack: nat,
    kst: seq<Value>, cache: map<Key, Slot>,
    failed: bool)  // a syntax error was raised; the source unwinds there

  // ---------- jump lists ----------

  function SetJump(code: seq<Instr>, p: nat, dest: int): (code': seq<Instr>)
    ensures |code'| == |code|
  {
    if p < |code| && code[p].Jmp? then code[p := Jmp(dest - (p + 1))] else code
  }

  function FixJump(s: State, p: nat, dest: int): State {
    var offset := dest - (p + 1);
    s.(code := SetJump(s.code, p, dest),
       failed := s.failed || offset > MAXARG_sBx || -offset > MAXARG_sBx)
  }

  /** `luaK_concat`: the last jump of l1 now leads to the first one of l2. */
  function Link(s: State, l1: seq<nat>, l2: seq<nat>): State {
    if l1 == [] || l2 == [] then s else FixJump(s, l1[|l1| - 1], l2[0])
  }

  function Control(code: seq<Instr>, p: nat): nat {
    if 1 <= p <= |code| && TMode(code[p - 1]) then p - 1 else p
  }

  /** The jump at p is controlled by a test that produces a value. */
  predicate Producing(code: seq<Instr>, p: nat) {
    var c := Control(code, p);
    c < |code| && code[c].TestSet?
  }

  function PatchTestReg(code: seq<Instr>, p: nat, reg: nat): (code': seq<Instr>)
    ensures |code'| == |code|
  {
    if Producing(code, p) then
      var c := Control(code, p);
      var TestSet(_, b, cond) := code[c];
      code[c := if reg != NO_REG && reg != b then TestSet(reg, b, cond) else Test(b, cond)]
    else code
  }

  function RemoveValues(code: seq<Instr>, list: seq<nat>): (code': seq<Instr>)
    ensures |code'| == |code|
    decreases |list|
  {
    if list == [] then code
    else RemoveValues(PatchTestReg(code, list[0], NO_REG), list[1..])
  }

  function PatchOne(s: State, p: nat, vtarget: int, reg: nat, dtarget: int): State {
    FixJump(s.(code := PatchTestReg(s.code, p, reg)), p,
            if Producing(s.code, p) then vtarget else dtarget)
  }

  function PatchList(s: State, list: seq<nat>, vtarget: int, reg: nat, dtarget: int): State
    decreases |list|
  {
    if list == [] then s
    else PatchList(PatchOne(s, list[0], vtarget, reg, dtarget), list[1..], vtarget, reg, dtarget)
  }

  predicate NeedValue(code: seq<Instr>, list: seq<nat>) {
    list != [] && (!Producing(code, list[0]) || NeedValue(code, list[1..]))
  }

  function DischargeJpc(s: State): State {
    PatchList(s, s.jpc, |s.code|, NO_REG, |s.code|).(jpc := [])
  }

  function GetLabel(s: State): State {
    s.(lasttarget := |s.code|)
  }

  function PatchToHere(s: State, list: seq<nat>): State {
    Link(GetLabel(s), s.jpc, list).(jpc := s.jpc + list)
  }

  // ---------- emitting ----------

  function Emit(s: State, i: Instr): State {
    var s1 := DischargeJpc(s);
    s1.(code := s1.code + [i])
  }

  function EmitJump(s: State): (State, seq<nat>) {
    var n := |s.code|;
    var s1 := Emit(s.(jpc := []), Jmp(NO_JUMP));
    (Link(s1, [n], s.jpc), [n] + s.jpc)
  }

  function CondJump(s: State, i: Instr): (State, seq<nat>) {
    EmitJump(Emit(s, i))
  }

  /** `from .. from + n - 1` touches or meets the range of the LOADNIL `i`. */
  predicate CanMergeNil(i: Instr, from: nat, n: nat) {
    i.LoadNil? &&
    var l := from + n - 1;
    var pl := i.a + i.count;
    (i.a <= from <= pl + 1) || (from <= i.a <= l + 1)
  }

  function MergeNil(i: Instr, from: nat, n: nat): Instr
    requires n >= 1 && CanMergeNil(i, from, n)
  {
    var l := from + n - 1;
    var pl := i.a + i.count;
    var lo := if i.a < from then i.a else from;
    LoadNil(lo, (if pl > l then pl else l) - lo)
  }

  function CodeNil(s: State, from: nat, n: nat): State
    requires n >= 1
  {
    var pc := |s.code|;
    if pc > s.lasttarget && CanMergeNil(s.code[pc - 1], from, n)
    then s.(code := s.code[pc - 1 := MergeNil(s.code[pc - 1], from, n)])
    else Emit(s, LoadNil(from, n - 1))
  }

  // ---------- registers ----------

  function Reserve(s: State, n: nat): State {
    var top := s.freereg + n;
    s.(freereg := top,
       maxstack := if top > s.maxstack then top else s.maxstack,
       failed := s.failed || (top > s.maxstack && top >= MAXREGS))
  }

  function FreeReg(s: State, reg: nat): State {
    if reg >= s.nactvar && s.freereg > 0 then s.(freereg := s.freereg - 1) else s
  }

  function FreeExp(s: State, e: Desc): State {
    if e.k.VNonReloc? then FreeReg(s, e.k.reg) else s
  }

  function FreeExps(s: State, e1: Desc, e2: Desc): State {
    var r1 := if e1.k.VNonReloc? then e1.k.reg else -1;
    var r2 := if e2.k.VNonReloc? then e2.k.reg else -1;
    if r1 > r2 then FreeExp(FreeExp(s, e1), e2) else FreeExp(FreeExp(s, e2), e1)
  }

  // ---------- constants ----------

  /** The scanner's table stores a float key with an integral value under that integer. */
  function KeyOf(v: Value): Key {
    match v
    case Nil => KeyTable
    case Bool(b) => KeyBool(b)
    case Str(s) => KeyStr(s)
    case Number(I(n)) => KeyPtr(n)
    case Number(F(Whole(n))) => KeyInt(n)
    case Number(F(PosZero)) => KeyInt(0)
    case Number(F(NegZero)) => KeyInt(0)
    case Number(F(x)) => KeyFlt(x)
    case Object(id) => KeyTable
  }

  predicate SameType(x: Value, y: Value) {
    match (x, y)
    case (Nil, Nil) => true
    case (Bool(_), Bool(_)) => true
    case (Str(_), Str(_)) => true
    case (Number(a), Number(b)) => a.I? == b.I?
    case (Object(_), Object(_)) => true
    case _ => false
  }

  predicate FloatEq(x: Float, y: Float) {
    x != NaN && y != NaN && (x == y || (x in {PosZero, NegZero} && y in {PosZero, NegZero}))
  }

  /** `luaV_rawequalobj`: numbers of different variants are compared by value. */
  predicate RawEqual(x: Value, y: Value) {
    match (x, y)
    case (Number(F(a)), Number(F(b))) => FloatEq(a, b)
    case (Number(I(a)), Number(F(b))) => b == Whole(a) || (a == 0 && b in {PosZero, NegZero})
    case (Number(F(a)), Number(I(b))) => a == Whole(b) || (b == 0 && a in {PosZero, NegZero})
    case _ => x == y
  }

  function AddK(s: State, v: Value): (State, nat) {
    var key := KeyOf(v);
    if key in s.cache && s.cache[key].Index? && s.cache[key].i < |s.kst| &&
       SameType(s.kst[s.cache[key].i], v) && RawEqual(s.kst[s.cache[key].i], v)
    then (s, s.cache[key].i)
    else
      (s.(kst := s.kst + [v], cache := s.cache[key := Index(|s.kst|)],
          failed := s.failed || |s.kst| >= MAXARG_Ax),
       |s.kst|)
  }

  // ---------- placing values ----------

  predicate HasJumps(e: Desc) {
    e.t != [] || e.f != []
  }

  function DischargeVars(e: Desc): Desc {
    if e.k.VLocal? then e.(k := VNonReloc(e.k.reg)) else e
  }

  function WithA(i: Instr, reg: nat): (i': Instr)
    requires Relocatable(i)
    ensures Relocatable(i') && i'.a == reg
  {
    match i
    case Binary(op, _, rb, rc) => Binary(op, reg, rb, rc)
    case Unary(op, _, b) => Unary(op, reg, b)
    case Not(_, b) => Not(reg, b)
    case Concat(_, b, c) => Concat(reg, b, c)
  }

  function SetA(code: seq<Instr>, p: nat, reg: nat): (code': seq<Instr>)
    ensures |code'| == |code|
  {
    if p < |code| && Relocatable(code[p]) then code[p := WithA(code[p], reg)] else code
  }

  function LoadConst(s: State, v: Value, reg: nat): State {
    var (s1, k) := AddK(s, v);
    Emit(s1, LoadK(reg, k))
  }

  function Discharge2Reg(s: State, e: Desc, reg: nat): (State, Desc) {
    var e1 := DischargeVars(e);
    match e1.k
    case VJmp(_) => (s, e1)
    case VNil => (CodeNil(s, reg, 1), e1.(k := VNonReloc(reg)))
    case VFalse => (Emit(s, LoadBool(reg, false, false)), e1.(k := VNonReloc(reg)))
    case VTrue => (Emit(s, LoadBool(reg, true, false)), e1.(k := VNonReloc(reg)))
    case VK(info) => (Emit(s, LoadK(reg, info)), e1.(k := VNonReloc(reg)))
    case VKFlt(x) => (LoadConst(s, Number(F(x)), reg), e1.(k := VNonReloc(reg)))
    case VKInt(i) => (LoadConst(s, Number(I(i)), reg), e1.(k := VNonReloc(reg)))
    case VReloc(pc) => (s.(code := SetA(s.code, pc, reg)), e1.(k := VNonReloc(reg)))
    case VNonReloc(r) =>
      (if r != reg then Emit(s, Move(reg, r)) else s, e1.(k := VNonReloc(reg)))
    case VLocal(_) => (s, e1)
  }

  function Discharge2AnyReg(s: State, e: Desc): (State, Desc) {
    if e.k.VNonReloc? then (s, e)
    else var s1 := Reserve(s, 1); Discharge2Reg(s1, e, s1.freereg - 1)
  }

  function EmitLoadBool(s: State, reg: nat, b: bool, skip: bool): State {
    Emit(GetLabel(s), LoadBool(reg, b, skip))
  }

  function FinishLists(s: State, t: seq<nat>, f: seq<nat>, reg: nat, pf: int, pt: int): State {
    var s1 := GetLabel(s);
    var final := |s1.code|;
    PatchList(PatchList(s1, f, final, reg, pf), t, final, reg, pt)
  }

  /** The `LOADBOOL` pair for the jumps that do not produce their value. */
  function LoadBools(s: State, isJump: bool, reg: nat): State {
    var (s1, fj) := if isJump then (s, []) else EmitJump(s);
    PatchToHere(EmitLoadBool(EmitLoadBool(s1, reg, false, true), reg, true, false), fj)
  }

  function CloseLists(s: State, isJump: bool, t: seq<nat>, f: seq<nat>, reg: nat): State {
    if NeedValue(s.code, t) || NeedValue(s.code, f) then
      var s1 := LoadBools(s, isJump, reg);
      FinishLists(s1, t, f, reg, |s1.code| - 2, |s1.code| - 1)
    else FinishLists(s, t, f, reg, NO_JUMP, NO_JUMP)
  }

  function Exp2Reg(s: State, e: Desc, reg: nat): (State, Desc) {
    var (s1, e1) := Discharge2Reg(s, e, reg);
    var (s2, t2) := if e1.k.VJmp? then (Link(s1, e1.t, [e1.k.pc]), e1.t + [e1.k.pc]) else (s1, e1.t);
    (if t2 == [] && e1.f == [] then s2 else CloseLists(s2, e1.k.VJmp?, t2, e1.f, reg),
     Desc(VNonReloc(reg), [], []))
  }

  function Exp2NextReg(s: State, e: Desc): (State, Desc) {
    var e1 := DischargeVars(e);
    var s1 := Reserve(FreeExp(s, e1), 1);
    Exp2Reg(s1, e1, s1.freereg - 1)
  }

  function Exp2AnyReg(s: State, e: Desc): (State, Desc) {
    var e1 := DischargeVars(e);
    if e1.k.VNonReloc? && !HasJumps(e1) then (s, e1)
    else if e1.k.VNonReloc? && e1.k.reg >= s.nactvar then Exp2Reg(s, e1, e1.k.reg)
    else Exp2NextReg(s, e1)
  }

  function Exp2Val(s: State, e: Desc): (State, Desc) {
    if HasJumps(e) then Exp2AnyReg(s, e) else (s, DischargeVars(e))
  }

  /** The constant that a descriptor stands for, if it is to be moved to the table. */
  function ConstantOf(k: Kind): Option<Value> {
    match k
    case VTrue => Some(Bool(true))
    case VFalse => Some(Bool(false))
    case VNil => Some(Nil)
    case VKInt(i) => Some(Number(I(i)))
    case VKFlt(x) => Some(Number(F(x)))
    case _ => None
  }

  function Exp2RK(s: State, e: Desc): (State, Desc, RK) {
    var (s1, e1) := Exp2Val(s, e);
    var c := ConstantOf(e1.k);
    var (s2, e2) := if c.Some? then var (s', i) := AddK(s1, c.value); (s', e1.(k := VK(i))) else (s1, e1);
    if e2.k.VK? && e2.k.info <= MAXINDEXRK then (s2, e2, K(e2.k.info))
    else
      var (s3, e3) := Exp2AnyReg(s2, e2);
      (s3, e3, R(if e3.k.VNonReloc? then e3.k.reg else 0))
  }

  /** `luaK_storevar` for a local variable. */
  function StoreLocal(s: State, reg: nat, e: Desc): (State, Desc) {
    Exp2Reg(FreeExp(s, e), e, reg)
  }

  // ---------- conditions ----------

  function Negate(code: seq<Instr>, pc: nat): (code': seq<Instr>)
    ensures |code'| == |code|
  {
    var c := Control(code, pc);
    if c < |code| && code[c].Cmp? then var Cmp(op, want, rb, rc) := code[c]; code[c := Cmp(op, !want, rb, rc)] else code
  }

  function JumpOnCond(s: State, e: Desc, cond: bool): (State, Kind, seq<nat>) {
    var n := |s.code|;
    if e.k.VReloc? && n > 0 && s.code[n - 1].Not? then
      var (s1, l) := CondJump(s.(code := s.code[..n - 1]), Test(s.code[n - 1].b, !cond));
      (s1, e.k, l)
    else
      var (s1, e1) := Discharge2AnyReg(s, e);
      var (s2, l) := CondJump(FreeExp(s1, e1), TestSet(NO_REG, if e1.k.VNonReloc? then e1.k.reg else 0, cond));
      (s2, e1.k, l)
  }

  predicate AlwaysTrue(k: Kind) { k.VK? || k.VKFlt? || k.VKInt? || k.VTrue? }

  predicate AlwaysFalse(k: Kind) { k.VNil? || k.VFalse? }

  function GoIfTrue(s: State, e: Desc): (State, Desc) {
    var e1 := DischargeVars(e);
    var (s1, k1, l) :=
      if e1.k.VJmp? then (s.(code := Negate(s.code, e1.k.pc)), e1.k, [e1.k.pc])
      else if AlwaysTrue(e1.k) then (s, e1.k, [])
      else JumpOnCond(s, e1, false);
    (PatchToHere(Link(s1, e1.f, l), e1.t), Desc(k1, [], e1.f + l))
  }

  function GoIfFalse(s: State, e: Desc): (State, Desc) {
    var e1 := DischargeVars(e);
    var (s1, k1, l) :=
      if e1.k.VJmp? then (s, e1.k, [e1.k.pc])
      else if AlwaysFalse(e1.k) then (s, e1.k, [])
      else JumpOnCond(s, e1, true);
    (PatchToHere(Link(s1, e1.t, l), e1.f), Desc(k1, e1.t + l, []))
  }

  function NegateValue(s: State, e: Desc): (State, Kind) {
    if AlwaysFalse(e.k) then (s, VTrue)
    else if AlwaysTrue(e.k) then (s, VFalse)
    else if e.k.VJmp? then (s.(code := Negate(s.code, e.k.pc)), e.k)
    else
      var (s1, e1) := Discharge2AnyReg(s, e);
      var s2 := FreeExp(s1, e1);
      (Emit(s2, Not(0, if e1.k.VNonReloc? then e1.k.reg else 0)), VReloc(|s2.code|))
  }

  function CodeNot(s: State, e: Desc): (State, Desc) {
    var e1 := DischargeVars(e);
    var (s1, k1) := NegateValue(s, e1);
    (s1.(code := RemoveValues(RemoveValues(s1.code, e1.t), e1.f)), Desc(k1, e1.f, e1.t))
  }

  // ---------- operators ----------

  function ToNumeral(e: Desc): Option<Num> {
    if HasJumps(e) then None
    else
      match e.k
      case VKInt(i) => Some(I(i))
      case VKFlt(x) => Some(F(x))
      case _ => None
  }

  /** The folded result, unless an operand is no numeral, the operation could fail, or the
      result is a NaN or a zero of either sign. */
  function ConstFolding(m: Machine, op: Prim, e1: Desc, e2: Desc): Option<Kind> {
    var x, y := ToNumeral(e1), ToNumeral(e2);
    if x.None? || y.None? || !ValidOp(op, x.value, y.value) then None
    else
      match m.raw(op, x.value, y.value)
      case I(i) => Some(VKInt(i))
      case F(z) => if z in {NaN, PosZero, NegZero} then None else Some(VKFlt(z))
  }

  function CodeUnExpVal(s: State, op: UnOp, e: Desc): (State, Desc) {
    var (s1, e1) := Exp2AnyReg(s, e);
    var s2 := FreeExp(s1, e1);
    (Emit(s2, Unary(op, 0, if e1.k.VNonReloc? then e1.k.reg else 0)), Desc(VReloc(|s2.code|), [], []))
  }

  function CodeBinExpVal(s: State, op: ArithOp, e1: Desc, e2: Desc): (State, Desc) {
    var (s1, d1, rk1) := Exp2RK(s, e1);
    var (s2, d2, rk2) := Exp2RK(s1, e2);
    var s3 := FreeExps(s2, d1, d2);
    (Emit(s3, Binary(op, 0, rk1, rk2)), Desc(VReloc(|s3.code|), [], []))
  }

  /** The second operand of a concatenation is itself one, just compiled: extend its range. */
  predicate CanMergeConcat(s: State, e2: Desc) {
    e2.k.VReloc? && e2.k.pc < |s.code| && s.code[e2.k.pc].Concat?
  }

  function CodeConcat(s: State, e1: Desc, e2: Desc): (State, Desc) {
    var (s1, d2) := Exp2Val(s, e2);
    var r1 := if e1.k.VNonReloc? then e1.k.reg else 0;
    if CanMergeConcat(s1, d2) then
      var s2 := FreeExp(s1, e1);
      var Concat(a, _, c) := s2.code[d2.k.pc];
      (s2.(code := s2.code[d2.k.pc := Concat(a, r1, c)]), Desc(d2.k, [], []))
    else
      var (s2, d3) := Exp2NextReg(s1, d2);
      var s3 := FreeExps(s2, e1, d3);
      (Emit(s3, Concat(0, r1, if d3.k.VNonReloc? then d3.k.reg else 0)), Desc(VReloc(|s3.code|), [], []))
  }

  /** The comparison instruction: `~=` is a negated `==`, `>` and `>=` swap their operands. */
  function CompareInstr(rel: Rel, rk1: RK, rk2: RK): Instr {
    match rel
    case NotEqual => Cmp(EQ, false, rk1, rk2)
    case Greater => Cmp(LT, true, rk2, rk1)
    case GreaterEq => Cmp(LE, true, rk2, rk1)
    case Equal => Cmp(EQ, true, rk1, rk2)
    case Less => Cmp(LT, true, rk1, rk2)
    case LessEq => Cmp(LE, true, rk1, rk2)
  }

  /** The first operand was already put in R/K form by `luaK_infix`. */
  function OperandRK(k: Kind): RK {
    match k
    case VK(i) => K(i)
    case VNonReloc(r) => R(r)
    case _ => R(0)
  }

  function CodeComp(s: State, rel: Rel, e1: Desc, e2: Desc): (State, Desc) {
    var (s1, d2, rk2) := Exp2RK(s, e2);
    var s2 := FreeExps(s1, e1, d2);
    var (s3, _) := CondJump(s2, CompareInstr(rel, OperandRK(e1.k), rk2));
    (s3, Desc(VJmp(|s2.code| + 1), [], []))
  }

  function Prefix(m: Machine, s: State, op: UnOp, e: Desc): (State, Desc) {
    var folded := if op == LEN then None else ConstFolding(m, PUn(op), e, Desc(VKInt(0), [], []));
    if folded.Some? then (s, e.(k := folded.value)) else CodeUnExpVal(s, op, e)
  }

  function Infix(s: State, op: BinOpr, e: Desc): (State, Desc) {
    match op
    case OprAnd => GoIfTrue(s, e)
    case OprOr => GoIfFalse(s, e)
    case OprConcat => Exp2NextReg(s, e)
    case OprArith(_) => if ToNumeral(e).Some? then (s, e) else var (s1, e1, _) := Exp2RK(s, e); (s1, e1)
    case OprRel(_) => var (s1, e1, _) := Exp2RK(s, e); (s1, e1)
  }

  function Posfix(m: Machine, s: State, op: BinOpr, e1: Desc, e2: Desc): (State, Desc) {
    match op
    case OprAnd => var d2 := DischargeVars(e2); (Link(s, d2.f, e1.f), d2.(f := d2.f + e1.f))
    case OprOr => var d2 := DischargeVars(e2); (Link(s, d2.t, e1.t), d2.(t := d2.t + e1.t))
    case OprConcat => CodeConcat(s, e1, e2)
    case OprArith(aop) =>
      var folded := ConstFolding(m, PArith(aop), e1, e2);
      if folded.Some? then (s, e1.(k := folded.value)) else CodeBinExpVal(s, aop, e1, e2)
    case OprRel(rel) => CodeComp(s, rel, e1, e2)
  }

  // ---------- what an operand can name ----------

  /** The numeral, if it is to be an operand, has an index that an instruction can name. */
  predicate Named(s: State, d: Desc) {
    !HasJumps(d) && (d.k.VKInt? || d.k.VKFlt?) ==> AddK(s, ConstantOf(d.k).value).1 <= MAXINDEXRK
  }

  /** An operand that `luaK_exp2RK` turns into R/K form without emitting code. */
  predicate Settled(s: State, d: Desc) {
    && !HasJumps(d)
    && (d.k.VNonReloc? || (d.k.VK? && d.k.info <= MAXINDEXRK) || ((d.k.VKInt? || d.k.VKFlt?) && Named(s, d)))
  }

  /** The code of the operand is left at its end only. */
  predicate Straight(d: Desc) {
    !HasJumps(d) && !d.k.VJmp?
  }

  /** A numeral that comes first, in an arithmetic operation that is not folded, needs no
      register, unless it cannot be missed on the way out of the second operand. */
  predicate InTime(m: Machine, s: State, op: BinOpr, d: Desc, d2: Desc) {
    op.OprArith? && ConstFolding(m, PArith(op.op), d, d2).None? ==> Named(s, d) || Straight(d2)
  }

  // ---------- the driver ----------

  /** `subexpr` on a parsed expression: operand, infix, operand, posfix. */
  function Compile(m: Machine, s: State, e: Expr): (State, Desc)
    decreases e
  {
    match e
    case ENil => (s, Desc(VNil, [], []))
    case ETrue => (s, Desc(VTrue, [], []))
    case EFalse => (s, Desc(VFalse, [], []))
    case ENumber(I(i)) => (s, Desc(VKInt(i), [], []))
    case ENumber(F(x)) => (s, Desc(VKFlt(x), [], []))
    case EString(str) => var (s1, k) := AddK(s, Str(str)); (s1, Desc(VK(k), [], []))
    case ELocal(r) => (s, Desc(VLocal(r), [], []))
    case EParen(e1) => var (s1, d) := Compile(m, s, e1); (s1, DischargeVars(d))
    case ENot(e1) => var (s1, d) := Compile(m, s, e1); CodeNot(s1, d)
    case EUnary(op, e1) => var (s1, d) := Compile(m, s, e1); Prefix(m, s1, op, d)
    case EBinary(op, e1, e2) =>
      var (s1, d1) := Compile(m, s, e1);
      var (s2, d1') := Infix(s1, op, d1);
      var (s3, d2) := Compile(m, s2, e2);
      Posfix(m, s3, op, d1', d2)
  }

  /** That is so for every operation of an expression. */
  predicate Nameable(m: Machine, s: State, e: Expr)
    decreases e
  {
    match e
    case EParen(e1) => Nameable(m, s, e1)
    case ENot(e1) => Nameable(m, s, e1)
    case EUnary(_, e1) => Nameable(m, s, e1)
    case EBinary(op, e1, e2) =>
      var (s1, d1) := Compile(m, s, e1);
      var (s2, d1') := Infix(s1, op, d1);
      var (s3, d2) := Compile(m, s2, e2);
      Nameable(m, s, e1) && Nameable(m, s2, e2) && InTime(m, s3, op, d1', d2)
    case _ => true
  }
}
