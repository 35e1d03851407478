/** Lua values, the primitive operations on them, and the part of the Lua 5.3 virtual
    machine that call-free expressions are compiled to. */
module LuaVM {

  datatype Option<+T> = None | Some(value: T)

  /** A double, up to what the code generator can tell apart: `Whole(n)` is the float with
      the non-zero integral value n, `Frac(id)` any other float that is not a zero or NaN. */
  datatype Float = NaN | PosZero | NegZero | Whole(n: int) | Frac(id: int)

  datatype Num = I(i: int) | F(x: Float)

  datatype Value = Nil | Bool(b: bool) | Number(num: Num) | Str(s: string) | Object(id: int)

  predicate Truthy(v: Value) {
    v != Nil && v != Bool(false)
  }

  // ---------- primitive operations ----------

  datatype ArithOp = ADD | SUB | MUL | MOD | POW | DIV | IDIV | BAND | BOR | BXOR | SHL | SHR
  datatype UnOp = UNM | BNOT | LEN
  datatype CmpOp = EQ | LT | LE
  datatype Prim = PArith(aop: ArithOp) | PUn(uop: UnOp) | PConcat | PCmp(cop: CmpOp)

  /** One primitive operation that may call a metamethod. */
  datatype Event = Event(op: Prim, x: Value, y: Value)

  /** Everything that has happened so far: the outcome of the next primitive operation may
      depend on it, and equal traces mean the same operations in the same order. */
  type World = seq<Event>

  /** What is left open about the machine: raw arithmetic on two numbers, and the outcome of
      the last operation of a trace (`None`: it raises an error). */
  datatype Machine = Machine(raw: (Prim, Num, Num) -> Num, meta: World -> Option<Value>)

  datatype Res = Ok(v: Value, w: World) | Err(w: World)

  function Call(m: Machine, op: Prim, x: Value, y: Value, w: World): Res {
    var w' := w + [Event(op, x, y)];
    match m.meta(w')
    case Some(v) => Ok(v, w')
    case None => Err(w')
  }

  predicate IsZero(n: Num) {
    n == I(0) || n == F(PosZero) || n == F(NegZero)
  }

  /** The integers have 64 bits. */
  const MININTEGER: int := -0x8000_0000_0000_0000

  /** `tointeger` succeeds on this number: it is an integer, a zero, or a whole float in the
      range of the integers. */
  predicate FitsInteger(n: Num) {
    match n
    case I(_) => true
    case F(Whole(k)) => MININTEGER <= k < -MININTEGER
    case F(x) => x == PosZero || x == NegZero
  }

  /** The test of `validop`: the raw operation cannot raise an error. */
  predicate ValidOp(op: Prim, x: Num, y: Num) {
    match op
    case PArith(BAND) => FitsInteger(x) && FitsInteger(y)
    case PArith(BOR) => FitsInteger(x) && FitsInteger(y)
    case PArith(BXOR) => FitsInteger(x) && FitsInteger(y)
    case PArith(SHL) => FitsInteger(x) && FitsInteger(y)
    case PArith(SHR) => FitsInteger(x) && FitsInteger(y)
    case PUn(BNOT) => FitsInteger(x) && FitsInteger(y)
    case PArith(DIV) => !IsZero(y)
    case PArith(IDIV) => !IsZero(y)
    case PArith(MOD) => !IsZero(y)
    case _ => true
  }

  /** Arithmetic on two numbers that cannot fail is pure; everything else is an event. */
  function Arith(m: Machine, op: ArithOp, x: Value, y: Value, w: World): Res {
    if x.Number? && y.Number? && ValidOp(PArith(op), x.num, y.num)
    then Ok(Number(m.raw(PArith(op), x.num, y.num)), w)
    else Call(m, PArith(op), x, y, w)
  }

  function UnArith(m: Machine, op: UnOp, x: Value, w: World): Res {
    if x.Number? && op != LEN && ValidOp(PUn(op), x.num, I(0))
    then Ok(Number(m.raw(PUn(op), x.num, I(0))), w)
    else Call(m, PUn(op), x, x, w)
  }

  function Compare(m: Machine, op: CmpOp, x: Value, y: Value, w: World): Res {
    match Call(m, PCmp(op), x, y, w)
    case Ok(v, w') => Ok(Bool(Truthy(v)), w')
    case Err(w') => Err(w')
  }

  // ---------- instructions ----------

  /** An operand that is either a register or an index into the constant table. */
  datatype RK = R(r: nat) | K(k: nat)

  datatype Instr =
    | Move(a: nat, b: nat)
    | LoadK(a: nat, bx: nat)
    | LoadBool(a: nat, v: bool, skip: bool)
    | LoadNil(a: nat, count: nat)
    | Binary(op: ArithOp, a: nat, rb: RK, rc: RK)
    | Unary(uop: UnOp, a: nat, b: nat)
    | Not(a: nat, b: nat)
    | Concat(a: nat, b: nat, c: nat)
    | Jmp(sbx: int)
    | Cmp(cop: CmpOp, want: bool, rb: RK, rc: RK)
    | Test(a: nat, cond: bool)
    | TestSet(a: nat, b: nat, cond: bool)
    | Return(a: nat, count: nat)

  /** The register number that no instruction may use: "no register". */
  const NO_REG: nat := 255

  /** Test instructions: the next instruction is the jump they control. */
  predicate TMode(i: Instr) {
    i.Cmp? || i.Test? || i.TestSet?
  }

  /** Instructions that compute one value and put it in register `a`. */
  predicate Relocatable(i: Instr) {
    i.Binary? || i.Unary? || i.Not? || i.Concat?
  }

  type Regs = map<nat, Value>

  function Get(regs: Regs, r: nat): Value {
    if r in regs then regs[r] else Nil
  }

  function RKValue(kst: seq<Value>, regs: Regs, x: RK): Value {
    match x
    case R(r) => Get(regs, r)
    case K(k) => if k < |kst| then kst[k] else Nil
  }

  /** `R(b) .. R(b+1) .. ... .. R(c)`, from the right. */
  function ConcatRange(m: Machine, regs: Regs, b: nat, c: nat, w: World): Res
    decreases c - b
  {
    if b >= c then Ok(Get(regs, b), w)
    else
      match ConcatRange(m, regs, b + 1, c, w)
      case Ok(v, w') => Call(m, PConcat, Get(regs, b), v, w')
      case Err(w') => Err(w')
  }

  /** The value that a relocatable instruction computes. */
  function ExecVal(m: Machine, kst: seq<Value>, i: Instr, regs: Regs, w: World): Res
    requires Relocatable(i)
  {
    match i
    case Binary(op, _, rb, rc) => Arith(m, op, RKValue(kst, regs, rb), RKValue(kst, regs, rc), w)
    case Unary(op, _, b) => UnArith(m, op, Get(regs, b), w)
    case Not(_, b) => Ok(Bool(!Truthy(Get(regs, b))), w)
    case Concat(_, b, c) => ConcatRange(m, regs, b, c, w)
  }

  /** Sets R(a), ..., R(a + count) to nil. */
  function SetNil(regs: Regs, a: nat, count: nat): (regs': Regs)
    ensures forall r :: r in regs' <==> r in regs || a <= r <= a + count
    ensures forall r :: r in regs' ==> regs'[r] == if a <= r <= a + count then Nil else regs[r]
    decreases count
  {
    if count == 0 then regs[a := Nil] else SetNil(regs[a := Nil], a + 1, count - 1)
  }

  datatype Next = Goto(pc: int, regs: Regs, w: World) | Raise(w: World)

  /** One instruction.  A test that succeeds goes on with the jump it controls, one that
      fails skips it.  (A TESTSET without a register occurs only in unfinished code.) */
  function Step(m: Machine, kst: seq<Value>, i: Instr, pc: nat, regs: Regs, w: World): Next {
    match i
    case Move(a, b) => Goto(pc + 1, regs[a := Get(regs, b)], w)
    case LoadK(a, bx) => Goto(pc + 1, regs[a := RKValue(kst, regs, K(bx))], w)
    case LoadBool(a, v, skip) => Goto(if skip then pc + 2 else pc + 1, regs[a := Bool(v)], w)
    case LoadNil(a, n) => Goto(pc + 1, SetNil(regs, a, n), w)
    case Jmp(sbx) => Goto(pc + 1 + sbx, regs, w)
    case Cmp(op, want, rb, rc) =>
      (match Compare(m, op, RKValue(kst, regs, rb), RKValue(kst, regs, rc), w)
       case Ok(v, w') => Goto(if v == Bool(want) then pc + 1 else pc + 2, regs, w')
       case Err(w') => Raise(w'))
    case Test(a, cond) =>
      Goto(if Truthy(Get(regs, a)) == cond then pc + 1 else pc + 2, regs, w)
    case TestSet(a, b, cond) =>
      if Truthy(Get(regs, b)) == cond
      then Goto(pc + 1, if a == NO_REG then regs else regs[a := Get(regs, b)], w)
      else Goto(pc + 2, regs, w)
    case Return(a, n) => Goto(pc, regs, w)
    case _ =>
      match ExecVal(m, kst, i, regs, w)
      case Ok(v, w') => Goto(pc + 1, regs[i.a := v], w')
      case Err(w') => Raise(w')
  }

  // ---------- running code ----------

  datatype Outcome = Exit(pc: nat, regs: Regs, w: World) | Fail(w: World) | Stuck

  /** Runs forward-jumping code from pc until it falls off the end, reaches a position in
      `stops`, or raises an error.  `Stuck` marks a jump that is not forward. */
  function Run(m: Machine, kst: seq<Value>, code: seq<Instr>, stops: set<nat>,
               pc: nat, regs: Regs, w: World): Outcome
    decreases |code| - pc
  {
    if pc >= |code| || pc in stops then Exit(pc, regs, w)
    else
      match Step(m, kst, code[pc], pc, regs, w)
      case Goto(t, regs', w') =>
        if pc < t <= |code| then Run(m, kst, code, stops, t, regs', w') else Stuck
      case Raise(w') => Fail(w')
  }
}
