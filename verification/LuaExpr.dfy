/** Call-free Lua expressions and what they mean. */
module LuaExpr {
  import opened LuaVM

  /** The comparison operators of the source language, in its order of `BinOpr`. */
  datatype Rel = Equal | Less | LessEq | NotEqual | Greater | GreaterEq

  datatype BinOpr = OprArith(op: ArithOp) | OprConcat | OprRel(rel: Rel) | OprAnd | OprOr

  datatype Expr =
    | ENil
    | ETrue
    | EFalse
    | ENumber(num: Num)
    | EString(s: string)
    | ELocal(reg: nat)
    | EParen(e: Expr)
    | ENot(e: Expr)
    | EUnary(uop: UnOp, e: Expr)
    | EBinary(op: BinOpr, e1: Expr, e2: Expr)

  /** Numerals are never NaN or minus zero, and a local is one of the n active ones. */
  predicate Proper(e: Expr, n: nat) {
    match e
    case ENumber(num) => num != F(NaN) && num != F(NegZero)
    case ELocal(r) => r < n
    case EParen(e1) => Proper(e1, n)
    case ENot(e1) => Proper(e1, n)
    case EUnary(_, e1) => Proper(e1, n)
    case EBinary(_, e1, e2) => Proper(e1, n) && Proper(e2, n)
    case _ => true
  }

  /** Leaves and negations: no expression adds more constants than that. */
  function Budget(e: Expr): (n: nat)
    ensures n >= 1
  {
    match e
    case EParen(e1) => Budget(e1)
    case ENot(e1) => 1 + Budget(e1)
    case EUnary(_, e1) => Budget(e1)
    case EBinary(_, e1, e2) => Budget(e1) + Budget(e2)
    case _ => 1
  }

  /** `a ~= b` is `not (a == b)`, `a > b` is `b < a`, `a >= b` is `b <= a`. */
  function EvalRel(m: Machine, rel: Rel, x: Value, y: Value, w: World): Res {
    match rel
    case Equal => Compare(m, EQ, x, y, w)
    case Less => Compare(m, LT, x, y, w)
    case LessEq => Compare(m, LE, x, y, w)
    case Greater => Compare(m, LT, y, x, w)
    case GreaterEq => Compare(m, LE, y, x, w)
    case NotEqual =>
      match Compare(m, EQ, x, y, w)
      case Ok(v, w') => Ok(Bool(v == Bool(false)), w')
      case Err(w') => Err(w')
  }

  /** A binary operator that evaluates both its operands. */
  function Apply(m: Machine, op: BinOpr, x: Value, y: Value, w: World): Res
    requires !op.OprAnd? && !op.OprOr?
  {
    match op
    case OprArith(aop) => Arith(m, aop, x, y, w)
    case OprConcat => Call(m, PConcat, x, y, w)
    case OprRel(rel) => EvalRel(m, rel, x, y, w)
  }

  /** The value of an expression, operands evaluated from left to right. */
  function Eval(m: Machine, e: Expr, regs: Regs, w: World): Res {
    match e
    case ENil => Ok(Nil, w)
    case ETrue => Ok(Bool(true), w)
    case EFalse => Ok(Bool(false), w)
    case ENumber(n) => Ok(Number(n), w)
    case EString(s) => Ok(Str(s), w)
    case ELocal(r) => Ok(Get(regs, r), w)
    case EParen(e1) => Eval(m, e1, regs, w)
    case ENot(e1) =>
      (match Eval(m, e1, regs, w)
       case Ok(v, w') => Ok(Bool(!Truthy(v)), w')
       case Err(w') => Err(w'))
    case EUnary(op, e1) =>
      (match Eval(m, e1, regs, w)
       case Ok(v, w') => UnArith(m, op, v, w')
       case Err(w') => Err(w'))
    case EBinary(op, e1, e2) =>
      match Eval(m, e1, regs, w)
      case Err(w') => Err(w')
      case Ok(v1, w') =>
        if op.OprAnd? && !Truthy(v1) then Ok(v1, w')
        else if op.OprOr? && Truthy(v1) then Ok(v1, w')
        else
          match Eval(m, e2, regs, w')
          case Err(w'') => Err(w'')
          case Ok(v2, w'') =>
            if op.OprAnd? || op.OprOr? then Ok(v2, w'') else Apply(m, op, v1, v2, w'')
  }

  /** Only the active locals matter. */
  lemma {:induction false} EvalLocals(m: Machine, e: Expr, n: nat, regs: Regs, regs': Regs, w: World)
    requires Proper(e, n) && (forall r: nat :: r < n ==> Get(regs, r) == Get(regs', r))
    ensures Eval(m, e, regs, w) == Eval(m, e, regs', w)
    decreases e
  {
    match e
    case EParen(e1) => EvalLocals(m, e1, n, regs, regs', w);
    case ENot(e1) => EvalLocals(m, e1, n, regs, regs', w);
    case EUnary(_, e1) => EvalLocals(m, e1, n, regs, regs', w);
    case EBinary(op, e1, e2) =>
      EvalLocals(m, e1, n, regs, regs', w);
      var r := Eval(m, e1, regs, w);
      if r.Ok? {
        EvalLocals(m, e2, n, regs, regs', r.w);
      }
    case _ =>
  }
}
