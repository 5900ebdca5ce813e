/** The instructions and float values that the check-convergence pass looks at (src/codegen/float_chain.rs). */
module FloatIr {
  /** An IEEE 754 value; only its class, sign and magnitude matter here. */
  datatype Float = NaN | Inf(negative: bool) | Finite(negative: bool, magnitude: real) {
    predicate NonFinite() {
      !Finite?
    }
  }

  datatype ArithOp = FAdd | FSub | FMul | FDiv | FRem

  datatype Predicate = Uno | Oeq | OtherPredicate(code: nat)

  datatype Operand = Ref(id: nat) | Const(value: Float) | Param(index: nat)

  /** A function is the sequence of its instructions in layout order. An instruction is named by its
      position, a basic block by the position of its first instruction; it ends with its terminator. */
  datatype Inst =
    | Arith(op: ArithOp, lhs: Operand, rhs: Operand)
    | Call(callee: string, args: seq<Operand>)
    | FCmp(pred: Predicate, left: Operand, right: Operand)
    | Or(a: Operand, b: Operand)
    | CondBr(cond: Operand, succ0: nat, succ1: nat)
    | Br(target: nat)
    | Alloca
    | Store(value: Operand, ptr: Operand)
    | Load(ptr: Operand)
    | Ret(result: Operand)
    | Unreachable
    | Other(operands: seq<Operand>)

  type Code = seq<Inst>

  function Operands(inst: Inst): seq<Operand> {
    match inst
    case Arith(_, l, r) => [l, r]
    case Call(_, args) => args
    case FCmp(_, l, r) => [l, r]
    case Or(a, b) => [a, b]
    case CondBr(c, _, _) => [c]
    case Store(v, p) => [v, p]
    case Load(p) => [p]
    case Ret(r) => [r]
    case Other(os) => os
    case _ => []
  }

  predicate IsTerminator(inst: Inst) {
    inst.CondBr? || inst.Br? || inst.Ret? || inst.Unreachable?
  }

  predicate Defines(f: Code, o: Operand) {
    o.Ref? && o.id < |f|
  }

  const TRAP := "mimi_trap_float_not_finite"

  // --- arithmetic on the special values (IEEE 754-2019, sections 6.1 and 6.2) ---

  /** What the model leaves open: results on finite operands (rounding, overflow, division by zero),
      library calls outside the table below, other comparisons, parameters and uninitialised cells. */
  datatype Machine = Machine(
    finite: (ArithOp, Float, Float) -> Float,
    library: (string, seq<Float>) -> Float,
    compare: (nat, Float, Float) -> bool,
    params: nat -> Float,
    uninitialised: Float)

  function Negate(x: Float): Float {
    match x
    case NaN => NaN
    case Inf(n) => Inf(!n)
    case Finite(n, m) => Finite(!n, m)
  }

  function Sum(x: Float, y: Float, otherwise: Float): Float {
    match (x, y)
    case (NaN, _) => NaN
    case (_, NaN) => NaN
    case (Inf(m), Inf(n)) => if m == n then x else NaN
    case (Inf(_), _) => x
    case (_, Inf(_)) => y
    case _ => otherwise
  }

  function Product(x: Float, y: Float, otherwise: Float): Float {
    match (x, y)
    case (NaN, _) => NaN
    case (_, NaN) => NaN
    case (Inf(m), Inf(n)) => Inf(m != n)
    case (Inf(m), Finite(n, mag)) => if mag == 0.0 then NaN else Inf(m != n)
    case (Finite(n, mag), Inf(m)) => if mag == 0.0 then NaN else Inf(m != n)
    case _ => otherwise
  }

  function Quotient(x: Float, y: Float, otherwise: Float): Float {
    match (x, y)
    case (NaN, _) => NaN
    case (_, NaN) => NaN
    case (Inf(_), Inf(_)) => NaN
    case (Inf(m), Finite(n, _)) => Inf(m != n)
    case (Finite(m, _), Inf(n)) => Finite(m != n, 0.0)
    case _ => otherwise
  }

  function Remainder(x: Float, y: Float, otherwise: Float): Float {
    match (x, y)
    case (NaN, _) => NaN
    case (_, NaN) => NaN
    case (Inf(_), _) => NaN
    case (_, Inf(_)) => x
    case _ => otherwise
  }

  function ArithValue(machine: Machine, op: ArithOp, x: Float, y: Float): Float {
    var otherwise := machine.finite(op, x, y);
    match op
    case FAdd => Sum(x, y, otherwise)
    case FSub => Sum(x, Negate(y), otherwise)
    case FMul => Product(x, y, otherwise)
    case FDiv => Quotient(x, y, otherwise)
    case FRem => Remainder(x, y, otherwise)
  }

  predicate IsFabsIntrinsic(name: string) {
    name == "llvm.fabs.f64" || name == "llvm.fabs.f32"
  }

  /** Library functions on their arguments; the special values of one-argument functions are fixed. */
  function LibraryValue(machine: Machine, name: string, args: seq<Float>): Float {
    if |args| != 1 then machine.library(name, args) else
    var x := args[0];
    if IsFabsIntrinsic(name) then (if x.Finite? then x.(negative := false) else if x.Inf? then Inf(false) else NaN)
    else if x.Finite? then machine.library(name, args)
    else if name in ["sqrt", "log", "log2", "log10"] then (if x == Inf(false) then x else NaN)
    else if name in ["sin", "cos", "tan", "asin", "acos"] then NaN
    else if name in ["sinh", "cbrt", "floor", "ceil", "round"] then x
    else if name in ["cosh", "fabs"] then (if x.Inf? then Inf(false) else NaN)
    else if name in ["exp", "exp2"] then (if x == Inf(true) then Finite(false, 0.0) else x)
    else if name == "tanh" then (if x.Inf? then Finite(x.negative, 1.0) else NaN)
    else machine.library(name, args)
  }
}
