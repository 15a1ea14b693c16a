/** The abstract syntax tree the parser builds.

    A `Num` keeps the integer of its INTEGER token; a `UnaryOp` and a `BinOp`
    keep the operator their token stands for (the tokens themselves carry
    nothing else the evaluator reads). */
module Ast {
  import opened Tokens

  /** The operator of a `UnaryOp`: the sign token in front of a factor. */
  datatype Sign = Positive | Negative

  /** The operator of a `BinOp`. */
  datatype BinaryOp = Add | Subtract | Multiply | Divide

  datatype Node =
    | Num(value: nat)
    | UnaryOp(sign: Sign, expr: Node)
    | BinOp(left: Node, op: BinaryOp, right: Node)

  /** `+`, `-` bind looser than `*`, `/`. */
  predicate IsAdditive(op: BinaryOp) {
    op == Add || op == Subtract
  }

  function SignOf(k: Kind): Sign
    requires k == Plus || k == Minus
  {
    if k == Plus then Positive else Negative
  }

  function OpOf(k: Kind): BinaryOp
    requires k == Plus || k == Minus || k == Mul || k == Div
  {
    match k
    case Plus => Add
    case Minus => Subtract
    case Mul => Multiply
    case Div => Divide
  }

  /** The token kind a sign is written with. */
  function SignKind(s: Sign): (k: Kind)
    ensures (k == Plus || k == Minus) && SignOf(k) == s
  {
    match s
    case Positive => Plus
    case Negative => Minus
  }

  /** The token kind an operator is written with. */
  function OpKind(op: BinaryOp): (k: Kind)
    ensures (k == Plus || k == Minus || k == Mul || k == Div) && OpOf(k) == op
    ensures IsAdditive(op) <==> (k == Plus || k == Minus)
  {
    match op
    case Add => Plus
    case Subtract => Minus
    case Multiply => Mul
    case Divide => Div
  }
}
