/** What `Interpreter.visit` computes on a tree: Python's `int` arithmetic,
    with `/` as true division, which always gives a `float` (modelled
    without rounding, as an exact rational), and `ZeroDivisionError` when the
    divisor is zero. */
module Evaluation {
  import opened Tokens
  import opened Ast

  /** A Python number: an `int`, or a `float` (exact here). */
  datatype Number = IntNum(i: int) | FloatNum(x: real)

  function ToReal(v: Number): real {
    match v
    case IntNum(i) => i as real
    case FloatNum(x) => x
  }

  /** Unary `-`: keeps the type. */
  function Negate(v: Number): (r: Number)
    ensures r.IntNum? == v.IntNum? && ToReal(r) == -ToReal(v)
  {
    match v
    case IntNum(i) => IntNum(-i)
    case FloatNum(x) => FloatNum(-x)
  }

  /** A binary operator over the reals; division by zero gives 0 here. */
  function Combine(op: BinaryOp, x: real, y: real): real {
    match op
    case Add => x + y
    case Subtract => x - y
    case Multiply => x * y
    case Divide => if y == 0.0 then 0.0 else x / y
  }

  /** `+`, `-` and `*`: `int` when both sides are, `float` otherwise. */
  function Arith(op: BinaryOp, a: Number, b: Number): (r: Number)
    requires op != Divide
    ensures r.IntNum? <==> a.IntNum? && b.IntNum?
    ensures ToReal(r) == Combine(op, ToReal(a), ToReal(b))
  {
    if a.IntNum? && b.IntNum? then
      IntNum(match op case Add => a.i + b.i case Subtract => a.i - b.i case Multiply => a.i * b.i)
    else
      var x, y := ToReal(a), ToReal(b);
      FloatNum(match op case Add => x + y case Subtract => x - y case Multiply => x * y)
  }

  /** True division: always a `float`, the number that multiplied by the
      divisor gives the dividend. */
  function Quotient(a: Number, b: Number): (r: Number)
    requires ToReal(b) != 0.0
    ensures r.FloatNum? && ToReal(r) * ToReal(b) == ToReal(a)
  {
    FloatNum(ToReal(a) / ToReal(b))
  }

  /** True when `t` contains a division. */
  predicate HasDivision(t: Node) {
    match t
    case Num(_) => false
    case UnaryOp(_, e) => HasDivision(e)
    case BinOp(l, op, r) => op == Divide || HasDivision(l) || HasDivision(r)
  }

  /** `visit`: the value of a tree, or the exception it raises. A division
      evaluates its right operand first and raises before evaluating the
      left one when that operand is zero; the other operators evaluate left
      to right. */
  function Eval(t: Node): (r: Result<Number>)
    ensures r.Err? ==> r.error == ZeroDivisionError
    ensures r.Ok? ==> (r.value.IntNum? <==> !HasDivision(t))
  {
    match t
    case Num(n) => Ok(IntNum(n))
    case UnaryOp(sign, e) =>
      var v := Eval(e);
      if v.Err? then v
      else if sign == Positive then v
      else Ok(Negate(v.value))
    case BinOp(l, op, r) =>
      if op == Divide then
        var right := Eval(r);
        if right.Err? then right
        else if ToReal(right.value) == 0.0 then Err(ZeroDivisionError)
        else
          var left := Eval(l);
          if left.Err? then left
          else Ok(Quotient(left.value, right.value))
      else
        var left := Eval(l);
        if left.Err? then left
        else
          var right := Eval(r);
          if right.Err? then right
          else Ok(Arith(op, left.value, right.value))
  }

  /** The value of a tree in exact arithmetic over the reals, ignoring the
      int/float distinction; a division by zero counts as 0 here and is
      caught by `DividesByZero`. */
  function RealValue(t: Node): real {
    match t
    case Num(n) => n as real
    case UnaryOp(sign, e) => if sign == Positive then RealValue(e) else -RealValue(e)
    case BinOp(l, op, r) => Combine(op, RealValue(l), RealValue(r))
  }

  /** Some division in `t` has a divisor whose value is zero. */
  predicate DividesByZero(t: Node) {
    match t
    case Num(_) => false
    case UnaryOp(_, e) => DividesByZero(e)
    case BinOp(l, op, r) => DividesByZero(l) || DividesByZero(r) || (op == Divide && RealValue(r) == 0.0)
  }

  /** A value the evaluation yields is the value in exact arithmetic. */
  lemma {:induction false} EvalIsExact(t: Node)
    ensures Eval(t).Ok? ==> ToReal(Eval(t).value) == RealValue(t)
  {
    match t
    case Num(_) =>
    case UnaryOp(_, e) =>
      EvalIsExact(e);
    case BinOp(l, op, r) =>
      EvalIsExact(l);
      EvalIsExact(r);
      var left, right := Eval(l), Eval(r);
      if left.Ok? && right.Ok? {
        if op == Divide {
          if ToReal(right.value) != 0.0 {
            assert Eval(t) == Ok(Quotient(left.value, right.value));
          }
        } else {
          assert Eval(t) == Ok(Arith(op, left.value, right.value));
        }
      }
  }

  /** Evaluation raises exactly when some divisor in the tree is zero. */
  lemma {:induction false} EvalFailsIffDividesByZero(t: Node)
    ensures Eval(t).Err? <==> DividesByZero(t)
  {
    match t
    case Num(_) =>
    case UnaryOp(_, e) =>
      EvalFailsIffDividesByZero(e);
    case BinOp(l, op, r) =>
      EvalFailsIffDividesByZero(l);
      EvalFailsIffDividesByZero(r);
      EvalIsExact(r);
  }

  /** The same evaluation with the left operand of every division evaluated
      first, as for the other operators. */
  function EvalLeftFirst(t: Node): Result<Number> {
    match t
    case Num(n) => Ok(IntNum(n))
    case UnaryOp(sign, e) =>
      var v := EvalLeftFirst(e);
      if v.Err? then v
      else if sign == Positive then v
      else Ok(Negate(v.value))
    case BinOp(l, op, r) =>
      var left := EvalLeftFirst(l);
      if left.Err? then left
      else
        var right := EvalLeftFirst(r);
        if right.Err? then right
        else if op != Divide then Ok(Arith(op, left.value, right.value))
        else if ToReal(right.value) == 0.0 then Err(ZeroDivisionError)
        else Ok(Quotient(left.value, right.value))
  }

  /** Evaluating the divisor first cannot be observed: the only exception
      is `ZeroDivisionError`, so either order gives the same value or the
      same exception. */
  lemma {:induction false} DivisionOrderUnobservable(t: Node)
    ensures Eval(t) == EvalLeftFirst(t)
  {
    match t
    case Num(_) =>
    case UnaryOp(_, e) =>
      DivisionOrderUnobservable(e);
    case BinOp(l, op, r) =>
      DivisionOrderUnobservable(l);
      DivisionOrderUnobservable(r);
  }

  /** `e` with the signs `signs` in front, the first one outermost. */
  function WithSigns(signs: seq<Sign>, e: Node): Node {
    if signs == [] then e else UnaryOp(signs[0], WithSigns(signs[1..], e))
  }

  function Negatives(signs: seq<Sign>): nat {
    if signs == [] then 0 else (if signs[0] == Negative then 1 else 0) + Negatives(signs[1..])
  }

  /** A run of signs negates the value once per `-`: the value is kept when
      the number of `-` is even and negated when it is odd. */
  lemma {:induction false} SignRun(signs: seq<Sign>, e: Node)
    ensures var v := Eval(e);
      Eval(WithSigns(signs, e)) == if v.Err? || Negatives(signs) % 2 == 0 then v else Ok(Negate(v.value))
  {
    if signs != [] {
      SignRun(signs[1..], e);
      var v := Eval(e);
      if v.Ok? {
        NegateTwice(v.value);
      }
    }
  }

  lemma NegateTwice(v: Number)
    ensures Negate(Negate(v)) == v
  {
  }
}
