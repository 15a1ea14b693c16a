/** Properties of the grammar functions: every tree written out in tokens
    parses back to itself, operators of one precedence level fold to the
    left, `*` and `/` bind tighter than `+` and `-`, parentheses leave no
    trace in the tree, and input that stops early or goes on after a complete
    expression is rejected. */
module GrammarProperties {
  import opened Tokens
  import opened Ast
  import opened LexerSpec
  import opened Grammar

  function SignToken(s: Sign): Token {
    OperatorToken(SignKind(s))
  }

  function OpToken(op: BinaryOp): Token {
    OperatorToken(OpKind(op))
  }

  const Open := OperatorToken(LParen)
  const Close := OperatorToken(RParen)

  /** The kinds after which neither loop of `term` and `expr` goes on. */
  predicate Ends(k: Kind) {
    k != Plus && k != Minus && k != Mul && k != Div
  }

  /** A tree written out in tokens, with parentheses around every binary
      operation, so that the whole of it is one factor. */
  function Emit(t: Node): (ts: seq<Token>)
    ensures ts != [] && ValidTokens(ts)
  {
    match t
    case Num(n) => [IntegerToken(n)]
    case UnaryOp(s, e) => ValidConcat([SignToken(s)], Emit(e)); [SignToken(s)] + Emit(e)
    case BinOp(l, op, r) =>
      var ts := [Open] + Emit(l) + [OpToken(op)] + Emit(r) + [Close];
      ValidConcat([Open], Emit(l));
      ValidConcat([Open] + Emit(l), [OpToken(op)]);
      ValidConcat([Open] + Emit(l) + [OpToken(op)], Emit(r));
      ValidConcat([Open] + Emit(l) + [OpToken(op)] + Emit(r), [Close]);
      ts
  }

  lemma ValidConcat(a: seq<Token>, b: seq<Token>)
    requires ValidTokens(a) && ValidTokens(b)
    ensures ValidTokens(a + b)
  {
    assert forall i :: 0 <= i < |a + b| ==> (a + b)[i] == if i < |a| then a[i] else b[i - |a|];
  }

  lemma PrependReady(ts: seq<Token>, s: Stream)
    requires ValidTokens(ts) && Ready(s)
    ensures Ready(Prepend(ts, s))
  {
    ValidConcat(ts, s.tokens);
  }

  lemma PrependPrepend(a: seq<Token>, b: seq<Token>, s: Stream)
    ensures Prepend(a + b, s) == Prepend(a, Prepend(b, s))
  {
    assert (a + b) + s.tokens == a + (b + s.tokens);
  }

  /** Eating the token in front of a stream leaves the stream. */
  lemma EatFront(t: Token, s: Stream)
    requires ValidToken(t) && t.kind != Eof && Ready(s)
    ensures Ready(Prepend([t], s)) && Look(Prepend([t], s)) == t
    ensures Eat(Prepend([t], s), t.kind) == Moved(s)
  {
    PrependReady([t], s);
    assert Prepend([t], s).tokens[1..] == s.tokens;
  }

  /** The loop of `term` stops on anything but `*` and `/`. */
  lemma TermTailStops(node: Node, s: Stream)
    requires Ready(s) && Look(s).kind != Mul && Look(s).kind != Div
    ensures TermTail(node, s) == Parsed(node, s)
  {
  }

  /** The loop of `expr` stops on anything but `+` and `-`. */
  lemma ExprTailStops(node: Node, s: Stream)
    requires Ready(s) && Look(s).kind != Plus && Look(s).kind != Minus
    ensures ExprTail(node, s) == Parsed(node, s)
  {
  }

  /** `term` is a factor and then the loop of `term`. */
  lemma TermUnfold(s: Stream)
    requires Ready(s) && Factor(s).Parsed?
    ensures Term(s) == TermTail(Factor(s).node, Factor(s).rest)
  {
  }

  /** `expr` is a term and then the loop of `expr`. */
  lemma ExprUnfold(s: Stream)
    requires Ready(s) && Term(s).Parsed?
    ensures Expr(s) == ExprTail(Term(s).node, Term(s).rest)
  {
  }

  /** One turn of the loop of `term`: `*` or `/` and a factor, folded in on
      the right of the tree built so far. */
  lemma TermTailTurn(node: Node, op: BinaryOp, s: Stream)
    requires Ready(s) && !IsAdditive(op) && Factor(s).Parsed?
    ensures Ready(Prepend([OpToken(op)], s))
    ensures TermTail(node, Prepend([OpToken(op)], s)) == TermTail(BinOp(node, op, Factor(s).node), Factor(s).rest)
  {
    EatFront(OpToken(op), s);
  }

  /** One turn of the loop of `expr`: `+` or `-` and a term, folded in on the
      right of the tree built so far. */
  lemma ExprTailTurn(node: Node, op: BinaryOp, s: Stream)
    requires Ready(s) && IsAdditive(op) && Term(s).Parsed?
    ensures Ready(Prepend([OpToken(op)], s))
    ensures ExprTail(node, Prepend([OpToken(op)], s)) == ExprTail(BinOp(node, op, Term(s).node), Term(s).rest)
  {
    EatFront(OpToken(op), s);
  }

  /** A complete factor followed by a token that ends both loops is a
      complete expression. */
  lemma ExprOfFactor(s: Stream)
    requires Ready(s) && Factor(s).Parsed? && Ends(Look(Factor(s).rest).kind)
    ensures Expr(s) == Factor(s)
  {
    var f := Factor(s);
    TermUnfold(s);
    TermTailStops(f.node, f.rest);
    ExprUnfold(s);
    ExprTailStops(f.node, f.rest);
  }

  /** `( expr )` is a factor that is the expression, with nothing for the
      parentheses. */
  lemma FactorOfParens(x: Stream, node: Node, rest: Stream)
    requires Ready(x) && Ready(rest) && Expr(x) == Parsed(node, Prepend([Close], rest))
    ensures Ready(Prepend([Open], x))
    ensures Factor(Prepend([Open], x)) == Parsed(node, rest)
  {
    EatFront(Open, x);
    EatFront(Close, rest);
  }

  /** Two factors joined by an operator, followed by `)`, are an expression
      that is the operation on the two. */
  lemma ExprOfOperation(l: Node, op: BinaryOp, r: Node, s: Stream, rest: Stream)
    requires Ready(s) && Ready(rest) && Look(rest) == Close
    requires Factor(s).Parsed? && Factor(s).node == l
    requires Factor(s).rest == Prepend([OpToken(op)], Prepend(Emit(r), rest))
    requires Factor(Prepend(Emit(r), rest)) == Parsed(r, rest)
    ensures Expr(s) == Parsed(BinOp(l, op, r), rest)
  {
    var r2 := Prepend(Emit(r), rest);
    PrependReady(Emit(r), rest);
    EatFront(OpToken(op), r2);
    TermUnfold(s);
    ExprTailStops(BinOp(l, op, r), rest);
    if IsAdditive(op) {
      TermTailStops(l, Factor(s).rest);
      ExprUnfold(s);
      TermUnfold(r2);
      TermTailStops(r, rest);
      ExprTailTurn(l, op, r2);
    } else {
      TermTailTurn(l, op, r2);
      TermTailStops(BinOp(l, op, r), rest);
      ExprUnfold(s);
    }
  }

  /** Parsing undoes writing out: the tokens of a tree, followed by anything,
      are a factor that is that tree. */
  lemma {:induction false} FactorRoundTrip(t: Node, rest: Stream)
    requires Ready(rest)
    ensures Ready(Prepend(Emit(t), rest))
    ensures Factor(Prepend(Emit(t), rest)) == Parsed(t, rest)
    decreases t
  {
    PrependReady(Emit(t), rest);
    match t
    case Num(n) =>
      EatFront(IntegerToken(n), rest);
    case UnaryOp(sign, e) =>
      FactorRoundTrip(e, rest);
      PrependPrepend([SignToken(sign)], Emit(e), rest);
      EatFront(SignToken(sign), Prepend(Emit(e), rest));
    case BinOp(l, op, r) =>
      var r3 := Prepend([Close], rest);
      var r2 := Prepend(Emit(r), r3);
      var r1 := Prepend([OpToken(op)], r2);
      var r0 := Prepend(Emit(l), r1);
      EatFront(Close, rest);
      FactorRoundTrip(r, r3);
      EatFront(OpToken(op), r2);
      FactorRoundTrip(l, r1);
      ExprOfOperation(l, op, r, r0, r3);
      FactorOfParens(r0, t, rest);
      SplitBinOp(l, op, r, rest.tokens);
  }

  lemma SplitBinOp(l: Node, op: BinaryOp, r: Node, rest: seq<Token>)
    ensures Emit(BinOp(l, op, r)) + rest == [Open] + (Emit(l) + ([OpToken(op)] + (Emit(r) + ([Close] + rest))))
  {
  }

  /** The tokens of a tree, with nothing after them, are a whole input that
      parses to that tree. */
  lemma ParseRoundTrip(t: Node)
    ensures Ready(Stream(Emit(t), None))
    ensures Parse(Stream(Emit(t), None)) == Parsed(t, Stream([], None))
  {
    var end := Stream([], None);
    FactorRoundTrip(t, end);
    assert Prepend(Emit(t), end) == Stream(Emit(t), None);
    ExprOfFactor(Stream(Emit(t), None));
  }

  lemma SplitParens(ts: seq<Token>, rest: seq<Token>)
    ensures ([Open] + ts + [Close]) + rest == [Open] + (ts + ([Close] + rest))
  {
  }

  /** `ts` inside `k` pairs of parentheses. */
  function Wrap(k: nat, ts: seq<Token>): seq<Token> {
    if k == 0 then ts else [Open] + Wrap(k - 1, ts) + [Close]
  }

  /** Parentheses leave no trace: a tree inside any number of pairs of
      parentheses is still a factor that is that same tree, with no node for
      the parentheses. */
  lemma {:induction false} ParenthesesTransparent(k: nat, t: Node, rest: Stream)
    requires Ready(rest)
    ensures ValidTokens(Wrap(k, Emit(t))) && Ready(Prepend(Wrap(k, Emit(t)), rest))
    ensures Factor(Prepend(Wrap(k, Emit(t)), rest)) == Parsed(t, rest)
  {
    if k == 0 {
      FactorRoundTrip(t, rest);
    } else {
      var inner := Wrap(k - 1, Emit(t));
      var r1 := Prepend([Close], rest);
      EatFront(Close, rest);
      ParenthesesTransparent(k - 1, t, r1);
      var r0 := Prepend(inner, r1);
      ValidConcat([Open], inner);
      ValidConcat([Open] + inner, [Close]);
      ExprOfFactor(r0);
      FactorOfParens(r0, t, rest);
      SplitParens(inner, rest.tokens);
    }
  }

  /** The concrete syntax of a factor, as it is written: a number, a sign
      and a factor, or an expression in parentheses. */
  datatype FactorSyntax = Literal(n: nat) | Signed(sign: Sign, operand: FactorSyntax) | Group(inner: Sum)

  /** An operator and the factor after it, in a run of `*` and `/`. */
  datatype Link = Link(op: BinaryOp, operand: FactorSyntax)

  /** A term as written: a factor and a run of `*` and `/`, each with its
      factor. */
  datatype Product = Product(first: FactorSyntax, factors: seq<Link>)

  /** A `+` or `-` and the product after it. */
  datatype Summand = Summand(op: BinaryOp, product: Product)

  /** An expression as written: a product and a run of `+` and `-`, each
      with its product. */
  datatype Sum = Sum(first: Product, summands: seq<Summand>)

  /** Every operator stands at its own level: `*` and `/` join factors,
      `+` and `-` join products. */
  predicate ValidFactor(f: FactorSyntax)
    decreases f, 0
  {
    match f
    case Literal(_) => true
    case Signed(_, operand) => ValidFactor(operand)
    case Group(e) => ValidSum(e)
  }

  predicate ValidProduct(p: Product)
    decreases p, 1
  {
    && ValidFactor(p.first)
    && forall i :: 0 <= i < |p.factors| ==> !IsAdditive(p.factors[i].op) && ValidFactor(p.factors[i].operand)
  }

  predicate ValidSum(e: Sum)
    decreases e, 1
  {
    && ValidProduct(e.first)
    && forall i :: 0 <= i < |e.summands| ==> IsAdditive(e.summands[i].op) && ValidProduct(e.summands[i].product)
  }

  /** Joining two token lists keeps them valid and separable, as long as
      the seam is not between two numbers. */
  lemma Join(a: seq<Token>, b: seq<Token>)
    requires ValidTokens(a) && ValidTokens(b) && Separable(a) && Separable(b)
    requires a == [] || b == [] || a[|a| - 1].kind != Integer || b[0].kind != Integer
    ensures ValidTokens(a + b) && Separable(a + b)
  {
    ValidConcat(a, b);
    SeparableConcat(a, b);
  }

  /** The tokens of a factor. */
  function FactorTokens(f: FactorSyntax): (ts: seq<Token>)
    ensures ts != [] && ValidTokens(ts) && Separable(ts)
    decreases f, 0
  {
    match f
    case Literal(n) => [IntegerToken(n)]
    case Signed(sign, operand) =>
      Join([SignToken(sign)], FactorTokens(operand));
      [SignToken(sign)] + FactorTokens(operand)
    case Group(e) =>
      Join([Open], SumTokens(e));
      Join([Open] + SumTokens(e), [Close]);
      [Open] + SumTokens(e) + [Close]
  }

  /** The tokens of a product. */
  function ProductTokens(p: Product): (ts: seq<Token>)
    ensures ts != [] && ValidTokens(ts) && Separable(ts)
    decreases p, |p.factors| + 1
  {
    Join(FactorTokens(p.first), LinkTokens(p, 0));
    FactorTokens(p.first) + LinkTokens(p, 0)
  }

  /** The tokens of the links of `p` from the `i`th on: each operator, then
      its factor. */
  function LinkTokens(p: Product, i: nat): (ts: seq<Token>)
    requires i <= |p.factors|
    ensures ValidTokens(ts) && Separable(ts) && (ts == [] || ts[0].kind != Integer)
    decreases p, |p.factors| - i
  {
    if i == |p.factors| then []
    else
      var head := [OpToken(p.factors[i].op)] + FactorTokens(p.factors[i].operand);
      Join([OpToken(p.factors[i].op)], FactorTokens(p.factors[i].operand));
      Join(head, LinkTokens(p, i + 1));
      head + LinkTokens(p, i + 1)
  }

  /** The tokens of an expression. */
  function SumTokens(e: Sum): (ts: seq<Token>)
    ensures ts != [] && ValidTokens(ts) && Separable(ts)
    decreases e, |e.summands| + 1
  {
    Join(ProductTokens(e.first), SummandTokens(e, 0));
    ProductTokens(e.first) + SummandTokens(e, 0)
  }

  /** The tokens of the summands of `e` from the `i`th on: each operator,
      then its product. */
  function SummandTokens(e: Sum, i: nat): (ts: seq<Token>)
    requires i <= |e.summands|
    ensures ValidTokens(ts) && Separable(ts) && (ts == [] || ts[0].kind != Integer)
    decreases e, |e.summands| - i
  {
    if i == |e.summands| then []
    else
      var head := [OpToken(e.summands[i].op)] + ProductTokens(e.summands[i].product);
      Join([OpToken(e.summands[i].op)], ProductTokens(e.summands[i].product));
      Join(head, SummandTokens(e, i + 1));
      head + SummandTokens(e, i + 1)
  }

  /** The tree a factor stands for: parentheses leave no node. */
  function FactorTree(f: FactorSyntax): Node
    decreases f, 0
  {
    match f
    case Literal(n) => Num(n)
    case Signed(sign, operand) => UnaryOp(sign, FactorTree(operand))
    case Group(e) => SumTree(e)
  }

  /** The tree of a product: its factors folded to the left, `a / b * c`
      is `(a / b) * c`. */
  function ProductTree(p: Product): Node
    decreases p, |p.factors| + 1
  {
    FoldLinks(FactorTree(p.first), p, 0)
  }

  /** `node` with the links of `p` from the `i`th on folded in on its
      right. */
  function FoldLinks(node: Node, p: Product, i: nat): Node
    requires i <= |p.factors|
    decreases p, |p.factors| - i
  {
    if i == |p.factors| then node
    else FoldLinks(BinOp(node, p.factors[i].op, FactorTree(p.factors[i].operand)), p, i + 1)
  }

  /** The tree of an expression: its products folded to the left,
      `a - b + c` is `(a - b) + c`. */
  function SumTree(e: Sum): Node
    decreases e, |e.summands| + 1
  {
    FoldSummands(ProductTree(e.first), e, 0)
  }

  /** `node` with the summands of `e` from the `i`th on folded in on its
      right. */
  function FoldSummands(node: Node, e: Sum, i: nat): Node
    requires i <= |e.summands|
    decreases e, |e.summands| - i
  {
    if i == |e.summands| then node
    else FoldSummands(BinOp(node, e.summands[i].op, ProductTree(e.summands[i].product)), e, i + 1)
  }

  lemma Regroup(a: seq<Token>, b: seq<Token>, c: seq<Token>, d: seq<Token>)
    ensures (a + b + c) + d == a + (b + (c + d))
  {
  }

  lemma SplitLinks(p: Product, i: nat, rest: Stream)
    requires i < |p.factors|
    ensures Prepend(LinkTokens(p, i), rest)
         == Prepend([OpToken(p.factors[i].op)], Prepend(FactorTokens(p.factors[i].operand), Prepend(LinkTokens(p, i + 1), rest)))
  {
    var a, b, c := [OpToken(p.factors[i].op)], FactorTokens(p.factors[i].operand), LinkTokens(p, i + 1);
    assert LinkTokens(p, i) == a + b + c;
    Regroup(a, b, c, rest.tokens);
  }

  lemma SplitSummands(e: Sum, i: nat, rest: Stream)
    requires i < |e.summands|
    ensures Prepend(SummandTokens(e, i), rest)
         == Prepend([OpToken(e.summands[i].op)], Prepend(ProductTokens(e.summands[i].product), Prepend(SummandTokens(e, i + 1), rest)))
  {
    var a, b, c := [OpToken(e.summands[i].op)], ProductTokens(e.summands[i].product), SummandTokens(e, i + 1);
    assert SummandTokens(e, i) == a + b + c;
    Regroup(a, b, c, rest.tokens);
  }

  /** Parsing undoes writing out: the tokens of a factor, followed by
      anything, are a factor that is the factor's tree. With `TermOfProduct`
      and `SumOfProducts`, by induction on the length of the text. */
  lemma {:induction false} FactorOfSyntax(f: FactorSyntax, rest: Stream)
    requires Ready(rest) && ValidFactor(f)
    ensures Ready(Prepend(FactorTokens(f), rest))
    ensures Factor(Prepend(FactorTokens(f), rest)) == Parsed(FactorTree(f), rest)
    decreases |FactorTokens(f)|, 0
  {
    PrependReady(FactorTokens(f), rest);
    match f
    case Literal(n) =>
      EatFront(IntegerToken(n), rest);
    case Signed(sign, operand) =>
      FactorOfSyntax(operand, rest);
      PrependPrepend([SignToken(sign)], FactorTokens(operand), rest);
      EatFront(SignToken(sign), Prepend(FactorTokens(operand), rest));
    case Group(e) =>
      var after := Prepend([Close], rest);
      EatFront(Close, rest);
      SumOfProducts(e, after);
      FactorOfParens(Prepend(SumTokens(e), after), SumTree(e), rest);
      SplitParens(SumTokens(e), rest.tokens);
  }

  /** The loop of `term` folds a run of `*` and `/` to the left, and stops
      at the first token that is neither. */
  lemma {:induction false} TermTailChain(node: Node, p: Product, i: nat, rest: Stream)
    requires Ready(rest) && Look(rest).kind != Mul && Look(rest).kind != Div
    requires ValidProduct(p) && i <= |p.factors|
    ensures Ready(Prepend(LinkTokens(p, i), rest))
    ensures TermTail(node, Prepend(LinkTokens(p, i), rest)) == Parsed(FoldLinks(node, p, i), rest)
    decreases |LinkTokens(p, i)|, 0
  {
    PrependReady(LinkTokens(p, i), rest);
    if i == |p.factors| {
      assert Prepend(LinkTokens(p, i), rest) == rest;
      TermTailStops(node, rest);
    } else {
      var op, operand := p.factors[i].op, p.factors[i].operand;
      var tail := Prepend(LinkTokens(p, i + 1), rest);
      TermTailChain(BinOp(node, op, FactorTree(operand)), p, i + 1, rest);
      PrependReady(LinkTokens(p, i + 1), rest);
      FactorOfSyntax(operand, tail);
      TermTailTurn(node, op, Prepend(FactorTokens(operand), tail));
      SplitLinks(p, i, rest);
    }
  }

  /** `term` reads a whole product, folded to the left. */
  lemma {:induction false} TermOfProduct(p: Product, rest: Stream)
    requires Ready(rest) && Look(rest).kind != Mul && Look(rest).kind != Div
    requires ValidProduct(p)
    ensures Ready(Prepend(ProductTokens(p), rest))
    ensures Term(Prepend(ProductTokens(p), rest)) == Parsed(ProductTree(p), rest)
    decreases |ProductTokens(p)|, 1
  {
    TermTailChain(FactorTree(p.first), p, 0, rest);
    var after := Prepend(LinkTokens(p, 0), rest);
    FactorOfSyntax(p.first, after);
    PrependPrepend(FactorTokens(p.first), LinkTokens(p, 0), rest);
    TermUnfold(Prepend(ProductTokens(p), rest));
  }

  /** The loop of `expr` folds a run of `+` and `-` to the left, each with a
      whole product as its right operand, and stops at a token that ends
      both loops. */
  lemma {:induction false} ExprTailChain(node: Node, e: Sum, i: nat, rest: Stream)
    requires Ready(rest) && Ends(Look(rest).kind)
    requires ValidSum(e) && i <= |e.summands|
    ensures Ready(Prepend(SummandTokens(e, i), rest))
    ensures ExprTail(node, Prepend(SummandTokens(e, i), rest)) == Parsed(FoldSummands(node, e, i), rest)
    decreases |SummandTokens(e, i)|, 2
  {
    PrependReady(SummandTokens(e, i), rest);
    if i == |e.summands| {
      assert Prepend(SummandTokens(e, i), rest) == rest;
      ExprTailStops(node, rest);
    } else {
      var op, p := e.summands[i].op, e.summands[i].product;
      var tail := Prepend(SummandTokens(e, i + 1), rest);
      ExprTailChain(BinOp(node, op, ProductTree(p)), e, i + 1, rest);
      PrependReady(SummandTokens(e, i + 1), rest);
      TermOfProduct(p, tail);
      ExprTailTurn(node, op, Prepend(ProductTokens(p), tail));
      SplitSummands(e, i, rest);
    }
  }

  /** Precedence and associativity together: an expression is a sum of
      products, each product folded to the left first, then the sum folded
      to the left, and each parenthesised part is a single factor. `2 + 3 *
      4` is `2 + (3 * 4)`, `10 - 2 - 3` is `(10 - 2) - 3` and `(2 + 3) * 4`
      is `(2 + 3) * 4`. */
  lemma {:induction false} SumOfProducts(e: Sum, rest: Stream)
    requires Ready(rest) && Ends(Look(rest).kind)
    requires ValidSum(e)
    ensures Ready(Prepend(SumTokens(e), rest))
    ensures Expr(Prepend(SumTokens(e), rest)) == Parsed(SumTree(e), rest)
    decreases |SumTokens(e)|, 3
  {
    ExprTailChain(ProductTree(e.first), e, 0, rest);
    var after := Prepend(SummandTokens(e, 0), rest);
    TermOfProduct(e.first, after);
    PrependPrepend(ProductTokens(e.first), SummandTokens(e, 0), rest);
    PrependReady(SumTokens(e), rest);
    ExprUnfold(Prepend(SumTokens(e), rest));
  }

  /** Parse succeeds only with EOF after the expression: a complete
      expression followed by a number or a parenthesis is rejected as
      trailing input, whatever follows, even a lexical error right after
      that token, which the parser never fetches. */
  lemma ParseRejectsTrailing(e: Sum, extra: Token, more: Stream)
    requires ValidStream(more) && ValidSum(e) && ValidToken(extra) && extra.kind in {Integer, LParen, RParen}
    ensures Ready(Prepend(SumTokens(e) + [extra], more))
    ensures Parse(Prepend(SumTokens(e) + [extra], more)) == Failed(SyntaxError(TrailingInput))
  {
    var after := Prepend([extra], more);
    ValidConcat([extra], more.tokens);
    assert Ready(after) && Look(after) == extra;
    SumOfProducts(e, after);
    PrependPrepend(SumTokens(e), [extra], more);
  }
}
