/** The converse of `GrammarProperties.SumOfProducts`: whatever `parse`
    accepts is the written form of an expression of the concrete syntax,
    and its tree is that expression's tree. Each lemma reads back, from a
    successful run of `factor`, `term` or `expr` (or one of their loops),
    the syntax of the tokens it consumed. So `parse` accepts a token list
    exactly when it is a sentence of the grammar, and `()` or `1+*2`, which
    are not, are rejected. */
module Sentences {
  import opened Tokens
  import opened Ast
  import opened Grammar
  import opened GrammarProperties

  /** `p` with one more link at its end. */
  function AppendLink(p: Product, l: Link): Product {
    Product(p.first, p.factors + [l])
  }

  /** `e` with one more summand at its end. */
  function AppendSummand(e: Sum, m: Summand): Sum {
    Sum(e.first, e.summands + [m])
  }

  lemma {:induction false} FoldLinksAppend(node: Node, p: Product, l: Link, i: nat)
    requires i <= |p.factors|
    ensures FoldLinks(node, AppendLink(p, l), i) == BinOp(FoldLinks(node, p, i), l.op, FactorTree(l.operand))
    decreases |p.factors| - i
  {
    var q := AppendLink(p, l);
    if i < |p.factors| {
      assert q.factors[i] == p.factors[i];
      FoldLinksAppend(BinOp(node, p.factors[i].op, FactorTree(p.factors[i].operand)), p, l, i + 1);
    } else {
      assert q.factors[i] == l;
    }
  }

  lemma {:induction false} LinkTokensAppend(p: Product, l: Link, i: nat)
    requires i <= |p.factors|
    ensures LinkTokens(AppendLink(p, l), i) == LinkTokens(p, i) + ([OpToken(l.op)] + FactorTokens(l.operand))
    decreases |p.factors| - i
  {
    var q := AppendLink(p, l);
    if i < |p.factors| {
      assert q.factors[i] == p.factors[i];
      LinkTokensAppend(p, l, i + 1);
    } else {
      assert q.factors[i] == l;
    }
  }

  lemma {:induction false} FoldSummandsAppend(node: Node, e: Sum, m: Summand, i: nat)
    requires i <= |e.summands|
    ensures FoldSummands(node, AppendSummand(e, m), i) == BinOp(FoldSummands(node, e, i), m.op, ProductTree(m.product))
    decreases |e.summands| - i
  {
    var q := AppendSummand(e, m);
    if i < |e.summands| {
      assert q.summands[i] == e.summands[i];
      FoldSummandsAppend(BinOp(node, e.summands[i].op, ProductTree(e.summands[i].product)), e, m, i + 1);
    } else {
      assert q.summands[i] == m;
    }
  }

  lemma {:induction false} SummandTokensAppend(e: Sum, m: Summand, i: nat)
    requires i <= |e.summands|
    ensures SummandTokens(AppendSummand(e, m), i) == SummandTokens(e, i) + ([OpToken(m.op)] + ProductTokens(m.product))
    decreases |e.summands| - i
  {
    var q := AppendSummand(e, m);
    if i < |e.summands| {
      assert q.summands[i] == e.summands[i];
      SummandTokensAppend(e, m, i + 1);
    } else {
      assert q.summands[i] == m;
    }
  }

  /** One more `*` or `/` and its factor at the end of a product: the tree
      gains an operation on its right, the text gains the operator and the
      factor. */
  lemma ProductAppend(p: Product, l: Link)
    requires ValidProduct(p) && !IsAdditive(l.op) && ValidFactor(l.operand)
    ensures ValidProduct(AppendLink(p, l))
    ensures ProductTree(AppendLink(p, l)) == BinOp(ProductTree(p), l.op, FactorTree(l.operand))
    ensures ProductTokens(AppendLink(p, l)) == ProductTokens(p) + ([OpToken(l.op)] + FactorTokens(l.operand))
  {
    LinksAppendValid(p, l);
    FoldLinksAppend(FactorTree(p.first), p, l, 0);
    LinkTokensAppend(p, l, 0);
  }

  lemma LinksAppendValid(p: Product, l: Link)
    requires ValidProduct(p) && !IsAdditive(l.op) && ValidFactor(l.operand)
    ensures ValidProduct(AppendLink(p, l))
  {
    var q := AppendLink(p, l);
    assert forall i :: 0 <= i < |q.factors| ==> q.factors[i] == if i < |p.factors| then p.factors[i] else l;
  }

  /** One more `+` or `-` and its product at the end of an expression. */
  lemma SumAppend(e: Sum, m: Summand)
    requires ValidSum(e) && IsAdditive(m.op) && ValidProduct(m.product)
    ensures ValidSum(AppendSummand(e, m))
    ensures SumTree(AppendSummand(e, m)) == BinOp(SumTree(e), m.op, ProductTree(m.product))
    ensures SumTokens(AppendSummand(e, m)) == SumTokens(e) + ([OpToken(m.op)] + ProductTokens(m.product))
  {
    SummandsAppendValid(e, m);
    FoldSummandsAppend(ProductTree(e.first), e, m, 0);
    SummandTokensAppend(e, m, 0);
  }

  lemma SummandsAppendValid(e: Sum, m: Summand)
    requires ValidSum(e) && IsAdditive(m.op) && ValidProduct(m.product)
    ensures ValidSum(AppendSummand(e, m))
  {
    var q := AppendSummand(e, m);
    assert forall i :: 0 <= i < |q.summands| ==> q.summands[i] == if i < |e.summands| then e.summands[i] else m;
  }

  /** A token of an operator kind is that kind's token. */
  lemma OperatorTokenOf(t: Token)
    requires ValidToken(t) && IsOperatorKind(t.kind)
    ensures t == OperatorToken(t.kind)
  {
  }

  /** What `factor` consumed is a factor, whose tree is the tree `factor`
      built. With the lemmas after it, by induction on the number of tokens
      left. */
  lemma {:induction false} FactorSound(s: Stream) returns (f: FactorSyntax)
    requires Ready(s) && Factor(s).Parsed?
    ensures ValidFactor(f) && FactorTree(f) == Factor(s).node
    ensures s.tokens == FactorTokens(f) + Factor(s).rest.tokens
    decreases |s.tokens|, 1
  {
    var t := Look(s);
    if t.kind == Plus || t.kind == Minus {
      f := SignedSound(s);
    } else if t.kind == Integer {
      f := Literal(t.value.n);
      assert IntegerToken(t.value.n) == t;
      assert s.tokens == [t] + s.tokens[1..];
    } else {
      f := GroupSound(s);
    }
  }

  /** A sign and the factor after it, read back. */
  lemma {:induction false} SignedSound(s: Stream) returns (f: FactorSyntax)
    requires Ready(s) && (Look(s).kind == Plus || Look(s).kind == Minus) && Factor(s).Parsed?
    ensures ValidFactor(f) && FactorTree(f) == Factor(s).node
    ensures s.tokens == FactorTokens(f) + Factor(s).rest.tokens
    decreases |s.tokens|, 0
  {
    var t := Look(s);
    var s1 := Stream(s.tokens[1..], s.stop);
    SignedStep(s);
    var g := FactorSound(s1);
    f := Signed(SignOf(t.kind), g);
    OperatorTokenOf(t);
    assert SignToken(SignOf(t.kind)) == t;
    assert FactorTokens(f) == [t] + FactorTokens(g);
    LinkRegroup([], t, FactorTokens(g), s.tokens, Factor(s).rest.tokens);
  }

  /** `factor` on a sign, read forwards: it eats the sign, reads a factor
      and puts the sign on its tree. */
  lemma SignedStep(s: Stream)
    requires Ready(s) && (Look(s).kind == Plus || Look(s).kind == Minus) && Factor(s).Parsed?
    ensures Ready(Stream(s.tokens[1..], s.stop)) && Factor(Stream(s.tokens[1..], s.stop)).Parsed?
    ensures var f := Factor(Stream(s.tokens[1..], s.stop));
      Factor(s) == Parsed(UnaryOp(SignOf(Look(s).kind), f.node), f.rest)
  {
  }

  /** A parenthesised expression, read back. */
  lemma {:induction false} GroupSound(s: Stream) returns (f: FactorSyntax)
    requires Ready(s) && Look(s).kind == LParen && Factor(s).Parsed?
    ensures ValidFactor(f) && FactorTree(f) == Factor(s).node
    ensures s.tokens == FactorTokens(f) + Factor(s).rest.tokens
    decreases |s.tokens|, 0
  {
    var s1 := Stream(s.tokens[1..], s.stop);
    var x := Expr(s1);
    var e := ExprSound(s1);
    var c := Stream(x.rest.tokens[1..], x.rest.stop);
    assert Factor(s).rest == c;
    OperatorTokenOf(s.tokens[0]);
    OperatorTokenOf(x.rest.tokens[0]);
    assert x.rest.tokens == [Close] + c.tokens;
    f := Group(e);
    GroupRegroup(s.tokens, SumTokens(e), c.tokens);
  }

  /** `( e ) rest` read back from its parts: the `(`, then `e`, then the
      `)` and the rest. */
  lemma GroupRegroup(ts: seq<Token>, inner: seq<Token>, rest: seq<Token>)
    requires ts != [] && ts[0] == Open && ts[1..] == inner + ([Close] + rest)
    ensures ts == [Open] + inner + [Close] + rest
  {
    assert ts == [ts[0]] + ts[1..];
  }

  /** One turn of the loop of `term`, read forwards: on `*` or `/` the
      loop eats it, reads a factor and goes on from there. */
  lemma TermTailStep(node: Node, s: Stream)
    requires Ready(s) && (Look(s).kind == Mul || Look(s).kind == Div) && TermTail(node, s).Parsed?
    ensures Ready(Stream(s.tokens[1..], s.stop)) && Factor(Stream(s.tokens[1..], s.stop)).Parsed?
    ensures var f := Factor(Stream(s.tokens[1..], s.stop));
      TermTail(node, s) == TermTail(BinOp(node, OpOf(Look(s).kind), f.node), f.rest)
  {
  }

  /** One turn of the loop of `expr`, read forwards. */
  lemma ExprTailStep(node: Node, s: Stream)
    requires Ready(s) && (Look(s).kind == Plus || Look(s).kind == Minus) && ExprTail(node, s).Parsed?
    ensures Ready(Stream(s.tokens[1..], s.stop)) && Term(Stream(s.tokens[1..], s.stop)).Parsed?
    ensures var x := Term(Stream(s.tokens[1..], s.stop));
      ExprTail(node, s) == ExprTail(BinOp(node, OpOf(Look(s).kind), x.node), x.rest)
  {
  }

  /** One turn of the loop of `term`, read back: the `*` or `/` and the
      factor after it extend the product read so far by one link. */
  lemma {:induction false} TermTailTurnSound(p: Product, s: Stream) returns (p2: Product, s2: Stream)
    requires Ready(s) && ValidProduct(p) && TermTail(ProductTree(p), s).Parsed?
    requires Look(s).kind == Mul || Look(s).kind == Div
    ensures Ready(s2) && ValidProduct(p2) && |s2.tokens| < |s.tokens|
    ensures TermTail(ProductTree(p2), s2) == TermTail(ProductTree(p), s)
    ensures ProductTokens(p) + s.tokens == ProductTokens(p2) + s2.tokens
    decreases |s.tokens|, 0
  {
    var t := Look(s);
    var s1 := Stream(s.tokens[1..], s.stop);
    TermTailStep(ProductTree(p), s);
    s2 := Factor(s1).rest;
    var g := FactorSound(s1);
    var l := Link(OpOf(t.kind), g);
    ProductAppend(p, l);
    p2 := AppendLink(p, l);
    OperatorTokenOf(t);
    LinkRegroup(ProductTokens(p), t, FactorTokens(g), s.tokens, s2.tokens);
  }

  /** The text after a product, split at its first token and at the end of
      the factor after it. */
  lemma LinkRegroup(pre: seq<Token>, t: Token, mid: seq<Token>, ts: seq<Token>, rest: seq<Token>)
    requires ts != [] && ts[0] == t && ts[1..] == mid + rest
    ensures pre + ts == (pre + ([t] + mid)) + rest
  {
    assert ts == [t] + ts[1..];
  }

  /** A product of one factor. */
  lemma OneFactor(p: Product)
    requires p.factors == []
    ensures ProductTokens(p) == FactorTokens(p.first) && ProductTree(p) == FactorTree(p.first)
  {
    assert LinkTokens(p, 0) == [];
  }

  /** An expression of one product. */
  lemma OneProduct(e: Sum)
    requires e.summands == []
    ensures SumTokens(e) == ProductTokens(e.first) && SumTree(e) == ProductTree(e.first)
  {
    assert SummandTokens(e, 0) == [];
  }

  /** What the loop of `term` consumed, after a product `p` whose tree it
      started from, extends `p` to a product whose tree it built. */
  lemma {:induction false} TermTailSound(p: Product, s: Stream) returns (q: Product)
    requires Ready(s) && ValidProduct(p) && TermTail(ProductTree(p), s).Parsed?
    ensures ValidProduct(q) && ProductTree(q) == TermTail(ProductTree(p), s).node
    ensures ProductTokens(p) + s.tokens == ProductTokens(q) + TermTail(ProductTree(p), s).rest.tokens
    decreases |s.tokens|, 1
  {
    var t := Look(s);
    if t.kind == Mul || t.kind == Div {
      var p2, s2 := TermTailTurnSound(p, s);
      q := TermTailSound(p2, s2);
    } else {
      TermTailStops(ProductTree(p), s);
      q := p;
    }
  }

  /** What `term` consumed is a product, whose tree is the tree `term`
      built. */
  lemma {:induction false} TermSound(s: Stream) returns (p: Product)
    requires Ready(s) && Term(s).Parsed?
    ensures ValidProduct(p) && ProductTree(p) == Term(s).node
    ensures s.tokens == ProductTokens(p) + Term(s).rest.tokens
    decreases |s.tokens|, 2
  {
    var f := Factor(s);
    var g := FactorSound(s);
    var first := Product(g, []);
    OneFactor(first);
    p := TermTailSound(first, f.rest);
  }

  /** One turn of the loop of `expr`, read back: the `+` or `-` and the
      product after it extend the expression read so far by one summand. */
  lemma {:induction false} ExprTailTurnSound(e: Sum, s: Stream) returns (e2: Sum, s2: Stream)
    requires Ready(s) && ValidSum(e) && ExprTail(SumTree(e), s).Parsed?
    requires Look(s).kind == Plus || Look(s).kind == Minus
    ensures Ready(s2) && ValidSum(e2) && |s2.tokens| < |s.tokens|
    ensures ExprTail(SumTree(e2), s2) == ExprTail(SumTree(e), s)
    ensures SumTokens(e) + s.tokens == SumTokens(e2) + s2.tokens
    decreases |s.tokens|, 0
  {
    var t := Look(s);
    var s1 := Stream(s.tokens[1..], s.stop);
    ExprTailStep(SumTree(e), s);
    s2 := Term(s1).rest;
    var p := TermSound(s1);
    var m := Summand(OpOf(t.kind), p);
    SumAppend(e, m);
    e2 := AppendSummand(e, m);
    OperatorTokenOf(t);
    LinkRegroup(SumTokens(e), t, ProductTokens(p), s.tokens, s2.tokens);
  }

  /** What the loop of `expr` consumed, after an expression `e` whose tree
      it started from, extends `e` to an expression whose tree it built. */
  lemma {:induction false} ExprTailSound(e: Sum, s: Stream) returns (q: Sum)
    requires Ready(s) && ValidSum(e) && ExprTail(SumTree(e), s).Parsed?
    ensures ValidSum(q) && SumTree(q) == ExprTail(SumTree(e), s).node
    ensures SumTokens(e) + s.tokens == SumTokens(q) + ExprTail(SumTree(e), s).rest.tokens
    decreases |s.tokens|, 1
  {
    var t := Look(s);
    if t.kind == Plus || t.kind == Minus {
      var e2, s2 := ExprTailTurnSound(e, s);
      q := ExprTailSound(e2, s2);
    } else {
      ExprTailStops(SumTree(e), s);
      q := e;
    }
  }

  /** What `expr` consumed is an expression, whose tree is the tree `expr`
      built. */
  lemma {:induction false} ExprSound(s: Stream) returns (e: Sum)
    requires Ready(s) && Expr(s).Parsed?
    ensures ValidSum(e) && SumTree(e) == Expr(s).node
    ensures s.tokens == SumTokens(e) + Expr(s).rest.tokens
    decreases |s.tokens|, 3
  {
    var x := Term(s);
    var p := TermSound(s);
    var first := Sum(p, []);
    OneProduct(first);
    e := ExprTailSound(first, x.rest);
  }

  /** `parse` accepts only sentences: a token list it accepts is the
      written form of an expression, and the tree is that expression's
      tree. */
  lemma ParseOnlySentences(ts: seq<Token>)
    requires ValidTokens(ts) && Parse(Stream(ts, None)).Parsed?
    ensures exists e :: ValidSum(e) && SumTokens(e) == ts && SumTree(e) == Parse(Stream(ts, None)).node
  {
    var e := ExprSound(Stream(ts, None));
    assert SumTokens(e) == ts;
  }

  /** `parse` accepts a token list followed by EOF if and only if it is the
      written form of an expression of the grammar. */
  lemma ParseAcceptsExactlySentences(ts: seq<Token>)
    requires ValidTokens(ts)
    ensures Parse(Stream(ts, None)).Parsed? <==> exists e :: ValidSum(e) && SumTokens(e) == ts
  {
    if Parse(Stream(ts, None)).Parsed? {
      ParseOnlySentences(ts);
    }
    if e :| ValidSum(e) && SumTokens(e) == ts {
      var end := Stream([], None);
      SumOfProducts(e, end);
      assert Prepend(SumTokens(e), end) == Stream(ts, None);
    }
  }

  /** A parenthesis left open: `(` and a complete expression, then the end
      of the text. The expression is read to the end, and `eat` finds EOF
      where it expects `)`. */
  lemma UnclosedGroup(e: Sum)
    requires ValidSum(e)
    ensures Ready(Stream([Open] + SumTokens(e), None))
    ensures Parse(Stream([Open] + SumTokens(e), None)) == Failed(SyntaxError(Expected(RParen, Eof)))
  {
    var end := Stream([], None);
    var inner := Prepend(SumTokens(e), end);
    SumOfProducts(e, end);
    EatFront(Open, inner);
    var s := Prepend([Open], inner);
    assert s == Stream([Open] + SumTokens(e), None);
    assert Factor(s) == Failed(SyntaxError(Expected(RParen, Eof)));
    assert Term(s) == Factor(s);
    assert Expr(s) == Term(s);
  }
}
