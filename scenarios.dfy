/** Lines of input and what the interpreter gives for them, each derived from
    the general lemmas. Each scenario takes its text as a parameter pinned
    by its precondition, and builds it from short spelled pieces. */
module Scenarios {
  import opened Tokens
  import opened LexerSpec
  import opened Ast
  import opened Grammar
  import opened Evaluation
  import opened GrammarProperties
  import opened ParseShape
  import opened Interpreters
  import opened Sentences

  /** `ts` is the whole token stream of `text`. */
  ghost predicate Spells(ts: seq<Token>, text: string) {
    ValidTokens(ts) && Separable(ts) && Spell(ts) == text
  }

  /** A text, the expression it is written as, and the tree that
      expression stands for. */
  ghost predicate SpellsSum(text: string, e: Sum, tree: Node) {
    ValidSum(e) && Spells(SumTokens(e), text) && SumTree(e) == tree
  }

  lemma CalculateSum(text: string, e: Sum, tree: Node)
    requires SpellsSum(text, e, tree)
    ensures Calculate(text) == Eval(tree)
  {
    CalculateExpression(e);
  }

  /** A product of two factors. */
  lemma TwoFactors(p: Product)
    requires |p.factors| == 1
    ensures ProductTokens(p) == FactorTokens(p.first) + [OpToken(p.factors[0].op)] + FactorTokens(p.factors[0].operand)
    ensures ProductTree(p) == BinOp(FactorTree(p.first), p.factors[0].op, FactorTree(p.factors[0].operand))
  {
    assert LinkTokens(p, 1) == [];
    assert FoldLinks(BinOp(FactorTree(p.first), p.factors[0].op, FactorTree(p.factors[0].operand)), p, 1)
        == BinOp(FactorTree(p.first), p.factors[0].op, FactorTree(p.factors[0].operand));
  }

  /** An expression of two products. */
  lemma TwoProducts(e: Sum)
    requires |e.summands| == 1
    ensures SumTokens(e) == ProductTokens(e.first) + [OpToken(e.summands[0].op)] + ProductTokens(e.summands[0].product)
    ensures SumTree(e) == BinOp(ProductTree(e.first), e.summands[0].op, ProductTree(e.summands[0].product))
  {
    assert SummandTokens(e, 1) == [];
    assert FoldSummands(BinOp(ProductTree(e.first), e.summands[0].op, ProductTree(e.summands[0].product)), e, 1)
        == BinOp(ProductTree(e.first), e.summands[0].op, ProductTree(e.summands[0].product));
  }

  lemma PrecedenceTokens()
    ensures Spells([IntegerToken(2), OperatorToken(Plus), IntegerToken(3), OperatorToken(Mul), IntegerToken(4)], "2+3*4")
  {
  }

  lemma PrecedenceSpelling(text: string, e: Sum, tree: Node)
    requires text == "2+3*4"
    requires e == Sum(Product(Literal(2), []), [Summand(Add, Product(Literal(3), [Link(Multiply, Literal(4))]))])
    requires tree == BinOp(Num(2), Add, BinOp(Num(3), Multiply, Num(4)))
    ensures SpellsSum(text, e, tree)
  {
    assert ValidSum(e) && SumTree(e) == tree
        && SumTokens(e) == [IntegerToken(2), OperatorToken(Plus), IntegerToken(3), OperatorToken(Mul), IntegerToken(4)] by {
      TwoProducts(e);
      OneFactor(e.first);
      TwoFactors(e.summands[0].product);
    }
    PrecedenceTokens();
  }

  lemma PrecedenceValue(tree: Node)
    requires tree == BinOp(Num(2), Add, BinOp(Num(3), Multiply, Num(4)))
    ensures Eval(tree) == Ok(IntNum(14))
  {
    assert Eval(tree.right) == Ok(IntNum(12));
  }

  /** `*` binds tighter than `+`: "2+3*4" is 14. */
  lemma Precedence(text: string)
    requires text == "2+3*4"
    ensures Calculate(text) == Ok(IntNum(14))
  {
    var e := Sum(Product(Literal(2), []), [Summand(Add, Product(Literal(3), [Link(Multiply, Literal(4))]))]);
    var tree := BinOp(Num(2), Add, BinOp(Num(3), Multiply, Num(4)));
    PrecedenceSpelling(text, e, tree);
    CalculateSum(text, e, tree);
    PrecedenceValue(tree);
  }

  lemma LeftAssociativeTokens()
    ensures Spells([IntegerToken(10), OperatorToken(Minus), IntegerToken(2), OperatorToken(Minus), IntegerToken(3)], "10-2-3")
  {
  }

  lemma LeftAssociativeSpelling(text: string, e: Sum, tree: Node)
    requires text == "10-2-3"
    requires e == Sum(Product(Literal(10), []), [Summand(Subtract, Product(Literal(2), [])), Summand(Subtract, Product(Literal(3), []))])
    requires tree == BinOp(BinOp(Num(10), Subtract, Num(2)), Subtract, Num(3))
    ensures SpellsSum(text, e, tree)
  {
    assert ValidSum(e) && SumTree(e) == tree
        && SumTokens(e) == [IntegerToken(10), OperatorToken(Minus), IntegerToken(2), OperatorToken(Minus), IntegerToken(3)] by {
      assert ProductTokens(e.summands[0].product) == [IntegerToken(2)];
      assert ProductTokens(e.summands[1].product) == [IntegerToken(3)];
      assert SummandTokens(e, 2) == [];
      assert SummandTokens(e, 1) == [OperatorToken(Minus), IntegerToken(3)];
      assert SummandTokens(e, 0) == [OperatorToken(Minus), IntegerToken(2), OperatorToken(Minus), IntegerToken(3)];
      assert FoldSummands(BinOp(Num(10), Subtract, Num(2)), e, 1) == tree;
    }
    LeftAssociativeTokens();
  }

  lemma LeftAssociativeValue(tree: Node)
    requires tree == BinOp(BinOp(Num(10), Subtract, Num(2)), Subtract, Num(3))
    ensures Eval(tree) == Ok(IntNum(5))
  {
    assert Eval(tree.left) == Ok(IntNum(8));
  }

  /** `-` folds to the left: "10-2-3" is (10-2)-3, that is 5. */
  lemma LeftAssociative(text: string)
    requires text == "10-2-3"
    ensures Calculate(text) == Ok(IntNum(5))
  {
    var e := Sum(Product(Literal(10), []), [Summand(Subtract, Product(Literal(2), [])), Summand(Subtract, Product(Literal(3), []))]);
    var tree := BinOp(BinOp(Num(10), Subtract, Num(2)), Subtract, Num(3));
    LeftAssociativeSpelling(text, e, tree);
    CalculateSum(text, e, tree);
    LeftAssociativeValue(tree);
  }

  lemma TrueDivisionTokens()
    ensures Spells([IntegerToken(7), OperatorToken(Div), IntegerToken(2)], "7/2")
  {
  }

  lemma TrueDivisionSpelling(text: string, e: Sum, tree: Node)
    requires text == "7/2" && e == Sum(Product(Literal(7), [Link(Divide, Literal(2))]), [])
    requires tree == BinOp(Num(7), Divide, Num(2))
    ensures SpellsSum(text, e, tree)
  {
    OneProduct(e);
    TwoFactors(e.first);
    assert SumTokens(e) == [IntegerToken(7), OperatorToken(Div), IntegerToken(2)];
    TrueDivisionTokens();
  }

  lemma TrueDivisionValue(tree: Node)
    requires tree == BinOp(Num(7), Divide, Num(2))
    ensures Eval(tree) == Ok(FloatNum(3.5))
  {
    assert Eval(tree) == Ok(Quotient(IntNum(7), IntNum(2)));
  }

  /** `/` is true division: "7/2" is the float 3.5. */
  lemma TrueDivision(text: string)
    requires text == "7/2"
    ensures Calculate(text) == Ok(FloatNum(3.5))
  {
    var e, tree := Sum(Product(Literal(7), [Link(Divide, Literal(2))]), []), BinOp(Num(7), Divide, Num(2));
    TrueDivisionSpelling(text, e, tree);
    CalculateSum(text, e, tree);
    TrueDivisionValue(tree);
  }

  lemma DivisionByZeroTokens()
    ensures Spells([IntegerToken(1), OperatorToken(Div), IntegerToken(0)], "1/0")
  {
  }

  lemma DivisionByZeroSpelling(text: string, e: Sum, tree: Node)
    requires text == "1/0" && e == Sum(Product(Literal(1), [Link(Divide, Literal(0))]), [])
    requires tree == BinOp(Num(1), Divide, Num(0))
    ensures SpellsSum(text, e, tree)
  {
    OneProduct(e);
    TwoFactors(e.first);
    assert SumTokens(e) == [IntegerToken(1), OperatorToken(Div), IntegerToken(0)];
    DivisionByZeroTokens();
  }

  /** "1/0" raises `ZeroDivisionError`. */
  lemma DivisionByZero(text: string)
    requires text == "1/0"
    ensures Calculate(text) == Err(ZeroDivisionError)
  {
    var e, tree := Sum(Product(Literal(1), [Link(Divide, Literal(0))]), []), BinOp(Num(1), Divide, Num(0));
    DivisionByZeroSpelling(text, e, tree);
    CalculateSum(text, e, tree);
  }

  lemma SignsSpelling(sign: Sign, text: string)
    requires text == [Symbol(SignKind(sign)), '-', '5']
    ensures Spell(Emit(UnaryOp(sign, UnaryOp(Negative, Num(5))))) == text
  {
    var tail := [OperatorToken(Minus), IntegerToken(5)];
    var ts := [SignToken(sign)] + tail;
    assert Emit(UnaryOp(Negative, Num(5))) == tail && Spell(tail) == "-5";
    assert Emit(UnaryOp(sign, UnaryOp(Negative, Num(5)))) == ts;
    assert ts[1..] == tail && Show(ts[0]) == [Symbol(SignKind(sign))];
  }

  /** Two minus signs cancel: "--5" is 5. */
  lemma DoubleNegation(text: string)
    requires text == "--5"
    ensures Calculate(text) == Ok(IntNum(5))
  {
    var t := UnaryOp(Negative, UnaryOp(Negative, Num(5)));
    assert Calculate(text) == Eval(t) by {
      SignsSpelling(Negative, text);
      CalculateEmitted(t);
    }
    assert Eval(t) == Ok(IntNum(5));
  }

  /** "+-5" is -5. */
  lemma MixedSigns(text: string)
    requires text == "+-5"
    ensures Calculate(text) == Ok(IntNum(-5))
  {
    var t := UnaryOp(Positive, UnaryOp(Negative, Num(5)));
    assert Calculate(text) == Eval(t) by {
      SignsSpelling(Positive, text);
      CalculateEmitted(t);
    }
    assert Eval(t) == Ok(IntNum(-5));
  }

  lemma NestedTokens()
    ensures Spells([OperatorToken(LParen), OperatorToken(LParen), OperatorToken(LParen), IntegerToken(2),
                    OperatorToken(RParen), OperatorToken(RParen), OperatorToken(RParen)], "(((2)))")
  {
  }

  lemma NestedSpelling()
    ensures ValidTokens(Wrap(3, Emit(Num(2)))) && Spell(Wrap(3, Emit(Num(2)))) == "(((2)))"
  {
    var two := [IntegerToken(2)];
    assert Emit(Num(2)) == two;
    assert Wrap(1, two) == [Open, IntegerToken(2), Close];
    assert Wrap(2, two) == [Open, Open, IntegerToken(2), Close, Close];
    assert Wrap(3, two) == [OperatorToken(LParen), OperatorToken(LParen), OperatorToken(LParen), IntegerToken(2),
                            OperatorToken(RParen), OperatorToken(RParen), OperatorToken(RParen)];
    NestedTokens();
  }

  /** "(((2)))" is 2. */
  lemma NestedParentheses(text: string)
    requires text == "(((2)))"
    ensures Calculate(text) == Ok(IntNum(2))
  {
    NestedSpelling();
    CalculateParenthesised(3, Num(2));
  }

  /** A number, whitespace, then `rest`: the number's token, then the
      stream of `rest`. */
  lemma ScanNumberThen(n: nat, ws: string, rest: string)
    requires AllSpace(ws) && ws != []
    ensures Scan(ToDecimal(n) + ws + rest) == Then(Stream([IntegerToken(n)], None), Scan(rest))
  {
    ScanShow(IntegerToken(n));
    assert ToDecimal(n) + ws + rest == ToDecimal(n) + (ws + rest);
    ScanSkipsSpace(ws, rest);
    ScanConcat(ToDecimal(n), ws + rest);
  }

  /** "1 2": a complete expression followed by more input is rejected. */
  lemma TrailingNumber(text: string)
    requires text == "1 2"
    ensures Calculate(text) == Err(SyntaxError(TrailingInput))
  {
    var one := Sum(Product(Literal(1), []), []);
    assert Scan(text) == Prepend(SumTokens(one) + [IntegerToken(2)], Stream([], None)) by {
      assert ToDecimal(1) + " " + ToDecimal(2) == text;
      ScanNumberThen(1, " ", ToDecimal(2));
      ScanShow(IntegerToken(2));
      OneProduct(one);
      OneFactor(one.first);
    }
    assert ValidSum(one);
    ParseRejectsTrailing(one, IntegerToken(2), Stream([], None));
  }

  lemma TwoThenIllegal()
    ensures Scan(ToDecimal(2) + " " + "@") == Stream([IntegerToken(2)], Some(SyntaxError(InvalidCharacter('@'))))
  {
    ScanNumberThen(2, " ", "@");
    ScanOfIllegalStart("@");
  }

  lemma TrailingBeforeIllegalText()
    ensures ToDecimal(1) + " " + (ToDecimal(2) + " " + "@") == "1 2 @"
  {
    assert ToDecimal(1) == "1" && ToDecimal(2) == "2";
  }

  lemma TrailingBeforeIllegalLexing(text: string)
    requires text == "1 2 @"
    ensures Scan(text) == Stream([IntegerToken(1), IntegerToken(2)], Some(SyntaxError(InvalidCharacter('@'))))
  {
    var rest := ToDecimal(2) + " " + "@";
    TrailingBeforeIllegalText();
    TwoThenIllegal();
    ScanNumberThen(1, " ", rest);
  }

  /** "1 2 @": the parser stops at the trailing 2 and never fetches the
      token after it, so the error is the trailing input, not the `@`. */
  lemma TrailingBeforeIllegal(text: string)
    requires text == "1 2 @"
    ensures Calculate(text) == Err(SyntaxError(TrailingInput))
  {
    var one := Sum(Product(Literal(1), []), []);
    var more := Stream([], Some(SyntaxError(InvalidCharacter('@'))));
    assert Scan(text) == Prepend(SumTokens(one) + [IntegerToken(2)], more) by {
      TrailingBeforeIllegalLexing(text);
      OneProduct(one);
      OneFactor(one.first);
    }
    assert ValidSum(one);
    ParseRejectsTrailing(one, IntegerToken(2), more);
  }

  lemma MissingOperandSpelling()
    ensures Spells([IntegerToken(1), OperatorToken(Plus)], "1+")
  {
  }

  /** "1+": the input ends where a factor is needed, and `factor` raises
      on the EOF it finds there. */
  lemma MissingOperand(text: string)
    requires text == "1+"
    ensures Calculate(text) == Err(SyntaxError(InvalidFactor))
  {
    var ts := [IntegerToken(1), OperatorToken(Plus)];
    assert Scan(text) == Stream(ts, None) by {
      MissingOperandSpelling();
      SpellRoundTrip(ts);
    }
    MissingOperandParse(ts);
  }

  lemma MissingOperandParse(ts: seq<Token>)
    requires ts == [IntegerToken(1), OperatorToken(Plus)]
    ensures Parse(Stream(ts, None)) == Failed(SyntaxError(InvalidFactor))
  {
    var s := Stream(ts, None);
    var plus := Stream([OperatorToken(Plus)], None);
    var end := Stream([], None);
    assert Factor(s) == Parsed(Num(1), plus);
    assert Term(s) == Parsed(Num(1), plus);
    assert Term(end) == Failed(SyntaxError(InvalidFactor));
    assert ExprTail(Num(1), plus) == Failed(SyntaxError(InvalidFactor));
  }

  lemma MissingParenthesisSpelling()
    ensures var ts := [OperatorToken(LParen), IntegerToken(1), OperatorToken(Plus), IntegerToken(2)];
      Spells(ts, "(1+2") && Depth(ts) == 1
  {
  }

  /** "(1+2": a parenthesis left open. */
  lemma MissingParenthesis(text: string)
    requires text == "(1+2"
    ensures Calculate(text) == Err(SyntaxError(Expected(RParen, Eof)))
  {
    var one := Sum(Product(Literal(1), []), [Summand(Add, Product(Literal(2), []))]);
    assert Scan(text) == Stream([Open] + SumTokens(one), None) by {
      MissingParenthesisLexing(text, one);
    }
    assert ValidSum(one);
    UnclosedGroup(one);
  }

  lemma MissingParenthesisLexing(text: string, one: Sum)
    requires text == "(1+2"
    requires one == Sum(Product(Literal(1), []), [Summand(Add, Product(Literal(2), []))])
    ensures Scan(text) == Stream([Open] + SumTokens(one), None)
  {
    var ts := [OperatorToken(LParen), IntegerToken(1), OperatorToken(Plus), IntegerToken(2)];
    MissingParenthesisSpelling();
    SpellRoundTrip(ts);
    SumOnePlusTwo(one);
    assert ts == [Open] + SumTokens(one);
  }

  lemma SumOnePlusTwo(e: Sum)
    requires e == Sum(Product(Literal(1), []), [Summand(Add, Product(Literal(2), []))])
    ensures SumTokens(e) == [IntegerToken(1), OperatorToken(Plus), IntegerToken(2)]
  {
    TwoProducts(e);
    OneFactor(e.first);
    OneFactor(e.summands[0].product);
  }

  /** "": there is no factor at all. */
  lemma EmptyInput(text: string)
    requires text == ""
    ensures Calculate(text) == Err(SyntaxError(InvalidFactor))
  {
    assert Scan(text) == Stream([], None);
    EmptyRejected();
  }

  lemma IllegalCharacterLexing(text: string)
    requires text == "1 @"
    ensures Scan(text) == Stream([IntegerToken(1)], Some(SyntaxError(InvalidCharacter('@'))))
  {
    assert Scan(ToDecimal(1) + " " + "@") == Then(Stream([IntegerToken(1)], None), Scan("@")) by {
      ScanNumberThen(1, " ", "@");
    }
    assert Scan("@") == Stream([], Some(SyntaxError(InvalidCharacter('@')))) by {
      ScanOfIllegalStart("@");
    }
    assert ToDecimal(1) + " " + "@" == text;
  }

  /** "1 @": the illegal character is met when the parser asks for the token
      after 1. */
  lemma IllegalCharacter(text: string)
    requires text == "1 @"
    ensures Calculate(text) == Err(SyntaxError(InvalidCharacter('@')))
  {
    IllegalCharacterLexing(text);
  }

  /** "@": building the parser reads the first token, which raises. */
  lemma IllegalFirstCharacter(text: string)
    requires text == "@"
    ensures Calculate(text) == Err(SyntaxError(InvalidCharacter('@')))
  {
    ScanOfIllegalStart(text);
  }

  /** Two spelled lists one after the other, with no two numbers at the
      seam, spell the two texts one after the other. */
  lemma Joined(a: seq<Token>, x: string, b: seq<Token>, y: string)
    requires Spells(a, x) && Spells(b, y) && a != [] && b != []
    requires a[|a| - 1].kind != Integer || b[0].kind != Integer
    ensures Spells(a + b, x + y)
  {
    Join(a, b);
    SpellConcat(a, b);
  }

  /** An expression in parentheses. */
  lemma Grouped(inner: Sum, x: string)
    requires Spells(SumTokens(inner), x)
    ensures Spells([Open] + SumTokens(inner) + [Close], "(" + x + ")")
  {
    assert Spells([Open], "(") && Spells([Close], ")");
    Joined([Open], "(", SumTokens(inner), x);
    Joined([Open] + SumTokens(inner), "(" + x, [Close], ")");
  }

  lemma GroupingText()
    ensures ("(" + "2+3" + ")") + "*4" == "(2+3)*4"
  {
  }

  lemma GroupingTail()
    ensures Spells([OperatorToken(Mul), IntegerToken(4)], "*4")
  {
  }

  lemma GroupingInnerTokens()
    ensures Spells([IntegerToken(2), OperatorToken(Plus), IntegerToken(3)], "2+3")
  {
  }

  lemma GroupingShape(inner: Sum, e: Sum, tree: Node)
    requires inner == Sum(Product(Literal(2), []), [Summand(Add, Product(Literal(3), []))])
    requires e == Sum(Product(Group(inner), [Link(Multiply, Literal(4))]), [])
    requires tree == BinOp(BinOp(Num(2), Add, Num(3)), Multiply, Num(4))
    ensures ValidSum(e) && SumTree(e) == tree
    ensures SumTokens(inner) == [IntegerToken(2), OperatorToken(Plus), IntegerToken(3)]
  {
    TwoProducts(inner);
    OneFactor(inner.first);
    OneFactor(inner.summands[0].product);
    OneProduct(e);
    TwoFactors(e.first);
  }

  lemma GroupingSpelling(text: string, inner: Sum, e: Sum, tree: Node)
    requires text == "(2+3)*4" && inner == Sum(Product(Literal(2), []), [Summand(Add, Product(Literal(3), []))])
    requires e == Sum(Product(Group(inner), [Link(Multiply, Literal(4))]), [])
    requires tree == BinOp(BinOp(Num(2), Add, Num(3)), Multiply, Num(4))
    ensures SpellsSum(text, e, tree)
  {
    var group := [Open] + SumTokens(inner) + [Close];
    var tail := [OperatorToken(Mul), IntegerToken(4)];
    assert ValidSum(e) && SumTree(e) == tree && SumTokens(e) == group + tail by {
      GroupingShape(inner, e, tree);
      OneProduct(e);
      TwoFactors(e.first);
    }
    assert Spells(group + tail, text) by {
      GroupingShape(inner, e, tree);
      GroupingInnerTokens();
      Grouped(inner, "2+3");
      GroupingTail();
      Joined(group, "(" + "2+3" + ")", tail, "*4");
      GroupingText();
    }
  }

  lemma GroupingValue(tree: Node)
    requires tree == BinOp(BinOp(Num(2), Add, Num(3)), Multiply, Num(4))
    ensures Eval(tree) == Ok(IntNum(20))
  {
    assert Eval(tree.left) == Ok(IntNum(5));
  }

  /** Parentheses override precedence: "(2+3)*4" is 20. */
  lemma Grouping(text: string)
    requires text == "(2+3)*4"
    ensures Calculate(text) == Ok(IntNum(20))
  {
    var inner := Sum(Product(Literal(2), []), [Summand(Add, Product(Literal(3), []))]);
    var e := Sum(Product(Group(inner), [Link(Multiply, Literal(4))]), []);
    var tree := BinOp(BinOp(Num(2), Add, Num(3)), Multiply, Num(4));
    GroupingSpelling(text, inner, e, tree);
    CalculateSum(text, e, tree);
    GroupingValue(tree);
  }

  lemma GroupInProductText()
    ensures "2*" + ("(" + "3+4" + ")") == "2*(3+4)"
  {
  }

  lemma GroupInProductHead()
    ensures Spells([IntegerToken(2), OperatorToken(Mul)], "2*")
  {
  }

  lemma GroupInProductInnerTokens()
    ensures Spells([IntegerToken(3), OperatorToken(Plus), IntegerToken(4)], "3+4")
  {
  }

  lemma GroupInProductShape(inner: Sum, e: Sum, tree: Node)
    requires inner == Sum(Product(Literal(3), []), [Summand(Add, Product(Literal(4), []))])
    requires e == Sum(Product(Literal(2), [Link(Multiply, Group(inner))]), [])
    requires tree == BinOp(Num(2), Multiply, BinOp(Num(3), Add, Num(4)))
    ensures ValidSum(e) && SumTree(e) == tree
    ensures SumTokens(inner) == [IntegerToken(3), OperatorToken(Plus), IntegerToken(4)]
  {
    TwoProducts(inner);
    OneFactor(inner.first);
    OneFactor(inner.summands[0].product);
    OneProduct(e);
    TwoFactors(e.first);
    assert ValidFactor(e.first.factors[0].operand);
  }

  lemma GroupInProductSpelling(text: string, inner: Sum, e: Sum, tree: Node)
    requires text == "2*(3+4)" && inner == Sum(Product(Literal(3), []), [Summand(Add, Product(Literal(4), []))])
    requires e == Sum(Product(Literal(2), [Link(Multiply, Group(inner))]), [])
    requires tree == BinOp(Num(2), Multiply, BinOp(Num(3), Add, Num(4)))
    ensures SpellsSum(text, e, tree)
  {
    var head := [IntegerToken(2), OperatorToken(Mul)];
    var group := [Open] + SumTokens(inner) + [Close];
    assert ValidSum(e) && SumTree(e) == tree && SumTokens(e) == head + group by {
      GroupInProductShape(inner, e, tree);
      OneProduct(e);
      TwoFactors(e.first);
    }
    assert Spells(head + group, text) by {
      GroupInProductShape(inner, e, tree);
      GroupInProductInnerTokens();
      Grouped(inner, "3+4");
      GroupInProductHead();
      Joined(head, "2*", group, "(" + "3+4" + ")");
      GroupInProductText();
    }
  }

  lemma GroupInProductValue(tree: Node)
    requires tree == BinOp(Num(2), Multiply, BinOp(Num(3), Add, Num(4)))
    ensures Eval(tree) == Ok(IntNum(14))
  {
    assert Eval(tree.right) == Ok(IntNum(7));
  }

  /** A whole sum in parentheses is one factor of a product: "2*(3+4)" is
      2*7, that is 14. */
  lemma GroupInProduct(text: string)
    requires text == "2*(3+4)"
    ensures Calculate(text) == Ok(IntNum(14))
  {
    var inner := Sum(Product(Literal(3), []), [Summand(Add, Product(Literal(4), []))]);
    var e := Sum(Product(Literal(2), [Link(Multiply, Group(inner))]), []);
    var tree := BinOp(Num(2), Multiply, BinOp(Num(3), Add, Num(4)));
    GroupInProductSpelling(text, inner, e, tree);
    CalculateSum(text, e, tree);
    GroupInProductValue(tree);
  }

  lemma NegatedGroupTokens()
    ensures Spells([OperatorToken(Minus), OperatorToken(LParen), IntegerToken(3), OperatorToken(Plus), IntegerToken(4),
                    OperatorToken(RParen)], "-(3+4)")
  {
  }

  lemma NegatedGroupSpelling(t: Node, text: string)
    requires t == UnaryOp(Negative, BinOp(Num(3), Add, Num(4))) && text == "-(3+4)"
    ensures Spell(Emit(t)) == text
  {
    assert Emit(t) == [OperatorToken(Minus), OperatorToken(LParen), IntegerToken(3), OperatorToken(Plus), IntegerToken(4),
                       OperatorToken(RParen)];
    NegatedGroupTokens();
  }

  lemma NegatedGroupValue(t: Node)
    requires t == UnaryOp(Negative, BinOp(Num(3), Add, Num(4)))
    ensures Eval(t) == Ok(IntNum(-7))
  {
    assert Eval(t.expr) == Ok(IntNum(7));
  }

  /** A sign in front of parentheses negates the whole group: "-(3+4)" is
      -7. */
  lemma NegatedGroup(text: string)
    requires text == "-(3+4)"
    ensures Calculate(text) == Ok(IntNum(-7))
  {
    var t := UnaryOp(Negative, BinOp(Num(3), Add, Num(4)));
    NegatedGroupSpelling(t, text);
    CalculateEmitted(t);
    NegatedGroupValue(t);
  }

  lemma AdditionTokens()
    ensures Spells([IntegerToken(1), OperatorToken(Plus), IntegerToken(2)], "1+2")
  {
  }

  lemma AdditionSpelling(text: string, e: Sum, tree: Node)
    requires text == "1+2" && e == Sum(Product(Literal(1), []), [Summand(Add, Product(Literal(2), []))])
    requires tree == BinOp(Num(1), Add, Num(2))
    ensures SpellsSum(text, e, tree)
  {
    TwoProducts(e);
    OneFactor(e.first);
    OneFactor(e.summands[0].product);
    assert SumTokens(e) == [IntegerToken(1), OperatorToken(Plus), IntegerToken(2)];
    AdditionTokens();
  }

  /** "1+2" is 3. */
  lemma Addition(text: string)
    requires text == "1+2"
    ensures Calculate(text) == Ok(IntNum(3))
  {
    var e, tree := Sum(Product(Literal(1), []), [Summand(Add, Product(Literal(2), []))]), BinOp(Num(1), Add, Num(2));
    AdditionSpelling(text, e, tree);
    CalculateSum(text, e, tree);
  }

  /** `s` with the characters from `i` up to `j` taken out. */
  function Cut(s: string, i: nat, j: nat): string
    requires i <= j <= |s|
  {
    s[..i] + s[j..]
  }

  /** Taking out a run of whitespace that does not separate two digits. */
  lemma Respace(s: string, i: nat, j: nat)
    requires i <= j <= |s|
    requires forall k :: i <= k < j ==> IsSpace(s[k])
    requires i == 0 || j == |s| || !IsDigit(s[i - 1]) || !IsDigit(s[j])
    ensures Calculate(s) == Calculate(Cut(s, i, j))
  {
    var a, ws, b := s[..i], s[i..j], s[j..];
    ThreeParts(s, i, j);
    if i > 0 && j < |s| {
      assert a[|a| - 1] == s[i - 1] && b[0] == s[j];
    }
    CalculateIgnoresWhitespace(a, ws, b);
  }

  lemma ThreeParts(s: string, i: nat, j: nat)
    requires i <= j <= |s|
    requires forall k :: i <= k < j ==> IsSpace(s[k])
    ensures s == s[..i] + s[i..j] + s[j..] && AllSpace(s[i..j])
  {
    var ws := s[i..j];
    assert forall k :: 0 <= k < |ws| ==> ws[k] == s[i + k];
  }

  lemma SpacesAtEnd(text: string, s1: string)
    requires text == " 1 +   2 " && s1 == " 1 +   2"
    ensures Calculate(text) == Calculate(s1)
  {
    Respace(text, 8, 9);
    assert Cut(text, 8, 9) == s1;
  }

  lemma SpacesAfterPlus(s1: string, s2: string)
    requires s1 == " 1 +   2" && s2 == " 1 +2"
    ensures Calculate(s1) == Calculate(s2)
  {
    Respace(s1, 4, 7);
    assert Cut(s1, 4, 7) == s2;
  }

  lemma SpaceBeforePlus(s2: string, s3: string)
    requires s2 == " 1 +2" && s3 == " 1+2"
    ensures Calculate(s2) == Calculate(s3)
  {
    Respace(s2, 2, 3);
    assert Cut(s2, 2, 3) == s3;
  }

  lemma SpaceAtStart(s3: string, plain: string)
    requires s3 == " 1+2" && plain == "1+2"
    ensures Calculate(s3) == Calculate(plain)
  {
    Respace(s3, 0, 1);
    assert Cut(s3, 0, 1) == plain;
  }

  /** " 1 +   2 " with its whitespace taken out, one run at a time. */
  lemma SpacedSumWhitespace(text: string, s1: string, s2: string, s3: string, plain: string)
    requires text == " 1 +   2 " && s1 == " 1 +   2" && s2 == " 1 +2" && s3 == " 1+2" && plain == "1+2"
    ensures Calculate(text) == Calculate(plain)
  {
    SpacesAtEnd(text, s1);
    SpacesAfterPlus(s1, s2);
    SpaceBeforePlus(s2, s3);
    SpaceAtStart(s3, plain);
  }

  /** Whitespace around and between tokens is insignificant:
      " 1 +   2 " is what "1+2" is, 3. */
  lemma SpacedSum(text: string, plain: string)
    requires text == " 1 +   2 " && plain == "1+2"
    ensures Calculate(text) == Calculate(plain) == Ok(IntNum(3))
  {
    SpacedSumWhitespace(text, " 1 +   2", " 1 +2", " 1+2", plain);
    Addition(plain);
  }
}
