/** The interpreter object, and what the whole pipeline (lexer, parser,
    interpreter) computes for one line of text. */
module Interpreters {
  import opened Tokens
  import opened LexerSpec
  import opened Lexers
  import opened Ast
  import opened Grammar
  import opened Parsers
  import opened Evaluation
  import opened GrammarProperties
  import opened ParseShape

  /** `interpret` on a stream of tokens: parse, then visit the tree. Only
      a stream the lexer finished without error, with at least one token,
      has a value. */
  function Interpretation(s: Stream): (r: Result<Number>)
    requires Ready(s)
    ensures r.Ok? ==> s.stop == None && s.tokens != []
  {
    var p := Parse(s);
    if p.Failed? then Err(p.error)
    else
      AcceptedShape(s);
      Eval(p.node)
  }

  /** The value of one line of text, or the exception it raises: the parser
      reads the first token when it is built, which raises at once on an
      illegal first character. A line has a value only when the whole of it
      lexes and it holds at least one token. */
  function Calculate(text: string): (r: Result<Number>)
    ensures r.Ok? ==> Scan(text).stop == None && Scan(text).tokens != []
  {
    var s := Scan(text);
    if !Ready(s) then Err(s.stop.value) else Interpretation(s)
  }

  class Interpreter {
    const parser: Parser

    constructor (parser: Parser)
      ensures this.parser == parser
    {
      this.parser := parser;
    }

    /** `interpret`: parses the input the parser has left and evaluates the
        tree. */
    method Interpret() returns (r: Result<Number>)
      requires parser.Valid()
      modifies parser, parser.lexer
      ensures r == Interpretation(old(parser.Remaining()))
    {
      var tree := parser.Parse();
      if tree.Err? {
        return Err(tree.error);
      }
      return Eval(tree.value);
    }
  }

  /** A lexer, a parser and an interpreter built on `text` in turn, then
      `interpret`. */
  method Evaluate(text: string) returns (r: Result<Number>)
    ensures r == Calculate(text)
  {
    var lexer := new Lexer(text);
    assert lexer.Rest() == text;
    var p := Parser.Create(lexer);
    if p.Err? {
      return Err(p.error);
    }
    var interpreter := new Interpreter(p.value);
    r := interpreter.Interpret();
  }

  /** A written-out tree never puts two numbers side by side. */
  lemma {:induction false} EmitSeparable(t: Node)
    ensures Separable(Emit(t))
  {
    match t
    case Num(_) =>
    case UnaryOp(sign, e) =>
      EmitSeparable(e);
      SeparableConcat([SignToken(sign)], Emit(e));
    case BinOp(l, op, r) =>
      EmitSeparable(l);
      EmitSeparable(r);
      SeparableConcat([Open], Emit(l));
      SeparableConcat([Open] + Emit(l), [OpToken(op)]);
      SeparableConcat([Open] + Emit(l) + [OpToken(op)], Emit(r));
      SeparableConcat([Open] + Emit(l) + [OpToken(op)] + Emit(r), [Close]);
  }

  /** The text of a whole input, from its tokens. */
  lemma CalculateTokens(ts: seq<Token>)
    requires ValidTokens(ts) && Separable(ts)
    ensures Ready(Stream(ts, None)) && Calculate(Spell(ts)) == Interpretation(Stream(ts, None))
  {
    SpellRoundTrip(ts);
  }

  /** Printing a tree, fully parenthesised, and interpreting the text gives
      the value of the tree. */
  lemma CalculateEmitted(t: Node)
    ensures Calculate(Spell(Emit(t))) == Eval(t)
  {
    EmitSeparable(t);
    CalculateTokens(Emit(t));
    ParseRoundTrip(t);
  }

  /** Any expression, written out, evaluates to the value of its tree: a
      sum of products, each folded to the left, with each parenthesised
      part evaluated as one factor. */
  lemma CalculateExpression(e: Sum)
    requires ValidSum(e)
    ensures Calculate(Spell(SumTokens(e))) == Eval(SumTree(e))
  {
    var end := Stream([], None);
    SumOfProducts(e, end);
    assert Prepend(SumTokens(e), end) == Stream(SumTokens(e), None);
    CalculateTokens(SumTokens(e));
  }

  lemma WrapSeparable(k: nat, ts: seq<Token>)
    requires Separable(ts)
    ensures Separable(Wrap(k, ts))
  {
    if k > 0 {
      WrapSeparable(k - 1, ts);
      SeparableConcat([Open], Wrap(k - 1, ts));
      SeparableConcat([Open] + Wrap(k - 1, ts), [Close]);
    }
  }

  /** A tree inside any number of pairs of parentheses has the tree's value. */
  lemma CalculateParenthesised(k: nat, t: Node)
    ensures ValidTokens(Wrap(k, Emit(t)))
    ensures Calculate(Spell(Wrap(k, Emit(t)))) == Eval(t)
  {
    var end := Stream([], None);
    var ts := Wrap(k, Emit(t));
    ParenthesesTransparent(k, t, end);
    assert Prepend(ts, end) == Stream(ts, None);
    ExprOfFactor(Stream(ts, None));
    EmitSeparable(t);
    WrapSeparable(k, Emit(t));
    CalculateTokens(ts);
  }

  /** Whitespace is insignificant: adding or removing it between two pieces
      of text changes nothing, unless it separates two digit runs. */
  lemma CalculateIgnoresWhitespace(a: string, ws: string, b: string)
    requires AllSpace(ws) && !Glued(a, b)
    ensures Calculate(a + ws + b) == Calculate(a + b)
  {
    WhitespaceInsignificant(a, ws, b);
  }

  /** Text that lexes to a nonempty list of tokens ending with an operator
      or `(` is a syntax error. */
  lemma CalculatePrematureEnd(text: string)
    requires Scan(text).stop == None && Scan(text).tokens != []
    requires !IsCloser(Scan(text).tokens[|Scan(text).tokens| - 1].kind)
    ensures Calculate(text).Err? && Calculate(text).error.SyntaxError?
  {
    PrematureEndRejected(Scan(text).tokens);
  }

  /** Text that lexes to tokens with more `(` than `)`, or with a `)` that
      closes nothing, is a syntax error. */
  lemma CalculateUnbalanced(text: string, i: nat)
    requires Scan(text).stop == None && i <= |Scan(text).tokens|
    requires Depth(Scan(text).tokens) != 0 || Depth(Scan(text).tokens[..i]) < 0
    ensures Calculate(text).Err? && Calculate(text).error.SyntaxError?
  {
    UnbalancedRejected(Scan(text).tokens, i);
  }
}
