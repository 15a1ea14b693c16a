/** The parser object: one token of lookahead (`currentToken`) taken from a
    lexer, and the recursive-descent methods, each proved to compute what the
    function of the same name in `Grammar` computes on the stream of tokens
    the parser has not consumed yet. */
module Parsers {
  import opened Tokens
  import opened LexerSpec
  import opened Lexers
  import opened Ast
  import opened Grammar

  /** A method's result agrees with the grammar function's: the same tree,
      with the parser left at the same place, or the same exception. */
  ghost predicate Agrees(r: Result<Node>, g: Parsed, now: Stream) {
    && (g.Parsed? ==> r == Ok(g.node) && now == g.rest)
    && (g.Failed? ==> r == Err(g.error))
  }

  /** Eating the current token `t` of a parser whose lexer has `x` left to
      read moves on to what the lexer's next step produces. */
  lemma EatStep(t: Token, x: string)
    requires ValidToken(t) && t.kind != Eof
    ensures var r := NextToken(x);
      var m := Grammar.Eat(Prepend([t], Scan(x)), t.kind);
      && (r.Illegal? ==> m == Stuck(SyntaxError(InvalidCharacter(r.ch))))
      && (r.Lexed? && r.token.kind == Eof ==> m == Moved(Stream([], None)))
      && (r.Lexed? && r.token.kind != Eof ==> m == Moved(Prepend([r.token], Scan(x[r.len..]))))
  {
    ScanStep(x);
    assert Prepend([t], Scan(x)).tokens[1..] == Scan(x).tokens;
  }

  class Parser {
    const lexer: Lexer
    var currentToken: Token

    ghost predicate Valid()
      reads this, lexer
    {
      lexer.Valid() && ValidToken(currentToken)
    }

    /** The tokens not consumed yet: the current token, then whatever the
        lexer would still produce. Once the current token is EOF nothing
        follows. */
    ghost function Remaining(): (s: Stream)
      reads this, lexer
      requires Valid()
      ensures Ready(s)
    {
      if currentToken.kind == Eof then Stream([], None)
      else Prepend([currentToken], Scan(lexer.Rest()))
    }

    constructor Init(lexer: Lexer, first: Token)
      requires ValidToken(first)
      ensures this.lexer == lexer && currentToken == first
    {
      this.lexer := lexer;
      currentToken := first;
    }

    /** `Parser(lexer)`: reads the first token, which may raise. */
    static method Create(lexer: Lexer) returns (r: Result<Parser>)
      requires lexer.Valid()
      modifies lexer
      ensures var s := Scan(old(lexer.Rest()));
        && (r.Ok? <==> Ready(s))
        && (r.Ok? ==> fresh(r.value) && r.value.lexer == lexer && r.value.Valid() && r.value.Remaining() == s)
        && (r.Err? ==> Some(r.error) == s.stop)
    {
      ScanStep(lexer.Rest());
      var t := lexer.GetNextToken();
      if t.Err? {
        return Err(t.error);
      }
      var p := new Parser.Init(lexer, t.value);
      return Ok(p);
    }

    /** `eat(k)`: consumes the current token if it has kind `k` and asks the
        lexer for the next one; raises otherwise. */
    method Eat(k: Kind) returns (o: Outcome)
      requires Valid() && k != Eof
      modifies this, lexer
      ensures Valid()
      ensures var m := Grammar.Eat(old(Remaining()), k);
        && (m.Moved? ==> o == Pass && Remaining() == m.rest)
        && (m.Stuck? ==> o == Fail(m.error))
    {
      if currentToken.kind == k {
        ghost var x, p := lexer.Rest(), lexer.pos;
        var t := lexer.GetNextToken();
        EatStep(currentToken, x);
        if t.Err? {
          return Fail(t.error);
        }
        SuffixOfSuffix(lexer.text, p, lexer.pos);
        assert lexer.Rest() == x[NextToken(x).len..];
        currentToken := t.value;
        return Pass;
      } else {
        return Fail(SyntaxError(Expected(k, currentToken.kind)));
      }
    }

    /** `factor : (PLUS | MINUS) factor | INTEGER | LPAREN expr RPAREN`. */
    method Factor() returns (r: Result<Node>)
      requires Valid()
      modifies this, lexer
      ensures Valid() && Agrees(r, Grammar.Factor(old(Remaining())), Remaining())
      decreases |Remaining().tokens|, 0
    {
      var token := currentToken;
      if token.kind == Plus || token.kind == Minus {
        var o := Eat(token.kind);
        if o.Fail? {
          return Err(o.error);
        }
        var f := Factor();
        if f.Err? {
          return f;
        }
        return Ok(UnaryOp(SignOf(token.kind), f.value));
      }
      if token.kind == Integer {
        var o := Eat(Integer);
        if o.Fail? {
          return Err(o.error);
        }
        return Ok(Num(token.value.n));
      }
      if token.kind == LParen {
        var o := Eat(LParen);
        if o.Fail? {
          return Err(o.error);
        }
        var node := Expr();
        if node.Err? {
          return node;
        }
        o := Eat(RParen);
        if o.Fail? {
          return Err(o.error);
        }
        return node;
      }
      return Err(SyntaxError(InvalidFactor));
    }

    /** `term : factor ((MUL | DIV) factor)*`, folding to the left. */
    method Term() returns (r: Result<Node>)
      requires Valid()
      modifies this, lexer
      ensures Valid() && Agrees(r, Grammar.Term(old(Remaining())), Remaining())
      decreases |Remaining().tokens|, 1
    {
      var first := Factor();
      if first.Err? {
        return first;
      }
      var node := first.value;
      while currentToken.kind == Mul || currentToken.kind == Div
        invariant Valid() && |Remaining().tokens| < |old(Remaining()).tokens|
        invariant Grammar.Term(old(Remaining())) == TermTail(node, Remaining())
        decreases |Remaining().tokens|
      {
        var token := currentToken;
        var o: Outcome;
        if token.kind == Mul {
          o := Eat(Mul);
        } else {
          o := Eat(Div);
        }
        if o.Fail? {
          return Err(o.error);
        }
        var right := Factor();
        if right.Err? {
          return right;
        }
        node := BinOp(node, OpOf(token.kind), right.value);
      }
      return Ok(node);
    }

    /** `expr : term ((PLUS | MINUS) term)*`, folding to the left. */
    method Expr() returns (r: Result<Node>)
      requires Valid()
      modifies this, lexer
      ensures Valid() && Agrees(r, Grammar.Expr(old(Remaining())), Remaining())
      decreases |Remaining().tokens|, 2
    {
      var first := Term();
      if first.Err? {
        return first;
      }
      var node := first.value;
      while currentToken.kind == Plus || currentToken.kind == Minus
        invariant Valid() && |Remaining().tokens| < |old(Remaining()).tokens|
        invariant Grammar.Expr(old(Remaining())) == ExprTail(node, Remaining())
        decreases |Remaining().tokens|
      {
        var token := currentToken;
        var o: Outcome;
        if token.kind == Plus {
          o := Eat(Plus);
        } else {
          o := Eat(Minus);
        }
        if o.Fail? {
          return Err(o.error);
        }
        var right := Term();
        if right.Err? {
          return right;
        }
        node := BinOp(node, OpOf(token.kind), right.value);
      }
      return Ok(node);
    }

    /** `parse`: an expression followed by EOF. */
    method Parse() returns (r: Result<Node>)
      requires Valid()
      modifies this, lexer
      ensures Valid() && Agrees(r, Grammar.Parse(old(Remaining())), Remaining())
    {
      var node := Expr();
      if node.Err? {
        return node;
      }
      if currentToken.kind != Eof {
        return Err(SyntaxError(TrailingInput));
      }
      return node;
    }
  }
}
