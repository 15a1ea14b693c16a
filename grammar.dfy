/** The recursive-descent parser as functions over the token stream:
    what `Parser.factor`, `term`, `expr` and `parse` compute, for the grammar

        expr   : term ((PLUS | MINUS) term)*
        term   : factor ((MUL | DIV) factor)*
        factor : (PLUS | MINUS) factor | INTEGER | LPAREN expr RPAREN

    A stream is read one token at a time. The current token is the first of
    `s.tokens`, or, when they are used up, EOF (`s.stop == None`) or the
    lexical error the lexer raises (`s.stop == Some(e)`). Every function is
    called with a current token in hand (`Ready`), as the parser always has
    one, and returns the stream after the tokens it consumed, again with a
    current token in hand. */
module Grammar {
  import opened Tokens
  import opened Ast

  /** A tree and the stream after it, or the exception raised. */
  datatype Parsed = Parsed(node: Node, rest: Stream) | Failed(error: Error)

  /** The stream after an `eat`, or the exception raised. */
  datatype Moved = Moved(rest: Stream) | Stuck(error: Error)

  /** The current token is available: there is one more token, or the text
      ended cleanly. */
  predicate Ready(s: Stream) {
    ValidStream(s) && (s.tokens != [] || s.stop == None)
  }

  /** The current token. */
  function Look(s: Stream): (t: Token)
    requires Ready(s)
    ensures ValidToken(t) && (t.kind == Eof <==> s.tokens == [])
  {
    if s.tokens != [] then s.tokens[0] else EofToken
  }

  /** `eat(k)`: the current token must have kind `k`; the lexer is then asked
      for the next token, which may raise. */
  function Eat(s: Stream, k: Kind): (r: Moved)
    requires Ready(s) && k != Eof
    ensures r.Moved? <==> Look(s).kind == k && (|s.tokens| > 1 || s.stop == None)
    ensures r.Moved? ==> Ready(r.rest) && r.rest == Stream(s.tokens[1..], s.stop)
    ensures r.Stuck? && Look(s).kind == k ==> s.tokens == [s.tokens[0]] && Some(r.error) == s.stop
    ensures r.Stuck? && Look(s).kind != k ==> r.error == SyntaxError(Expected(k, Look(s).kind))
  {
    var t := Look(s);
    if t.kind != k then
      Stuck(SyntaxError(Expected(k, t.kind)))
    else
      var rest := Stream(s.tokens[1..], s.stop);
      if rest.tokens == [] && rest.stop.Some? then Stuck(rest.stop.value) else Moved(rest)
  }

  /** `factor : (PLUS | MINUS) factor | INTEGER | LPAREN expr RPAREN`. */
  function Factor(s: Stream): (r: Parsed)
    requires Ready(s)
    ensures r.Parsed? ==> Ready(r.rest) && |r.rest.tokens| < |s.tokens|
    ensures r.Parsed? ==> r.rest.stop == s.stop
    ensures r.Failed? ==> r.error.SyntaxError? || Some(r.error) == s.stop
    decreases |s.tokens|, 0
  {
    var t := Look(s);
    if t.kind == Plus || t.kind == Minus then
      var e := Eat(s, t.kind);
      if e.Stuck? then Failed(e.error)
      else
        var f := Factor(e.rest);
        if f.Failed? then f else Parsed(UnaryOp(SignOf(t.kind), f.node), f.rest)
    else if t.kind == Integer then
      var e := Eat(s, Integer);
      if e.Stuck? then Failed(e.error) else Parsed(Num(t.value.n), e.rest)
    else if t.kind == LParen then
      var e := Eat(s, LParen);
      if e.Stuck? then Failed(e.error)
      else
        var x := Expr(e.rest);
        if x.Failed? then x
        else
          var c := Eat(x.rest, RParen);
          if c.Stuck? then Failed(c.error) else Parsed(x.node, c.rest)
    else
      Failed(SyntaxError(InvalidFactor))
  }

  /** `term : factor ((MUL | DIV) factor)*`. */
  function Term(s: Stream): (r: Parsed)
    requires Ready(s)
    ensures r.Parsed? ==> Ready(r.rest) && |r.rest.tokens| < |s.tokens|
    ensures r.Parsed? ==> r.rest.stop == s.stop
    ensures r.Failed? ==> r.error.SyntaxError? || Some(r.error) == s.stop
    decreases |s.tokens|, 1
  {
    var f := Factor(s);
    if f.Failed? then f else TermTail(f.node, f.rest)
  }

  /** The loop of `term` with `node` built so far: while the current token
      is `*` or `/`, eat it, parse a factor and fold it in on the right. */
  function TermTail(node: Node, s: Stream): (r: Parsed)
    requires Ready(s)
    ensures r.Parsed? ==> Ready(r.rest) && |r.rest.tokens| <= |s.tokens|
    ensures r.Parsed? ==> Look(r.rest).kind != Mul && Look(r.rest).kind != Div
    ensures r.Parsed? ==> r.rest.stop == s.stop
    ensures r.Failed? ==> r.error.SyntaxError? || Some(r.error) == s.stop
    decreases |s.tokens|, 0
  {
    var t := Look(s);
    if t.kind == Mul || t.kind == Div then
      var e := Eat(s, t.kind);
      if e.Stuck? then Failed(e.error)
      else
        var f := Factor(e.rest);
        if f.Failed? then f else TermTail(BinOp(node, OpOf(t.kind), f.node), f.rest)
    else
      Parsed(node, s)
  }

  /** `expr : term ((PLUS | MINUS) term)*`. */
  function Expr(s: Stream): (r: Parsed)
    requires Ready(s)
    ensures r.Parsed? ==> Ready(r.rest) && |r.rest.tokens| < |s.tokens|
    ensures r.Parsed? ==> r.rest.stop == s.stop
    ensures r.Failed? ==> r.error.SyntaxError? || Some(r.error) == s.stop
    decreases |s.tokens|, 2
  {
    var x := Term(s);
    if x.Failed? then x else ExprTail(x.node, x.rest)
  }

  /** The loop of `expr` with `node` built so far: while the current token
      is `+` or `-`, eat it, parse a term and fold it in on the right. */
  function ExprTail(node: Node, s: Stream): (r: Parsed)
    requires Ready(s)
    ensures r.Parsed? ==> Ready(r.rest) && |r.rest.tokens| <= |s.tokens|
    ensures r.Parsed? ==> Look(r.rest).kind != Plus && Look(r.rest).kind != Minus
    ensures r.Parsed? ==> r.rest.stop == s.stop
    ensures r.Failed? ==> r.error.SyntaxError? || Some(r.error) == s.stop
    decreases |s.tokens|, 0
  {
    var t := Look(s);
    if t.kind == Plus || t.kind == Minus then
      var e := Eat(s, t.kind);
      if e.Stuck? then Failed(e.error)
      else
        var x := Term(e.rest);
        if x.Failed? then x else ExprTail(BinOp(node, OpOf(t.kind), x.node), x.rest)
    else
      Parsed(node, s)
  }

  /** `parse`: an expression, then nothing but EOF. */
  function Parse(s: Stream): (r: Parsed)
    requires Ready(s)
    ensures r.Parsed? ==> r.rest == Stream([], None)
    ensures r.Parsed? ==> r.rest.stop == s.stop
    ensures r.Failed? ==> r.error.SyntaxError? || Some(r.error) == s.stop
  {
    var x := Expr(s);
    if x.Failed? then x
    else if Look(x.rest).kind != Eof then Failed(SyntaxError(TrailingInput))
    else x
  }
}
