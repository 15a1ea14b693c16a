/** What every piece of input the parser accepts looks like: each factor,
    term and expression it reads ends with a number or `)` and has as many
    `(` as `)`. So input that stops after an operator or `(` ("1+"), or
    leaves a parenthesis open ("(1+2"), is a syntax error. */
module ParseShape {
  import opened Tokens
  import opened Ast
  import opened Grammar

  /** The kinds an accepted piece of input can end with. */
  predicate IsCloser(k: Kind) {
    k == Integer || k == RParen
  }

  /** How much a token opens: 1 for `(`, -1 for `)`, 0 otherwise. */
  function Delta(t: Token): int {
    if t.kind == LParen then 1 else if t.kind == RParen then -1 else 0
  }

  /** The number of `(` minus the number of `)`. */
  function Depth(ts: seq<Token>): int {
    if ts == [] then 0 else Delta(ts[0]) + Depth(ts[1..])
  }

  /** `rest` is what is left of `s` after some of its tokens were read. */
  predicate Behind(s: Stream, rest: Stream) {
    && rest.stop == s.stop
    && |rest.tokens| <= |s.tokens|
    && rest.tokens == s.tokens[|s.tokens| - |rest.tokens|..]
  }

  /** The tokens read from `s` to reach `rest`. */
  function Piece(s: Stream, rest: Stream): seq<Token>
    requires |rest.tokens| <= |s.tokens|
  {
    s.tokens[..|s.tokens| - |rest.tokens|]
  }

  /** No prefix of `ts` closes more parentheses than it opens. */
  ghost predicate NeverBelow(ts: seq<Token>) {
    forall i :: 0 <= i <= |ts| ==> Depth(ts[..i]) >= 0
  }

  /** `rest` is what is left of `s` after a nonempty, balanced piece of input
      that ends with a number or `)` was read. */
  ghost predicate Consumed(s: Stream, rest: Stream) {
    && Behind(s, rest)
    && |rest.tokens| < |s.tokens|
    && IsCloser(s.tokens[|s.tokens| - |rest.tokens| - 1].kind)
    && Depth(rest.tokens) == Depth(s.tokens)
    && NeverBelow(Piece(s, rest))
  }

  lemma {:induction false} DepthConcat(a: seq<Token>, b: seq<Token>)
    ensures Depth(a + b) == Depth(a) + Depth(b)
  {
    if a == [] {
      assert a + b == b;
    } else {
      assert (a + b)[1..] == a[1..] + b;
      DepthConcat(a[1..], b);
    }
  }

  /** Two pieces that never go below zero, one after the other. */
  lemma NeverBelowConcat(x: seq<Token>, y: seq<Token>)
    requires NeverBelow(x) && NeverBelow(y)
    ensures NeverBelow(x + y)
  {
    assert x[..|x|] == x;
    forall i | 0 <= i <= |x + y| ensures Depth((x + y)[..i]) >= 0 {
      if i <= |x| {
        assert (x + y)[..i] == x[..i];
      } else {
        assert (x + y)[..i] == x + y[..i - |x|];
        DepthConcat(x, y[..i - |x|]);
      }
    }
  }

  /** A `)` after a piece that never goes below zero and ends open. */
  lemma NeverBelowClose(x: seq<Token>, t: Token)
    requires NeverBelow(x) && Depth(x) >= 1 && t.kind == RParen
    ensures NeverBelow(x + [t])
  {
    forall i | 0 <= i <= |x + [t]| ensures Depth((x + [t])[..i]) >= 0 {
      if i <= |x| {
        assert (x + [t])[..i] == x[..i];
      } else {
        assert (x + [t])[..i] == x + [t];
        DepthConcat(x, [t]);
      }
    }
  }

  /** One token that does not close a parenthesis. */
  lemma NeverBelowOne(t: Token)
    requires t.kind != RParen
    ensures NeverBelow([t])
  {
    assert forall i :: 0 <= i <= 1 ==> [t][..i] == if i == 0 then [] else [t];
  }

  /** Reading from `a` to `b` and on to `c` reads the two pieces in turn. */
  lemma PieceSplit(a: Stream, b: Stream, c: Stream)
    requires Behind(a, b) && Behind(b, c)
    ensures |c.tokens| <= |a.tokens| && Piece(a, c) == Piece(a, b) + Piece(b, c)
  {
    var n, m := |a.tokens| - |b.tokens|, |b.tokens| - |c.tokens|;
    assert a.tokens[n..][..m] == a.tokens[n..n + m];
    assert a.tokens[..n + m] == a.tokens[..n] + a.tokens[n..n + m];
  }

  lemma BehindTrans(a: Stream, b: Stream, c: Stream)
    requires Behind(a, b) && Behind(b, c)
    ensures Behind(a, c)
    ensures |c.tokens| < |b.tokens| ==> a.tokens[|a.tokens| - |c.tokens| - 1] == b.tokens[|b.tokens| - |c.tokens| - 1]
  {
    var i, j := |a.tokens| - |b.tokens|, |b.tokens| - |c.tokens|;
    assert a.tokens[i..][j..] == a.tokens[i + j..];
  }

  /** Reading more after a balanced piece: what was read first does not
      change where the last piece ends. */
  lemma ConsumedAfter(a: Stream, b: Stream, c: Stream)
    requires Behind(a, b) && Depth(a.tokens) == Depth(b.tokens) && NeverBelow(Piece(a, b))
    requires Consumed(b, c)
    ensures Consumed(a, c)
  {
    BehindTrans(a, b, c);
    PieceSplit(a, b, c);
    NeverBelowConcat(Piece(a, b), Piece(b, c));
  }

  /** A successful `eat` reads exactly the current token. */
  lemma EatReadsOne(s: Stream, k: Kind)
    requires Ready(s) && k != Eof && Eat(s, k).Moved?
    ensures var rest := Eat(s, k).rest;
      && Behind(s, rest) && |rest.tokens| + 1 == |s.tokens| && s.tokens[0].kind == k
      && Depth(s.tokens) == Delta(s.tokens[0]) + Depth(rest.tokens)
      && Piece(s, rest) == [s.tokens[0]]
      && (k != RParen ==> NeverBelow(Piece(s, rest)))
  {
    if k != RParen {
      NeverBelowOne(s.tokens[0]);
    }
  }

  /** A factor the parser reads is a balanced piece ending with a number or
      `)`. */
  lemma {:induction false} FactorConsumes(s: Stream)
    requires Ready(s) && Factor(s).Parsed?
    ensures Consumed(s, Factor(s).rest)
    decreases |s.tokens|, 0
  {
    var t := Look(s);
    if t.kind == Plus || t.kind == Minus {
      EatReadsOne(s, t.kind);
      var e := Eat(s, t.kind);
      FactorConsumes(e.rest);
      ConsumedAfter(s, e.rest, Factor(s).rest);
    } else if t.kind == Integer {
      EatReadsOne(s, Integer);
    } else if t.kind == LParen {
      EatReadsOne(s, LParen);
      var e := Eat(s, LParen);
      ExprConsumes(e.rest);
      var x := Expr(e.rest);
      EatReadsOne(x.rest, RParen);
      ParenthesesConsumed(s, e.rest, x.rest, Eat(x.rest, RParen).rest);
    }
  }

  /** `(`, a balanced piece, then `)`: balanced again, and ending with `)`. */
  lemma ParenthesesConsumed(s: Stream, inner: Stream, close: Stream, rest: Stream)
    requires Behind(s, inner) && |inner.tokens| + 1 == |s.tokens|
    requires s.tokens[0].kind == LParen && Depth(s.tokens) == 1 + Depth(inner.tokens)
    requires Piece(s, inner) == [s.tokens[0]] && NeverBelow(Piece(s, inner))
    requires Consumed(inner, close)
    requires Behind(close, rest) && |rest.tokens| + 1 == |close.tokens|
    requires close.tokens[0].kind == RParen && Depth(close.tokens) == -1 + Depth(rest.tokens)
    requires Piece(close, rest) == [close.tokens[0]]
    ensures Consumed(s, rest)
  {
    BehindTrans(s, inner, close);
    BehindTrans(s, close, rest);
    PieceSplit(s, inner, close);
    PieceSplit(s, close, rest);
    PieceDepth(inner, close);
    GroupNeverBelow(s.tokens[0], Piece(inner, close), close.tokens[0]);
  }

  /** A piece read off a stream: the stream is the piece and then the rest. */
  lemma PieceDepth(s: Stream, rest: Stream)
    requires Behind(s, rest)
    ensures s.tokens == Piece(s, rest) + rest.tokens
    ensures Depth(Piece(s, rest)) == Depth(s.tokens) - Depth(rest.tokens)
  {
    assert s.tokens == Piece(s, rest) + rest.tokens;
    DepthConcat(Piece(s, rest), rest.tokens);
  }

  /** A balanced piece in parentheses never goes below zero. */
  lemma GroupNeverBelow(open: Token, body: seq<Token>, close: Token)
    requires open.kind == LParen && close.kind == RParen
    requires NeverBelow(body) && Depth(body) == 0
    ensures NeverBelow([open] + body + [close])
  {
    NeverBelowOne(open);
    NeverBelowConcat([open], body);
    DepthConcat([open], body);
    NeverBelowClose([open] + body, close);
  }

  /** A term the parser reads is a balanced piece ending with a number or
      `)`. */
  lemma {:induction false} TermConsumes(s: Stream)
    requires Ready(s) && Term(s).Parsed?
    ensures Consumed(s, Term(s).rest)
    decreases |s.tokens|, 1
  {
    FactorConsumes(s);
    var f := Factor(s);
    TermTailConsumes(f.node, f.rest);
    if Term(s).rest != f.rest {
      ConsumedAfter(s, f.rest, Term(s).rest);
    }
  }

  /** The loop of `term` reads nothing, or a balanced piece ending with a
      number or `)`. */
  lemma {:induction false} TermTailConsumes(node: Node, s: Stream)
    requires Ready(s) && TermTail(node, s).Parsed?
    ensures var rest := TermTail(node, s).rest; rest == s || Consumed(s, rest)
    decreases |s.tokens|, 0
  {
    var t := Look(s);
    if t.kind == Mul || t.kind == Div {
      EatReadsOne(s, t.kind);
      var e := Eat(s, t.kind);
      FactorConsumes(e.rest);
      var f := Factor(e.rest);
      ConsumedAfter(s, e.rest, f.rest);
      TermTailConsumes(BinOp(node, OpOf(t.kind), f.node), f.rest);
      if TermTail(node, s).rest != f.rest {
        ConsumedAfter(s, f.rest, TermTail(node, s).rest);
      }
    }
  }

  /** An expression the parser reads is a balanced piece ending with a
      number or `)`. */
  lemma {:induction false} ExprConsumes(s: Stream)
    requires Ready(s) && Expr(s).Parsed?
    ensures Consumed(s, Expr(s).rest)
    decreases |s.tokens|, 2
  {
    TermConsumes(s);
    var x := Term(s);
    ExprTailConsumes(x.node, x.rest);
    if Expr(s).rest != x.rest {
      ConsumedAfter(s, x.rest, Expr(s).rest);
    }
  }

  /** The loop of `expr` reads nothing, or a balanced piece ending with a
      number or `)`. */
  lemma {:induction false} ExprTailConsumes(node: Node, s: Stream)
    requires Ready(s) && ExprTail(node, s).Parsed?
    ensures var rest := ExprTail(node, s).rest; rest == s || Consumed(s, rest)
    decreases |s.tokens|, 0
  {
    var t := Look(s);
    if t.kind == Plus || t.kind == Minus {
      EatReadsOne(s, t.kind);
      var e := Eat(s, t.kind);
      TermConsumes(e.rest);
      var x := Term(e.rest);
      ConsumedAfter(s, e.rest, x.rest);
      ExprTailConsumes(BinOp(node, OpOf(t.kind), x.node), x.rest);
      if ExprTail(node, s).rest != x.rest {
        ConsumedAfter(s, x.rest, ExprTail(node, s).rest);
      }
    }
  }

  /** Input `parse` accepts was lexed without error, is not empty, ends with
      a number or `)`, has as many `(` as `)`, and no prefix of it closes
      more parentheses than it opens. */
  lemma AcceptedShape(s: Stream)
    requires Ready(s) && Parse(s).Parsed?
    ensures s.stop == None && s.tokens != []
    ensures IsCloser(s.tokens[|s.tokens| - 1].kind) && Depth(s.tokens) == 0
    ensures forall i :: 0 <= i <= |s.tokens| ==> Depth(s.tokens[..i]) >= 0
  {
    ExprConsumes(s);
    assert Piece(s, Parse(s).rest) == s.tokens;
  }

  /** Input that ends with an operator or `(` is rejected: `parse` meets EOF
      where it needs a factor or `)`. */
  lemma PrematureEndRejected(ts: seq<Token>)
    requires ValidTokens(ts) && ts != [] && !IsCloser(ts[|ts| - 1].kind)
    ensures Ready(Stream(ts, None)) && Parse(Stream(ts, None)).Failed?
  {
    if Parse(Stream(ts, None)).Parsed? {
      AcceptedShape(Stream(ts, None));
    }
  }

  /** Input with a `(` left open, or a `)` that closes nothing, is
      rejected. */
  lemma UnbalancedRejected(ts: seq<Token>, i: nat)
    requires ValidTokens(ts) && i <= |ts| && (Depth(ts) != 0 || Depth(ts[..i]) < 0)
    ensures Ready(Stream(ts, None)) && Parse(Stream(ts, None)).Failed?
  {
    if Parse(Stream(ts, None)).Parsed? {
      AcceptedShape(Stream(ts, None));
    }
  }

  /** Empty input is rejected: the first factor finds EOF. */
  lemma EmptyRejected()
    ensures Ready(Stream([], None))
    ensures Parse(Stream([], None)) == Failed(SyntaxError(InvalidFactor))
  {
  }
}
