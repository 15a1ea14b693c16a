/** What `Lexer.get_next_token` computes, as functions over the unread text,
    and the properties of the token stream it yields. */
module LexerSpec {
  import opened Tokens

  predicate AllSpace(s: string) {
    forall i :: 0 <= i < |s| ==> IsSpace(s[i])
  }

  predicate AllDigits(s: string) {
    forall i :: 0 <= i < |s| ==> IsDigit(s[i])
  }

  /** True when `a` ends with a digit and `b` starts with one, so that writing
      them side by side would merge two digit runs into one. */
  predicate Glued(a: string, b: string) {
    |a| > 0 && |b| > 0 && IsDigit(a[|a| - 1]) && IsDigit(b[0])
  }

  /** The length of the longest prefix of `s` whose characters satisfy `p`. */
  function Span(p: char -> bool, s: string): (n: nat)
    ensures n <= |s|
  {
    if s != [] && p(s[0]) then 1 + Span(p, s[1..]) else 0
  }

  /** `Span` measures a run of `p`-characters that cannot be extended. */
  lemma {:induction false} SpanIsMaximal(p: char -> bool, s: string)
    ensures forall i :: 0 <= i < Span(p, s) ==> p(s[i])
    ensures Span(p, s) < |s| ==> !p(s[Span(p, s)])
  {
    if s != [] && p(s[0]) {
      SpanIsMaximal(p, s[1..]);
      assert forall i :: 1 <= i < Span(p, s) ==> s[i] == s[1..][i - 1];
    }
  }

  /** A maximal run of `p`-characters is what `Span` measures. */
  lemma {:induction false} SpanIs(p: char -> bool, s: string, k: nat)
    requires k <= |s| && (forall i :: 0 <= i < k ==> p(s[i]))
    requires k < |s| ==> !p(s[k])
    ensures Span(p, s) == k
  {
    if k > 0 {
      assert p(s[0]);
      assert forall i :: 0 <= i < k - 1 ==> s[1..][i] == s[i + 1];
      SpanIs(p, s[1..], k - 1);
    }
  }

  /** Dropping part of a run shortens it by as much. */
  lemma SpanDrop(p: char -> bool, s: string, k: nat)
    requires k <= Span(p, s)
    ensures Span(p, s[k..]) == Span(p, s) - k
  {
    SpanIsMaximal(p, s);
    var n := Span(p, s);
    assert forall i :: 0 <= i < |s[k..]| ==> s[k..][i] == s[k + i];
    SpanIs(p, s[k..], n - k);
  }

  /** The same as `SpanDrop`, for runs measured inside one text `t`. */
  lemma SpanFrom(p: char -> bool, t: string, i: nat, j: nat)
    requires i <= j <= |t| && j - i <= Span(p, t[i..])
    ensures Span(p, t[j..]) == Span(p, t[i..]) - (j - i)
  {
    SpanDrop(p, t[i..], j - i);
    assert t[i..][j - i..] == t[j..];
  }

  /** A run that stops inside `u` is not changed by what follows `u`. */
  lemma SpanStopsEarly(p: char -> bool, u: string, v: string)
    requires Span(p, u) < |u|
    ensures Span(p, u + v) == Span(p, u)
  {
    SpanIsMaximal(p, u);
    var n := Span(p, u);
    assert (u + v)[n] == u[n];
    assert forall i :: 0 <= i < n ==> (u + v)[i] == u[i];
    SpanIs(p, u + v, n);
  }

  /** A run that covers all of `u` goes on into `v`. */
  lemma SpanCarriesOn(p: char -> bool, u: string, v: string)
    requires Span(p, u) == |u|
    ensures Span(p, u + v) == |u| + Span(p, v)
  {
    SpanIsMaximal(p, u);
    SpanIsMaximal(p, v);
    var n := |u| + Span(p, v);
    assert forall i :: 0 <= i < |u| ==> (u + v)[i] == u[i];
    assert forall i :: |u| <= i < n ==> (u + v)[i] == v[i - |u|];
    assert n < |u + v| ==> (u + v)[n] == v[Span(p, v)];
    SpanIs(p, u + v, n);
  }

  function DigitValue(c: char): (d: nat)
    requires IsDigit(c)
    ensures d < 10
  {
    (c as int) - ('0' as int)
  }

  function DigitChar(d: nat): (c: char)
    requires d < 10
    ensures IsDigit(c) && DigitValue(c) == d
  {
    (('0' as int) + d) as char
  }

  /** The number a run of decimal digits spells, most significant first, as
      Python's `int` reads the joined digits. */
  function DecimalValue(ds: string): (n: nat)
    requires AllDigits(ds)
    ensures n < Pow10(|ds|)
  {
    if ds == [] then 0 else 10 * DecimalValue(ds[..|ds| - 1]) + DigitValue(ds[|ds| - 1])
  }

  /** Leading zeros do not change the value, as with `int("007")`. */
  lemma {:induction false} LeadingZero(ds: string)
    requires AllDigits(ds)
    ensures AllDigits(['0'] + ds) && DecimalValue(['0'] + ds) == DecimalValue(ds)
    decreases |ds|
  {
    var zs := ['0'] + ds;
    if ds != [] {
      assert zs[..|zs| - 1] == ['0'] + ds[..|ds| - 1];
      LeadingZero(ds[..|ds| - 1]);
    }
  }

  function Pow10(k: nat): (p: nat)
    ensures p >= 1
  {
    if k == 0 then 1 else 10 * Pow10(k - 1)
  }

  /** The shortest decimal spelling of `n`. */
  function ToDecimal(n: nat): (s: string)
    ensures |s| >= 1 && AllDigits(s)
  {
    if n < 10 then [DigitChar(n)] else ToDecimal(n / 10) + [DigitChar(n % 10)]
  }

  /** Reading back the decimal spelling of a number gives the number. */
  lemma {:induction false} DecimalRoundTrip(n: nat)
    ensures DecimalValue(ToDecimal(n)) == n
  {
    if n >= 10 {
      var s := ToDecimal(n);
      assert s[..|s| - 1] == ToDecimal(n / 10);
      DecimalRoundTrip(n / 10);
    }
  }

  /** One step of the lexer: a token and the number of characters it took
      (including the whitespace before it), or the character that starts no
      token. */
  datatype Step = Lexed(token: Token, len: nat) | Illegal(ch: char)

  /** The token that starts at the front of `u` (which starts with a
      non-space character) and how many characters it takes: a maximal digit
      run, one operator or parenthesis character, or an invalid character. */
  function LexToken(u: string): (r: Step)
    requires u != [] && !IsSpace(u[0])
    ensures r.Lexed? <==> IsLegal(u[0])
    ensures r.Lexed? ==> 1 <= r.len <= |u| && ValidToken(r.token) && r.token.kind != Eof
    ensures r.Illegal? ==> r.ch == u[0]
    ensures IsOperatorChar(u[0]) ==> r == Lexed(OperatorToken(CharKind(u[0])), 1)
    ensures IsDigit(u[0]) ==> r.Lexed? && r.len == Span(IsDigit, u) && AllDigits(u[..r.len]) && r.token == IntegerToken(DecimalValue(u[..r.len]))
  {
    var c := u[0];
    if IsDigit(c) then
      var d := Span(IsDigit, u);
      SpanIsMaximal(IsDigit, u);
      Lexed(IntegerToken(DecimalValue(u[..d])), d)
    else if IsOperatorChar(c) then
      Lexed(OperatorToken(CharKind(c)), 1)
    else
      Illegal(c)
  }

  /** What one call of `get_next_token` does on the unread text `s`: skip the
      leading whitespace, then return EOF at the end of the text, or the next
      token together with the number of characters consumed, or raise on an
      invalid character. */
  function NextToken(s: string): (r: Step)
    ensures r.Lexed? ==> r.len <= |s| && ValidToken(r.token)
    ensures r.Lexed? && r.token.kind == Eof <==> Span(IsSpace, s) == |s|
    ensures r.Lexed? && r.token.kind == Eof ==> r.len == |s|
    ensures r.Lexed? && r.token.kind != Eof ==> Span(IsSpace, s) < r.len
    ensures r.Illegal? ==> Span(IsSpace, s) < |s| && r.ch == s[Span(IsSpace, s)] && !IsLegal(r.ch)
  {
    var w := Span(IsSpace, s);
    SpanIsMaximal(IsSpace, s);
    if w == |s| then
      Lexed(EofToken, w)
    else
      var r := LexToken(s[w..]);
      if r.Illegal? then r else Lexed(r.token, w + r.len)
  }

  /** Past the leading whitespace of `t[i..]`, which ends at `j`, the next
      token is the one at the front of `t[j..]`. */
  lemma NextTokenFrom(t: string, i: nat, j: nat)
    requires i <= j < |t| && j - i == Span(IsSpace, t[i..]) && !IsSpace(t[j])
    ensures var r := LexToken(t[j..]);
      NextToken(t[i..]) == if r.Illegal? then r else Lexed(r.token, (j - i) + r.len)
  {
    assert t[i..][j - i..] == t[j..];
  }

  /** The whole stream a fresh lexer over `s` yields. */
  function Scan(s: string): (st: Stream)
    ensures ValidStream(st)
    decreases |s|
  {
    var r := NextToken(s);
    if r.Illegal? then Stream([], Some(SyntaxError(InvalidCharacter(r.ch))))
    else if r.token.kind == Eof then Stream([], None)
    else Prepend([r.token], Scan(s[r.len..]))
  }

  /** The stream of `a` followed by the stream of `b`, unless `a` stops at a
      lexical error. */
  function Then(x: Stream, y: Stream): Stream {
    if x.stop.Some? then x else Prepend(x.tokens, y)
  }

  /** After leading whitespace, the next token is the same, further on. */
  lemma NextTokenSkipsSpace(ws: string, s: string)
    requires AllSpace(ws)
    ensures var r := NextToken(s);
      NextToken(ws + s) == if r.Illegal? then r else Lexed(r.token, |ws| + r.len)
  {
    SpanIs(IsSpace, ws, |ws|);
    SpanCarriesOn(IsSpace, ws, s);
    var w := Span(IsSpace, s);
    SpanIsMaximal(IsSpace, s);
    assert Span(IsSpace, ws + s) == |ws| + w;
    if w < |s| {
      assert (ws + s)[|ws| + w..] == s[w..];
      assert LexToken((ws + s)[|ws| + w..]) == LexToken(s[w..]);
    }
  }

  /** Two texts whose next steps agree, and whose texts after that step
      agree, lex alike. */
  lemma ScanFollowsStep(x: string, y: string)
    requires NextToken(x).Illegal? <==> NextToken(y).Illegal?
    requires NextToken(x).Illegal? ==> NextToken(x).ch == NextToken(y).ch
    requires NextToken(x).Lexed? ==> NextToken(x).token == NextToken(y).token
    requires NextToken(x).Lexed? && NextToken(x).token.kind != Eof ==> x[NextToken(x).len..] == y[NextToken(y).len..]
    ensures Scan(x) == Scan(y)
  {
  }

  /** The stream of a text, by what its next step is. */
  lemma ScanStep(x: string)
    ensures var r := NextToken(x);
      && (r.Illegal? ==> Scan(x) == Stream([], Some(SyntaxError(InvalidCharacter(r.ch)))))
      && (r.Lexed? && r.token.kind == Eof ==> Scan(x) == Stream([], None))
      && (r.Lexed? && r.token.kind != Eof ==> Scan(x) == Prepend([r.token], Scan(x[r.len..])))
  {
  }

  /** Leading whitespace yields no token. */
  lemma ScanSkipsSpace(ws: string, s: string)
    requires AllSpace(ws)
    ensures Scan(ws + s) == Scan(s)
  {
    NextTokenSkipsSpace(ws, s);
    var r := NextToken(s);
    if r.Lexed? {
      assert (ws + s)[|ws| + r.len..] == s[r.len..];
    }
    ScanFollowsStep(ws + s, s);
  }

  /** The token at the front of `u` does not depend on what follows `u`,
      as long as no digit run continues into it. */
  lemma LexTokenIgnoresSuffix(u: string, v: string)
    requires u != [] && !IsSpace(u[0]) && !Glued(u, v)
    ensures LexToken(u + v) == LexToken(u)
  {
    if IsDigit(u[0]) {
      var d := Span(IsDigit, u);
      if d < |u| {
        SpanStopsEarly(IsDigit, u, v);
      } else {
        SpanIsMaximal(IsDigit, u);
        SpanCarriesOn(IsDigit, u, v);
        SpanIs(IsDigit, v, 0);
      }
      assert (u + v)[..d] == u[..d];
    }
  }

  /** When `s` holds more than whitespace, its next token is the one at the
      front of what follows the whitespace. */
  lemma NextTokenPastSpace(s: string, w: nat)
    requires w == Span(IsSpace, s) < |s|
    ensures !IsSpace(s[w..][0])
    ensures var r := LexToken(s[w..]);
      NextToken(s) == if r.Illegal? then r else Lexed(r.token, w + r.len)
  {
    SpanIsMaximal(IsSpace, s);
  }

  /** The next token of `a` does not depend on what follows `a`, as long as
      `a` holds more than whitespace and no digit run continues past it. */
  lemma NextTokenIgnoresSuffix(a: string, b: string)
    requires Span(IsSpace, a) < |a| && !Glued(a, b)
    ensures NextToken(a + b) == NextToken(a)
  {
    var w := Span(IsSpace, a);
    SpanStopsEarly(IsSpace, a, b);
    SuffixOfAppend(a, b, w);
    NextTokenPastSpace(a, w);
    NextTokenPastSpace(a + b, w);
    SuffixNotGlued(a, b, w);
    LexTokenIgnoresSuffix(a[w..], b);
  }

  lemma SuffixNotGlued(a: string, b: string, w: nat)
    requires w < |a| && !Glued(a, b)
    ensures !Glued(a[w..], b)
  {
    assert a[w..][|a| - w - 1] == a[|a| - 1];
  }

  lemma AppendAssociates<T>(x: seq<T>, y: seq<T>, z: seq<T>)
    ensures x + (y + z) == (x + y) + z
  {
  }

  lemma PrefixAndSuffix<T>(x: seq<T>, i: nat)
    requires i <= |x|
    ensures x[..i] + x[i..] == x && (i == |x| ==> x[..i] == x)
  {
  }

  lemma PrefixOfAppend<T>(x: seq<T>, y: seq<T>)
    ensures (x + y)[..|x|] == x && (x + y)[|x|..] == y
  {
  }

  lemma HeadAndTail<T>(x: seq<T>)
    requires x != []
    ensures [x[0]] + x[1..] == x
  {
  }

  lemma SuffixOfAppend<T>(x: seq<T>, y: seq<T>, i: nat)
    requires i <= |x|
    ensures (x + y)[i..] == x[i..] + y
  {
  }

  lemma SliceOfSuffix<T>(x: seq<T>, i: nat, j: nat)
    requires i <= j <= |x|
    ensures x[i..j] == x[i..][..j - i]
  {
  }

  lemma SuffixOfSuffix<T>(x: seq<T>, i: nat, j: nat)
    requires i <= j <= |x|
    ensures x[i..][j - i..] == x[j..]
  {
  }

  /** Lexing a concatenation lexes the two parts one after the other, as long
      as no digit run spans the seam. */
  lemma {:induction false} ScanConcat(a: string, b: string)
    requires !Glued(a, b)
    ensures Scan(a + b) == Then(Scan(a), Scan(b))
    decreases |a|
  {
    SpanIsMaximal(IsSpace, a);
    if Span(IsSpace, a) == |a| {
      assert AllSpace(a);
      ScanSkipsSpace(a, b);
    } else {
      NextTokenIgnoresSuffix(a, b);
      var r := NextToken(a);
      if r.Lexed? {
        var t, n := r.token, r.len;
        var a' := a[n..];
        assert (a + b)[n..] == a' + b;
        assert a' != [] ==> a'[|a'| - 1] == a[|a| - 1];
        ScanConcat(a', b);
        ScanStep(a);
        ScanStep(a + b);
        AppendAssociates([t], Scan(a').tokens, Scan(b).tokens);
      }
    }
  }

  /** Whitespace between two tokens is insignificant: inserting it or
      removing it gives the same token stream, unless the two sides are digit
      runs that would merge. */
  lemma WhitespaceInsignificant(a: string, ws: string, b: string)
    requires AllSpace(ws) && !Glued(a, b)
    ensures Scan(a + ws + b) == Scan(a + b)
  {
    if ws != [] {
      assert a + ws + b == a + (ws + b);
      ScanConcat(a, ws + b);
      ScanSkipsSpace(ws, b);
      ScanConcat(a, b);
    } else {
      assert a + ws + b == a + b;
    }
  }

  /** Text made only of legal characters lexes without error. */
  lemma {:induction false} ScanOfLegalText(s: string)
    requires forall i :: 0 <= i < |s| ==> IsLegal(s[i])
    ensures Scan(s).stop == None
    decreases |s|
  {
    var r := NextToken(s);
    if r.Lexed? && r.token.kind != Eof {
      var n := r.len;
      assert forall i :: 0 <= i < |s[n..]| ==> s[n..][i] == s[n + i];
      ScanOfLegalText(s[n..]);
    }
  }

  /** Text that starts with an illegal character raises on it at once. */
  lemma ScanOfIllegalStart(t: string)
    requires t != [] && !IsLegal(t[0])
    ensures Scan(t) == Stream([], Some(SyntaxError(InvalidCharacter(t[0]))))
  {
    SpanIs(IsSpace, t, 0);
    assert t[0..] == t;
  }

  /** Lexing stops at the first character that is neither whitespace, a
      digit nor one of `+ - * / ( )`: it raises on that character, after
      exactly the tokens of the text before it, and produces no token for it.
      Text without such a character lexes without error. */
  lemma ScanStopsAtFirstIllegal(s: string)
    ensures var i := Span(IsLegal, s);
      && Scan(s[..i]).stop == None
      && (i == |s| ==> Scan(s).stop == None)
      && (i < |s| ==> Scan(s) == Stream(Scan(s[..i]).tokens, Some(SyntaxError(InvalidCharacter(s[i])))))
  {
    var i := Span(IsLegal, s);
    LegalPrefix(s);
    PrefixAndSuffix(s, i);
    if i < |s| {
      var u, v := s[..i], s[i..];
      SpanIsMaximal(IsLegal, s);
      assert v[0] == s[i];
      ScanConcat(u, v);
      ScanOfIllegalStart(v);
    }
  }

  /** The text before the first illegal character lexes without error. */
  lemma LegalPrefix(s: string)
    ensures Scan(s[..Span(IsLegal, s)]).stop == None
  {
    var u := s[..Span(IsLegal, s)];
    SpanIsMaximal(IsLegal, s);
    assert forall j :: 0 <= j < |u| ==> u[j] == s[j];
    ScanOfLegalText(u);
  }

  /** A character that starts no token makes lexing fail, and only such a
      character does. */
  lemma ScanFailsIffIllegal(s: string)
    ensures Scan(s).stop.Some? <==> exists i :: 0 <= i < |s| && !IsLegal(s[i])
  {
    ScanStopsAtFirstIllegal(s);
    SpanIsMaximal(IsLegal, s);
    var i := Span(IsLegal, s);
    if i < |s| {
      assert !IsLegal(s[i]);
    }
  }

  /** A maximal run of digits is one INTEGER token. */
  lemma LexDigitRun(ds: string, rest: string)
    requires ds != [] && AllDigits(ds)
    requires rest == [] || !IsDigit(rest[0])
    ensures LexToken(ds + rest) == Lexed(IntegerToken(DecimalValue(ds)), |ds|)
  {
    SpanIs(IsDigit, ds, |ds|);
    SpanCarriesOn(IsDigit, ds, rest);
    SpanIs(IsDigit, rest, 0);
    PrefixOfAppend(ds, rest);
  }

  /** A maximal run of digits at the cursor is exactly one INTEGER token
      whose value is the number the digits spell; the cursor then stands on
      the first character after the run. Whitespace in front of the run is
      the business of `NextTokenSkipsSpace`. */
  lemma DigitRunIsOneToken(ds: string, rest: string)
    requires ds != [] && AllDigits(ds)
    requires rest == [] || !IsDigit(rest[0])
    ensures NextToken(ds + rest) == Lexed(IntegerToken(DecimalValue(ds)), |ds|)
  {
    LexDigitRun(ds, rest);
    NextTokenUnspaced(ds + rest);
  }

  /** Text that does not start with whitespace: the next token is the one at
      its front. */
  lemma NextTokenUnspaced(u: string)
    requires u != [] && !IsSpace(u[0])
    ensures NextToken(u) == LexToken(u)
  {
    SpanIs(IsSpace, u, 0);
    assert u[0..] == u;
  }

  /** The text of one token. */
  function Show(t: Token): (s: string)
    requires ValidToken(t) && t.kind != Eof
    ensures s != [] && (IsDigit(s[0]) <==> t.kind == Integer) && (IsDigit(s[|s| - 1]) <==> t.kind == Integer)
  {
    if t.kind == Integer then ToDecimal(t.value.n) else [Symbol(t.kind)]
  }

  /** No two INTEGER tokens stand side by side. */
  ghost predicate Separable(ts: seq<Token>) {
    forall i, j :: 0 <= i < j < |ts| && j == i + 1 ==> ts[i].kind != Integer || ts[j].kind != Integer
  }

  /** Two separable token lists joined where no two numbers meet. */
  lemma SeparableConcat(a: seq<Token>, b: seq<Token>)
    requires Separable(a) && Separable(b)
    requires a == [] || b == [] || a[|a| - 1].kind != Integer || b[0].kind != Integer
    ensures Separable(a + b)
  {
    var c := a + b;
    forall i, j | 0 <= i < j < |c| && j == i + 1 ensures c[i].kind != Integer || c[j].kind != Integer {
      if j < |a| {
        assert c[i] == a[i] && c[j] == a[j];
      } else if i >= |a| {
        assert c[i] == b[i - |a|] && c[j] == b[j - |a|];
      }
    }
  }

  lemma SeparableTail(ts: seq<Token>)
    requires ts != [] && Separable(ts)
    ensures Separable(ts[1..])
    ensures |ts| > 1 ==> ts[0].kind != Integer || ts[1..][0].kind != Integer
  {
    var rest := ts[1..];
    forall i, j | 0 <= i < j < |rest| && j == i + 1 ensures rest[i].kind != Integer || rest[j].kind != Integer {
      assert rest[i] == ts[i + 1] && rest[j] == ts[j + 1];
    }
    if |ts| > 1 {
      assert ts[1..][0] == ts[1];
    }
  }

  /** The tokens written out one after the other, with no whitespace. */
  function Spell(ts: seq<Token>): (s: string)
    requires ValidTokens(ts)
    ensures ts != [] ==> s != [] && s[0] == Show(ts[0])[0]
  {
    if ts == [] then "" else Show(ts[0]) + Spell(ts[1..])
  }

  /** One token's text lexes back to that token. */
  lemma ScanShow(t: Token)
    requires ValidToken(t) && t.kind != Eof
    ensures Scan(Show(t)) == Stream([t], None)
  {
    var s := Show(t);
    SpanIs(IsSpace, s, 0);
    assert s[0..] == s;
    if t.kind == Integer {
      SpanIs(IsDigit, s, |s|);
      assert s[..|s|] == s;
      DecimalRoundTrip(t.value.n);
    }
    assert s[|s|..] == [];
    assert Scan([]) == Stream([], None);
  }

  /** The text of two token lists, one after the other. */
  lemma {:induction false} SpellConcat(a: seq<Token>, b: seq<Token>)
    requires ValidTokens(a) && ValidTokens(b)
    ensures ValidTokens(a + b) && Spell(a + b) == Spell(a) + Spell(b)
  {
    assert forall i :: 0 <= i < |a + b| ==> (a + b)[i] == if i < |a| then a[i] else b[i - |a|];
    if a == [] {
      assert a + b == b;
    } else {
      assert (a + b)[1..] == a[1..] + b;
      SpellConcat(a[1..], b);
    }
  }

  /** Lexing undoes spelling: a sequence of well-formed tokens in which no two
      integers touch, written out, lexes back to exactly those tokens and
      then EOF. */
  lemma {:induction false} SpellRoundTrip(ts: seq<Token>)
    requires ValidTokens(ts) && Separable(ts)
    ensures Scan(Spell(ts)) == Stream(ts, None)
  {
    if ts == [] {
      assert Scan([]) == Stream([], None);
    } else {
      var rest := ts[1..];
      SeparableTail(ts);
      ShowNotGlued(ts);
      ScanConcat(Show(ts[0]), Spell(rest));
      ScanShow(ts[0]);
      SpellRoundTrip(rest);
      HeadAndTail(ts);
    }
  }

  /** The text of the first token does not run into the text of the others. */
  lemma ShowNotGlued(ts: seq<Token>)
    requires ValidTokens(ts) && ts != [] && Separable(ts)
    ensures Spell(ts) == Show(ts[0]) + Spell(ts[1..])
    ensures !Glued(Show(ts[0]), Spell(ts[1..]))
  {
    SeparableTail(ts);
  }
}
