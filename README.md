# Arithmetic expression interpreter, modelled in Dafny

`task2_interpreter.py` evaluates one line of arithmetic with integers,
`+ - * /`, parentheses and unary `+`/`-`. Three objects do the work in turn:

- a `Lexer`, a cursor over the text that hands out one token per call;
- a recursive-descent `Parser` with one token of lookahead. It builds an
  abstract syntax tree of `Num`, `UnaryOp` and `BinOp` nodes for the grammar

      expr   : term ((PLUS | MINUS) term)*
      term   : factor ((MUL | DIV) factor)*
      factor : (PLUS | MINUS) factor | INTEGER | LPAREN expr RPAREN

- an `Interpreter` that visits the tree.

Python's integers have no fixed width, `/` is true division and always
gives a `float` (an IEEE-754 double), and a zero divisor raises
`ZeroDivisionError`. The lexer, `eat`,
`factor` and `parse` raise `SyntaxError`.

The model follows the same three stages.

- **Tokens** (`tokens.dfy`) defines:
  - the eight token kinds, and tokens with their values (an integer, the
    operator's one-character text, or nothing for EOF);
  - the two exceptions, `SyntaxError` with its reason and `ZeroDivisionError`,
    and `Result`, which holds a value or the exception raised in its place;
  - a `Stream`: the tokens a lexer yields before its first lexical error,
    followed by either EOF or that error.
- **The lexer** is specified as pure functions in `lexer_spec.dfy`:
  - `NextToken` computes one call of `get_next_token`;
  - `Scan` computes the whole stream a fresh lexer yields.
- **`class Lexer`** (`lexer.dfy`) keeps the source's fields `text`, `pos` and
  `current_char`. Its methods loop and advance the cursor in place, and
  `GetNextToken` is proved to agree with `NextToken`.
- **The grammar** is specified as pure functions over a stream
  (`grammar.dfy`). `Factor`, `Term`, `Expr` and `Parse` return the tree and
  the stream left after it, or the exception. `TermTail` and `ExprTail` are
  the `while` loops of `term` and `expr`.
- **`class Parser`** (`parser.dfy`) keeps `lexer` and `current_token`. It
  asks the lexer for a token only when `eat` needs one, so a lexical error
  surfaces exactly when the parser reaches it: "1 2 @" reports the trailing
  `2`, not the `@`. Each method is proved to agree with the grammar function
  of the same name on the tokens not yet consumed.
- **Evaluation** (`evaluation.dfy`): `Eval` is the tree walk of `visit_Num`,
  `visit_UnaryOp` and `visit_BinOp`. A Python number is `IntNum` or
  `FloatNum`, and floats are exact reals: evaluation is modelled in exact
  arithmetic.
- **Interpreters** (`interpreter.dfy`):
  - `Calculate` is what a whole line evaluates to;
  - `class Interpreter` and its `Interpret` method model `interpret`;
  - `Evaluate` builds the lexer, the parser and the interpreter on a text,
    as each line of the read-eval loop does.
- **Properties**:
  - `grammar_lemmas.dfy`, `sentences.dfy` and `parse_shape.dfy` state what
    the parser accepts and builds: `GrammarProperties.SumOfProducts` shows
    that the text of every expression parses to its tree, and
    `Sentences.ParseOnlySentences` that nothing else is accepted;
  - `scenarios.dfy` works through concrete lines such as `2+3*4`, `10-2-3`,
    `(2+3)*4`, `2*(3+4)`, `7/2`, `1/0`, `--5`, `(((2)))`, `1 2`, `1+`,
    `(1+2` and `1 @`.

The general theorems are stated over an expression's syntax: `Sum`,
`Product` and `FactorSyntax` in `grammar_lemmas.dfy` are the three rules of
the grammar, and `SumTokens` writes one out as tokens. Each scenario takes
its line as a parameter pinned by a `requires text == "..."` clause, and
reaches it by small steps: a lemma spells the tokens of a short piece, the
shape lemmas (`OneFactor`, `TwoFactors`, `Grouped`, `Joined`, ...) put the
pieces together, and a general theorem (`CalculateExpression` or
`CalculateEmitted`) gives the value. Working on named pieces keeps the
verifier from unfolding the whole line at once. For the same reason the
lexer's proofs call one-line lemmas about sequences
(`AppendAssociates`, `PrefixOfAppend`, `SuffixOfAppend` and their
neighbours in `lexer_spec.dfy`): each states one fact about slicing or
joining that a larger proof needs at one step.

In four places the model follows the program as written:

- an illegal character raises the same `SyntaxError` as the parser, and
  carries the character but no position (task2_interpreter.py:92);
- `visit_BinOp` evaluates the right operand of `/` before the left one
  (task2_interpreter.py:228-232), while the other operators go left to
  right. `DivisionOrderUnobservable` proves that, in exact arithmetic, no
  input can tell the two orders apart (with doubles an overflow can tell
  them apart; see "Left out");
- operator tokens carry their text as their value, although `Token.value`
  is annotated as an optional integer (task2_interpreter.py:30, 74);
- lexing is lazy. The whole input is not tokenised first, so a syntax error
  before an illegal character is the error reported
  (`Scenarios.TrailingBeforeIllegal`).

## Model

| member | source | states |
|---|---|---|
| Lexers.Lexer.constructor | task2_interpreter.py:38-41 | a new lexer stands at position 0 of its text, with `current_char` the first character or none |
| Lexers.Lexer.Advance | task2_interpreter.py:43-46 | the cursor moves exactly one character on and `current_char` follows it (or becomes none at the end) |
| Lexers.Lexer.SkipWhitespace | task2_interpreter.py:48-51 | the cursor moves past exactly the maximal run of whitespace in front of it and stops on the first non-space or at the end |
| Lexers.Lexer.Integer | task2_interpreter.py:53-59 | the cursor moves past exactly the maximal run of digits, and the result is the decimal value those digits spell |
| Lexers.Lexer.GetNextToken | task2_interpreter.py:61-94 | `pos` never decreases and stays within the text; a non-EOF token advances it; at the end of the text EOF is returned and `pos` stays put; the token, the error and the new position are the ones `NextToken` specifies |
| LexerSpec.NextToken | task2_interpreter.py:61-94 | EOF exactly when only whitespace is left, consuming all of it; any other token lies past the leading whitespace; an error names the first non-space character, which starts no token |
| LexerSpec.LexToken | task2_interpreter.py:68-92 | a token is lexed exactly when the first character is a digit or one of `+ - * / ( )`; an operator character is one token of its own kind, one character long; a digit is the start of one INTEGER token that takes the whole maximal run of digits and has the value they spell; any other character is the error, naming it |
| Tokens.CharKind | task2_interpreter.py:72-89 | each of the six operator characters has its own token kind, whose text is that character |
| LexerSpec.DecimalValue | task2_interpreter.py:53-59 | the number a run of k digits spells is less than 10^k |
| LexerSpec.DecimalRoundTrip | task2_interpreter.py:59 | writing a natural number in decimal and reading the digits back gives the number |
| LexerSpec.LeadingZero | task2_interpreter.py:59 | a leading zero does not change the value a digit run spells ("007" is 7) |
| LexerSpec.DigitRunIsOneToken | task2_interpreter.py:70-71 | a maximal run of digits at the cursor is one INTEGER token whose value is the number the digits spell, and the cursor moves past exactly those digits |
| LexerSpec.NextTokenSkipsSpace | task2_interpreter.py:63-66 | whitespace in front of the text yields the same next token, with the whitespace consumed too |
| LexerSpec.ScanSkipsSpace | task2_interpreter.py:48-51 | leading whitespace does not change the token stream |
| LexerSpec.WhitespaceInsignificant | task2_interpreter.py:63-66 | inserting or removing whitespace between two pieces of text leaves the token stream unchanged, unless it separates two digits |
| LexerSpec.ScanConcat | task2_interpreter.py:61-94 | the stream of two texts joined is the first text's stream followed by the second's, unless a digit run spans the join or the first text hits an illegal character |
| LexerSpec.ScanStopsAtFirstIllegal | task2_interpreter.py:91-92 | lexing yields the tokens before the first illegal character and then raises on that character, with no token for it |
| LexerSpec.ScanFailsIffIllegal | task2_interpreter.py:91-92 | lexing a text fails if and only if the text contains a character that is not whitespace, a digit or one of `+ - * / ( )` |
| LexerSpec.ScanOfIllegalStart | task2_interpreter.py:91-92 | a text starting with an illegal character raises on it before any token |
| LexerSpec.SpellRoundTrip | task2_interpreter.py:61-94 | writing a list of tokens out with no spaces, no two numbers adjacent, lexes back to exactly that list followed by EOF |
| Grammar.Eat | task2_interpreter.py:127-134 | it moves on exactly when the current token has the expected kind, and the rest is the stream after that token; otherwise it is a SyntaxError naming the expected and found kinds, or the lexical error met fetching the next token |
| Grammar.Factor | task2_interpreter.py:136-161 | a parsed factor consumes at least one token and leaves a stream with the same ending; every failure is a SyntaxError or the stream's lexical error |
| Grammar.Term | task2_interpreter.py:163-177 | a parsed term consumes at least one token and leaves a stream with the same ending; every failure is a SyntaxError or the stream's lexical error |
| Grammar.TermTail | task2_interpreter.py:169-175 | the loop of `term` stops only at a token that is neither `*` nor `/`; it never consumes past the stream's end and fails only with a SyntaxError or the lexical error |
| Grammar.Expr | task2_interpreter.py:179-193 | a parsed expression consumes at least one token and leaves a stream with the same ending; every failure is a SyntaxError or the stream's lexical error |
| Grammar.ExprTail | task2_interpreter.py:185-191 | the loop of `expr` stops only at a token that is neither `+` nor `-`, with the same error guarantee |
| Grammar.Parse | task2_interpreter.py:195-200 | a successful parse has consumed every token up to EOF; a failure is a SyntaxError or a lexical error |
| Parsers.Parser.Create | task2_interpreter.py:123-125 | building the parser reads the first token; it succeeds exactly when lexing does not raise on the first token, and the parser then holds the whole stream of the text |
| Parsers.Parser.Eat | task2_interpreter.py:127-134 | the imperative `eat` does what `Grammar.Eat` specifies on the tokens not yet consumed: the same move or the same exception |
| Parsers.Parser.Factor | task2_interpreter.py:136-161 | the method returns the tree `Grammar.Factor` specifies, leaves the same tokens unconsumed, or raises the same exception |
| Parsers.Parser.Term | task2_interpreter.py:163-177 | the method with its `while` loop agrees with `Grammar.Term` |
| Parsers.Parser.Expr | task2_interpreter.py:179-193 | the method with its `while` loop agrees with `Grammar.Expr` |
| Parsers.Parser.Parse | task2_interpreter.py:195-200 | the method agrees with `Grammar.Parse` |
| GrammarProperties.FactorRoundTrip | task2_interpreter.py:136-161 | `factor` reads back exactly the tree a fully parenthesised writing spells, whatever follows it |
| GrammarProperties.ParseRoundTrip | task2_interpreter.py:195-200 | `parse` of the written-out tree followed by EOF gives back that tree |
| GrammarProperties.ParenthesesTransparent | task2_interpreter.py:155-159 | any number of parentheses around a tree's tokens parse to the same tree, with no node for the parentheses |
| GrammarProperties.FactorOfParens | task2_interpreter.py:155-159 | `(`, then tokens `expr` reads up to a `)`, then that `)`, is a factor whose tree is the expression's, with no node for the parentheses |
| GrammarProperties.FactorOfSyntax | task2_interpreter.py:136-161 | `factor` reads the tokens of any factor (a number, a signed factor or a parenthesised expression) back to that factor's tree, whatever follows |
| GrammarProperties.ParseRejectsTrailing | task2_interpreter.py:197-199 | any complete expression, parentheses included, followed by a number or a parenthesis and then anything at all, a lexical error included, is a SyntaxError for trailing input |
| GrammarProperties.TermTailChain | task2_interpreter.py:169-175 | the loop of `term` folds a run of `*` and `/` operations to the left, whatever factors they join: `a*b/c` is `(a*b)/c` |
| GrammarProperties.TermOfProduct | task2_interpreter.py:163-177 | `term` reads a whole product of factors, parenthesised ones included, and folds it to the left |
| GrammarProperties.ExprTailChain | task2_interpreter.py:185-191 | the loop of `expr` folds a run of `+` and `-` operations to the left, each right operand a whole product |
| GrammarProperties.SumOfProducts | task2_interpreter.py:7-10 | precedence and left associativity: every expression parses as a sum of products, products folded first, all folds to the left, and each parenthesised part is one factor |
| Sentences.FactorSound | task2_interpreter.py:136-161 | whatever `factor` consumes is the text of a factor (a sign and a factor, a number, or a parenthesised expression), and the tree it builds is that factor's tree |
| Sentences.TermTailSound | task2_interpreter.py:168-175 | whatever the loop of `term` consumes extends the product read so far by `*`/`/` links, and the tree it builds is that longer product's tree |
| Sentences.TermSound | task2_interpreter.py:163-177 | whatever `term` consumes is the text of a product, and the tree it builds is that product's tree |
| Sentences.ExprTailSound | task2_interpreter.py:185-192 | whatever the loop of `expr` consumes extends the expression read so far by `+`/`-` summands, and the tree it builds is that longer expression's tree |
| Sentences.ExprSound | task2_interpreter.py:179-193 | whatever `expr` consumes is the text of an expression, and the tree it builds is that expression's tree |
| Sentences.ParseOnlySentences | task2_interpreter.py:195-200 | every token list `parse` accepts is the text of an expression of the grammar, and the tree is that expression's tree (so `()` and `1+*2` are rejected) |
| Sentences.ParseAcceptsExactlySentences | task2_interpreter.py:7-10 | `parse` accepts a token list if and only if it is the text of an expression of the grammar |
| Sentences.UnclosedGroup | task2_interpreter.py:155-159 | `(` and any complete expression, then the end of the text, is a SyntaxError from `eat` expecting `)` and finding EOF |
| ParseShape.FactorConsumes | task2_interpreter.py:136-161 | every factor read is nonempty, has as many `(` as `)` and ends with a number or `)` |
| ParseShape.ExprConsumes | task2_interpreter.py:179-193 | every expression read is nonempty, has as many `(` as `)` and ends with a number or `)` |
| ParseShape.AcceptedShape | task2_interpreter.py:195-200 | input that `parse` accepts lexed without error, is not empty, ends with a number or `)`, has as many `(` as `)`, and no prefix of it closes more parentheses than it has opened |
| ParseShape.PrematureEndRejected | task2_interpreter.py:155-161 | input ending with an operator or `(` (e.g. "1+") is rejected |
| ParseShape.UnbalancedRejected | task2_interpreter.py:155-159 | input with more `(` than `)`, more `)` than `(`, or a `)` that closes nothing (e.g. "(1+2", ")1(") is rejected |
| ParseShape.EmptyRejected | task2_interpreter.py:161 | empty input is a SyntaxError in `factor` |
| Evaluation.Negate | task2_interpreter.py:219 | unary minus keeps int as int and float as float and negates the value |
| Evaluation.Arith | task2_interpreter.py:222-227 | `+`, `-` and `*` give an int exactly when both operands are ints, and the value is the exact sum, difference or product |
| Evaluation.Quotient | task2_interpreter.py:232 | `/` by a nonzero divisor always gives a float, and in exact arithmetic that float times the divisor is the dividend |
| Evaluation.Eval | task2_interpreter.py:214-233 | in exact arithmetic, the only exception evaluation raises is ZeroDivisionError, and a result is an int exactly when the tree has no division |
| Evaluation.EvalIsExact | task2_interpreter.py:221-232 | any value evaluation yields is the tree's value in exact arithmetic |
| Evaluation.EvalFailsIffDividesByZero | task2_interpreter.py:228-231 | in exact arithmetic, evaluation raises if and only if some division in the tree has a divisor whose value is zero |
| Evaluation.DivisionOrderUnobservable | task2_interpreter.py:228-232 | in exact arithmetic, evaluating the divisor first gives the same value or exception as evaluating left to right |
| Evaluation.SignRun | task2_interpreter.py:217-219 | a run of unary signs keeps the value for an even number of `-` and negates it for an odd number |
| Interpreters.Interpretation | task2_interpreter.py:235-237 | `interpret` on a token stream has a value only when the stream lexed without error and holds at least one token; `Interpreter.Interpret` is proved to compute it |
| Interpreters.Interpreter.constructor | task2_interpreter.py:211-212 | the interpreter keeps the parser it is given |
| Interpreters.Interpreter.Interpret | task2_interpreter.py:235-237 | `interpret` gives the value of the tree `parse` builds from the remaining tokens, or the first exception raised |
| Interpreters.Evaluate | task2_interpreter.py:253-256 | building a lexer, a parser and an interpreter on a line and interpreting gives what `Calculate` specifies for that line |
| Interpreters.CalculateEmitted | task2_interpreter.py:195-237 | interpreting the text of any fully parenthesised tree gives that tree's value |
| Interpreters.Calculate | task2_interpreter.py:253-256 | a line has a value only when all of it lexes without error and it holds at least one token |
| Interpreters.CalculateExpression | task2_interpreter.py:163-193 | interpreting the text of any expression, parentheses included, gives the value of its sum of products, with precedence and left associativity |
| Interpreters.CalculateParenthesised | task2_interpreter.py:155-159 | wrapping any tree's text in any number of parentheses does not change its value |
| Interpreters.CalculateIgnoresWhitespace | task2_interpreter.py:63-66 | adding or removing whitespace between two pieces of a line, unless it separates digits, does not change its value or its exception |
| Interpreters.CalculatePrematureEnd | task2_interpreter.py:155-161 | a line whose tokens end with an operator or `(` raises SyntaxError |
| Interpreters.CalculateUnbalanced | task2_interpreter.py:155-159 | a line with more `(` than `)`, more `)` than `(`, or a `)` that closes nothing raises SyntaxError |
| Scenarios.Precedence | task2_interpreter.py:163-193 | "2+3*4" is the int 14 |
| Scenarios.Grouping | task2_interpreter.py:155-159 | "(2+3)*4" is the int 20 |
| Scenarios.GroupInProduct | task2_interpreter.py:155-177 | "2*(3+4)" is the int 14 |
| Scenarios.LeftAssociative | task2_interpreter.py:179-193 | "10-2-3" is the int 5 |
| Scenarios.TrueDivision | task2_interpreter.py:228-232 | "7/2" is the float 3.5 |
| Scenarios.DivisionByZero | task2_interpreter.py:228-231 | "1/0" raises ZeroDivisionError |
| Scenarios.DoubleNegation | task2_interpreter.py:145-147 | "--5" is 5 |
| Scenarios.MixedSigns | task2_interpreter.py:217-219 | "+-5" is -5 |
| Scenarios.NegatedGroup | task2_interpreter.py:217-219 | "-(3+4)" is -7 |
| Scenarios.NestedParentheses | task2_interpreter.py:155-159 | "(((2)))" is 2 |
| Scenarios.Addition | task2_interpreter.py:179-193 | "1+2" is the int 3 |
| Scenarios.SpacedSum | task2_interpreter.py:48-51 | " 1 +   2 " gives what "1+2" gives, the int 3 |
| Scenarios.TrailingNumber | task2_interpreter.py:197-199 | "1 2" raises SyntaxError for trailing input |
| Scenarios.TrailingBeforeIllegal | task2_interpreter.py:197-199 | "1 2 @" raises SyntaxError for trailing input, not for the `@`, which the parser never fetches |
| Scenarios.MissingOperand | task2_interpreter.py:161 | "1+" raises the SyntaxError of `factor` for a token that starts no factor (here EOF) |
| Scenarios.MissingParenthesis | task2_interpreter.py:127-132 | "(1+2" raises the SyntaxError of `eat`, expecting `)` and finding EOF |
| Scenarios.EmptyInput | task2_interpreter.py:161 | "" raises SyntaxError in `factor` |
| Scenarios.IllegalCharacter | task2_interpreter.py:91-92 | "1 @" raises SyntaxError naming `@` when the parser asks for the token after 1 |
| Scenarios.IllegalFirstCharacter | task2_interpreter.py:125 | "@" raises SyntaxError naming `@` while the parser is being built |

## Left out

- The read-eval loop (task2_interpreter.py:240-261) is left out: it reads
  lines, skips blank ones, prints results and turns exceptions into
  messages, and all of that is console I/O. Its four-step evaluation of one
  line is `Interpreters.Evaluate`.
- `NodeVisitor.visit` finds handlers by name with `getattr`
  (task2_interpreter.py:206), and `visit_BinOp` has a
  `RuntimeError("Unknown operator")` branch (:233). Here the tree is a
  datatype and `Eval` matches on it exhaustively, so neither exists; the
  `RuntimeError` is unreachable for trees the parser builds.
- Floating-point rounding is left out: a `float` is an exact `real`, so
  `Quotient` and the float cases of `Arith` and `Negate` give exact values
  rather than IEEE-754 doubles. Rounding can also turn an exact zero into a
  nonzero double: in `5/(1/10+2/10-3/10)` the program's divisor is about
  `5.55e-17`, so it prints about `9.007e16`, where the model finds the
  divisor zero and raises `ZeroDivisionError`. This is where the "if"
  direction of `EvalFailsIffDividesByZero` fails for doubles.
- Evaluation.Eval, Evaluation.Quotient, Evaluation.Arith: the range of a
  double is not modelled. In Python `/` on an int too large for a double
  (e.g. `1` followed by 400 zeros, then `/1`) raises `OverflowError`, a
  float result can be `inf`, `nan` or `-0.0`, and these make the order in
  which `visit_BinOp` evaluates the operands of `/` observable:
  `(1<400 zeros>+1/1)/0` raises `ZeroDivisionError`, because the divisor
  is checked before the left operand is evaluated, where left-to-right
  evaluation would raise `OverflowError`. A division can also underflow: in
  `7/(1/1<400 zeros>)` the divisor rounds to `0.0`, so the program raises
  `ZeroDivisionError` where the exact divisor is not zero. Here every
  float is an exact real, so none of this arises;
  `EvalFailsIffDividesByZero` and `DivisionOrderUnobservable` hold in
  exact arithmetic only.
- Lexers.Lexer.Integer, LexerSpec.DecimalValue: a digit run of any length
  is read as its value. CPython 3.11 and later limit `int()` on a string of
  more than 4300 digits by default and raise `ValueError` there; that limit
  is interpreter configuration and is not modelled.
- Unicode is left out: `str.isdigit` and `str.isspace` are restricted to
  ASCII (digits `0-9`; whitespace: codes 9-13, 28-31 and 32).
- Exception message texts and `Token.__repr__` are left out. A SyntaxError
  carries its reason as a datatype instead.
- Python's recursion-depth limit on deeply nested input is left out.
- Lexers.Lexer.Advance and Lexers.Lexer.Integer require a current
  character (a digit, for `Integer`). The source never calls them
  otherwise, so the `None` cases of `advance` past the end are not modelled.
- Parsers.Parser.Create replaces `Parser.__init__`, which may raise on the
  first token. Dafny constructors cannot fail, so `Create` returns a
  `Result`.
- `Num`, `UnaryOp` and `BinOp` nodes keep the sign or operator, not the
  whole token they were built from, since the token's value plays no part in
  evaluation.
- Lexers.Lexer.GetNextToken: the six `if` branches for the operator
  characters are one branch that picks the kind with `Tokens.CharKind`; the
  tokens produced are the same.
- LexerSpec.Scan: its own contract says only that the stream is well
  formed. What it computes is stated by the lexer lemmas in the table.
