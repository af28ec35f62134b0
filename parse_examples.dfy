/** Source texts from the parser's own examples, taken through `Tokenize` and `ParseProgram`:
    the token list, the program, its error messages and its rendering. */
module ParseExamples {
  import opened Wrappers
  import opened Tokens
  import opened Lexing
  import opened ParserHelper
  import opened ParseSpec
  import opened Ast
  import opened Strings
  import opened ParseProperties

  // ----- `let x x 5;`: a missing `=` -----

  /** The token list of `let x x 5;`, entry by entry. */
  predicate LetWithoutAssignTokens(t: seq<Token>) {
    |t| == 6 && t[0] == Token(LET, "let") && t[1] == Token(IDENT, "x") && t[2] == Token(IDENT, "x")
    && t[3] == Token(INT, "5") && t[4] == Token(SEMICOLON, ";") && t[5] == Token(EOF, "")
  }

  /** `let x x 5;`, built from the suffixes the lexer starts its steps at. */
  const LetText7: string := ";"
  const LetText6: string := "5" + LetText7
  const LetText5: string := " " + LetText6
  const LetText4: string := "x" + LetText5
  const LetText3: string := " " + LetText4
  const LetText2: string := "x" + LetText3
  const LetText1: string := " " + LetText2
  const LetText: string := "let" + LetText1

  lemma LetTextSpelledOut()
    ensures LetText == "let x x 5;"
  {
  }

  lemma LetTextKeyword()
    ensures Tokenize(LetText) == [Token(LET, "let")] + Tokenize(LetText1)
  {
    KeywordKinds();
    WordIsOneToken("let", LetText1);
  }

  lemma LetTextNames()
    ensures Tokenize(LetText1) == Tokenize(LetText2)
    ensures Tokenize(LetText2) == [Token(IDENT, "x")] + Tokenize(LetText3)
    ensures Tokenize(LetText3) == Tokenize(LetText4)
  {
    assert " " == [' '];
    WhitespaceIsSkipped(' ', LetText2);
    WordIsOneToken("x", LetText3);
    WhitespaceIsSkipped(' ', LetText4);
  }

  lemma LetTextRest()
    ensures Tokenize(LetText4) == [Token(IDENT, "x")] + Tokenize(LetText5)
    ensures Tokenize(LetText5) == Tokenize(LetText6)
    ensures Tokenize(LetText6) == [Token(INT, "5"), Token(SEMICOLON, ";"), Token(EOF, "")]
  {
    WordIsOneToken("x", LetText5);
    assert " " == [' '];
    WhitespaceIsSkipped(' ', LetText6);
    NumberIsOneToken("5", LetText7);
    assert LetText7 == [';'] + "";
    PunctuationIsOneToken(';', "");
  }

  /** The lexer turns `let x x 5;` into six tokens, EOF last. */
  lemma LetWithoutAssignLexes()
    ensures LetWithoutAssignTokens(Tokenize(LetText))
  {
    LetTextKeyword();
    LetTextNames();
    LetTextRest();
  }

  /** The statements after the failed `let`: `x` and `5`, each an expression statement. */
  lemma AfterLetParses(t: seq<Token>, e: seq<ParseIssue>)
    requires LetWithoutAssignTokens(t)
    ensures ProgramLoop(t, PState(2, e), []) ==
      ProgramResult([ExpressionStatement(t[2], Identifier(t[2])), ExpressionStatement(t[3], NewIntegerLiteral(t[3]))],
                    PState(5, e))
  {
    var s1 := ExpressionStatement(t[2], Identifier(t[2]));
    var s2 := ExpressionStatement(t[3], NewIntegerLiteral(t[3]));
    assert At(t, 2) == t[2] && At(t, 3) == t[3] && At(t, 4) == t[4] && At(t, 5) == t[5];
    AtomStatementParses(t, PState(2, e));
    ProgramLoopStep(t, PState(2, e), []);
    AtomStatementParses(t, PState(3, e));
    ProgramLoopStep(t, PState(3, e), [s1]);
    assert [] + [s1] + [s2] == [s1, s2];
  }

  /** `let x x 5;` parses to the two statements after the `let`, with exactly one error: the
      `let` is dropped and parsing goes on. */
  lemma LetWithoutAssignParses()
    ensures var r := ParseProgram(Tokenize(LetText));
      r.statements == [ExpressionStatement(Token(IDENT, "x"), Identifier(Token(IDENT, "x"))),
                       ExpressionStatement(Token(INT, "5"), NewIntegerLiteral(Token(INT, "5")))] &&
      r.st.errors == [ExpectedToken(ASSIGN, Token(IDENT, "x"))] &&
      Messages(r.st.errors) == ["expected next token to be \"=\" got \"x\" instead"]
  {
    var t := Tokenize(LetText);
    LetWithoutAssignLexes();
    var e := [ExpectedToken(ASSIGN, t[2])];
    assert ParseProgram(t) == ProgramLoop(t, PState(2, e), []) by {
      assert At(t, 0).kind == LET && At(t, 1).kind == IDENT && At(t, 2) == t[2];
      LetFailureRecovers(t, PState(0, []), []);
      assert [] + e == e;
    }
    AfterLetParses(t, e);
    LetWithoutAssignMessage();
  }

  // ----- Lexing one token after some whitespace -----

  lemma SpacedWord(ws: string, w: string, rest: string)
    requires forall i | 0 <= i < |ws| :: IsWhitespace(ws[i])
    requires |w| > 0 && forall i | 0 <= i < |w| :: IsLetter(w[i])
    requires rest == [] || !IsLetter(rest[0])
    ensures Tokenize(ws + w + rest) == [Token(LookUpToken(w), w)] + Tokenize(rest)
  {
    assert ws + w + rest == ws + (w + rest);
    WhitespaceRunIsSkipped(ws, w + rest);
    WordIsOneToken(w, rest);
  }

  lemma SpacedNumber(ws: string, d: string, rest: string)
    requires forall i | 0 <= i < |ws| :: IsWhitespace(ws[i])
    requires |d| > 0 && forall i | 0 <= i < |d| :: IsDigit(d[i])
    requires rest == [] || !IsDigit(rest[0])
    ensures Tokenize(ws + d + rest) == [Token(INT, d)] + Tokenize(rest)
  {
    assert ws + d + rest == ws + (d + rest);
    WhitespaceRunIsSkipped(ws, d + rest);
    NumberIsOneToken(d, rest);
  }

  lemma SpacedPunctuation(ws: string, p: string, rest: string)
    requires forall i | 0 <= i < |ws| :: IsWhitespace(ws[i])
    requires |p| == 1 && SingleCharKind(p[0]).Some?
    ensures Tokenize(ws + p + rest) == [Token(SingleCharKind(p[0]).value, p)] + Tokenize(rest)
  {
    assert p == [p[0]];
    assert ws + p + rest == ws + ([p[0]] + rest);
    WhitespaceRunIsSkipped(ws, p + rest);
    PunctuationIsOneToken(p[0], rest);
  }

  /** Trailing whitespace leaves only the end-of-input token. */
  lemma TrailingSpace(ws: string)
    requires forall i | 0 <= i < |ws| :: IsWhitespace(ws[i])
    ensures Tokenize(ws) == [Token(EOF, "")]
  {
    assert ws == ws + "";
    WhitespaceRunIsSkipped(ws, "");
  }

  // ----- `1 + (2 + 3) + 4;`: a parenthesised group inside a left-leaning sum -----

  /** The input of the grouped-expression example, a line between two line breaks that are each followed by two
      spaces. Each constant is the whitespace before one token, that token, and the rest. */
  const GroupedEnd: string := "\n  "
  const Grouped9: string := ";" + GroupedEnd
  const Grouped8: string := " " + "4" + Grouped9
  const Grouped7: string := " " + "+" + Grouped8
  const Grouped6: string := ")" + Grouped7
  const Grouped5: string := " " + "3" + Grouped6
  const Grouped4: string := " " + "+" + Grouped5
  const Grouped3: string := "2" + Grouped4
  const Grouped2: string := " " + "(" + Grouped3
  const Grouped1: string := " " + "+" + Grouped2
  const GroupedText: string := "\n  " + "1" + Grouped1

  lemma GroupedSpelledOut0()
    ensures GroupedText == "\n  1 + (2" + Grouped4
  {
  }

  lemma GroupedSpelledOut4()
    ensures Grouped4 == " + 3)" + Grouped7
  {
  }

  lemma GroupedSpelledOut7()
    ensures Grouped7 == " + 4;\n  "
  {
  }

  /** The constants spell the text of the grouped-expression example. */
  lemma GroupedTextSpelledOut()
    ensures GroupedText == "\n  1 + (2 + 3) + 4;\n  "
  {
    GroupedSpelledOut0();
    GroupedSpelledOut4();
    GroupedSpelledOut7();
  }

  predicate GroupedTokens(t: seq<Token>) {
    && |t| == 11
    && t[0] == Token(INT, "1") && t[1] == Token(PLUS, "+") && t[2] == Token(LPAREN, "(")
    && t[3] == Token(INT, "2") && t[4] == Token(PLUS, "+") && t[5] == Token(INT, "3")
    && t[6] == Token(RPAREN, ")") && t[7] == Token(PLUS, "+") && t[8] == Token(INT, "4")
    && t[9] == Token(SEMICOLON, ";") && t[10] == Token(EOF, "")
  }

  lemma GroupedLexes0()
    ensures Tokenize(GroupedText) == [Token(INT, "1"), Token(PLUS, "+")] + Tokenize(Grouped2)
  {
    assert Tokenize(GroupedText) == [Token(INT, "1")] + Tokenize(Grouped1) by {
      SpacedNumber("\n  ", "1", Grouped1);
    }
    assert Tokenize(Grouped1) == [Token(PLUS, "+")] + Tokenize(Grouped2) by {
      SpacedPunctuation(" ", "+", Grouped2);
    }
  }

  lemma GroupedLexes2()
    ensures Tokenize(Grouped2) == [Token(LPAREN, "("), Token(INT, "2")] + Tokenize(Grouped4)
  {
    assert Tokenize(Grouped2) == [Token(LPAREN, "(")] + Tokenize(Grouped3) by {
      SpacedPunctuation(" ", "(", Grouped3);
    }
    assert Tokenize(Grouped3) == [Token(INT, "2")] + Tokenize(Grouped4) by {
      assert Grouped3 == "" + "2" + Grouped4;
      SpacedNumber("", "2", Grouped4);
    }
  }

  lemma GroupedLexes4()
    ensures Tokenize(Grouped4) == [Token(PLUS, "+"), Token(INT, "3")] + Tokenize(Grouped6)
  {
    assert Tokenize(Grouped4) == [Token(PLUS, "+")] + Tokenize(Grouped5) by {
      SpacedPunctuation(" ", "+", Grouped5);
    }
    assert Tokenize(Grouped5) == [Token(INT, "3")] + Tokenize(Grouped6) by {
      SpacedNumber(" ", "3", Grouped6);
    }
  }

  lemma GroupedLexes6()
    ensures Tokenize(Grouped6) == [Token(RPAREN, ")"), Token(PLUS, "+")] + Tokenize(Grouped8)
  {
    assert Tokenize(Grouped6) == [Token(RPAREN, ")")] + Tokenize(Grouped7) by {
      assert Grouped6 == "" + ")" + Grouped7;
      SpacedPunctuation("", ")", Grouped7);
    }
    assert Tokenize(Grouped7) == [Token(PLUS, "+")] + Tokenize(Grouped8) by {
      SpacedPunctuation(" ", "+", Grouped8);
    }
  }

  lemma GroupedLexes8()
    ensures Tokenize(Grouped8) == [Token(INT, "4"), Token(SEMICOLON, ";"), Token(EOF, "")]
  {
    assert Tokenize(Grouped8) == [Token(INT, "4")] + Tokenize(Grouped9) by {
      SpacedNumber(" ", "4", Grouped9);
    }
    assert Tokenize(Grouped9) == [Token(SEMICOLON, ";")] + Tokenize(GroupedEnd) by {
      assert Grouped9 == "" + ";" + GroupedEnd;
      SpacedPunctuation("", ";", GroupedEnd);
    }
    TrailingSpace(GroupedEnd);
  }

  lemma GroupedLexesFrom0()
    ensures Tokenize(GroupedText) == [Token(INT, "1"), Token(PLUS, "+"), Token(LPAREN, "("), Token(INT, "2"), Token(PLUS, "+"), Token(INT, "3")] + Tokenize(Grouped6)
  {
    GroupedLexes0();
    GroupedLexes2();
    GroupedLexes4();
  }

  lemma GroupedLexesFrom6()
    ensures Tokenize(Grouped6) == [Token(RPAREN, ")"), Token(PLUS, "+"), Token(INT, "4"), Token(SEMICOLON, ";"), Token(EOF, "")]
  {
    GroupedLexes6();
    GroupedLexes8();
  }

  /** The lexer turns the grouped-expression example into 11 tokens, EOF last. */
  lemma GroupedLexes()
    ensures GroupedTokens(Tokenize(GroupedText))
  {
    GroupedLexesFrom0();
    GroupedLexesFrom6();
  }

  /** The tree `1 + (2 + 3) + 4` parses to: the group is the right operand of the first `+`,
      and that sum is the left operand of the second. */
  function GroupedTree(t: seq<Token>): Expression
    requires GroupedTokens(t)
  {
    Infix(t[7], Infix(t[1], NewIntegerLiteral(t[0]),
                      Infix(t[4], NewIntegerLiteral(t[3]), NewIntegerLiteral(t[5]))),
          NewIntegerLiteral(t[8]))
  }

  /** Inside the parentheses: `2 + 3`, up to the `)`. */
  lemma GroupedInnerSumParses(t: seq<Token>)
    requires GroupedTokens(t)
    ensures ParseExpression(t, PState(3, []), LOWEST)
         == ExprResult(Infix(t[4], NewIntegerLiteral(t[3]), NewIntegerLiteral(t[5])), PState(5, []))
  {
    var two := NewIntegerLiteral(t[3]);
    assert At(t, 3) == t[3];
    assert ParseExpression(t, PState(3, []), LOWEST) == PrattLoop(t, two, PState(3, []), LOWEST);
    LastBinary(t, two, PState(3, []));
  }

  /** `(2 + 3)`: the sum, then the `)`. */
  lemma GroupParses(t: seq<Token>)
    requires GroupedTokens(t)
    ensures ParseGroupedExpression(t, PState(2, []))
         == ExprResult(Infix(t[4], NewIntegerLiteral(t[3]), NewIntegerLiteral(t[5])), PState(6, []))
  {
    assert At(t, 6) == t[6];
    GroupedInnerSumParses(t);
  }

  /** The parenthesised operand, parsed at the level of the `+` before it, ends at its `)`. */
  lemma GroupedOperandParses(t: seq<Token>)
    requires GroupedTokens(t)
    ensures ParseExpression(t, PState(2, []), SUM)
         == ExprResult(Infix(t[4], NewIntegerLiteral(t[3]), NewIntegerLiteral(t[5])), PState(6, []))
  {
    var g := Infix(t[4], NewIntegerLiteral(t[3]), NewIntegerLiteral(t[5]));
    assert At(t, 2) == t[2] && At(t, 7) == t[7];
    GroupParses(t);
    PrefixRuleCases(t, PState(2, []));
    PrattLoopStopsExactly(t, g, PState(6, []), SUM);
  }

  /** An operand followed by a binary operator whose right side is known: the loop goes on with
      the operator's node. */
  lemma AtomThenOperator(t: seq<Token>, st: PState, right: ExprResult)
    requires IsAtom(At(t, st.cur)) && IsBinary(At(t, st.cur + 1).kind)
    requires ParseExpression(t, PState(st.cur + 2, st.errors), Precedence(At(t, st.cur + 1).kind)) == right
    ensures ParseExpression(t, st, LOWEST)
         == PrattLoop(t, Infix(At(t, st.cur + 1), AtomNode(At(t, st.cur)), right.e), right.st, LOWEST)
  {
    var a := AtomNode(At(t, st.cur));
    assert ParseExpression(t, st, LOWEST) == PrattLoop(t, a, st, LOWEST);
    FoldInfix(t, a, st, LOWEST);
  }

  /** The first `+` takes the group as its right operand. */
  lemma GroupedFirstSumParses(t: seq<Token>)
    requires GroupedTokens(t)
    ensures ParseExpression(t, PState(0, []), LOWEST)
         == PrattLoop(t, Infix(t[1], NewIntegerLiteral(t[0]), Infix(t[4], NewIntegerLiteral(t[3]), NewIntegerLiteral(t[5]))),
                      PState(6, []), LOWEST)
  {
    assert At(t, 0) == t[0] && At(t, 1) == t[1];
    GroupedOperandParses(t);
    AtomThenOperator(t, PState(0, []), ParseExpression(t, PState(2, []), SUM));
  }

  lemma GroupedExpressionParses(t: seq<Token>)
    requires GroupedTokens(t)
    ensures ParseExpression(t, PState(0, []), LOWEST) == ExprResult(GroupedTree(t), PState(8, []))
  {
    var g := Infix(t[4], NewIntegerLiteral(t[3]), NewIntegerLiteral(t[5]));
    GroupedFirstSumParses(t);
    LastBinary(t, Infix(t[1], NewIntegerLiteral(t[0]), g), PState(6, []));
  }

  /** The program is one expression statement, ending at the `;`. */
  lemma GroupedParses(t: seq<Token>)
    requires GroupedTokens(t)
    ensures ParseProgram(t) == ProgramResult([ExpressionStatement(t[0], GroupedTree(t))], PState(10, []))
  {
    GroupedExpressionParses(t);
    assert At(t, 0) == t[0];
    OneExpressionProgram(t, GroupedTree(t), PState(8, []));
  }

  /** A one-digit literal renders as its digit. */
  lemma DigitRenders(d: string)
    requires |d| == 1 && IsDigitChar(d[0])
    ensures Render(NewIntegerLiteral(Token(INT, d))) == d
  {
    assert d[..0] == [];
    assert DecimalValue(d) == DigitValue(d[0]);
    assert DigitChar(DigitValue(d[0])) == d[0];
    assert NatToString(DigitValue(d[0])) == [d[0]] == d;
  }

  /** `a op b` for rendered operands: the operator between them, inside parentheses. */
  lemma InfixRenders(op: Token, left: Expression, right: Expression, l: string, r: string)
    requires Render(left) == l && Render(right) == r
    ensures Render(Infix(op, left, right)) == "(" + l + " " + op.literal + " " + r + ")"
  {
  }

  /** The texts the grouped tree renders to, level by level. */
  lemma GroupedTexts()
    ensures "(" + "2" + " " + "+" + " " + "3" + ")" == "(2 + 3)"
    ensures "(" + "1" + " " + "+" + " " + "(2 + 3)" + ")" == "(1 + (2 + 3))"
    ensures "(" + "(1 + (2 + 3))" + " " + "+" + " " + "4" + ")" == "((1 + (2 + 3)) + 4)"
  {
  }

  lemma GroupedInnerRenders(t: seq<Token>, one: Expression, two: Expression, three: Expression)
    requires GroupedTokens(t)
    requires Render(one) == "1" && Render(two) == "2" && Render(three) == "3"
    ensures Render(Infix(t[1], one, Infix(t[4], two, three))) == "(1 + (2 + 3))"
  {
    GroupedTexts();
    InfixRenders(t[4], two, three, "2", "3");
    InfixRenders(t[1], one, Infix(t[4], two, three), "1", "(2 + 3)");
  }

  lemma GroupedShapeRenders(t: seq<Token>, one: Expression, two: Expression, three: Expression, four: Expression)
    requires GroupedTokens(t)
    requires Render(one) == "1" && Render(two) == "2" && Render(three) == "3" && Render(four) == "4"
    ensures Render(Infix(t[7], Infix(t[1], one, Infix(t[4], two, three)), four)) == "((1 + (2 + 3)) + 4)"
  {
    GroupedTexts();
    GroupedInnerRenders(t, one, two, three);
    InfixRenders(t[7], Infix(t[1], one, Infix(t[4], two, three)), four, "(1 + (2 + 3))", "4");
  }

  lemma GroupedTreeRenders(t: seq<Token>)
    requires GroupedTokens(t)
    ensures Render(GroupedTree(t)) == "((1 + (2 + 3)) + 4)"
  {
    DigitRenders("1");
    DigitRenders("2");
    DigitRenders("3");
    DigitRenders("4");
    GroupedShapeRenders(t, NewIntegerLiteral(t[0]), NewIntegerLiteral(t[3]), NewIntegerLiteral(t[5]), NewIntegerLiteral(t[8]));
  }

  /** `getString` of the program parsed from `1 + (2 + 3) + 4;` is `((1 + (2 + 3)) + 4)`, and
      parsing records no error. */
  lemma GroupedRendersAsTested()
    ensures var r := ParseProgram(Tokenize(GroupedText));
      r.st.errors == [] && Join(RenderStatements(r.statements), "\n") == "((1 + (2 + 3)) + 4)"
  {
    var t := Tokenize(GroupedText);
    GroupedLexes();
    GroupedParses(t);
    GroupedTreeRenders(t);
    assert RenderStatements([ExpressionStatement(t[0], GroupedTree(t))]) == [Render(GroupedTree(t))];
  }

  /** The names the examples use are not keywords. */
  lemma ExampleNames()
    ensures LookUpToken("x") == IDENT && LookUpToken("y") == IDENT
  {
  }

  /** The keywords the examples use. */
  lemma ExampleKeywords()
    ensures LookUpToken("if") == IF && LookUpToken("else") == ELSE && LookUpToken("fn") == FUNCTION
  {
    KeywordKinds();
  }

  /** A prefix rule whose result is known, followed by `;` or a token that binds at LOWEST: the
      whole expression. */
  lemma PrefixRuleThenStop(t: seq<Token>, st: PState, r: ExprResult)
    requires HasPrefixRule(At(t, st.cur).kind) && ParsePrefixRule(t, st) == r
    requires At(t, r.st.cur + 1).kind == SEMICOLON || Precedence(At(t, r.st.cur + 1).kind) == LOWEST
    ensures ParseExpression(t, st, LOWEST) == r
  {
    PrattLoopStopsExactly(t, r.e, r.st, LOWEST);
  }

  /** A statement that starts with neither `let` nor `return` is the expression there, with an
      optional `;` after it. */
  lemma ExpressionStatementParses(t: seq<Token>, st: PState, e: Expression, st': PState)
    requires At(t, st.cur).kind != LET && At(t, st.cur).kind != RETURN
    requires ParseExpression(t, st, LOWEST) == ExprResult(e, st')
    ensures ParseStatement(t, st) == StmtResult(Some(ExpressionStatement(At(t, st.cur), e)), SkipSemicolon(t, st'))
  {
    assert ParseStatement(t, st) == ParseExpressionStatement(t, st);
  }

  /** A program whose first statement is followed by the end of input holds that statement only. */
  lemma ProgramOfOneStatement(t: seq<Token>, s: Statement, st': PState)
    requires At(t, 0).kind != EOF
    requires ParseStatement(t, PState(0, [])) == StmtResult(Some(s), st')
    requires At(t, st'.cur + 1).kind == EOF
    ensures ParseProgram(t) == ProgramResult([s], Next(st'))
  {
    ProgramLoopLastStatement(t, PState(0, []), [], s, st');
    assert [] + [s] == [s];
  }

  /** The `while` loop of `parse` on a statement that is followed by the end of input. */
  lemma ProgramLoopLastStatement(t: seq<Token>, st: PState, acc: seq<Statement>, s: Statement, st': PState)
    requires At(t, st.cur).kind != EOF
    requires ParseStatement(t, st) == StmtResult(Some(s), st')
    requires At(t, st'.cur + 1).kind == EOF
    ensures ProgramLoop(t, st, acc) == ProgramResult(acc + [s], Next(st'))
  {
    ProgramLoopStep(t, st, acc);
    var st2, acc2 := Next(st'), acc + [s];
    assert ProgramLoop(t, st, acc) == ProgramLoop(t, st2, acc2);
    assert At(t, st2.cur).kind == EOF;
  }

  /** A program of one expression statement: the expression is parsed from the first token, an
      optional `;` follows, and then the input ends. */
  lemma OneExpressionProgram(t: seq<Token>, e: Expression, st: PState)
    requires At(t, 0).kind !in {EOF, LET, RETURN}
    requires ParseExpression(t, PState(0, []), LOWEST) == ExprResult(e, st)
    requires At(t, SkipSemicolon(t, st).cur + 1).kind == EOF
    ensures ParseProgram(t) == ProgramResult([ExpressionStatement(At(t, 0), e)], Next(SkipSemicolon(t, st)))
  {
    ExpressionStatementParses(t, PState(0, []), e, st);
    ProgramOfOneStatement(t, ExpressionStatement(At(t, 0), e), SkipSemicolon(t, st));
  }

  // ----- Blocks of one statement -----

  /** A name or an integer followed by a token that binds at LOWEST is a statement by itself,
      ending at it or at the `;` after it. */
  lemma AtomStatementParses(t: seq<Token>, st: PState)
    requires IsAtom(At(t, st.cur)) && Precedence(At(t, st.cur + 1).kind) == LOWEST
    ensures ParseStatement(t, st)
         == StmtResult(Some(ExpressionStatement(At(t, st.cur), AtomNode(At(t, st.cur)))), SkipSemicolon(t, st))
  {
    assert ParseExpression(t, st, LOWEST) == ExprResult(AtomNode(At(t, st.cur)), st) by {
      AtomStops(t, st, LOWEST);
    }
  }

  /** A name just before `}` is a statement by itself that ends on the name. */
  lemma NameStatementParses(t: seq<Token>, st: PState)
    requires At(t, st.cur).kind == IDENT && At(t, st.cur + 1).kind == RBRACE
    ensures ParseStatement(t, st) == StmtResult(Some(ExpressionStatement(At(t, st.cur), Identifier(At(t, st.cur)))), st)
  {
    AtomStatementParses(t, st);
  }

  /** A block whose next statement is followed by its `}` holds that one statement more. */
  lemma BlockLoopLastStatement(t: seq<Token>, st: PState, b: Block, s: Statement, st': PState)
    requires At(t, st.cur).kind != RBRACE && At(t, st.cur).kind != EOF
    requires ParseStatement(t, st) == StmtResult(Some(s), st')
    requires At(t, st'.cur + 1).kind == RBRACE
    ensures BlockLoop(t, st, b) == BlockResult(b.Add(s), Next(st'))
  {
    BlockLoopStep(t, st, b);
    var st2, b2 := Next(st'), b.Add(s);
    assert BlockLoop(t, st, b) == BlockLoop(t, st2, b2);
    assert At(t, st2.cur).kind == RBRACE;
  }

  /** A name just before `}` inside a block is added to it as one statement, and the block ends there. */
  lemma NameStatementInBlock(t: seq<Token>, st: PState, b: Block)
    requires At(t, st.cur).kind == IDENT && At(t, st.cur + 1).kind == RBRACE
    ensures BlockLoop(t, st, b)
         == BlockResult(b.Add(ExpressionStatement(At(t, st.cur), Identifier(At(t, st.cur)))), Next(st))
  {
    NameStatementParses(t, st);
    BlockLoopLastStatement(t, st, b, ExpressionStatement(At(t, st.cur), Identifier(At(t, st.cur))), st);
  }

  /** `{ a }` with `a` a name: a block of one expression statement, ending at the `}`. */
  lemma OneStatementBlockParses(t: seq<Token>, i: nat, e: seq<ParseIssue>)
    requires i + 2 < |t| && t[i].kind == LBRACE && t[i + 1].kind == IDENT && t[i + 2].kind == RBRACE
    ensures ParseBlockStatement(t, PState(i, e))
         == BlockResult(Block(t[i], [ExpressionStatement(t[i + 1], Identifier(t[i + 1]))]), PState(i + 2, e))
  {
    var s := ExpressionStatement(t[i + 1], Identifier(t[i + 1]));
    var st := PState(i + 1, e);
    assert At(t, i) == t[i] && At(t, i + 1) == t[i + 1] && At(t, i + 2) == t[i + 2];
    NameStatementInBlock(t, st, NewBlock(t[i]));
    assert NewBlock(t[i]).Add(s) == Block(t[i], [s]);
  }

  // ----- `if (x > y) { x } else { y };` -----

  /** The input of the `if` example, a line between two line breaks that are each followed by two
      spaces. Each constant is the whitespace before one token, that token, and the rest. */
  const IfEnd: string := "\n  "
  const If13: string := ";" + IfEnd
  const If12: string := " " + "}" + If13
  const If11: string := " " + "y" + If12
  const If10: string := " " + "{" + If11
  const If9: string := " " + "else" + If10
  const If8: string := " " + "}" + If9
  const If7: string := " " + "x" + If8
  const If6: string := " " + "{" + If7
  const If5: string := ")" + If6
  const If4: string := " " + "y" + If5
  const If3: string := " " + ">" + If4
  const If2: string := "x" + If3
  const If1: string := " " + "(" + If2
  const IfText: string := "\n  " + "if" + If1

  lemma IfSpelledOut0()
    ensures IfText == "\n  if (x > y" + If5
  {
  }

  lemma IfSpelledOut5()
    ensures If5 == ") { x } else" + If10
  {
  }

  lemma IfSpelledOut10()
    ensures If10 == " { y };\n  "
  {
  }

  /** The constants spell the text of the `if` example. */
  lemma IfTextSpelledOut()
    ensures IfText == "\n  if (x > y) { x } else { y };\n  "
  {
    IfSpelledOut0();
    IfSpelledOut5();
    IfSpelledOut10();
  }

  predicate IfTokens(t: seq<Token>) {
    && |t| == 15
    && t[0] == Token(IF, "if") && t[1] == Token(LPAREN, "(") && t[2] == Token(IDENT, "x")
    && t[3] == Token(GT, ">") && t[4] == Token(IDENT, "y") && t[5] == Token(RPAREN, ")")
    && t[6] == Token(LBRACE, "{") && t[7] == Token(IDENT, "x") && t[8] == Token(RBRACE, "}")
    && t[9] == Token(ELSE, "else") && t[10] == Token(LBRACE, "{") && t[11] == Token(IDENT, "y")
    && t[12] == Token(RBRACE, "}") && t[13] == Token(SEMICOLON, ";") && t[14] == Token(EOF, "")
  }

  lemma IfLexes0()
    ensures Tokenize(IfText) == [Token(IF, "if")] + Tokenize(If1)
  {
    ExampleKeywords();
    assert Tokenize(IfText) == [Token(IF, "if")] + Tokenize(If1) by {
      SpacedWord("\n  ", "if", If1);
    }
  }

  lemma IfLexes1()
    ensures Tokenize(If1) == [Token(LPAREN, "(")] + Tokenize(If2)
  {
    assert Tokenize(If1) == [Token(LPAREN, "(")] + Tokenize(If2) by {
      SpacedPunctuation(" ", "(", If2);
    }
  }

  lemma IfLexes2()
    ensures Tokenize(If2) == [Token(IDENT, "x")] + Tokenize(If3)
  {
    ExampleNames();
    assert Tokenize(If2) == [Token(IDENT, "x")] + Tokenize(If3) by {
      assert If2 == "" + "x" + If3;
      SpacedWord("", "x", If3);
    }
  }

  lemma IfLexes3()
    ensures Tokenize(If3) == [Token(GT, ">")] + Tokenize(If4)
  {
    assert Tokenize(If3) == [Token(GT, ">")] + Tokenize(If4) by {
      SpacedPunctuation(" ", ">", If4);
    }
  }

  lemma IfLexes4()
    ensures Tokenize(If4) == [Token(IDENT, "y")] + Tokenize(If5)
  {
    ExampleNames();
    assert Tokenize(If4) == [Token(IDENT, "y")] + Tokenize(If5) by {
      SpacedWord(" ", "y", If5);
    }
  }

  lemma IfLexes5()
    ensures Tokenize(If5) == [Token(RPAREN, ")")] + Tokenize(If6)
  {
    assert Tokenize(If5) == [Token(RPAREN, ")")] + Tokenize(If6) by {
      assert If5 == "" + ")" + If6;
      SpacedPunctuation("", ")", If6);
    }
  }

  lemma IfLexes6()
    ensures Tokenize(If6) == [Token(LBRACE, "{")] + Tokenize(If7)
  {
    assert Tokenize(If6) == [Token(LBRACE, "{")] + Tokenize(If7) by {
      SpacedPunctuation(" ", "{", If7);
    }
  }

  lemma IfLexes7()
    ensures Tokenize(If7) == [Token(IDENT, "x")] + Tokenize(If8)
  {
    ExampleNames();
    assert Tokenize(If7) == [Token(IDENT, "x")] + Tokenize(If8) by {
      SpacedWord(" ", "x", If8);
    }
  }

  lemma IfLexes8()
    ensures Tokenize(If8) == [Token(RBRACE, "}")] + Tokenize(If9)
  {
    assert Tokenize(If8) == [Token(RBRACE, "}")] + Tokenize(If9) by {
      SpacedPunctuation(" ", "}", If9);
    }
  }

  lemma IfLexes9()
    ensures Tokenize(If9) == [Token(ELSE, "else")] + Tokenize(If10)
  {
    ExampleKeywords();
    assert Tokenize(If9) == [Token(ELSE, "else")] + Tokenize(If10) by {
      SpacedWord(" ", "else", If10);
    }
  }

  lemma IfLexes10()
    ensures Tokenize(If10) == [Token(LBRACE, "{")] + Tokenize(If11)
  {
    assert Tokenize(If10) == [Token(LBRACE, "{")] + Tokenize(If11) by {
      SpacedPunctuation(" ", "{", If11);
    }
  }

  lemma IfLexes11()
    ensures Tokenize(If11) == [Token(IDENT, "y")] + Tokenize(If12)
  {
    ExampleNames();
    assert Tokenize(If11) == [Token(IDENT, "y")] + Tokenize(If12) by {
      SpacedWord(" ", "y", If12);
    }
  }

  lemma IfLexes12()
    ensures Tokenize(If12) == [Token(RBRACE, "}")] + Tokenize(If13)
  {
    assert Tokenize(If12) == [Token(RBRACE, "}")] + Tokenize(If13) by {
      SpacedPunctuation(" ", "}", If13);
    }
  }

  lemma IfLexes13()
    ensures Tokenize(If13) == [Token(SEMICOLON, ";"), Token(EOF, "")]
  {
    assert Tokenize(If13) == [Token(SEMICOLON, ";")] + Tokenize(IfEnd) by {
      assert If13 == "" + ";" + IfEnd;
      SpacedPunctuation("", ";", IfEnd);
    }
    TrailingSpace(IfEnd);
  }

  lemma IfLexesFrom0()
    ensures Tokenize(IfText) == [Token(IF, "if"), Token(LPAREN, "("), Token(IDENT, "x"), Token(GT, ">")] + Tokenize(If4)
  {
    IfLexes0();
    IfLexes1();
    IfLexes2();
    IfLexes3();
  }

  lemma IfLexesFrom4()
    ensures Tokenize(If4) == [Token(IDENT, "y"), Token(RPAREN, ")"), Token(LBRACE, "{"), Token(IDENT, "x")] + Tokenize(If8)
  {
    IfLexes4();
    IfLexes5();
    IfLexes6();
    IfLexes7();
  }

  lemma IfLexesFrom8()
    ensures Tokenize(If8) == [Token(RBRACE, "}"), Token(ELSE, "else"), Token(LBRACE, "{")] + Tokenize(If11)
  {
    IfLexes8();
    IfLexes9();
    IfLexes10();
  }

  lemma IfLexesFrom11()
    ensures Tokenize(If11) == [Token(IDENT, "y"), Token(RBRACE, "}"), Token(SEMICOLON, ";"), Token(EOF, "")]
  {
    IfLexes11();
    IfLexes12();
    IfLexes13();
  }

  /** The lexer turns the `if` example into 15 tokens, EOF last. */
  lemma IfLexes()
    ensures IfTokens(Tokenize(IfText))
  {
    IfLexesFrom0();
    IfLexesFrom4();
    IfLexesFrom8();
    IfLexesFrom11();
  }

  /** The `if` expression the example parses to: condition `x > y`, one-statement blocks. */
  function IfTree(t: seq<Token>): Expression
    requires IfTokens(t)
  {
    If(t[0], Infix(t[3], Identifier(t[2]), Identifier(t[4])),
       Block(t[6], [ExpressionStatement(t[7], Identifier(t[7]))]),
       Some(Block(t[10], [ExpressionStatement(t[11], Identifier(t[11]))])))
  }

  /** From the `{` of the consequence on: two one-statement blocks joined by `else`. */
  lemma IfBlocksParse(t: seq<Token>)
    requires IfTokens(t)
    ensures IfBlocks(t, t[0], IfTree(t).condition, PState(6, [])) == ExprResult(IfTree(t), PState(12, []))
  {
    var cons := Block(t[6], [ExpressionStatement(t[7], Identifier(t[7]))]);
    assert At(t, 6) == t[6] && At(t, 9) == t[9] && At(t, 10) == t[10];
    OneStatementBlockParses(t, 6, []);
    OneStatementBlockParses(t, 10, []);
    assert ElseBlock(t, t[0], IfTree(t).condition, cons, PState(8, [])) == ExprResult(IfTree(t), PState(12, []));
  }

  lemma IfConditionParses(t: seq<Token>)
    requires IfTokens(t)
    ensures IfCondition(t, t[0], PState(1, [])) == ExprResult(IfTree(t), PState(12, []))
  {
    var x := Identifier(t[2]);
    var cond := Infix(t[3], x, Identifier(t[4]));
    assert At(t, 2) == t[2] && At(t, 5) == t[5] && At(t, 6) == t[6];
    assert ParseExpression(t, PState(2, []), LOWEST) == ExprResult(cond, PState(4, [])) by {
      assert ParseExpression(t, PState(2, []), LOWEST) == PrattLoop(t, x, PState(2, []), LOWEST);
      LastBinary(t, x, PState(2, []));
    }
    IfBlocksParse(t);
  }

  /** `if (`: the rest is the condition and the blocks. */
  lemma IfStart(t: seq<Token>, st: PState, r: ExprResult)
    requires At(t, st.cur).kind == IF && At(t, st.cur + 1).kind == LPAREN
    requires IfCondition(t, At(t, st.cur), Next(st)) == r
    ensures ParseIfExpression(t, st) == r
  {
  }

  lemma IfExpressionParses(t: seq<Token>)
    requires IfTokens(t)
    ensures ParseExpression(t, PState(0, []), LOWEST) == ExprResult(IfTree(t), PState(12, []))
  {
    var r := ExprResult(IfTree(t), PState(12, []));
    assert At(t, 0) == t[0] && At(t, 1) == t[1] && At(t, 13) == t[13];
    IfConditionParses(t);
    IfStart(t, PState(0, []), r);
    PrefixRuleCases(t, PState(0, []));
    PrefixRuleThenStop(t, PState(0, []), r);
  }

  /** The program is one expression statement holding the `if`, ending at the `;`. */
  lemma IfParses(t: seq<Token>)
    requires IfTokens(t)
    ensures ParseProgram(t) == ProgramResult([ExpressionStatement(t[0], IfTree(t))], PState(14, []))
  {
    IfExpressionParses(t);
    assert At(t, 0) == t[0];
    OneExpressionProgram(t, IfTree(t), PState(12, []));
  }


  lemma IfTreeRenders(t: seq<Token>)
    requires IfTokens(t)
    ensures Render(IfTree(t)) == "if (x > y) x else y"
  {
    var x, y := Identifier(t[2]), Identifier(t[4]);
    InfixRenders(t[3], x, y, "x", "y");
  }

  /** `getString` of the program parsed from `if (x > y) { x } else { y };` is
      `if (x > y) x else y`, and parsing records no error. */
  lemma IfRendersAsTested()
    ensures var r := ParseProgram(Tokenize(IfText));
      r.st.errors == [] && Join(RenderStatements(r.statements), "\n") == "if (x > y) x else y"
  {
    var t := Tokenize(IfText);
    IfLexes();
    IfParses(t);
    IfTreeRenders(t);
    assert RenderStatements([ExpressionStatement(t[0], IfTree(t))]) == [Render(IfTree(t))];
  }

  // ----- `fn(x, y) { x + y; }` -----

  /** The input of the function-literal example, a line between two line breaks that are each followed by two
      spaces. Each constant is the whitespace before one token, that token, and the rest. */
  const FnEnd: string := "\n  "
  const Fn11: string := " " + "}" + FnEnd
  const Fn10: string := ";" + Fn11
  const Fn9: string := " " + "y" + Fn10
  const Fn8: string := " " + "+" + Fn9
  const Fn7: string := " " + "x" + Fn8
  const Fn6: string := " " + "{" + Fn7
  const Fn5: string := ")" + Fn6
  const Fn4: string := " " + "y" + Fn5
  const Fn3: string := "," + Fn4
  const Fn2: string := "x" + Fn3
  const Fn1: string := "(" + Fn2
  const FnText: string := "\n  " + "fn" + Fn1

  lemma FnSpelledOut0()
    ensures FnText == "\n  fn(x, y)" + Fn6
  {
  }

  lemma FnSpelledOut6()
    ensures Fn6 == " { x + y; }\n  "
  {
  }

  /** The constants spell the text of the function-literal example. */
  lemma FnTextSpelledOut()
    ensures FnText == "\n  fn(x, y) { x + y; }\n  "
  {
    FnSpelledOut0();
    FnSpelledOut6();
  }

  predicate FnTokens(t: seq<Token>) {
    && |t| == 13
    && t[0] == Token(FUNCTION, "fn") && t[1] == Token(LPAREN, "(") && t[2] == Token(IDENT, "x")
    && t[3] == Token(COMMA, ",") && t[4] == Token(IDENT, "y") && t[5] == Token(RPAREN, ")")
    && t[6] == Token(LBRACE, "{") && t[7] == Token(IDENT, "x") && t[8] == Token(PLUS, "+")
    && t[9] == Token(IDENT, "y") && t[10] == Token(SEMICOLON, ";") && t[11] == Token(RBRACE, "}")
    && t[12] == Token(EOF, "")
  }

  lemma FnLexes0()
    ensures Tokenize(FnText) == [Token(FUNCTION, "fn")] + Tokenize(Fn1)
  {
    ExampleKeywords();
    assert Tokenize(FnText) == [Token(FUNCTION, "fn")] + Tokenize(Fn1) by {
      SpacedWord("\n  ", "fn", Fn1);
    }
  }

  lemma FnLexes1()
    ensures Tokenize(Fn1) == [Token(LPAREN, "(")] + Tokenize(Fn2)
  {
    assert Tokenize(Fn1) == [Token(LPAREN, "(")] + Tokenize(Fn2) by {
      assert Fn1 == "" + "(" + Fn2;
      SpacedPunctuation("", "(", Fn2);
    }
  }

  lemma FnLexes2()
    ensures Tokenize(Fn2) == [Token(IDENT, "x")] + Tokenize(Fn3)
  {
    ExampleNames();
    assert Tokenize(Fn2) == [Token(IDENT, "x")] + Tokenize(Fn3) by {
      assert Fn2 == "" + "x" + Fn3;
      SpacedWord("", "x", Fn3);
    }
  }

  lemma FnLexes3()
    ensures Tokenize(Fn3) == [Token(COMMA, ",")] + Tokenize(Fn4)
  {
    assert Tokenize(Fn3) == [Token(COMMA, ",")] + Tokenize(Fn4) by {
      assert Fn3 == "" + "," + Fn4;
      SpacedPunctuation("", ",", Fn4);
    }
  }

  lemma FnLexes4()
    ensures Tokenize(Fn4) == [Token(IDENT, "y")] + Tokenize(Fn5)
  {
    ExampleNames();
    assert Tokenize(Fn4) == [Token(IDENT, "y")] + Tokenize(Fn5) by {
      SpacedWord(" ", "y", Fn5);
    }
  }

  lemma FnLexes5()
    ensures Tokenize(Fn5) == [Token(RPAREN, ")")] + Tokenize(Fn6)
  {
    assert Tokenize(Fn5) == [Token(RPAREN, ")")] + Tokenize(Fn6) by {
      assert Fn5 == "" + ")" + Fn6;
      SpacedPunctuation("", ")", Fn6);
    }
  }

  lemma FnLexes6()
    ensures Tokenize(Fn6) == [Token(LBRACE, "{")] + Tokenize(Fn7)
  {
    assert Tokenize(Fn6) == [Token(LBRACE, "{")] + Tokenize(Fn7) by {
      SpacedPunctuation(" ", "{", Fn7);
    }
  }

  lemma FnLexes7()
    ensures Tokenize(Fn7) == [Token(IDENT, "x")] + Tokenize(Fn8)
  {
    ExampleNames();
    assert Tokenize(Fn7) == [Token(IDENT, "x")] + Tokenize(Fn8) by {
      SpacedWord(" ", "x", Fn8);
    }
  }

  lemma FnLexes8()
    ensures Tokenize(Fn8) == [Token(PLUS, "+")] + Tokenize(Fn9)
  {
    assert Tokenize(Fn8) == [Token(PLUS, "+")] + Tokenize(Fn9) by {
      SpacedPunctuation(" ", "+", Fn9);
    }
  }

  lemma FnLexes9()
    ensures Tokenize(Fn9) == [Token(IDENT, "y")] + Tokenize(Fn10)
  {
    ExampleNames();
    assert Tokenize(Fn9) == [Token(IDENT, "y")] + Tokenize(Fn10) by {
      SpacedWord(" ", "y", Fn10);
    }
  }

  lemma FnLexes10()
    ensures Tokenize(Fn10) == [Token(SEMICOLON, ";")] + Tokenize(Fn11)
  {
    assert Tokenize(Fn10) == [Token(SEMICOLON, ";")] + Tokenize(Fn11) by {
      assert Fn10 == "" + ";" + Fn11;
      SpacedPunctuation("", ";", Fn11);
    }
  }

  lemma FnLexes11()
    ensures Tokenize(Fn11) == [Token(RBRACE, "}"), Token(EOF, "")]
  {
    assert Tokenize(Fn11) == [Token(RBRACE, "}")] + Tokenize(FnEnd) by {
      SpacedPunctuation(" ", "}", FnEnd);
    }
    TrailingSpace(FnEnd);
  }

  lemma FnLexesFrom0()
    ensures Tokenize(FnText) == [Token(FUNCTION, "fn"), Token(LPAREN, "("), Token(IDENT, "x"), Token(COMMA, ",")] + Tokenize(Fn4)
  {
    FnLexes0();
    FnLexes1();
    FnLexes2();
    FnLexes3();
  }

  lemma FnLexesFrom4()
    ensures Tokenize(Fn4) == [Token(IDENT, "y"), Token(RPAREN, ")"), Token(LBRACE, "{"), Token(IDENT, "x")] + Tokenize(Fn8)
  {
    FnLexes4();
    FnLexes5();
    FnLexes6();
    FnLexes7();
  }

  lemma FnLexesFrom8()
    ensures Tokenize(Fn8) == [Token(PLUS, "+"), Token(IDENT, "y"), Token(SEMICOLON, ";"), Token(RBRACE, "}"), Token(EOF, "")]
  {
    FnLexes8();
    FnLexes9();
    FnLexes10();
    FnLexes11();
  }

  /** The lexer turns the function-literal example into 13 tokens, EOF last. */
  lemma FnLexes()
    ensures FnTokens(Tokenize(FnText))
  {
    FnLexesFrom0();
    FnLexesFrom4();
    FnLexesFrom8();
  }

  /** The function literal the example parses to: parameters `x` and `y`, and a body of one
      statement, `x + y`. */
  function FnTree(t: seq<Token>): Expression
    requires FnTokens(t)
  {
    FunctionLiteral(t[0], Some([t[2], t[4]]),
                    Block(t[6], [ExpressionStatement(t[7], Infix(t[8], Identifier(t[7]), Identifier(t[9])))]))
  }

  lemma FnParametersParse(t: seq<Token>)
    requires FnTokens(t)
    ensures ParseFunctionParameters(t, PState(1, [])) == ParamsResult(Some([t[2], t[4]]), PState(5, []))
  {
    assert At(t, 2) == t[2] && At(t, 3) == t[3] && At(t, 4) == t[4] && At(t, 5) == t[5];
    assert ParamsLoop(t, PState(4, []), [t[2], t[4]]) == ParamsResult(Some([t[2], t[4]]), PState(5, []));
    assert ParamsLoop(t, PState(2, []), [t[2]]) == ParamsLoop(t, PState(4, []), [t[2]] + [t[4]]);
    assert [t[2]] + [t[4]] == [t[2], t[4]];
  }

  lemma FnBodyParses(t: seq<Token>)
    requires FnTokens(t)
    ensures ParseBlockStatement(t, PState(6, [])) == BlockResult(FnTree(t).body, PState(11, []))
  {
    var x := Identifier(t[7]);
    var s := ExpressionStatement(t[7], Infix(t[8], x, Identifier(t[9])));
    assert At(t, 6) == t[6] && At(t, 7) == t[7] && At(t, 10) == t[10] && At(t, 11) == t[11];
    assert ParseExpression(t, PState(7, []), LOWEST) == ExprResult(s.expression, PState(9, [])) by {
      assert ParseExpression(t, PState(7, []), LOWEST) == PrattLoop(t, x, PState(7, []), LOWEST);
      LastBinary(t, x, PState(7, []));
    }
    assert ParseStatement(t, PState(7, [])) == StmtResult(Some(s), PState(10, []));
    BlockLoopStep(t, PState(7, []), NewBlock(t[6]));
    assert NewBlock(t[6]).Add(s) == Block(t[6], [s]);
  }

  lemma FnLiteralParses(t: seq<Token>)
    requires FnTokens(t)
    ensures ParseFunction(t, PState(0, [])) == ExprResult(FnTree(t), PState(11, []))
  {
    assert At(t, 0) == t[0] && At(t, 1) == t[1] && At(t, 6) == t[6];
    FnParametersParse(t);
    FnBodyParses(t);
  }

  lemma FnExpressionParses(t: seq<Token>)
    requires FnTokens(t)
    ensures ParseExpression(t, PState(0, []), LOWEST) == ExprResult(FnTree(t), PState(11, []))
  {
    assert At(t, 0) == t[0] && At(t, 12) == t[12];
    FnLiteralParses(t);
    PrefixRuleCases(t, PState(0, []));
    PrefixRuleThenStop(t, PState(0, []), ExprResult(FnTree(t), PState(11, [])));
  }

  /** The program is one expression statement holding the function literal. */
  lemma FnParses(t: seq<Token>)
    requires FnTokens(t)
    ensures ParseProgram(t) == ProgramResult([ExpressionStatement(t[0], FnTree(t))], PState(12, []))
  {
    FnExpressionParses(t);
    assert At(t, 0) == t[0];
    OneExpressionProgram(t, FnTree(t), PState(11, []));
  }


  lemma FnBodyRenders(t: seq<Token>)
    requires FnTokens(t)
    ensures RenderBlock(FnTree(t).body) == "(x + y)"
  {
    var s := ExpressionStatement(t[7], Infix(t[8], Identifier(t[7]), Identifier(t[9])));
    InfixRenders(t[8], Identifier(t[7]), Identifier(t[9]), "x", "y");
  }

  lemma FnParametersRender(t: seq<Token>)
    requires FnTokens(t)
    ensures Join(ParameterNames(FnTree(t).parameters), ", ") == "x, y"
  {
    assert ParameterNames(Some([t[2], t[4]])) == ["x"] + ["y"];
    JoinCons("x", ["y"], ", ");
  }

  lemma FnTreeRenders(t: seq<Token>)
    requires FnTokens(t)
    ensures Render(FnTree(t)) == "fn(x, y) {(x + y)}"
  {
    FnBodyRenders(t);
    FnParametersRender(t);
  }

  /** `getString` of the program parsed from `fn(x, y) { x + y; }` is `fn(x, y) {(x + y)}`, and
      parsing records no error. */
  lemma FnRendersAsTested()
    ensures var r := ParseProgram(Tokenize(FnText));
      r.st.errors == [] && Join(RenderStatements(r.statements), "\n") == "fn(x, y) {(x + y)}"
  {
    var t := Tokenize(FnText);
    FnLexes();
    FnParses(t);
    FnTreeRenders(t);
    assert RenderStatements([ExpressionStatement(t[0], FnTree(t))]) == [Render(FnTree(t))];
  }
}
