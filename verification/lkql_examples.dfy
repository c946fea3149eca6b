/**
 * Worked inputs for the LKQL lexer: the token streams and errors that the
 * selection policy and the rule table of `lkql/language/lexer.py` produce.
 */
module LkqlExamples {
  import opened Wrappers
  import opened LexerEngine
  import opened LkqlLexer

  /** The lexemes of `let x = 1` from the second blank on. */
  lemma LetBindingTail(s: string)
    requires s == "let x = 1"
    ensures DispatchScan(s, 5) == Ok([Lexeme(Ignore, " ", 5), Lexeme(Emit(Eq), "=", 6), Lexeme(Ignore, " ", 7), Lexeme(Emit(Integer), "1", 8)])
  {
    var l3, l4, l5, l6 := Lexeme(Ignore, " ", 5), Lexeme(Emit(Eq), "=", 6), Lexeme(Ignore, " ", 7), Lexeme(Emit(Integer), "1", 8);
    DispatchDigitsAt(s, 8, 1);
    DispatchScanCons(s, 8, l6.action, l6.text, []);
    assert [l6] + [] == [l6];
    DispatchScanCons(s, 7, l5.action, l5.text, [l6]);
    assert [l5] + [l6] == [l5, l6];
    DispatchScanCons(s, 6, l4.action, l4.text, [l5, l6]);
    assert [l4] + [l5, l6] == [l4, l5, l6];
    DispatchScanCons(s, 5, l3.action, l3.text, [l4, l5, l6]);
    assert [l3] + [l4, l5, l6] == [l3, l4, l5, l6];
  }

  /** The lexemes of `let x = 1` from the first blank on. */
  lemma LetBindingMiddle(s: string)
    requires s == "let x = 1"
    ensures DispatchScan(s, 3) == Ok([Lexeme(Ignore, " ", 3), Lexeme(Emit(Identifier), "x", 4),
      Lexeme(Ignore, " ", 5), Lexeme(Emit(Eq), "=", 6), Lexeme(Ignore, " ", 7), Lexeme(Emit(Integer), "1", 8)])
  {
    var l1, l2, l3, l4, l5, l6 :=
      Lexeme(Ignore, " ", 3), Lexeme(Emit(Identifier), "x", 4), Lexeme(Ignore, " ", 5),
      Lexeme(Emit(Eq), "=", 6), Lexeme(Ignore, " ", 7), Lexeme(Emit(Integer), "1", 8);
    LetBindingTail(s);
    DispatchWordAt(s, 4, 1);
    DispatchScanCons(s, 4, l2.action, l2.text, [l3, l4, l5, l6]);
    assert [l2] + [l3, l4, l5, l6] == [l2, l3, l4, l5, l6];
    DispatchScanCons(s, 3, l1.action, l1.text, [l2, l3, l4, l5, l6]);
    assert [l1] + [l2, l3, l4, l5, l6] == [l1, l2, l3, l4, l5, l6];
  }

  /** The lexemes of `let x = 1`, blanks included. */
  lemma LetBindingLexemes(s: string)
    requires s == "let x = 1"
    ensures DispatchScan(s, 0) == Ok([Lexeme(Emit(Let), "let", 0), Lexeme(Ignore, " ", 3), Lexeme(Emit(Identifier), "x", 4),
      Lexeme(Ignore, " ", 5), Lexeme(Emit(Eq), "=", 6), Lexeme(Ignore, " ", 7), Lexeme(Emit(Integer), "1", 8)])
  {
    var l0, l1, l2, l3, l4, l5, l6 :=
      Lexeme(Emit(Let), "let", 0), Lexeme(Ignore, " ", 3), Lexeme(Emit(Identifier), "x", 4), Lexeme(Ignore, " ", 5),
      Lexeme(Emit(Eq), "=", 6), Lexeme(Ignore, " ", 7), Lexeme(Emit(Integer), "1", 8);
    LetBindingMiddle(s);
    DispatchWordAt(s, 0, 3);
    DispatchScanCons(s, 0, l0.action, l0.text, [l1, l2, l3, l4, l5, l6]);
    assert [l0] + [l1, l2, l3, l4, l5, l6] == [l0, l1, l2, l3, l4, l5, l6];
  }

  /** `let x = 1`: the keyword `let`, the identifier `x`, `=` and the integer `1`; the blanks make no token. */
  lemma LetBinding(s: string)
    requires s == "let x = 1"
    ensures Tokenize(s) == Ok([Token(Let, "let", 0), Token(Identifier, "x", 4), Token(Eq, "=", 6), Token(Integer, "1", 8)])
  {
    var ls := [Lexeme(Emit(Let), "let", 0), Lexeme(Ignore, " ", 3), Lexeme(Emit(Identifier), "x", 4),
      Lexeme(Ignore, " ", 5), Lexeme(Emit(Eq), "=", 6), Lexeme(Ignore, " ", 7), Lexeme(Emit(Integer), "1", 8)];
    assert Emitted(ls) == [Token(Let, "let", 0), Token(Identifier, "x", 4), Token(Eq, "=", 6), Token(Integer, "1", 8)];
    LetBindingLexemes(s);
    TokenizeLexemes(s, ls);
  }

  /** The lexemes of `x == 2`. */
  lemma EqualityLexemes(s: string)
    requires s == "x == 2"
    ensures DispatchScan(s, 0) == Ok([Lexeme(Emit(Identifier), "x", 0), Lexeme(Ignore, " ", 1), Lexeme(Emit(EqEq), "==", 2),
      Lexeme(Ignore, " ", 4), Lexeme(Emit(Integer), "2", 5)])
  {
    var l0, l1, l2, l3, l4 :=
      Lexeme(Emit(Identifier), "x", 0), Lexeme(Ignore, " ", 1), Lexeme(Emit(EqEq), "==", 2),
      Lexeme(Ignore, " ", 4), Lexeme(Emit(Integer), "2", 5);
    DispatchDigitsAt(s, 5, 1);
    DispatchScanCons(s, 5, l4.action, l4.text, []);
    assert [l4] + [] == [l4];
    assert s[4..5] == " ";
    DispatchScanCons(s, 4, l3.action, l3.text, [l4]);
    assert [l3] + [l4] == [l3, l4];
    assert s[2..4] == "==";
    DispatchScanCons(s, 2, l2.action, l2.text, [l3, l4]);
    assert [l2] + [l3, l4] == [l2, l3, l4];
    DispatchScanCons(s, 1, l1.action, l1.text, [l2, l3, l4]);
    assert [l1] + [l2, l3, l4] == [l1, l2, l3, l4];
    DispatchWordAt(s, 0, 1);
    DispatchScanCons(s, 0, l0.action, l0.text, [l1, l2, l3, l4]);
    assert [l0] + [l1, l2, l3, l4] == [l0, l1, l2, l3, l4];
  }

  /** `x == 2`: the longer literal `==` wins over `=` declared before it, so there is one `EqEq` and no `Eq`. */
  lemma Equality(s: string)
    requires s == "x == 2"
    ensures Tokenize(s) == Ok([Token(Identifier, "x", 0), Token(EqEq, "==", 2), Token(Integer, "2", 5)])
  {
    var ls := [Lexeme(Emit(Identifier), "x", 0), Lexeme(Ignore, " ", 1), Lexeme(Emit(EqEq), "==", 2),
      Lexeme(Ignore, " ", 4), Lexeme(Emit(Integer), "2", 5)];
    assert Emitted(ls) == [Token(Identifier, "x", 0), Token(EqEq, "==", 2), Token(Integer, "2", 5)];
    EqualityLexemes(s);
    TokenizeLexemes(s, ls);
  }

  /** The lexemes of `print "hi"`. */
  lemma PrintStringLexemes(s: string)
    requires s == "print \"hi\""
    ensures DispatchScan(s, 0) == Ok([Lexeme(Emit(Print), "print", 0), Lexeme(Ignore, " ", 5), Lexeme(Emit(String), "\"hi\"", 6)])
  {
    var l0, l1, l2 := Lexeme(Emit(Print), "print", 0), Lexeme(Ignore, " ", 5), Lexeme(Emit(String), "\"hi\"", 6);
    DispatchQuotedAt(s, 6, 4);
    assert s[6..10] == "\"hi\"";
    DispatchScanCons(s, 6, l2.action, l2.text, []);
    assert [l2] + [] == [l2];
    DispatchScanCons(s, 5, l1.action, l1.text, [l2]);
    assert [l1] + [l2] == [l1, l2];
    DispatchWordAt(s, 0, 5);
    assert s[0..5] == "print";
    DispatchScanCons(s, 0, l0.action, l0.text, [l1, l2]);
    assert [l0] + [l1, l2] == [l0, l1, l2];
  }

  /** `print "hi"`: a keyword and a string whose text keeps its quotes. */
  lemma PrintString(s: string)
    requires s == "print \"hi\""
    ensures Tokenize(s) == Ok([Token(Print, "print", 0), Token(String, "\"hi\"", 6)])
  {
    var ls := [Lexeme(Emit(Print), "print", 0), Lexeme(Ignore, " ", 5), Lexeme(Emit(String), "\"hi\"", 6)];
    assert Emitted(ls) == [Token(Print, "print", 0), Token(String, "\"hi\"", 6)];
    PrintStringLexemes(s);
    TokenizeLexemes(s, ls);
  }

  /** The lexemes of `1 && true` from the blank after the operator on. */
  lemma AndTrueWord(s: string)
    requires s == "1 && true"
    ensures DispatchScan(s, 4) == Ok([Lexeme(Ignore, " ", 4), Lexeme(Emit(TrueLit), "true", 5)])
  {
    var l3, l4 := Lexeme(Ignore, " ", 4), Lexeme(Emit(TrueLit), "true", 5);
    assert s[5..9] == "true";
    DispatchWordAt(s, 5, 4);
    DispatchScanCons(s, 5, l4.action, l4.text, []);
    assert [l4] + [] == [l4];
    assert s[4] == ' ' && s[4..5] == [s[4]];
    DispatchScanCons(s, 4, l3.action, l3.text, [l4]);
    assert [l3] + [l4] == [l3, l4];
  }

  /** The lexemes of `1 && true` from the operator on. */
  lemma AndTrueTail(s: string)
    requires s == "1 && true"
    ensures DispatchScan(s, 2) == Ok([Lexeme(Emit(And), "&&", 2), Lexeme(Ignore, " ", 4), Lexeme(Emit(TrueLit), "true", 5)])
  {
    var l2, l3, l4 := Lexeme(Emit(And), "&&", 2), Lexeme(Ignore, " ", 4), Lexeme(Emit(TrueLit), "true", 5);
    AndTrueWord(s);
    assert s[2..4] == "&&";
    DispatchScanCons(s, 2, l2.action, l2.text, [l3, l4]);
    assert [l2] + [l3, l4] == [l2, l3, l4];
  }

  /** The lexemes of `1 && true`. */
  lemma AndTrueLexemes(s: string)
    requires s == "1 && true"
    ensures DispatchScan(s, 0) == Ok([Lexeme(Emit(Integer), "1", 0), Lexeme(Ignore, " ", 1), Lexeme(Emit(And), "&&", 2),
      Lexeme(Ignore, " ", 4), Lexeme(Emit(TrueLit), "true", 5)])
  {
    var l0, l1, l2, l3, l4 :=
      Lexeme(Emit(Integer), "1", 0), Lexeme(Ignore, " ", 1), Lexeme(Emit(And), "&&", 2),
      Lexeme(Ignore, " ", 4), Lexeme(Emit(TrueLit), "true", 5);
    AndTrueTail(s);
    assert s[1..2] == " ";
    DispatchScanCons(s, 1, l1.action, l1.text, [l2, l3, l4]);
    assert [l1] + [l2, l3, l4] == [l1, l2, l3, l4];
    DispatchDigitsAt(s, 0, 1);
    DispatchScanCons(s, 0, l0.action, l0.text, [l1, l2, l3, l4]);
    assert [l0] + [l1, l2, l3, l4] == [l0, l1, l2, l3, l4];
  }

  /** `1 && true`: an integer, the two-character `&&` and the keyword `true`. */
  lemma AndTrue(s: string)
    requires s == "1 && true"
    ensures Tokenize(s) == Ok([Token(Integer, "1", 0), Token(And, "&&", 2), Token(TrueLit, "true", 5)])
  {
    var ls := [Lexeme(Emit(Integer), "1", 0), Lexeme(Ignore, " ", 1), Lexeme(Emit(And), "&&", 2),
      Lexeme(Ignore, " ", 4), Lexeme(Emit(TrueLit), "true", 5)];
    assert Emitted(ls) == [Token(Integer, "1", 0), Token(And, "&&", 2), Token(TrueLit, "true", 5)];
    AndTrueLexemes(s);
    TokenizeLexemes(s, ls);
  }

  /** `letx`: the identifier pattern matches more than the keyword `let`, so the whole word is one identifier. */
  lemma KeywordPrefix(s: string)
    requires s == "letx"
    ensures Tokenize(s) == Ok([Token(Identifier, "letx", 0)])
  {
    var l := Lexeme(Emit(Identifier), "letx", 0);
    DispatchWordAt(s, 0, 4);
    assert s[0..4] == "letx";
    DispatchScanCons(s, 0, l.action, l.text, []);
    assert [l] + [] == [l];
    assert Emitted([l]) == [Token(Identifier, "letx", 0)];
    TokenizeLexemes(s, [l]);
  }

  /** `1a`: digits stop at the letter, so an integer and an identifier. */
  lemma DigitsThenLetter(s: string)
    requires s == "1a"
    ensures Tokenize(s) == Ok([Token(Integer, "1", 0), Token(Identifier, "a", 1)])
  {
    var l0, l1 := Lexeme(Emit(Integer), "1", 0), Lexeme(Emit(Identifier), "a", 1);
    DispatchWordAt(s, 1, 1);
    DispatchScanCons(s, 1, l1.action, l1.text, []);
    assert [l1] + [] == [l1];
    DispatchDigitsAt(s, 0, 1);
    DispatchScanCons(s, 0, l0.action, l0.text, [l1]);
    assert [l0] + [l1] == [l0, l1];
    assert Emitted([l0, l1]) == [Token(Integer, "1", 0), Token(Identifier, "a", 1)];
    TokenizeLexemes(s, [l0, l1]);
  }

  /** An opening quote with no closing quote is an unterminated string at its offset. */
  lemma UnterminatedQuote(s: string)
    requires s == "\"abc"
    ensures Tokenize(s) == Err(LexError(0, UnterminatedString))
  {
    assert NextQuote(s, 1).None?;
    assert Dispatch(s, 0).None?;
    TokenizeFailsAt(s, 0);
  }

  /**
   * `"@" !`: the string rule consumes the `@` inside the quotes, so the pass
   * first gets stuck at the lone `!` at offset 4, not at the `@`.
   */
  lemma StuckAfterString(s: string)
    requires s == "\"@\" !"
    ensures Tokenize(s) == Err(LexError(4, UnmatchedCharacter))
  {
    assert Dispatch(s, 4).None?;
    assert DispatchScan(s, 4) == Err(4);
    assert Dispatch(s, 3) == Some(Step(Ignore, 1));
    DispatchScanAt(s, 3, Ignore, 1);
    assert DispatchScan(s, 3) == Err(4);
    DispatchQuotedAt(s, 0, 3);
    DispatchScanAt(s, 0, Emit(String), 3);
    assert DispatchScan(s, 0) == Err(4);
    TokenizeFailsAt(s, 4);
  }

  /**
   * `@`, `_`, and a lone `!`, `&` or `|` start no token: `_` cannot start an
   * identifier, and the last three exist only as two-character operators.
   */
  lemma LoneCharacter(s: string)
    requires |s| == 1 && (s[0] == '@' || s[0] == '_' || s[0] == '!' || s[0] == '&' || s[0] == '|')
    ensures Tokenize(s) == Err(LexError(0, UnmatchedCharacter))
  {
    assert Dispatch(s, 0).None?;
    TokenizeFailsAt(s, 0);
  }
}
