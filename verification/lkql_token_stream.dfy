/**
 * Laws of the LKQL token stream as a whole: tokens keep the order of the
 * input with only blanks between them, and a blank inserted between two
 * lexemes changes the offsets of the later tokens but not their kinds and
 * texts.
 */
module LkqlTokenStream {
  import opened Wrappers
  import opened LexerEngine
  import opened LkqlLexer

  /** The offset `k` lies inside one of the tokens of `ts`. */
  predicate Covered(ts: seq<Token<TokenKind>>, k: nat) {
    exists a :: 0 <= a < |ts| && ts[a].start <= k < ts[a].start + |ts[a].text|
  }

  /** The tokens of a successful pass lie in the input and follow each other without overlapping. */
  lemma TokensInInputOrder(s: string)
    requires Tokenize(s).Ok?
    ensures TokensWithin(Tokenize(s).value, 0, |s|) && TokensInOrder(Tokenize(s).value)
  {
    LexReconstructsInput(s);
    EmittedInOrder(Lex(s).value, 0, |s|);
  }

  /** Every character of the input that no token covers is a blank. */
  lemma UncoveredIsBlank(s: string)
    requires Tokenize(s).Ok?
    ensures forall k :: 0 <= k < |s| && !Covered(Tokenize(s).value, k) ==> IsBlank(s[k])
  {
    var ls, ts := Lex(s).value, Tokenize(s).value;
    LexReconstructsInput(s);
    LexWellFormed(s);
    TokensWellFormed(s);
    forall k | 0 <= k < |s| && !Covered(ts, k)
      ensures IsBlank(s[k])
    {
      var l := ContiguousCovers(ls, 0, |s|, k);
      assert WellFormed(s, l);
      if l.action.Emit? {
        EmittingCovers(s, l, k);
        assert false;
      } else {
        assert k == l.start && s[k] == l.text[0];
      }
    }
  }

  /** Every character of `s` from offset `x` up to `y` is a blank. */
  predicate AllBlank(s: string, x: nat, y: nat) {
    y <= |s| && forall k :: x <= k < y ==> IsBlank(s[k])
  }

  /** The token of an emitting lexeme covers every offset the lexeme spans. */
  lemma EmittingCovers(s: string, l: Lexeme<TokenKind>, k: nat)
    requires Tokenize(s).Ok? && l in Lex(s).value && l.action.Emit?
    requires l.start <= k < l.start + |l.text|
    ensures Covered(Tokenize(s).value, k)
  {
    var ts := Tokenize(s).value;
    var t := Token(l.action.kind, l.text, l.start);
    LexemesBecomeTokens(Lex(s).value);
    assert t in ts;
    var a :| 0 <= a < |ts| && ts[a] == t;
  }

  /** Between two consecutive tokens there are only blanks. */
  lemma GapsBetweenTokensAreBlank(s: string)
    requires Tokenize(s).Ok?
    ensures forall a :: 0 <= a && a + 1 < |Tokenize(s).value| ==>
      AllBlank(s, Tokenize(s).value[a].start + |Tokenize(s).value[a].text|, Tokenize(s).value[a + 1].start)
  {
    var ts := Tokenize(s).value;
    TokensInInputOrder(s);
    UncoveredIsBlank(s);
    forall a | 0 <= a && a + 1 < |ts|
      ensures AllBlank(s, ts[a].start + |ts[a].text|, ts[a + 1].start)
    {
      forall k | ts[a].start + |ts[a].text| <= k < ts[a + 1].start
        ensures IsBlank(s[k])
      {
        forall c | 0 <= c < |ts|
          ensures !(ts[c].start <= k < ts[c].start + |ts[c].text|)
        {
          if c < a {
            assert ts[c].start + |ts[c].text| <= ts[a].start;
          } else if a + 1 < c {
            assert ts[a + 1].start + |ts[a + 1].text| <= ts[c].start;
          }
        }
        assert !Covered(ts, k);
      }
    }
  }

  /** `t` is `s` with a blank (a space, tab, newline or carriage return) inserted at offset `p`. */
  predicate Inserted(s: string, p: nat, t: string) {
    && p <= |s| && |t| == |s| + 1 && IsBlank(t[p])
    && (forall k :: 0 <= k < p ==> t[k] == s[k])
    && (forall k :: p <= k < |s| ==> t[k + 1] == s[k])
  }

  /** `s` with the blank `b` inserted at offset `p`. */
  function InsertBlank(s: string, p: nat, b: char): (t: string)
    requires p <= |s| && IsBlank(b)
    ensures Inserted(s, p, t) && t[p] == b
  {
    s[..p] + [b] + s[p..]
  }

  /** Some lexeme of `ls` starts at offset `p`. */
  predicate StartsAt(ls: seq<Lexeme<TokenKind>>, p: nat) {
    exists a :: 0 <= a < |ls| && ls[a].start == p
  }

  /**
   * The lexemes of `ls` with the ignored blank `b` at `p` put in before the first
   * lexeme starting at or after `p`, and those later lexemes moved one to the right.
   */
  function WithBlankAt(ls: seq<Lexeme<TokenKind>>, p: nat, b: char): (r: seq<Lexeme<TokenKind>>)
    ensures |r| == |ls| + 1
  {
    if ls == [] then [Lexeme(Ignore, [b], p)]
    else if p <= ls[0].start then [Lexeme(Ignore, [b], p)] + Shift(ls, 1)
    else [ls[0]] + WithBlankAt(ls[1..], p, b)
  }

  /** When no lexeme of `ls` starts before `p`, the blank comes first and the lexemes move right. */
  lemma WithBlankFirst(ls: seq<Lexeme<TokenKind>>, p: nat, b: char)
    requires ls == [] || p <= ls[0].start
    ensures WithBlankAt(ls, p, b) == [Lexeme(Ignore, [b], p)] + Shift(ls, 1)
  {
  }

  /** When the first lexeme of `ls` starts before `p`, it stays first and the blank goes into the rest. */
  lemma WithBlankAfterFirst(ls: seq<Lexeme<TokenKind>>, p: nat, b: char)
    requires ls != [] && ls[0].start < p
    ensures WithBlankAt(ls, p, b) == [ls[0]] + WithBlankAt(ls[1..], p, b)
  {
  }

  /** What follows offset `j` of `t` ends a lexeme the way what follows offset `i` of `s` does. */
  predicate EndsAlike(s: string, i: nat, t: string, j: nat) {
    || (i == |s| && j == |t|)
    || (j < |t| && (IsBlank(t[j]) || (i < |s| && t[j] == s[i])))
  }

  /** A well-formed lexeme copied into `t`, followed alike, is well formed there. */
  lemma WellFormedLocal(s: string, t: string, l: Lexeme<TokenKind>, j: nat)
    requires WellFormed(s, l)
    requires j + |l.text| <= |t| && t[j..j + |l.text|] == l.text
    requires EndsAlike(s, l.start + |l.text|, t, j + |l.text|)
    ensures WellFormed(t, Lexeme(l.action, l.text, j))
  {
    assert t[j] == l.text[0] && s[l.start] == l.text[0];
  }

  /**
   * The reference step recognises every well-formed lexeme: at its start it
   * takes the lexeme's action over exactly its text.
   */
  lemma DispatchComplete(s: string, l: Lexeme<TokenKind>)
    requires l.start < |s| && WellFormed(s, l)
    ensures Dispatch(s, l.start) == Some(Step(l.action, |l.text|))
  {
    var i, n := l.start, |l.text|;
    assert s[i] == l.text[0];
    match l.action
    case Ignore =>
    case Emit(k) =>
      if k == Integer {
        DigitsComplete(s, l);
      } else if k == Identifier || IsKeyword(k) {
        WordComplete(s, l, k);
      } else if k == String {
        QuotedComplete(s, l);
      } else {
        SymbolComplete(s, l, k);
      }
  }

  /** Every character of a well-formed lexeme is the input's character at the same place. */
  lemma TextInInput(s: string, l: Lexeme<TokenKind>)
    requires WellFormed(s, l)
    ensures forall k :: l.start <= k < l.start + |l.text| ==> s[k] == l.text[k - l.start]
  {
    forall k | l.start <= k < l.start + |l.text| ensures s[k] == l.text[k - l.start] {
      assert s[l.start..l.start + |l.text|][k - l.start] == s[k];
    }
  }

  /** A well-formed integer is one reference step. */
  lemma DigitsComplete(s: string, l: Lexeme<TokenKind>)
    requires WellFormed(s, l) && l.action == Emit(Integer)
    ensures Dispatch(s, l.start) == Some(Step(Emit(Integer), |l.text|))
  {
    TextInInput(s, l);
    DispatchDigitsAt(s, l.start, |l.text|);
  }

  /** A well-formed string literal is one reference step. */
  lemma QuotedComplete(s: string, l: Lexeme<TokenKind>)
    requires WellFormed(s, l) && l.action == Emit(String)
    ensures Dispatch(s, l.start) == Some(Step(Emit(String), |l.text|))
  {
    TextInInput(s, l);
    DispatchQuotedAt(s, l.start, |l.text|);
  }

  /** A well-formed identifier or keyword is one reference step of its word kind. */
  lemma WordComplete(s: string, l: Lexeme<TokenKind>, k: TokenKind)
    requires WellFormed(s, l) && l.action == Emit(k) && (k == Identifier || IsKeyword(k))
    ensures Dispatch(s, l.start) == Some(Step(Emit(k), |l.text|))
  {
    if IsKeyword(k) {
      KeywordIsWord(k);
      KeywordOfComplete(l.text, k);
    }
    assert InShape(Word, l.text) && WordKind(l.text) == k;
    WordInInput(s, l);
    WordStep(s, l.start, l.text, k);
  }

  /** A maximal word `w` at `i` whose word kind is `k` is one reference step of kind `k`. */
  lemma WordStep(s: string, i: nat, w: string, k: TokenKind)
    requires i + |w| <= |s| && 0 < |w| && s[i..i + |w|] == w && WordKind(w) == k
    requires IsLetter(s[i]) && forall m :: i < m < i + |w| ==> IsWordChar(s[m])
    requires i + |w| == |s| || !IsWordChar(s[i + |w|])
    ensures Dispatch(s, i) == Some(Step(Emit(k), |w|))
  {
    DispatchWordAt(s, i, |w|);
  }

  /** A well-formed lexeme whose text is a word is a maximal word of the input. */
  lemma WordInInput(s: string, l: Lexeme<TokenKind>)
    requires WellFormed(s, l) && InShape(Word, l.text)
    requires l.action.Emit? && (l.action.kind == Identifier || IsKeyword(l.action.kind))
    ensures IsLetter(s[l.start]) && forall k :: l.start < k < l.start + |l.text| ==> IsWordChar(s[k])
    ensures l.start + |l.text| == |s| || !IsWordChar(s[l.start + |l.text|])
    ensures l.start + |l.text| <= |s| && s[l.start..l.start + |l.text|] == l.text
  {
    TextInInput(s, l);
    assert s[l.start] == l.text[0];
    forall k | l.start < k < l.start + |l.text| ensures IsWordChar(s[k]) {
      assert s[k] == l.text[k - l.start];
    }
  }

  /** Every keyword's literal is a word. */
  lemma KeywordIsWord(k: TokenKind)
    requires IsKeyword(k)
    ensures LiteralText(k).Some? && InShape(Word, LiteralText(k).value)
  {
  }

  /** A well-formed operator or punctuation is one reference step. */
  lemma SymbolComplete(s: string, l: Lexeme<TokenKind>, k: TokenKind)
    requires WellFormed(s, l) && l.action == Emit(k)
    requires k != Integer && k != Identifier && k != String && !IsKeyword(k)
    ensures Dispatch(s, l.start) == Some(Step(Emit(k), |l.text|))
  {
    TextInInput(s, l);
  }

  /** A lexeme at or after the inserted blank reappears one character to the right, followed alike. */
  lemma CopiedAfterBlank(s: string, p: nat, t: string, l: Lexeme<TokenKind>)
    requires Inserted(s, p, t)
    requires p <= l.start && WellFormed(s, l)
    ensures var j := l.start + 1;
      && j + |l.text| <= |t| && t[j..j + |l.text|] == l.text
      && EndsAlike(s, l.start + |l.text|, t, j + |l.text|)
  {
    var j := l.start + 1;
    TextInInput(s, l);
    assert t[j..j + |l.text|] == l.text by {
      forall m | 0 <= m < |l.text| ensures t[j..j + |l.text|][m] == l.text[m] {
        assert t[j + m] == s[l.start + m];
      }
    }
  }

  /** A lexeme ending at or before the inserted blank stays where it is, followed alike. */
  lemma CopiedBeforeBlank(s: string, p: nat, t: string, l: Lexeme<TokenKind>)
    requires Inserted(s, p, t)
    requires l.start + |l.text| <= p && WellFormed(s, l)
    ensures var j := l.start;
      && j + |l.text| <= |t| && t[j..j + |l.text|] == l.text
      && EndsAlike(s, l.start + |l.text|, t, j + |l.text|)
  {
    var j := l.start;
    TextInInput(s, l);
    assert t[j..j + |l.text|] == l.text by {
      forall m | 0 <= m < |l.text| ensures t[j..j + |l.text|][m] == l.text[m] {
        assert t[j + m] == s[l.start + m];
      }
    }
  }

  /** Every lexeme of `ls` is well formed in `s`. */
  predicate AllWellFormed(s: string, ls: seq<Lexeme<TokenKind>>) {
    forall l :: l in ls ==> WellFormed(s, l)
  }

  /** `ls` tiles `s` from offset `i` to its end with well-formed lexemes. */
  predicate Lexes(s: string, i: nat, ls: seq<Lexeme<TokenKind>>) {
    Contiguous(ls, i, |s|) && AllWellFormed(s, ls)
  }

  /** A well-formed lexeme at `i` in front of a tiling from its end is a tiling from `i`. */
  lemma LexesCons(s: string, i: nat, l: Lexeme<TokenKind>, rest: seq<Lexeme<TokenKind>>)
    requires l.start == i && AllWellFormed(s, [l]) && Lexes(s, i + |l.text|, rest)
    ensures Lexes(s, i, [l] + rest)
  {
    ContiguousCons(l, rest, i, |s|);
  }

  /** The first lexeme of a tiling from `i` is the reference step there. */
  lemma HeadStep(s: string, i: nat, ls: seq<Lexeme<TokenKind>>)
    requires Lexes(s, i, ls) && ls != []
    ensures i < i + |ls[0].text| <= |s| && s[i..i + |ls[0].text|] == ls[0].text
    ensures Dispatch(s, i) == Some(Step(ls[0].action, |ls[0].text|))
  {
    assert ls[0] in ls;
    DispatchComplete(s, ls[0]);
  }

  /** Every tiling of the input from `i` by well-formed lexemes is what the reference pass from `i` returns. */
  lemma {:induction false} LexesScan(s: string, i: nat, ls: seq<Lexeme<TokenKind>>)
    requires i <= |s| && Lexes(s, i, ls)
    ensures DispatchScan(s, i) == Ok(ls)
    decreases |ls|
  {
    if ls != [] {
      LexesTail(s, i, ls);
      HeadFits(s, i, ls);
      LexesScan(s, i + |ls[0].text|, ls[1..]);
      ScanTakesHead(s, i, ls);
    }
  }

  /** The first lexeme of a tiling from `i` is non-empty and lies in the input. */
  lemma HeadFits(s: string, i: nat, ls: seq<Lexeme<TokenKind>>)
    requires Lexes(s, i, ls) && ls != []
    ensures i < i + |ls[0].text| <= |s|
  {
    assert ls[0] in ls;
  }

  /** When the reference pass returns the rest of a tiling after its first lexeme, it returns the whole tiling. */
  lemma ScanTakesHead(s: string, i: nat, ls: seq<Lexeme<TokenKind>>)
    requires Lexes(s, i, ls) && ls != [] && i + |ls[0].text| <= |s|
    requires DispatchScan(s, i + |ls[0].text|) == Ok(ls[1..])
    ensures DispatchScan(s, i) == Ok(ls)
  {
    var l, rest := ls[0], ls[1..];
    HeadStep(s, i, ls);
    DispatchScanCons(s, i, l.action, l.text, rest);
    assert ls == [l] + rest;
  }

  /**
   * The pass is the one tiling of the input by well-formed lexemes: it
   * succeeds with `ls` exactly when `ls` is such a tiling.
   */
  lemma LexCharacterized(s: string, ls: seq<Lexeme<TokenKind>>)
    ensures Lex(s) == Ok(ls) <==> Lexes(s, 0, ls)
  {
    if Lex(s) == Ok(ls) {
      LexWellFormed(s);
      LexReconstructsInput(s);
    }
    if Lexes(s, 0, ls) {
      ScanIsDispatchScan(s, 0);
      LexesScan(s, 0, ls);
    }
  }

  /** The rest of a tiling after its first lexeme tiles on from that lexeme's end. */
  lemma LexesTail(s: string, i: nat, ls: seq<Lexeme<TokenKind>>)
    requires Lexes(s, i, ls) && ls != []
    ensures ls[0].start == i && Lexes(s, i + |ls[0].text|, ls[1..])
  {
    assert ls == [ls[0]] + ls[1..];
  }

  /** The first lexeme of a tiling from `k`, at or after the inserted blank, is well formed one character further right. */
  lemma ShiftedWellFormed(s: string, p: nat, t: string, k: nat, ls: seq<Lexeme<TokenKind>>)
    requires Inserted(s, p, t)
    requires p <= k && Lexes(s, k, ls) && ls != []
    ensures AllWellFormed(t, [Lexeme(ls[0].action, ls[0].text, k + 1)])
  {
    var l := ls[0];
    assert l in ls;
    CopiedAfterBlank(s, p, t, l);
    WellFormedLocal(s, t, l, k + 1);
  }

  /** The first lexeme of a tiling, ending at or before the inserted blank, stays well formed. */
  lemma KeptWellFormed(s: string, p: nat, t: string, i: nat, ls: seq<Lexeme<TokenKind>>)
    requires Inserted(s, p, t)
    requires Lexes(s, i, ls) && ls != [] && i + |ls[0].text| <= p
    ensures AllWellFormed(t, [ls[0]])
  {
    var l := ls[0];
    assert l in ls;
    CopiedBeforeBlank(s, p, t, l);
    WellFormedLocal(s, t, l, i);
  }

  /** The first lexeme of a tiling from `k`, moved right, in front of the moved rest tiles from one further right. */
  lemma ShiftedHead(s: string, p: nat, t: string, k: nat, ls: seq<Lexeme<TokenKind>>)
    requires Inserted(s, p, t)
    requires p <= k && Lexes(s, k, ls) && ls != []
    requires Lexes(t, k + 1 + |ls[0].text|, Shift(ls[1..], 1))
    ensures Lexes(t, k + 1, [Lexeme(ls[0].action, ls[0].text, k + 1)] + Shift(ls[1..], 1))
  {
    ShiftedWellFormed(s, p, t, k, ls);
    LexesCons(t, k + 1, Lexeme(ls[0].action, ls[0].text, k + 1), Shift(ls[1..], 1));
  }

  /** A tiling from `k`, at or after the inserted blank, tiles the longer input one character further right. */
  lemma {:induction false} LexesAfterBlank(s: string, p: nat, t: string, k: nat, ls: seq<Lexeme<TokenKind>>)
    requires Inserted(s, p, t)
    requires p <= k && Lexes(s, k, ls)
    ensures Lexes(t, k + 1, Shift(ls, 1))
    decreases |ls|
  {
    if ls != [] {
      LexesTail(s, k, ls);
      LexesAfterBlank(s, p, t, k + |ls[0].text|, ls[1..]);
      ShiftedHead(s, p, t, k, ls);
      ShiftFirst(ls, 1);
    }
  }

  /** The ignored blank is well formed where it is inserted. */
  lemma BlankWellFormed(s: string, p: nat, t: string)
    requires Inserted(s, p, t)
    ensures WellFormed(t, Lexeme(Ignore, [t[p]], p))
  {
    assert t[p..p + 1] == [t[p]];
  }

  /** A lexeme starting at `p` after the first lexeme of a tiling from `i` starts at `p` in the rest. */
  lemma StartsAtRest(s: string, p: nat, i: nat, ls: seq<Lexeme<TokenKind>>)
    requires i < p && ls != [] && ls[0].start == i && StartsAt(ls, p)
    requires Contiguous(ls[1..], i + |ls[0].text|, |s|)
    ensures StartsAt(ls[1..], p) && i + |ls[0].text| <= p
  {
    var a :| 0 <= a < |ls| && ls[a].start == p;
    assert a != 0 && ls[1..][a - 1] == ls[a];
    ContiguousStartsFrom(ls[1..], i + |ls[0].text|, |s|);
  }

  /** At the inserted blank, the ignored blank goes in front of the tiling moved right. */
  lemma BlankHead(s: string, p: nat, t: string, ls: seq<Lexeme<TokenKind>>)
    requires Inserted(s, p, t)
    requires Lexes(s, p, ls)
    ensures Lexes(t, p, WithBlankAt(ls, p, t[p]))
  {
    var b := Lexeme(Ignore, [t[p]], p);
    WithBlankFirst(ls, p, t[p]);
    BlankWellFormed(s, p, t);
    LexesAfterBlank(s, p, t, p, ls);
    LexesCons(t, p, b, Shift(ls, 1));
  }

  /** The first lexeme of a tiling, ending at or before the blank, in front of the rest with the blank tiles the longer input. */
  lemma KeptHead(s: string, p: nat, t: string, i: nat, ls: seq<Lexeme<TokenKind>>)
    requires Inserted(s, p, t)
    requires Lexes(s, i, ls) && ls != [] && i < p && i + |ls[0].text| <= p
    requires Lexes(t, i + |ls[0].text|, WithBlankAt(ls[1..], p, t[p]))
    ensures Lexes(t, i, [ls[0]] + WithBlankAt(ls[1..], p, t[p]))
  {
    KeptWellFormed(s, p, t, i, ls);
    LexesCons(t, i, ls[0], WithBlankAt(ls[1..], p, t[p]));
  }

  /**
   * A tiling from `i`, up to the inserted blank, tiles the longer input once
   * the ignored blank is put in where it was inserted, provided a lexeme
   * starts there.
   */
  lemma {:induction false} LexesBeforeBlank(s: string, p: nat, t: string, i: nat, ls: seq<Lexeme<TokenKind>>)
    requires Inserted(s, p, t)
    requires i <= p && Lexes(s, i, ls)
    requires p == |s| || StartsAt(ls, p)
    ensures Lexes(t, i, WithBlankAt(ls, p, t[p]))
    decreases |ls|
  {
    if i == p {
      BlankHead(s, p, t, ls);
    } else {
      assert ls != [];
      LexesTail(s, i, ls);
      if p < |s| {
        StartsAtRest(s, p, i, ls);
      } else {
        ContiguousBound(ls[1..], i + |ls[0].text|, |s|);
      }
      LexesBeforeBlank(s, p, t, i + |ls[0].text|, ls[1..]);
      KeptHead(s, p, t, i, ls);
      WithBlankAfterFirst(ls, p, t[p]);
    }
  }

  /** The inserted blank is ignored: the kinds and texts of the tokens are those without it. */
  lemma {:induction false} EmittedWithBlank(ls: seq<Lexeme<TokenKind>>, p: nat, c: char)
    ensures KindsAndTexts(Emitted(WithBlankAt(ls, p, c))) == KindsAndTexts(Emitted(ls))
    decreases |ls|
  {
    var b := Lexeme(Ignore, [c], p);
    if ls == [] {
      assert [b] == [b] + [];
      EmittedCons(b, []);
    } else if p <= ls[0].start {
      EmittedCons(b, Shift(ls, 1));
      EmittedShift(ls, 1);
    } else {
      var l, rest := ls[0], ls[1..];
      assert ls == [l] + rest;
      EmittedWithBlank(rest, p, c);
      EmittedCons(l, rest);
      EmittedCons(l, WithBlankAt(rest, p, c));
      if l.action.Emit? {
        var tk := Token(l.action.kind, l.text, l.start);
        assert ([tk] + Emitted(rest))[1..] == Emitted(rest);
        assert ([tk] + Emitted(WithBlankAt(rest, p, c)))[1..] == Emitted(WithBlankAt(rest, p, c));
      }
    }
  }

  /**
   * Blanks between lexemes are transparent: a space, tab, newline or carriage
   * return inserted where a lexeme starts, or at the end, leaves the pass
   * successful, adds one ignored lexeme, and leaves the kinds and texts of
   * the tokens unchanged.
   */
  lemma BlankInsertion(s: string, p: nat, b: char)
    requires p <= |s| && IsBlank(b) && Lex(s).Ok?
    requires p == |s| || StartsAt(Lex(s).value, p)
    ensures Lex(InsertBlank(s, p, b)) == Ok(WithBlankAt(Lex(s).value, p, b))
    ensures Tokenize(InsertBlank(s, p, b)).Ok?
    ensures KindsAndTexts(Tokenize(InsertBlank(s, p, b)).value) == KindsAndTexts(Tokenize(s).value)
  {
    var t, ls := InsertBlank(s, p, b), Lex(s).value;
    LexCharacterized(s, ls);
    LexesBeforeBlank(s, p, t, 0, ls);
    LexCharacterized(t, WithBlankAt(ls, p, b));
    EmittedWithBlank(ls, p, b);
  }
}
