/**
 * The LKQL lexical grammar: its closed set of token kinds and the ordered rule
 * table of `lkql/language/lexer.py`, run by the engine of `LexerEngine`.
 */
module LkqlLexer {
  import opened Wrappers
  import opened LexerEngine

  datatype TokenKind =
    | Identifier | String | Integer
    | Let | Query | When | Is | In | Print | TrueLit | FalseLit
    | Dot | Eq | EqEq | Neq | And | Or | Plus | Minus | Mul | Div
    | LPar | RPar | LBrack | RBrack

  /** The keyword kinds. */
  predicate IsKeyword(k: TokenKind) {
    k.Let? || k.Query? || k.When? || k.Is? || k.In? || k.Print? || k.TrueLit? || k.FalseLit?
  }

  /**
   * Kinds declared `WithSymbol` carry an interned symbol (identifiers and
   * keywords); every other kind is declared `WithText` and carries its raw text.
   */
  predicate WithSymbol(k: TokenKind) {
    k.Identifier? || IsKeyword(k)
  }

  /** The rule table, in declaration order. */
  const Rules: seq<Rule<TokenKind>> := [
    Rule(Pattern(Blank), Ignore),          // 0
    Rule(Literal("."), Emit(Dot)),         // 1
    Rule(Literal("="), Emit(Eq)),          // 2
    Rule(Literal("=="), Emit(EqEq)),       // 3
    Rule(Literal("!="), Emit(Neq)),        // 4
    Rule(Literal("&&"), Emit(And)),        // 5
    Rule(Literal("||"), Emit(Or)),         // 6
    Rule(Literal("+"), Emit(Plus)),        // 7
    Rule(Literal("-"), Emit(Minus)),       // 8
    Rule(Literal("*"), Emit(Mul)),         // 9
    Rule(Literal("/"), Emit(Div)),         // 10
    Rule(Literal("("), Emit(LPar)),        // 11
    Rule(Literal(")"), Emit(RPar)),        // 12
    Rule(Literal("["), Emit(LBrack)),      // 13
    Rule(Literal("]"), Emit(RBrack)),      // 14
    Rule(Literal("let"), Emit(Let)),       // 15
    Rule(Literal("query"), Emit(Query)),   // 16
    Rule(Literal("when"), Emit(When)),     // 17
    Rule(Literal("is"), Emit(Is)),         // 18
    Rule(Literal("in"), Emit(In)),         // 19
    Rule(Literal("print"), Emit(Print)),   // 20
    Rule(Literal("true"), Emit(TrueLit)),  // 21
    Rule(Literal("false"), Emit(FalseLit)),// 22
    Rule(Pattern(Digits), Emit(Integer)),  // 23
    Rule(Pattern(Word), Emit(Identifier)), // 24
    Rule(Pattern(Quoted), Emit(String))    // 25
  ]

  /** Rules 1 to 14 are the operator and punctuation literals, each emitting the kind whose fixed text it is. */
  lemma OperatorRules()
    ensures forall j :: 1 <= j <= 14 ==>
      && Rules[j].matcher.Literal? && Rules[j].action.Emit?
      && LiteralText(Rules[j].action.kind) == Some(Rules[j].matcher.text)
      && !IsKeyword(Rules[j].action.kind)
  {
  }

  /**
   * The table in declaration order: the ignored blank pattern; 22 literal rules,
   * each emitting the kind whose fixed text is its literal, the last 8 of them
   * the keywords; then the integer, identifier and string patterns.
   */
  lemma RuleTable()
    ensures |Rules| == 26
    ensures Rules[0] == Rule(Pattern(Blank), Ignore)
    ensures forall j :: 1 <= j <= 22 ==>
      && Rules[j].matcher.Literal? && Rules[j].action.Emit?
      && LiteralText(Rules[j].action.kind) == Some(Rules[j].matcher.text)
      && (IsKeyword(Rules[j].action.kind) <==> 15 <= j)
    ensures Rules[23] == Rule(Pattern(Digits), Emit(Integer))
    ensures Rules[24] == Rule(Pattern(Word), Emit(Identifier))
    ensures Rules[25] == Rule(Pattern(Quoted), Emit(String))
  {
    OperatorRules();
    forall j | 15 <= j <= 22
      ensures Rules[j].matcher.Literal? && Rules[j].action.Emit?
      ensures LiteralText(Rules[j].action.kind) == Some(Rules[j].matcher.text)
      ensures IsKeyword(Rules[j].action.kind)
    {
      var t, k := KeywordRule(j);
      KeywordOfSound(t, k);
    }
  }

  /** The number of keywords. */
  const KeywordCount := 8

  /** The keyword kinds, in the order their rules are declared. */
  function KeywordAt(j: nat): (k: TokenKind)
    ensures IsKeyword(k)
  {
    match j
    case 0 => Let
    case 1 => Query
    case 2 => When
    case 3 => Is
    case 4 => In
    case 5 => Print
    case 6 => TrueLit
    case _ => FalseLit
  }

  /** The spelling of a keyword kind (empty for every other kind). */
  function KeywordText(k: TokenKind): string {
    match k
    case Let => "let"
    case Query => "query"
    case When => "when"
    case Is => "is"
    case In => "in"
    case Print => "print"
    case TrueLit => "true"
    case FalseLit => "false"
    case _ => ""
  }

  /** Whether `w` and `t` agree, character by character, from position `k` of `w` on. */
  predicate SameFrom(w: string, t: string, k: nat)
    decreases |w| - k
  {
    k >= |w| || (k < |t| && w[k] == t[k] && SameFrom(w, t, k + 1))
  }

  /** Whether `w` spells `t`, compared one character at a time. */
  predicate Spells(w: string, t: string) {
    |w| == |t| && SameFrom(w, t, 0)
  }

  /** Character-by-character agreement is agreement of the remaining suffixes. */
  lemma {:induction false} SameFromIsSuffixEquality(w: string, t: string, k: nat)
    requires |w| == |t| && k <= |w|
    ensures SameFrom(w, t, k) <==> w[k..] == t[k..]
    decreases |w| - k
  {
    if k < |w| {
      SameFromIsSuffixEquality(w, t, k + 1);
      assert w[k..] == [w[k]] + w[k + 1..];
      assert t[k..] == [t[k]] + t[k + 1..];
      if w[k..] == t[k..] {
        assert w[k] == w[k..][0] == t[k..][0] == t[k];
        assert w[k + 1..] == w[k..][1..] == t[k..][1..] == t[k + 1..];
      }
    }
  }

  /** `Spells` is string equality. */
  lemma SpellsIsEquality(w: string, t: string)
    ensures Spells(w, t) <==> w == t
  {
    if |w| == |t| {
      SameFromIsSuffixEquality(w, t, 0);
      assert w[0..] == w && t[0..] == t;
    }
  }

  /** The first keyword from position `j` of `KeywordAt` on that `w` spells, if any. */
  function KeywordFrom(w: string, j: nat): (r: Option<TokenKind>)
    ensures r.Some? ==> IsKeyword(r.value)
    decreases KeywordCount - j
  {
    if j >= KeywordCount then None
    else if Spells(w, KeywordText(KeywordAt(j))) then Some(KeywordAt(j))
    else KeywordFrom(w, j + 1)
  }

  /** The keyword a word spells, if any. */
  function KeywordOf(w: string): (r: Option<TokenKind>)
    ensures r.Some? ==> IsKeyword(r.value)
  {
    KeywordFrom(w, 0)
  }

  /** A keyword found from position `j` on is spelled by the word looked up. */
  lemma {:induction false} KeywordFromSpells(w: string, j: nat)
    ensures KeywordFrom(w, j).Some? ==> KeywordText(KeywordFrom(w, j).value) == w
    decreases KeywordCount - j
  {
    if j < KeywordCount {
      SpellsIsEquality(w, KeywordText(KeywordAt(j)));
      KeywordFromSpells(w, j + 1);
    }
  }

  /** The keyword a word spells has that word as its literal text. */
  lemma KeywordOfSound(w: string, k: TokenKind)
    requires KeywordOf(w) == Some(k)
    ensures IsKeyword(k) && LiteralText(k) == Some(w)
  {
    KeywordFromSpells(w, 0);
  }

  /** Every keyword is found by the word that is its literal. */
  lemma KeywordOfComplete(w: string, k: TokenKind)
    requires IsKeyword(k) && LiteralText(k) == Some(w)
    ensures KeywordOf(w) == Some(k)
  {
    match k
    case Let => assert KeywordOf("let") == Some(Let);
    case Query => assert KeywordOf("query") == Some(Query);
    case When => assert KeywordOf("when") == Some(When);
    case Is =>
      assert KeywordFrom("is", 3) == Some(Is);
      assert KeywordFrom("is", 1) == Some(Is);
      assert KeywordOf("is") == Some(Is);
    case In =>
      assert KeywordFrom("in", 4) == Some(In);
      assert KeywordFrom("in", 2) == Some(In);
      assert KeywordOf("in") == Some(In);
    case Print =>
      assert KeywordFrom("print", 5) == Some(Print);
      assert KeywordFrom("print", 3) == Some(Print);
      assert KeywordFrom("print", 1) == Some(Print);
      assert KeywordOf("print") == Some(Print);
    case TrueLit =>
      assert KeywordFrom("true", 6) == Some(TrueLit);
      assert KeywordFrom("true", 4) == Some(TrueLit);
      assert KeywordFrom("true", 2) == Some(TrueLit);
      assert KeywordOf("true") == Some(TrueLit);
    case FalseLit =>
      assert KeywordFrom("false", 7) == Some(FalseLit);
      assert KeywordFrom("false", 5) == Some(FalseLit);
      assert KeywordFrom("false", 3) == Some(FalseLit);
      assert KeywordFrom("false", 1) == Some(FalseLit);
      assert KeywordOf("false") == Some(FalseLit);
  }

  /** The fixed text of a literal kind: every kind but `Identifier`, `String` and `Integer`. */
  function LiteralText(k: TokenKind): Option<string> {
    match k
    case Identifier => None
    case String => None
    case Integer => None
    case Dot => Some(".")
    case Eq => Some("=")
    case EqEq => Some("==")
    case Neq => Some("!=")
    case And => Some("&&")
    case Or => Some("||")
    case Plus => Some("+")
    case Minus => Some("-")
    case Mul => Some("*")
    case Div => Some("/")
    case LPar => Some("(")
    case RPar => Some(")")
    case LBrack => Some("[")
    case RBrack => Some("]")
    case _ => Some(KeywordText(k))
  }

  /** The kind of a one-character punctuation token, if `c` is one. */
  function PunctuationOf(c: char): Option<TokenKind> {
    if c == '.' then Some(Dot)
    else if c == '+' then Some(Plus)
    else if c == '-' then Some(Minus)
    else if c == '*' then Some(Mul)
    else if c == '/' then Some(Div)
    else if c == '(' then Some(LPar)
    else if c == ')' then Some(RPar)
    else if c == '[' then Some(LBrack)
    else if c == ']' then Some(RBrack)
    else None
  }

  /** The character after position `i` is `d`. */
  predicate FollowedBy(s: string, i: nat, d: char) {
    i + 1 < |s| && s[i + 1] == d
  }

  /** What one step of lexing does at a position: an action and how many characters it consumes. */
  datatype Step = Step(action: Action<TokenKind>, len: nat)

  /**
   * A reference lexer written by hand, one decision per first character: the
   * behaviour the rule table is meant to have. `SelectAgreesWithDispatch`
   * proves that the table-driven selection makes exactly these decisions.
   */
  function Dispatch(s: string, i: nat): (r: Option<Step>)
    requires i < |s|
    ensures r.Some? ==> 0 < r.value.len && i + r.value.len <= |s|
  {
    var c := s[i];
    if IsLetter(c) then
      var n := WordLen(s, i);
      var w := s[i..i + n];
      Some(Step(Emit(WordKind(w)), n))
    else if IsDigit(c) then Some(Step(Emit(Integer), DigitRun(s, i)))
    else if IsBlank(c) then Some(Step(Ignore, 1))
    else if c == '=' then
      if FollowedBy(s, i, '=') then Some(Step(Emit(EqEq), 2)) else Some(Step(Emit(Eq), 1))
    else if c == '!' then
      if FollowedBy(s, i, '=') then Some(Step(Emit(Neq), 2)) else None
    else if c == '&' then
      if FollowedBy(s, i, '&') then Some(Step(Emit(And), 2)) else None
    else if c == '|' then
      if FollowedBy(s, i, '|') then Some(Step(Emit(Or), 2)) else None
    else if PunctuationOf(c).Some? then Some(Step(Emit(PunctuationOf(c).value), 1))
    else if c == '"' then
      match NextQuote(s, i + 1)
      case Some(j) => Some(Step(Emit(String), j - i + 1))
      case None => None
    else None
  }

  /** A table selection and a reference step agree: both fail, or both take the same action over the same length. */
  predicate Agrees(o: Option<Choice>, d: Option<Step>) {
    match o
    case None => d.None?
    case Some(c) => d.Some? && c.index < |Rules| && Rules[c.index].action == d.value.action && c.len == d.value.len
  }

  /** If `c` satisfies the selection policy at `i`, it is what the table selects there. */
  lemma PinSelection(s: string, i: nat, c: Choice)
    requires i <= |s|
    requires IsBestAmong(Rules, s, i, |Rules|, c)
    ensures Select(Rules, s, i) == Some(c)
  {
    SelectIsBest(Rules, s, i);
    if Select(Rules, s, i).Some? {
      SelectionUnique(Rules, s, i, Select(Rules, s, i).value, c);
    }
  }

  /** If no rule matches at `i`, the table selects nothing there. */
  lemma PinNoSelection(s: string, i: nat)
    requires i <= |s|
    requires NoneMatch(Rules, s, i, |Rules|)
    ensures Select(Rules, s, i).None?
  {
    SelectIsBest(Rules, s, i);
  }

  /** Only the blank rule can start with a blank. */
  lemma BlankCandidates(c: char)
    requires IsBlank(c)
    ensures forall j :: 0 <= j < |Rules| && CanStart(Rules[j].matcher, c) ==> j == 0
  {
  }

  /** Only the `=` and `==` rules can start with `=`. */
  lemma EqualsCandidates()
    ensures forall j :: 0 <= j < |Rules| && CanStart(Rules[j].matcher, '=') ==> j == 2 || j == 3
  {
  }

  /** Only the `!=`, `&&` and `||` rules can start with `!`, `&` and `|` respectively. */
  lemma PairCandidates()
    ensures forall j :: 0 <= j < |Rules| && CanStart(Rules[j].matcher, '!') ==> j == 4
    ensures forall j :: 0 <= j < |Rules| && CanStart(Rules[j].matcher, '&') ==> j == 5
    ensures forall j :: 0 <= j < |Rules| && CanStart(Rules[j].matcher, '|') ==> j == 6
  {
  }

  /** Only the integer rule can start with a digit. */
  lemma DigitCandidates(c: char)
    requires IsDigit(c)
    ensures forall j :: 0 <= j < |Rules| && CanStart(Rules[j].matcher, c) ==> j == 23
  {
  }

  /** Only the keyword rules and the identifier rule can start with a letter. */
  lemma LetterCandidates(c: char)
    requires IsLetter(c)
    ensures forall j :: 0 <= j < |Rules| && CanStart(Rules[j].matcher, c) ==> 15 <= j <= 22 || j == 24
  {
  }

  /** Only the string rule can start with a double quote. */
  lemma QuoteCandidates()
    ensures forall j :: 0 <= j < |Rules| && CanStart(Rules[j].matcher, '"') ==> j == 25
  {
  }

  /** No rule can start with a character that starts no token. */
  lemma NoCandidates(c: char)
    requires !IsBlank(c) && !IsDigit(c) && !IsLetter(c) && PunctuationOf(c).None?
    requires c != '=' && c != '!' && c != '&' && c != '|' && c != '"'
    ensures forall j :: 0 <= j < |Rules| ==> !CanStart(Rules[j].matcher, c)
  {
  }

  /** The index of the rule for a one-character punctuation token. */
  function PunctuationIndex(c: char): nat {
    if c == '.' then 1 else if c == '+' then 7 else if c == '-' then 8
    else if c == '*' then 9 else if c == '/' then 10 else if c == '(' then 11
    else if c == ')' then 12 else if c == '[' then 13 else 14
  }

  /**
   * Each punctuation character `c` has its own one-character rule `j`, which
   * emits the kind `k` of `c`, and no other rule starts with `c`.
   */
  lemma PunctuationRules(c: char) returns (j: nat, k: TokenKind)
    requires PunctuationOf(c).Some?
    ensures j == PunctuationIndex(c) && j < |Rules| && PunctuationOf(c) == Some(k)
    ensures Rules[j] == Rule(Literal([c]), Emit(k))
    ensures forall j' :: 0 <= j' < |Rules| && CanStart(Rules[j'].matcher, c) ==> j' == j
  {
    j, k := PunctuationIndex(c), PunctuationOf(c).value;
  }

  /** The index of the rule for a keyword kind. */
  function KeywordIndex(k: TokenKind): nat {
    match k
    case Let => 15
    case Query => 16
    case When => 17
    case Is => 18
    case In => 19
    case Print => 20
    case TrueLit => 21
    case FalseLit => 22
    case _ => 0
  }

  /** Keyword rule `j` is the literal `t` of a word, and `t` spells the keyword `k` that the rule emits. */
  lemma KeywordRule(j: nat) returns (t: string, k: TokenKind)
    requires 15 <= j <= 22
    ensures Rules[j] == Rule(Literal(t), Emit(k))
    ensures InShape(Word, t) && KeywordOf(t) == Some(k) && KeywordIndex(k) == j
  {
    t, k := Rules[j].matcher.text, Rules[j].action.kind;
    KeywordOfComplete(t, k);
  }

  /** Rules outside the candidate set `J` for `s[i]` do not match at `i`. */
  lemma OnlyCandidatesMatch(s: string, i: nat, J: set<int>)
    requires i < |s|
    requires forall j :: 0 <= j < |Rules| && CanStart(Rules[j].matcher, s[i]) ==> j in J
    ensures forall j :: 0 <= j < |Rules| && j !in J ==> MatchLen(Rules[j].matcher, s, i) == 0
  {
    forall j | 0 <= j < |Rules| && j !in J {
      MatchNeedsStart(Rules[j].matcher, s, i);
    }
  }

  lemma AgreeOnBlank(s: string, i: nat)
    requires i < |s| && IsBlank(s[i])
    ensures Agrees(Select(Rules, s, i), Dispatch(s, i))
  {
    BlankCandidates(s[i]);
    OnlyCandidatesMatch(s, i, {0});
    PinSelection(s, i, Choice(0, 1));
  }

  lemma AgreeOnEquals(s: string, i: nat)
    requires i < |s| && s[i] == '='
    ensures Agrees(Select(Rules, s, i), Dispatch(s, i))
  {
    EqualsCandidates();
    OnlyCandidatesMatch(s, i, {2, 3});
    if i + 1 < |s| && s[i + 1] == '=' {
      assert s[i..i + 2] == "==";
      PinSelection(s, i, Choice(3, 2));
    } else {
      PinSelection(s, i, Choice(2, 1));
    }
  }

  /** At a character that only starts the two-character literal of rule `j`. */
  lemma AgreeOnPairOnly(s: string, i: nat, j: nat)
    requires i < |s| && j < |Rules|
    requires Rules[j].matcher.Literal? && |Rules[j].matcher.text| == 2 && Rules[j].matcher.text[0] == s[i]
    requires forall j' :: 0 <= j' < |Rules| && CanStart(Rules[j'].matcher, s[i]) ==> j' == j
    requires Dispatch(s, i) ==
      if i + 1 < |s| && s[i + 1] == Rules[j].matcher.text[1] then Some(Step(Rules[j].action, 2)) else None
    ensures Agrees(Select(Rules, s, i), Dispatch(s, i))
  {
    OnlyCandidatesMatch(s, i, {j});
    var t := Rules[j].matcher.text;
    if i + 1 < |s| && s[i + 1] == t[1] {
      assert s[i..i + 2] == t;
      PinSelection(s, i, Choice(j, 2));
    } else {
      assert MatchLen(Rules[j].matcher, s, i) == 0 by {
        if i + 2 <= |s| { assert s[i..i + 2][1] == s[i + 1]; }
      }
      PinNoSelection(s, i);
    }
  }

  lemma AgreeOnPunctuation(s: string, i: nat)
    requires i < |s| && PunctuationOf(s[i]).Some?
    ensures Agrees(Select(Rules, s, i), Dispatch(s, i))
  {
    var j, k := PunctuationRules(s[i]);
    assert Dispatch(s, i) == Some(Step(Emit(k), 1));
    OnlyCandidatesMatch(s, i, {j});
    assert s[i..i + 1] == [s[i]];
    PinSelection(s, i, Choice(j, 1));
  }

  lemma AgreeOnDigit(s: string, i: nat)
    requires i < |s| && IsDigit(s[i])
    ensures Agrees(Select(Rules, s, i), Dispatch(s, i))
  {
    DigitCandidates(s[i]);
    OnlyCandidatesMatch(s, i, {23});
    PinSelection(s, i, Choice(23, DigitRun(s, i)));
  }

  lemma AgreeOnQuote(s: string, i: nat)
    requires i < |s| && s[i] == '"'
    ensures Agrees(Select(Rules, s, i), Dispatch(s, i))
  {
    QuoteCandidates();
    OnlyCandidatesMatch(s, i, {25});
    if NextQuote(s, i + 1).Some? {
      PinSelection(s, i, Choice(25, NextQuote(s, i + 1).value - i + 1));
    } else {
      PinNoSelection(s, i);
    }
  }

  lemma AgreeOnOther(s: string, i: nat)
    requires i < |s|
    requires !IsBlank(s[i]) && !IsDigit(s[i]) && !IsLetter(s[i]) && PunctuationOf(s[i]).None?
    requires s[i] != '=' && s[i] != '!' && s[i] != '&' && s[i] != '|' && s[i] != '"'
    ensures Agrees(Select(Rules, s, i), Dispatch(s, i))
  {
    NoCandidates(s[i]);
    OnlyCandidatesMatch(s, i, {});
    PinNoSelection(s, i);
  }

  /** A keyword literal never matches more than the identifier pattern at the same position. */
  lemma KeywordWithinWord(s: string, i: nat, t: string)
    requires i <= |s| && InShape(Word, t)
    ensures MatchLen(Literal(t), s, i) <= MatchLen(Pattern(Word), s, i)
  {
    MatchLenIsLongest(Pattern(Word), s, i);
    if MatchLen(Literal(t), s, i) > 0 {
      assert AcceptsAt(Pattern(Word), s, i, |t|);
    }
  }

  /** At a letter only the keyword rules and the identifier rule can match. */
  lemma OnlyWordRulesMatch(s: string, i: nat)
    requires i < |s| && IsLetter(s[i])
    ensures forall j :: 0 <= j < |Rules| && !(15 <= j <= 22 || j == 24) ==> MatchLen(Rules[j].matcher, s, i) == 0
  {
    LetterCandidates(s[i]);
    OnlyCandidatesMatch(s, i, {15, 16, 17, 18, 19, 20, 21, 22, 24});
  }

  /** The keyword rule `j` matches at most the word at `i`, and all of it only if it spells that word. */
  lemma KeywordRuleLen(s: string, i: nat, j: nat)
    requires i < |s| && IsLetter(s[i]) && 15 <= j <= 22
    ensures var n := WordLen(s, i);
      && MatchLen(Rules[j].matcher, s, i) <= n
      && (MatchLen(Rules[j].matcher, s, i) == n ==> s[i..i + n] == Rules[j].matcher.text)
  {
    var t, k := KeywordRule(j);
    KeywordWithinWord(s, i, t);
  }

  /** What the keyword rules and the identifier rule match at a letter. */
  lemma WordRuleLens(s: string, i: nat)
    requires i < |s| && IsLetter(s[i])
    ensures var n := WordLen(s, i);
      && MatchLen(Rules[24].matcher, s, i) == n
      && (forall j :: 15 <= j <= 22 ==> MatchLen(Rules[j].matcher, s, i) <= n)
      && (forall j :: 15 <= j <= 22 && MatchLen(Rules[j].matcher, s, i) == n ==> s[i..i + n] == Rules[j].matcher.text)
  {
    forall j | 15 <= j <= 22
      ensures MatchLen(Rules[j].matcher, s, i) <= WordLen(s, i)
      ensures MatchLen(Rules[j].matcher, s, i) == WordLen(s, i) ==>
              s[i..i + WordLen(s, i)] == Rules[j].matcher.text
    {
      KeywordRuleLen(s, i, j);
    }
  }

  /** When keyword rule `k` spells the whole word, every keyword rule declared before it matches less. */
  lemma EarlierKeywordsShorter(s: string, i: nat, k: nat)
    requires i < |s| && IsLetter(s[i]) && 15 <= k <= 22
    requires s[i..i + WordLen(s, i)] == Rules[k].matcher.text
    ensures forall j :: 15 <= j < k ==> MatchLen(Rules[j].matcher, s, i) < WordLen(s, i)
  {
    forall j | 15 <= j < k
      ensures MatchLen(Rules[j].matcher, s, i) < WordLen(s, i)
    {
      KeywordRuleLen(s, i, j);
    }
  }

  /** At a word of `n` characters that spells the keyword of rule `k`, the table selects that rule for the whole word. */
  lemma SelectKeyword(s: string, i: nat, n: nat, k: nat)
    requires i < |s| && IsLetter(s[i]) && n == WordLen(s, i) && 15 <= k <= 22
    requires s[i..i + n] == Rules[k].matcher.text
    ensures Select(Rules, s, i) == Some(Choice(k, n))
  {
    OnlyWordRulesMatch(s, i);
    WordRuleLens(s, i);
    EarlierKeywordsShorter(s, i, k);
    var t, kw := KeywordRule(k);
    PinSelection(s, i, Choice(k, n));
  }

  /** A keyword literal matches less than a word that spells no keyword. */
  lemma KeywordMissesWord(s: string, i: nat, n: nat, t: string)
    requires i < |s| && IsLetter(s[i]) && n == WordLen(s, i)
    requires InShape(Word, t) && KeywordOf(t).Some? && KeywordOf(s[i..i + n]).None?
    ensures MatchLen(Literal(t), s, i) < n
  {
    KeywordWithinWord(s, i, t);
    assert MatchLen(Pattern(Word), s, i) == n;
    if |t| == n {
      assert s[i..i + n] != t;
    }
  }

  /** At a word of `n` characters that spells no keyword, the table selects the identifier rule for the whole word. */
  lemma SelectIdentifier(s: string, i: nat, n: nat)
    requires i < |s| && IsLetter(s[i]) && n == WordLen(s, i)
    requires KeywordOf(s[i..i + n]).None?
    ensures Select(Rules, s, i) == Some(Choice(24, n))
  {
    OnlyWordRulesMatch(s, i);
    WordRuleLens(s, i);
    forall j | 15 <= j <= 22
      ensures MatchLen(Rules[j].matcher, s, i) < n
    {
      var t, k := KeywordRule(j);
      KeywordMissesWord(s, i, n, t);
    }
    PinSelection(s, i, Choice(24, n));
  }

  lemma AgreeOnLetter(s: string, i: nat)
    requires i < |s| && IsLetter(s[i])
    ensures Agrees(Select(Rules, s, i), Dispatch(s, i))
  {
    var n := WordLen(s, i);
    match KeywordOf(s[i..i + n])
    case None => AgreeOnIdentifier(s, i, n);
    case Some(kw) => AgreeOnKeyword(s, i, n, kw);
  }

  /** At a word of `n` characters that spells no keyword, both sides emit an identifier over the whole word. */
  lemma AgreeOnIdentifier(s: string, i: nat, n: nat)
    requires i < |s| && IsLetter(s[i]) && n == WordLen(s, i)
    requires KeywordOf(s[i..i + n]).None?
    ensures Agrees(Select(Rules, s, i), Dispatch(s, i))
  {
    DispatchAtLetter(s, i, n);
    SelectIdentifier(s, i, n);
    AgreeFrom(Select(Rules, s, i), Dispatch(s, i), 24, n);
  }

  /** At a word of `n` characters that spells the keyword `kw`, both sides emit that keyword over the whole word. */
  lemma AgreeOnKeyword(s: string, i: nat, n: nat, kw: TokenKind)
    requires i < |s| && IsLetter(s[i]) && n == WordLen(s, i)
    requires KeywordOf(s[i..i + n]) == Some(kw)
    ensures Agrees(Select(Rules, s, i), Dispatch(s, i))
  {
    var k := KeywordIndex(kw);
    KeywordRuleFor(s[i..i + n], kw);
    DispatchAtLetter(s, i, n);
    SelectKeyword(s, i, n, k);
    AgreeFrom(Select(Rules, s, i), Dispatch(s, i), k, n);
  }

  /** The rule of the keyword a word spells has that word as its literal and emits that keyword. */
  lemma KeywordRuleFor(w: string, kw: TokenKind)
    requires KeywordOf(w) == Some(kw)
    ensures 15 <= KeywordIndex(kw) <= 22 && Rules[KeywordIndex(kw)].matcher.text == w
    ensures Rules[KeywordIndex(kw)].action == Emit(kw) && WordKind(w) == kw
  {
    KeywordOfSound(w, kw);
  }

  /** A selection of rule `k` over `n` characters agrees with a reference step taking that rule's action over `n` characters. */
  lemma AgreeFrom(o: Option<Choice>, d: Option<Step>, k: nat, n: nat)
    requires k < |Rules| && o == Some(Choice(k, n)) && d == Some(Step(Rules[k].action, n))
    ensures Agrees(o, d)
  {
  }

  /**
   * The table-driven selection (longest match first, then declaration order)
   * makes at every position the decision of the hand-written `Dispatch`.
   */
  lemma SelectAgreesWithDispatch(s: string, i: nat)
    requires i < |s|
    ensures Agrees(Select(Rules, s, i), Dispatch(s, i))
  {
    var c := s[i];
    if IsBlank(c) {
      AgreeOnBlank(s, i);
    } else if c == '=' {
      AgreeOnEquals(s, i);
    } else if c == '!' {
      PairCandidates();
      AgreeOnPairOnly(s, i, 4);
    } else if c == '&' {
      PairCandidates();
      AgreeOnPairOnly(s, i, 5);
    } else if c == '|' {
      PairCandidates();
      AgreeOnPairOnly(s, i, 6);
    } else if PunctuationOf(c).Some? {
      AgreeOnPunctuation(s, i);
    } else if IsDigit(c) {
      AgreeOnDigit(s, i);
    } else if IsLetter(c) {
      AgreeOnLetter(s, i);
    } else if c == '"' {
      AgreeOnQuote(s, i);
    } else {
      AgreeOnOther(s, i);
    }
  }

  /** Why lexing stopped: no rule matches, or a string literal has no closing quote. */
  datatype ErrorReason = UnmatchedCharacter | UnterminatedString

  /** A lexical error: the first position the left-to-right pass reaches where no rule matches, and why. */
  datatype LexError = LexError(offset: nat, reason: ErrorReason)

  /**
   * One pass of the rule table over `s`: every lexeme, ignored ones included,
   * or the first position the pass reaches where no rule matches. An opening quote that no rule
   * matches is reported as an unterminated string.
   */
  function Lex(s: string): (r: Result<seq<Lexeme<TokenKind>>, LexError>)
    ensures r.Err? ==> r.error.offset < |s|
    ensures r.Err? ==> (r.error.reason == UnterminatedString <==> s[r.error.offset] == '"')
  {
    match Scan(Rules, s, 0)
    case Ok(ls) => Ok(ls)
    case Err(o) => Err(LexError(o, if s[o] == '"' then UnterminatedString else UnmatchedCharacter))
  }

  /** The token stream of `s`: the lexemes of emitting rules, ignored text dropped. */
  function Tokenize(s: string): (r: Result<seq<Token<TokenKind>>, LexError>)
    ensures r.Ok? <==> Lex(s).Ok?
    ensures r.Err? ==> r.error == Lex(s).error
  {
    match Lex(s)
    case Ok(ls) => Ok(Emitted(ls))
    case Err(e) => Err(e)
  }

  /** The reference pass: `Scan` with `Dispatch` in place of the rule table. */
  function DispatchScan(s: string, i: nat): Result<seq<Lexeme<TokenKind>>, nat>
    requires i <= |s|
    decreases |s| - i
  {
    if i == |s| then Ok([])
    else
      match Dispatch(s, i)
      case None => Err(i)
      case Some(st) => PrependLexeme(st.action, s, i, st.len, DispatchScan(s, i + st.len))
  }

  /** The table-driven pass and the reference pass produce the same lexemes and fail at the same offset. */
  lemma {:induction false} ScanIsDispatchScan(s: string, i: nat)
    requires i <= |s|
    ensures Scan(Rules, s, i) == DispatchScan(s, i)
    decreases |s| - i
  {
    if i < |s| {
      match Dispatch(s, i)
      case None => ScanStepNone(s, i);
      case Some(st) =>
        var n := st.len;
        ScanIsDispatchScan(s, i + n);
        ScanStepSome(s, i, st.action, n);
    }
  }

  /** Where the reference step fails, both passes fail at once. */
  lemma ScanStepNone(s: string, i: nat)
    requires i < |s| && Dispatch(s, i).None?
    ensures Scan(Rules, s, i) == DispatchScan(s, i) == Err(i)
  {
    SelectAgreesWithDispatch(s, i);
  }

  /** Where the reference step takes `a` over `n` characters and both passes agree after it, they agree from `i`. */
  lemma ScanStepSome(s: string, i: nat, a: Action<TokenKind>, n: nat)
    requires i < |s| && Dispatch(s, i) == Some(Step(a, n))
    requires i + n <= |s| && Scan(Rules, s, i + n) == DispatchScan(s, i + n)
    ensures Scan(Rules, s, i) == DispatchScan(s, i)
  {
    SelectAgreesWithDispatch(s, i);
    var k: nat := Select(Rules, s, i).value.index;
    ScanAt(Rules, s, i, k, n);
    DispatchScanAt(s, i, a, n);
  }

  /** Where the reference step takes `a` over `n` characters, the reference pass puts that lexeme in front of the pass after it. */
  lemma DispatchScanAt(s: string, i: nat, a: Action<TokenKind>, n: nat)
    requires i < |s| && Dispatch(s, i) == Some(Step(a, n))
    ensures i + n <= |s|
    ensures DispatchScan(s, i) == PrependLexeme(a, s, i, n, DispatchScan(s, i + n))
  {
  }

  /** The text of `l` is the slice of `s` it claims to span. */
  predicate InInput(s: string, l: Lexeme<TokenKind>) {
    l.start + |l.text| <= |s| && l.text == s[l.start..l.start + |l.text|]
  }

  /**
   * The text a lexeme may have given its action: a single blank when ignored,
   * a digit run for `Integer`, a word that is no keyword for `Identifier`, a
   * quoted text for `String`, and the fixed literal for every other kind.
   */
  predicate LexemeShape(l: Lexeme<TokenKind>) {
    match l.action
    case Ignore => |l.text| == 1 && IsBlank(l.text[0])
    case Emit(k) =>
      if k == Integer then InShape(Digits, l.text)
      else if k == Identifier then InShape(Word, l.text) && KeywordOf(l.text).None?
      else if k == String then InShape(Quoted, l.text)
      else LiteralText(k) == Some(l.text)
  }

  /**
   * The kinds that carry a symbol are exactly those whose lexemes are words:
   * identifiers and keywords. Every other token is a number, a string or a symbol.
   */
  lemma SymbolKindsAreWords(l: Lexeme<TokenKind>)
    requires l.action.Emit? && LexemeShape(l)
    ensures WithSymbol(l.action.kind) <==> InShape(Word, l.text)
  {
  }

  /**
   * Maximal munch as seen from the input: a number or a word (identifier or
   * keyword) is not followed by a character that would extend it, and `=` is
   * not followed by another `=`.
   */
  predicate Maximal(s: string, l: Lexeme<TokenKind>)
    requires l.start + |l.text| <= |s|
  {
    var e := l.start + |l.text|;
    match l.action
    case Ignore => true
    case Emit(k) =>
      && (k == Integer ==> e == |s| || !IsDigit(s[e]))
      && (k == Identifier || IsKeyword(k) ==> e == |s| || !IsWordChar(s[e]))
      && (k == Eq ==> e == |s| || s[e] != '=')
  }

  /** Everything a lexeme of `s` is promised to be. */
  predicate WellFormed(s: string, l: Lexeme<TokenKind>) {
    && InInput(s, l)
    && 0 < |l.text|
    && LexemeShape(l)
    && Maximal(s, l)
    && (l.action.Ignore? <==> IsBlank(s[l.start]))
  }

  /** The kind of a word: the keyword it spells, or `Identifier`. */
  function WordKind(w: string): (k: TokenKind)
    ensures k == Identifier || IsKeyword(k)
  {
    if KeywordOf(w).Some? then KeywordOf(w).value else Identifier
  }

  /** A word lexeme: a keyword spelling its own literal, or an identifier that spells no keyword. */
  lemma WordShape(w: string, i: nat)
    requires InShape(Word, w)
    ensures LexemeShape(Lexeme(Emit(WordKind(w)), w, i))
  {
    match KeywordOf(w)
    case None =>
    case Some(k) => KeywordOfSound(w, k);
  }

  /** A maximal word of `s` makes a well-formed lexeme of its word kind. */
  lemma WordWellFormed(s: string, i: nat, n: nat)
    requires i + n <= |s| && InShape(Word, s[i..i + n])
    requires i + n == |s| || !IsWordChar(s[i + n])
    ensures WellFormed(s, Lexeme(Emit(WordKind(s[i..i + n])), s[i..i + n], i))
  {
    assert s[i..i + n][0] == s[i];
    WordShape(s[i..i + n], i);
  }

  /** At a letter, the reference step takes the whole word of `n` characters and emits its word kind. */
  lemma DispatchAtLetter(s: string, i: nat, n: nat)
    requires i < |s| && IsLetter(s[i]) && n == WordLen(s, i)
    ensures i + n <= |s| && Dispatch(s, i) == Some(Step(Emit(WordKind(s[i..i + n])), n))
  {
  }

  /** A letter followed by a run of word characters is a word. */
  lemma WordRunInShape(s: string, i: nat, n: nat)
    requires i + n <= |s| && 0 < n && IsLetter(s[i])
    requires forall k :: i < k < i + n ==> IsWordChar(s[k])
    ensures InShape(Word, s[i..i + n])
  {
    var w := s[i..i + n];
    forall k | 1 <= k < |w| ensures IsWordChar(w[k]) {
      assert w[k] == s[i + k];
    }
  }

  /** A maximal word of `n` characters at `i` makes a well-formed lexeme of its word kind. */
  lemma WordWellFormedAt(s: string, i: nat, n: nat)
    requires i + n <= |s| && 0 < n && IsLetter(s[i])
    requires forall k :: i < k < i + n ==> IsWordChar(s[k])
    requires i + n == |s| || !IsWordChar(s[i + n])
    ensures WellFormed(s, Lexeme(Emit(WordKind(s[i..i + n])), s[i..i + n], i))
  {
    WordRunInShape(s, i, n);
    WordWellFormed(s, i, n);
  }

  /** The lexeme a reference step makes at a letter is a whole word: a keyword or an identifier. */
  lemma DispatchWordShape(s: string, i: nat)
    requires i < |s| && IsLetter(s[i])
    ensures var st := Dispatch(s, i).value;
      WellFormed(s, Lexeme(st.action, s[i..i + st.len], i))
  {
    var n := WordLen(s, i);
    WordCharRunChars(s, i + 1);
    WordWellFormedAt(s, i, n);
    DispatchWordAt(s, i, n);
    StepWellFormed(s, i, Dispatch(s, i).value, Emit(WordKind(s[i..i + n])), n);
  }

  /** A step equal to one whose lexeme is well formed makes the same lexeme. */
  lemma StepWellFormed(s: string, i: nat, st: Step, a: Action<TokenKind>, n: nat)
    requires st == Step(a, n) && i + n <= |s| && WellFormed(s, Lexeme(a, s[i..i + n], i))
    ensures WellFormed(s, Lexeme(st.action, s[i..i + st.len], i))
  {
  }

  /** The lexeme a reference step makes at a digit or a quote. */
  lemma DispatchRunShape(s: string, i: nat)
    requires i < |s| && (IsDigit(s[i]) || s[i] == '"') && Dispatch(s, i).Some?
    ensures var st := Dispatch(s, i).value;
      WellFormed(s, Lexeme(st.action, s[i..i + st.len], i))
  {
    var st := Dispatch(s, i).value;
    var w := s[i..i + st.len];
    if IsDigit(s[i]) {
      DigitRunDigits(s, i);
      forall k | 0 <= k < |w| ensures IsDigit(w[k]) {
        assert w[k] == s[i + k];
      }
    } else {
      NextQuoteSkips(s, i + 1);
      forall k | 0 < k < |w| - 1 ensures w[k] != '"' {
        assert w[k] == s[i + k];
      }
    }
  }

  /** A non-blank literal of `n` characters at `i`, other than a keyword, makes a well-formed lexeme. */
  lemma SymbolWellFormed(s: string, i: nat, k: TokenKind, n: nat)
    requires i + n <= |s| && 0 < n && !IsBlank(s[i]) && !IsKeyword(k)
    requires LiteralText(k) == Some(s[i..i + n])
    requires k == Eq ==> i + n == |s| || s[i + n] != '='
    ensures WellFormed(s, Lexeme(Emit(k), s[i..i + n], i))
  {
  }

  /** The lexeme a reference step makes at a blank, an operator or a punctuation character. */
  lemma DispatchSymbolShape(s: string, i: nat)
    requires i < |s| && !IsLetter(s[i]) && !IsDigit(s[i]) && s[i] != '"' && Dispatch(s, i).Some?
    ensures var st := Dispatch(s, i).value;
      WellFormed(s, Lexeme(st.action, s[i..i + st.len], i))
  {
    var c := s[i];
    if IsBlank(c) {
      assert s[i..i + 1] == [c];
    } else if c == '=' || c == '!' || c == '&' || c == '|' {
      PairShape(s, i);
    } else {
      var k := PunctuationOf(c).value;
      assert Dispatch(s, i) == Some(Step(Emit(k), 1));
      assert s[i..i + 1] == [c];
      SymbolWellFormed(s, i, k, 1);
    }
  }

  /** The lexeme a reference step makes at `=`, `!`, `&` or `|`. */
  lemma PairShape(s: string, i: nat)
    requires i < |s| && (s[i] == '=' || s[i] == '!' || s[i] == '&' || s[i] == '|') && Dispatch(s, i).Some?
    ensures var st := Dispatch(s, i).value;
      WellFormed(s, Lexeme(st.action, s[i..i + st.len], i))
  {
    var st := Dispatch(s, i).value;
    var k := st.action.kind;
    if st.len == 2 {
      assert s[i..i + 2] == [s[i], s[i + 1]];
      SymbolWellFormed(s, i, k, 2);
    } else {
      assert s[i..i + 1] == [s[i]];
      SymbolWellFormed(s, i, k, 1);
    }
  }

  /** Every lexeme a reference step makes is well formed. */
  lemma DispatchShape(s: string, i: nat)
    requires i < |s| && Dispatch(s, i).Some?
    ensures var st := Dispatch(s, i).value;
      WellFormed(s, Lexeme(st.action, s[i..i + st.len], i))
  {
    if IsLetter(s[i]) {
      DispatchWordShape(s, i);
    } else if IsDigit(s[i]) || s[i] == '"' {
      DispatchRunShape(s, i);
    } else {
      DispatchSymbolShape(s, i);
    }
  }

  /** The lexeme of a reference step that takes `a` over `n` characters is well formed. */
  lemma DispatchShapeAt(s: string, i: nat, a: Action<TokenKind>, n: nat)
    requires i < |s| && Dispatch(s, i) == Some(Step(a, n))
    ensures i + n <= |s| && WellFormed(s, Lexeme(a, s[i..i + n], i))
  {
    DispatchShape(s, i);
  }

  /** Every lexeme of `ls` starts at or after `i` and is well formed in `s`. */
  predicate WellFormedFrom(s: string, i: nat, ls: seq<Lexeme<TokenKind>>) {
    forall l :: l in ls ==> i <= l.start && WellFormed(s, l)
  }

  /** Every lexeme of a successful reference pass from `i` starts at or after `i` and is well formed. */
  lemma {:induction false} DispatchScanWellFormed(s: string, i: nat)
    requires i <= |s|
    requires DispatchScan(s, i).Ok?
    ensures WellFormedFrom(s, i, DispatchScan(s, i).value)
    decreases |s| - i
  {
    if i < |s| {
      var st := Dispatch(s, i).value;
      var a, n := st.action, st.len;
      DispatchShapeAt(s, i, a, n);
      DispatchScanAt(s, i, a, n);
      var rest := DispatchScan(s, i + n);
      DispatchScanWellFormed(s, i + n);
      PrependWellFormed(s, i, a, n, rest);
    }
  }

  /** A well-formed lexeme at `i` in front of well-formed lexemes from `i + n` on. */
  lemma PrependWellFormed(s: string, i: nat, a: Action<TokenKind>, n: nat, rest: Result<seq<Lexeme<TokenKind>>, nat>)
    requires i + n <= |s| && WellFormed(s, Lexeme(a, s[i..i + n], i))
    requires rest.Ok? && WellFormedFrom(s, i + n, rest.value)
    ensures PrependLexeme(a, s, i, n, rest).Ok?
    ensures WellFormedFrom(s, i, PrependLexeme(a, s, i, n, rest).value)
  {
  }

  /** Whether `c` is the first character of some token or of ignored text. */
  predicate StartsLexeme(c: char) {
    IsBlank(c) || IsDigit(c) || IsLetter(c) || PunctuationOf(c).Some?
    || c == '=' || c == '!' || c == '&' || c == '|' || c == '"'
  }

  /**
   * Where the reference step fails: at a character that starts nothing, at a
   * `!`, `&` or `|` not followed by its partner, and at a quote with no
   * closing quote after it.
   */
  lemma DispatchFails(s: string, i: nat)
    requires i < |s|
    ensures Dispatch(s, i).None? <==>
      || !StartsLexeme(s[i])
      || (s[i] == '!' && !FollowedBy(s, i, '='))
      || (s[i] == '&' && !FollowedBy(s, i, '&'))
      || (s[i] == '|' && !FollowedBy(s, i, '|'))
      || (s[i] == '"' && NextQuote(s, i + 1).None?)
  {
  }

  /** Every lexeme of a successful pass is well formed. */
  lemma LexWellFormed(s: string)
    requires Lex(s).Ok?
    ensures forall l :: l in Lex(s).value ==> WellFormed(s, l)
  {
    ScanIsDispatchScan(s, 0);
    DispatchScanWellFormed(s, 0);
  }

  /**
   * Span reconstruction: the lexemes of a successful pass, ignored ones
   * included, follow each other without gaps from offset 0 to the end, and
   * their texts spell out the input exactly.
   */
  lemma LexReconstructsInput(s: string)
    requires Lex(s).Ok?
    ensures Contiguous(Lex(s).value, 0, |s|)
    ensures Spelling(Lex(s).value) == s
  {
    ScanContiguous(Rules, s, 0);
    ScanSpellsInput(Rules, s, 0);
  }

  /**
   * A pass fails at the first offset where the reference step fails: never at
   * a blank, and at a quote exactly when the string is unterminated.
   */
  lemma LexErrorAt(s: string, o: nat, r: ErrorReason)
    requires Lex(s) == Err(LexError(o, r))
    ensures o < |s| && Dispatch(s, o).None? && !IsBlank(s[o])
    ensures r == UnterminatedString <==> s[o] == '"' && NextQuote(s, o + 1) == None
  {
    LexErrorIsStuck(s, o);
    StuckNotBlank(s, o);
  }

  /** A pass fails at an offset inside the input where the reference step fails. */
  lemma LexErrorIsStuck(s: string, o: nat)
    requires Lex(s).Err? && Lex(s).error.offset == o
    ensures o < |s| && Dispatch(s, o).None?
  {
    LexErrorNoRuleMatches(s, o);
    PinNoSelection(s, o);
    SelectAgreesWithDispatch(s, o);
  }

  /**
   * A pass stops at the first position it reaches where no rule matches: the
   * table's own selections tile the input from its start up to the error offset.
   */
  lemma LexErrorReached(s: string, o: nat, r: ErrorReason)
    requires Lex(s) == Err(LexError(o, r))
    ensures exists ls :: Contiguous(ls, 0, o) && forall l :: l in ls ==> Selected(Rules, s, l)
  {
    var ls := ScanReachesError(Rules, s, 0);
    assert Contiguous(ls, 0, o) && AllSelected(Rules, s, ls);
  }

  /** A pass fails at an offset where no rule of the table matches. */
  lemma LexErrorNoRuleMatches(s: string, o: nat)
    requires Lex(s).Err? && Lex(s).error.offset == o
    ensures o < |s| && NoneMatch(Rules, s, o, |Rules|)
  {
    ScanFailsWhereNoRuleMatches(Rules, s, 0);
  }

  /** The reference step never fails at a blank, and fails at a quote exactly when no quote closes it. */
  lemma StuckNotBlank(s: string, i: nat)
    requires i < |s| && Dispatch(s, i).None?
    ensures !IsBlank(s[i])
    ensures s[i] == '"' ==> NextQuote(s, i + 1).None?
  {
  }

  /**
   * The tokens of a successful pass are exactly its emitting lexemes: each one
   * is well formed and never starts at a blank, and every emitting lexeme is a token.
   */
  lemma TokensWellFormed(s: string)
    requires Tokenize(s).Ok?
    ensures forall t :: t in Tokenize(s).value ==>
      WellFormed(s, Lexeme(Emit(t.kind), t.text, t.start)) && t.start < |s| && !IsBlank(s[t.start])
    ensures forall l :: l in Lex(s).value && l.action.Emit? ==> Token(l.action.kind, l.text, l.start) in Tokenize(s).value
  {
    LexWellFormed(s);
    EmittedFromLexemes(Lex(s).value);
    LexemesBecomeTokens(Lex(s).value);
  }

  /** The tokens are the emitting lexemes of the reference pass, and a failing pass fails where it does. */
  lemma TokenizeByDispatch(s: string)
    ensures DispatchScan(s, 0).Ok? ==> Tokenize(s) == Ok(Emitted(DispatchScan(s, 0).value))
    ensures DispatchScan(s, 0).Err? ==> Tokenize(s).Err? && Tokenize(s).error.offset == DispatchScan(s, 0).error
  {
    ScanIsDispatchScan(s, 0);
  }

  /** When the reference pass yields `ls`, the tokens are the emitting lexemes of `ls`. */
  lemma TokenizeLexemes(s: string, ls: seq<Lexeme<TokenKind>>)
    requires DispatchScan(s, 0) == Ok(ls)
    ensures Tokenize(s) == Ok(Emitted(ls))
  {
    TokenizeByDispatch(s);
  }

  /** When the reference pass stops at `o`, tokenizing fails there, for the reason the character at `o` gives. */
  lemma TokenizeFailsAt(s: string, o: nat)
    requires DispatchScan(s, 0) == Err(o)
    ensures o < |s|
    ensures Tokenize(s) == Err(LexError(o, if s[o] == '"' then UnterminatedString else UnmatchedCharacter))
  {
    ScanIsDispatchScan(s, 0);
  }

  /** One reference step over the text `t` followed by the rest of the pass. */
  lemma DispatchScanCons(s: string, i: nat, a: Action<TokenKind>, t: string, rest: seq<Lexeme<TokenKind>>)
    requires i < |s| && i + |t| <= |s| && s[i..i + |t|] == t
    requires Dispatch(s, i) == Some(Step(a, |t|)) && DispatchScan(s, i + |t|) == Ok(rest)
    ensures DispatchScan(s, i) == Ok([Lexeme(a, t, i)] + rest)
  {
    var n := |t|;
    DispatchScanAt(s, i, a, n);
    assert DispatchScan(s, i) == PrependLexeme(a, s, i, n, Ok(rest));
    PrependOk(a, s, i, t, rest);
  }

  /** A word of `n` characters at `i`, not followed by a word character, is one reference step. */
  lemma DispatchWordAt(s: string, i: nat, n: nat)
    requires i + n <= |s| && 0 < n && IsLetter(s[i])
    requires forall k :: i < k < i + n ==> IsWordChar(s[k])
    requires i + n == |s| || !IsWordChar(s[i + n])
    ensures Dispatch(s, i) == Some(Step(Emit(WordKind(s[i..i + n])), n))
  {
    WordCharRunIs(s, i + 1, n - 1);
    DispatchAtLetter(s, i, n);
  }

  /** A digit run of `n` characters at `i`, not followed by a digit, is one reference step. */
  lemma DispatchDigitsAt(s: string, i: nat, n: nat)
    requires i + n <= |s| && 0 < n
    requires forall k :: i <= k < i + n ==> IsDigit(s[k])
    requires i + n == |s| || !IsDigit(s[i + n])
    ensures Dispatch(s, i) == Some(Step(Emit(Integer), n))
  {
    DigitRunIs(s, i, n);
  }

  /** A quoted text of `n` characters at `i` with no quote inside is one reference step. */
  lemma DispatchQuotedAt(s: string, i: nat, n: nat)
    requires i + n <= |s| && 2 <= n && s[i] == '"' && s[i + n - 1] == '"'
    requires forall k :: i < k < i + n - 1 ==> s[k] != '"'
    ensures Dispatch(s, i) == Some(Step(Emit(String), n))
  {
    NextQuoteIs(s, i + 1, i + n - 1);
  }
}
