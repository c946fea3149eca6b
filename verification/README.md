# LKQL lexer and documentation coverage, in Dafny

This project models two parts of the LKQL repository:

- **The LKQL lexer** (`lkql/language/lexer.py`). It is an ordered table of 26 rules over the token kinds of the language:
  - one-character whitespace that is ignored;
  - 14 operator and punctuation literals;
  - 8 keyword literals;
  - integers, identifiers and double-quoted strings.

  Langkit applies such a table by choosing the longest match at the current offset. On a tie it takes the rule declared first. The model has three layers:
  - `LexerEngine` models that generic engine as a `Scan` over a rule table.
  - `LkqlLexer` states the LKQL table itself and `Tokenize`, which turns text into tokens or into the first lexical error.
  - `LkqlLexer` also has a hand-written reference step, `Dispatch`, that decides from the current character. It is proved to agree with the table at every offset (`SelectAgreesWithDispatch`, `ScanIsDispatchScan`). Most properties are then proved once, about the reference pass.
  - `LkqlTokenStream` states laws of the token stream as a whole:
    - the tokens follow each other in input order without overlapping, with only blanks between and around them;
    - the pass is the one tiling of the input by well-formed lexemes;
    - a blank (a space, tab, newline or carriage return) inserted where a lexeme starts, or at the end, leaves the kinds and texts of the tokens unchanged.
- **The documentation-coverage tool** of the user manual (`user_manual/source/lkql_doc_class.py`), in module `LkqlDocClass`. It covers:
  - the class-to-direct-subclasses map;
  - the recursive "is documented" test, where a class counts as documented if it is flagged, or if it has at least one direct subclass and all of them are documented;
  - the `lkql_doc_class` directive, which flags a class or raises `LKQL class not found`;
  - the coverage report, which lists every class that is neither a list class nor documented.

The lexer is pure code, so it is modelled with datatypes, functions and lemmas. The subclass map and the report are built by loops in the source, so they are methods with loop invariants. Each method is proved against a specification function. The directive updates the Sphinx environment, so it is a method of a class (`DocEnv`) whose fields are the recorded class list and the set of flagged classes.

`Wrappers` holds `Option` and `Result`.

A failed tokenization reports the first position the left-to-right pass reaches where no rule matches. It also reports a reason:
- `UnterminatedString` when that character is a double quote, which has no closing quote after it;
- `UnmatchedCharacter` otherwise.

The rule table itself never produces an error token. Langkit's recovery after an error is outside this model (see Left out).

## Model

| member | source | states |
|---|---|---|
| LexerEngine.DigitRun | lkql/language/lexer.py:60 | the measured run stays inside the input and stops at a non-digit or at the end |
| LexerEngine.DigitRunDigits | lkql/language/lexer.py:60 | every character of the measured run is a digit |
| LexerEngine.DigitRunIs | lkql/language/lexer.py:60 | any digit run that stops before a non-digit or at the end has exactly the measured length |
| LexerEngine.WordCharRun | lkql/language/lexer.py:61 | the measured run of `[A-Za-z0-9_]` stays inside the input and stops at another character or at the end |
| LexerEngine.WordCharRunChars | lkql/language/lexer.py:61 | every character of the measured run is a letter, a digit or `_` |
| LexerEngine.WordCharRunIs | lkql/language/lexer.py:61 | any maximal run of word characters has exactly the measured length |
| LexerEngine.NextQuote | lkql/language/lexer.py:62 | a found index is at or after the start and holds a double quote |
| LexerEngine.NextQuoteSkips | lkql/language/lexer.py:62 | no quote comes before the one found, and there is none at all when none is found |
| LexerEngine.NextQuoteIs | lkql/language/lexer.py:62 | the first quote after the start is the one found |
| LexerEngine.LongestInShape | lkql/language/lexer.py:60-62 | each hand-written recogniser returns a prefix its pattern accepts, and no longer prefix is accepted |
| LexerEngine.ShapeLen | lkql/language/lexer.py:37-62 | the hand-written recognisers of the blank, integer, identifier and string patterns measure a prefix that stays inside the input; `LongestInShape` proves it is the longest accepted one |
| LexerEngine.MatchLen | lkql/language/lexer.py:36-63 | what a rule's matcher, a literal or a pattern, consumes at an offset stays inside the input; `MatchLenIsLongest` proves it is the longest accepted prefix |
| LexerEngine.MatchLenIsLongest | lkql/language/lexer.py:36-63 | for a literal or a pattern, the match length is accepted and is the longest accepted prefix |
| LexerEngine.MatchNeedsStart | lkql/language/lexer.py:36-63 | a rule matches only where the current character can start one of its words |
| LexerEngine.SelectAmong | lkql/language/lexer.py:36-63 | the choice among the first n rules names one of them and consumes at least one character inside the input; `SelectAmongIsBest` proves it is the longest match, earliest on ties |
| LexerEngine.SelectAmongIsBest | lkql/language/lexer.py:36-63 | scanning the first n rules finds nothing exactly when none matches; otherwise it finds the longest match, with the earliest rule on ties |
| LexerEngine.Select | lkql/language/lexer.py:36-63 | the rule the table picks at an offset is one of its rules and consumes at least one character inside the input; `SelectIsBest` states the policy |
| LexerEngine.SelectIsBest | lkql/language/lexer.py:36-63 | the table selects nothing exactly when no rule matches; otherwise it picks the longest match, and the earliest rule among equally long matches |
| LexerEngine.SelectionUnique | lkql/language/lexer.py:36-63 | the selection policy admits one choice only, so lexing is deterministic |
| LexerEngine.Scan | lkql/language/lexer.py:36-63 | the single left-to-right pass fails only at an offset inside the input, at or after its start; `ScanSpellsInput`, `ScanContiguous`, `ScanSelects` and `ScanReachesError` state the rest |
| LexerEngine.ScanAt | lkql/language/lexer.py:36-63 | where rule k is selected over n characters, the scan is that rule's lexeme in front of the scan after it |
| LexerEngine.ScanStep | lkql/language/lexer.py:36-63 | a successful scan begins with the selected lexeme, followed by the successful scan of the rest |
| LexerEngine.ScanSpellsInput | lkql/language/lexer.py:36-63 | the lexeme texts of a successful scan concatenate back to the input |
| LexerEngine.ScanContiguous | lkql/language/lexer.py:36-63 | the lexemes of a successful scan cover the input from start to end without gaps or overlaps |
| LexerEngine.ContiguousCons | lkql/language/lexer.py:36-63 | a lexeme at i, followed by lexemes covering the text after it, covers the text from i |
| LexerEngine.ScanSelects | lkql/language/lexer.py:36-63 | every lexeme of a successful scan is the table's selection at its own start offset |
| LexerEngine.SelectedCons | lkql/language/lexer.py:36-63 | a selected lexeme in front of selected lexemes that tile the input up to o tiles it from its own start up to o |
| LexerEngine.ScanReachesError | lkql/language/lexer.py:36-63 | the table's own selections tile the input from the start of a failed scan up to its error offset, so the error is the first stuck position the pass reaches |
| LexerEngine.ScanFailsWhereNoRuleMatches | lkql/language/lexer.py:36-63 | a scan fails only at an offset where no rule of the table matches |
| LexerEngine.PrependOk | lkql/language/lexer.py:36-63 | a lexeme placed in front of a successful rest is the lexeme over exactly its text |
| LexerEngine.Emitted | lkql/language/lexer.py:37 | dropping the lexemes of ignoring rules leaves no more tokens than lexemes; `EmittedFromLexemes` and `LexemesBecomeTokens` state which ones, `EmittedInOrder` their order |
| LexerEngine.EmittedFromLexemes | lkql/language/lexer.py:37 | every token comes from an emitting lexeme with the same kind, text and start |
| LexerEngine.LexemesBecomeTokens | lkql/language/lexer.py:37 | every emitting lexeme becomes a token |
| LexerEngine.EmittedCons | lkql/language/lexer.py:37 | an emitting lexeme adds its token in front; an ignored lexeme adds nothing |
| LexerEngine.EmittedInOrder | lkql/language/lexer.py:36-63 | the tokens of lexemes that tile offsets i to e lie between i and e, and each ends at or before the start of every later one |
| LexerEngine.ContiguousBound | lkql/language/lexer.py:36-63 | a tiling from i to e has i at or before e |
| LexerEngine.ContiguousStartsFrom | lkql/language/lexer.py:36-63 | every lexeme of a tiling from i starts at or after i |
| LexerEngine.ContiguousCovers | lkql/language/lexer.py:36-63 | every offset from i up to e lies inside some lexeme of a tiling from i to e |
| LexerEngine.KindsAndTexts | lkql/language/lexer.py:36-63 | the kinds and texts of a token stream, one pair per token, without offsets |
| LexerEngine.Shift | lkql/language/lexer.py:36-63 | lexemes moved d characters to the right, one for one |
| LexerEngine.ShiftFirst | lkql/language/lexer.py:36-63 | the first moved lexeme is the first lexeme moved, in front of the moved rest |
| LexerEngine.EmittedShift | lkql/language/lexer.py:37 | moving lexemes leaves the kinds and texts of their tokens unchanged |
| LkqlLexer.RuleTable | lkql/language/lexer.py:36-63 | the table has 26 rules in source order: the whitespace rule first, then 22 literal rules, each spelling the literal its kind declares and being a keyword rule exactly from position 15 on, then the integer, identifier and string patterns |
| LkqlLexer.OperatorRules | lkql/language/lexer.py:38-51 | rules 1 to 14 are the literal operators and punctuations, each spelling its kind's literal, none of them a keyword |
| LkqlLexer.SymbolKindsAreWords | lkql/language/lexer.py:5-32 | the kinds declared with a symbol are exactly those whose lexemes are words, identifiers and keywords; every other token is a number, a string or a symbol |
| LkqlLexer.KeywordAt | lkql/language/lexer.py:52-59 | every keyword position names a keyword kind |
| LkqlLexer.SpellsIsEquality | lkql/language/lexer.py:52-59 | the character-by-character comparison used for keyword lookup is string equality |
| LkqlLexer.KeywordFrom | lkql/language/lexer.py:52-59 | a word found by the lookup is a keyword kind |
| LkqlLexer.KeywordOf | lkql/language/lexer.py:52-59 | a word found by the lookup is a keyword kind |
| LkqlLexer.KeywordFromSpells | lkql/language/lexer.py:52-59 | a keyword found by the lookup is spelled by the word looked up |
| LkqlLexer.KeywordOfSound | lkql/language/lexer.py:52-59 | the keyword a word spells has that word as its literal |
| LkqlLexer.KeywordOfComplete | lkql/language/lexer.py:52-59 | every keyword's literal is found as that keyword |
| LkqlLexer.Dispatch | lkql/language/lexer.py:36-63 | a reference step consumes at least one character and stays inside the input |
| LkqlLexer.PinSelection | lkql/language/lexer.py:36-63 | a choice that meets the selection policy is what the table selects |
| LkqlLexer.PinNoSelection | lkql/language/lexer.py:36-63 | where no rule matches, the table selects nothing |
| LkqlLexer.BlankCandidates | lkql/language/lexer.py:37 | only the whitespace rule can start with a blank |
| LkqlLexer.EqualsCandidates | lkql/language/lexer.py:39-40 | only the `=` and `==` rules can start with `=` |
| LkqlLexer.PairCandidates | lkql/language/lexer.py:41-43 | only the Neq, And and Or literals can start with their first characters `!`, `&` and the vertical bar |
| LkqlLexer.DigitCandidates | lkql/language/lexer.py:60 | only the integer rule can start with a digit |
| LkqlLexer.LetterCandidates | lkql/language/lexer.py:52-61 | only the keyword rules and the identifier rule can start with a letter |
| LkqlLexer.QuoteCandidates | lkql/language/lexer.py:62 | only the string rule can start with a double quote |
| LkqlLexer.NoCandidates | lkql/language/lexer.py:36-63 | no rule can start with a character outside the table's first characters |
| LkqlLexer.PunctuationRules | lkql/language/lexer.py:38-51 | each one-character operator or punctuation has its own literal rule, and no other rule starts with it |
| LkqlLexer.KeywordRule | lkql/language/lexer.py:52-59 | keyword rule j is a literal word that spells the keyword it emits |
| LkqlLexer.OnlyCandidatesMatch | lkql/language/lexer.py:36-63 | rules that cannot start with the current character do not match there |
| LkqlLexer.AgreeOnBlank | lkql/language/lexer.py:37 | at a blank, the table and the reference step both ignore one character |
| LkqlLexer.AgreeOnEquals | lkql/language/lexer.py:39-40 | at `=`, both take `==` when it is there (the longer literal wins over the earlier `=`) and `=` otherwise |
| LkqlLexer.AgreeOnPairOnly | lkql/language/lexer.py:41-43 | at `!`, `&` or the vertical bar, both take the two-character operator, or both fail |
| LkqlLexer.AgreeOnPunctuation | lkql/language/lexer.py:38-51 | at a one-character punctuation, both emit it over one character |
| LkqlLexer.AgreeOnDigit | lkql/language/lexer.py:60 | at a digit, both emit an integer over the whole digit run |
| LkqlLexer.AgreeOnQuote | lkql/language/lexer.py:62 | at a quote, both emit a string up to the next quote, or both fail |
| LkqlLexer.AgreeOnOther | lkql/language/lexer.py:36-63 | at a character that starts no rule, both fail |
| LkqlLexer.KeywordWithinWord | lkql/language/lexer.py:52-61 | a keyword literal never matches more than the identifier pattern at the same offset |
| LkqlLexer.OnlyWordRulesMatch | lkql/language/lexer.py:52-61 | at a letter only the keyword and identifier rules match |
| LkqlLexer.KeywordRuleLen | lkql/language/lexer.py:52-61 | a keyword rule matches at most the whole word, and all of it only when it spells the word |
| LkqlLexer.WordRuleLens | lkql/language/lexer.py:52-61 | the identifier rule matches the whole word, and the keyword rules match no more |
| LkqlLexer.EarlierKeywordsShorter | lkql/language/lexer.py:52-59 | when one keyword spells the whole word, every keyword declared before it matches less |
| LkqlLexer.SelectKeyword | lkql/language/lexer.py:52-61 | a word that spells a keyword selects that keyword's rule over the identifier rule (keyword priority) |
| LkqlLexer.KeywordMissesWord | lkql/language/lexer.py:52-61 | on a word that spells no keyword, every keyword literal matches less than the word |
| LkqlLexer.SelectIdentifier | lkql/language/lexer.py:52-61 | a word that spells no keyword selects the identifier rule over the whole word (maximal munch, as for `letx`) |
| LkqlLexer.AgreeOnLetter | lkql/language/lexer.py:52-61 | at a letter, the table and the reference step agree |
| LkqlLexer.AgreeOnIdentifier | lkql/language/lexer.py:61 | at a word that spells no keyword, both emit an identifier over the word |
| LkqlLexer.AgreeOnKeyword | lkql/language/lexer.py:52-59 | at a word that spells a keyword, both emit that keyword over the word |
| LkqlLexer.KeywordRuleFor | lkql/language/lexer.py:52-59 | the rule of a spelled keyword has the word as its literal and emits that keyword |
| LkqlLexer.AgreeFrom | lkql/language/lexer.py:36-63 | selecting rule k over n characters agrees with a step taking rule k's action over n characters |
| LkqlLexer.SelectAgreesWithDispatch | lkql/language/lexer.py:36-63 | at every offset, the rule table and the reference step fail together or take the same action over the same length |
| LkqlLexer.Lex | lkql/language/lexer.py:36-63 | a failure lies inside the input, and its reason is an unterminated string exactly when the failing character is a quote |
| LkqlLexer.Tokenize | lkql/language/lexer.py:36-63 | tokenizing succeeds exactly when the lexeme pass does, and otherwise fails with the same offset and reason |
| LkqlLexer.ScanIsDispatchScan | lkql/language/lexer.py:36-63 | the table-driven pass and the reference pass produce the same lexemes and fail at the same offset |
| LkqlLexer.ScanStepNone | lkql/language/lexer.py:36-63 | where the reference step fails, both passes fail at that offset |
| LkqlLexer.ScanStepSome | lkql/language/lexer.py:36-63 | one agreeing step extends agreement of the two passes backwards |
| LkqlLexer.DispatchScanAt | lkql/language/lexer.py:36-63 | the reference pass is the step's lexeme in front of the pass after it |
| LkqlLexer.WordKind | lkql/language/lexer.py:52-61 | a word's kind is the identifier kind or a keyword kind |
| LkqlLexer.WordShape | lkql/language/lexer.py:52-61 | a word lexeme is a keyword spelling its literal, or an identifier that spells no keyword |
| LkqlLexer.WordWellFormed | lkql/language/lexer.py:52-61 | a maximal word makes a well-formed lexeme of its word kind |
| LkqlLexer.DispatchAtLetter | lkql/language/lexer.py:52-61 | at a letter, the step takes the whole word and emits the keyword it spells or an identifier |
| LkqlLexer.WordRunInShape | lkql/language/lexer.py:61 | a letter followed by word characters is accepted by the identifier pattern |
| LkqlLexer.WordWellFormedAt | lkql/language/lexer.py:52-61 | a maximal word at an offset makes a well-formed lexeme |
| LkqlLexer.DispatchWordShape | lkql/language/lexer.py:52-61 | the lexeme a step makes at a letter is well formed |
| LkqlLexer.StepWellFormed | lkql/language/lexer.py:36-63 | a step equal to one with a well-formed lexeme makes that same lexeme |
| LkqlLexer.DispatchRunShape | lkql/language/lexer.py:60-62 | the lexeme a step makes at a digit or a quote is a maximal integer or a whole string literal with its quotes |
| LkqlLexer.SymbolWellFormed | lkql/language/lexer.py:38-51 | a literal operator at an offset makes a well-formed lexeme whose text is the literal |
| LkqlLexer.DispatchSymbolShape | lkql/language/lexer.py:37-51 | the lexeme a step makes at a blank, an operator or a punctuation is well formed |
| LkqlLexer.PairShape | lkql/language/lexer.py:39-43 | the lexeme a step makes at `=`, `!`, `&` or the vertical bar is well formed |
| LkqlLexer.DispatchShape | lkql/language/lexer.py:36-63 | every lexeme a step makes lies in the input, is non-empty, has its kind's shape, is maximal, and is ignored exactly at a blank |
| LkqlLexer.DispatchShapeAt | lkql/language/lexer.py:36-63 | the lexeme of a step that takes a over n characters is well formed |
| LkqlLexer.DispatchScanWellFormed | lkql/language/lexer.py:36-63 | every lexeme of a successful reference pass is well formed and starts at or after the pass's start |
| LkqlLexer.PrependWellFormed | lkql/language/lexer.py:36-63 | a well-formed lexeme in front of well-formed later lexemes keeps them all well formed |
| LkqlLexer.DispatchFails | lkql/language/lexer.py:36-63 | the step fails exactly at a character that starts no lexeme, a lone `!`, `&` or vertical bar, or a quote with no closing quote |
| LkqlLexer.LexWellFormed | lkql/language/lexer.py:36-63 | every lexeme of a successful pass is well formed |
| LkqlLexer.LexReconstructsInput | lkql/language/lexer.py:36-63 | the lexemes of a successful pass cover the input contiguously, and their texts spell the input |
| LkqlLexer.LexErrorAt | lkql/language/lexer.py:36-63 | a failure is at an offset in the input where the step fails and that is not a blank; the reason is an unterminated string exactly for a quote with no closing quote |
| LkqlLexer.LexErrorIsStuck | lkql/language/lexer.py:36-63 | a pass fails at an offset where the reference step fails |
| LkqlLexer.LexErrorReached | lkql/language/lexer.py:36-63 | a failed pass got to its error offset through the table's own selections, which tile the input from 0 up to that offset |
| LkqlLexer.LexErrorNoRuleMatches | lkql/language/lexer.py:36-63 | a pass fails at an offset where no rule of the table matches |
| LkqlLexer.StuckNotBlank | lkql/language/lexer.py:37 | the step never fails at a blank, and fails at a quote only when no quote closes it |
| LkqlLexer.TokensWellFormed | lkql/language/lexer.py:37 | every token is a well-formed emitting lexeme that does not start at a blank, and every emitting lexeme is a token |
| LkqlLexer.TokenizeByDispatch | lkql/language/lexer.py:36-63 | the tokens are the emitting lexemes of the reference pass, and a failure is at the reference pass's failing offset |
| LkqlLexer.TokenizeLexemes | lkql/language/lexer.py:36-63 | when the reference pass yields some lexemes, the tokens are their emitting ones |
| LkqlLexer.TokenizeFailsAt | lkql/language/lexer.py:36-63 | when the reference pass stops at o, tokenizing fails at o for the reason the character at o gives |
| LkqlLexer.DispatchScanCons | lkql/language/lexer.py:36-63 | one step over a text, followed by a successful rest, puts that lexeme in front of the rest |
| LkqlLexer.DispatchWordAt | lkql/language/lexer.py:52-61 | a maximal word is one step emitting its word kind |
| LkqlLexer.DispatchDigitsAt | lkql/language/lexer.py:60 | a maximal digit run is one step emitting an integer |
| LkqlLexer.DispatchQuotedAt | lkql/language/lexer.py:62 | a quoted text with no quote inside is one step emitting a string |
| LkqlTokenStream.TokensInInputOrder | lkql/language/lexer.py:36-63 | the tokens of a successful pass lie in the input and follow each other in input order without overlapping |
| LkqlTokenStream.UncoveredIsBlank | lkql/language/lexer.py:37 | every character of the input that no token covers is a blank |
| LkqlTokenStream.EmittingCovers | lkql/language/lexer.py:37 | the token of an emitting lexeme covers every offset the lexeme spans |
| LkqlTokenStream.GapsBetweenTokensAreBlank | lkql/language/lexer.py:37 | between two consecutive tokens there are only blanks |
| LkqlTokenStream.InsertBlank | lkql/language/lexer.py:37 | the input with the blank b (a space, tab, newline or carriage return) put in at p: the characters before p stay, b is at p, and the rest moves one to the right |
| LkqlTokenStream.WithBlankAt | lkql/language/lexer.py:37 | the lexemes with one ignored lexeme over the blank b added at p |
| LkqlTokenStream.WithBlankFirst | lkql/language/lexer.py:37 | when no lexeme starts before p, the blank comes first and every lexeme moves right |
| LkqlTokenStream.WithBlankAfterFirst | lkql/language/lexer.py:37 | a first lexeme starting before p stays first |
| LkqlTokenStream.WellFormedLocal | lkql/language/lexer.py:36-63 | whether a lexeme is well formed depends only on its own text and on how the character after it ends it |
| LkqlTokenStream.DispatchComplete | lkql/language/lexer.py:36-63 | the reference step recognises every well-formed lexeme: at its start it takes that lexeme's action over exactly its text (the converse of `DispatchShape`) |
| LkqlTokenStream.TextInInput | lkql/language/lexer.py:36-63 | each character of a well-formed lexeme is the input's character at the same place |
| LkqlTokenStream.DigitsComplete | lkql/language/lexer.py:60 | a well-formed integer is one reference step |
| LkqlTokenStream.QuotedComplete | lkql/language/lexer.py:62 | a well-formed string literal is one reference step |
| LkqlTokenStream.WordComplete | lkql/language/lexer.py:52-61 | a well-formed identifier or keyword is one reference step of that kind |
| LkqlTokenStream.WordStep | lkql/language/lexer.py:52-61 | a maximal word whose word kind is k is one reference step emitting k |
| LkqlTokenStream.WordInInput | lkql/language/lexer.py:52-61 | a well-formed word lexeme is a letter followed by word characters in the input, not followed by another word character |
| LkqlTokenStream.KeywordIsWord | lkql/language/lexer.py:52-59 | every keyword's literal is accepted by the identifier pattern |
| LkqlTokenStream.SymbolComplete | lkql/language/lexer.py:37-51 | a well-formed operator or punctuation is one reference step |
| LkqlTokenStream.CopiedAfterBlank | lkql/language/lexer.py:37 | a lexeme at or after the inserted blank reappears one character further right, followed alike |
| LkqlTokenStream.CopiedBeforeBlank | lkql/language/lexer.py:37 | a lexeme ending at or before the inserted blank stays in place, followed alike |
| LkqlTokenStream.LexesCons | lkql/language/lexer.py:36-63 | a well-formed lexeme in front of a tiling from its end is a tiling from its start |
| LkqlTokenStream.LexesTail | lkql/language/lexer.py:36-63 | the rest of a tiling after its first lexeme tiles on from that lexeme's end |
| LkqlTokenStream.HeadFits | lkql/language/lexer.py:36-63 | the first lexeme of a tiling is non-empty and lies in the input |
| LkqlTokenStream.HeadStep | lkql/language/lexer.py:36-63 | the first lexeme of a tiling is the reference step at its start |
| LkqlTokenStream.ScanTakesHead | lkql/language/lexer.py:36-63 | where the reference pass returns the rest of a tiling, it returns the whole tiling from its first lexeme |
| LkqlTokenStream.LexesScan | lkql/language/lexer.py:36-63 | every tiling of the input by well-formed lexemes is what the reference pass returns |
| LkqlTokenStream.LexCharacterized | lkql/language/lexer.py:36-63 | the pass succeeds with a lexeme sequence exactly when that sequence tiles the input with well-formed lexemes, so the tiling is unique |
| LkqlTokenStream.ShiftedWellFormed | lkql/language/lexer.py:37 | a lexeme at or after the inserted blank is well formed one character further right |
| LkqlTokenStream.KeptWellFormed | lkql/language/lexer.py:37 | a lexeme ending at or before the inserted blank stays well formed |
| LkqlTokenStream.ShiftedHead | lkql/language/lexer.py:37 | the first lexeme moved right, in front of the moved rest, tiles the longer input |
| LkqlTokenStream.LexesAfterBlank | lkql/language/lexer.py:37 | a tiling at or after the inserted blank tiles the longer input one character further right |
| LkqlTokenStream.BlankWellFormed | lkql/language/lexer.py:37 | the inserted blank, whichever of the four it is, is a well-formed ignored lexeme |
| LkqlTokenStream.StartsAtRest | lkql/language/lexer.py:36-63 | a lexeme starting at p after the first lexeme of a tiling starts at p in its rest, and the first lexeme ends at or before p |
| LkqlTokenStream.BlankHead | lkql/language/lexer.py:37 | at the inserted blank, the blank in front of the tiling moved right tiles the longer input |
| LkqlTokenStream.KeptHead | lkql/language/lexer.py:37 | a first lexeme ending at or before the blank stays in front of the rest with the blank |
| LkqlTokenStream.LexesBeforeBlank | lkql/language/lexer.py:37 | a tiling in which a lexeme starts at p, or which ends at p, tiles the longer input once the blank is put in at p |
| LkqlTokenStream.EmittedWithBlank | lkql/language/lexer.py:37 | the added blank lexeme is ignored: the kinds and texts of the tokens stay the same |
| LkqlTokenStream.BlankInsertion | lkql/language/lexer.py:37 | a space, tab, newline or carriage return inserted where a lexeme starts, or at the end, keeps the pass successful, adds exactly one ignored lexeme, and leaves the kinds and texts of the tokens unchanged |
| LkqlExamples.LetBindingTail | lkql/language/lexer.py:37-60 | `let x = 1` from offset 5 gives blank, `=`, blank, `1` |
| LkqlExamples.LetBindingMiddle | lkql/language/lexer.py:37-61 | `let x = 1` from offset 3 gives blank, `x`, blank, `=`, blank, `1` |
| LkqlExamples.LetBindingLexemes | lkql/language/lexer.py:36-63 | all the lexemes of `let x = 1`, blanks included |
| LkqlExamples.LetBinding | lkql/language/lexer.py:36-63 | `let x = 1` gives the tokens Let, Identifier, Eq and Integer at offsets 0, 4, 6 and 8 |
| LkqlExamples.EqualityLexemes | lkql/language/lexer.py:36-63 | the lexemes of `x == 2` |
| LkqlExamples.Equality | lkql/language/lexer.py:39-40 | `x == 2` gives one EqEq token and no Eq |
| LkqlExamples.PrintStringLexemes | lkql/language/lexer.py:36-63 | the lexemes of `print "hi"` |
| LkqlExamples.PrintString | lkql/language/lexer.py:57-62 | `print "hi"` gives Print and a String whose text keeps its quotes |
| LkqlExamples.AndTrueWord | lkql/language/lexer.py:37-58 | `1 && true` from offset 4 gives a blank and the keyword `true` |
| LkqlExamples.AndTrueTail | lkql/language/lexer.py:37-58 | `1 && true` from offset 2 gives `&&`, a blank and `true` |
| LkqlExamples.AndTrueLexemes | lkql/language/lexer.py:36-63 | the lexemes of `1 && true` |
| LkqlExamples.AndTrue | lkql/language/lexer.py:36-63 | `1 && true` gives Integer, And and TrueLit |
| LkqlExamples.KeywordPrefix | lkql/language/lexer.py:52-61 | `letx` is one identifier, not `let` followed by `x` |
| LkqlExamples.DigitsThenLetter | lkql/language/lexer.py:60-61 | `1a` is an integer followed by an identifier |
| LkqlExamples.UnterminatedQuote | lkql/language/lexer.py:62 | `"abc` fails at offset 0 as an unterminated string |
| LkqlExamples.StuckAfterString | lkql/language/lexer.py:36-63 | `"@" !` fails at offset 4 as an unmatched character: the string rule consumes the `@`, so the pass first gets stuck at the lone `!` |
| LkqlExamples.LoneCharacter | lkql/language/lexer.py:36-63 | `@`, `_` and a lone `!`, `&` or vertical bar fail at offset 0 as an unmatched character |
| LkqlDocClass.SubclassesIn | user_manual/source/lkql_doc_class.py:30-33 | the listed classes are classes of the list, other than the root, whose base is the given class |
| LkqlDocClass.SubclassesInMembers | user_manual/source/lkql_doc_class.py:30-33 | a class is listed exactly when it is in the list, is not the root, and has the given direct base |
| LkqlDocClass.Subclasses | user_manual/source/lkql_doc_class.py:25-34 | the list of direct subclasses of a class, in module order; `SubclassesMembers`, `SubclassesPartition` and `ComputeSubclasses` characterise it |
| LkqlDocClass.SubclassesMembers | user_manual/source/lkql_doc_class.py:25-34 | the direct subclasses of c are exactly the non-root classes whose `__base__` is c |
| LkqlDocClass.GroupedPrefix | user_manual/source/lkql_doc_class.py:31-33 | one more class appends itself to its base's list, and the root changes nothing |
| LkqlDocClass.GroupedLookup | user_manual/source/lkql_doc_class.py:30-34 | the built map holds, under every class, its direct subclasses in module order |
| LkqlDocClass.ComputeSubclasses | user_manual/source/lkql_doc_class.py:25-34 | the loop's dictionary gives, for every class, its direct subclasses in module order, and an empty list for a missing key |
| LkqlDocClass.SubclassesInOnce | user_manual/source/lkql_doc_class.py:31-33 | among distinct classes, a class occurs in a subclass list once if the list is its base's, and never otherwise |
| LkqlDocClass.SubclassesPartition | user_manual/source/lkql_doc_class.py:25-34 | every non-root class is listed exactly once, under its own base; the root is listed nowhere |
| LkqlDocClass.Flagged | user_manual/source/lkql_doc_class.py:46 | the `documented` attribute as `getattr` reads it, set on the class or inherited from an ancestor; `FlaggedMonotone` and `FlagInherited` state its properties |
| LkqlDocClass.IsListClass | user_manual/source/lkql_doc_class.py:88 | `LKQLNodeBaseList` or a descendant of it; `ReportUndocumented` uses it to skip list classes |
| LkqlDocClass.IsDocumented | user_manual/source/lkql_doc_class.py:37-50 | flagged, or with at least one direct subclass and all of them documented; `UndocumentedIffPath` characterises it by chains of unflagged classes down to a leaf |
| LkqlDocClass.FlaggedIsDocumented | user_manual/source/lkql_doc_class.py:45-46 | a flagged class is documented whatever its subclasses |
| LkqlDocClass.UnflaggedLeafUndocumented | user_manual/source/lkql_doc_class.py:44-50 | an unflagged class without subclasses is not documented |
| LkqlDocClass.UnflaggedInnerDocumented | user_manual/source/lkql_doc_class.py:44-50 | an unflagged class with subclasses is documented exactly when all its direct subclasses are |
| LkqlDocClass.FlagInherited | user_manual/source/lkql_doc_class.py:46 | the flag is a class attribute, so a class whose base is flagged is documented |
| LkqlDocClass.FlaggedMonotone | user_manual/source/lkql_doc_class.py:46 | flagging more classes keeps every flagged class flagged |
| LkqlDocClass.DocumentedMonotone | user_manual/source/lkql_doc_class.py:37-50 | flagging more classes never makes a documented class undocumented |
| LkqlDocClass.PathUndocumented | user_manual/source/lkql_doc_class.py:37-50 | a class heading a chain of unflagged classes down to a leaf is undocumented |
| LkqlDocClass.UndocumentedHasPath | user_manual/source/lkql_doc_class.py:37-50 | every undocumented class heads such a chain down to an unflagged leaf |
| LkqlDocClass.PathCons | user_manual/source/lkql_doc_class.py:37-50 | an unflagged direct base extends such a chain upwards |
| LkqlDocClass.UndocumentedIffPath | user_manual/source/lkql_doc_class.py:37-50 | a class is undocumented exactly when some chain of unflagged classes leads from it down to a leaf |
| LkqlDocClass.UndocumentedIn | user_manual/source/lkql_doc_class.py:87-91 | a class is reported exactly when it is listed, is not a list class, and is not documented |
| LkqlDocClass.UndocumentedInPrefix | user_manual/source/lkql_doc_class.py:87-91 | one more class adds itself to the report when it is neither a list class nor documented |
| LkqlDocClass.ReportUndocumented | user_manual/source/lkql_doc_class.py:81-93 | the loop reports, in module order, exactly the classes that are neither list classes (`LKQLNodeBaseList` and below) nor documented |
| LkqlDocClass.FlagShrinksReport | user_manual/source/lkql_doc_class.py:81-93 | flagging one more class removes it from the report and adds nothing |
| LkqlDocClass.DocEnv.constructor | user_manual/source/lkql_doc_class.py:68-69 | a fresh environment has no recorded list and no flagged class |
| LkqlDocClass.DocEnv.Run | user_manual/source/lkql_doc_class.py:62-78 | for a known class, the directive records it, flags it and returns no node, and the class is then documented; for an unknown name it raises `LKQL class not found: <name>`, flags nothing, and leaves the (possibly new) recorded list unchanged; every flagged name stays a class of the module and is documented |
| LkqlDocClass.RunDocuments | user_manual/source/lkql_doc_class.py:72-74 | after the directive flags a class, that class is documented and the report only shrinks |

## Left out

- Langkit's own lexer machinery is not part of this model: the regular-expression engine, the token and symbol tables, and the end-of-input token. The three patterns are hand-written recognisers. `LongestInShape` proves them against the words each pattern accepts.
- Error recovery: langkit emits an error token and goes on lexing. `Tokenize` stops at the first position the left-to-right pass reaches where no rule matches, and reports that offset and a reason.
- `WithText` and `WithSymbol` only decide whether langkit interns a token's text as a symbol. The model records the distinction (`WithSymbol`, which `SymbolKindsAreWords` ties to the word lexemes) and keeps every token's text, so interning is not modelled.
- Blanks are transparent only where they are inserted. `BlankInsertion` proves that a space, tab, newline or carriage return put in where a lexeme starts changes no token kind or text. Removing a blank is not transparent: `let x` gives `let` and `x`, but `letx` is one identifier (`KeywordPrefix`), and `1 2` gives two integers, but `12` gives one.
- Line and column numbers are not modelled. Token positions are character offsets into the input.
- Unicode is not modelled. Characters are compared as code points, and the character classes of the patterns are the ASCII ranges they name.
- The reflection that collects `lkql_classes` from the `liblkqllang` module (user_manual/source/lkql_doc_class.py:18-22) is replaced by a `Hierarchy` value. It lists the node classes in module order with each one's direct base. It is assumed free of cycles, which holds for Python classes. It is also assumed free of duplicates, an assumption about the module's namespace: an alias in the module would list a class twice, and the source would then append it twice to its base's list (lines 31-33).
- `lru_cache`: the model recomputes documentation status from the current flags every time. The cache in the source would keep a verdict computed before a later directive flagged more classes.
- DocEnv.Run: only the hierarchy's node classes are accepted, and a name outside the hierarchy records nothing. `getattr` in the source also finds module attributes that are not node classes. For one that accepts a new attribute, the source records it and sets the flag on it. For one that refuses the assignment, such as `__name__`, the source records it at line 73, the assignment at line 74 raises `AttributeError`, and the directive raises `ExtensionError` with the recorded list already grown. The `AttributeError` that the source chains into the `ExtensionError` is dropped.
- Sphinx plumbing is not modelled: `setup`, the target node and its serial number, and the directive's argument parsing. The report is returned as a sequence instead of being printed. Its exception handler with the traceback (lines 92-93) is left out, because nothing in the modelled report can raise.
