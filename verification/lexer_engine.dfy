/**
 * The matching semantics a langkit rule table is written for: an ordered list of
 * rules, each an exact literal or a character-class pattern bound to an action
 * (emit a token of some kind, or ignore the text). At every position the rule
 * with the longest match wins; on equal lengths the rule declared first wins.
 * The engine is generic in the token kind `K`; the LKQL table instantiates it.
 */
module LexerEngine {
  import opened Wrappers

  predicate IsDigit(c: char) { '0' <= c <= '9' }
  predicate IsLetter(c: char) { 'A' <= c <= 'Z' || 'a' <= c <= 'z' }
  predicate IsWordChar(c: char) { IsLetter(c) || IsDigit(c) || c == '_' }
  predicate IsBlank(c: char) { c == ' ' || c == '\t' || c == '\n' || c == '\r' }

  /** The character-class shapes that rule-table patterns use. */
  datatype Shape =
    | Blank   // [ \t\n\r]
    | Digits  // [0-9]+
    | Word    // [A-Za-z][A-Za-z0-9_]*
    | Quoted  // "[^"]*"

  datatype Matcher = Literal(text: string) | Pattern(shape: Shape)

  datatype Action<K> = Emit(kind: K) | Ignore

  datatype Rule<K> = Rule(matcher: Matcher, action: Action<K>)

  /** The words a shape accepts as a whole. */
  predicate InShape(p: Shape, w: string) {
    match p
    case Blank => |w| == 1 && IsBlank(w[0])
    case Digits => |w| >= 1 && forall k :: 0 <= k < |w| ==> IsDigit(w[k])
    case Word => |w| >= 1 && IsLetter(w[0]) && forall k :: 1 <= k < |w| ==> IsWordChar(w[k])
    case Quoted =>
      |w| >= 2 && w[0] == '"' && w[|w| - 1] == '"' && forall k :: 0 < k < |w| - 1 ==> w[k] != '"'
  }

  /** The words a matcher accepts as a whole. */
  predicate Accepts(m: Matcher, w: string) {
    match m
    case Literal(t) => w == t
    case Pattern(p) => InShape(p, w)
  }

  /** The matcher accepts the `n` characters of `s` that start at `i`. */
  predicate AcceptsAt(m: Matcher, s: string, i: nat, n: nat) {
    i + n <= |s| && Accepts(m, s[i..i + n])
  }

  /** Length of the run of digits starting at `i`. */
  function DigitRun(s: string, i: nat): (n: nat)
    requires i <= |s|
    ensures i + n <= |s|
    ensures i + n == |s| || !IsDigit(s[i + n])
    decreases |s| - i
  {
    if i < |s| && IsDigit(s[i]) then 1 + DigitRun(s, i + 1) else 0
  }

  /** Length of the run of letters, digits and underscores starting at `i`. */
  function WordCharRun(s: string, i: nat): (n: nat)
    requires i <= |s|
    ensures i + n <= |s|
    ensures i + n == |s| || !IsWordChar(s[i + n])
    decreases |s| - i
  {
    if i < |s| && IsWordChar(s[i]) then 1 + WordCharRun(s, i + 1) else 0
  }

  /** The length of a word that starts at `i`: its first character and the word characters after it. */
  function WordLen(s: string, i: nat): (n: nat)
    requires i < |s|
    ensures i + n <= |s|
  {
    1 + WordCharRun(s, i + 1)
  }

  /** Every character of the run `DigitRun` measures is a digit. */
  lemma {:induction false} DigitRunDigits(s: string, i: nat)
    requires i <= |s|
    ensures forall k :: i <= k < i + DigitRun(s, i) ==> IsDigit(s[k])
    decreases |s| - i
  {
    if i < |s| && IsDigit(s[i]) {
      DigitRunDigits(s, i + 1);
    }
  }

  /** A run of digits that stops before a non-digit or the end is what `DigitRun` measures. */
  lemma {:induction false} DigitRunIs(s: string, i: nat, n: nat)
    requires i + n <= |s|
    requires forall k :: i <= k < i + n ==> IsDigit(s[k])
    requires i + n == |s| || !IsDigit(s[i + n])
    ensures DigitRun(s, i) == n
    decreases n
  {
    if n > 0 {
      DigitRunIs(s, i + 1, n - 1);
    }
  }

  /** Every character of the run `WordCharRun` measures is a word character. */
  lemma {:induction false} WordCharRunChars(s: string, i: nat)
    requires i <= |s|
    ensures forall k :: i <= k < i + WordCharRun(s, i) ==> IsWordChar(s[k])
    decreases |s| - i
  {
    if i < |s| && IsWordChar(s[i]) {
      WordCharRunChars(s, i + 1);
    }
  }

  /** A run of word characters that stops before a non-word character or the end is what `WordCharRun` measures. */
  lemma {:induction false} WordCharRunIs(s: string, i: nat, n: nat)
    requires i + n <= |s|
    requires forall k :: i <= k < i + n ==> IsWordChar(s[k])
    requires i + n == |s| || !IsWordChar(s[i + n])
    ensures WordCharRun(s, i) == n
    decreases n
  {
    if n > 0 {
      WordCharRunIs(s, i + 1, n - 1);
    }
  }

  /** The first index at or after `j` that holds a double quote, if any. */
  function NextQuote(s: string, j: nat): (r: Option<nat>)
    requires j <= |s|
    ensures r.Some? ==> j <= r.value < |s| && s[r.value] == '"'
    decreases |s| - j
  {
    if j == |s| then None
    else if s[j] == '"' then Some(j)
    else NextQuote(s, j + 1)
  }

  /** No quote comes before the one `NextQuote` finds, and none at all when it finds none. */
  lemma {:induction false} NextQuoteSkips(s: string, j: nat)
    requires j <= |s|
    ensures NextQuote(s, j).Some? ==> forall k :: j <= k < NextQuote(s, j).value ==> s[k] != '"'
    ensures NextQuote(s, j).None? ==> forall k :: j <= k < |s| ==> s[k] != '"'
    decreases |s| - j
  {
    if j < |s| && s[j] != '"' {
      NextQuoteSkips(s, j + 1);
    }
  }

  /** A quote at `q` with none between `j` and `q` is the one `NextQuote` finds. */
  lemma {:induction false} NextQuoteIs(s: string, j: nat, q: nat)
    requires j <= q < |s| && s[q] == '"'
    requires forall k :: j <= k < q ==> s[k] != '"'
    ensures NextQuote(s, j) == Some(q)
    decreases q - j
  {
    if j < q {
      NextQuoteIs(s, j + 1, q);
    }
  }

  /** Hand-coded recogniser: the length of the longest prefix of `s[i..]` in the shape, 0 if none. */
  function ShapeLen(p: Shape, s: string, i: nat): (n: nat)
    requires i <= |s|
    ensures i + n <= |s|
  {
    match p
    case Blank => if i < |s| && IsBlank(s[i]) then 1 else 0
    case Digits => DigitRun(s, i)
    case Word => if i < |s| && IsLetter(s[i]) then WordLen(s, i) else 0
    case Quoted =>
      if i < |s| && s[i] == '"' then
        match NextQuote(s, i + 1)
        case Some(j) => j - i + 1
        case None => 0
      else 0
  }

  /**
   * The length of the longest non-empty prefix of `s[i..]` that the matcher
   * accepts, or 0 when it accepts none.
   */
  function MatchLen(m: Matcher, s: string, i: nat): (n: nat)
    requires i <= |s|
    ensures i + n <= |s|
  {
    match m
    case Literal(t) =>
      if 0 < |t| && i + |t| <= |s| && s[i..i + |t|] == t then |t| else 0
    case Pattern(p) => ShapeLen(p, s, i)
  }

  /**
   * `MatchLen` reports the longest accepted prefix: the prefix of that length
   * is accepted when it is non-empty, and no longer prefix is.
   */
  lemma MatchLenIsLongest(m: Matcher, s: string, i: nat)
    requires i <= |s|
    ensures MatchLen(m, s, i) > 0 ==> AcceptsAt(m, s, i, MatchLen(m, s, i))
    ensures forall n' :: MatchLen(m, s, i) < n' ==> !AcceptsAt(m, s, i, n')
  {
    if m.Pattern? {
      LongestInShape(m.shape, s, i);
    }
  }

  lemma LongestInShape(p: Shape, s: string, i: nat)
    requires i <= |s|
    ensures ShapeLen(p, s, i) > 0 ==> AcceptsAt(Pattern(p), s, i, ShapeLen(p, s, i))
    ensures forall n' :: ShapeLen(p, s, i) < n' ==> !AcceptsAt(Pattern(p), s, i, n')
  {
    var n := ShapeLen(p, s, i);
    DigitRunDigits(s, i);
    if i < |s| {
      WordCharRunChars(s, i + 1);
      NextQuoteSkips(s, i + 1);
    }
    forall n' | n < n' ensures !AcceptsAt(Pattern(p), s, i, n') {
      if i + n' <= |s| {
        var w := s[i..i + n'];
        assert w[0] == s[i];
        assert w[n] == s[i + n];
        assert w[n' - 1] == s[i + n' - 1];
        if p == Quoted && s[i] == '"' && NextQuote(s, i + 1).Some? {
          var j := NextQuote(s, i + 1).value;
          assert w[j - i] == s[j];
        }
      }
    }
  }

  /** Whether `c` can be the first character of a word the matcher accepts. */
  predicate CanStart(m: Matcher, c: char) {
    match m
    case Literal(t) => |t| > 0 && t[0] == c
    case Pattern(Blank) => IsBlank(c)
    case Pattern(Digits) => IsDigit(c)
    case Pattern(Word) => IsLetter(c)
    case Pattern(Quoted) => c == '"'
  }

  /** A matcher matches at `i` only if the character at `i` can start one of its words. */
  lemma MatchNeedsStart(m: Matcher, s: string, i: nat)
    requires i <= |s|
    ensures MatchLen(m, s, i) > 0 ==> i < |s| && CanStart(m, s[i])
  {
    if MatchLen(m, s, i) > 0 && m.Literal? {
      assert s[i..i + |m.text|][0] == s[i];
    }
  }

  /** A selection: which rule of the table, and how many characters it consumes. */
  datatype Choice = Choice(index: nat, len: nat)

  /** No rule among the first `n` accepts any non-empty prefix at `i`. */
  predicate NoneMatch<K>(rules: seq<Rule<K>>, s: string, i: nat, n: nat)
    requires i <= |s| && n <= |rules|
  {
    forall j :: 0 <= j < n ==> MatchLen(rules[j].matcher, s, i) == 0
  }

  /**
   * The selection policy among the first `n` rules: the chosen rule matches,
   * no rule matches a longer prefix (maximal munch), and every rule declared
   * before it matches a strictly shorter prefix (declaration order breaks ties).
   */
  predicate IsBestAmong<K>(rules: seq<Rule<K>>, s: string, i: nat, n: nat, c: Choice)
    requires i <= |s| && n <= |rules|
  {
    && c.index < n
    && c.len > 0
    && MatchLen(rules[c.index].matcher, s, i) == c.len
    && (forall j :: 0 <= j < n ==> MatchLen(rules[j].matcher, s, i) <= c.len)
    && (forall j :: 0 <= j < c.index ==> MatchLen(rules[j].matcher, s, i) < c.len)
  }

  /** Select among the first `n` rules, scanning them in declaration order. */
  function SelectAmong<K>(rules: seq<Rule<K>>, s: string, i: nat, n: nat): (r: Option<Choice>)
    requires i <= |s| && n <= |rules|
    ensures r.Some? ==> r.value.index < n && 0 < r.value.len && i + r.value.len <= |s|
  {
    if n == 0 then None
    else
      var earlier := SelectAmong(rules, s, i, n - 1);
      var len := MatchLen(rules[n - 1].matcher, s, i);
      if len > 0 && (earlier.None? || earlier.value.len < len) then Some(Choice(n - 1, len))
      else earlier
  }

  /**
   * Scanning the rules in order and replacing the current choice only by a
   * strictly longer match implements the selection policy: no choice exactly
   * when no rule matches, and otherwise the longest match declared first.
   */
  lemma {:induction false} SelectAmongIsBest<K>(rules: seq<Rule<K>>, s: string, i: nat, n: nat)
    requires i <= |s| && n <= |rules|
    ensures SelectAmong(rules, s, i, n).None? <==> NoneMatch(rules, s, i, n)
    ensures SelectAmong(rules, s, i, n).Some? ==> IsBestAmong(rules, s, i, n, SelectAmong(rules, s, i, n).value)
  {
    if n > 0 {
      SelectAmongIsBest(rules, s, i, n - 1);
    }
  }

  /**
   * The rule the table selects at position `i`, if any rule matches there.
   * The selection policy it follows is stated by `SelectIsBest`.
   */
  function Select<K>(rules: seq<Rule<K>>, s: string, i: nat): (r: Option<Choice>)
    requires i <= |s|
    ensures r.Some? ==> r.value.index < |rules| && 0 < r.value.len && i + r.value.len <= |s|
  {
    SelectAmong(rules, s, i, |rules|)
  }

  /** `Select` fails exactly where no rule matches, and otherwise follows the selection policy. */
  lemma SelectIsBest<K>(rules: seq<Rule<K>>, s: string, i: nat)
    requires i <= |s|
    ensures Select(rules, s, i).None? <==> NoneMatch(rules, s, i, |rules|)
    ensures Select(rules, s, i).Some? ==> IsBestAmong(rules, s, i, |rules|, Select(rules, s, i).value)
  {
    SelectAmongIsBest(rules, s, i, |rules|);
  }

  /** The selection policy admits exactly one choice, so the table's verdict is determined. */
  lemma SelectionUnique<K>(rules: seq<Rule<K>>, s: string, i: nat, c1: Choice, c2: Choice)
    requires i <= |s|
    requires IsBestAmong(rules, s, i, |rules|, c1) && IsBestAmong(rules, s, i, |rules|, c2)
    ensures c1 == c2
  {
  }

  /** One step of a scan: the action of the selected rule, the text it consumed, and where. */
  datatype Lexeme<K> = Lexeme(action: Action<K>, text: string, start: nat)

  /** A token handed to the parser: its kind, its text and its start offset. */
  datatype Token<K> = Token(kind: K, text: string, start: nat)

  /** The lexeme `l` is what the table selects at its start offset in `s`. */
  predicate Selected<K(==)>(rules: seq<Rule<K>>, s: string, l: Lexeme<K>) {
    && l.start < |s|
    && var r := Select(rules, s, l.start);
    && r.Some?
    && r.value.len == |l.text|
    && rules[r.value.index].action == l.action
    && l.text == s[l.start..l.start + r.value.len]
  }

  /** The lexemes follow each other without gaps, from `i` to `end`. */
  predicate Contiguous<K>(ls: seq<Lexeme<K>>, i: nat, end: nat) {
    if ls == [] then i == end
    else ls[0].start == i && Contiguous(ls[1..], i + |ls[0].text|, end)
  }

  lemma ContiguousCons<K>(l: Lexeme<K>, rest: seq<Lexeme<K>>, i: nat, end: nat)
    requires l.start == i && Contiguous(rest, i + |l.text|, end)
    ensures Contiguous([l] + rest, i, end)
  {
    assert ([l] + rest)[1..] == rest;
  }

  /** The concatenation of the lexemes' texts, in order. */
  function Spelling<K>(ls: seq<Lexeme<K>>): string {
    if ls == [] then "" else ls[0].text + Spelling(ls[1..])
  }

  /**
   * The single left-to-right pass from offset `i`: at each position select a
   * rule, record the consumed text with the rule's action and continue after
   * it; stop with the offset of the first position where no rule matches.
   */
  function Scan<K(==)>(rules: seq<Rule<K>>, s: string, i: nat): (r: Result<seq<Lexeme<K>>, nat>)
    requires i <= |s|
    ensures r.Err? ==> i <= r.error < |s|
    decreases |s| - i
  {
    if i == |s| then Ok([])
    else
      match Select(rules, s, i)
      case None => Err(i)
      case Some(c) => PrependLexeme(rules[c.index].action, s, i, c.len, Scan(rules, s, i + c.len))
  }

  /** Where the table selects rule `k` over `n` characters, the scan puts that rule's lexeme in front of the scan after it. */
  lemma ScanAt<K>(rules: seq<Rule<K>>, s: string, i: nat, k: nat, n: nat)
    requires i < |s| && Select(rules, s, i) == Some(Choice(k, n))
    ensures k < |rules| && i + n <= |s|
    ensures Scan(rules, s, i) == PrependLexeme(rules[k].action, s, i, n, Scan(rules, s, i + n))
  {
  }

  /** The lexeme of `a` over `s[i..i + n]` in front of the rest of a scan, or the rest's failure. */
  function PrependLexeme<K>(a: Action<K>, s: string, i: nat, n: nat, rest: Result<seq<Lexeme<K>>, nat>): Result<seq<Lexeme<K>>, nat>
    requires i + n <= |s|
  {
    if rest.Err? then Err(rest.error) else Ok([Lexeme(a, s[i..i + n], i)] + rest.value)
  }

  /** Prepending to a successful rest puts the lexeme over `t` in front of it. */
  lemma PrependOk<K>(a: Action<K>, s: string, i: nat, t: string, rest: seq<Lexeme<K>>)
    requires i + |t| <= |s| && s[i..i + |t|] == t
    ensures PrependLexeme(a, s, i, |t|, Ok(rest)) == Ok([Lexeme(a, t, i)] + rest)
  {
  }

  /** The tokens of a scan: the lexemes of emitting rules, in order. */
  function Emitted<K>(ls: seq<Lexeme<K>>): (ts: seq<Token<K>>)
    ensures |ts| <= |ls|
  {
    if ls == [] then []
    else
      var rest := Emitted(ls[1..]);
      match ls[0].action
      case Emit(k) => [Token(k, ls[0].text, ls[0].start)] + rest
      case Ignore => rest
  }

  /** One step of a successful scan: the selected lexeme, then the scan of the rest. */
  lemma ScanStep<K>(rules: seq<Rule<K>>, s: string, i: nat)
    requires i < |s|
    requires Scan(rules, s, i).Ok?
    ensures Select(rules, s, i).Some?
    ensures var c := Select(rules, s, i).value;
      && Scan(rules, s, i + c.len).Ok?
      && Scan(rules, s, i).value
         == [Lexeme(rules[c.index].action, s[i..i + c.len], i)] + Scan(rules, s, i + c.len).value
  {
  }

  /** A successful scan spells out the input from `i` to its end: no character is lost or repeated. */
  lemma {:induction false} ScanSpellsInput<K>(rules: seq<Rule<K>>, s: string, i: nat)
    requires i <= |s|
    requires Scan(rules, s, i).Ok?
    ensures Spelling(Scan(rules, s, i).value) == s[i..]
    decreases |s| - i
  {
    if i < |s| {
      ScanStep(rules, s, i);
      var c := Select(rules, s, i).value;
      var j := i + c.len;
      var ls := Scan(rules, s, i).value;
      ScanSpellsInput(rules, s, j);
      assert ls[1..] == Scan(rules, s, j).value;
      assert s[i..] == s[i..j] + s[j..];
    }
  }

  /** A scan fails only at an offset inside the input where no rule matches. */
  lemma {:induction false} ScanFailsWhereNoRuleMatches<K>(rules: seq<Rule<K>>, s: string, i: nat)
    requires i <= |s|
    requires Scan(rules, s, i).Err?
    ensures i <= Scan(rules, s, i).error < |s|
    ensures NoneMatch(rules, s, Scan(rules, s, i).error, |rules|)
    decreases |s| - i
  {
    if Select(rules, s, i).None? {
      SelectIsBest(rules, s, i);
    } else {
      ScanFailsWhereNoRuleMatches(rules, s, i + Select(rules, s, i).value.len);
    }
  }

  /** Every lexeme of a successful scan is the table's selection at its start offset. */
  lemma {:induction false} ScanSelects<K>(rules: seq<Rule<K>>, s: string, i: nat)
    requires i <= |s|
    requires Scan(rules, s, i).Ok?
    ensures forall l :: l in Scan(rules, s, i).value ==> Selected(rules, s, l)
    decreases |s| - i
  {
    if i < |s| {
      ScanStep(rules, s, i);
      var c := Select(rules, s, i).value;
      var l := Lexeme(rules[c.index].action, s[i..i + c.len], i);
      ScanSelects(rules, s, i + c.len);
      assert Selected(rules, s, l);
    }
  }

  /** Every lexeme of `ls` is the table's selection at its own start. */
  predicate AllSelected<K(==)>(rules: seq<Rule<K>>, s: string, ls: seq<Lexeme<K>>) {
    forall l :: l in ls ==> Selected(rules, s, l)
  }

  /** A selected lexeme at `i` in front of selected lexemes that tile the input up to `o` tiles it from `i`. */
  lemma SelectedCons<K>(rules: seq<Rule<K>>, s: string, l: Lexeme<K>, rest: seq<Lexeme<K>>, i: nat, o: nat)
    requires l.start == i && Selected(rules, s, l)
    requires Contiguous(rest, i + |l.text|, o) && AllSelected(rules, s, rest)
    ensures Contiguous([l] + rest, i, o) && AllSelected(rules, s, [l] + rest)
  {
    ContiguousCons(l, rest, i, o);
    assert forall x :: x in [l] + rest ==> x == l || x in rest;
  }

  /**
   * A scan that fails at offset `o` got there through the table's own
   * selections: they tile the input from `i` up to `o`, so `o` is the first
   * position the left-to-right pass reaches where no rule matches.
   */
  lemma {:induction false} ScanReachesError<K>(rules: seq<Rule<K>>, s: string, i: nat) returns (ls: seq<Lexeme<K>>)
    requires i <= |s|
    requires Scan(rules, s, i).Err?
    ensures Contiguous(ls, i, Scan(rules, s, i).error) && AllSelected(rules, s, ls)
    decreases |s| - i
  {
    if Select(rules, s, i).None? {
      ls := [];
    } else {
      var c := Select(rules, s, i).value;
      var k, n := c.index, c.len;
      ScanAt(rules, s, i, k, n);
      var rest := ScanReachesError(rules, s, i + n);
      var l := Lexeme(rules[k].action, s[i..i + n], i);
      SelectedCons(rules, s, l, rest, i, Scan(rules, s, i).error);
      ls := [l] + rest;
    }
  }

  /** A successful scan covers the input from `i` to its end without gaps or overlaps. */
  lemma {:induction false} ScanContiguous<K>(rules: seq<Rule<K>>, s: string, i: nat)
    requires i <= |s|
    requires Scan(rules, s, i).Ok?
    ensures Contiguous(Scan(rules, s, i).value, i, |s|)
    decreases |s| - i
  {
    if i < |s| {
      ScanStep(rules, s, i);
      var c := Select(rules, s, i).value;
      var j := i + c.len;
      var l := Lexeme(rules[c.index].action, s[i..j], i);
      var rest := Scan(rules, s, j).value;
      ScanContiguous(rules, s, j);
      ContiguousCons(l, rest, i, |s|);
    }
  }


  /** Every token comes from an emitting lexeme with the same kind, text and start. */
  lemma {:induction false} EmittedFromLexemes<K>(ls: seq<Lexeme<K>>)
    ensures forall t :: t in Emitted(ls) ==> Lexeme(Emit(t.kind), t.text, t.start) in ls
  {
    if ls != [] {
      EmittedFromLexemes(ls[1..]);
      assert forall l :: l in ls[1..] ==> l in ls;
    }
  }

  /** Every emitting lexeme becomes a token with the same kind, text and start. */
  lemma {:induction false} LexemesBecomeTokens<K>(ls: seq<Lexeme<K>>)
    ensures forall l :: l in ls && l.action.Emit? ==> Token(l.action.kind, l.text, l.start) in Emitted(ls)
  {
    if ls != [] {
      LexemesBecomeTokens(ls[1..]);
      assert forall l :: l in ls ==> l == ls[0] || l in ls[1..];
    }
  }

  /** The tokens of a lexeme followed by more lexemes. */
  lemma EmittedCons<K>(l: Lexeme<K>, rest: seq<Lexeme<K>>)
    ensures l.action.Emit? ==> Emitted([l] + rest) == [Token(l.action.kind, l.text, l.start)] + Emitted(rest)
    ensures l.action.Ignore? ==> Emitted([l] + rest) == Emitted(rest)
  {
    assert ([l] + rest)[1..] == rest;
  }

  /** Every token of `ts` lies between offsets `i` and `e`. */
  predicate TokensWithin<K>(ts: seq<Token<K>>, i: nat, e: nat) {
    forall a :: 0 <= a < |ts| ==> i <= ts[a].start && ts[a].start + |ts[a].text| <= e
  }

  /** Each token of `ts` ends at or before the start of every later one. */
  predicate TokensInOrder<K>(ts: seq<Token<K>>) {
    forall a, b :: 0 <= a < b < |ts| ==> ts[a].start + |ts[a].text| <= ts[b].start
  }

  /**
   * The tokens of lexemes that tile the text from `i` to `e` lie inside it
   * and keep the lexemes' order: their spans increase and never overlap.
   */
  lemma {:induction false} EmittedInOrder<K>(ls: seq<Lexeme<K>>, i: nat, e: nat)
    requires Contiguous(ls, i, e)
    ensures TokensWithin(Emitted(ls), i, e) && TokensInOrder(Emitted(ls))
    decreases |ls|
  {
    if ls != [] {
      var l, rest := ls[0], ls[1..];
      var j := i + |l.text|;
      assert ls == [l] + rest;
      EmittedInOrder(rest, j, e);
      EmittedCons(l, rest);
      var r := Emitted(rest);
      if l.action.Emit? {
        var t := Token(l.action.kind, l.text, l.start);
        var ts := [t] + r;
        assert TokensWithin(ts, i, e) by {
          ContiguousBound(rest, j, e);
          assert forall a :: 0 < a < |ts| ==> ts[a] == r[a - 1];
        }
        forall a, b | 0 <= a < b < |ts|
          ensures ts[a].start + |ts[a].text| <= ts[b].start
        {
          assert ts[b] == r[b - 1];
          if a > 0 {
            assert ts[a] == r[a - 1];
          }
        }
      }
    }
  }

  /** Lexemes that tile the text from `i` to `e` need `i <= e`. */
  lemma {:induction false} ContiguousBound<K>(ls: seq<Lexeme<K>>, i: nat, e: nat)
    requires Contiguous(ls, i, e)
    ensures i <= e
    decreases |ls|
  {
    if ls != [] {
      ContiguousBound(ls[1..], i + |ls[0].text|, e);
    }
  }

  /** Every lexeme of a tiling from `i` to `e` starts at or after `i`. */
  lemma {:induction false} ContiguousStartsFrom<K>(ls: seq<Lexeme<K>>, i: nat, e: nat)
    requires Contiguous(ls, i, e)
    ensures forall a :: 0 <= a < |ls| ==> i <= ls[a].start
    decreases |ls|
  {
    if ls != [] {
      ContiguousStartsFrom(ls[1..], i + |ls[0].text|, e);
      forall a | 1 <= a < |ls| ensures i <= ls[a].start {
        assert ls[a] == ls[1..][a - 1];
      }
    }
  }

  /** Every offset from `i` up to `e` lies inside some lexeme of a tiling from `i` to `e`. */
  lemma {:induction false} ContiguousCovers<K>(ls: seq<Lexeme<K>>, i: nat, e: nat, k: nat) returns (l: Lexeme<K>)
    requires Contiguous(ls, i, e) && i <= k < e
    ensures l in ls && l.start <= k < l.start + |l.text|
    decreases |ls|
  {
    var rest := ls[1..];
    if k < i + |ls[0].text| {
      l := ls[0];
    } else {
      l := ContiguousCovers(rest, i + |ls[0].text|, e, k);
      assert l in ls by { assert ls == [ls[0]] + rest; }
    }
  }

  /** The kinds and texts of a token stream, without their offsets. */
  function KindsAndTexts<K>(ts: seq<Token<K>>): (r: seq<(K, string)>)
    ensures |r| == |ts|
  {
    if ts == [] then [] else [(ts[0].kind, ts[0].text)] + KindsAndTexts(ts[1..])
  }

  /** The lexemes `ls` moved `d` characters to the right. */
  function Shift<K>(ls: seq<Lexeme<K>>, d: nat): (r: seq<Lexeme<K>>)
    ensures |r| == |ls|
  {
    if ls == [] then [] else [Lexeme(ls[0].action, ls[0].text, ls[0].start + d)] + Shift(ls[1..], d)
  }

  /** The first lexeme of `ls`, moved, is the first of the moved lexemes; the rest move with it. */
  lemma ShiftFirst<K>(ls: seq<Lexeme<K>>, d: nat)
    requires ls != []
    ensures Shift(ls, d) == [Lexeme(ls[0].action, ls[0].text, ls[0].start + d)] + Shift(ls[1..], d)
  {
  }

  /** Moving lexemes changes the offsets of their tokens but not the tokens' kinds and texts. */
  lemma {:induction false} EmittedShift<K>(ls: seq<Lexeme<K>>, d: nat)
    ensures KindsAndTexts(Emitted(Shift(ls, d))) == KindsAndTexts(Emitted(ls))
    decreases |ls|
  {
    if ls != [] {
      var l, rest := ls[0], ls[1..];
      var l' := Lexeme(l.action, l.text, l.start + d);
      assert ls == [l] + rest;
      assert Shift(ls, d) == [l'] + Shift(rest, d);
      EmittedShift(rest, d);
      EmittedCons(l, rest);
      EmittedCons(l', Shift(rest, d));
      if l.action.Emit? {
        var t, t' := Token(l.action.kind, l.text, l.start), Token(l.action.kind, l.text, l.start + d);
        assert ([t'] + Emitted(Shift(rest, d)))[1..] == Emitted(Shift(rest, d));
        assert ([t] + Emitted(rest))[1..] == Emitted(rest);
      }
    }
  }
}
