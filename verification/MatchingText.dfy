/**
 * Words and tokens of a text: maximal runs of non-whitespace, the tokens made of them, and the spans
 * that lead from a token back to the text. Character classes and case folding are parameters.
 */
module MatchingText {
  import opened Basics

  datatype CharRules = CharRules(
    isSpace: char -> bool,
    isPunctuation: char -> bool,
    lower: string -> string)

  datatype Span = Span(start: nat, end: nat)

  // ----- `text.matchAll(/\S+/gu)`

  function WordEnd(text: string, isSpace: char -> bool, i: nat): (end: nat)
    requires i <= |text|
    ensures i <= end <= |text|
    ensures forall k | i <= k < end :: !isSpace(text[k])
    ensures end < |text| ==> isSpace(text[end])
    decreases |text| - i
  {
    if i == |text| || isSpace(text[i]) then i else WordEnd(text, isSpace, i + 1)
  }

  function WordsFrom(text: string, isSpace: char -> bool, i: nat): seq<Span>
    requires i <= |text|
    decreases |text| - i
  {
    if i == |text| then []
    else if isSpace(text[i]) then WordsFrom(text, isSpace, i + 1)
    else
      var end := WordEnd(text, isSpace, i + 1);
      [Span(i, end)] + WordsFrom(text, isSpace, end)
  }

  function Words(text: string, isSpace: char -> bool): seq<Span> {
    WordsFrom(text, isSpace, 0)
  }

  predicate Within(i: nat, span: Span) { span.start <= i < span.end }

  /** The words of `text[from..]`: non-empty, free of whitespace, apart from each other, covering everything else. */
  ghost predicate AreWords(text: string, isSpace: char -> bool, words: seq<Span>, from: nat) {
    && (forall k | 0 <= k < |words| ::
          from <= words[k].start < words[k].end <= |text|
          && forall i | words[k].start <= i < words[k].end :: !isSpace(text[i]))
    && (forall k | 0 < k < |words| :: words[k - 1].end < words[k].start)
    && (forall i | from <= i < |text| && !isSpace(text[i]) ::
          exists k | 0 <= k < |words| :: Within(i, words[k]))
  }

  lemma {:induction false} WordsFromMeaning(text: string, isSpace: char -> bool, i: nat)
    requires i <= |text|
    ensures AreWords(text, isSpace, WordsFrom(text, isSpace, i), i)
    decreases |text| - i
  {
    var words := WordsFrom(text, isSpace, i);
    if i == |text| {
    } else if isSpace(text[i]) {
      WordsFromMeaning(text, isSpace, i + 1);
    } else {
      var end := WordEnd(text, isSpace, i + 1);
      WordsFromMeaning(text, isSpace, end);
      FirstWord(text, isSpace, i, end, WordsFrom(text, isSpace, end));
    }
  }

  lemma FirstWord(text: string, isSpace: char -> bool, i: nat, end: nat, rest: seq<Span>)
    requires i < end <= |text| && (forall k | i <= k < end :: !isSpace(text[k]))
    requires end < |text| ==> isSpace(text[end])
    requires AreWords(text, isSpace, rest, end)
    ensures AreWords(text, isSpace, [Span(i, end)] + rest, i)
  {
    var words := [Span(i, end)] + rest;
    if rest != [] {
      assert !isSpace(text[rest[0].start]);
    }
    forall k | 0 < k < |words| ensures words[k - 1].end < words[k].start {
      assert words[k] == rest[k - 1];
      assert k > 1 ==> words[k - 1] == rest[k - 2];
    }
    forall n | i <= n < |text| && !isSpace(text[n]) ensures exists k | 0 <= k < |words| :: Within(n, words[k]) {
      if n < end {
        assert Within(n, words[0]);
      } else {
        var k :| 0 <= k < |rest| && Within(n, rest[k]);
        assert words[k + 1] == rest[k];
      }
    }
  }

  lemma WordsMeaning(text: string, isSpace: char -> bool)
    ensures AreWords(text, isSpace, Words(text, isSpace), 0)
  {
    WordsFromMeaning(text, isSpace, 0);
  }

  lemma WordsInside(text: string, isSpace: char -> bool)
    ensures var words := Words(text, isSpace);
      forall k | 0 <= k < |words| :: words[k].start <= words[k].end <= |text|
  {
    WordsMeaning(text, isSpace);
  }

  // ----- tokens

  function ReplaceAll(value: string, from: char, to: char): (r: string)
    ensures |r| == |value|
  {
    seq(|value|, i requires 0 <= i < |value| => if value[i] == from then to else value[i])
  }

  function NormalizeToken(rules: CharRules, value: string): string {
    ReplaceAll(rules.lower(value), 'ё', 'е')
  }

  function LeadingPunctuation(rules: CharRules, value: string): (n: nat)
    ensures n <= |value|
  {
    if value == [] || !rules.isPunctuation(value[0]) then 0
    else 1 + LeadingPunctuation(rules, value[1..])
  }

  function TrailingPunctuation(rules: CharRules, value: string): (n: nat)
    ensures n <= |value|
  {
    if value == [] || !rules.isPunctuation(value[|value| - 1]) then 0
    else 1 + TrailingPunctuation(rules, value[..|value| - 1])
  }

  const GLOB_PLACEHOLDER: char := '\U{E000}'

  datatype TokenSource = TokenSource(sourceToken: string, leadingLength: nat)

  /** The token without the punctuation around it; with `preserveGlob` a star is not punctuation. */
  function MatchingTokenSource(rules: CharRules, rawToken: string, preserveGlob: bool): (r: TokenSource)
    ensures r.leadingLength + |r.sourceToken| <= |rawToken|
    ensures r.sourceToken == rawToken[r.leadingLength..r.leadingLength + |r.sourceToken|]
  {
    var edge := if preserveGlob then ReplaceAll(rawToken, '*', GLOB_PLACEHOLDER) else rawToken;
    var leading := LeadingPunctuation(rules, edge);
    var end := |rawToken| - TrailingPunctuation(rules, edge);
    TokenSource(if leading <= end then rawToken[leading..end] else [], leading)
  }

  datatype Token = Token(value: string, start: nat, end: nat)

  function PartToken(rules: CharRules, part: string, offset: nat): seq<Token> {
    if part == [] then [] else [Token(NormalizeToken(rules, part), offset, offset + |part|)]
  }

  function PartTokens(rules: CharRules, parts: seq<string>, offset: nat): seq<Token> {
    if parts == [] then [] else
      PartToken(rules, parts[0], offset)
      + PartTokens(rules, parts[1..], offset + |parts[0]| + 1)
  }

  function WordTokens(rules: CharRules, rawToken: string, rawStart: nat): seq<Token> {
    var source := MatchingTokenSource(rules, rawToken, false);
    var start := rawStart + source.leadingLength;
    if source.sourceToken == [] then [] else
      [Token(NormalizeToken(rules, source.sourceToken), start, start + |source.sourceToken|)]
      + (if '-' in source.sourceToken then PartTokens(rules, Split(source.sourceToken, '-'), start) else [])
  }

  function TokensOf(rules: CharRules, text: string, words: seq<Span>): seq<Token>
    requires forall k | 0 <= k < |words| :: words[k].start <= words[k].end <= |text|
  {
    if words == [] then [] else
      var last := words[|words| - 1];
      TokensOf(rules, text, words[..|words| - 1]) + WordTokens(rules, text[last.start..last.end], last.start)
  }

  function TextTokens(rules: CharRules, text: string): seq<Token> {
    WordsInside(text, rules.isSpace);
    TokensOf(rules, text, Words(text, rules.isSpace))
  }

  lemma PartTokensFrom(rules: CharRules, parts: seq<string>, k: nat, offset: nat)
    requires k <= |parts|
    ensures k == |parts| ==> PartTokens(rules, parts[k..], offset) == []
    ensures k < |parts| ==>
      PartTokens(rules, parts[k..], offset)
      == PartToken(rules, parts[k], offset) + PartTokens(rules, parts[k + 1..], offset + |parts[k]| + 1)
  {
    if k < |parts| {
      assert parts[k..][0] == parts[k] && parts[k..][1..] == parts[k + 1..];
    }
  }

  /** The parts of a hyphenated token. */
  method TokenizeParts(rules: CharRules, sourceToken: string, start: nat) returns (tokens: seq<Token>)
    ensures tokens == PartTokens(rules, Split(sourceToken, '-'), start)
  {
    hide NormalizeToken, Split, PartTokens;
    var parts := Split(sourceToken, '-');
    tokens := [];
    var offset: nat := 0;
    var k := 0;
    assert parts[0..] == parts;
    ghost var all := PartTokens(rules, parts, start);
    assert [] + all == all;
    while k < |parts|
      invariant k <= |parts|
      invariant all == tokens + PartTokens(rules, parts[k..], start + offset)
    {
      var part := parts[k];
      PartTokensFrom(rules, parts, k, start + offset);
      ghost var before := tokens;
      if part != [] {
        tokens := tokens + [Token(NormalizeToken(rules, part), start + offset, start + offset + |part|)];
      }
      assert tokens == before + PartToken(rules, part, start + offset);
      offset := offset + |part| + 1;
      k := k + 1;
    }
    PartTokensFrom(rules, parts, k, start + offset);
  }

  /** One whitespace-separated word. */
  method TokenizeWord(rules: CharRules, rawToken: string, rawStart: nat) returns (tokens: seq<Token>)
    ensures tokens == WordTokens(rules, rawToken, rawStart)
  {
    hide NormalizeToken, Split, PartTokens, MatchingTokenSource;
    var source := MatchingTokenSource(rules, rawToken, false);
    if source.sourceToken == [] {
      return [];
    }
    var start := rawStart + source.leadingLength;
    tokens := [Token(NormalizeToken(rules, source.sourceToken), start, start + |source.sourceToken|)];
    if '-' in source.sourceToken {
      var parts := TokenizeParts(rules, source.sourceToken, start);
      tokens := tokens + parts;
    }
  }

  method TokenizeMatchingTextWithSpans(rules: CharRules, text: string) returns (tokens: seq<Token>)
    ensures tokens == TextTokens(rules, text)
  {
    hide Words, AreWords, WordTokens;
    WordsMeaning(text, rules.isSpace);
    WordsInside(text, rules.isSpace);
    var words := Words(text, rules.isSpace);
    tokens := [];
    var i := 0;
    while i < |words|
      invariant i <= |words|
      invariant tokens == TokensOf(rules, text, words[..i])
    {
      assert words[..i + 1][..i] == words[..i];
      var more := TokenizeWord(rules, text[words[i].start..words[i].end], words[i].start);
      tokens := tokens + more;
      i := i + 1;
    }
    assert words[..i] == words;
  }

  /** A token's span is a non-empty stretch of one word, and its value is that stretch normalised. */
  ghost predicate Spans(rules: CharRules, text: string, token: Token) {
    && token.start < token.end <= |text|
    && token.value == NormalizeToken(rules, text[token.start..token.end])
    && forall i | token.start <= i < token.end :: !rules.isSpace(text[i])
  }

  lemma PartTokensCons(rules: CharRules, parts: seq<string>, offset: nat)
    requires parts != []
    ensures PartTokens(rules, parts, offset)
         == PartToken(rules, parts[0], offset) + PartTokens(rules, parts[1..], offset + |parts[0]| + 1)
    ensures |parts| == 1 ==> PartTokens(rules, parts[1..], offset + |parts[0]| + 1) == []
  {
    hide NormalizeToken;
  }

  lemma FirstPartSpans(rules: CharRules, text: string, first: string, start: nat, token: Token)
    requires start + |first| <= |text| && first == text[start..start + |first|]
    requires forall i | start <= i < start + |first| :: !rules.isSpace(text[i])
    requires token in PartToken(rules, first, start)
    ensures Spans(rules, text, token)
  {
    hide NormalizeToken;
  }

  lemma {:induction false} PartSpans(rules: CharRules, text: string, value: string, start: nat, token: Token)
    requires start + |value| <= |text| && value == text[start..start + |value|]
    requires forall i | start <= i < start + |value| :: !rules.isSpace(text[i])
    requires token in PartTokens(rules, Split(value, '-'), start)
    ensures Spans(rules, text, token)
    decreases |value|
  {
    hide NormalizeToken, PartTokens, PartToken, Split, Spans;
    SplitFirst(value, '-');
    var parts := Split(value, '-');
    var first := parts[0];
    PartTokensCons(rules, parts, start);
    assert text[start..start + |first|] == value[..|first|];
    if token in PartToken(rules, first, start) {
      FirstPartSpans(rules, text, first, start, token);
    } else {
      var tail := value[|first| + 1..];
      assert tail == text[start + |first| + 1..start + |value|];
      PartSpans(rules, text, tail, start + |first| + 1, token);
    }
  }

  /** The first piece of a split ends at the first separator. */
  lemma {:induction false} SplitFirst(value: string, separator: char)
    ensures var pieces := Split(value, separator);
      && |pieces[0]| <= |value| && pieces[0] == value[..|pieces[0]|]
      && (|pieces| > 1 ==> |pieces[0]| < |value| && pieces[1..] == Split(value[|pieces[0]| + 1..], separator))
  {
    if value != [] {
      SplitFirst(value[1..], separator);
      var rest := Split(value[1..], separator);
      if value[0] == separator {
        assert Split(value, separator)[1..] == rest;
      } else {
        assert Split(value, separator)[1..] == rest[1..];
        if |rest| > 1 {
          assert value[1..][|rest[0]| + 1..] == value[|rest[0]| + 2..];
        }
      }
    }
  }

  lemma {:induction false} TokensSpan(rules: CharRules, text: string, words: seq<Span>, token: Token)
    requires forall k | 0 <= k < |words| ::
      words[k].start <= words[k].end <= |text|
      && forall i | words[k].start <= i < words[k].end :: !rules.isSpace(text[i])
    requires token in TokensOf(rules, text, words)
    ensures Spans(rules, text, token)
  {
    var last := words[|words| - 1];
    if token in TokensOf(rules, text, words[..|words| - 1]) {
      TokensSpan(rules, text, words[..|words| - 1], token);
    } else {
      WordTokensSpan(rules, text, last, token);
    }
  }

  lemma SliceOfSlice(text: string, start: nat, end: nat, from: nat, to: nat)
    requires start <= end <= |text| && from <= to <= end - start
    ensures text[start..end][from..to] == text[start + from..start + to]
  {
    var inner := text[start..end];
    var a, b := inner[from..to], text[start + from..start + to];
    assert |a| == |b|;
    forall i | 0 <= i < |a| ensures a[i] == b[i] {
      assert a[i] == inner[from + i] == text[start + (from + i)];
    }
  }

  lemma WordTokenCases(rules: CharRules, rawToken: string, rawStart: nat, token: Token)
    requires token in WordTokens(rules, rawToken, rawStart)
    ensures var source := MatchingTokenSource(rules, rawToken, false);
      var start := rawStart + source.leadingLength;
      && source.sourceToken != []
      && (token == Token(NormalizeToken(rules, source.sourceToken), start, start + |source.sourceToken|)
          || token in PartTokens(rules, Split(source.sourceToken, '-'), start))
  {
    hide NormalizeToken, PartTokens, Split, MatchingTokenSource;
  }

  lemma SourceInside(rules: CharRules, text: string, word: Span)
    requires word.start <= word.end <= |text|
    ensures var source := MatchingTokenSource(rules, text[word.start..word.end], false);
      var start := word.start + source.leadingLength;
      start + |source.sourceToken| <= word.end && source.sourceToken == text[start..start + |source.sourceToken|]
  {
    var source := MatchingTokenSource(rules, text[word.start..word.end], false);
    hide MatchingTokenSource;
    SliceOfSlice(text, word.start, word.end, source.leadingLength, source.leadingLength + |source.sourceToken|);
  }

  lemma WordTokensSpan(rules: CharRules, text: string, word: Span, token: Token)
    requires word.start <= word.end <= |text|
    requires forall i | word.start <= i < word.end :: !rules.isSpace(text[i])
    requires token in WordTokens(rules, text[word.start..word.end], word.start)
    ensures Spans(rules, text, token)
  {
    hide NormalizeToken, PartTokens, Split, MatchingTokenSource, WordTokens, Spans;
    WordTokenCases(rules, text[word.start..word.end], word.start, token);
    SourceInside(rules, text, word);
    var source := MatchingTokenSource(rules, text[word.start..word.end], false);
    TokenSpans(rules, text, source.sourceToken, word.start + source.leadingLength, token);
  }

  lemma TokenSpans(rules: CharRules, text: string, value: string, start: nat, token: Token)
    requires value != [] && start + |value| <= |text| && value == text[start..start + |value|]
    requires forall i | start <= i < start + |value| :: !rules.isSpace(text[i])
    requires token == Token(NormalizeToken(rules, value), start, start + |value|) || token in PartTokens(rules, Split(value, '-'), start)
    ensures Spans(rules, text, token)
  {
    hide NormalizeToken, PartTokens, Split;
    if token in PartTokens(rules, Split(value, '-'), start) {
      PartSpans(rules, text, value, start, token);
    }
  }

  /** Every token of a text leads back to the text it came from. */
  lemma TokensLeadBack(rules: CharRules, text: string, token: Token)
    requires token in TextTokens(rules, text)
    ensures Spans(rules, text, token)
  {
    WordsMeaning(text, rules.isSpace);
    TokensSpan(rules, text, Words(text, rules.isSpace), token);
  }

  /** `value[i..j]` is a non-empty stretch between two hyphens or ends. */
  ghost predicate IsPart(value: string, i: nat, j: nat) {
    && i < j <= |value|
    && (i == 0 || value[i - 1] == '-') && (j == |value| || value[j] == '-')
    && forall k | i <= k < j :: value[k] != '-'
  }

  lemma {:induction false} SplitFirstEnds(value: string, separator: char)
    ensures var pieces := Split(value, separator);
      && |pieces[0]| <= |value|
      && (forall k | 0 <= k < |pieces[0]| :: value[k] != separator)
      && (if |pieces| == 1 then |pieces[0]| == |value|
          else |pieces[0]| < |value| && value[|pieces[0]|] == separator)
  {
    if value != [] {
      SplitFirstEnds(value[1..], separator);
      var rest := Split(value[1..], separator);
      if value[0] != separator {
        assert forall k | 0 < k <= |rest[0]| :: value[k] == value[1..][k - 1];
      }
    }
  }

  /** A part is the first piece or lies behind the first hyphen. */
  lemma PartIsFirstOrBehind(value: string, f: nat, i: nat, j: nat)
    requires IsPart(value, i, j) && f <= |value|
    requires forall k | 0 <= k < f :: value[k] != '-'
    requires f == |value| || value[f] == '-'
    ensures i == 0 ==> f == j
    ensures i > 0 ==> f < i
    ensures i > 0 ==> IsPart(value[f + 1..], i - f - 1, j - f - 1) && value[f + 1..][i - f - 1..j - f - 1] == value[i..j]
  {
    if i > 0 {
      assert value[i - 1] == '-';
      var tail := value[f + 1..];
      assert forall k | f < k < |value| :: value[k] == tail[k - f - 1];
    }
  }

  lemma {:induction false} PartCovered(rules: CharRules, value: string, start: nat, i: nat, j: nat)
    requires IsPart(value, i, j)
    ensures Token(NormalizeToken(rules, value[i..j]), start + i, start + j) in PartTokens(rules, Split(value, '-'), start)
    decreases |value|
  {
    hide NormalizeToken, PartTokens, Split, IsPart;
    SplitFirst(value, '-');
    SplitFirstEnds(value, '-');
    var parts := Split(value, '-');
    var f := |parts[0]|;
    PartTokensCons(rules, parts, start);
    PartIsFirstOrBehind(value, f, i, j);
    PartIsNotEmpty(value, i, j);
    if i > 0 {
      PartCovered(rules, value[f + 1..], start + f + 1, i - f - 1, j - f - 1);
    }
  }

  lemma PartIsNotEmpty(value: string, i: nat, j: nat)
    requires IsPart(value, i, j)
    ensures i < j <= |value|
  {
  }

  lemma {:induction false} WordCovered(rules: CharRules, text: string, words: seq<Span>, k: nat, token: Token)
    requires forall n | 0 <= n < |words| :: words[n].start <= words[n].end <= |text|
    requires k < |words| && token in WordTokens(rules, text[words[k].start..words[k].end], words[k].start)
    ensures token in TokensOf(rules, text, words)
    decreases |words|
  {
    hide WordTokens;
    if k < |words| - 1 {
      WordCovered(rules, text, words[..|words| - 1], k, token);
    }
  }

  /** Every word gives its trimmed token, and for a hyphenated one every part of it. */
  lemma EveryWordIsTokenized(rules: CharRules, text: string, k: nat)
    requires k < |Words(text, rules.isSpace)|
    ensures var word := Words(text, rules.isSpace)[k];
      && word.start <= word.end <= |text|
      && var source := MatchingTokenSource(rules, text[word.start..word.end], false);
      var start := word.start + source.leadingLength; var value := source.sourceToken;
      value != [] ==>
        && Token(NormalizeToken(rules, value), start, start + |value|) in TextTokens(rules, text)
        && forall i: nat, j: nat | '-' in value && IsPart(value, i, j) ::
             Token(NormalizeToken(rules, value[i..j]), start + i, start + j) in TextTokens(rules, text)
  {
    hide NormalizeToken, MatchingTokenSource, PartTokens, Split, Words, TokensOf;
    WordsInside(text, rules.isSpace);
    var words := Words(text, rules.isSpace);
    var word := words[k];
    var source := MatchingTokenSource(rules, text[word.start..word.end], false);
    var start, value := word.start + source.leadingLength, source.sourceToken;
    if value != [] {
      var tokens := WordTokens(rules, text[word.start..word.end], word.start);
      assert tokens[0] == Token(NormalizeToken(rules, value), start, start + |value|);
      WordCovered(rules, text, words, k, tokens[0]);
      forall i: nat, j: nat | '-' in value && IsPart(value, i, j)
        ensures Token(NormalizeToken(rules, value[i..j]), start + i, start + j) in TextTokens(rules, text)
      {
        PartCovered(rules, value, start, i, j);
        WordCovered(rules, text, words, k, Token(NormalizeToken(rules, value[i..j]), start + i, start + j));
      }
    }
  }

  // ----- normal forms and trimming

  /** A character that is cut off at the edges; with `preserveGlob` a star counts as a private-use character. */
  ghost predicate IsEdge(rules: CharRules, c: char, preserveGlob: bool) {
    rules.isPunctuation(if preserveGlob && c == '*' then '\U{E000}' else c)
  }

  lemma {:induction false} LeadingMeaning(rules: CharRules, value: string)
    ensures var n := LeadingPunctuation(rules, value);
      && (forall i | 0 <= i < n :: rules.isPunctuation(value[i]))
      && (n < |value| ==> !rules.isPunctuation(value[n]))
  {
    if value != [] && rules.isPunctuation(value[0]) {
      LeadingMeaning(rules, value[1..]);
      assert forall i | 0 < i < |value| :: value[i] == value[1..][i - 1];
    }
  }

  lemma {:induction false} TrailingMeaning(rules: CharRules, value: string)
    ensures var n := TrailingPunctuation(rules, value);
      && (forall i | |value| - n <= i < |value| :: rules.isPunctuation(value[i]))
      && (n < |value| ==> !rules.isPunctuation(value[|value| - n - 1]))
  {
    if value != [] && rules.isPunctuation(value[|value| - 1]) {
      TrailingMeaning(rules, value[..|value| - 1]);
      assert forall i | 0 <= i < |value| - 1 :: value[i] == value[..|value| - 1][i];
    }
  }

  /**
   * The token is the raw one without the punctuation at its edges: what is cut off is punctuation, and what
   * is left begins and ends with something else, or is empty because all was punctuation.
   */
  lemma TrimMeaning(rules: CharRules, rawToken: string, preserveGlob: bool)
    ensures var source := MatchingTokenSource(rules, rawToken, preserveGlob);
      var (start, end) := (source.leadingLength, source.leadingLength + |source.sourceToken|);
      && source.sourceToken == rawToken[start..end]
      && (source.sourceToken == [] ==> forall i | 0 <= i < |rawToken| :: IsEdge(rules, rawToken[i], preserveGlob))
      && (source.sourceToken != [] ==>
            && (forall i | 0 <= i < start || end <= i < |rawToken| :: IsEdge(rules, rawToken[i], preserveGlob))
            && !IsEdge(rules, rawToken[start], preserveGlob) && !IsEdge(rules, rawToken[end - 1], preserveGlob))
  {
    var edge := if preserveGlob then ReplaceAll(rawToken, '*', GLOB_PLACEHOLDER) else rawToken;
    LeadingMeaning(rules, edge);
    TrailingMeaning(rules, edge);
    hide LeadingPunctuation, TrailingPunctuation;
    forall i | 0 <= i < |rawToken| ensures IsEdge(rules, rawToken[i], preserveGlob) == rules.isPunctuation(edge[i]) {}
  }

  /** The normal form is the lower case with every `ё` written `е`, and nothing else changed. */
  lemma NormalMeaning(rules: CharRules, value: string)
    ensures var (lower, normal) := (rules.lower(value), NormalizeToken(rules, value));
      && |normal| == |lower|
      && forall i | 0 <= i < |normal| :: normal[i] != 'ё' && normal[i] == (if lower[i] == 'ё' then 'е' else lower[i])
  {
  }
}
