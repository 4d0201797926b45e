/** Matching the include and exclude terms of a monitor against the fields of a listing. */
module ListingMatcher {
  import opened Basics
  import opened MatchingText
  import opened MatchingTerm

  datatype Field = Title | Description
  datatype Kind = Include | Exclude

  datatype Hit = Hit(term: string, field: Field, kind: Kind, start: nat, end: nat)

  datatype FieldText = FieldText(field: Field, text: string)

  datatype MatchResult = MatchResult(matched: bool, hits: seq<Hit>)

  function TermTokens(rules: CharRules, value: string, words: seq<Span>): seq<string>
    requires forall k | 0 <= k < |words| :: words[k].start <= words[k].end <= |value|
  {
    if words == [] then [] else
      var last := words[|words| - 1];
      var source := MatchingTokenSource(rules, value[last.start..last.end], true);
      TermTokens(rules, value, words[..|words| - 1])
      + (if source.sourceToken == [] then [] else [NormalizeToken(rules, source.sourceToken)])
  }

  method NormalizeMatchingTermTokens(rules: CharRules, value: string) returns (tokens: seq<string>)
    ensures WordsAreInside(rules, value) && tokens == TermTokens(rules, value, Words(value, rules.isSpace))
  {
    WordsInside(value, rules.isSpace);
    var words := Words(value, rules.isSpace);
    tokens := [];
    var k := 0;
    while k < |words|
      invariant k <= |words|
      invariant tokens == TermTokens(rules, value, words[..k])
    {
      var source := MatchingTokenSource(rules, value[words[k].start..words[k].end], true);
      if |source.sourceToken| > 0 {
        tokens := tokens + [NormalizeToken(rules, source.sourceToken)];
      }
      assert words[..k + 1][..k] == words[..k];
      k := k + 1;
    }
    assert words[..k] == words;
  }

  predicate WordsAreInside(rules: CharRules, value: string) {
    forall k | 0 <= k < |Words(value, rules.isSpace)| ::
      Words(value, rules.isSpace)[k].start <= Words(value, rules.isSpace)[k].end <= |value|
  }

  /** `compileMatchingTerm`: normalise the term, then compile its single token. */
  function Compile(rules: CharRules, term: string): Result<CompiledTerm, TermError> {
    WordsInside(term, rules.isSpace);
    CompileMatchingTerm(TermTokens(rules, term, Words(term, rules.isSpace)))
  }

  /** Testing a compiled term belongs to the regular-expression engine. */
  type Engine = (CompiledTerm, string) -> bool

  ghost predicate Conforms(test: Engine) {
    forall compiled, token :: test(compiled, token) <==> Accepts(compiled, token)
  }

  /** `hit` is the first token of `field` that the term accepts. */
  ghost predicate IsHit(rules: CharRules, compiled: CompiledTerm, field: FieldText, start: nat, end: nat) {
    var tokens := TextTokens(rules, field.text);
    exists k | 0 <= k < |tokens| ::
      && Accepts(compiled, tokens[k].value) && tokens[k].start == start && tokens[k].end == end
      && forall j | 0 <= j < k :: !Accepts(compiled, tokens[j].value)
  }

  ghost predicate AcceptsField(rules: CharRules, compiled: CompiledTerm, field: FieldText) {
    exists token | token in TextTokens(rules, field.text) :: Accepts(compiled, token.value)
  }

  /** Some term of the list is accepted in some field. */
  ghost predicate AnyAccepted(rules: CharRules, terms: seq<string>, fields: seq<FieldText>) {
    exists term, field | term in terms && field in fields ::
      Compile(rules, term).Ok? && AcceptsField(rules, Compile(rules, term).value, field)
  }

  method FindToken(test: Engine, compiled: CompiledTerm, tokens: seq<Token>) returns (at: nat)
    requires Conforms(test)
    ensures at <= |tokens|
    ensures forall j | 0 <= j < at :: !Accepts(compiled, tokens[j].value)
    ensures at < |tokens| ==> Accepts(compiled, tokens[at].value)
  {
    at := 0;
    while at < |tokens| && !test(compiled, tokens[at].value)
      invariant at <= |tokens|
      invariant forall j | 0 <= j < at :: !Accepts(compiled, tokens[j].value)
    {
      at := at + 1;
    }
  }

  ghost predicate HasHit(rules: CharRules, term: string, compiled: CompiledTerm, field: FieldText, hits: seq<Hit>) {
    exists h | h in hits :: h.term == term && h.field == field.field && IsHit(rules, compiled, field, h.start, h.end)
  }

  /** Every hit is real, and every field that a term accepts has its hit. */
  ghost predicate HitsAreExact(rules: CharRules, terms: seq<string>, kind: Kind, fields: seq<FieldText>, hits: seq<Hit>) {
    && (forall h | h in hits ::
          h.kind == kind && h.term in terms && Compile(rules, h.term).Ok?
          && exists field | field in fields :: field.field == h.field
               && IsHit(rules, Compile(rules, h.term).value, field, h.start, h.end))
    && (forall term, field | term in terms && field in fields ::
          Compile(rules, term).Ok? && AcceptsField(rules, Compile(rules, term).value, field) ==>
            HasHit(rules, term, Compile(rules, term).value, field, hits))
  }

  lemma KeepsHits(rules: CharRules, term: string, compiled: CompiledTerm, fields: seq<FieldText>, hits: seq<Hit>, more: seq<Hit>)
    ensures forall n | 0 <= n < |fields| ::
      HasHit(rules, term, compiled, fields[n], hits) || HasHit(rules, term, compiled, fields[n], more) ==>
        HasHit(rules, term, compiled, fields[n], hits + more)
  {
    hide IsHit;
    assert forall h | h in hits || h in more :: h in hits + more;
  }

  method CollectFieldHits(rules: CharRules, test: Engine, term: string, compiled: CompiledTerm, kind: Kind,
                          fields: seq<FieldText>) returns (hits: seq<Hit>)
    requires Conforms(test) && Compile(rules, term) == Ok(compiled)
    ensures HitsAreExact(rules, [term], kind, fields, hits)
  {
    hide Accepts, TextTokens, IsHit, AcceptsField, HasHit, Compile, RealHit;
    hits := [];
    var i := 0;
    while i < |fields|
      invariant i <= |fields|
      invariant forall h | h in hits :: RealHit(rules, term, compiled, kind, fields, h)
      invariant forall n | 0 <= n < i :: AcceptsField(rules, compiled, fields[n]) ==> HasHit(rules, term, compiled, fields[n], hits)
    {
      var more := CollectFieldHit(rules, test, term, compiled, kind, fields, i);
      KeepsHits(rules, term, compiled, fields, hits, more);
      forall h | h in hits + more ensures h in hits || h in more {}
      hits := hits + more;
      i := i + 1;
    }
    ExactFromFields(rules, term, compiled, kind, fields, hits);
  }

  ghost predicate RealHit(rules: CharRules, term: string, compiled: CompiledTerm, kind: Kind, fields: seq<FieldText>, h: Hit) {
    h.kind == kind && h.term == term
    && exists field | field in fields :: field.field == h.field && IsHit(rules, compiled, field, h.start, h.end)
  }

  lemma ExactFromFields(rules: CharRules, term: string, compiled: CompiledTerm, kind: Kind, fields: seq<FieldText>, hits: seq<Hit>)
    requires Compile(rules, term) == Ok(compiled)
    requires forall h | h in hits :: RealHit(rules, term, compiled, kind, fields, h)
    requires forall n | 0 <= n < |fields| :: AcceptsField(rules, compiled, fields[n]) ==> HasHit(rules, term, compiled, fields[n], hits)
    ensures HitsAreExact(rules, [term], kind, fields, hits)
  {
    hide IsHit, AcceptsField, HasHit, Compile;
  }

  /** The first token of one field that a term accepts. */
  method CollectFieldHit(rules: CharRules, test: Engine, term: string, compiled: CompiledTerm, kind: Kind,
                         fields: seq<FieldText>, i: nat) returns (hits: seq<Hit>)
    requires Conforms(test) && i < |fields|
    ensures forall h | h in hits :: RealHit(rules, term, compiled, kind, fields, h)
    ensures AcceptsField(rules, compiled, fields[i]) ==> HasHit(rules, term, compiled, fields[i], hits)
  {
    hide Accepts, TextTokens;
    var tokens := TextTokens(rules, fields[i].text);
    var at := FindToken(test, compiled, tokens);
    hits := [];
    if at < |tokens| {
      var hit := Hit(term, fields[i].field, kind, tokens[at].start, tokens[at].end);
      assert fields[i] in fields && IsHit(rules, compiled, fields[i], hit.start, hit.end);
      hits := [hit];
      assert hit in hits;
    }
  }

  method CollectHits(rules: CharRules, test: Engine, terms: seq<string>, kind: Kind, fields: seq<FieldText>)
    returns (r: Result<seq<Hit>, TermError>)
    requires Conforms(test)
    ensures r.Ok? <==> forall term | term in terms :: Compile(rules, term).Ok?
    ensures r.Ok? ==> HitsAreExact(rules, terms, kind, fields, r.value)
  {
    hide Accepts, TextTokens, Compile, IsHit, AcceptsField;
    var hits: seq<Hit> := [];
    var i := 0;
    while i < |terms|
      invariant i <= |terms|
      invariant forall n | 0 <= n < i :: Compile(rules, terms[n]).Ok?
      invariant HitsAreExact(rules, terms[..i], kind, fields, hits)
    {
      var compiled := Compile(rules, terms[i]);
      if compiled.Err? {
        assert terms[i] in terms;
        return Err(compiled.error);
      }
      var more := CollectFieldHits(rules, test, terms[i], compiled.value, kind, fields);
      HitsAppend(rules, terms[..i], terms[i], kind, fields, hits, more);
      assert terms[..i + 1] == terms[..i] + [terms[i]];
      hits := hits + more;
      i := i + 1;
    }
    assert terms[..i] == terms;
    r := Ok(hits);
  }

  lemma HitsAppend(rules: CharRules, terms: seq<string>, term: string, kind: Kind, fields: seq<FieldText>,
                   hits: seq<Hit>, more: seq<Hit>)
    requires HitsAreExact(rules, terms, kind, fields, hits)
    requires HitsAreExact(rules, [term], kind, fields, more)
    ensures HitsAreExact(rules, terms + [term], kind, fields, hits + more)
  {
    hide Compile, IsHit, AcceptsField;
    assert forall t :: t in terms + [term] <==> t in terms || t in [term];
    assert forall h :: h in hits + more <==> h in hits || h in more;
    forall t, field | t in terms + [term] && field in fields && Compile(rules, t).Ok?
                      && AcceptsField(rules, Compile(rules, t).value, field)
      ensures HasHit(rules, t, Compile(rules, t).value, field, hits + more)
    {
      assert HasHit(rules, t, Compile(rules, t).value, field, hits) || HasHit(rules, t, Compile(rules, t).value, field, more);
    }
  }

  // ----- what matching means

  /** Of spaces and lower case the matcher needs: line terminators are spaces, and lower case adds none. */
  ghost predicate KeepsLines(rules: CharRules) {
    && (forall c | IsLineTerminator(c) :: rules.isSpace(c))
    && forall s: string | HasNoTerminator(s) :: HasNoTerminator(rules.lower(s))
  }

  predicate HasNoTerminator(s: string) { forall i | 0 <= i < |s| :: !IsLineTerminator(s[i]) }

  /** The normalised glob of a term that compiles. */
  function GlobOf(rules: CharRules, term: string): string
    requires Compile(rules, term).Ok?
  {
    WordsInside(term, rules.isSpace);
    TermTokens(rules, term, Words(term, rules.isSpace))[0]
  }

  /** Some token of some field is what a glob of the list becomes when its stars are replaced. */
  ghost predicate AnyGlobMatches(rules: CharRules, terms: seq<string>, fields: seq<FieldText>) {
    exists term, field | term in terms && field in fields ::
      Compile(rules, term).Ok? && GlobMatchesField(rules, GlobOf(rules, term), field)
  }

  ghost predicate GlobMatchesField(rules: CharRules, glob: string, field: FieldText) {
    exists token | token in TextTokens(rules, field.text) :: GlobMatches(glob, token.value)
  }

  lemma TokenHasNoTerminator(rules: CharRules, text: string, token: Token)
    requires KeepsLines(rules) && token in TextTokens(rules, text)
    ensures HasNoTerminator(token.value)
  {
    hide TextTokens;
    TokensLeadBack(rules, text, token);
    var source := text[token.start..token.end];
    forall i | 0 <= i < |source| ensures !IsLineTerminator(source[i]) {
      assert source[i] == text[token.start + i];
    }
    assert HasNoTerminator(rules.lower(source));
  }

  lemma AcceptsMeansGlob(rules: CharRules, term: string, token: string)
    requires Compile(rules, term).Ok? && HasNoTerminator(token)
    ensures Accepts(Compile(rules, term).value, token) <==> GlobMatches(GlobOf(rules, term), token)
  {
    hide TermTokens, Accepts, GlobMatches, Words, PatternText;
    WordsInside(term, rules.isSpace);
    var tokens := TermTokens(rules, term, Words(term, rules.isSpace));
    OnlySingleTokensCompile(tokens);
    assert tokens == [GlobOf(rules, term)];
    forall c | c in token ensures !IsLineTerminator(c) {
      var i :| 0 <= i < |token| && token[i] == c;
    }
    CompiledTermMeansGlob(GlobOf(rules, term), token);
  }

  /** Being accepted is matching the glob. */
  lemma AcceptedMeansGlob(rules: CharRules, terms: seq<string>, fields: seq<FieldText>)
    requires KeepsLines(rules)
    ensures AnyAccepted(rules, terms, fields) <==> AnyGlobMatches(rules, terms, fields)
  {
    hide KeepsLines, Compile, GlobOf, Accepts, GlobMatches, TextTokens;
    forall term, field | term in terms && field in fields && Compile(rules, term).Ok?
      ensures AcceptsField(rules, Compile(rules, term).value, field) <==> GlobMatchesField(rules, GlobOf(rules, term), field)
    {
      forall token | token in TextTokens(rules, field.text)
        ensures Accepts(Compile(rules, term).value, token.value) <==> GlobMatches(GlobOf(rules, term), token.value)
      {
        TokenHasNoTerminator(rules, field.text, token);
        AcceptsMeansGlob(rules, term, token.value);
      }
    }
  }

  /**
   * A listing matches exactly when some include term is accepted (or there is none) and no exclude
   * term is; it fails exactly when a term is not a single token.
   */
  method MatchListing(rules: CharRules, test: Engine, includeTerms: seq<string>, excludeTerms: seq<string>, fields: seq<FieldText>)
    returns (r: Result<MatchResult, TermError>)
    requires Conforms(test)
    ensures r.Ok? <==> forall term | term in includeTerms + excludeTerms :: Compile(rules, term).Ok?
    ensures r.Ok? ==>
      (r.value.matched <==>
         ((includeTerms == [] || AnyAccepted(rules, includeTerms, fields))
          && !AnyAccepted(rules, excludeTerms, fields)))
    ensures r.Ok? && KeepsLines(rules) ==>
      (r.value.matched <==>
         ((includeTerms == [] || AnyGlobMatches(rules, includeTerms, fields))
          && !AnyGlobMatches(rules, excludeTerms, fields)))
    ensures r.Ok? ==> exists cut: nat | cut <= |r.value.hits| ::
      && HitsAreExact(rules, includeTerms, Include, fields, r.value.hits[..cut])
      && HitsAreExact(rules, excludeTerms, Exclude, fields, r.value.hits[cut..])
  {
    hide Accepts, TextTokens, Compile, AnyAccepted, AnyGlobMatches, HitsAreExact, KeepsLines;
    if KeepsLines(rules) {
      AcceptedMeansGlob(rules, includeTerms, fields);
      AcceptedMeansGlob(rules, excludeTerms, fields);
    }
    assert forall term :: term in includeTerms + excludeTerms <==> term in includeTerms || term in excludeTerms;
    var includeHits := CollectHits(rules, test, includeTerms, Include, fields);
    if includeHits.Err? {
      return Err(includeHits.error);
    }
    var excludeHits := CollectHits(rules, test, excludeTerms, Exclude, fields);
    if excludeHits.Err? {
      return Err(excludeHits.error);
    }
    ExactHitsDecide(rules, includeTerms, Include, fields, includeHits.value);
    ExactHitsDecide(rules, excludeTerms, Exclude, fields, excludeHits.value);
    var hits := includeHits.value + excludeHits.value;
    assert hits[..|includeHits.value|] == includeHits.value && hits[|includeHits.value|..] == excludeHits.value;
    r := Ok(MatchResult((includeTerms == [] || includeHits.value != []) && excludeHits.value == [], hits));
  }

  lemma ExactHitsDecide(rules: CharRules, terms: seq<string>, kind: Kind, fields: seq<FieldText>, hits: seq<Hit>)
    requires HitsAreExact(rules, terms, kind, fields, hits)
    ensures hits != [] <==> AnyAccepted(rules, terms, fields)
  {
    hide Accepts, Compile;
    if hits != [] {
      var h := hits[0];
      assert h in hits;
      var field :| field in fields && field.field == h.field
                   && IsHit(rules, Compile(rules, h.term).value, field, h.start, h.end);
      HitAccepts(rules, Compile(rules, h.term).value, field, h.start, h.end);
    }
  }

  lemma HitAccepts(rules: CharRules, compiled: CompiledTerm, field: FieldText, start: nat, end: nat)
    requires IsHit(rules, compiled, field, start, end)
    ensures AcceptsField(rules, compiled, field)
  {
    hide Accepts;
    var tokens := TextTokens(rules, field.text);
    var k :| 0 <= k < |tokens| && Accepts(compiled, tokens[k].value) && tokens[k].start == start && tokens[k].end == end;
    assert tokens[k] in tokens;
  }

  /** A hit's span lies inside one word of its text. */
  lemma HitLiesInWord(rules: CharRules, compiled: CompiledTerm, field: FieldText, start: nat, end: nat)
    requires IsHit(rules, compiled, field, start, end)
    ensures start < end <= |field.text|
    ensures forall i | start <= i < end :: !rules.isSpace(field.text[i])
  {
    hide Accepts;
    WordsMeaning(field.text, rules.isSpace);
    var tokens := TextTokens(rules, field.text);
    var k :| 0 <= k < |tokens| && Accepts(compiled, tokens[k].value) && tokens[k].start == start && tokens[k].end == end;
    TokensLeadBack(rules, field.text, tokens[k]);
  }
}
