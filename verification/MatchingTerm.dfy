/**
 * Compiling a keyword with `*` to a regular expression: the text that is emitted, what that text
 * means when read back as a pattern, and which tokens the compiled term accepts.
 */
module MatchingTerm {
  import opened Basics

  // ----- what the compiler emits

  const SYNTAX_CHARACTERS: set<char> := {'.', '*', '+', '?', '^', '$', '{', '}', '(', ')', '|', '[', ']', '\\'}

  function EscapeRegExp(value: string): string {
    if value == [] then []
    else (if value[0] in SYNTAX_CHARACTERS then ['\\', value[0]] else [value[0]]) + EscapeRegExp(value[1..])
  }

  function EscapeAll(pieces: seq<string>): (r: seq<string>)
    ensures |r| == |pieces|
  {
    if pieces == [] then [] else [EscapeRegExp(pieces[0])] + EscapeAll(pieces[1..])
  }

  function Join(pieces: seq<string>, separator: string): string
    requires pieces != []
  {
    if |pieces| == 1 then pieces[0] else pieces[0] + separator + Join(pieces[1..], separator)
  }

  function PatternText(term: string): string {
    "^" + Join(EscapeAll(Split(term, '*')), ".*") + "$"
  }

  datatype CompiledTerm = Exact(term: string) | Pattern(text: string)

  datatype TermError = NotOneToken

  function CompileMatchingTerm(normalizedTokens: seq<string>): Result<CompiledTerm, TermError> {
    if |normalizedTokens| != 1 then Err(NotOneToken)
    else if '*' !in normalizedTokens[0] then Ok(Exact(normalizedTokens[0]))
    else Ok(Pattern(PatternText(normalizedTokens[0])))
  }

  // ----- reading a pattern

  /**
   * The part of the Pattern grammar (section 22.2.1 of ECMA-262, Unicode mode) made of assertions,
   * single characters, identity escapes, `.` and the greedy `*` quantifier. Text that needs any
   * other production reads as None.
   */
  datatype Node = InputStart | InputEnd | Literal(c: char) | AnyCharacter | Star(atom: Node)

  datatype AtomRead = AtomRead(node: Node, rest: string)

  function ReadAtom(text: string): (r: Option<AtomRead>)
    ensures r.Some? ==> |r.value.rest| < |text|
  {
    if text == [] then None
    else if text[0] == '.' then Some(AtomRead(AnyCharacter, text[1..]))
    else if text[0] == '\\' then
      if |text| >= 2 && (text[1] in SYNTAX_CHARACTERS || text[1] == '/')
      then Some(AtomRead(Literal(text[1]), text[2..])) else None
    else if text[0] in SYNTAX_CHARACTERS then None
    else Some(AtomRead(Literal(text[0]), text[1..]))
  }

  function Prepend(node: Node, rest: Option<seq<Node>>): Option<seq<Node>> {
    if rest.None? then None else Some([node] + rest.value)
  }

  function ReadPattern(text: string): Option<seq<Node>>
    decreases |text|
  {
    if text == [] then Some([])
    else if text[0] == '^' then Prepend(InputStart, ReadPattern(text[1..]))
    else if text[0] == '$' then Prepend(InputEnd, ReadPattern(text[1..]))
    else
      var atom := ReadAtom(text);
      if atom.None? then None
      else if atom.value.rest != [] && atom.value.rest[0] == '*' then
        if |atom.value.rest| >= 2 && atom.value.rest[1] == '?' then None
        else Prepend(Star(atom.value.node), ReadPattern(atom.value.rest[1..]))
      else Prepend(atom.value.node, ReadPattern(atom.value.rest))
  }

  // ----- matching a pattern

  predicate IsLineTerminator(c: char) {
    c == '\n' || c == '\r' || c == '\U{2028}' || c == '\U{2029}'
  }

  predicate MatchesOne(atom: Node, c: char) {
    match atom
    case Literal(x) => c == x
    case AnyCharacter => !IsLineTerminator(c)
    case _ => false
  }

  /** `nodes` can match `s` from position `i` up to position `j`. */
  ghost predicate Matches(nodes: seq<Node>, s: string, i: nat, j: nat)
    requires i <= |s| && j <= |s|
    decreases |nodes|
  {
    if nodes == [] then i == j else
      var rest := nodes[1..];
      match nodes[0]
      case InputStart => i == 0 && Matches(rest, s, i, j)
      case InputEnd => i == |s| && Matches(rest, s, i, j)
      case Star(atom) =>
        exists m: nat | i <= m <= |s| ::
          (forall k | i <= k < m :: MatchesOne(atom, s[k])) && Matches(rest, s, m, j)
      case atom => i < |s| && MatchesOne(atom, s[i]) && Matches(rest, s, i + 1, j)
  }

  /** `new RegExp(text, 'u').test(s)` for the texts ReadPattern can read. */
  ghost predicate RegExpTest(text: string, s: string) {
    ReadPattern(text).Some?
    && exists i: nat, j: nat | i <= |s| && j <= |s| :: Matches(ReadPattern(text).value, s, i, j)
  }

  ghost predicate Accepts(compiled: CompiledTerm, token: string) {
    match compiled
    case Exact(term) => token == term
    case Pattern(text) => RegExpTest(text, token)
  }

  // ----- what a term means

  function Stars(term: string): nat {
    if term == [] then 0 else (if term[0] == '*' then 1 else 0) + Stars(term[1..])
  }

  /** The term with its stars replaced, left to right, by `fillers`. */
  function Fill(term: string, fillers: seq<string>): string
    requires |fillers| == Stars(term)
  {
    if term == [] then []
    else if term[0] == '*' then fillers[0] + Fill(term[1..], fillers[1..])
    else [term[0]] + Fill(term[1..], fillers)
  }

  ghost predicate GlobMatches(term: string, token: string) {
    exists fillers: seq<string> | |fillers| == Stars(term) :: Fill(term, fillers) == token
  }

  /** The literal characters of a term, its stars standing for any sequence. */
  function TermNodes(term: string): seq<Node> {
    if term == [] then []
    else [if term[0] == '*' then Star(AnyCharacter) else Literal(term[0])] + TermNodes(term[1..])
  }

  // ----- the emitted text reads back as the term

  /** The emitted text, character by character. */
  function Emitted(term: string): string {
    if term == [] then []
    else (if term[0] == '*' then ".*" else if term[0] in SYNTAX_CHARACTERS then ['\\', term[0]] else [term[0]])
         + Emitted(term[1..])
  }

  lemma {:induction false} JoinIsEmitted(term: string)
    ensures Join(EscapeAll(Split(term, '*')), ".*") == Emitted(term)
  {
    if term != [] {
      JoinIsEmitted(term[1..]);
      var pieces := Split(term[1..], '*');
      var escaped := EscapeAll(pieces);
      if term[0] == '*' {
        assert Split(term, '*')[1..] == pieces;
        assert EscapeAll(Split(term, '*')) == [EscapeRegExp([])] + escaped;
        assert ([EscapeRegExp([])] + escaped)[1..] == escaped;
        assert Join(EscapeAll(Split(term, '*')), ".*") == [] + ".*" + Join(escaped, ".*");
      } else {
        var first := [term[0]] + pieces[0];
        assert first[1..] == pieces[0];
        assert Split(term, '*') == [first] + pieces[1..];
        assert ([first] + pieces[1..])[1..] == pieces[1..];
        assert EscapeAll(Split(term, '*')) == [EscapeRegExp(first)] + EscapeAll(pieces[1..]);
        assert escaped == [EscapeRegExp(pieces[0])] + EscapeAll(pieces[1..]);
        assert escaped[1..] == EscapeAll(pieces[1..]);
        var one := if term[0] in SYNTAX_CHARACTERS then ['\\', term[0]] else [term[0]];
        assert EscapeRegExp(first) == one + EscapeRegExp(pieces[0]);
        JoinHead(one, EscapeRegExp(pieces[0]), EscapeAll(pieces[1..]));
      }
    }
  }

  lemma JoinHead(a: string, b: string, rest: seq<string>)
    ensures Join([a + b] + rest, ".*") == a + Join([b] + rest, ".*")
  {
    assert ([a + b] + rest)[1..] == rest && ([b] + rest)[1..] == rest;
    if rest != [] {
      assert a + b + ".*" + Join(rest, ".*") == a + (b + ".*" + Join(rest, ".*"));
    }
  }

  /** No emitted text starts with a quantifier. */
  lemma EmittedStart(term: string, tail: string)
    requires tail == [] || (tail[0] != '*' && tail[0] != '?')
    ensures Emitted(term) + tail == [] || ((Emitted(term) + tail)[0] != '*' && (Emitted(term) + tail)[0] != '?')
  {
  }

  lemma {:induction false} ReadEmitted(term: string)
    ensures ReadPattern(Emitted(term) + "$") == Some(TermNodes(term) + [InputEnd])
  {
    if term == [] {
      assert Emitted(term) + "$" == "$";
      assert "$"[1..] == [];
      assert TermNodes(term) + [InputEnd] == [InputEnd] == [InputEnd] + [];
    } else {
      var rest := Emitted(term[1..]) + "$";
      ReadEmitted(term[1..]);
      EmittedStart(term[1..], "$");
      assert TermNodes(term) + [InputEnd] == [TermNodes(term)[0]] + (TermNodes(term[1..]) + [InputEnd]);
      var text := Emitted(term) + "$";
      if term[0] == '*' {
        assert text == ".*" + rest;
        assert text[1..] == "*" + rest && text[1..][1..] == rest;
        assert text[1..][0] == '*';
        assert |text[1..]| >= 2 ==> text[1..][1] == rest[0];
      } else if term[0] in SYNTAX_CHARACTERS {
        assert text == ['\\', term[0]] + rest;
        assert text[2..] == rest;
      } else {
        assert text == [term[0]] + rest;
        assert text[1..] == rest;
      }
    }
  }

  /** The emitted text is exactly the literal pieces separated by any-sequences, anchored on both sides. */
  lemma PatternReadsBack(term: string)
    ensures ReadPattern(PatternText(term)) == Some([InputStart] + TermNodes(term) + [InputEnd])
  {
    JoinIsEmitted(term);
    ReadEmitted(term);
    var text := PatternText(term);
    assert text == "^" + (Emitted(term) + "$");
    assert text[1..] == Emitted(term) + "$";
    assert [InputStart] + TermNodes(term) + [InputEnd] == [InputStart] + (TermNodes(term) + [InputEnd]);
  }

  // ----- the pattern accepts what the term means

  lemma {:induction false} MatchesFill(term: string, s: string, i: nat, fillers: seq<string>)
    requires i <= |s| && |fillers| == Stars(term)
    requires Fill(term, fillers) == s[i..]
    requires forall c | c in s :: !IsLineTerminator(c)
    ensures Matches(TermNodes(term) + [InputEnd], s, i, |s|)
  {
    var nodes := TermNodes(term) + [InputEnd];
    if term == [] {
      assert nodes[1..] == [];
    } else {
      assert nodes[1..] == TermNodes(term[1..]) + [InputEnd];
      if term[0] == '*' {
        var m := i + |fillers[0]|;
        assert |s[i..]| >= |fillers[0]|;
        assert s[m..] == s[i..][|fillers[0]|..] == Fill(term[1..], fillers[1..]);
        MatchesFill(term[1..], s, m, fillers[1..]);
        assert forall k | i <= k < m :: s[k] in s && MatchesOne(AnyCharacter, s[k]);
      } else {
        assert s[i..][0] == s[i] == term[0];
        assert s[i + 1..] == s[i..][1..] == Fill(term[1..], fillers);
        MatchesFill(term[1..], s, i + 1, fillers);
      }
    }
  }

  lemma {:induction false} FillMatches(term: string, s: string, i: nat, j: nat) returns (fillers: seq<string>)
    requires i <= |s| && j <= |s|
    requires Matches(TermNodes(term) + [InputEnd], s, i, j)
    ensures |fillers| == Stars(term)
    ensures Fill(term, fillers) == s[i..]
  {
    var nodes := TermNodes(term) + [InputEnd];
    if term == [] {
      fillers := [];
    } else {
      assert nodes[1..] == TermNodes(term[1..]) + [InputEnd];
      if term[0] == '*' {
        var m: nat :| i <= m <= |s| && (forall k | i <= k < m :: MatchesOne(AnyCharacter, s[k]))
                      && Matches(nodes[1..], s, m, j);
        var rest := FillMatches(term[1..], s, m, j);
        fillers := [s[i..m]] + rest;
        assert fillers[1..] == rest;
        assert s[i..] == s[i..m] + s[m..];
      } else {
        fillers := FillMatches(term[1..], s, i + 1, j);
        assert s[i..] == [s[i]] + s[i + 1..];
      }
    }
  }

  lemma {:induction false} NoStars(term: string)
    requires '*' !in term
    ensures Stars(term) == 0 && Fill(term, []) == term
  {
    if term != [] {
      NoStars(term[1..]);
      assert term == [term[0]] + term[1..];
    }
  }

  /**
   * A term that is one token compiles, and accepts a token without line terminators exactly when
   * some replacement of its stars gives that token.
   */
  lemma CompiledTermMeansGlob(term: string, token: string)
    requires forall c | c in token :: !IsLineTerminator(c)
    ensures CompileMatchingTerm([term]).Ok?
    ensures Accepts(CompileMatchingTerm([term]).value, token) <==> GlobMatches(term, token)
  {
    if '*' !in term {
      NoStars(term);
      if GlobMatches(term, token) {
        var fillers: seq<string> :| |fillers| == Stars(term) && Fill(term, fillers) == token;
        assert fillers == [];
      } else {
        assert Fill(term, []) != token;
      }
    } else {
      PatternReadsBack(term);
      var nodes := [InputStart] + TermNodes(term) + [InputEnd];
      assert nodes[1..] == TermNodes(term) + [InputEnd];
      if GlobMatches(term, token) {
        var fillers: seq<string> :| |fillers| == Stars(term) && Fill(term, fillers) == token;
        assert token[0..] == token;
        MatchesFill(term, token, 0, fillers);
        assert Matches(nodes, token, 0, |token|);
      }
      if RegExpTest(PatternText(term), token) {
        var i: nat, j: nat :| i <= |token| && j <= |token| && Matches(nodes, token, i, j);
        var fillers := FillMatches(term, token, 0, j);
        assert token[0..] == token;
      }
    }
  }

  /** Terms that are not exactly one token are refused. */
  lemma OnlySingleTokensCompile(normalizedTokens: seq<string>)
    ensures CompileMatchingTerm(normalizedTokens).Ok? <==> exists term :: normalizedTokens == [term]
  {
    if |normalizedTokens| == 1 {
      assert normalizedTokens == [normalizedTokens[0]];
    }
  }
}
