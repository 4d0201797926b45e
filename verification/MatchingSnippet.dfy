/** The excerpt shown for a match: the largest window of whole words around the first hit that fits. */
module MatchingSnippet {
  import opened Basics
  import opened MatchingText
  import opened ListingMatcher

  function Render(text: string, words: seq<Span>, left: nat, right: nat): string
    requires left < |words| && right < |words|
    requires words[left].start <= words[right].end <= |text|
  {
    (if left > 0 then "… " else "") + text[words[left].start..words[right].end]
    + (if right < |words| - 1 then " …" else "")
  }

  /** Whole words, one after another with something between them. */
  ghost predicate InOrder(text: string, words: seq<Span>) {
    && (forall k | 0 <= k < |words| :: words[k].start < words[k].end <= |text|)
    && (forall j, k | 0 <= j < k < |words| :: words[j].end < words[k].start)
  }

  lemma {:induction false} ApartInOrder(text: string, isSpace: char -> bool, words: seq<Span>, j: nat, k: nat)
    requires AreWords(text, isSpace, words, 0) && j < k < |words|
    ensures words[j].end < words[k].start
  {
    if j + 1 < k {
      ApartInOrder(text, isSpace, words, j, k - 1);
      assert words[k - 1].start < words[k - 1].end && words[k - 1].end < words[k].start;
    }
  }

  lemma WordsInOrder(text: string, isSpace: char -> bool)
    ensures AreWords(text, isSpace, Words(text, isSpace), 0)
    ensures InOrder(text, Words(text, isSpace))
  {
    WordsMeaning(text, isSpace);
    var words := Words(text, isSpace);
    forall j, k | 0 <= j < k < |words| ensures words[j].end < words[k].start {
      ApartInOrder(text, isSpace, words, j, k);
    }
  }

  predicate Fits(text: string, words: seq<Span>, left: nat, right: nat, maxLength: int)
    requires left <= right < |words| && InOrder(text, words)
  {
    |Render(text, words, left, right)| <= maxLength
  }

  function Abs(x: int): nat { if x < 0 then -x else x }

  /** How unevenly the window `left..right` extends around the hit. */
  function Imbalance(words: seq<Span>, hit: Span, left: nat, right: nat): nat
    requires left < |words| && right < |words|
  {
    Abs((hit.start - words[left].start) - (words[right].end - hit.end))
  }

  /**
   * Growing the window by one word at a time: of the two neighbours that fit, the one that leaves
   * the window more even, and the left one when both are equally good.
   */
  function Grow(text: string, words: seq<Span>, hit: Span, left: nat, right: nat, maxLength: int): (nat, nat)
    requires left <= right < |words| && InOrder(text, words)
    decreases left + |words| - right
  {
    var canLeft := left > 0 && Fits(text, words, left - 1, right, maxLength);
    var canRight := right < |words| - 1 && Fits(text, words, left, right + 1, maxLength);
    if !canLeft && !canRight then (left, right)
    else if canLeft && (!canRight
                        || Imbalance(words, hit, left - 1, right) <= Imbalance(words, hit, left, right + 1))
    then Grow(text, words, hit, left - 1, right, maxLength)
    else Grow(text, words, hit, left, right + 1, maxLength)
  }

  predicate Overlaps(word: Span, hit: Span) {
    word.start < hit.end && word.end > hit.start
  }

  function FirstOverlap(words: seq<Span>, hit: Span, from: nat): Option<nat>
    requires from <= |words|
    decreases |words| - from
  {
    if from == |words| then None
    else if Overlaps(words[from], hit) then Some(from)
    else FirstOverlap(words, hit, from + 1)
  }

  predicate Relevant(hit: Hit, field: Field) { hit.field == field && hit.kind == Include }

  /** The relevant hit that starts first; the earliest in the list among those. */
  function FirstHit(hits: seq<Hit>, field: Field): (r: Option<Span>)
    ensures r.None? <==> forall h | h in hits :: !Relevant(h, field)
    ensures r.Some? ==> exists h | h in hits :: Relevant(h, field) && r.value == Span(h.start, h.end)
  {
    if hits == [] then None else
      var before := FirstHit(hits[..|hits| - 1], field);
      var last := hits[|hits| - 1];
      assert hits == hits[..|hits| - 1] + [last];
      if Relevant(last, field) && (before.None? || last.start < before.value.start)
      then Some(Span(last.start, last.end)) else before
  }

  function Excerpt(text: string, words: seq<Span>, field: Field, hit: Span, anchor: nat, maxLength: int): Option<string>
    requires anchor < |words| && InOrder(text, words)
  {
    if !Fits(text, words, anchor, anchor, maxLength) then None else
      var window := Grow(text, words, hit, anchor, anchor, maxLength);
      GrowFits(text, words, hit, anchor, anchor, maxLength);
      if field == Title && window == (0, |words| - 1) then None
      else Some(Render(text, words, window.0, window.1))
  }

  /** What the excerpt is; `words` are the words of `text`. */
  function Snippet(text: string, words: seq<Span>, field: Field, hits: seq<Hit>, maxLength: int): Option<string>
    requires InOrder(text, words)
  {
    if maxLength <= 0 || (field == Title && |text| <= maxLength) then None else
      var hit := FirstHit(hits, field);
      if hit.None? then None else
        var anchor := FirstOverlap(words, hit.value, 0);
        FirstOverlapMeaning(words, hit.value, 0);
        if anchor.None? then None else Excerpt(text, words, field, hit.value, anchor.value, maxLength)
  }

  lemma {:induction false} FirstOverlapMeaning(words: seq<Span>, hit: Span, from: nat)
    requires from <= |words|
    ensures var r := FirstOverlap(words, hit, from);
      && (r.None? <==> forall k | from <= k < |words| :: !Overlaps(words[k], hit))
      && (r.Some? ==> from <= r.value < |words| && Overlaps(words[r.value], hit)
                      && forall k | from <= k < r.value :: !Overlaps(words[k], hit))
    decreases |words| - from
  {
    if from < |words| && !Overlaps(words[from], hit) {
      FirstOverlapMeaning(words, hit, from + 1);
    }
  }

  lemma {:induction false} GrowFits(text: string, words: seq<Span>, hit: Span, left: nat, right: nat, maxLength: int)
    requires left <= right < |words| && InOrder(text, words)
    requires Fits(text, words, left, right, maxLength)
    ensures var w := Grow(text, words, hit, left, right, maxLength);
      && w.0 <= left && right <= w.1 < |words|
      && Fits(text, words, w.0, w.1, maxLength)
      && (w.0 > 0 ==> !Fits(text, words, w.0 - 1, w.1, maxLength))
      && (w.1 < |words| - 1 ==> !Fits(text, words, w.0, w.1 + 1, maxLength))
    decreases left + |words| - right
  {
    hide Fits, InOrder, Imbalance;
    var canLeft := left > 0 && Fits(text, words, left - 1, right, maxLength);
    var canRight := right < |words| - 1 && Fits(text, words, left, right + 1, maxLength);
    if canLeft || canRight {
      if canLeft && (!canRight
                     || Imbalance(words, hit, left - 1, right) <= Imbalance(words, hit, left, right + 1)) {
        GrowFits(text, words, hit, left - 1, right, maxLength);
      } else {
        GrowFits(text, words, hit, left, right + 1, maxLength);
      }
    }
  }

  method GetWords(text: string, isSpace: char -> bool) returns (words: seq<Span>)
    ensures words == Words(text, isSpace)
    ensures InOrder(text, words)
  {
    WordsInOrder(text, isSpace);
    words := Words(text, isSpace);
  }

  method EarliestHit(hits: seq<Hit>, field: Field) returns (r: Option<Span>)
    ensures r == FirstHit(hits, field)
  {
    r := None;
    var i := 0;
    while i < |hits|
      invariant i <= |hits|
      invariant r == FirstHit(hits[..i], field)
    {
      if Relevant(hits[i], field) && (r.None? || hits[i].start < r.value.start) {
        r := Some(Span(hits[i].start, hits[i].end));
      }
      assert hits[..i + 1][..i] == hits[..i];
      i := i + 1;
    }
    assert hits[..i] == hits;
  }

  /** The loop that moves `left` and `right` outwards. */
  method WidenWindow(text: string, words: seq<Span>, hit: Span, anchor: nat, maxLength: int)
    returns (left: nat, right: nat)
    requires anchor < |words| && InOrder(text, words)
    ensures left <= right < |words|
    ensures (left, right) == Grow(text, words, hit, anchor, anchor, maxLength)
  {
    hide Imbalance, InOrder, Fits;
    left, right := anchor, anchor;
    while true
      invariant left <= right < |words|
      invariant Grow(text, words, hit, anchor, anchor, maxLength) == Grow(text, words, hit, left, right, maxLength)
      decreases left + |words| - right
    {
      var canLeft := left > 0 && Fits(text, words, left - 1, right, maxLength);
      var canRight := right < |words| - 1 && Fits(text, words, left, right + 1, maxLength);
      if !canLeft && !canRight {
        break;
      }
      if canLeft && (!canRight
                     || Imbalance(words, hit, left - 1, right) <= Imbalance(words, hit, left, right + 1)) {
        left := left - 1;
      } else {
        right := right + 1;
      }
    }
  }

  method ExtractMatchingSnippet(text: string, isSpace: char -> bool, field: Field, hits: seq<Hit>, maxLength: int)
    returns (r: Option<string>)
    ensures InOrder(text, Words(text, isSpace))
    ensures r == Snippet(text, Words(text, isSpace), field, hits, maxLength)
  {
    hide Words, Grow, Imbalance, FirstHit;
    var words := GetWords(text, isSpace);
    if maxLength <= 0 {
      return None;
    }
    if field == Title && |text| <= maxLength {
      return None;
    }
    var hit := EarliestHit(hits, field);
    if hit.None? {
      return None;
    }
    var anchor: nat := 0;
    while anchor < |words| && !Overlaps(words[anchor], hit.value)
      invariant anchor <= |words|
      invariant FirstOverlap(words, hit.value, 0) == FirstOverlap(words, hit.value, anchor)
    {
      anchor := anchor + 1;
    }
    if anchor == |words| {
      return None;
    }
    if !Fits(text, words, anchor, anchor, maxLength) {
      return None;
    }
    var left, right := WidenWindow(text, words, hit.value, anchor, maxLength);
    if left == 0 && right == |words| - 1 {
      if field == Title {
        return None;
      }
      assert Render(text, words, left, right) == text[words[0].start..words[|words| - 1].end];
      return Some(text[words[0].start..words[|words| - 1].end]);
    }
    r := Some(Render(text, words, left, right));
  }

  // ----- maximality

  /** Taking in one more word never shortens the rendering, even where an ellipsis disappears. */
  lemma OneWordGrows(text: string, words: seq<Span>, left: nat, right: nat)
    requires left <= right < |words| && InOrder(text, words)
    ensures left > 0 ==> |Render(text, words, left, right)| <= |Render(text, words, left - 1, right)|
    ensures right < |words| - 1 ==> |Render(text, words, left, right)| <= |Render(text, words, left, right + 1)|
  {
  }

  lemma {:induction false} RenderingGrows(text: string, words: seq<Span>, left: nat, right: nat, left': nat, right': nat)
    requires left' <= left <= right <= right' < |words| && InOrder(text, words)
    ensures |Render(text, words, left, right)| <= |Render(text, words, left', right')|
    decreases left - left' + right' - right
  {
    OneWordGrows(text, words, left, right);
    if left' < left {
      RenderingGrows(text, words, left - 1, right, left', right');
    } else if right < right' {
      RenderingGrows(text, words, left, right + 1, left', right');
    }
  }

  /** `left..right` contains the anchor, fits, and no strictly larger window of whole words fits. */
  ghost predicate IsMaximal(text: string, words: seq<Span>, anchor: nat, left: nat, right: nat, maxLength: int)
    requires InOrder(text, words)
  {
    && left <= anchor <= right < |words|
    && |Render(text, words, left, right)| <= maxLength
    && forall l: nat, r: nat | l <= left && right <= r < |words| && (l, r) != (left, right) ::
         |Render(text, words, l, r)| > maxLength
  }

  lemma GrowIsMaximal(text: string, words: seq<Span>, hit: Span, anchor: nat, maxLength: int)
    requires anchor < |words| && InOrder(text, words) && Fits(text, words, anchor, anchor, maxLength)
    ensures var w := Grow(text, words, hit, anchor, anchor, maxLength);
      IsMaximal(text, words, anchor, w.0, w.1, maxLength)
  {
    hide Grow, Render;
    GrowFits(text, words, hit, anchor, anchor, maxLength);
    var w := Grow(text, words, hit, anchor, anchor, maxLength);
    forall l: nat, r: nat | l <= w.0 && w.1 <= r < |words| && (l, r) != (w.0, w.1)
      ensures |Render(text, words, l, r)| > maxLength
    {
      if l < w.0 {
        RenderingGrows(text, words, w.0 - 1, w.1, l, r);
      } else {
        RenderingGrows(text, words, w.0, w.1 + 1, l, r);
      }
    }
  }

  /**
   * An excerpt is the rendering of a maximal window around the first word the first hit touches. For
   * a description there is one exactly when a relevant hit touches a word that fits by itself.
   */
  lemma SnippetIsMaximal(text: string, words: seq<Span>, field: Field, hits: seq<Hit>, maxLength: int)
    requires InOrder(text, words)
    ensures var r := Snippet(text, words, field, hits, maxLength);
      && (r.Some? ==>
            exists hit, anchor: nat, left: nat, right: nat ::
              && FirstHit(hits, field) == Some(hit) && FirstOverlap(words, hit, 0) == Some(anchor)
              && IsMaximal(text, words, anchor, left, right, maxLength)
              && r.value == Render(text, words, left, right)
              && |r.value| <= maxLength)
      && (field == Description ==>
            (r.Some? <==>
               exists hit, anchor: nat ::
                 && FirstHit(hits, field) == Some(hit) && FirstOverlap(words, hit, 0) == Some(anchor)
                 && anchor < |words| && 0 < maxLength && Fits(text, words, anchor, anchor, maxLength)))
  {
    hide InOrder, IsMaximal, Render, FirstHit, FirstOverlap, Grow;
    var hit := FirstHit(hits, field);
    if hit.Some? {
      FirstOverlapMeaning(words, hit.value, 0);
      var anchor := FirstOverlap(words, hit.value, 0);
      if anchor.Some? && Fits(text, words, anchor.value, anchor.value, maxLength) {
        GrowIsMaximal(text, words, hit.value, anchor.value, maxLength);
        GrowFits(text, words, hit.value, anchor.value, anchor.value, maxLength);
        var w := Grow(text, words, hit.value, anchor.value, anchor.value, maxLength);
        assert IsMaximal(text, words, anchor.value, w.0, w.1, maxLength);
      }
    }
  }

  /** A real hit always touches a word, so a description that matched is anchored. */
  lemma RealHitIsAnchored(text: string, isSpace: char -> bool, hit: Span)
    requires hit.start < hit.end <= |text|
    requires forall i | hit.start <= i < hit.end :: !isSpace(text[i])
    ensures FirstOverlap(Words(text, isSpace), hit, 0).Some?
  {
    hide Words;
    WordsMeaning(text, isSpace);
    var words := Words(text, isSpace);
    assert !isSpace(text[hit.start]);
    var k :| 0 <= k < |words| && Within(hit.start, words[k]);
    assert Overlaps(words[k], hit);
    FirstOverlapMeaning(words, hit, 0);
  }

  // ----- what is shown

  /** The include hit of the field at `k` starts first, and is the first in the list that does. */
  ghost predicate StartsFirst(hits: seq<Hit>, field: Field, k: nat) {
    && k < |hits| && hits[k].field == field && hits[k].kind == Include
    && forall j | 0 <= j < |hits| && hits[j].field == field && hits[j].kind == Include ::
         hits[k].start <= hits[j].start && (j < k ==> hits[k].start < hits[j].start)
  }

  ghost predicate IsFirstHit(hits: seq<Hit>, field: Field, hit: Span) {
    exists k: nat :: StartsFirst(hits, field, k) && hit == Span(hits[k].start, hits[k].end)
  }

  lemma {:induction false} FirstHitMeaning(hits: seq<Hit>, field: Field)
    ensures var r := FirstHit(hits, field);
      if r.Some? then IsFirstHit(hits, field, r.value)
      else forall h | h in hits :: h.field != field || h.kind != Include
  {
    hide IsFirstHit, StartsFirst;
    if hits != [] {
      var n := |hits| - 1;
      var front := hits[..n];
      FirstHitMeaning(front, field);
      var before := FirstHit(front, field);
      assert hits == front + [hits[n]];
      if Relevant(hits[n], field) && (before.None? || hits[n].start < before.value.start) {
        LastStartsFirst(hits, field);
      } else if before.Some? {
        FrontStartsFirst(hits, field, before.value);
      }
    }
  }

  lemma FrontStartsFirst(hits: seq<Hit>, field: Field, hit: Span)
    requires hits != []
    requires var n := |hits| - 1;
      IsFirstHit(hits[..n], field, hit) && !(Relevant(hits[n], field) && hits[n].start < hit.start)
    ensures IsFirstHit(hits, field, hit)
  {
    var front := hits[..|hits| - 1];
    var k: nat :| StartsFirst(front, field, k) && hit == Span(front[k].start, front[k].end);
    assert StartsFirst(hits, field, k);
  }

  lemma LastStartsFirst(hits: seq<Hit>, field: Field)
    requires hits != []
    requires var n := |hits| - 1;
      var before := FirstHit(hits[..n], field);
      && Relevant(hits[n], field) && (before.None? || hits[n].start < before.value.start)
      && if before.Some? then IsFirstHit(hits[..n], field, before.value)
         else forall h | h in hits[..n] :: h.field != field || h.kind != Include
    ensures IsFirstHit(hits, field, Span(hits[|hits| - 1].start, hits[|hits| - 1].end))
  {
    hide FirstHit;
    var n: nat := |hits| - 1;
    forall j | 0 <= j < n && hits[j].field == field && hits[j].kind == Include
      ensures hits[n].start < hits[j].start
    {
      assert hits[..n][j] == hits[j] && hits[j] in hits[..n];
    }
    assert StartsFirst(hits, field, n);
  }

  /** The units an excerpt of the words `left..right` takes: their stretch of text, and two for each ellipsis. */
  ghost function WindowLength(words: seq<Span>, left: nat, right: nat): int
    requires left < |words| && right < |words|
  {
    words[right].end - words[left].start + (if left == 0 then 0 else 2) + (if right == |words| - 1 then 0 else 2)
  }

  /** `s` is the stretch of text from word `left` to word `right`, with an ellipsis wherever words are left out. */
  ghost predicate Shows(text: string, words: seq<Span>, left: nat, right: nat, s: string)
    requires left <= right < |words| && InOrder(text, words)
  {
    var before := if left == 0 then "" else "… ";
    var behind := if right == |words| - 1 then "" else " …";
    assert words[left].start <= words[right].end;
    s == before + text[words[left].start..words[right].end] + behind
  }

  ghost predicate ContainsHit(text: string, hit: Span, s: string)
    requires hit.start <= hit.end <= |text|
  {
    exists i: nat, j: nat | i <= j <= |s| :: s[i..j] == text[hit.start..hit.end]
  }

  lemma ShownHit(text: string, words: seq<Span>, hit: Span, left: nat, right: nat, s: string)
    requires left <= right < |words| && InOrder(text, words) && Shows(text, words, left, right, s)
    requires words[left].start <= hit.start <= hit.end <= words[right].end
    ensures ContainsHit(text, hit, s)
  {
    var before := if left == 0 then "" else "… ";
    var (start, end) := (words[left].start, words[right].end);
    var behind := if right == |words| - 1 then "" else " …";
    Inside(text, start, end, hit.start, hit.end, before, behind);
  }

  /** A part of the middle piece stands in the whole. */
  lemma Inside(text: string, start: nat, end: nat, from: nat, to: nat, before: string, behind: string)
    requires start <= from <= to <= end <= |text|
    ensures ContainsHit(text, Span(from, to), before + text[start..end] + behind)
  {
    var s := before + text[start..end] + behind;
    var i := |before| + from - start;
    var j := i + to - from;
    assert forall k | i <= k < j :: s[k] == text[start..end][k - |before|] == text[k - |before| + start];
    assert s[i..j] == text[from..to];
  }

  /** A relevant hit is never empty and holds no space; `ListingMatcher.HitLiesInWord` says so of every hit. */
  ghost predicate RealHits(text: string, isSpace: char -> bool, field: Field, hits: seq<Hit>) {
    forall h | h in hits && h.field == field && h.kind == Include ::
      h.start < h.end <= |text| && forall i | h.start <= i < h.end :: !isSpace(text[i])
  }

  /** A stretch without spaces that touches a word lies inside that word. */
  lemma HitInsideItsWord(text: string, isSpace: char -> bool, hit: Span, anchor: nat)
    requires hit.start < hit.end <= |text| && forall i | hit.start <= i < hit.end :: !isSpace(text[i])
    requires FirstOverlap(Words(text, isSpace), hit, 0) == Some(anchor)
    ensures var words := Words(text, isSpace);
      anchor < |words| && words[anchor].start <= hit.start && hit.end <= words[anchor].end
  {
    hide Words;
    WordsMeaning(text, isSpace);
    var words := Words(text, isSpace);
    FirstOverlapMeaning(words, hit, 0);
    var word := words[anchor];
    if hit.start < word.start {
      assert hit.start <= word.start - 1 < hit.end;
      SpaceAroundWords(text, isSpace, words, anchor, word.start - 1);
    }
    if word.end < hit.end {
      SpaceAroundWords(text, isSpace, words, anchor, word.end);
    }
  }

  /** What stands next to a word is a space. */
  lemma SpaceAroundWords(text: string, isSpace: char -> bool, words: seq<Span>, k: nat, i: nat)
    requires AreWords(text, isSpace, words, 0) && k < |words| && i < |text|
    requires i + 1 == words[k].start || i == words[k].end
    ensures isSpace(text[i])
  {
    if !isSpace(text[i]) {
      var j :| 0 <= j < |words| && Within(i, words[j]);
      if j < k {
        ApartInOrder(text, isSpace, words, j, k);
      } else if k < j {
        ApartInOrder(text, isSpace, words, k, j);
      }
    }
  }

  /** The word the hit lies in. */
  ghost predicate IsAnchor(words: seq<Span>, hit: Span, anchor: nat) {
    anchor < |words| && words[anchor].start <= hit.start && hit.end <= words[anchor].end
  }

  /** The excerpt: the words `left..right` around the hit, which fit, while no larger window does. */
  ghost predicate IsExcerpt(text: string, words: seq<Span>, hit: Span, left: nat, right: nat, maxLength: int, s: string)
    requires InOrder(text, words) && hit.start <= hit.end <= |text|
  {
    && left <= right < |words|
    && words[left].start <= hit.start && hit.end <= words[right].end
    && Shows(text, words, left, right, s)
    && ContainsHit(text, hit, s)
    && |s| == WindowLength(words, left, right) <= maxLength
    && forall l: nat, r: nat | l <= left && right <= r < |words| && (l, r) != (left, right) ::
         WindowLength(words, l, r) > maxLength
  }

  /** Why there is no excerpt. */
  ghost predicate NothingToShow(text: string, words: seq<Span>, field: Field, hits: seq<Hit>, maxLength: int) {
    || maxLength <= 0
    || (forall h | h in hits :: h.field != field || h.kind != Include)
    || (exists hit, anchor: nat | IsFirstHit(hits, field, hit) && IsAnchor(words, hit, anchor) ::
          WindowLength(words, anchor, anchor) > maxLength)
    || (field == Title && |text| <= maxLength)
    || (field == Title && words != [] && WindowLength(words, 0, |words| - 1) <= maxLength)
  }

  lemma RenderShows(text: string, words: seq<Span>)
    requires InOrder(text, words)
    ensures forall l: nat, r: nat | l <= r < |words| ::
      && |Render(text, words, l, r)| == WindowLength(words, l, r)
      && Shows(text, words, l, r, Render(text, words, l, r))
  {
  }

  lemma OneFirstHit(hits: seq<Hit>, field: Field, a: Span, b: Span)
    requires IsFirstHit(hits, field, a) && IsFirstHit(hits, field, b)
    ensures a == b
  {
  }

  lemma OneAnchor(text: string, words: seq<Span>, hit: Span, a: nat, b: nat)
    requires InOrder(text, words) && hit.start < hit.end && IsAnchor(words, hit, a) && IsAnchor(words, hit, b)
    ensures a == b
  {
  }

  /** The window that grows from the anchor, as an excerpt. */
  lemma GrownIsExcerpt(text: string, words: seq<Span>, hit: Span, anchor: nat, maxLength: int)
    requires InOrder(text, words) && hit.start < hit.end <= |text| && IsAnchor(words, hit, anchor)
    requires WindowLength(words, anchor, anchor) <= maxLength
    ensures Fits(text, words, anchor, anchor, maxLength)
    ensures var w := Grow(text, words, hit, anchor, anchor, maxLength);
      && w.0 <= anchor <= w.1 < |words|
      && IsExcerpt(text, words, hit, w.0, w.1, maxLength, Render(text, words, w.0, w.1))
      && (w == (0, |words| - 1) <==> WindowLength(words, 0, |words| - 1) <= maxLength)
  {
    hide Grow, Render, WindowLength, Shows, ContainsHit;
    RenderShows(text, words);
    GrowIsMaximal(text, words, hit, anchor, maxLength);
    var w := Grow(text, words, hit, anchor, anchor, maxLength);
    ShownHit(text, words, hit, w.0, w.1, Render(text, words, w.0, w.1));
  }

  lemma ExcerptMeaning(text: string, words: seq<Span>, field: Field, hits: seq<Hit>, hit: Span, anchor: nat,
                       maxLength: int)
    requires InOrder(text, words) && hit.start < hit.end <= |text| && IsAnchor(words, hit, anchor)
    requires FirstHit(hits, field) == Some(hit) && FirstOverlap(words, hit, 0) == Some(anchor)
    requires IsFirstHit(hits, field, hit)
    ensures var r := Snippet(text, words, field, hits, maxLength);
      && (r.None? <==> NothingToShow(text, words, field, hits, maxLength))
      && (r.Some? ==> exists left: nat, right: nat :: IsExcerpt(text, words, hit, left, right, maxLength, r.value))
  {
    hide Grow, Render, IsExcerpt, FirstHit, FirstOverlap, InOrder, IsFirstHit, WindowLength;
    RenderShows(text, words);
    forall h | IsFirstHit(hits, field, h) ensures h == hit {
      OneFirstHit(hits, field, h, hit);
    }
    forall a: nat | IsAnchor(words, hit, a) ensures a == anchor {
      OneAnchor(text, words, hit, a, anchor);
    }
    assert exists h | h in hits :: h.field == field && h.kind == Include by { HasFirstHit(hits, field, hit); }
    if WindowLength(words, anchor, anchor) <= maxLength {
      GrownIsExcerpt(text, words, hit, anchor, maxLength);
    }
  }

  lemma HasFirstHit(hits: seq<Hit>, field: Field, hit: Span)
    requires IsFirstHit(hits, field, hit)
    ensures exists h | h in hits :: h.field == field && h.kind == Include
  {
  }

  /**
   * What the excerpt of real hits is, said of the text: the first hit stands in it, whole words around
   * it, an ellipsis exactly where words are left out, and no larger window fits. There is none exactly
   * when the limit is not positive, nothing matched, the word of the first hit does not fit, or a title
   * fits as it is or would be shown whole.
   */
  lemma SnippetShowsFirstHit(text: string, isSpace: char -> bool, field: Field, hits: seq<Hit>, maxLength: int)
    requires RealHits(text, isSpace, field, hits)
    ensures var words := Words(text, isSpace);
      && InOrder(text, words)
      && var r := Snippet(text, words, field, hits, maxLength);
         && (r.None? <==> NothingToShow(text, words, field, hits, maxLength))
         && (r.Some? ==>
               exists hit, left: nat, right: nat ::
                 && IsFirstHit(hits, field, hit) && hit.end <= |text| && hit.start <= hit.end
                 && IsExcerpt(text, words, hit, left, right, maxLength, r.value))
  {
    WordsInOrder(text, isSpace);
    var words := Words(text, isSpace);
    FirstHitMeaning(hits, field);
    var first := FirstHit(hits, field);
    if first.Some? {
      RealHitIsAnchored(text, isSpace, first.value);
      var anchor := FirstOverlap(words, first.value, 0).value;
      HitInsideItsWord(text, isSpace, first.value, anchor);
      ExcerptMeaning(text, words, field, hits, first.value, anchor, maxLength);
    }
  }

  // ----- which words come first

  /** How much more text the window shows before the hit than behind it. */
  ghost function Lean(words: seq<Span>, hit: Span, left: nat, right: nat): int
    requires left < |words| && right < |words|
  {
    (hit.start - words[left].start) - (words[right].end - hit.end)
  }

  ghost predicate NoFurtherFromZero(x: int, y: int) {
    (x <= y || x <= -y) && (-x <= y || -x <= -y)
  }

  /** One word joins the window: a neighbour that fits, and of two that fit the one leaving the smaller lean, or the left. */
  ghost predicate WidensEvenly(words: seq<Span>, hit: Span, maxLength: int, before: (nat, nat), after: (nat, nat)) {
    && before.0 <= before.1 < |words|
    && var leftFits := before.0 > 0 && WindowLength(words, before.0 - 1, before.1) <= maxLength;
       var rightFits := before.1 + 1 < |words| && WindowLength(words, before.0, before.1 + 1) <= maxLength;
       && (leftFits || rightFits)
       && var takesLeft := leftFits && (rightFits ==>
            NoFurtherFromZero(Lean(words, hit, before.0 - 1, before.1), Lean(words, hit, before.0, before.1 + 1)));
          if takesLeft then after.0 + 1 == before.0 && after.1 == before.1
          else after.0 == before.0 && after.1 == before.1 + 1
  }

  ghost predicate IsWidening(words: seq<Span>, hit: Span, maxLength: int, windows: seq<(nat, nat)>) {
    forall k | 0 < k < |windows| :: WidensEvenly(words, hit, maxLength, windows[k - 1], windows[k])
  }

  /** The final window is reached word by word, each time on the side that keeps the hit nearer the middle. */
  lemma {:induction false} WindowGrowsEvenly(text: string, words: seq<Span>, hit: Span, left: nat, right: nat, maxLength: int)
    returns (windows: seq<(nat, nat)>)
    requires left <= right < |words| && InOrder(text, words)
    ensures windows != [] && windows[0] == (left, right)
    ensures windows[|windows| - 1] == Grow(text, words, hit, left, right, maxLength)
    ensures IsWidening(words, hit, maxLength, windows)
    decreases left + |words| - right
  {
    hide InOrder, Render;
    RenderShows(text, words);
    var canLeft := left > 0 && Fits(text, words, left - 1, right, maxLength);
    var canRight := right < |words| - 1 && Fits(text, words, left, right + 1, maxLength);
    windows := [(left, right)];
    if canLeft || canRight {
      var rest;
      if canLeft && (!canRight
                     || Imbalance(words, hit, left - 1, right) <= Imbalance(words, hit, left, right + 1)) {
        rest := WindowGrowsEvenly(text, words, hit, left - 1, right, maxLength);
      } else {
        rest := WindowGrowsEvenly(text, words, hit, left, right + 1, maxLength);
      }
      assert WidensEvenly(words, hit, maxLength, (left, right), rest[0]);
      windows := windows + rest;
    }
  }
}
