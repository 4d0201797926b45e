/**
 * The Telegram message of a match: rendering, and shortening to the limit of 4096 units.
 * A text is a list of code points; its length counts UTF-16 units, two for a code point outside the
 * basic plane.
 */
module MessageTemplate {
  import opened Basics

  const TELEGRAM_MESSAGE_LIMIT: nat := 4096
  const ELLIPSIS := "…"

  datatype PriceKind = Negotiable | Free | Unknown | Fixed

  datatype MessageInput = MessageInput(
    monitorName: string,
    title: string,
    priceKind: PriceKind,
    priceAmount: Option<string>,
    currency: Option<string>,
    region: Option<string>,
    url: string,
    snippet: Option<string>)

  datatype MessageFields = MessageFields(
    monitorName: string,
    title: string,
    price: string,
    region: Option<string>,
    url: string,
    snippet: Option<string>)

  // ----- length

  function Units(c: char): nat { if c as int >= 0x10000 then 2 else 1 }

  function Length(text: string): nat {
    if text == [] then 0 else Units(text[0]) + Length(text[1..])
  }

  lemma {:induction false} LengthConcat(a: string, b: string)
    ensures Length(a + b) == Length(a) + Length(b)
  {
    if a == [] {
      assert a + b == b;
    } else {
      assert (a + b)[1..] == a[1..] + b;
      LengthConcat(a[1..], b);
    }
  }

  lemma {:induction false} BasicPlaneLength(text: string)
    requires forall i | 0 <= i < |text| :: text[i] as int < 0x10000
    ensures Length(text) == |text|
  {
    if text != [] {
      BasicPlaneLength(text[1..]);
    }
  }

  // ----- rendering

  /** `text.replaceAll(target, replacement)` for a one-character target */
  function ReplaceAll(text: string, target: char, replacement: string): string {
    if text == [] then []
    else (if text[0] == target then replacement else [text[0]]) + ReplaceAll(text[1..], target, replacement)
  }

  function EscapeHtml(value: string): string {
    ReplaceAll(ReplaceAll(ReplaceAll(value, '&', "&amp;"), '<', "&lt;"), '>', "&gt;")
  }

  function FormatPrice(input: MessageInput): string {
    match input.priceKind
    case Negotiable => "Договорная"
    case Free => "Бесплатно"
    case Unknown => "Цена не указана"
    case Fixed =>
      if input.priceAmount.None? then "Цена не указана"
      else if input.currency.None? then input.priceAmount.value
      else input.priceAmount.value + " " + input.currency.value
  }

  function OptionalLine(caption: string, value: Option<string>): seq<string> {
    if value.None? then [] else [caption + EscapeHtml(value.value)]
  }

  function JoinLines(lines: seq<string>): string {
    if lines == [] then ""
    else if |lines| == 1 then lines[0]
    else lines[0] + "\n" + JoinLines(lines[1..])
  }

  function RenderMessage(fields: MessageFields): string {
    JoinLines(["<b>" + EscapeHtml(fields.monitorName) + "</b>", EscapeHtml(fields.title), "Цена: " + EscapeHtml(fields.price)]
              + OptionalLine("Регион: ", fields.region)
              + OptionalLine("Описание: ", fields.snippet)
              + [EscapeHtml(fields.url)])
  }

  predicate Fits(text: string) { Length(text) <= TELEGRAM_MESSAGE_LIMIT }

  // ----- escaping

  lemma {:induction false} ReplaceAllConcat(a: string, b: string, target: char, replacement: string)
    ensures ReplaceAll(a + b, target, replacement) == ReplaceAll(a, target, replacement) + ReplaceAll(b, target, replacement)
  {
    if a == [] {
      assert a + b == b;
    } else {
      assert (a + b)[1..] == a[1..] + b;
      ReplaceAllConcat(a[1..], b, target, replacement);
    }
  }

  lemma EscapeConcat(a: string, b: string)
    ensures EscapeHtml(a + b) == EscapeHtml(a) + EscapeHtml(b)
  {
    ReplaceAllConcat(a, b, '&', "&amp;");
    var (a1, b1) := (ReplaceAll(a, '&', "&amp;"), ReplaceAll(b, '&', "&amp;"));
    ReplaceAllConcat(a1, b1, '<', "&lt;");
    ReplaceAllConcat(ReplaceAll(a1, '<', "&lt;"), ReplaceAll(b1, '<', "&lt;"), '>', "&gt;");
  }

  /** What one character becomes when the three replacements run in this order. */
  function Entity(c: char): string {
    if c == '&' then "&amp;" else if c == '<' then "&lt;" else if c == '>' then "&gt;" else [c]
  }

  lemma {:induction false} ReplaceNothing(text: string, target: char, replacement: string)
    requires forall i | 0 <= i < |text| :: text[i] != target
    ensures ReplaceAll(text, target, replacement) == text
  {
    if text != [] {
      ReplaceNothing(text[1..], target, replacement);
    }
  }

  lemma ReplaceOne(c: char, target: char, replacement: string)
    ensures ReplaceAll([c], target, replacement) == if c == target then replacement else [c]
  {
    assert [c][1..] == [];
  }

  lemma EscapeOne(c: char)
    ensures EscapeHtml([c]) == Entity(c)
  {
    ReplaceOne(c, '&', "&amp;");
    if c == '&' {
      ReplaceNothing("&amp;", '<', "&lt;");
      ReplaceNothing("&amp;", '>', "&gt;");
    } else {
      ReplaceOne(c, '<', "&lt;");
      if c == '<' {
        ReplaceNothing("&lt;", '>', "&gt;");
      } else {
        ReplaceOne(c, '>', "&gt;");
      }
    }
  }

  function Unescape(text: string): string {
    if text == [] then []
    else if "&amp;" <= text then ['&'] + Unescape(text[5..])
    else if "&lt;" <= text then ['<'] + Unescape(text[4..])
    else if "&gt;" <= text then ['>'] + Unescape(text[4..])
    else [text[0]] + Unescape(text[1..])
  }

  /** Escaping loses nothing and leaves no markup: reading the entities back gives the value. */
  lemma {:induction false} EscapeReadsBack(value: string)
    ensures Unescape(EscapeHtml(value)) == value
    ensures forall i | 0 <= i < |EscapeHtml(value)| :: EscapeHtml(value)[i] != '<' && EscapeHtml(value)[i] != '>'
  {
    if value != [] {
      var (c, rest) := (value[0], value[1..]);
      assert value == [c] + rest;
      EscapeConcat([c], rest);
      EscapeOne(c);
      EscapeReadsBack(rest);
      UnescapeEntity(c, EscapeHtml(rest));
    }
  }

  lemma UnescapeEntity(c: char, rest: string)
    ensures Unescape(Entity(c) + rest) == [c] + Unescape(rest)
  {
    var text := Entity(c) + rest;
    if c == '&' {
      assert text[5..] == rest && "&amp;" <= text;
    } else if c == '<' {
      assert text[4..] == rest && text[1] == 'l' && "&lt;" <= text;
    } else if c == '>' {
      assert text[4..] == rest && text[1] == 'g' && "&gt;" <= text;
    } else {
      assert text[0] == c && text[1..] == rest;
    }
  }

  function EscapedLength(value: string): nat { Length(EscapeHtml(value)) }

  lemma EscapedLengthConcat(a: string, b: string)
    ensures EscapedLength(a + b) == EscapedLength(a) + EscapedLength(b)
  {
    EscapeConcat(a, b);
    LengthConcat(EscapeHtml(a), EscapeHtml(b));
  }

  lemma EllipsisLength()
    ensures EscapedLength(ELLIPSIS) == 1 && EscapedLength("") == 0
  {
    EscapeOne('…');
    assert ELLIPSIS == ['…'];
    BasicPlaneLength(['…']);
  }

  // ----- the length of a message

  lemma JoinTwo(line: string, lines: seq<string>)
    requires lines != []
    ensures Length(JoinLines([line] + lines)) == Length(line) + 1 + Length(JoinLines(lines))
  {
    assert ([line] + lines)[1..] == lines;
    LengthConcat(line, "\n");
    LengthConcat(line + "\n", JoinLines(lines));
    BasicPlaneLength("\n");
  }

  function OptionalLength(overhead: nat, value: Option<string>): nat {
    if value.None? then 0 else overhead + EscapedLength(value.value)
  }

  lemma OptionalLineLength(caption: string, value: Option<string>, lines: seq<string>)
    requires lines != [] && Length(caption) == |caption|
    ensures Length(JoinLines(OptionalLine(caption, value) + lines)) == OptionalLength(|caption| + 1, value) + Length(JoinLines(lines))
  {
    if value.Some? {
      var line := caption + EscapeHtml(value.value);
      JoinTwo(line, lines);
      LengthConcat(caption, EscapeHtml(value.value));
    } else {
      assert OptionalLine(caption, value) + lines == lines;
    }
  }

  lemma TagLengths()
    ensures Length("<b>") == |"<b>"| == 3
    ensures Length("</b>") == |"</b>"| == 4
  {
    hide Length;
    BasicPlaneLength("<b>");
    BasicPlaneLength("</b>");
  }

  lemma PriceCaption()
    ensures Length("Цена: ") == |"Цена: "| == 6
  {
    hide Length;
    BasicPlaneLength("Цена: ");
  }

  lemma RegionCaption()
    ensures Length("Регион: ") == |"Регион: "| == 8
  {
    hide Length;
    BasicPlaneLength("Регион: ");
  }

  lemma SnippetCaption()
    ensures Length("Описание: ") == |"Описание: "| == 10
  {
    hide Length;
    BasicPlaneLength("Описание: ");
  }

  lemma RenderLength(fields: MessageFields)
    ensures Length(RenderMessage(fields)) ==
            16 + EscapedLength(fields.monitorName) + EscapedLength(fields.title) + EscapedLength(fields.price)
            + OptionalLength(9, fields.region) + OptionalLength(11, fields.snippet) + EscapedLength(fields.url)
  {
    hide EscapeHtml, OptionalLine, JoinLines, Length;
    TagLengths();
    PriceCaption();
    RegionCaption();
    SnippetCaption();
    var name := "<b>" + EscapeHtml(fields.monitorName) + "</b>";
    var title := EscapeHtml(fields.title);
    var price := "Цена: " + EscapeHtml(fields.price);
    var url := [EscapeHtml(fields.url)];
    var snippet := OptionalLine("Описание: ", fields.snippet) + url;
    var region := OptionalLine("Регион: ", fields.region) + snippet;
    assert [name, title, price] + OptionalLine("Регион: ", fields.region) + OptionalLine("Описание: ", fields.snippet) + url
        == [name] + ([title] + ([price] + region));
    JoinTwo(name, [title] + ([price] + region));
    JoinTwo(title, [price] + region);
    JoinTwo(price, region);
    OptionalLineLength("Регион: ", fields.region, snippet);
    OptionalLineLength("Описание: ", fields.snippet, url);
    JoinOne(EscapeHtml(fields.url));
    LengthConcat("<b>", EscapeHtml(fields.monitorName));
    LengthConcat("<b>" + EscapeHtml(fields.monitorName), "</b>");
    LengthConcat("Цена: ", EscapeHtml(fields.price));
  }

  lemma JoinOne(line: string)
    ensures JoinLines([line]) == line
  {
  }

  // ----- shortening one field

  datatype Field = Snippet | Title | MonitorName | Link | Price

  predicate HasField(fields: MessageFields, field: Field) { field == Snippet ==> fields.snippet.Some? }

  function Get(fields: MessageFields, field: Field): string
    requires HasField(fields, field)
  {
    match field
    case Snippet => fields.snippet.value
    case Title => fields.title
    case MonitorName => fields.monitorName
    case Link => fields.url
    case Price => fields.price
  }

  function With(fields: MessageFields, field: Field, value: string): MessageFields {
    match field
    case Snippet => fields.(snippet := Some(value))
    case Title => fields.(title := value)
    case MonitorName => fields.(monitorName := value)
    case Link => fields.(url := value)
    case Price => fields.(price := value)
  }

  function RenderWith(fields: MessageFields, field: Field): string -> string {
    value => RenderMessage(With(fields, field, value))
  }

  function Candidate(value: string, length: nat): string
    requires length <= |value|
  {
    value[..length] + ELLIPSIS
  }

  /** The greatest prefix tried first. */
  function LongestFrom(value: string, render: string -> string, length: nat): string
    requires length <= |value|
  {
    if Fits(render(Candidate(value, length))) then Candidate(value, length)
    else if length == 0 then ""
    else LongestFrom(value, render, length - 1)
  }

  function MaximalPrefix(value: string): nat { if value == [] then 0 else |value| - 1 }

  function Truncated(value: string, render: string -> string): string {
    if Fits(render(value)) then value else LongestFrom(value, render, MaximalPrefix(value))
  }

  /** A shorter prefix never renders to a text that is too long when a longer one fits. */
  ghost predicate Monotone(value: string, render: string -> string) {
    forall j: nat, k: nat | j <= k <= MaximalPrefix(value) ::
      Fits(render(Candidate(value, k))) ==> Fits(render(Candidate(value, j)))
  }

  method TruncateToFit(value: string, renderWithValue: string -> string) returns (best: string)
    ensures Monotone(value, renderWithValue) ==> best == Truncated(value, renderWithValue)
    ensures Fits(renderWithValue(best)) || best == ""
  {
    if Fits(renderWithValue(value)) {
      return value;
    }
    var low, high: int := 0, MaximalPrefix(value);
    best := "";
    while low <= high
      invariant 0 <= low <= high + 1 <= MaximalPrefix(value) + 1
      invariant best == if low == 0 then "" else Candidate(value, low - 1)
      invariant low > 0 ==> Fits(renderWithValue(best))
      invariant Monotone(value, renderWithValue) ==>
                  LongestFrom(value, renderWithValue, MaximalPrefix(value))
                  == if high < 0 then "" else LongestFrom(value, renderWithValue, high)
    {
      var midpoint := (low + high) / 2;
      var candidate := Candidate(value, midpoint);
      if Fits(renderWithValue(candidate)) {
        best := candidate;
        low := midpoint + 1;
      } else {
        if Monotone(value, renderWithValue) {
          LongestSkips(value, renderWithValue, midpoint, high);
        }
        high := midpoint - 1;
      }
    }
  }

  lemma {:induction false} LongestSkips(value: string, render: string -> string, length: nat, high: nat)
    requires length <= high <= MaximalPrefix(value)
    requires Monotone(value, render) && !Fits(render(Candidate(value, length)))
    ensures LongestFrom(value, render, high) == if length == 0 then "" else LongestFrom(value, render, length - 1)
    decreases high
  {
    if length < high {
      LongestSkips(value, render, length, high - 1);
    }
  }

  /** The value when it fits, else its longest prefix that fits with an ellipsis, else nothing. */
  lemma TruncatedIsLongest(value: string, render: string -> string)
    ensures Fits(render(value)) ==> Truncated(value, render) == value
    ensures !Fits(render(value)) && Truncated(value, render) != "" ==>
              exists k: nat :: k <= MaximalPrefix(value)
                && Truncated(value, render) == Candidate(value, k) && Fits(render(Candidate(value, k)))
                && forall j: nat | k < j <= MaximalPrefix(value) :: !Fits(render(Candidate(value, j)))
    ensures !Fits(render(value)) && Truncated(value, render) == "" ==>
              forall j: nat | j <= MaximalPrefix(value) :: !Fits(render(Candidate(value, j)))
  {
    if !Fits(render(value)) {
      LongestIsLongest(value, render, MaximalPrefix(value));
    }
  }

  lemma {:induction false} LongestIsLongest(value: string, render: string -> string, length: nat)
    requires length <= |value|
    ensures LongestFrom(value, render, length) != "" ==>
              exists k: nat :: k <= length
                && LongestFrom(value, render, length) == Candidate(value, k) && Fits(render(Candidate(value, k)))
                && forall j: nat | k < j <= length :: !Fits(render(Candidate(value, j)))
    ensures LongestFrom(value, render, length) == "" ==>
              forall j: nat | j <= length :: !Fits(render(Candidate(value, j)))
  {
    if Fits(render(Candidate(value, length))) {
      assert |Candidate(value, length)| > 0;
    } else if length > 0 {
      LongestIsLongest(value, render, length - 1);
    }
  }

  // ----- the message

  function FieldsOf(input: MessageInput): MessageFields {
    MessageFields(input.monitorName, input.title, FormatPrice(input), input.region, input.url, input.snippet)
  }

  function Shorten(fields: MessageFields, field: Field): MessageFields
    requires HasField(fields, field)
  {
    With(fields, field, Truncated(Get(fields, field), RenderWith(fields, field)))
  }

  /** The fields that are finally rendered. */
  function FinalFields(fields: MessageFields): MessageFields {
    if Fits(RenderMessage(fields)) then fields
    else if fields.snippet.Some? && Fits(RenderMessage(fields.(snippet := None))) then Shorten(fields, Snippet)
    else
      var titled := Shorten(fields.(snippet := None), Title);
      if Fits(RenderMessage(titled)) then titled else
        var named := Shorten(titled, MonitorName);
        if Fits(RenderMessage(named)) then named else
          var placeless := named.(region := None);
          if Fits(RenderMessage(placeless)) then placeless else
            var linked := Shorten(placeless, Link);
            if Fits(RenderMessage(linked)) then linked else Shorten(linked, Price)
  }

  lemma {:induction false} PrefixEscapesShorter(value: string, j: nat, k: nat)
    requires j <= k <= |value|
    ensures EscapedLength(value[..j]) <= EscapedLength(value[..k])
  {
    assert value[..k] == value[..j] + value[j..k];
    EscapedLengthConcat(value[..j], value[j..k]);
  }

  lemma WithLength(fields: MessageFields, field: Field, value: string)
    ensures Length(RenderMessage(With(fields, field, value))) == Length(RenderMessage(With(fields, field, ""))) + EscapedLength(value)
  {
    hide RenderMessage, EscapedLength;
    RenderLength(With(fields, field, value));
    RenderLength(With(fields, field, ""));
    EllipsisLength();
  }

  lemma RenderingIsMonotone(fields: MessageFields, field: Field, value: string)
    ensures Monotone(value, RenderWith(fields, field))
  {
    forall j: nat, k: nat | j <= k <= MaximalPrefix(value)
      ensures Fits(RenderWith(fields, field)(Candidate(value, k))) ==> Fits(RenderWith(fields, field)(Candidate(value, j)))
    {
      WithLength(fields, field, Candidate(value, j));
      WithLength(fields, field, Candidate(value, k));
      PrefixEscapesShorter(value, j, k);
      EscapedLengthConcat(value[..j], ELLIPSIS);
      EscapedLengthConcat(value[..k], ELLIPSIS);
    }
  }

  method TruncateField(fields: MessageFields, field: Field) returns (r: string)
    requires HasField(fields, field)
    ensures With(fields, field, r) == Shorten(fields, field)
  {
    RenderingIsMonotone(fields, field, Get(fields, field));
    r := TruncateToFit(Get(fields, field), RenderWith(fields, field));
  }

  method FormatTelegramMessage(input: MessageInput) returns (message: string)
    ensures message == RenderMessage(FinalFields(FieldsOf(input)))
  {
    hide RenderMessage, Fits, Truncated, RenderWith;
    var fields := FieldsOf(input);
    if Fits(RenderMessage(fields)) {
      return RenderMessage(fields);
    }
    if fields.snippet.Some? {
      var withoutSnippet := fields.(snippet := None);
      if Fits(RenderMessage(withoutSnippet)) {
        var snippet := TruncateField(fields, Snippet);
        fields := fields.(snippet := Some(snippet));
        return RenderMessage(fields);
      }
      fields := fields.(snippet := None);
    }
    var title := TruncateField(fields, Title);
    fields := fields.(title := title);
    if Fits(RenderMessage(fields)) {
      return RenderMessage(fields);
    }
    var monitorName := TruncateField(fields, MonitorName);
    fields := fields.(monitorName := monitorName);
    if Fits(RenderMessage(fields)) {
      return RenderMessage(fields);
    }
    fields := fields.(region := None);
    if Fits(RenderMessage(fields)) {
      return RenderMessage(fields);
    }
    var url := TruncateField(fields, Link);
    fields := fields.(url := url);
    if Fits(RenderMessage(fields)) {
      return RenderMessage(fields);
    }
    var price := TruncateField(fields, Price);
    fields := fields.(price := price);
    message := RenderMessage(fields);
  }

  // ----- main results

  /** The message without its description fits, with an empty description line it does not. */
  predicate TooTight(fields: MessageFields) {
    fields.snippet.Some? && 4086 <= Length(RenderMessage(fields.(snippet := None))) <= TELEGRAM_MESSAGE_LIMIT
  }

  lemma ShortenOutcome(fields: MessageFields, field: Field)
    requires HasField(fields, field)
    ensures var r := Shorten(fields, field);
            && HasField(r, field)
            && (Fits(RenderMessage(r)) || Get(r, field) == "")
            && (Fits(RenderMessage(fields)) ==> r == fields)
  {
    hide RenderMessage;
    var value := Get(fields, field);
    TruncatedIsLongest(value, RenderWith(fields, field));
    assert With(fields, field, value) == fields;
  }

  lemma SnippetFits(fields: MessageFields)
    requires fields.snippet.Some? && !Fits(RenderMessage(fields)) && Fits(RenderMessage(fields.(snippet := None)))
    ensures Fits(RenderMessage(Shorten(fields, Snippet))) <==> !TooTight(fields)
  {
    hide RenderMessage, EscapedLength;
    var r := Shorten(fields, Snippet);
    ShortenOutcome(fields, Snippet);
    RenderLength(r);
    RenderLength(fields.(snippet := None));
    EllipsisLength();
  }

  /** The message respects the limit except in the tight case. */
  lemma MessageFitsExactly(input: MessageInput)
    ensures Length(RenderMessage(FinalFields(FieldsOf(input)))) <= TELEGRAM_MESSAGE_LIMIT <==> !TooTight(FieldsOf(input))
  {
    var fields := FieldsOf(input);
    if Fits(RenderMessage(fields)) {
      FittingIsNotTight(fields);
    } else if fields.snippet.Some? && Fits(RenderMessage(fields.(snippet := None))) {
      SnippetFits(fields);
    } else {
      assert !TooTight(fields);
      RestFits(fields);
    }
  }

  lemma FittingIsNotTight(fields: MessageFields)
    requires Fits(RenderMessage(fields))
    ensures !TooTight(fields)
  {
    hide RenderMessage, EscapedLength;
    RenderLength(fields);
    RenderLength(fields.(snippet := None));
  }

  lemma RestFits(fields: MessageFields)
    requires !Fits(RenderMessage(fields)) && !(fields.snippet.Some? && Fits(RenderMessage(fields.(snippet := None))))
    ensures Fits(RenderMessage(FinalFields(fields)))
  {
    hide RenderMessage, EscapedLength, Truncated;
    var titled := Shorten(fields.(snippet := None), Title);
    ShortenOutcome(fields.(snippet := None), Title);
    var named := Shorten(titled, MonitorName);
    ShortenOutcome(titled, MonitorName);
    var placeless := named.(region := None);
    var linked := Shorten(placeless, Link);
    ShortenOutcome(placeless, Link);
    var priced := Shorten(linked, Price);
    ShortenOutcome(linked, Price);
    EllipsisLength();
    RenderLength(priced);
  }

  /** A field is touched only when everything less important is already gone. */
  lemma SacrificeOrder(fields: MessageFields)
    ensures var r := FinalFields(fields);
            && (r.title != fields.title ==> r.snippet.None?)
            && (r.monitorName != fields.monitorName ==> r.snippet.None? && r.title == "")
            && (r.region != fields.region ==> r.snippet.None? && r.title == "" && r.monitorName == "" && r.region.None?)
            && (r.url != fields.url ==> r.snippet.None? && r.title == "" && r.monitorName == "" && r.region.None?)
            && (r.price != fields.price ==> r.snippet.None? && r.title == r.monitorName == r.url == "" && r.region.None?)
  {
    hide RenderMessage, Truncated;
    if !Fits(RenderMessage(fields)) && !(fields.snippet.Some? && Fits(RenderMessage(fields.(snippet := None)))) {
      var titled := Shorten(fields.(snippet := None), Title);
      ShortenOutcome(fields.(snippet := None), Title);
      var named := Shorten(titled, MonitorName);
      ShortenOutcome(titled, MonitorName);
      var placeless := named.(region := None);
      ShortenOutcome(placeless, Link);
      ShortenOutcome(Shorten(placeless, Link), Price);
    }
  }

  // ----- what a message says

  /** `text` is `value` escaped: without markup, and read back it is the value. */
  ghost predicate Shows(text: string, value: string) {
    Unescape(text) == value && forall i | 0 <= i < |text| :: text[i] != '<' && text[i] != '>'
  }

  lemma JoinMore(line: string, lines: seq<string>)
    requires lines != []
    ensures JoinLines([line] + lines) == line + "\n" + JoinLines(lines)
  {
    assert ([line] + lines)[1..] == lines;
  }

  lemma JoinOptional(caption: string, value: Option<string>, lines: seq<string>) returns (shown: string)
    requires lines != []
    ensures value.Some? ==> Shows(shown, value.value)
    ensures JoinLines(OptionalLine(caption, value) + lines)
         == (if value.Some? then caption + shown + "\n" else "") + JoinLines(lines)
  {
    hide EscapeHtml, Unescape, JoinLines;
    if value.Some? {
      shown := EscapeHtml(value.value);
      EscapeReadsBack(value.value);
      JoinMore(caption + shown, lines);
    } else {
      shown := "";
      assert OptionalLine(caption, value) + lines == lines;
    }
  }

  /**
   * Line by line: the name in bold, the title, the price; the region and the description where there is
   * one; the link last. Every field reads back from its place.
   */
  lemma MessageShowsFields(fields: MessageFields)
    returns (name: string, title: string, price: string, region: string, snippet: string, url: string)
    ensures Shows(name, fields.monitorName) && Shows(title, fields.title) && Shows(price, fields.price)
    ensures Shows(url, fields.url)
    ensures fields.region.Some? ==> Shows(region, fields.region.value)
    ensures fields.snippet.Some? ==> Shows(snippet, fields.snippet.value)
    ensures RenderMessage(fields)
         == "<b>" + name + "</b>" + "\n" + title + "\n" + "Цена: " + price + "\n"
            + (if fields.region.Some? then "Регион: " + region + "\n" else "")
            + (if fields.snippet.Some? then "Описание: " + snippet + "\n" else "")
            + url
  {
    hide EscapeHtml, Unescape, JoinLines, OptionalLine;
    name, title, price, url :=
      EscapeHtml(fields.monitorName), EscapeHtml(fields.title), EscapeHtml(fields.price), EscapeHtml(fields.url);
    EscapeReadsBack(fields.monitorName);
    EscapeReadsBack(fields.title);
    EscapeReadsBack(fields.price);
    EscapeReadsBack(fields.url);
    var last := OptionalLine("Описание: ", fields.snippet) + [url];
    var behind := OptionalLine("Регион: ", fields.region) + last;
    snippet := JoinOptional("Описание: ", fields.snippet, [url]);
    region := JoinOptional("Регион: ", fields.region, last);
    JoinOne(url);
    var (first, second, third) := ("<b>" + name + "</b>", title, "Цена: " + price);
    assert [first, second, third] + OptionalLine("Регион: ", fields.region) + OptionalLine("Описание: ", fields.snippet) + [url]
        == [first] + ([second] + ([third] + behind));
    JoinMore(first, [second] + ([third] + behind));
    JoinMore(second, [third] + behind);
    JoinMore(third, behind);
  }

  /** Only a fixed price with an amount shows one, and then its currency if there is one. */
  lemma PriceMeaning(input: MessageInput)
    ensures var price := FormatPrice(input);
      if input.priceKind == Fixed && input.priceAmount.Some? then
        && input.priceAmount.value <= price
        && var behind := price[|input.priceAmount.value|..];
           (input.currency.None? ==> behind == "") && (input.currency.Some? ==> behind == " " + input.currency.value)
      else
        && (price == "Договорная" <==> input.priceKind == Negotiable)
        && (price == "Бесплатно" <==> input.priceKind == Free)
        && (price == "Цена не указана" <==> input.priceKind in {Unknown, Fixed})
  {
    assert "Договорная"[0] == 'Д' && "Бесплатно"[0] == 'Б' && "Цена не указана"[0] == 'Ц';
  }

  // ----- nothing is given up in vain

  /** A field as it was, cut off with an ellipsis, or emptied. */
  ghost predicate IsCutFrom(value: string, full: string) {
    value == full || value == "" || exists k: nat :: k < |full| && value == full[..k] + "…"
  }

  /** A longer form of the field, the full one included, does not fit into the message. */
  ghost predicate IsCutLate(fields: MessageFields, field: Field, value: string, full: string) {
    value != full ==>
      && !Fits(RenderMessage(With(fields, field, full)))
      && forall j: nat | j < |full| && |value| < j + 1 :: !Fits(RenderMessage(With(fields, field, full[..j] + "…")))
  }

  lemma ShortenCutsLate(fields: MessageFields, field: Field)
    requires HasField(fields, field)
    ensures var r := Shorten(fields, field);
      && With(fields, field, Get(r, field)) == r
      && IsCutFrom(Get(r, field), Get(fields, field))
      && IsCutLate(fields, field, Get(r, field), Get(fields, field))
      && (Get(r, field) != "" ==> Fits(RenderMessage(r)))
  {
    hide RenderMessage, Fits, LongestFrom;
    var full := Get(fields, field);
    var render := RenderWith(fields, field);
    TruncatedIsLongest(full, render);
    var value := Truncated(full, render);
    assert With(fields, field, full) == fields;
    if !Fits(render(full)) && value != "" {
      var k: nat :| k <= MaximalPrefix(full) && value == Candidate(full, k) && Fits(render(Candidate(full, k)))
        && forall j: nat | k < j <= MaximalPrefix(full) :: !Fits(render(Candidate(full, j)));
      EmptyDoesNotEllipse(fields, field, full, k);
      forall j: nat | j < |full| && |value| < j + 1 ensures !Fits(RenderMessage(With(fields, field, full[..j] + "…"))) {
        assert !Fits(render(Candidate(full, j)));
      }
    } else if !Fits(render(full)) {
      forall j: nat | j < |full| ensures !Fits(RenderMessage(With(fields, field, full[..j] + "…"))) {
        assert !Fits(render(Candidate(full, j)));
      }
    }
  }

  /** An empty field is never replaced by a bare ellipsis, which would be longer. */
  lemma EmptyDoesNotEllipse(fields: MessageFields, field: Field, full: string, k: nat)
    requires k <= MaximalPrefix(full) && !Fits(RenderWith(fields, field)(full)) && Fits(RenderWith(fields, field)(Candidate(full, k)))
    ensures k < |full|
  {
    hide RenderMessage, EscapedLength;
    assert full == [] ==> Candidate(full, k) == ELLIPSIS;
    WithLength(fields, field, full);
    WithLength(fields, field, ELLIPSIS);
    EllipsisLength();
  }

  /**
   * A message that fits is left as it is. Otherwise the description goes only when the message does not
   * fit without it, the region only when nothing but price and link is left besides, and each other field
   * is cut, as little as lets the message fit, while everything more important is whole.
   */
  lemma NothingGivenUpInVain(fields: MessageFields)
    ensures var r := FinalFields(fields);
      var bare := fields.(snippet := None);
      && (Fits(RenderMessage(fields)) ==> r == fields)
      && (r.snippet.None? && fields.snippet.Some? ==> !Fits(RenderMessage(bare)))
      && (r.snippet.Some? ==>
            && fields.snippet.Some?
            && IsCutFrom(r.snippet.value, fields.snippet.value)
            && IsCutLate(fields, Snippet, r.snippet.value, fields.snippet.value))
      && IsCutFrom(r.title, fields.title) && IsCutLate(bare, Title, r.title, fields.title)
      && IsCutFrom(r.monitorName, fields.monitorName)
      && IsCutLate(bare.(title := ""), MonitorName, r.monitorName, fields.monitorName)
      && (r.region == fields.region
          || (r.region == None && !Fits(RenderMessage(bare.(title := "", monitorName := "")))))
      && IsCutFrom(r.url, fields.url)
      && IsCutLate(bare.(title := "", monitorName := "", region := None), Link, r.url, fields.url)
      && IsCutFrom(r.price, fields.price)
      && IsCutLate(bare.(title := "", monitorName := "", region := None, url := ""), Price, r.price, fields.price)
  {
    hide RenderMessage, Fits, Truncated, IsCutLate, IsCutFrom, RenderWith;
    if Fits(RenderMessage(fields)) {
      Uncut(fields);
    } else if fields.snippet.Some? && Fits(RenderMessage(fields.(snippet := None))) {
      ShortenCutsLate(fields, Snippet);
      Uncut(fields);
    } else {
      var bare := fields.(snippet := None);
      Uncut(fields);
      ShortenCutsLate(bare, Title);
      var titled := Shorten(bare, Title);
      if !Fits(RenderMessage(titled)) {
        ShortenCutsLate(titled, MonitorName);
        var named := Shorten(titled, MonitorName);
        if !Fits(RenderMessage(named)) {
          var placeless := named.(region := None);
          if !Fits(RenderMessage(placeless)) {
            ShortenCutsLate(placeless, Link);
            ShortenCutsLate(Shorten(placeless, Link), Price);
          }
        }
      }
    }
  }

  lemma Uncut(fields: MessageFields)
    ensures forall value :: IsCutFrom(value, value)
    ensures forall f, field, value :: IsCutLate(f, field, value, value)
  {
  }

  lemma PlainEscapedLength(text: string)
    requires forall i | 0 <= i < |text| :: text[i] !in {'&', '<', '>'} && text[i] as int < 0x10000
    ensures EscapedLength(text) == |text|
  {
    ReplaceNothing(text, '&', "&amp;");
    ReplaceNothing(text, '<', "&lt;");
    ReplaceNothing(text, '>', "&gt;");
    BasicPlaneLength(text);
  }

  lemma NegotiablePrice()
    ensures |"Договорная"| == 10 && EscapedLength("Договорная") == 10
  {
    hide EscapedLength;
    PlainEscapedLength("Договорная");
  }

  lemma ShortFields()
    ensures EscapedLength("flats") == 5 && EscapedLength("https://re.kufar.by/vi/1") == 24 && EscapedLength("two rooms") == 9
  {
    hide EscapedLength;
    PlainEscapedLength("flats");
    PlainEscapedLength("https://re.kufar.by/vi/1");
    PlainEscapedLength("two rooms");
  }

  /** A title of 4040 letters and a description of two words give a message of 4106 units. */
  lemma TooLongForExample()
    ensures var input := MessageInput("flats", seq(4040, i => 'a'), Negotiable, None, None, None,
                                      "https://re.kufar.by/vi/1", Some("two rooms"));
            Length(RenderMessage(FinalFields(FieldsOf(input)))) == 4106
  {
    hide RenderMessage, EscapedLength, Truncated;
    var title := seq(4040, i => 'a');
    var input := MessageInput("flats", title, Negotiable, None, None, None, "https://re.kufar.by/vi/1", Some("two rooms"));
    var fields := FieldsOf(input);
    PlainEscapedLength(title);
    NegotiablePrice();
    ShortFields();
    EllipsisLength();
    RenderLength(fields);
    RenderLength(fields.(snippet := None));
    NothingLeft(fields);
    RenderLength(Shorten(fields, Snippet));
  }

  /** In the tight case nothing of the description is left but its caption. */
  lemma NothingLeft(fields: MessageFields)
    requires TooTight(fields)
    ensures Shorten(fields, Snippet) == fields.(snippet := Some(""))
  {
    hide RenderMessage, EscapedLength;
    TightDoesNotFit(fields);
    SnippetFits(fields);
    ShortenOutcome(fields, Snippet);
  }

  lemma TightDoesNotFit(fields: MessageFields)
    requires TooTight(fields)
    ensures !Fits(RenderMessage(fields))
  {
    if Fits(RenderMessage(fields)) {
      FittingIsNotTight(fields);
    }
  }
}
