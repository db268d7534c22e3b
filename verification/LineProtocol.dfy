/**
 The line-protocol printer: one line per telemetry point, with one escaping scheme for names and
 another for quoted text.

 A tag value is the text it prints as; "" stands for None or the empty text, which are dropped
 alike.  A finite float is the token its `repr` prints.
 */
module LineProtocol {
  import opened Options
  import opened Ordering
  import opened Dicts

  predicate IsRepr(s: string)
  {
    s != "" && forall i | 0 <= i < |s| :: '0' <= s[i] <= '9' || s[i] in ".e+-"
  }

  type Repr = s: string | IsRepr(s) witness "0.0"

  datatype FieldValue =
    | Flag(b: bool)
    | Whole(n: int)
    | Real(token: Repr)
    | NonFinite(name: string)
    | Text(s: string)
    | Nothing
    | Unsupported(typeName: string)

  datatype Point = Point(
    measurement: string,
    tags: Dict<string, string>,
    fields: Dict<string, FieldValue>,
    timestamp: Option<int>)

  datatype Line =
    | Rendered(text: string)
    | NoFields
    | Rejected(category: string, field: string)

  const MEASUREMENT_SPECIAL: set<char> := {' ', ',', '\\'}
  const NAME_SPECIAL: set<char> := {' ', ',', '=', '\\'}

  // --- printing -----------------------------------------------------------------------------

  /** A backslash goes before every special character. */
  function Escape(value: string, special: set<char>): string
  {
    if value == "" then ""
    else (if value[0] in special then ['\\', value[0]] else [value[0]]) + Escape(value[1..], special)
  }

  /** Python's `str.replace` of one character by a text. */
  function Replace(s: string, c: char, text: string): string
  {
    if s == "" then "" else (if s[0] == c then text else [s[0]]) + Replace(s[1..], c, text)
  }

  function Quote(s: string): string
  {
    "\"" + Replace(Replace(Replace(Replace(s, '\\', "\\\\"), '\"', "\\\""), '\r', "\\r"), '\n', "\\n") + "\""
  }

  function Digits(n: nat): (s: string)
    ensures s != "" && forall i | 0 <= i < |s| :: '0' <= s[i] <= '9'
  {
    (if n < 10 then "" else Digits(n / 10)) + [('0' as int + n % 10) as char]
  }

  function IntText(n: int): string
  {
    if n < 0 then "-" + Digits(-n) else Digits(n)
  }

  function TagText(tags: Dict<string, string>): string
  {
    if tags == [] then ""
    else "," + Escape(tags[0].0, NAME_SPECIAL) + "=" + Escape(tags[0].1, NAME_SPECIAL) + TagText(tags[1..])
  }

  predicate Skipped(v: FieldValue)
  {
    v == Nothing || v == Text("")
  }

  predicate Refused(v: FieldValue)
  {
    v.NonFinite? || v.Unsupported?
  }

  function ValueText(v: FieldValue): string
    requires !Refused(v) && v != Nothing
  {
    match v
    case Flag(b) => if b then "true" else "false"
    case Whole(n) => IntText(n) + "i"
    case Real(token) => token
    case Text(s) => Quote(s)
  }

  function FieldText(fields: Dict<string, FieldValue>): string
    requires fields != [] && forall i | 0 <= i < |fields| :: !Refused(fields[i].1) && fields[i].1 != Nothing
  {
    Escape(fields[0].0, NAME_SPECIAL) + "=" + ValueText(fields[0].1) +
    (if |fields| == 1 then "" else "," + FieldText(fields[1..]))
  }

  function KeptTags(tags: Dict<string, string>): (r: Dict<string, string>)
  {
    if tags == [] then []
    else (if tags[0].1 == "" then [] else [tags[0]]) + KeptTags(tags[1..])
  }

  function KeptFields(fields: Dict<string, FieldValue>): (r: Dict<string, FieldValue>)
    ensures forall i | 0 <= i < |r| :: !Skipped(r[i].1) && r[i] in fields
  {
    if fields == [] then []
    else (if Skipped(fields[0].1) then [] else [fields[0]]) + KeptFields(fields[1..])
  }

  /** The first field, in sorted order, that cannot be written. */
  function FirstRefused(fields: Dict<string, FieldValue>): (r: Option<(string, FieldValue)>)
    ensures r.None? <==> forall i | 0 <= i < |fields| :: !Refused(fields[i].1)
    ensures r.Some? ==> r.value in fields && Refused(r.value.1)
  {
    if fields == [] then None
    else if Refused(fields[0].1) then Some(fields[0])
    else
      assert fields == [fields[0]] + fields[1..];
      FirstRefused(fields[1..])
  }

  function TimeText(timestamp: Option<int>): string
  {
    if timestamp.None? then "" else " " + IntText(timestamp.value)
  }

  function SortedTags(p: Point): Dict<string, string>
  {
    KeptTags(SortedItems(StringLe, p.tags))
  }

  function SortedFields(p: Point): Dict<string, FieldValue>
  {
    KeptFields(SortedItems(StringLe, p.fields))
  }

  function LineText(measurement: string, tags: Dict<string, string>, fields: Dict<string, FieldValue>,
                    timestamp: Option<int>): string
    requires fields != [] && forall i | 0 <= i < |fields| :: !Refused(fields[i].1) && fields[i].1 != Nothing
  {
    Escape(measurement, MEASUREMENT_SPECIAL) + TagText(tags) + " " + FieldText(fields) + TimeText(timestamp)
  }

  function Render(p: Point): Line
  {
    var refused := FirstRefused(SortedItems(StringLe, p.fields));
    if refused.Some? then
      Rejected(if refused.value.1.NonFinite? then "invalid_numeric_value" else "unsupported_field_type",
               refused.value.0)
    else if SortedFields(p) == [] then NoFields
    else Rendered(LineText(p.measurement, SortedTags(p), SortedFields(p), p.timestamp))
  }

  // --- reading ------------------------------------------------------------------------------

  datatype Reading = Reading(
    measurement: string,
    tags: Dict<string, string>,
    fields: Dict<string, FieldValue>,
    timestamp: Option<int>)

  /** A name up to the first stop that no backslash precedes; a backslash keeps the next character. */
  function ReadName(s: string, stops: set<char>): (r: (string, string))
    ensures |r.1| <= |s|
  {
    if s == "" || s[0] in stops then ("", s)
    else if s[0] == '\\' && |s| > 1 then
      var (name, rest) := ReadName(s[2..], stops);
      ([s[1]] + name, rest)
    else
      var (name, rest) := ReadName(s[1..], stops);
      ([s[0]] + name, rest)
  }

  function Unquoted(c: char): char
  {
    if c == 'r' then '\r' else if c == 'n' then '\n' else c
  }

  /** Quoted text after its opening quote, up to the closing one. */
  function ReadQuoted(s: string): (r: Option<(string, string)>)
    ensures r.Some? ==> |r.value.1| < |s|
  {
    if s == "" then None
    else if s[0] == '\"' then Some(("", s[1..]))
    else if s[0] == '\\' then
      if |s| == 1 then None
      else
        var tail := ReadQuoted(s[2..]);
        if tail.None? then None else Some(([Unquoted(s[1])] + tail.value.0, tail.value.1))
    else
      var tail := ReadQuoted(s[1..]);
      if tail.None? then None else Some(([s[0]] + tail.value.0, tail.value.1))
  }

  /** The characters before the next comma or space. */
  function ReadRaw(s: string): (r: (string, string))
    ensures |r.1| <= |s|
  {
    if s == "" || s[0] == ',' || s[0] == ' ' then ("", s)
    else
      var (raw, rest) := ReadRaw(s[1..]);
      ([s[0]] + raw, rest)
  }

  function ReadDigits(s: string): Option<nat>
  {
    if s == "" || !('0' <= s[|s| - 1] <= '9') then None
    else
      var digit := s[|s| - 1] as int - '0' as int;
      if |s| == 1 then Some(digit)
      else
        var high := ReadDigits(s[..|s| - 1]);
        if high.None? then None else Some(10 * high.value + digit)
  }

  function ReadInt(s: string): Option<int>
  {
    var negative := s != "" && s[0] == '-';
    var n := ReadDigits(if negative then s[1..] else s);
    if n.None? then None
    else
      var value: int := if negative then 0 - n.value else n.value;
      Some(value)
  }

  function ReadValue(s: string): (r: Option<(FieldValue, string)>)
    ensures r.Some? ==> |r.value.1| <= |s|
  {
    if s != "" && s[0] == '\"' then
      var text := ReadQuoted(s[1..]);
      if text.None? then None else Some((Text(text.value.0), text.value.1))
    else
      var (raw, rest) := ReadRaw(s);
      if raw == "true" then Some((Flag(true), rest))
      else if raw == "false" then Some((Flag(false), rest))
      else if raw != "" && raw[|raw| - 1] == 'i' then
        var n := ReadInt(raw[..|raw| - 1]);
        if n.None? then None else Some((Whole(n.value), rest))
      else if IsRepr(raw) then Some((Real(raw), rest))
      else None
  }

  function ReadTags(s: string): (r: Option<(Dict<string, string>, string)>)
    ensures r.Some? ==> |r.value.1| <= |s|
    decreases |s|
  {
    if s == "" || s[0] != ',' then Some(([], s))
    else
      var (key, afterKey) := ReadName(s[1..], {'='});
      if afterKey == "" then None
      else
        var (value, rest) := ReadName(afterKey[1..], {',', ' '});
        var tail := ReadTags(rest);
        if tail.None? then None else Some(([(key, value)] + tail.value.0, tail.value.1))
  }

  function ReadFields(s: string): (r: Option<(Dict<string, FieldValue>, string)>)
    ensures r.Some? ==> |r.value.1| <= |s|
    decreases |s|
  {
    var (key, afterKey) := ReadName(s, {'='});
    if afterKey == "" then None
    else
      var value := ReadValue(afterKey[1..]);
      if value.None? then None
      else if value.value.1 == "" || value.value.1[0] != ',' then Some(([(key, value.value.0)], value.value.1))
      else
        var tail := ReadFields(value.value.1[1..]);
        if tail.None? then None else Some(([(key, value.value.0)] + tail.value.0, tail.value.1))
  }

  function ReadTime(s: string): Option<Option<int>>
  {
    if s == "" then Some(None)
    else if s[0] != ' ' then None
    else
      var n := ReadInt(s[1..]);
      if n.None? then None else Some(Some(n.value))
  }

  function ReadLine(s: string): Option<Reading>
  {
    var (measurement, afterName) := ReadName(s, {',', ' '});
    var tags := ReadTags(afterName);
    if tags.None? || tags.value.1 == "" then None
    else
      var fields := ReadFields(tags.value.1[1..]);
      if fields.None? then None
      else
        var time := ReadTime(fields.value.1);
        if time.None? then None
        else Some(Reading(measurement, tags.value.0, fields.value.0, time.value))
  }

  // --- the reader undoes the printer --------------------------------------------------------

  lemma ReadNameStep(c: char, tail: string, stops: set<char>)
    requires '\\' !in stops
    ensures ReadName(['\\', c] + tail, stops) == ([c] + ReadName(tail, stops).0, ReadName(tail, stops).1)
    ensures c !in stops && c != '\\' ==>
              ReadName([c] + tail, stops) == ([c] + ReadName(tail, stops).0, ReadName(tail, stops).1)
  {
    assert (['\\', c] + tail)[2..] == tail && ([c] + tail)[1..] == tail;
  }

  lemma {:induction false} NameRoundTrip(value: string, special: set<char>, stops: set<char>, rest: string)
    requires stops <= special && '\\' in special && '\\' !in stops
    requires rest == "" || rest[0] in stops
    ensures ReadName(Escape(value, special) + rest, stops) == (value, rest)
  {
    if value == "" {
      assert Escape(value, special) + rest == rest;
    } else {
      hide ReadName;
      NameRoundTrip(value[1..], special, stops, rest);
      var piece := if value[0] in special then ['\\', value[0]] else [value[0]];
      var tail := Escape(value[1..], special) + rest;
      assert Escape(value, special) + rest == piece + tail;
      ReadNameStep(value[0], tail, stops);
      assert value == [value[0]] + value[1..];
    }
  }

  function QuotedChar(c: char): string
  {
    if c == '\\' then "\\\\" else if c == '\"' then "\\\"" else if c == '\r' then "\\r"
    else if c == '\n' then "\\n" else [c]
  }

  function QuotedChars(s: string): string
  {
    if s == "" then "" else QuotedChar(s[0]) + QuotedChars(s[1..])
  }

  lemma ReplaceStep(s: string, c: char, text: string)
    requires s != ""
    ensures Replace(s, c, text) == (if s[0] == c then text else [s[0]]) + Replace(s[1..], c, text)
  {
  }

  lemma {:induction false} ReplaceConcat(a: string, b: string, c: char, text: string)
    ensures Replace(a + b, c, text) == Replace(a, c, text) + Replace(b, c, text)
  {
    if a == "" {
      assert a + b == b;
    } else {
      hide Replace;
      ReplaceConcat(a[1..], b, c, text);
      TailOfConcat(a, b);
      ReplaceStep(a, c, text);
      ReplaceStep(a + b, c, text);
      ConcatAssoc(if a[0] == c then text else [a[0]], Replace(a[1..], c, text), Replace(b, c, text));
    }
  }

  lemma ReplaceOne(c: char, d: char, text: string)
    ensures Replace([c], d, text) == if c == d then text else [c]
  {
    assert [c][1..] == "";
  }

  lemma ReplaceTwo(b: char, c: char, d: char, text: string)
    ensures Replace([b, c], d, text) == (if b == d then text else [b]) + (if c == d then text else [c])
  {
    assert [b, c] == [b] + [c];
    ReplaceConcat([b], [c], d, text);
    ReplaceOne(b, d, text);
    ReplaceOne(c, d, text);
  }

  /** On one character the four replacements never meet: only one of them applies. */
  lemma QuoteOne(c: char)
    ensures Replace(Replace(Replace(Replace([c], '\\', "\\\\"), '\"', "\\\""), '\r', "\\r"), '\n', "\\n") ==
            QuotedChar(c)
  {
    hide Replace;
    ReplaceOne(c, '\\', "\\\\");
    assert "\\\\" == ['\\', '\\'] == ['\\'] + ['\\'];
    assert "\\\"" == ['\\', '\"'] == ['\\'] + ['\"'];
    assert "\\r" == ['\\', 'r'] == ['\\'] + ['r'];
    ReplaceTwo('\\', '\\', '\"', "\\\"");
    ReplaceTwo('\\', '\\', '\r', "\\r");
    ReplaceTwo('\\', '\\', '\n', "\\n");
    ReplaceOne(c, '\"', "\\\"");
    ReplaceTwo('\\', '\"', '\r', "\\r");
    ReplaceTwo('\\', '\"', '\n', "\\n");
    ReplaceOne(c, '\r', "\\r");
    ReplaceTwo('\\', 'r', '\n', "\\n");
    ReplaceOne(c, '\n', "\\n");
  }

  /** The four replacements one after the other act on each character by itself. */
  lemma {:induction false} QuoteByChar(s: string)
    ensures Quote(s) == "\"" + QuotedChars(s) + "\""
  {
    if s != "" {
      hide Replace;
      QuoteByChar(s[1..]);
      QuoteOne(s[0]);
      var head, tail := [s[0]], s[1..];
      assert s == head + tail;
      ReplaceConcat(head, tail, '\\', "\\\\");
      var head1, tail1 := Replace(head, '\\', "\\\\"), Replace(tail, '\\', "\\\\");
      ReplaceConcat(head1, tail1, '\"', "\\\"");
      var head2, tail2 := Replace(head1, '\"', "\\\""), Replace(tail1, '\"', "\\\"");
      ReplaceConcat(head2, tail2, '\r', "\\r");
      var head3, tail3 := Replace(head2, '\r', "\\r"), Replace(tail2, '\r', "\\r");
      ReplaceConcat(head3, tail3, '\n', "\\n");
      var inner, innerTail := Replace(head3 + tail3, '\n', "\\n"), Replace(tail3, '\n', "\\n");
      assert Quote(tail) == "\"" + innerTail + "\"";
      assert innerTail == QuotedChars(tail) by {
        assert Quote(tail)[1..|Quote(tail)| - 1] == innerTail;
        assert ("\"" + QuotedChars(tail) + "\"")[1..|Quote(tail)| - 1] == QuotedChars(tail);
      }
    }
  }

  lemma ReadPlainChar(c: char, tail: string)
    requires c != '\"' && c != '\\' && ReadQuoted(tail).Some?
    ensures ReadQuoted([c] + tail) == Some(([c] + ReadQuoted(tail).value.0, ReadQuoted(tail).value.1))
  {
    var s := [c] + tail;
    assert s[0] == c && s[1..] == tail;
  }

  lemma ReadEscapedChar(c: char, tail: string)
    requires ReadQuoted(tail).Some?
    ensures ReadQuoted(['\\', c] + tail) == Some(([Unquoted(c)] + ReadQuoted(tail).value.0, ReadQuoted(tail).value.1))
  {
    var s := ['\\', c] + tail;
    assert s[0] == '\\' && s[1] == c && s[2..] == tail;
  }

  lemma ReadQuotedStep(c: char, tail: string)
    requires ReadQuoted(tail).Some?
    ensures ReadQuoted(QuotedChar(c) + tail) == Some(([c] + ReadQuoted(tail).value.0, ReadQuoted(tail).value.1))
  {
    hide ReadQuoted;
    if |QuotedChar(c)| == 1 {
      ReadPlainChar(c, tail);
    } else {
      var e := QuotedChar(c)[1];
      assert QuotedChar(c) == ['\\', e] && Unquoted(e) == c;
      ReadEscapedChar(e, tail);
    }
  }

  lemma {:induction false} QuotedRoundTrip(s: string, rest: string)
    ensures ReadQuoted(QuotedChars(s) + "\"" + rest) == Some((s, rest))
  {
    var whole := QuotedChars(s) + "\"" + rest;
    if s == "" {
      assert whole[0] == '\"' && whole[1..] == rest;
    } else {
      hide ReadQuoted, QuotedChar;
      QuotedRoundTrip(s[1..], rest);
      var tail := QuotedChars(s[1..]) + "\"" + rest;
      assert whole == QuotedChar(s[0]) + tail;
      ReadQuotedStep(s[0], tail);
      assert s == [s[0]] + s[1..];
    }
  }

  lemma {:induction false} DigitsRoundTrip(n: nat)
    ensures ReadDigits(Digits(n)) == Some(n)
  {
    var s := Digits(n);
    assert s[|s| - 1] as int - '0' as int == n % 10;
    if n >= 10 {
      DigitsRoundTrip(n / 10);
      assert s[..|s| - 1] == Digits(n / 10);
    }
  }

  lemma IntRoundTrip(n: int)
    ensures ReadInt(IntText(n)) == Some(n)
  {
    hide Digits, ReadDigits;
    if n < 0 {
      DigitsRoundTrip(-n);
      assert IntText(n)[1..] == Digits(-n);
    } else {
      DigitsRoundTrip(n);
    }
  }

  /** A text without comma or space, as numbers and flags print. */
  ghost predicate Plain(s: string)
  {
    forall i | 0 <= i < |s| :: s[i] != ',' && s[i] != ' '
  }

  lemma {:induction false} RawRoundTrip(raw: string, rest: string)
    requires Plain(raw) && (rest == "" || rest[0] == ',' || rest[0] == ' ')
    ensures ReadRaw(raw + rest) == (raw, rest)
  {
    if raw == "" {
      assert raw + rest == rest;
    } else {
      RawRoundTrip(raw[1..], rest);
      assert (raw + rest)[1..] == raw[1..] + rest && raw == [raw[0]] + raw[1..];
    }
  }

  lemma WholeRoundTrip(n: int, rest: string)
    requires rest == "" || rest[0] == ',' || rest[0] == ' '
    ensures ReadValue(IntText(n) + "i" + rest) == Some((Whole(n), rest))
  {
    hide Digits, ReadInt, ReadRaw;
    var digits := IntText(n);
    var raw := digits + "i";
    assert forall i | 0 <= i < |digits| :: '0' <= digits[i] <= '9' || digits[i] == '-';
    RawRoundTrip(raw, rest);
    assert raw[..|raw| - 1] == digits && raw[|raw| - 1] == 'i';
    assert digits[0] != '\"' && (raw + rest)[0] == digits[0];
    assert raw != "true" && raw != "false";
    IntRoundTrip(n);
  }

  lemma TokenRoundTrip(token: Repr, rest: string)
    requires rest == "" || rest[0] == ',' || rest[0] == ' '
    ensures ReadValue(token + rest) == Some((Real(token), rest))
  {
    hide ReadRaw;
    RawRoundTrip(token, rest);
    assert (token + rest)[0] == token[0] != '\"';
    assert "true"[0] != token[0] && "false"[0] != token[0];
  }

  lemma TextRoundTrip(s: string, rest: string)
    ensures ReadValue(Quote(s) + rest) == Some((Text(s), rest))
  {
    hide ReadQuoted, Replace;
    QuoteByChar(s);
    QuotedRoundTrip(s, rest);
    assert (Quote(s) + rest)[0] == '\"' && (Quote(s) + rest)[1..] == QuotedChars(s) + "\"" + rest;
  }

  lemma ValueRoundTrip(v: FieldValue, rest: string)
    requires !Refused(v) && v != Nothing && (rest == "" || rest[0] == ',' || rest[0] == ' ')
    ensures ReadValue(ValueText(v) + rest) == Some((v, rest))
  {
    match v
    case Flag(b) =>
      RawRoundTrip(ValueText(v), rest);
    case Whole(n) =>
      WholeRoundTrip(n, rest);
    case Real(token) =>
      TokenRoundTrip(token, rest);
    case Text(s) =>
      TextRoundTrip(s, rest);
  }

  lemma TagRead(key: string, value: string, tail: string)
    requires tail != "" && (tail[0] == ',' || tail[0] == ' ') && ReadTags(tail).Some?
    ensures ReadTags("," + (Escape(key, NAME_SPECIAL) + ("=" + (Escape(value, NAME_SPECIAL) + tail))))
         == Some(([(key, value)] + ReadTags(tail).value.0, ReadTags(tail).value.1))
  {
    hide Escape, ReadName, ReadTags;
    var valuePart := Escape(value, NAME_SPECIAL) + tail;
    var keyPart := Escape(key, NAME_SPECIAL) + ("=" + valuePart);
    var whole := "," + keyPart;
    assert whole[0] == ',' && whole[1..] == keyPart;
    NameRoundTrip(key, NAME_SPECIAL, {'='}, "=" + valuePart);
    assert ("=" + valuePart)[1..] == valuePart;
    NameRoundTrip(value, NAME_SPECIAL, {',', ' '}, tail);
    ReadTagsStep(whole, key, "=" + valuePart, value, tail);
  }

  lemma ReadTagsStep(whole: string, key: string, afterKey: string, value: string, tail: string)
    requires whole != "" && whole[0] == ',' && ReadName(whole[1..], {'='}) == (key, afterKey) && afterKey != ""
    requires ReadName(afterKey[1..], {',', ' '}) == (value, tail) && ReadTags(tail).Some?
    ensures ReadTags(whole) == Some(([(key, value)] + ReadTags(tail).value.0, ReadTags(tail).value.1))
  {
    hide ReadName;
  }

  lemma TagPieces(key: string, value: string, tags: string, rest: string)
    ensures "," + key + "=" + value + tags + rest == "," + (key + ("=" + (value + (tags + rest))))
  {
  }

  lemma {:induction false} TagsRoundTrip(tags: Dict<string, string>, rest: string)
    requires rest != "" && rest[0] == ' '
    ensures ReadTags(TagText(tags) + rest) == Some((tags, rest))
  {
    hide Escape, ReadName;
    if tags == [] {
      assert TagText(tags) + rest == rest;
    } else {
      hide ReadTags;
      var (key, value) := tags[0];
      var tail := TagText(tags[1..]) + rest;
      TagsRoundTrip(tags[1..], rest);
      assert tail[0] == ',' || tail[0] == ' ';
      TagPieces(Escape(key, NAME_SPECIAL), Escape(value, NAME_SPECIAL), TagText(tags[1..]), rest);
      TagRead(key, value, tail);
      assert tags == [tags[0]] + tags[1..];
    }
  }

  lemma {:induction false} FieldsRoundTrip(fields: Dict<string, FieldValue>, rest: string)
    requires fields != [] && forall i | 0 <= i < |fields| :: !Refused(fields[i].1) && fields[i].1 != Nothing
    requires rest == "" || rest[0] == ' '
    ensures ReadFields(FieldText(fields) + rest) == Some((fields, rest))
  {
    hide Escape, ReadName, ReadValue, ValueText;
    var whole := FieldText(fields) + rest;
    var (key, value) := fields[0];
    var tail := (if |fields| == 1 then "" else "," + FieldText(fields[1..])) + rest;
    var valuePart := ValueText(value) + tail;
    assert whole == Escape(key, NAME_SPECIAL) + ("=" + valuePart);
    NameRoundTrip(key, NAME_SPECIAL, {'='}, "=" + valuePart);
    assert ("=" + valuePart)[1..] == valuePart;
    if |fields| > 1 {
      FieldsRoundTrip(fields[1..], rest);
      assert tail[0] == ',' && tail[1..] == FieldText(fields[1..]) + rest;
    } else {
      assert tail == rest && fields == [(key, value)];
    }
    ValueRoundTrip(value, tail);
    assert fields == [fields[0]] + fields[1..];
  }

  lemma TimeRoundTrip(timestamp: Option<int>)
    ensures ReadTime(TimeText(timestamp)) == Some(timestamp)
  {
    hide IntText, ReadInt;
    if timestamp.Some? {
      IntRoundTrip(timestamp.value);
      assert TimeText(timestamp)[1..] == IntText(timestamp.value);
    }
  }

  lemma LineRoundTrip(measurement: string, tags: Dict<string, string>, fields: Dict<string, FieldValue>,
                      timestamp: Option<int>)
    requires fields != [] && forall i | 0 <= i < |fields| :: !Refused(fields[i].1) && fields[i].1 != Nothing
    ensures ReadLine(LineText(measurement, tags, fields, timestamp)) ==
            Some(Reading(measurement, tags, fields, timestamp))
  {
    hide Escape, ReadName, ReadTags, ReadFields, ReadTime, FieldText, TimeText;
    var time := TimeText(timestamp);
    var fieldPart := FieldText(fields) + time;
    var tagPart := TagText(tags) + (" " + fieldPart);
    assert LineText(measurement, tags, fields, timestamp) == Escape(measurement, MEASUREMENT_SPECIAL) + tagPart;
    assert tagPart[0] == ',' || tagPart[0] == ' ';
    NameRoundTrip(measurement, MEASUREMENT_SPECIAL, {',', ' '}, tagPart);
    TagsRoundTrip(tags, " " + fieldPart);
    assert (" " + fieldPart)[1..] == fieldPart;
    TimeStarts(timestamp);
    FieldsRoundTrip(fields, time);
    TimeRoundTrip(timestamp);
  }

  lemma TimeStarts(timestamp: Option<int>)
    ensures TimeText(timestamp) == "" || TimeText(timestamp)[0] == ' '
  {
  }

  /**
   Every rendered line reads back as the point it came from: the measurement, the non-empty tags,
   the non-empty fields with their kinds, and the timestamp, whatever characters they hold.
   */
  lemma RenderReadsBack(p: Point)
    requires Render(p).Rendered?
    ensures ReadLine(Render(p).text) == Some(Reading(p.measurement, SortedTags(p), SortedFields(p), p.timestamp))
  {
    hide LineText, ReadLine;
    var sorted := SortedItems(StringLe, p.fields);
    forall i | 0 <= i < |SortedFields(p)| ensures !Refused(SortedFields(p)[i].1) && SortedFields(p)[i].1 != Nothing {
      assert SortedFields(p)[i] in sorted;
    }
    LineRoundTrip(p.measurement, SortedTags(p), SortedFields(p), p.timestamp);
  }

  lemma SameFieldsSameCases(a: Dict<string, FieldValue>, b: Dict<string, FieldValue>)
    requires multiset(a) == multiset(b)
    ensures (exists i | 0 <= i < |a| :: Refused(a[i].1)) <==> (exists i | 0 <= i < |b| :: Refused(b[i].1))
    ensures (forall i | 0 <= i < |a| :: Skipped(a[i].1)) <==> (forall i | 0 <= i < |b| :: Skipped(b[i].1))
  {
    hide Refused, Skipped;
    SameElements(a, b);
    forall i | 0 <= i < |a| ensures exists j :: 0 <= j < |b| && b[j] == a[i] {
      assert a[i] in b;
    }
    forall i | 0 <= i < |b| ensures exists j :: 0 <= j < |a| && a[j] == b[i] {
      assert b[i] in a;
    }
  }

  /** A point is rejected exactly for a non-finite or unsupported field, and has no line exactly without fields. */
  lemma RenderCases(p: Point)
    ensures Render(p).Rejected? <==> exists i | 0 <= i < |p.fields| :: Refused(p.fields[i].1)
    ensures Render(p).NoFields? <==> forall i | 0 <= i < |p.fields| :: Skipped(p.fields[i].1)
  {
    hide SortedItems, Sort, LineText, KeptFields, FirstRefused;
    var sorted := SortedItems(StringLe, p.fields);
    SortedItemsMultiset(p.fields);
    SameFieldsSameCases(sorted, p.fields);
    KeptFieldsEmpty(sorted);
  }

  lemma SortedItemsMultiset(fields: Dict<string, FieldValue>)
    ensures multiset(SortedItems(StringLe, fields)) == multiset(fields)
  {
  }

  lemma {:induction false} KeptFieldsEmpty(fields: Dict<string, FieldValue>)
    ensures KeptFields(fields) == [] <==> forall i | 0 <= i < |fields| :: Skipped(fields[i].1)
  {
    if fields != [] {
      KeptFieldsEmpty(fields[1..]);
      assert forall i | 1 <= i < |fields| :: fields[i] == fields[1..][i - 1];
      assert forall i | 0 <= i < |fields[1..]| :: fields[1..][i] == fields[i + 1];
    }
  }

  /** The line does not depend on the order in which tags and fields were added to the point. */
  lemma RenderIgnoresInsertionOrder(p: Point, q: Point)
    requires p.measurement == q.measurement && p.timestamp == q.timestamp
    requires Distinct(p.tags) && Distinct(q.tags) && Distinct(p.fields) && Distinct(q.fields)
    requires forall key :: Get(p.tags, key) == Get(q.tags, key)
    requires forall key :: Get(p.fields, key) == Get(q.fields, key)
    ensures Render(p) == Render(q)
  {
    hide Distinct, Get, SortedItems, StringLe;
    StringOrder();
    forall a, b | StringLe(a, b) && StringLe(b, a) ensures a == b {
      StringLeAntisymmetric(a, b);
    }
    SortedItemsSame(StringLe, p.tags, q.tags);
    SortedItemsSame(StringLe, p.fields, q.fields);
  }

  // --- the printer as the loop it is --------------------------------------------------------

  /** Python's `separator.join(parts)`. */
  function Join(parts: seq<string>, separator: char): string
  {
    if parts == [] then ""
    else if |parts| == 1 then parts[0]
    else parts[0] + [separator] + Join(parts[1..], separator)
  }

  function FieldPart(field: (string, FieldValue)): string
  {
    Escape(field.0, NAME_SPECIAL) + "=" +
    (if Refused(field.1) || field.1 == Nothing then "" else ValueText(field.1))
  }

  lemma {:induction false} FieldTextJoins(fields: Dict<string, FieldValue>)
    requires fields != [] && forall i | 0 <= i < |fields| :: !Refused(fields[i].1) && fields[i].1 != Nothing
    ensures FieldText(fields) == Join(Map(FieldPart, fields), ',')
  {
    hide Escape, ValueText;
    if |fields| > 1 {
      FieldTextJoins(fields[1..]);
      assert Map(FieldPart, fields)[1..] == Map(FieldPart, fields[1..]);
      assert FieldText(fields) == FieldPart(fields[0]) + ("," + FieldText(fields[1..]));
      assert FieldPart(fields[0]) + "," + FieldText(fields[1..]) ==
             FieldPart(fields[0]) + ("," + FieldText(fields[1..]));
    }
  }

  lemma {:induction false} KeptFieldsNext(fields: Dict<string, FieldValue>, i: nat)
    requires i < |fields|
    ensures KeptFields(fields[..i + 1]) == KeptFields(fields[..i]) + (if Skipped(fields[i].1) then [] else [fields[i]])
  {
    if i > 0 {
      KeptFieldsNext(fields[1..], i - 1);
      assert fields[..i + 1][1..] == fields[1..][..i] && fields[..i][1..] == fields[1..][..i - 1];
    }
  }

  lemma {:induction false} KeptTagsNext(tags: Dict<string, string>, i: nat)
    requires i < |tags|
    ensures KeptTags(tags[..i + 1]) == KeptTags(tags[..i]) + (if tags[i].1 == "" then [] else [tags[i]])
  {
    if i > 0 {
      KeptTagsNext(tags[1..], i - 1);
      assert tags[..i + 1][1..] == tags[1..][..i] && tags[..i][1..] == tags[1..][..i - 1];
    }
  }

  lemma {:induction false} TagTextNext(tags: Dict<string, string>, tag: (string, string))
    ensures TagText(tags + [tag]) ==
            TagText(tags) + ("," + Escape(tag.0, NAME_SPECIAL) + "=" + Escape(tag.1, NAME_SPECIAL))
  {
    hide Escape;
    if tags != [] {
      TagTextNext(tags[1..], tag);
      assert (tags + [tag])[1..] == tags[1..] + [tag];
    }
  }

  lemma FirstRefusedAt(fields: Dict<string, FieldValue>, i: nat)
    requires i < |fields| && Refused(fields[i].1)
    requires forall j | 0 <= j < i :: !Refused(fields[j].1)
    ensures FirstRefused(fields) == Some(fields[i])
  {
    if i > 0 {
      FirstRefusedAt(fields[1..], i - 1);
    }
  }

  method PrintTags(p: Point) returns (text: string)
    ensures text == TagText(SortedTags(p))
  {
    hide Escape, Sort;
    var items := SortedItems(StringLe, p.tags);
    text := "";
    for i := 0 to |items|
      invariant text == TagText(KeptTags(items[..i]))
    {
      KeptTagsNext(items, i);
      if items[i].1 != "" {
        TagTextNext(KeptTags(items[..i]), items[i]);
        text := text + ("," + Escape(items[i].0, NAME_SPECIAL) + "=" + Escape(items[i].1, NAME_SPECIAL));
      } else {
        assert KeptTags(items[..i]) + [] == KeptTags(items[..i]);
      }
    }
    assert items[..|items|] == items;
  }

  /** Prints one point, refusing the first field it cannot write. */
  method PrintLine(p: Point) returns (line: Line)
    ensures line == Render(p)
  {
    hide Escape, ValueText, Sort, KeptFields, FirstRefused;
    var items := SortedItems(StringLe, p.fields);
    var fields: seq<string> := [];
    assert KeptFields([]) == [] by { KeptNone(); }
    for i := 0 to |items|
      invariant forall j | 0 <= j < i :: !Refused(items[j].1)
      invariant fields == Map(FieldPart, KeptFields(items[..i]))
    {
      var (key, value) := items[i];
      if Refused(value) {
        FirstRefusedAt(items, i);
        return Rejected(if value.NonFinite? then "invalid_numeric_value" else "unsupported_field_type", key);
      }
      KeptFieldsNext(items, i);
      if !Skipped(value) {
        fields := fields + [Escape(key, NAME_SPECIAL) + "=" + ValueText(value)];
      }
    }
    assert items[..|items|] == items;
    if fields == [] {
      return NoFields;
    }
    var tags := PrintTags(p);
    forall i | 0 <= i < |SortedFields(p)| ensures !Refused(SortedFields(p)[i].1) && SortedFields(p)[i].1 != Nothing {
      assert SortedFields(p)[i] in items;
    }
    FieldTextJoins(SortedFields(p));
    line := Rendered(Escape(p.measurement, MEASUREMENT_SPECIAL) + tags + " " + Join(fields, ',')
                     + TimeText(p.timestamp));
  }

  lemma KeptNone()
    ensures KeptFields([]) == []
  {
  }

  // --- line breaks --------------------------------------------------------------------------

  lemma {:induction false} EscapeNewline(value: string, special: set<char>)
    requires '\n' !in special
    ensures '\n' in Escape(value, special) <==> '\n' in value
  {
    if value != "" {
      EscapeNewline(value[1..], special);
      assert value == [value[0]] + value[1..];
    }
  }

  lemma {:induction false} QuotedNoNewline(s: string)
    ensures '\n' !in QuotedChars(s)
  {
    if s != "" {
      QuotedNoNewline(s[1..]);
    }
  }

  lemma ValueNoNewline(v: FieldValue)
    requires !Refused(v) && v != Nothing
    ensures '\n' !in ValueText(v)
  {
    hide Digits, Replace;
    if v.Text? {
      QuoteByChar(v.s);
      QuotedNoNewline(v.s);
    }
  }

  lemma {:induction false} TagsNewline(tags: Dict<string, string>)
    ensures '\n' in TagText(tags) <==> exists i | 0 <= i < |tags| :: '\n' in tags[i].0 || '\n' in tags[i].1
  {
    hide Escape;
    if tags != [] {
      TagsNewline(tags[1..]);
      EscapeNewline(tags[0].0, NAME_SPECIAL);
      EscapeNewline(tags[0].1, NAME_SPECIAL);
      assert tags == [tags[0]] + tags[1..];
      assert forall i | 1 <= i < |tags| :: tags[i] == tags[1..][i - 1];
      assert forall i | 0 <= i < |tags[1..]| :: tags[1..][i] == tags[i + 1];
    }
  }

  lemma {:induction false} FieldsNewline(fields: Dict<string, FieldValue>)
    requires fields != [] && forall i | 0 <= i < |fields| :: !Refused(fields[i].1) && fields[i].1 != Nothing
    ensures '\n' in FieldText(fields) <==> exists i | 0 <= i < |fields| :: '\n' in fields[i].0
  {
    hide Escape, ValueText;
    EscapeNewline(fields[0].0, NAME_SPECIAL);
    ValueNoNewline(fields[0].1);
    if |fields| > 1 {
      FieldsNewline(fields[1..]);
      assert forall i | 1 <= i < |fields| :: fields[i] == fields[1..][i - 1];
      assert forall i | 0 <= i < |fields[1..]| :: fields[1..][i] == fields[i + 1];
    }
  }

  /** The names of a point, as far as they are printed, that could break its line. */
  ghost predicate NamesBreak(p: Point)
  {
    || '\n' in p.measurement
    || (exists i | 0 <= i < |SortedTags(p)| :: '\n' in SortedTags(p)[i].0 || '\n' in SortedTags(p)[i].1)
    || (exists i | 0 <= i < |SortedFields(p)| :: '\n' in SortedFields(p)[i].0)
  }

  /** A rendered line is a single line exactly when no printed name or tag value holds a line break. */
  lemma RenderedIsOneLine(p: Point)
    requires Render(p).Rendered?
    ensures '\n' in Render(p).text <==> NamesBreak(p)
    ensures Render(p).text != ""
  {
    hide Escape, FieldText, TagText, Digits, Sort;
    var sorted := SortedItems(StringLe, p.fields);
    forall i | 0 <= i < |SortedFields(p)| ensures !Refused(SortedFields(p)[i].1) && SortedFields(p)[i].1 != Nothing {
      assert SortedFields(p)[i] in sorted;
    }
    EscapeNewline(p.measurement, MEASUREMENT_SPECIAL);
    TagsNewline(SortedTags(p));
    FieldsNewline(SortedFields(p));
    assert '\n' !in TimeText(p.timestamp);
  }
}
