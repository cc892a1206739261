/** JSON as Python's `json` module reads and writes it: `loads` on any text, and `dumps` of flat objects
    with `ensure_ascii=False` and separators "," and ":". Strings are escaped as section 7 of RFC 8259
    requires. */
module Json {
  import opened Options
  import opened Utf8

  /** `JNumber` also stands for NaN and the infinities; nothing here reads a number's value. */
  datatype Json =
    | JNull
    | JBool(value: bool)
    | JNumber
    | JString(text: Text)
    | JArray(items: seq<Json>)
    | JObject(fields: map<Text, Json>)

  const NEWLINE: CodePoint := 0x0A
  const QUOTE: CodePoint := 0x22
  const COMMA: CodePoint := 0x2C
  const COLON: CodePoint := 0x3A
  const BACKSLASH: CodePoint := 0x5C
  const LOWER_U: CodePoint := 0x75
  const LBRACE: CodePoint := 0x7B
  const RBRACE: CodePoint := 0x7D
  const LBRACKET: CodePoint := 0x5B
  const RBRACKET: CodePoint := 0x5D
  const MINUS: CodePoint := 0x2D

  // ----- reading -----

  predicate Starts(s: Text, c: CodePoint)
  {
    s != [] && s[0] == c
  }

  predicate IsWhitespace(c: CodePoint)
  {
    c == 0x20 || c == 0x09 || c == 0x0A || c == 0x0D
  }

  function SkipWhitespace(s: Text): (r: Text)
    ensures |r| <= |s|
  {
    if s != [] && IsWhitespace(s[0]) then SkipWhitespace(s[1..]) else s
  }

  predicate IsDigit(c: CodePoint)
  {
    0x30 <= c <= 0x39
  }

  function SkipDigits(s: Text): (r: Text)
    ensures |r| <= |s|
    ensures s != [] && IsDigit(s[0]) ==> |r| < |s|
  {
    if s != [] && IsDigit(s[0]) then SkipDigits(s[1..]) else s
  }

  function SkipFraction(s: Text): (r: Text)
    ensures |r| <= |s|
  {
    if |s| >= 2 && s[0] == 0x2E && IsDigit(s[1]) then SkipDigits(s[1..]) else s
  }

  function SkipExponent(s: Text): (r: Text)
    ensures |r| <= |s|
  {
    if Starts(s, 0x65) || Starts(s, 0x45) then
      var digits := if Starts(s[1..], 0x2B) || Starts(s[1..], MINUS) then s[2..] else s[1..];
      if digits != [] && IsDigit(digits[0]) then SkipDigits(digits) else s
    else s
  }

  /** What follows the number at the start of `s`. */
  function SkipNumber(s: Text): (r: Option<Text>)
    ensures r.Some? ==> |r.value| < |s|
  {
    var t := if Starts(s, MINUS) then s[1..] else s;
    if t == [] || !IsDigit(t[0]) then None
    else Some(SkipExponent(SkipFraction(if t[0] == 0x30 then t[1..] else SkipDigits(t))))
  }

  function HexValue(c: CodePoint): (v: Option<nat>)
    ensures v.Some? ==> v.value < 16
  {
    if IsDigit(c) then Some(c - 0x30)
    else if 0x61 <= c <= 0x66 then Some(c - 0x61 + 10)
    else if 0x41 <= c <= 0x46 then Some(c - 0x41 + 10)
    else None
  }

  function HexFour(s: Text): (v: Option<nat>)
    ensures v.Some? ==> |s| >= 4 && v.value < 0x10000
  {
    if |s| < 4 || HexValue(s[0]).None? || HexValue(s[1]).None? || HexValue(s[2]).None? || HexValue(s[3]).None? then None
    else Some(0x1000 * HexValue(s[0]).value + 0x100 * HexValue(s[1]).value + 0x10 * HexValue(s[2]).value
      + HexValue(s[3]).value)
  }

  /** What the escapes of one character stand for. */
  function SimpleEscape(c: CodePoint): Option<CodePoint>
  {
    if c == QUOTE || c == BACKSLASH || c == 0x2F then Some(c)
    else if c == 0x62 then Some(0x08)
    else if c == 0x66 then Some(0x0C)
    else if c == 0x6E then Some(0x0A)
    else if c == 0x72 then Some(0x0D)
    else if c == 0x74 then Some(0x09)
    else None
  }

  /** The character an escape at the start of `s` stands for, and what follows it. Two escapes that
      make a surrogate pair stand for one character; a lone surrogate is kept. */
  function ParseEscape(s: Text): (r: Option<(CodePoint, Text)>)
    requires Starts(s, BACKSLASH)
    ensures r.Some? ==> |r.value.1| < |s|
  {
    if |s| < 2 then None
    else if s[1] != LOWER_U then
      match SimpleEscape(s[1])
      case None => None
      case Some(c) => Some((c, s[2..]))
    else
      match HexFour(s[2..])
      case None => None
      case Some(high) =>
        if 0xD800 <= high < 0xDC00 && Starts(s[6..], BACKSLASH) && Starts(s[7..], LOWER_U) then
          match HexFour(s[8..])
          case None => None
          case Some(low) =>
            if 0xDC00 <= low < 0xE000 then Some((0x10000 + 0x400 * (high - 0xD800) + (low - 0xDC00), s[12..]))
            else Some((high, s[6..]))
        else Some((high, s[6..]))
  }

  /** The rest of a string whose opening quote was read. Control characters are refused. */
  function ParseString(s: Text): (r: Option<(Text, Text)>)
    ensures r.Some? ==> |r.value.1| < |s|
    decreases |s|
  {
    if s == [] then None
    else if s[0] == QUOTE then Some(([], s[1..]))
    else if s[0] == BACKSLASH then
      match ParseEscape(s)
      case None => None
      case Some((c, after)) => Prepend(c, ParseString(after))
    else if s[0] < 0x20 then None
    else Prepend(s[0], ParseString(s[1..]))
  }

  function Prepend(c: CodePoint, r: Option<(Text, Text)>): Option<(Text, Text)>
  {
    match r
    case None => None
    case Some((t, rest)) => Some(([c] + t, rest))
  }

  predicate StartsWith(s: Text, word: Text)
  {
    |s| >= |word| && s[..|word|] == word
  }

  function ParseValue(s: Text): (r: Option<(Json, Text)>)
    ensures r.Some? ==> |r.value.1| < |s|
    decreases |s|, 0
  {
    if s == [] then None
    else if s[0] == QUOTE then
      match ParseString(s[1..])
      case None => None
      case Some((t, rest)) => Some((JString(t), rest))
    else if s[0] == LBRACE then
      var t := SkipWhitespace(s[1..]);
      if Starts(t, RBRACE) then Some((JObject(map[]), t[1..])) else ParseMembers(t, map[])
    else if s[0] == LBRACKET then
      var t := SkipWhitespace(s[1..]);
      if Starts(t, RBRACKET) then Some((JArray([]), t[1..])) else ParseElements(t, [])
    else if StartsWith(s, Lit("null")) then Some((JNull, s[4..]))
    else if StartsWith(s, Lit("true")) then Some((JBool(true), s[4..]))
    else if StartsWith(s, Lit("false")) then Some((JBool(false), s[5..]))
    else if StartsWith(s, Lit("NaN")) then Some((JNumber, s[3..]))
    else if StartsWith(s, Lit("Infinity")) then Some((JNumber, s[8..]))
    else if StartsWith(s, Lit("-Infinity")) then Some((JNumber, s[9..]))
    else
      match SkipNumber(s)
      case None => None
      case Some(rest) => Some((JNumber, rest))
  }

  /** The rest of an object: at least one more member. A repeated key takes its last value. */
  function ParseMembers(s: Text, fields: map<Text, Json>): (r: Option<(Json, Text)>)
    ensures r.Some? ==> |r.value.1| < |s|
    decreases |s|, 1
  {
    if !Starts(s, QUOTE) then None
    else
      match ParseString(s[1..])
      case None => None
      case Some((key, afterKey)) =>
        var colon := SkipWhitespace(afterKey);
        if !Starts(colon, COLON) then None
        else
          match ParseValue(SkipWhitespace(colon[1..]))
          case None => None
          case Some((value, afterValue)) =>
            var next := SkipWhitespace(afterValue);
            if Starts(next, RBRACE) then Some((JObject(fields[key := value]), next[1..]))
            else if Starts(next, COMMA) then ParseMembers(SkipWhitespace(next[1..]), fields[key := value])
            else None
  }

  /** The rest of an array: at least one more element. */
  function ParseElements(s: Text, items: seq<Json>): (r: Option<(Json, Text)>)
    ensures r.Some? ==> |r.value.1| < |s|
    decreases |s|, 1
  {
    match ParseValue(s)
    case None => None
    case Some((value, afterValue)) =>
      var next := SkipWhitespace(afterValue);
      if Starts(next, RBRACKET) then Some((JArray(items + [value]), next[1..]))
      else if Starts(next, COMMA) then ParseElements(SkipWhitespace(next[1..]), items + [value])
      else None
  }

  /** `json.loads`: `None` is JSONDecodeError. A byte-order mark is refused. */
  function Loads(t: Text): Option<Json>
  {
    if Starts(t, 0xFEFF) then None
    else
      match ParseValue(SkipWhitespace(t))
      case None => None
      case Some((value, rest)) => if SkipWhitespace(rest) == [] then Some(value) else None
  }

  // ----- writing -----

  function HexDigit(n: nat): CodePoint
    requires n < 16
  {
    if n < 10 then 0x30 + n else 0x61 + (n - 10)
  }

  function EscapeChar(c: CodePoint): Text
  {
    if c == QUOTE || c == BACKSLASH then [BACKSLASH, c]
    else if c == 0x08 then [BACKSLASH, 0x62]
    else if c == 0x0C then [BACKSLASH, 0x66]
    else if c == 0x0A then [BACKSLASH, 0x6E]
    else if c == 0x0D then [BACKSLASH, 0x72]
    else if c == 0x09 then [BACKSLASH, 0x74]
    else if c < 0x20 then [BACKSLASH, LOWER_U, 0x30, 0x30, HexDigit(c / 16), HexDigit(c % 16)]
    else [c]
  }

  /** Every character but quotes, backslashes and control characters is written as itself. */
  lemma EscapedOnlyIf(c: CodePoint)
    ensures EscapeChar(c) == [c] <==> c >= 0x20 && c != QUOTE && c != BACKSLASH
    ensures EscapeChar(c) != [c] ==> Starts(EscapeChar(c), BACKSLASH) && |EscapeChar(c)| > 1
  {
  }

  function EscapeAll(t: Text): Text
  {
    if t == [] then [] else EscapeChar(t[0]) + EscapeAll(t[1..])
  }

  function PrintString(t: Text): Text
  {
    [QUOTE] + EscapeAll(t) + [QUOTE]
  }

  predicate Scalar(v: Json)
  {
    v.JNull? || v.JBool? || v.JString?
  }

  function PrintScalar(v: Json): Text
    requires Scalar(v)
  {
    match v
    case JNull => Lit("null")
    case JBool(b) => if b then Lit("true") else Lit("false")
    case JString(t) => PrintString(t)
  }

  type Field = f: (Text, Json) | Scalar(f.1) witness ([], JNull)

  function PrintField(f: Field): Text
  {
    PrintString(f.0) + [COLON] + PrintScalar(f.1)
  }

  function PrintFields(fields: seq<Field>): Text
    requires fields != []
  {
    if |fields| == 1 then PrintField(fields[0]) else PrintField(fields[0]) + [COMMA] + PrintFields(fields[1..])
  }

  /** `json.dumps` of a dictionary given in its insertion order. */
  function Dumps(fields: seq<Field>): Text
    requires fields != []
  {
    [LBRACE] + PrintFields(fields) + [RBRACE]
  }

  // ----- reading back what was written -----

  lemma HexDigits(c: CodePoint)
    requires c < 0x20
    ensures HexFour([0x30, 0x30, HexDigit(c / 16), HexDigit(c % 16)]) == Some(c)
  {
  }

  lemma HexFourPrefix(s: Text)
    requires |s| >= 4
    ensures HexFour(s) == HexFour(s[..4])
  {
  }

  lemma ParseEscapedChar(c: CodePoint, rest: Text)
    requires c < 0x20 || c == QUOTE || c == BACKSLASH
    ensures var s := EscapeChar(c) + rest; Starts(s, BACKSLASH) && ParseEscape(s) == Some((c, rest))
  {
    var s := EscapeChar(c) + rest;
    if s[1] == LOWER_U {
      HexDigits(c);
      HexFourPrefix(s[2..]);
      assert s[2..][..4] == [0x30, 0x30, HexDigit(c / 16), HexDigit(c % 16)];
      assert s[6..] == rest;
    } else {
      assert s[2..] == rest;
    }
  }

  lemma {:induction false} ParsePrintedString(t: Text, rest: Text)
    ensures ParseString(EscapeAll(t) + [QUOTE] + rest) == Some((t, rest))
  {
    var s := EscapeAll(t) + [QUOTE] + rest;
    if t == [] {
      assert s[1..] == rest;
    } else {
      var tail := EscapeAll(t[1..]) + [QUOTE] + rest;
      assert s == EscapeChar(t[0]) + tail;
      ParsePrintedString(t[1..], rest);
      assert [t[0]] + t[1..] == t;
      if t[0] < 0x20 || t[0] == QUOTE || t[0] == BACKSLASH {
        ParseEscapedChar(t[0], tail);
      } else {
        assert s[1..] == tail;
      }
    }
  }

  lemma StartsWithWord(word: Text, rest: Text)
    ensures StartsWith(word + rest, word) && (word + rest)[|word|..] == rest
  {
  }

  lemma WordsDiffer(s: Text, word: Text)
    requires s != [] && word != [] && s[0] != word[0]
    ensures !StartsWith(s, word)
  {
    if |s| >= |word| { assert s[..|word|][0] == s[0]; }
  }

  lemma ParseNull(rest: Text)
    ensures ParseValue(Lit("null") + rest) == Some((JNull, rest))
  {
    StartsWithWord(Lit("null"), rest);
  }

  lemma ParseTrue(rest: Text)
    ensures ParseValue(Lit("true") + rest) == Some((JBool(true), rest))
  {
    StartsWithWord(Lit("true"), rest);
    WordsDiffer(Lit("true") + rest, Lit("null"));
  }

  lemma ParseFalse(rest: Text)
    ensures ParseValue(Lit("false") + rest) == Some((JBool(false), rest))
  {
    StartsWithWord(Lit("false"), rest);
    WordsDiffer(Lit("false") + rest, Lit("null"));
    WordsDiffer(Lit("false") + rest, Lit("true"));
  }

  lemma ParsePrintedScalar(v: Json, rest: Text)
    requires Scalar(v)
    ensures ParseValue(PrintScalar(v) + rest) == Some((v, rest))
  {
    match v
    case JNull => ParseNull(rest);
    case JBool(b) => if b { ParseTrue(rest); } else { ParseFalse(rest); }
    case JString(t) =>
      ParsePrintedString(t, rest);
      StringLayout(EscapeAll(t), rest);
      Drop(QUOTE, EscapeAll(t) + [QUOTE] + rest);
  }

  lemma StringLayout(t: Text, rest: Text)
    ensures [QUOTE] + t + [QUOTE] + rest == [QUOTE] + (t + [QUOTE] + rest)
  {
  }

  lemma PrintedScalarStart(v: Json, rest: Text)
    requires Scalar(v)
    ensures SkipWhitespace(PrintScalar(v) + rest) == PrintScalar(v) + rest
  {
    var s := PrintScalar(v) + rest;
    assert s[0] == PrintScalar(v)[0];
  }

  /** Later fields replace earlier ones of the same name. */
  function Updated(fields: map<Text, Json>, more: seq<Field>): map<Text, Json>
    decreases |more|
  {
    if more == [] then fields else Updated(fields[more[0].0 := more[0].1], more[1..])
  }

  lemma FieldLayout(key: Text, value: Text, rest: Text)
    ensures [QUOTE] + key + [QUOTE] + [COLON] + value + rest == [QUOTE] + (key + [QUOTE] + ([COLON] + (value + rest)))
  {
  }

  lemma Drop(c: CodePoint, rest: Text)
    ensures ([c] + rest)[0] == c && ([c] + rest)[1..] == rest
  {
  }

  lemma ParsePrintedField(f: Field, fields: map<Text, Json>, rest: Text)
    requires Starts(rest, COMMA) || Starts(rest, RBRACE)
    ensures ParseMembers(PrintField(f) + rest, fields) ==
            if Starts(rest, RBRACE) then Some((JObject(fields[f.0 := f.1]), rest[1..]))
            else ParseMembers(SkipWhitespace(rest[1..]), fields[f.0 := f.1])
  {
    var value := PrintScalar(f.1) + rest;
    FieldLayout(EscapeAll(f.0), PrintScalar(f.1), rest);
    Drop(QUOTE, EscapeAll(f.0) + [QUOTE] + ([COLON] + value));
    ParsePrintedString(f.0, [COLON] + value);
    Drop(COLON, value);
    PrintedScalarStart(f.1, rest);
    ParsePrintedScalar(f.1, rest);
  }

  lemma {:induction false} ParsePrintedFields(more: seq<Field>, fields: map<Text, Json>, rest: Text)
    requires more != []
    ensures ParseMembers(PrintFields(more) + [RBRACE] + rest, fields) == Some((JObject(Updated(fields, more)), rest))
    decreases |more|
  {
    var f := more[0];
    if |more| == 1 {
      assert PrintFields(more) + [RBRACE] + rest == PrintField(f) + ([RBRACE] + rest);
      Drop(RBRACE, rest);
      ParsePrintedField(f, fields, [RBRACE] + rest);
    } else {
      var tail := PrintFields(more[1..]) + [RBRACE] + rest;
      FieldsLayout(PrintField(f), PrintFields(more[1..]), rest);
      Drop(COMMA, tail);
      ParsePrintedField(f, fields, [COMMA] + tail);
      PrintedFieldsStart(more[1..], [RBRACE] + rest);
      ParsePrintedFields(more[1..], fields[f.0 := f.1], rest);
    }
  }

  lemma FieldsLayout(field: Text, fields: Text, rest: Text)
    ensures field + [COMMA] + fields + [RBRACE] + rest == field + ([COMMA] + (fields + [RBRACE] + rest))
    ensures fields + [RBRACE] + rest == fields + ([RBRACE] + rest)
  {
  }

  lemma PrintedFieldsStart(fields: seq<Field>, rest: Text)
    requires fields != []
    ensures var s := PrintFields(fields) + rest; Starts(s, QUOTE) && SkipWhitespace(s) == s
  {
    assert PrintField(fields[0])[0] == QUOTE;
    assert PrintFields(fields)[0] == QUOTE;
  }

  /** Reading a written object gives back its fields. */
  lemma LoadsDumps(fields: seq<Field>)
    requires fields != []
    ensures Loads(Dumps(fields)) == Some(JObject(Updated(map[], fields)))
  {
    var members := PrintFields(fields) + [RBRACE] + [];
    assert Dumps(fields) == [LBRACE] + members;
    FieldsLayout([], PrintFields(fields), []);
    PrintedFieldsStart(fields, [RBRACE] + []);
    Drop(LBRACE, members);
    ParsePrintedFields(fields, map[], []);
  }

  // ----- no control characters -----

  predicate Printable(t: Text)
  {
    forall i :: 0 <= i < |t| ==> t[i] >= 0x20
  }

  lemma {:induction false} EscapedIsPrintable(t: Text)
    ensures Printable(EscapeAll(t))
  {
    if t == [] {
    } else {
      EscapedIsPrintable(t[1..]);
      assert Printable(EscapeChar(t[0]));
    }
  }

  lemma PrintableConcat(a: Text, b: Text)
    requires Printable(a) && Printable(b)
    ensures Printable(a + b)
  {
  }

  lemma PrintedStringPrintable(t: Text)
    ensures Printable(PrintString(t))
  {
    EscapedIsPrintable(t);
  }

  lemma PrintedFieldPrintable(f: Field)
    ensures Printable(PrintField(f))
  {
    PrintedStringPrintable(f.0);
    if f.1.JString? { PrintedStringPrintable(f.1.text); }
    PrintableConcat(PrintString(f.0), [COLON]);
    PrintableConcat(PrintString(f.0) + [COLON], PrintScalar(f.1));
  }

  lemma {:induction false} PrintedFieldsPrintable(fields: seq<Field>)
    requires fields != []
    ensures Printable(PrintFields(fields))
  {
    PrintedFieldPrintable(fields[0]);
    if |fields| > 1 {
      PrintedFieldsPrintable(fields[1..]);
      PrintableConcat(PrintField(fields[0]), [COMMA]);
      PrintableConcat(PrintField(fields[0]) + [COMMA], PrintFields(fields[1..]));
    }
  }

  /** Written JSON holds no control character, so no raw newline. */
  lemma DumpsPrintable(fields: seq<Field>)
    requires fields != []
    ensures Printable(Dumps(fields)) && NEWLINE !in Dumps(fields)
  {
    PrintedFieldsPrintable(fields);
  }
}
