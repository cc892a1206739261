/** The grammar of JSON texts (RFC 8259, sections 2 to 7, with Python's NaN and infinities) as trees, and the
    proof that the reader accepts exactly the texts the trees spell. */
module JsonGrammar {
  import opened Json
  import opened Options
  import opened Utf8

  // ----- whitespace -----

  predicate Space(t: Text)
  {
    forall i :: 0 <= i < |t| ==> t[i] in {0x09, 0x0A, 0x0D, 0x20}
  }

  lemma {:induction false} SkipsSpace(space: Text, rest: Text)
    requires Space(space) && (rest == [] || rest[0] !in {0x09, 0x0A, 0x0D, 0x20})
    ensures SkipWhitespace(space + rest) == rest
  {
    if space == [] {
      assert space + rest == rest;
    } else {
      assert (space + rest)[1..] == space[1..] + rest;
      SkipsSpace(space[1..], rest);
    }
  }

  lemma {:induction false} SkippedSpace(s: Text) returns (space: Text)
    ensures Space(space) && s == space + SkipWhitespace(s)
  {
    if s != [] && IsWhitespace(s[0]) {
      var more := SkippedSpace(s[1..]);
      space := [s[0]] + more;
      assert s == [s[0]] + s[1..];
    } else {
      space := [];
    }
  }

  // ----- strings -----

  /** How one character of a string is spelled: as itself, by a letter after a backslash, by four hexadecimal
      digits, or by a surrogate pair of them. */
  datatype Letter =
    | Plain(c: CodePoint)
    | Short(letter: CodePoint, c: CodePoint)
    | Hex(digits: Text, c: CodePoint)
    | Pair(high: Text, low: Text, first: CodePoint, second: CodePoint)

  const SHORT: set<(CodePoint, CodePoint)> := {
    (0x22, 0x22), (0x5C, 0x5C), (0x2F, 0x2F), (0x62, 0x08), (0x66, 0x0C), (0x6E, 0x0A), (0x72, 0x0D), (0x74, 0x09)}

  const DIGITS := "0123456789abcdef"
  const CAPITALS := "0123456789ABCDEF"

  predicate Digit(c: CodePoint, v: int)
  {
    0 <= v < 16 && (c == DIGITS[v] as int || c == CAPITALS[v] as int)
  }

  /** Four hexadecimal digits, in either case, that stand for `v`. */
  ghost predicate FourDigits(t: Text, v: int)
  {
    |t| == 4 && exists a, b, c, d :: Spelled(t, v, a, b, c, d)
  }

  predicate Spelled(t: Text, v: int, a: int, b: int, c: int, d: int)
    requires |t| == 4
  {
    Digit(t[0], a) && Digit(t[1], b) && Digit(t[2], c) && Digit(t[3], d) && Combines(v, a, b, c, d)
  }

  predicate IsHigh(c: CodePoint)
  {
    0xD800 <= c < 0xDC00
  }

  predicate IsLow(c: CodePoint)
  {
    0xDC00 <= c < 0xE000
  }

  ghost predicate LetterFits(l: Letter)
  {
    match l
    case Plain(c) => c >= 0x20 && c != QUOTE && c != BACKSLASH
    case Short(letter, c) => (letter, c) in SHORT
    case Hex(digits, c) => FourDigits(digits, c)
    case Pair(high, low, first, second) =>
      IsHigh(first) && IsLow(second) && FourDigits(high, first) && FourDigits(low, second)
  }

  function LetterText(l: Letter): (t: Text)
    ensures t != []
  {
    match l
    case Plain(c) => [c]
    case Short(letter, _) => [BACKSLASH, letter]
    case Hex(digits, _) => Escape(digits)
    case Pair(high, low, _, _) => Escape(high) + Escape(low)
  }

  function Escape(digits: Text): (t: Text)
    ensures t != []
  {
    [BACKSLASH, LOWER_U] + digits
  }

  function LetterValue(l: Letter): CodePoint
  {
    match l
    case Pair(_, _, first, second) =>
      if IsHigh(first) && IsLow(second) then 0x10000 + 0x400 * (first - 0xD800) + (second - 0xDC00) else 0
    case _ => l.c
  }

  /** Two escapes next to each other that make a pair are one letter, not two. */
  predicate Unpaired(l: Letter, next: Letter)
  {
    !(l.Hex? && next.Hex? && IsHigh(l.c) && IsLow(next.c))
  }

  ghost predicate LettersFit(ls: seq<Letter>)
  {
    ls == [] || (LetterFits(ls[0]) && LettersFit(ls[1..]) && (|ls| > 1 ==> Unpaired(ls[0], ls[1])))
  }

  function LettersText(ls: seq<Letter>): Text
  {
    if ls == [] then [] else LetterText(ls[0]) + LettersText(ls[1..])
  }

  function LettersValue(ls: seq<Letter>): Text
  {
    if ls == [] then [] else [LetterValue(ls[0])] + LettersValue(ls[1..])
  }

  lemma DigitRead(c: CodePoint, v: int)
    ensures Digit(c, v) <==> HexValue(c) == Some(v)
  {
  }

  predicate Combines(v: int, a: int, b: int, c: int, d: int)
  {
    v == 0x1000 * a + 0x100 * b + 0x10 * c + d
  }

  lemma FourCombine(s: Text, v: int, a: int, b: int, c: int, d: int)
    requires |s| >= 4 && HexValue(s[0]) == Some(a) && HexValue(s[1]) == Some(b)
    requires HexValue(s[2]) == Some(c) && HexValue(s[3]) == Some(d)
    ensures HexFour(s) == Some(v) <==> Combines(v, a, b, c, d)
  {
  }

  lemma FourSpelled(s: Text, v: int)
    requires |s| >= 4 && HexFour(s) == Some(v)
    ensures FourDigits(s[..4], v)
  {
    var t := s[..4];
    var a, b, c, d := HexValue(s[0]).value, HexValue(s[1]).value, HexValue(s[2]).value, HexValue(s[3]).value;
    DigitRead(t[0], a);
    DigitRead(t[1], b);
    DigitRead(t[2], c);
    DigitRead(t[3], d);
    FourCombine(s, v, a, b, c, d);
    assert Spelled(t, v, a, b, c, d);
  }

  lemma FourRead(s: Text, v: int)
    requires |s| >= 4 && FourDigits(s[..4], v)
    ensures HexFour(s) == Some(v)
  {
    var t := s[..4];
    var a, b, c, d :| Spelled(t, v, a, b, c, d);
    DigitRead(t[0], a);
    DigitRead(t[1], b);
    DigitRead(t[2], c);
    DigitRead(t[3], d);
    FourCombine(s, v, a, b, c, d);
  }

  lemma ShortRead(letter: CodePoint, c: CodePoint)
    ensures (letter, c) in SHORT <==> SimpleEscape(letter) == Some(c)
    ensures (letter, c) in SHORT ==> letter != LOWER_U
  {
  }

  // ----- reading what letters spell -----

  /** What follows a high surrogate does not make a pair with it, and is no broken escape. */
  predicate LeavesAlone(s: Text)
  {
    AnotherFollows(s) ==> HexFour(s[2..]).Some? && !IsLow(HexFour(s[2..]).value)
  }

  lemma ReadsShort(l: Letter, rest: Text)
    requires l.Short? && LetterFits(l)
    ensures ParseEscape(LetterText(l) + rest) == Some((l.c, rest))
  {
    var s := LetterText(l) + rest;
    ShortRead(l.letter, l.c);
    assert s[0] == BACKSLASH && s[1] == l.letter && s[2..] == rest;
  }

  /** The layout of an escape of four digits. */
  lemma EscapeLayout(digits: Text, rest: Text)
    requires |digits| == 4
    ensures var s := Escape(digits) + rest;
      && |s| >= 6 && s[0] == BACKSLASH && s[1] == LOWER_U && s[2..][..4] == digits && s[6..] == rest
      && AnotherFollows(s)
  {
  }

  lemma EscapeRead(digits: Text, v: CodePoint, rest: Text)
    requires FourDigits(digits, v)
    ensures var s := Escape(digits) + rest;
      && |s| >= 6 && s[0] == BACKSLASH && s[1] == LOWER_U && s[6..] == rest && AnotherFollows(s)
      && HexFour(s[2..]) == Some(v)
  {
    EscapeLayout(digits, rest);
    FourRead((Escape(digits) + rest)[2..], v);
  }

  lemma Later(s: Text)
    requires |s| >= 6
    ensures |s| >= 7 ==> s[7..] == s[6..][1..]
    ensures |s| >= 8 ==> s[8..] == s[6..][2..]
    ensures |s| >= 12 ==> s[12..] == s[6..][6..]
  {
  }

  /** Another escape of four digits follows. */
  predicate AnotherFollows(rest: Text)
  {
    Starts(rest, BACKSLASH) && Starts(rest[1..], LOWER_U)
  }

  /** What the reader makes of four digits that stand for `high`, before `rest`. */
  lemma ReadFour(s: Text, high: CodePoint, rest: Text)
    requires |s| >= 6 && s[0] == BACKSLASH && s[1] == LOWER_U && HexFour(s[2..]) == Some(high) && s[6..] == rest
    ensures !IsHigh(high) || !AnotherFollows(rest) ==> ParseEscape(s) == Some((high, rest))
    ensures IsHigh(high) && AnotherFollows(rest) ==>
      match HexFour(rest[2..])
      case None => ParseEscape(s) == None
      case Some(low) =>
        ParseEscape(s) ==
          if IsLow(low) then Some((0x10000 + 0x400 * (high - 0xD800) + (low - 0xDC00), rest[6..]))
          else Some((high, rest))
  {
    Later(s);
  }

  lemma ReadsHex(l: Letter, rest: Text)
    requires l.Hex? && LetterFits(l) && (IsHigh(l.c) ==> LeavesAlone(rest))
    ensures ParseEscape(LetterText(l) + rest) == Some((l.c, rest))
  {
    var s := LetterText(l) + rest;
    EscapeRead(l.digits, l.c, rest);
    ReadFour(s, l.c, rest);
  }

  lemma ReadTwo(s: Text, first: CodePoint, after: Text, second: CodePoint, rest: Text)
    requires |s| >= 6 && s[0] == BACKSLASH && s[1] == LOWER_U && HexFour(s[2..]) == Some(first) && s[6..] == after
    requires |after| >= 6 && AnotherFollows(after) && HexFour(after[2..]) == Some(second) && after[6..] == rest
    requires IsHigh(first) && IsLow(second)
    ensures ParseEscape(s) == Some((0x10000 + 0x400 * (first - 0xD800) + (second - 0xDC00), rest))
  {
    ReadFour(s, first, after);
  }

  lemma ReadsEscapes(s: Text, high: Text, first: CodePoint, low: Text, second: CodePoint, rest: Text)
    requires s == Escape(high) + (Escape(low) + rest)
    requires IsHigh(first) && IsLow(second) && FourDigits(high, first) && FourDigits(low, second)
    ensures ParseEscape(s) == Some((0x10000 + 0x400 * (first - 0xD800) + (second - 0xDC00), rest))
  {
    EscapeRead(high, first, Escape(low) + rest);
    EscapeRead(low, second, rest);
    ReadTwo(s, first, Escape(low) + rest, second, rest);
  }

  lemma FourLeaveAlone(digits: Text, v: CodePoint, after: Text)
    requires FourDigits(digits, v) && !IsLow(v)
    ensures LeavesAlone(Escape(digits) + after)
  {
    EscapeRead(digits, v, after);
  }

  lemma LetterLeavesAlone(l: Letter, next: Letter, after: Text)
    requires l.Hex? && IsHigh(l.c) && LetterFits(next) && Unpaired(l, next)
    ensures LeavesAlone(LetterText(next) + after)
  {
    match next
    case Plain(c) => assert (LetterText(next) + after)[0] == c;
    case Short(letter, c) =>
      ShortRead(letter, c);
      assert (LetterText(next) + after)[1..][0] == letter;
    case Hex(digits, c) => FourLeaveAlone(digits, c, after);
    case Pair(high, low, first, _) =>
      JoinLayout(Escape(high), Escape(low), after);
      FourLeaveAlone(high, first, Escape(low) + after);
  }

  lemma LettersLeaveAlone(l: Letter, ls: seq<Letter>, rest: Text)
    requires l.Hex? && IsHigh(l.c) && LettersFit(ls) && (ls != [] ==> Unpaired(l, ls[0]))
    ensures LeavesAlone(LettersText(ls) + [QUOTE] + rest)
  {
    if ls == [] {
      assert (LettersText(ls) + [QUOTE] + rest)[0] == QUOTE;
    } else {
      LettersLayout(ls, rest);
      LetterLeavesAlone(l, ls[0], LettersText(ls[1..]) + [QUOTE] + rest);
    }
  }

  lemma LettersLayout(ls: seq<Letter>, rest: Text)
    requires ls != []
    ensures LettersText(ls) + [QUOTE] + rest == LetterText(ls[0]) + (LettersText(ls[1..]) + [QUOTE] + rest)
  {
  }

  /** The reader takes one letter and goes on behind it. */
  lemma ReadsLetter(l: Letter, s: Text, after: Text)
    requires LetterFits(l) && s == LetterText(l) + after && (l.Hex? && IsHigh(l.c) ==> LeavesAlone(after))
    ensures ParseString(s) == Prepend(LetterValue(l), ParseString(after))
  {
    match l
    case Plain(c) => ReadsPlain(s, c, after);
    case Short(_, _) => ReadsOne(l, s, after);
    case Hex(_, _) => ReadsOne(l, s, after);
    case Pair(high, low, first, second) =>
      JoinLayout(Escape(high), Escape(low), after);
      ReadsPair(s, high, first, low, second, LetterValue(l), after);
  }

  lemma ReadsPlain(s: Text, c: CodePoint, after: Text)
    requires s == [c] + after && c >= 0x20 && c != QUOTE && c != BACKSLASH
    ensures ParseString(s) == Prepend(c, ParseString(after))
  {
    Drop(c, after);
  }

  lemma ReadsOne(l: Letter, s: Text, after: Text)
    requires (l.Short? || l.Hex?) && LetterFits(l) && s == LetterText(l) + after
    requires l.Hex? && IsHigh(l.c) ==> LeavesAlone(after)
    ensures ParseString(s) == Prepend(l.c, ParseString(after))
  {
    if l.Short? { ReadsShort(l, after); } else { ReadsHex(l, after); }
  }

  lemma ReadsPair(s: Text, high: Text, first: CodePoint, low: Text, second: CodePoint, c: CodePoint, after: Text)
    requires s == Escape(high) + (Escape(low) + after)
    requires IsHigh(first) && IsLow(second) && FourDigits(high, first) && FourDigits(low, second)
    requires c == 0x10000 + 0x400 * (first - 0xD800) + (second - 0xDC00)
    ensures ParseString(s) == Prepend(c, ParseString(after))
  {
    ReadsEscapes(s, high, first, low, second, after);
  }

  /** The reader reads the characters the letters stand for. */
  lemma {:induction false} ReadsLetters(ls: seq<Letter>, rest: Text)
    requires LettersFit(ls)
    ensures ParseString(LettersText(ls) + [QUOTE] + rest) == Some((LettersValue(ls), rest))
  {
    var s := LettersText(ls) + [QUOTE] + rest;
    if ls == [] {
      assert s[0] == QUOTE && s[1..] == rest;
    } else {
      LettersLayout(ls, rest);
      ReadsLetters(ls[1..], rest);
      if ls[0].Hex? && IsHigh(ls[0].c) { LettersLeaveAlone(ls[0], ls[1..], rest); }
      ReadsLetter(ls[0], s, LettersText(ls[1..]) + [QUOTE] + rest);
    }
  }

  lemma SpellsEscape(s: Text) returns (l: Letter)
    requires Starts(s, BACKSLASH) && ParseEscape(s).Some?
    ensures LetterFits(l) && !l.Plain? && LetterValue(l) == ParseEscape(s).value.0
    ensures s == LetterText(l) + ParseEscape(s).value.1
    ensures l.Hex? && IsHigh(l.c) ==> LeavesAlone(ParseEscape(s).value.1)
  {
    if s[1] != LOWER_U {
      ShortRead(s[1], ParseEscape(s).value.0);
      l := Short(s[1], ParseEscape(s).value.0);
      assert s == [BACKSLASH, s[1]] + s[2..];
    } else {
      l := SpellsFour(s, HexFour(s[2..]).value, s[6..]);
    }
  }

  lemma SpellsFour(s: Text, high: CodePoint, rest: Text) returns (l: Letter)
    requires |s| >= 6 && s[0] == BACKSLASH && s[1] == LOWER_U && HexFour(s[2..]) == Some(high) && s[6..] == rest
    requires ParseEscape(s).Some?
    ensures LetterFits(l) && !l.Plain? && LetterValue(l) == ParseEscape(s).value.0
    ensures s == LetterText(l) + ParseEscape(s).value.1
    ensures l.Hex? && IsHigh(l.c) ==> LeavesAlone(ParseEscape(s).value.1)
  {
    ReadFour(s, high, rest);
    FourSpelled(s[2..], high);
    FourLayout(s);
    if IsHigh(high) && AnotherFollows(rest) && IsLow(HexFour(rest[2..]).value) {
      l := SpellsPair(s, high, HexFour(rest[2..]).value, rest);
    } else {
      l := Hex(s[2..][..4], high);
    }
  }

  lemma SpellsPair(s: Text, high: CodePoint, low: CodePoint, rest: Text) returns (l: Letter)
    requires |s| >= 6 && s[0] == BACKSLASH && s[1] == LOWER_U && HexFour(s[2..]) == Some(high) && s[6..] == rest
    requires AnotherFollows(rest) && HexFour(rest[2..]) == Some(low) && IsHigh(high) && IsLow(low)
    ensures LetterFits(l) && l.Pair? && LetterValue(l) == 0x10000 + 0x400 * (high - 0xD800) + (low - 0xDC00)
    ensures s == LetterText(l) + rest[6..]
  {
    FourSpelled(s[2..], high);
    FourSpelled(rest[2..], low);
    FourLayout(s);
    FourLayout(rest);
    l := Pair(s[2..][..4], rest[2..][..4], high, low);
    JoinLayout(Escape(l.high), Escape(l.low), rest[6..]);
  }

  lemma JoinLayout(a: Text, b: Text, c: Text)
    ensures a + (b + c) == a + b + c
  {
  }

  lemma FourLayout(s: Text)
    requires |s| >= 6 && s[0] == BACKSLASH && s[1] == LOWER_U
    ensures s == Escape(s[2..][..4]) + s[6..]
  {
  }

  /** Whatever the reader takes for the rest of a string is spelled by letters. */
  lemma {:induction false} SpellsString(s: Text) returns (ls: seq<Letter>)
    requires ParseString(s).Some?
    ensures LettersFit(ls) && LettersValue(ls) == ParseString(s).value.0
    ensures s == LettersText(ls) + [QUOTE] + ParseString(s).value.1
    decreases |s|
  {
    if s[0] == QUOTE {
      ls := [];
      assert s == [QUOTE] + s[1..];
    } else {
      var l, after;
      if s[0] == BACKSLASH {
        l := SpellsEscape(s);
        after := ParseEscape(s).value.1;
      } else {
        l, after := Plain(s[0]), s[1..];
      }
      var more := SpellsString(after);
      ls := [l] + more;
      LettersLayout(ls, ParseString(s).value.1);
      if more != [] { NextUnpaired(l, more, ParseString(s).value.1, after); }
    }
  }

  lemma NextUnpaired(l: Letter, more: seq<Letter>, rest: Text, after: Text)
    requires more != [] && LettersFit(more) && after == LettersText(more) + [QUOTE] + rest
    requires l.Hex? && IsHigh(l.c) ==> LeavesAlone(after)
    ensures Unpaired(l, more[0])
  {
    if l.Hex? && IsHigh(l.c) && more[0].Hex? {
      LettersLayout(more, rest);
      EscapeRead(more[0].digits, more[0].c, LettersText(more[1..]) + [QUOTE] + rest);
    }
  }

  // ----- numbers -----

  /** The parts of a number; a fraction or an exponent that is absent is empty. */
  datatype Number = Number(negative: bool, whole: Text, fraction: Text, mark: Text, exponent: Text)

  predicate AllDigits(t: Text)
  {
    forall i :: 0 <= i < |t| ==> 0x30 <= t[i] <= 0x39
  }

  const MARKS: set<Text> := {[0x65], [0x45], [0x65, 0x2B], [0x45, 0x2B], [0x65, 0x2D], [0x45, 0x2D]}

  predicate NumberFits(n: Number)
  {
    && n.whole != [] && AllDigits(n.whole) && (n.whole[0] == 0x30 ==> |n.whole| == 1)
    && AllDigits(n.fraction) && AllDigits(n.exponent)
    && (if n.exponent == [] then n.mark == [] else n.mark in MARKS)
  }

  function FractionText(fraction: Text): Text
  {
    if fraction == [] then [] else [0x2E] + fraction
  }

  function NumberText(n: Number): Text
  {
    (if n.negative then [MINUS] else []) + (n.whole + (FractionText(n.fraction) + (n.mark + n.exponent)))
  }

  predicate StartsDigit(t: Text)
  {
    t != [] && IsDigit(t[0])
  }

  lemma {:induction false} SkipsDigits(digits: Text, rest: Text)
    requires AllDigits(digits) && !StartsDigit(rest)
    ensures SkipDigits(digits + rest) == rest
  {
    if digits == [] {
      assert digits + rest == rest;
    } else {
      assert (digits + rest)[1..] == digits[1..] + rest;
      SkipsDigits(digits[1..], rest);
    }
  }

  lemma {:induction false} SkippedDigits(s: Text) returns (digits: Text)
    ensures AllDigits(digits) && s == digits + SkipDigits(s) && !StartsDigit(SkipDigits(s))
    ensures StartsDigit(s) ==> digits != [] && digits[0] == s[0]
  {
    if StartsDigit(s) {
      var more := SkippedDigits(s[1..]);
      digits := [s[0]] + more;
      assert s == [s[0]] + s[1..];
    } else {
      digits := [];
    }
  }

  lemma SkipsFraction(fraction: Text, rest: Text)
    requires AllDigits(fraction) && !StartsDigit(rest) && !Starts(rest, 0x2E)
    ensures SkipFraction(FractionText(fraction) + rest) == rest
  {
    var s := FractionText(fraction) + rest;
    if fraction == [] {
      assert s == rest;
    } else {
      assert s[1..] == fraction + rest && s[1] == fraction[0];
      SkipsDigits(fraction, rest);
    }
  }

  lemma SkippedFraction(s: Text) returns (fraction: Text)
    ensures AllDigits(fraction) && s == FractionText(fraction) + SkipFraction(s)
  {
    if |s| >= 2 && s[0] == 0x2E && IsDigit(s[1]) {
      fraction := SkippedDigits(s[1..]);
      assert s == [0x2E] + s[1..];
    } else {
      fraction := [];
    }
  }

  lemma SkipsExponent(mark: Text, exponent: Text, rest: Text)
    requires AllDigits(exponent) && !StartsDigit(rest) && !Starts(rest, 0x65) && !Starts(rest, 0x45)
    requires if exponent == [] then mark == [] else mark in MARKS
    ensures SkipExponent(mark + exponent + rest) == rest
  {
    var s := mark + exponent + rest;
    if exponent == [] {
      assert s == rest;
    } else {
      var digits := exponent + rest;
      assert digits[0] == exponent[0];
      SkipsDigits(exponent, rest);
      if |mark| == 1 {
        assert s == mark + digits && s[1..] == digits;
      } else {
        assert s == mark + digits && s[2..] == digits && s[1..][0] == mark[1];
      }
    }
  }

  /** The letter of an exponent with its sign, if it has one. */
  lemma SkippedMark(s: Text) returns (mark: Text, digits: Text)
    requires Starts(s, 0x65) || Starts(s, 0x45)
    ensures mark in MARKS && s == mark + digits
    ensures digits == if Starts(s[1..], 0x2B) || Starts(s[1..], MINUS) then s[2..] else s[1..]
  {
    if Starts(s[1..], 0x2B) || Starts(s[1..], MINUS) {
      mark, digits := [s[0], s[1]], s[2..];
    } else {
      mark, digits := [s[0]], s[1..];
    }
  }

  lemma SkippedExponent(s: Text) returns (mark: Text, exponent: Text)
    ensures AllDigits(exponent) && (if exponent == [] then mark == [] else mark in MARKS)
    ensures s == mark + exponent + SkipExponent(s)
  {
    mark, exponent := [], [];
    if Starts(s, 0x65) || Starts(s, 0x45) {
      var found, digits := SkippedMark(s);
      if StartsDigit(digits) {
        mark := found;
        exponent := SkippedDigits(digits);
        JoinLayout(mark, exponent, SkipDigits(digits));
      }
    }
  }

  lemma NumberLayout(n: Number, rest: Text)
    ensures NumberText(n) + rest ==
            (if n.negative then [MINUS] else [])
              + (n.whole + (FractionText(n.fraction) + (n.mark + n.exponent + rest)))
  {
  }

  /** What may follow a value. */
  predicate Delimited(rest: Text)
  {
    rest == [] || rest[0] in {0x09, 0x0A, 0x0D, 0x20, COMMA, RBRACKET, RBRACE}
  }

  lemma ReadsNumber(n: Number, rest: Text)
    requires NumberFits(n) && Delimited(rest)
    ensures SkipNumber(NumberText(n) + rest) == Some(rest)
  {
    var third := n.mark + n.exponent + rest;
    var second := FractionText(n.fraction) + third;
    var first := n.whole + second;
    NumberLayout(n, rest);
    SkipsExponent(n.mark, n.exponent, rest);
    assert !StartsDigit(third) && !Starts(third, 0x2E);
    SkipsFraction(n.fraction, third);
    assert !StartsDigit(second);
    SkipsDigits(n.whole, second);
    assert first[0] == n.whole[0];
    if n.whole[0] == 0x30 { assert first[1..] == second; }
    if n.negative { assert ([MINUS] + first)[1..] == first; } else { assert [] + first == first; }
  }

  /** What follows the digits before the point. */
  function AfterWhole(t: Text): Text
    requires t != []
  {
    if t[0] == 0x30 then t[1..] else SkipDigits(t)
  }

  lemma SpellsWhole(t: Text) returns (whole: Text)
    requires StartsDigit(t)
    ensures whole != [] && AllDigits(whole) && (whole[0] == 0x30 ==> |whole| == 1)
    ensures t == whole + AfterWhole(t)
  {
    if t[0] == 0x30 {
      whole := [t[0]];
    } else {
      whole := SkippedDigits(t);
    }
  }

  lemma SpellsTail(u: Text) returns (fraction: Text, mark: Text, exponent: Text)
    ensures AllDigits(fraction) && AllDigits(exponent)
    ensures if exponent == [] then mark == [] else mark in MARKS
    ensures u == FractionText(fraction) + (mark + exponent + SkipExponent(SkipFraction(u)))
  {
    fraction := SkippedFraction(u);
    mark, exponent := SkippedExponent(SkipFraction(u));
  }

  lemma SpellsNumber(s: Text) returns (n: Number)
    requires SkipNumber(s).Some?
    ensures NumberFits(n) && s == NumberText(n) + SkipNumber(s).value
  {
    var negative := Starts(s, MINUS);
    var t := if negative then s[1..] else s;
    var whole := SpellsWhole(t);
    var fraction, mark, exponent := SpellsTail(AfterWhole(t));
    n := Number(negative, whole, fraction, mark, exponent);
    NumberLayout(n, SkipNumber(s).value);
    assert s == (if negative then [MINUS] else []) + t;
  }

  // ----- values -----

  /** How a value is spelled, with the whitespace between its tokens. */
  datatype Tree =
    | Word(name: Text, value: Json)
    | Num(number: Number)
    | Str(letters: seq<Letter>)
    | EmptyArray(space: Text)
    | Array(items: Items)
    | EmptyObject(space: Text)
    | Object(members: Members)

  /** The items of an array: whitespace, a value, whitespace, and the items behind a comma. */
  datatype Items = Items(before: Text, item: Tree, after: Text, rest: Option<Items>)

  datatype Members = Members(
    before: Text, key: seq<Letter>, afterKey: Text, beforeValue: Text, item: Tree, after: Text, rest: Option<Members>)

  predicate WordFits(name: Text, value: Json)
  {
    || (name == Lit("null") && value == JNull)
    || (name == Lit("true") && value == JBool(true))
    || (name == Lit("false") && value == JBool(false))
    || (name in {Lit("NaN"), Lit("Infinity"), Lit("-Infinity")} && value == JNumber)
  }

  ghost predicate TreeFits(t: Tree)
  {
    match t
    case Word(name, value) => WordFits(name, value)
    case Num(number) => NumberFits(number)
    case Str(letters) => LettersFit(letters)
    case EmptyArray(space) => Space(space)
    case Array(items) => ItemsFit(items)
    case EmptyObject(space) => Space(space)
    case Object(members) => MembersFit(members)
  }

  ghost predicate ItemsFit(items: Items)
  {
    && Space(items.before) && TreeFits(items.item) && Space(items.after)
    && (items.rest.Some? ==> ItemsFit(items.rest.value))
  }

  ghost predicate MembersFit(m: Members)
  {
    && Space(m.before) && LettersFit(m.key) && Space(m.afterKey) && Space(m.beforeValue)
    && TreeFits(m.item) && Space(m.after) && (m.rest.Some? ==> MembersFit(m.rest.value))
  }

  function TreeText(t: Tree): Text
  {
    match t
    case Word(name, _) => name
    case Num(number) => NumberText(number)
    case Str(letters) => [QUOTE] + (LettersText(letters) + [QUOTE])
    case EmptyArray(space) => [LBRACKET] + (space + [RBRACKET])
    case Array(items) => [LBRACKET] + ItemsText(items)
    case EmptyObject(space) => [LBRACE] + (space + [RBRACE])
    case Object(members) => [LBRACE] + MembersText(members)
  }

  /** Up to and with the closing bracket. */
  function ItemsText(items: Items): Text
  {
    items.before + (TreeText(items.item) + (items.after + MoreItems(items.rest)))
  }

  function MoreItems(rest: Option<Items>): Text
  {
    if rest.None? then [RBRACKET] else [COMMA] + ItemsText(rest.value)
  }

  function MembersText(m: Members): Text
    decreases m, 1
  {
    m.before + ([QUOTE] + (LettersText(m.key) + [QUOTE] + (m.afterKey + ([COLON] + NamedText(m)))))
  }

  /** What follows the name of a member and its colon. */
  function NamedText(m: Members): Text
    decreases m, 0
  {
    m.beforeValue + (TreeText(m.item) + (m.after + MoreMembers(m.rest)))
  }

  function MoreMembers(rest: Option<Members>): Text
  {
    if rest.None? then [RBRACE] else [COMMA] + MembersText(rest.value)
  }

  function TreeValue(t: Tree): Json
  {
    match t
    case Word(_, value) => value
    case Num(_) => JNumber
    case Str(letters) => JString(LettersValue(letters))
    case EmptyArray(_) => JArray([])
    case Array(items) => JArray(ItemsValue(items, []))
    case EmptyObject(_) => JObject(map[])
    case Object(members) => JObject(MembersValue(members, map[]))
  }

  /** The values of the items, behind those of `front`. */
  function ItemsValue(items: Items, front: seq<Json>): seq<Json>
  {
    var longer := front + [TreeValue(items.item)];
    if items.rest.None? then longer else ItemsValue(items.rest.value, longer)
  }

  /** A repeated name takes its last value. */
  function MembersValue(m: Members, fields: map<Text, Json>): map<Text, Json>
  {
    var more := fields[LettersValue(m.key) := TreeValue(m.item)];
    if m.rest.None? then more else MembersValue(m.rest.value, more)
  }

  /** A text that is one value, with whitespace around it. */
  datatype Document = Document(before: Text, tree: Tree, after: Text)

  ghost predicate DocumentFits(d: Document)
  {
    Space(d.before) && TreeFits(d.tree) && Space(d.after)
  }

  function DocumentText(d: Document): Text
  {
    d.before + (TreeText(d.tree) + d.after)
  }

  // ----- the reader reads what a tree spells -----

  /** The first character of a value. */
  predicate OpensValue(s: Text)
  {
    s != [] && s[0] !in {0x09, 0x0A, 0x0D, 0x20, COMMA, COLON, RBRACKET, RBRACE, 0xFEFF}
  }

  lemma TreeOpens(t: Tree, rest: Text)
    requires TreeFits(t)
    ensures OpensValue(TreeText(t) + rest)
  {
    var s := TreeText(t) + rest;
    match t
    case Word(name, _) => assert s[0] == name[0];
    case Num(n) => assert NumberText(n)[0] == if n.negative then MINUS else n.whole[0];
    case _ =>
  }

  lemma ReadsWord(name: Text, value: Json, rest: Text)
    requires WordFits(name, value)
    ensures ParseValue(name + rest) == Some((value, rest))
  {
    StartsWithWord(name, rest);
    if name == Lit("null") {
      ParseNull(rest);
    } else if name == Lit("true") {
      ParseTrue(rest);
    } else if name == Lit("false") {
      ParseFalse(rest);
    } else {
      WordsDiffer(name + rest, Lit("null"));
      WordsDiffer(name + rest, Lit("true"));
      WordsDiffer(name + rest, Lit("false"));
      if name != Lit("NaN") { WordsDiffer(name + rest, Lit("NaN")); }
      if name == Lit("-Infinity") { WordsDiffer(name + rest, Lit("Infinity")); }
    }
  }

  lemma WordsDifferAt(s: Text, word: Text, i: nat)
    requires i < |s| && i < |word| && s[i] != word[i]
    ensures !StartsWith(s, word)
  {
    if |s| >= |word| { assert s[..|word|][i] == s[i]; }
  }

  lemma NumberIsNoWord(n: Number, rest: Text)
    requires NumberFits(n)
    ensures var s := NumberText(n) + rest;
      && s != [] && (IsDigit(s[0]) || s[0] == MINUS)
      && !StartsWith(s, Lit("null")) && !StartsWith(s, Lit("true")) && !StartsWith(s, Lit("false"))
      && !StartsWith(s, Lit("NaN")) && !StartsWith(s, Lit("Infinity")) && !StartsWith(s, Lit("-Infinity"))
  {
    var s := NumberText(n) + rest;
    var digits := n.whole + (FractionText(n.fraction) + (n.mark + n.exponent));
    assert digits[0] == n.whole[0] && IsDigit(n.whole[0]);
    if n.negative {
      assert s[0] == MINUS && s[1] == digits[0];
      WordsDifferAt(s, Lit("-Infinity"), 1);
    } else {
      assert s[0] == digits[0];
      WordsDiffer(s, Lit("-Infinity"));
    }
    WordsDiffer(s, Lit("null"));
    WordsDiffer(s, Lit("true"));
    WordsDiffer(s, Lit("false"));
    WordsDiffer(s, Lit("NaN"));
    WordsDiffer(s, Lit("Infinity"));
  }

  lemma ReadsNum(n: Number, rest: Text)
    requires NumberFits(n) && Delimited(rest)
    ensures ParseValue(NumberText(n) + rest) == Some((JNumber, rest))
  {
    NumberIsNoWord(n, rest);
    ReadsNumber(n, rest);
  }

  lemma ReadsStr(letters: seq<Letter>, rest: Text)
    requires LettersFit(letters)
    ensures ParseValue([QUOTE] + (LettersText(letters) + [QUOTE]) + rest) ==
            Some((JString(LettersValue(letters)), rest))
  {
    var s := [QUOTE] + (LettersText(letters) + [QUOTE]) + rest;
    assert s[0] == QUOTE && s[1..] == LettersText(letters) + [QUOTE] + rest;
    ReadsLetters(letters, rest);
  }

  lemma ReadsEmpty(open: CodePoint, space: Text, close: CodePoint, rest: Text)
    requires Space(space) && ((open == LBRACKET && close == RBRACKET) || (open == LBRACE && close == RBRACE))
    ensures var s := [open] + (space + [close]) + rest;
      ParseValue(s) == Some((if open == LBRACKET then JArray([]) else JObject(map[]), rest))
  {
    var s := [open] + (space + [close]) + rest;
    assert s[0] == open && s[1..] == space + ([close] + rest);
    SkipsSpace(space, [close] + rest);
    assert ([close] + rest)[1..] == rest;
  }

  lemma ItemsLayout(items: Items, rest: Text)
    ensures ItemsText(items) + rest ==
            items.before + (TreeText(items.item) + (items.after + (MoreItems(items.rest) + rest)))
  {
  }

  lemma NamedLayout(m: Members, rest: Text)
    ensures MembersText(m) + rest ==
            m.before + ([QUOTE] + (LettersText(m.key) + [QUOTE] + (m.afterKey + ([COLON] + (NamedText(m) + rest)))))
  {
  }

  lemma MemberLayout(m: Members, rest: Text)
    ensures NamedText(m) + rest == m.beforeValue + (TreeText(m.item) + (m.after + (MoreMembers(m.rest) + rest)))
  {
  }

  lemma AfterSpace(space: Text, rest: Text)
    requires Space(space) && rest != [] && rest[0] in {COMMA, RBRACKET, RBRACE}
    ensures Delimited(space + rest) && SkipWhitespace(space + rest) == rest
  {
    SkipsSpace(space, rest);
    if space == [] { assert space + rest == rest; }
  }

  /** What the reader does behind an opening bracket or brace. */
  lemma ReadOpened(s: Text)
    requires s != []
    ensures var inner := SkipWhitespace(s[1..]);
      && (s[0] == LBRACKET ==>
          ParseValue(s) ==
            if Starts(inner, RBRACKET) then Some((JArray([]), inner[1..])) else ParseElements(inner, []))
      && (s[0] == LBRACE ==>
          ParseValue(s) ==
            if Starts(inner, RBRACE) then Some((JObject(map[]), inner[1..])) else ParseMembers(inner, map[]))
  {
  }

  /** The reader takes one item, and goes on behind a comma. */
  lemma ReadItem(s: Text, front: seq<Json>, value: Json, afterValue: Text, next: Text)
    requires ParseValue(s) == Some((value, afterValue)) && next == SkipWhitespace(afterValue)
    ensures ParseElements(s, front) ==
            if Starts(next, RBRACKET) then Some((JArray(front + [value]), next[1..]))
            else if Starts(next, COMMA) then ParseElements(SkipWhitespace(next[1..]), front + [value])
            else None
  {
  }

  lemma ReadsArray(items: Items, s: Text, rest: Text)
    requires s == [LBRACKET] + (ItemsText(items) + rest)
    requires var inner := SkipWhitespace(ItemsText(items) + rest);
      OpensValue(inner) && ParseElements(inner, []) == Some((JArray(ItemsValue(items, [])), rest))
    ensures ParseValue(s) == Some((JArray(ItemsValue(items, [])), rest))
  {
    Drop(LBRACKET, ItemsText(items) + rest);
    ReadOpened(s);
  }

  lemma ReadsObject(m: Members, s: Text, rest: Text)
    requires s == [LBRACE] + (MembersText(m) + rest)
    requires var inner := SkipWhitespace(MembersText(m) + rest);
      Starts(inner, QUOTE) && ParseMembers(inner, map[]) == Some((JObject(MembersValue(m, map[])), rest))
    ensures ParseValue(s) == Some((JObject(MembersValue(m, map[])), rest))
  {
    Drop(LBRACE, MembersText(m) + rest);
    ReadOpened(s);
  }

  /** The reader reads what a tree spells, whatever whitespace stands between the tokens. */
  lemma {:induction false} ReadsTree(t: Tree, rest: Text)
    requires TreeFits(t) && Delimited(rest)
    ensures ParseValue(TreeText(t) + rest) == Some((TreeValue(t), rest))
    decreases t, 0
  {
    var s := TreeText(t) + rest;
    match t
    case Word(name, value) => ReadsWord(name, value, rest);
    case Num(number) => ReadsNum(number, rest);
    case Str(letters) => ReadsStr(letters, rest);
    case EmptyArray(space) => ReadsEmpty(LBRACKET, space, RBRACKET, rest);
    case EmptyObject(space) => ReadsEmpty(LBRACE, space, RBRACE, rest);
    case Array(items) =>
      ReadsItems(items, [], rest);
      JoinLayout([LBRACKET], ItemsText(items), rest);
      ReadsArray(items, s, rest);
    case Object(members) =>
      ReadsMembers(members, map[], rest);
      JoinLayout([LBRACE], MembersText(members), rest);
      ReadsObject(members, s, rest);
  }

  /** The reader takes the first item, given that it takes its value. */
  lemma ReadsFirstItem(items: Items, front: seq<Json>, tail: Text, next: Text, rest: Text)
    requires ItemsFit(items) && next == MoreItems(items.rest) + rest && tail == items.after + next
    requires ParseValue(TreeText(items.item) + tail) == Some((TreeValue(items.item), tail))
    ensures var s, longer := SkipWhitespace(ItemsText(items) + rest), front + [TreeValue(items.item)];
      && OpensValue(s)
      && ParseElements(s, front) ==
           if items.rest.None? then Some((JArray(longer), rest))
           else ParseElements(SkipWhitespace(ItemsText(items.rest.value) + rest), longer)
  {
    ItemsLayout(items, rest);
    TreeOpens(items.item, tail);
    SkipsSpace(items.before, TreeText(items.item) + tail);
    AfterSpace(items.after, next);
    ReadItem(TreeText(items.item) + tail, front, TreeValue(items.item), tail, next);
    MoreItemsLayout(items, rest);
  }

  lemma MoreItemsLayout(items: Items, rest: Text)
    ensures var next := MoreItems(items.rest) + rest;
      && (items.rest.None? ==> Starts(next, RBRACKET) && next[1..] == rest)
      && (items.rest.Some? ==> Starts(next, COMMA) && next[1..] == ItemsText(items.rest.value) + rest)
  {
  }

  lemma {:induction false} ReadsItems(items: Items, front: seq<Json>, rest: Text)
    requires ItemsFit(items) && Delimited(rest)
    ensures var s := SkipWhitespace(ItemsText(items) + rest);
      OpensValue(s) && ParseElements(s, front) == Some((JArray(ItemsValue(items, front)), rest))
    decreases items, 1
  {
    var next := MoreItems(items.rest) + rest;
    AfterSpace(items.after, next);
    ReadsTree(items.item, items.after + next);
    ReadsFirstItem(items, front, items.after + next, next, rest);
    if items.rest.Some? {
      ReadsItems(items.rest.value, front + [TreeValue(items.item)], rest);
    }
  }

  /** The reader takes one member, and goes on behind a comma. */
  lemma ReadMember(s: Text, fields: map<Text, Json>, key: Text, afterKey: Text, colon: Text, value: Json,
                   afterValue: Text, next: Text)
    requires Starts(s, QUOTE) && ParseString(s[1..]) == Some((key, afterKey))
    requires colon == SkipWhitespace(afterKey) && Starts(colon, COLON)
    requires ParseValue(SkipWhitespace(colon[1..])) == Some((value, afterValue)) && next == SkipWhitespace(afterValue)
    ensures ParseMembers(s, fields) ==
            if Starts(next, RBRACE) then Some((JObject(fields[key := value]), next[1..]))
            else if Starts(next, COMMA) then ParseMembers(SkipWhitespace(next[1..]), fields[key := value])
            else None
  {
  }

  /** The reader takes the first member, given that it takes its value. */
  lemma ReadsFirst(m: Members, fields: map<Text, Json>, tail: Text, next: Text, rest: Text)
    requires MembersFit(m) && next == MoreMembers(m.rest) + rest && tail == m.after + next
    requires ParseValue(TreeText(m.item) + tail) == Some((TreeValue(m.item), tail))
    ensures var s, more := SkipWhitespace(MembersText(m) + rest), fields[LettersValue(m.key) := TreeValue(m.item)];
      && Starts(s, QUOTE)
      && ParseMembers(s, fields) ==
           if m.rest.None? then Some((JObject(more), rest))
           else ParseMembers(SkipWhitespace(MembersText(m.rest.value) + rest), more)
  {
    var colon := [COLON] + (NamedText(m) + rest);
    var s := [QUOTE] + (LettersText(m.key) + [QUOTE] + (m.afterKey + colon));
    ReadsNamed(m, tail, rest);
    AfterSpace(m.after, next);
    ReadMember(s, fields, LettersValue(m.key), m.afterKey + colon, colon, TreeValue(m.item), tail, next);
    MoreLayout(m, rest);
  }

  lemma MoreLayout(m: Members, rest: Text)
    ensures var next := MoreMembers(m.rest) + rest;
      && (m.rest.None? ==> Starts(next, RBRACE) && next[1..] == rest)
      && (m.rest.Some? ==> Starts(next, COMMA) && next[1..] == MembersText(m.rest.value) + rest)
  {
  }

  lemma {:induction false} ReadsMembers(m: Members, fields: map<Text, Json>, rest: Text)
    requires MembersFit(m) && Delimited(rest)
    ensures var s := SkipWhitespace(MembersText(m) + rest);
      Starts(s, QUOTE) && ParseMembers(s, fields) == Some((JObject(MembersValue(m, fields)), rest))
    decreases m, 1
  {
    var next := MoreMembers(m.rest) + rest;
    AfterSpace(m.after, next);
    ReadsTree(m.item, m.after + next);
    ReadsFirst(m, fields, m.after + next, next, rest);
    if m.rest.Some? {
      ReadsMembers(m.rest.value, fields[LettersValue(m.key) := TreeValue(m.item)], rest);
    }
  }

  /** The name and the colon of a member, up to its value. */
  lemma ReadsNamed(m: Members, tail: Text, rest: Text)
    requires MembersFit(m) && tail == m.after + (MoreMembers(m.rest) + rest)
    ensures var colon := [COLON] + (NamedText(m) + rest);
      var s := [QUOTE] + (LettersText(m.key) + [QUOTE] + (m.afterKey + colon));
      && SkipWhitespace(MembersText(m) + rest) == s
      && ParseString(s[1..]) == Some((LettersValue(m.key), m.afterKey + colon))
      && SkipWhitespace(m.afterKey + colon) == colon
      && SkipWhitespace(colon[1..]) == TreeText(m.item) + tail
  {
    var colon := [COLON] + (NamedText(m) + rest);
    var key := LettersText(m.key) + [QUOTE] + (m.afterKey + colon);
    NamedLayout(m, rest);
    SkipsSpace(m.before, [QUOTE] + key);
    Drop(QUOTE, key);
    ReadsLetters(m.key, m.afterKey + colon);
    SkipsSpace(m.afterKey, colon);
    Drop(COLON, NamedText(m) + rest);
    MemberLayout(m, rest);
    TreeOpens(m.item, tail);
    SkipsSpace(m.beforeValue, TreeText(m.item) + tail);
  }

  // ----- what the reader reads is spelled by a tree -----

  lemma SpellsWord(s: Text, name: Text, value: Json) returns (t: Tree)
    requires StartsWith(s, name) && WordFits(name, value)
    ensures TreeFits(t) && TreeValue(t) == value && s == TreeText(t) + s[|name|..]
  {
    t := Word(name, value);
    assert s == s[..|name|] + s[|name|..];
  }

  lemma OpenLayout(open: CodePoint, space: Text, s: Text, inner: Text)
    requires Starts(s, open) && s[1..] == space + inner
    ensures s == [open] + (space + inner)
  {
    assert s == [open] + s[1..];
  }

  lemma BeforeItems(items: Items, space: Text, rest: Text)
    requires items.before == []
    ensures ItemsText(items.(before := space)) + rest == space + (ItemsText(items) + rest)
  {
    ItemsLayout(items, rest);
    ItemsLayout(items.(before := space), rest);
    Empty(TreeText(items.item) + (items.after + (MoreItems(items.rest) + rest)));
  }

  lemma BeforeMembers(m: Members, space: Text, rest: Text)
    requires m.before == []
    ensures MembersText(m.(before := space)) + rest == space + (MembersText(m) + rest)
  {
    var named := [QUOTE] + (LettersText(m.key) + [QUOTE] + (m.afterKey + ([COLON] + (NamedText(m) + rest))));
    NamedLayout(m, rest);
    NamedLayout(m.(before := space), rest);
    Empty(named);
  }

  lemma Empty(t: Text)
    ensures [] + t == t
  {
  }

  lemma {:induction false} SpellsValue(s: Text) returns (t: Tree)
    requires ParseValue(s).Some?
    ensures TreeFits(t) && TreeValue(t) == ParseValue(s).value.0 && s == TreeText(t) + ParseValue(s).value.1
    decreases |s|, 2
  {
    if s[0] == QUOTE {
      t := SpellsQuoted(s);
    } else if s[0] == LBRACE {
      t := SpellsObject(s);
    } else if s[0] == LBRACKET {
      t := SpellsArray(s);
    } else {
      t := SpellsScalar(s);
    }
  }

  lemma SpellsQuoted(s: Text) returns (t: Tree)
    requires ParseValue(s).Some? && s[0] == QUOTE
    ensures TreeFits(t) && TreeValue(t) == ParseValue(s).value.0 && s == TreeText(t) + ParseValue(s).value.1
  {
    var letters := SpellsString(s[1..]);
    t := Str(letters);
    assert s == [QUOTE] + s[1..];
    JoinLayout([QUOTE], LettersText(letters) + [QUOTE], ParseValue(s).value.1);
  }

  lemma SpellsScalar(s: Text) returns (t: Tree)
    requires ParseValue(s).Some? && s[0] !in {QUOTE, LBRACE, LBRACKET}
    ensures TreeFits(t) && TreeValue(t) == ParseValue(s).value.0 && s == TreeText(t) + ParseValue(s).value.1
  {
    if StartsWith(s, Lit("null")) {
      t := SpellsWord(s, Lit("null"), JNull);
    } else if StartsWith(s, Lit("true")) {
      t := SpellsWord(s, Lit("true"), JBool(true));
    } else if StartsWith(s, Lit("false")) {
      t := SpellsWord(s, Lit("false"), JBool(false));
    } else if StartsWith(s, Lit("NaN")) {
      t := SpellsWord(s, Lit("NaN"), JNumber);
    } else if StartsWith(s, Lit("Infinity")) {
      t := SpellsWord(s, Lit("Infinity"), JNumber);
    } else if StartsWith(s, Lit("-Infinity")) {
      t := SpellsWord(s, Lit("-Infinity"), JNumber);
    } else {
      var number := SpellsNumber(s);
      t := Num(number);
    }
  }

  lemma ArrayLayout(items: Items, space: Text, s: Text, inner: Text, rest: Text)
    requires items.before == [] && inner == ItemsText(items) + rest && Starts(s, LBRACKET) && s[1..] == space + inner
    ensures s == TreeText(Array(items.(before := space))) + rest
  {
    BeforeItems(items, space, rest);
    OpenLayout(LBRACKET, space, s, inner);
    JoinLayout([LBRACKET], ItemsText(items.(before := space)), rest);
  }

  lemma ObjectLayout(m: Members, space: Text, s: Text, inner: Text, rest: Text)
    requires m.before == [] && inner == MembersText(m) + rest && Starts(s, LBRACE) && s[1..] == space + inner
    ensures s == TreeText(Object(m.(before := space))) + rest
  {
    BeforeMembers(m, space, rest);
    OpenLayout(LBRACE, space, s, inner);
    JoinLayout([LBRACE], MembersText(m.(before := space)), rest);
  }

  lemma EmptyLayout(open: CodePoint, space: Text, close: CodePoint, s: Text, inner: Text)
    requires Starts(s, open) && s[1..] == space + inner && Starts(inner, close)
    ensures s == [open] + (space + [close]) + inner[1..]
  {
    OpenLayout(open, space, s, inner);
    assert inner == [close] + inner[1..];
  }

  lemma {:induction false} SpellsArray(s: Text) returns (t: Tree)
    requires ParseValue(s).Some? && s[0] == LBRACKET
    ensures TreeFits(t) && TreeValue(t) == ParseValue(s).value.0 && s == TreeText(t) + ParseValue(s).value.1
    decreases |s|, 1
  {
    var inner := SkipWhitespace(s[1..]);
    var space := SkippedSpace(s[1..]);
    ReadOpened(s);
    if Starts(inner, RBRACKET) {
      t := EmptyArray(space);
      EmptyLayout(LBRACKET, space, RBRACKET, s, inner);
    } else {
      var items := SpellsItems(inner, []);
      t := Array(items.(before := space));
      ArrayLayout(items, space, s, inner, ParseValue(s).value.1);
    }
  }

  lemma {:induction false} SpellsObject(s: Text) returns (t: Tree)
    requires ParseValue(s).Some? && s[0] == LBRACE
    ensures TreeFits(t) && TreeValue(t) == ParseValue(s).value.0 && s == TreeText(t) + ParseValue(s).value.1
    decreases |s|, 1
  {
    var inner := SkipWhitespace(s[1..]);
    var space := SkippedSpace(s[1..]);
    ReadOpened(s);
    if Starts(inner, RBRACE) {
      t := EmptyObject(space);
      EmptyLayout(LBRACE, space, RBRACE, s, inner);
    } else {
      var members := SpellsMembers(inner, map[]);
      t := Object(members.(before := space));
      ObjectLayout(members, space, s, inner, ParseValue(s).value.1);
    }
  }

  lemma {:induction false} SpellsItems(s: Text, front: seq<Json>) returns (items: Items)
    requires ParseElements(s, front).Some?
    ensures ItemsFit(items) && items.before == []
    ensures JArray(ItemsValue(items, front)) == ParseElements(s, front).value.0
    ensures s == ItemsText(items) + ParseElements(s, front).value.1
    decreases |s|, 3
  {
    var rest := ParseElements(s, front).value.1;
    var item := SpellsValue(s);
    var afterValue := ParseValue(s).value.1;
    var next := SkipWhitespace(afterValue);
    var after := SkippedSpace(afterValue);
    if Starts(next, RBRACKET) {
      items := Items([], item, after, None);
      assert next == [RBRACKET] + rest;
    } else {
      var inner := SkipWhitespace(next[1..]);
      var space := SkippedSpace(next[1..]);
      var more := SpellsItems(inner, front + [TreeValue(item)]);
      items := Items([], item, after, Some(more.(before := space)));
      BeforeItems(more, space, rest);
      OpenLayout(COMMA, space, next, inner);
      assert next == MoreItems(items.rest) + rest;
    }
    ItemsLayout(items, rest);
    Empty(TreeText(item) + (after + next));
  }

  lemma {:induction false} SpellsMembers(s: Text, fields: map<Text, Json>) returns (m: Members)
    requires ParseMembers(s, fields).Some?
    ensures MembersFit(m) && m.before == []
    ensures JObject(MembersValue(m, fields)) == ParseMembers(s, fields).value.0
    ensures s == MembersText(m) + ParseMembers(s, fields).value.1
    decreases |s|, 3
  {
    var rest := ParseMembers(s, fields).value.1;
    var (key, afterKey) := ParseString(s[1..]).value;
    var colon := SkipWhitespace(afterKey);
    var (value, afterValue) := ParseValue(SkipWhitespace(colon[1..])).value;
    var next := SkipWhitespace(afterValue);
    ReadMember(s, fields, key, afterKey, colon, value, afterValue, next);
    var letters := SpellsString(s[1..]);
    var spaceAfterKey := SkippedSpace(afterKey);
    var spaceBefore := SkippedSpace(colon[1..]);
    var item := SpellsValue(SkipWhitespace(colon[1..]));
    var after := SkippedSpace(afterValue);
    var others: Option<Members> := None;
    if Starts(next, RBRACE) {
      assert next == [RBRACE] + rest;
    } else {
      var inner := SkipWhitespace(next[1..]);
      var space := SkippedSpace(next[1..]);
      var more := SpellsMembers(inner, fields[key := value]);
      others := Some(more.(before := space));
      CommaLayout(more, space, next, inner, rest);
    }
    m := Members([], letters, spaceAfterKey, spaceBefore, item, after, others);
    MemberSpelled(m, s, afterKey, colon, afterValue, next, rest);
  }

  lemma CommaLayout(more: Members, space: Text, next: Text, inner: Text, rest: Text)
    requires more.before == [] && inner == MembersText(more) + rest && Starts(next, COMMA) && next[1..] == space + inner
    ensures next == MoreMembers(Some(more.(before := space))) + rest
  {
    BeforeMembers(more, space, rest);
    OpenLayout(COMMA, space, next, inner);
    JoinLayout([COMMA], MembersText(more.(before := space)), rest);
  }

  lemma MemberSpelled(m: Members, s: Text, afterKey: Text, colon: Text, afterValue: Text, next: Text, rest: Text)
    requires m.before == [] && Starts(s, QUOTE) && s[1..] == LettersText(m.key) + [QUOTE] + afterKey
    requires afterKey == m.afterKey + colon && Starts(colon, COLON)
    requires colon[1..] == m.beforeValue + (TreeText(m.item) + afterValue)
    requires afterValue == m.after + next && next == MoreMembers(m.rest) + rest
    ensures s == MembersText(m) + rest
  {
    MemberLayout(m, rest);
    NamedLayout(m, rest);
    assert colon == [COLON] + colon[1..];
    assert s == [QUOTE] + s[1..];
    Empty(s);
  }

  // ----- the reader accepts exactly the grammar -----

  /** A text reads as a value exactly when it spells the value, with whitespace around its tokens. */
  lemma LoadsExactlyGrammar(text: Text, value: Json)
    ensures Loads(text) == Some(value) <==>
            exists d :: DocumentFits(d) && DocumentText(d) == text && TreeValue(d.tree) == value
  {
    if Loads(text) == Some(value) {
      var d := SpellsDocument(text);
    }
    if d :| DocumentFits(d) && DocumentText(d) == text && TreeValue(d.tree) == value {
      ReadsDocument(d);
    }
  }

  lemma ReadsDocument(d: Document)
    requires DocumentFits(d)
    ensures Loads(DocumentText(d)) == Some(TreeValue(d.tree))
  {
    var value := TreeText(d.tree) + d.after;
    TreeOpens(d.tree, d.after);
    SkipsSpace(d.before, value);
    if d.before == [] { Empty(value); } else { assert DocumentText(d)[0] == d.before[0]; }
    ReadsTree(d.tree, d.after);
    SkipsSpace(d.after, []);
    assert d.after + [] == d.after;
  }

  lemma SpellsDocument(text: Text) returns (d: Document)
    requires Loads(text).Some?
    ensures DocumentFits(d) && DocumentText(d) == text && TreeValue(d.tree) == Loads(text).value
  {
    var s := SkipWhitespace(text);
    var before := SkippedSpace(text);
    var tree := SpellsValue(s);
    var after := SkippedSpace(ParseValue(s).value.1);
    d := Document(before, tree, after);
    assert after + [] == after;
  }
}
