/** Python strings and their UTF-8 encoding, with the decoder's strictness: shortest forms only, no
    surrogates, nothing above U+10FFFF. */
module Utf8 {
  import opened Options

  type Byte = b: int | 0 <= b < 0x100

  type CodePoint = c: int | 0 <= c < 0x110000

  /** A Python string; it may hold lone surrogates. */
  type Text = seq<CodePoint>

  function Lit(s: string): (t: Text)
    ensures |t| == |s| && forall i :: 0 <= i < |s| ==> t[i] == s[i] as int
  {
    seq(|s|, i requires 0 <= i < |s| => s[i] as int)
  }

  predicate Surrogate(c: CodePoint)
  {
    0xD800 <= c < 0xE000
  }

  predicate Encodable(t: Text)
  {
    forall i :: 0 <= i < |t| ==> !Surrogate(t[i])
  }

  /** A continuation byte carries the low six bits. */
  function Low(c: nat): Byte
  {
    0x80 + c % 0x40
  }

  function High(c: nat): nat
  {
    c / 0x40
  }

  /** Six more bits. */
  function Join(high: nat, low: int): nat
    requires 0x80 <= low
  {
    0x40 * high + (low - 0x80)
  }

  function EncodeChar(c: CodePoint): seq<Byte>
  {
    if c < 0x80 then [c]
    else if c < 0x800 then [0xC0 + High(c), Low(c)]
    else if c < 0x10000 then [0xE0 + High(High(c)), Low(High(c)), Low(c)]
    else [0xF0 + High(High(High(c))), Low(High(High(c))), Low(High(c)), Low(c)]
  }

  function EncodeAll(t: Text): seq<Byte>
  {
    if t == [] then [] else EncodeChar(t[0]) + EncodeAll(t[1..])
  }

  /** `str.encode("utf-8")`: `None` is UnicodeEncodeError. */
  function Encode(t: Text): Option<seq<Byte>>
  {
    if Encodable(t) then Some(EncodeAll(t)) else None
  }

  predicate Continues(b: seq<Byte>, i: nat)
  {
    i < |b| && 0x80 <= b[i] < 0xC0
  }

  /** The first character and the number of bytes it takes. */
  function DecodeChar(b: seq<Byte>): (r: Option<(CodePoint, nat)>)
    requires b != []
    ensures r.Some? ==> 1 <= r.value.1 <= |b|
  {
    if b[0] < 0x80 then Some((b[0], 1))
    else if 0xC2 <= b[0] < 0xE0 then
      if !Continues(b, 1) then None
      else Some((Join((b[0] as int) - 0xC0, b[1]), 2))
    else if 0xE0 <= b[0] < 0xF0 then
      if !Continues(b, 1) || !Continues(b, 2) then None
      else
        var c := Join(Join((b[0] as int) - 0xE0, b[1]), b[2]);
        if c < 0x800 || Surrogate(c) then None else Some((c, 3))
    else if 0xF0 <= b[0] < 0xF5 then
      if !Continues(b, 1) || !Continues(b, 2) || !Continues(b, 3) then None
      else
        var c := Join(Join(Join((b[0] as int) - 0xF0, b[1]), b[2]), b[3]);
        if c < 0x10000 || c >= 0x110000 then None else Some((c, 4))
    else None
  }

  /** `bytes.decode("utf-8")`: `None` is UnicodeDecodeError. */
  function Decode(b: seq<Byte>): Option<Text>
    decreases |b|
  {
    if b == [] then Some([])
    else
      match DecodeChar(b)
      case None => None
      case Some((c, n)) =>
        match Decode(b[n..])
        case None => None
        case Some(rest) => Some([c] + rest)
  }

  lemma JoinSplit(c: nat)
    ensures Join(High(c), Low(c)) == c
  {
  }

  lemma SplitJoin(high: nat, low: int)
    requires 0x80 <= low < 0xC0
    ensures High(Join(high, low)) == high && Low(Join(high, low)) == low
  {
  }

  lemma DecodeTwo(b: seq<Byte>, c: CodePoint)
    requires 0x80 <= c < 0x800 && |b| >= 2 && b[0] == 0xC0 + High(c) && b[1] == Low(c)
    ensures DecodeChar(b) == Some((c, 2))
  {
    JoinSplit(c);
  }

  lemma DecodeThree(b: seq<Byte>, c: CodePoint)
    requires 0x800 <= c < 0x10000 && !Surrogate(c)
    requires |b| >= 3 && b[0] == 0xE0 + High(High(c)) && b[1] == Low(High(c)) && b[2] == Low(c)
    ensures DecodeChar(b) == Some((c, 3))
  {
    JoinSplit(c);
    JoinSplit(High(c));
  }

  lemma DecodeFour(b: seq<Byte>, c: CodePoint)
    requires 0x10000 <= c && |b| >= 4
    requires b[0] == 0xF0 + High(High(High(c))) && b[1] == Low(High(High(c))) && b[2] == Low(High(c)) && b[3] == Low(c)
    ensures DecodeChar(b) == Some((c, 4))
  {
    JoinSplit(c);
    JoinSplit(High(c));
    JoinSplit(High(High(c)));
  }

  lemma DecodeEncodedChar(c: CodePoint, rest: seq<Byte>)
    requires !Surrogate(c)
    ensures DecodeChar(EncodeChar(c) + rest) == Some((c, |EncodeChar(c)|))
  {
    if 0x80 <= c < 0x800 {
      DecodeTwo(EncodeChar(c) + rest, c);
    } else if 0x800 <= c < 0x10000 {
      DecodeThree(EncodeChar(c) + rest, c);
    } else if 0x10000 <= c {
      DecodeFour(EncodeChar(c) + rest, c);
    }
  }

  lemma EncodeTwo(high: nat, low: int)
    requires 2 <= high < 0x20 && 0x80 <= low < 0xC0
    ensures Join(high, low) < 0x800 && EncodeChar(Join(high, low)) == [0xC0 + high, low]
  {
    SplitJoin(high, low);
  }

  lemma EncodeThree(high: nat, mid: int, low: int)
    requires high < 0x10 && 0x80 <= mid < 0xC0 && 0x80 <= low < 0xC0
    requires 0x800 <= Join(Join(high, mid), low)
    ensures Join(Join(high, mid), low) < 0x10000
    ensures EncodeChar(Join(Join(high, mid), low)) == [0xE0 + high, mid, low]
  {
    SplitJoin(high, mid);
    SplitJoin(Join(high, mid), low);
  }

  lemma EncodeFour(high: nat, mid: int, low: int, last: int)
    requires high < 5 && 0x80 <= mid < 0xC0 && 0x80 <= low < 0xC0 && 0x80 <= last < 0xC0
    requires 0x10000 <= Join(Join(Join(high, mid), low), last) < 0x110000
    ensures EncodeChar(Join(Join(Join(high, mid), low), last)) == [0xF0 + high, mid, low, last]
  {
    var two := Join(high, mid);
    var three := Join(two, low);
    var c := Join(three, last);
    SplitJoin(three, last);
    assert High(c) == three && Low(c) == last;
    SplitJoin(two, low);
    assert High(three) == two && Low(three) == low;
    SplitJoin(high, mid);
    assert High(two) == high && Low(two) == mid;
  }

  lemma EncodeDecodedChar(b: seq<Byte>)
    requires b != [] && DecodeChar(b).Some?
    ensures !Surrogate(DecodeChar(b).value.0) && EncodeChar(DecodeChar(b).value.0) == b[..DecodeChar(b).value.1]
  {
    var n := DecodeChar(b).value.1;
    if n == 2 {
      EncodeTwo((b[0] as int) - 0xC0, b[1]);
    } else if n == 3 {
      EncodeThree((b[0] as int) - 0xE0, b[1], b[2]);
    } else if n == 4 {
      EncodeFour((b[0] as int) - 0xF0, b[1], b[2], b[3]);
    }
  }

  lemma {:induction false} DecodeEncoded(t: Text)
    requires Encodable(t)
    ensures Decode(EncodeAll(t)) == Some(t)
  {
    if t == [] {
    } else {
      var rest := EncodeAll(t[1..]);
      DecodeEncodedChar(t[0], rest);
      DecodeEncoded(t[1..]);
      assert (EncodeChar(t[0]) + rest)[|EncodeChar(t[0])|..] == rest;
      assert [t[0]] + t[1..] == t;
    }
  }

  lemma {:induction false} EncodeDecoded(b: seq<Byte>, t: Text)
    requires Decode(b) == Some(t)
    ensures Encodable(t) && EncodeAll(t) == b
    decreases |b|
  {
    if b == [] {
    } else {
      var (c, n) := DecodeChar(b).value;
      var rest := Decode(b[n..]).value;
      EncodeDecodedChar(b);
      EncodeDecoded(b[n..], rest);
      assert t == [c] + rest && t[1..] == rest;
      assert b[..n] + b[n..] == b;
    }
  }

  /** Decoding undoes encoding, and accepts nothing that encoding does not produce. */
  lemma DecodesExactlyEncodings(t: Text, b: seq<Byte>)
    ensures Decode(b) == Some(t) <==> Encode(t) == Some(b)
  {
    if Decode(b) == Some(t) { EncodeDecoded(b, t); }
    if Encodable(t) { DecodeEncoded(t); }
  }

  /** The byte of an ASCII character occurs only where that character does. */
  lemma {:induction false} AsciiOnlyWhereWritten(t: Text, a: Byte)
    requires a < 0x80 && a !in t
    ensures a !in EncodeAll(t)
  {
    if t == [] {
    } else {
      assert t[0] in t && t[0] != a;
      assert forall c :: c in t[1..] ==> c in t;
      assert a !in EncodeChar(t[0]);
      AsciiOnlyWhereWritten(t[1..], a);
    }
  }
}
