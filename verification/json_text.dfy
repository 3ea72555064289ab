/**
 JSON text as Go's `encoding/json` writes it for the gateway's error body:
 string escaping (with the HTML-safe escapes `json.Marshal` applies by
 default) and a reader for JSON string literals that undoes it.
 */
module JsonText {
  import opened Wrappers
  import Decimal

  const HexDigits: string := "0123456789abcdef"

  /** Two lower-case hex digits of a code below 0x100. */
  function Hex2(code: nat): (r: string)
    requires code < 0x100
    ensures |r| == 2
  {
    [HexDigits[code / 16], HexDigits[code % 16]]
  }

  /** Four lower-case hex digits of a code below 0x10000. */
  function Hex4(code: nat): (r: string)
    requires code < 0x10000
    ensures |r| == 4
  {
    Hex2(code / 256) + Hex2(code % 256)
  }

  function HexValue(c: char): (r: Option<nat>)
    ensures r.Some? ==> r.value < 16
  {
    if '0' <= c <= '9' then Some(c as int - '0' as int)
    else if 'a' <= c <= 'f' then Some(c as int - 'a' as int + 10)
    else if 'A' <= c <= 'F' then Some(c as int - 'A' as int + 10)
    else None
  }

  function Hex2Value(s: string): (r: Option<nat>)
    requires |s| == 2
    ensures r.Some? ==> r.value < 0x100
  {
    match (HexValue(s[0]), HexValue(s[1]))
    case (Some(a), Some(b)) => Some(a * 16 + b)
    case _ => None
  }

  /** The code four hex digits denote, if they are hex digits. */
  function Hex4Value(s: string): (r: Option<nat>)
    requires |s| == 4
    ensures r.Some? ==> r.value < 0x10000
  {
    match (Hex2Value(s[..2]), Hex2Value(s[2..]))
    case (Some(hi), Some(lo)) => Some(hi * 256 + lo)
    case _ => None
  }

  lemma HexDigitValue(d: nat)
    requires d < 16
    ensures HexValue(HexDigits[d]) == Some(d)
  {
  }

  lemma Hex2RoundTrip(code: nat)
    requires code < 0x100
    ensures Hex2Value(Hex2(code)) == Some(code)
  {
    HexDigitValue(code / 16);
    HexDigitValue(code % 16);
  }

  lemma Hex4RoundTrip(code: nat)
    requires code < 0x10000
    ensures Hex4Value(Hex4(code)) == Some(code)
  {
    Hex2RoundTrip(code / 256);
    Hex2RoundTrip(code % 256);
    assert Hex4(code)[..2] == Hex2(code / 256);
    assert Hex4(code)[2..] == Hex2(code % 256);
  }

  /** Characters `json.Marshal` writes as a `\u` escape. */
  predicate UnicodeEscaped(c: char)
  {
    ((c as int) < 0x20 && c != '\n' && c != '\r' && c != '\t')
    || c == '<' || c == '>' || c == '&' || c as int == 0x2028 || c as int == 0x2029
  }

  /** Characters written as themselves. */
  predicate Plain(c: char)
  {
    !UnicodeEscaped(c) && c != '"' && c != '\\' && c != '\n' && c != '\r' && c != '\t'
  }

  function EscapeChar(c: char): (r: string)
    ensures Plain(c) <==> r == [c]
    ensures |r| > 0
  {
    if c == '"' then "\\\""
    else if c == '\\' then "\\\\"
    else if c == '\n' then "\\n"
    else if c == '\r' then "\\r"
    else if c == '\t' then "\\t"
    else if UnicodeEscaped(c) then "\\u" + Hex4(c as int)
    else [c]
  }

  /** The characters between the quotes of a JSON string that carries `s`. */
  function Escape(s: string): (r: string)
    ensures (forall i :: 0 <= i < |s| ==> Plain(s[i])) ==> r == s
    ensures |r| >= |s|
  {
    if |s| == 0 then "" else EscapeChar(s[0]) + Escape(s[1..])
  }

  function Prepend(c: char, o: Option<(string, string)>): Option<(string, string)>
  {
    match o
    case None => None
    case Some((t, rest)) => Some(([c] + t, rest))
  }

  function ShortEscape(c: char): Option<char>
  {
    if c == '"' then Some('"')
    else if c == '\\' then Some('\\')
    else if c == '/' then Some('/')
    else if c == 'n' then Some('\n')
    else if c == 'r' then Some('\r')
    else if c == 't' then Some('\t')
    else if c == 'b' then Some(8 as char)
    else if c == 'f' then Some(12 as char)
    else None
  }

  /**
   Reads the body of a JSON string literal whose opening quote is already
   consumed: the text it denotes and what follows the closing quote. A raw
   control character or a malformed escape is an error; a `\u` escape of a
   lone surrogate half is refused rather than paired.
   */
  function ReadString(s: string): Option<(string, string)>
    decreases |s|
  {
    if |s| == 0 then None
    else if s[0] == '"' then Some(("", s[1..]))
    else if s[0] == '\\' then
      if |s| >= 2 && ShortEscape(s[1]).Some? then Prepend(ShortEscape(s[1]).value, ReadString(s[2..]))
      else if |s| >= 6 && s[1] == 'u' then
        match Hex4Value(s[2..6])
        case None => None
        case Some(code) =>
          if code < 0xD800 || 0xE000 <= code then Prepend(code as char, ReadString(s[6..])) else None
      else None
    else if (s[0] as int) < 0x20 then None
    else Prepend(s[0], ReadString(s[1..]))
  }

  lemma ReadUnicodeEscaped(c: char, tail: string)
    requires UnicodeEscaped(c)
    ensures ReadString(EscapeChar(c) + tail) == Prepend(c, ReadString(tail))
  {
    var code := c as int;
    assert code < 0xD800 || 0xE000 <= code;
    var s := EscapeChar(c) + tail;
    assert EscapeChar(c) == "\\u" + Hex4(code);
    Hex4RoundTrip(code);
    assert s[2..6] == Hex4(code);
    assert s[6..] == tail;
    ReadUnicodeStep(s, code);
  }

  /** A well-formed `\u` escape of a code outside the surrogate halves reads as that code's character. */
  lemma ReadUnicodeStep(s: string, code: nat)
    requires |s| >= 6 && s[0] == '\\' && s[1] == 'u' && Hex4Value(s[2..6]) == Some(code)
    requires code < 0xD800 || 0xE000 <= code < 0x110000
    ensures ReadString(s) == Prepend(code as char, ReadString(s[6..]))
  {
    assert ShortEscape(s[1]).None?;
  }

  lemma ReadShortEscaped(c: char, tail: string)
    requires c == '"' || c == '\\' || c == '\n' || c == '\r' || c == '\t'
    ensures ReadString(EscapeChar(c) + tail) == Prepend(c, ReadString(tail))
  {
    var s := EscapeChar(c) + tail;
    assert s[2..] == tail;
  }

  lemma ReadEscapedChar(c: char, tail: string)
    ensures ReadString(EscapeChar(c) + tail) == Prepend(c, ReadString(tail))
  {
    if c == '"' || c == '\\' || c == '\n' || c == '\r' || c == '\t' {
      ReadShortEscaped(c, tail);
    } else if UnicodeEscaped(c) {
      ReadUnicodeEscaped(c, tail);
    } else {
      assert (EscapeChar(c) + tail)[1..] == tail;
    }
  }

  /** Reading back an escaped string and its closing quote gives the string and the rest. */
  lemma {:induction false} ReadEscape(s: string, rest: string)
    ensures ReadString(Escape(s) + "\"" + rest) == Some((s, rest))
  {
    if |s| == 0 {
      assert Escape(s) + "\"" + rest == "\"" + rest;
      assert ("\"" + rest)[1..] == rest;
    } else {
      var tail := Escape(s[1..]) + "\"" + rest;
      EscapeRegroup(s, rest);
      ReadEscapedChar(s[0], tail);
      ReadEscape(s[1..], rest);
      assert [s[0]] + s[1..] == s;
    }
  }

  lemma EscapeRegroup(s: string, rest: string)
    requires |s| > 0
    ensures Escape(s) + "\"" + rest == EscapeChar(s[0]) + (Escape(s[1..]) + "\"" + rest)
  {
    var e, q := EscapeChar(s[0]), "\"";
    assert Escape(s) == e + Escape(s[1..]);
    Regroup(e, Escape(s[1..]), q, rest);
  }

  lemma Regroup(a: string, b: string, c: string, d: string)
    ensures a + b + c + d == a + (b + c + d)
  {
  }

  /** Escaped text has no unescaped quote: the first `"` ends the string. */
  lemma EscapeIsInjective(a: string, b: string)
    requires Escape(a) == Escape(b)
    ensures a == b
  {
    ReadEscape(a, "");
    ReadEscape(b, "");
  }
}
