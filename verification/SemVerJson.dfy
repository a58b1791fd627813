/**
 The JSON form of `SemVer`: `MarshalJSON`, `UnmarshalJSON`, and the string encoding of
 `encoding/json` they rely on.
 */
module SemVerJson {
  import opened Wrappers
  import opened SemVer

  function HexChar(d: nat): (c: char)
    requires d < 16
    ensures HexValue(c) == Some(d)
  {
    if d < 10 then '0' + d as char else 'a' + (d - 10) as char
  }

  function HexValue(c: char): (d: Option<nat>)
    ensures d.Some? ==> d.value < 16
  {
    if '0' <= c <= '9' then Some((c - '0') as nat)
    else if 'a' <= c <= 'f' then Some((c - 'a') as nat + 10)
    else if 'A' <= c <= 'F' then Some((c - 'A') as nat + 10)
    else None
  }

  function HexEscape(code: nat): string
    requires code < 0x1_0000
  {
    "\\u" + [HexChar(code / 0x1000), HexChar(code / 0x100 % 0x10), HexChar(code / 0x10 % 0x10), HexChar(code % 0x10)]
  }

  /** `json.Marshal` escapes quotes, control characters and what HTML would misread. */
  function Escape(c: char): string {
    if c == '\"' then "\\\""
    else if c == '\\' then "\\\\"
    else if c == '\U{0008}' then "\\b"
    else if c == '\U{000C}' then "\\f"
    else if c == '\n' then "\\n"
    else if c == '\r' then "\\r"
    else if c == '\t' then "\\t"
    else if c < ' ' || c in "<>&" || c == '\U{2028}' || c == '\U{2029}' then HexEscape(c as nat)
    else [c]
  }

  function EscapeAll(s: string): string {
    if s == "" then "" else Escape(s[0]) + EscapeAll(s[1..])
  }

  function EncodeString(s: string): string {
    "\"" + EscapeAll(s) + "\""
  }

  function Prepend(c: char, rest: Option<string>): Option<string> {
    match rest
    case None => None
    case Some(s) => Some([c] + s)
  }

  /** The code unit behind `\u`, if four hexadecimal digits follow. */
  function CodeUnit(s: string): (code: Option<nat>)
    ensures code.Some? ==> |s| >= 6 && code.value < 0x1_0000
  {
    if |s| < 6 || s[..2] != "\\u" then None
    else
      match (HexValue(s[2]), HexValue(s[3]), HexValue(s[4]), HexValue(s[5]))
      case (Some(a), Some(b), Some(c), Some(d)) => Some(a * 0x1000 + b * 0x100 + c * 0x10 + d)
      case _ => None
  }

  function SimpleEscape(c: char): Option<char> {
    if c == '\"' || c == '\\' || c == '/' then Some(c)
    else if c == 'b' then Some('\U{0008}')
    else if c == 'f' then Some('\U{000C}')
    else if c == 'n' then Some('\n')
    else if c == 'r' then Some('\r')
    else if c == 't' then Some('\t')
    else None
  }

  /** Reads up to the closing quote, which must end the text. */
  function DecodeBody(s: string): Option<string> {
    if s == "" || s[0] < ' ' then None
    else if s[0] == '\"' then if |s| == 1 then Some("") else None
    else if s[0] != '\\' then Prepend(s[0], DecodeBody(s[1..]))
    else if |s| == 1 then None
    else if s[1] != 'u' then
      match SimpleEscape(s[1])
      case None => None
      case Some(c) => Prepend(c, DecodeBody(s[2..]))
    else
      match CodeUnit(s)
      case None => None
      case Some(hi) =>
        if hi < 0xD800 || hi > 0xDFFF then Prepend(hi as char, DecodeBody(s[6..]))
        else
          // A surrogate stands for a character only together with its other half.
          match CodeUnit(s[6..])
          case Some(lo) =>
            if hi < 0xDC00 <= lo <= 0xDFFF then
              Prepend((0x1_0000 + (hi - 0xD800) * 0x400 + (lo - 0xDC00)) as char, DecodeBody(s[12..]))
            else Prepend('\U{FFFD}', DecodeBody(s[6..]))
          case None => Prepend('\U{FFFD}', DecodeBody(s[6..]))
  }

  /** `json.Unmarshal` into a string; `null` leaves the string empty. */
  function DecodeString(data: string): Option<string> {
    if data == "null" then Some("")
    else if data != "" && data[0] == '\"' then DecodeBody(data[1..])
    else None
  }

  function MarshalJSON(v: string): string {
    EncodeString(v)
  }

  /** The value `UnmarshalJSON` stores, or None when it reports an error. */
  function Unmarshalled(data: string): Option<string> {
    match DecodeString(data)
    case None => None
    case Some(s) => if s == "" then Some("") else NewSemVer(s)
  }

  /** A `SemVer` variable; `UnmarshalJSON` writes through its receiver. */
  class SemVerCell {
    var value: string

    constructor ()
      ensures value == ""
    {
      value := "";
    }

    method UnmarshalJSON(data: string) returns (ok: bool)
      modifies this
      ensures ok == Unmarshalled(data).Some?
      ensures value == if ok then Unmarshalled(data).value else old(value)
    {
      var s := DecodeString(data);
      if s.None? {
        return false;
      }
      if s.value == "" {
        value := "";
        return true;
      }
      var parsed := ParseTolerant(s.value);
      if parsed.None? {
        return false;
      }
      value := SemVer.Print(parsed.value);
      return true;
    }
  }

  /** The escapes of section 7 of RFC 8259 that `json.Marshal` uses, and those it adds for HTML and scripts. */
  lemma EscapesWritten()
    ensures Escape('\"') == "\\\"" && Escape('\\') == "\\\\"
    ensures Escape('\n') == "\\n" && Escape('\r') == "\\r" && Escape('\t') == "\\t"
    ensures Escape('<') == "\\u003c" && Escape('>') == "\\u003e" && Escape('&') == "\\u0026"
  {
    assert '<' as nat == 0x3c && '>' as nat == 0x3e && '&' as nat == 0x26;
  }

  // ---------------------------------------------------------------- Round trips

  lemma {:induction false} CodeUnitOfDigits(a: nat, b: nat, c: nat, d: nat, rest: string)
    requires a < 16 && b < 16 && c < 16 && d < 16
    ensures CodeUnit("\\u" + [HexChar(a), HexChar(b), HexChar(c), HexChar(d)] + rest)
            == Some(a * 0x1000 + b * 0x100 + c * 0x10 + d)
  {
    var s := "\\u" + [HexChar(a), HexChar(b), HexChar(c), HexChar(d)] + rest;
    assert s[..2] == "\\u";
    assert s[2] == HexChar(a) && s[3] == HexChar(b) && s[4] == HexChar(c) && s[5] == HexChar(d);
  }

  /** Taking one more hexadecimal digit off. */
  lemma Digit(n: nat)
    ensures n / 0x10 * 0x10 + n % 0x10 == n
    ensures n / 0x10 / 0x10 == n / 0x100 && n / 0x100 / 0x10 == n / 0x1000
  {
  }

  lemma HexDigitsOf(code: nat)
    requires code < 0x1_0000
    ensures code / 0x1000 * 0x1000 + code / 0x100 % 0x10 * 0x100 + code / 0x10 % 0x10 * 0x10 + code % 0x10 == code
  {
    Digit(code);
    Digit(code / 0x10);
    Digit(code / 0x100);
  }

  lemma DecodeHexEscape(code: nat, rest: string)
    requires code < 0xD800
    ensures DecodeBody(HexEscape(code) + rest) == Prepend(code as char, DecodeBody(rest))
  {
    var s := HexEscape(code) + rest;
    assert |HexEscape(code)| == 6 && s[6..] == rest;
    assert s[0] == '\\' && s[1] == 'u';
    CodeUnitOfDigits(code / 0x1000, code / 0x100 % 0x10, code / 0x10 % 0x10, code % 0x10, rest);
    HexDigitsOf(code);
  }

  lemma DecodeSimpleEscape(e: char, c: char, rest: string)
    requires e != 'u' && SimpleEscape(e) == Some(c)
    ensures DecodeBody(['\\', e] + rest) == Prepend(c, DecodeBody(rest))
  {
    assert (['\\', e] + rest)[2..] == rest;
  }

  lemma DecodeEscape(c: char, rest: string)
    ensures DecodeBody(Escape(c) + rest) == Prepend(c, DecodeBody(rest))
  {
    var e := Escape(c);
    if |e| > 2 {
      DecodeHexEscape(c as nat, rest);
    } else if |e| == 2 {
      assert e == ['\\', e[1]];
      DecodeSimpleEscape(e[1], c, rest);
    } else {
      assert e == [c];
      assert (e + rest)[1..] == rest;
    }
  }

  lemma {:induction false} DecodeEscapeAll(s: string)
    ensures DecodeBody(EscapeAll(s) + "\"") == Some(s)
  {
    if s == "" {
      assert EscapeAll(s) + "\"" == "\"";
    } else {
      DecodeEscapeAll(s[1..]);
      DecodeEscape(s[0], EscapeAll(s[1..]) + "\"");
      assert EscapeAll(s) + "\"" == Escape(s[0]) + (EscapeAll(s[1..]) + "\"");
      assert s == [s[0]] + s[1..];
    }
  }

  lemma DecodeEncode(s: string)
    ensures DecodeString(EncodeString(s)) == Some(s)
  {
    DecodeEscapeAll(s);
    assert EncodeString(s)[1..] == EscapeAll(s) + "\"";
  }

  /** Writing a version and reading it back is the identity exactly on the empty value and on strict versions. */
  lemma JsonRoundTrip(v: string)
    ensures Unmarshalled(MarshalJSON(v)) == Some(v) <==> v == "" || Parse(v).Some?
  {
    hide Parse;
    DecodeEncode(v);
    CanonicalIsStrict(v);
  }

  /** A shortened version does not come back as it was. */
  lemma ShortVersionIsCompleted()
    ensures Unmarshalled(MarshalJSON("1.2")) == Some("1.2.0")
  {
    hide NewSemVer;
    DecodeEncode("1.2");
    assert "1.2" != "";
    ShortVersion();
  }

  /** Whatever JSON was accepted, the value stored survives every later round trip. */
  lemma JsonStable(data: string)
    requires Unmarshalled(data).Some?
    ensures Unmarshalled(MarshalJSON(Unmarshalled(data).value)) == Unmarshalled(data)
  {
    hide Parse, ParseTolerant, Print, DecodeString;
    var s := DecodeString(data).value;
    if s != "" {
      CanonicalFixpoint(s);
      CanonicalIsStrict(NewSemVer(s).value);
    }
    JsonRoundTrip(Unmarshalled(data).value);
  }
}
