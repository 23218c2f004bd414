/** The two pieces of Python text formatting the reference-audio debug string
    uses: `repr` of a `str` (the `!r` conversion) and the decimal rendering of
    an `int`. Each comes with the parser that reads it back, so that a
    rendering can be shown to carry its inputs and nothing else. */
module Render {
  import opened Wrappers

  const HexDigits: string := "0123456789abcdef"

  /* ------------------------------- decimal ------------------------------- */

  function DigitChar(d: nat): char
    requires d < 10
  {
    ('0' as int + d) as char
  }

  predicate IsDigit(c: char) {
    '0' <= c <= '9'
  }

  /** `str(n)` for a non-negative `int`: decimal digits, no leading zeros. */
  function Decimal(n: nat): (s: string)
    ensures |s| >= 1
    ensures forall i :: 0 <= i < |s| ==> IsDigit(s[i])
    ensures n > 0 ==> s[0] != '0'
    decreases n
  {
    if n < 10 then [DigitChar(n)] else Decimal(n / 10) + [DigitChar(n % 10)]
  }

  /** Reads a non-empty run of decimal digits. */
  function ParseDecimal(s: string): Option<nat>
    decreases |s|
  {
    if |s| == 0 || !IsDigit(s[|s| - 1]) then None
    else
      var d := s[|s| - 1] as int - '0' as int;
      if |s| == 1 then Some(d)
      else
        match ParseDecimal(s[..|s| - 1])
        case Some(m) => Some(m * 10 + d)
        case None => None
  }

  lemma {:induction false} ParseDecimalOfDecimal(n: nat)
    ensures ParseDecimal(Decimal(n)) == Some(n)
    decreases n
  {
    if n >= 10 {
      var s := Decimal(n);
      assert s[..|s| - 1] == Decimal(n / 10);
      ParseDecimalOfDecimal(n / 10);
    }
  }

  /* ------------------------------ str repr ------------------------------ */

  /** The quote `repr` puts around `s`: a double quote when `s` holds a single
      quote and no double quote, a single quote otherwise. */
  function QuoteFor(s: string): char {
    if '\'' in s && '"' !in s then '"' else '\''
  }

  /** The characters `repr` writes as `\xhh`: the C0 controls other than tab,
      newline and carriage return, DEL, the C1 controls, no-break space and
      soft hyphen. */
  predicate HexEscaped(c: char) {
    c < ' ' || 0x7f <= c as int <= 0xa0 || c as int == 0xad
  }

  /** How `repr` writes one character inside quotes `q`. */
  function EscapeChar(c: char, q: char): string {
    if c == q || c == '\\' then ['\\', c]
    else if c == '\t' then "\\t"
    else if c == '\n' then "\\n"
    else if c == '\r' then "\\r"
    else if HexEscaped(c) then
      ['\\', 'x', HexDigits[c as int / 16], HexDigits[c as int % 16]]
    else [c]
  }

  function EscapeBody(s: string, q: char): string
    decreases |s|
  {
    if |s| == 0 then [] else EscapeChar(s[0], q) + EscapeBody(s[1..], q)
  }

  /** `repr(s)` for a `str`. */
  function StrRepr(s: string): (r: string)
    ensures |r| >= 2 && r[0] == r[|r| - 1] == QuoteFor(s)
  {
    [QuoteFor(s)] + EscapeBody(s, QuoteFor(s)) + [QuoteFor(s)]
  }

  function HexValue(c: char): Option<nat> {
    if '0' <= c <= '9' then Some(c as int - '0' as int)
    else if 'a' <= c <= 'f' then Some(c as int - 'a' as int + 10)
    else None
  }

  function Prepend(c: char, r: Option<(string, string)>): Option<(string, string)> {
    match r
    case Some((body, rest)) => Some(([c] + body, rest))
    case None => None
  }

  /** Reads an escaped body up to the closing quote `q`: the text it stands
      for and what follows the quote. */
  function Unescape(s: string, q: char): Option<(string, string)>
    decreases |s|
  {
    if |s| == 0 then None
    else if s[0] == q then Some(([], s[1..]))
    else if s[0] != '\\' then Prepend(s[0], Unescape(s[1..], q))
    else if |s| < 2 then None
    else if s[1] == 't' then Prepend('\t', Unescape(s[2..], q))
    else if s[1] == 'n' then Prepend('\n', Unescape(s[2..], q))
    else if s[1] == 'r' then Prepend('\r', Unescape(s[2..], q))
    else if s[1] == '\\' || s[1] == '\'' || s[1] == '"' then Prepend(s[1], Unescape(s[2..], q))
    else if s[1] == 'x' && |s| >= 4 && HexValue(s[2]).Some? && HexValue(s[3]).Some? then
      Prepend((HexValue(s[2]).value * 16 + HexValue(s[3]).value) as char, Unescape(s[4..], q))
    else None
  }

  /** Reads a quoted `repr`: the text and what follows the closing quote. */
  function ParseStrRepr(s: string): Option<(string, string)> {
    if |s| == 0 || (s[0] != '\'' && s[0] != '"') then None
    else Unescape(s[1..], s[0])
  }

  lemma HexRoundTrip(c: char)
    requires c as int < 256
    ensures HexValue(HexDigits[c as int / 16]) == Some(c as int / 16)
    ensures HexValue(HexDigits[c as int % 16]) == Some(c as int % 16)
    ensures (c as int / 16 * 16 + c as int % 16) as char == c
  {
  }

  /** One escaped character is read back as itself. */
  lemma UnescapeChar(c: char, q: char, rest: string)
    requires q == '\'' || q == '"'
    ensures Unescape(EscapeChar(c, q) + rest, q) == Prepend(c, Unescape(rest, q))
  {
    var e := EscapeChar(c, q) + rest;
    if c == q || c == '\\' || c == '\t' || c == '\n' || c == '\r' {
      assert e[2..] == rest;
    } else if HexEscaped(c) {
      HexRoundTrip(c);
      assert e[4..] == rest;
    } else {
      assert e[1..] == rest;
    }
  }

  lemma {:induction false} UnescapeBody(s: string, q: char, rest: string)
    requires q == '\'' || q == '"'
    ensures Unescape(EscapeBody(s, q) + [q] + rest, q) == Some((s, rest))
    decreases |s|
  {
    if |s| == 0 {
      assert EscapeBody(s, q) + [q] + rest == [q] + rest;
    } else {
      assert EscapeBody(s, q) + [q] + rest == EscapeChar(s[0], q) + (EscapeBody(s[1..], q) + [q] + rest);
      UnescapeChar(s[0], q, EscapeBody(s[1..], q) + [q] + rest);
      UnescapeBody(s[1..], q, rest);
      assert [s[0]] + s[1..] == s;
    }
  }

  /** `repr` loses nothing: the text, and whatever follows the rendering, are
      read back exactly. */
  lemma ParseStrReprOfStrRepr(s: string, rest: string)
    ensures ParseStrRepr(StrRepr(s) + rest) == Some((s, rest))
  {
    var q := QuoteFor(s);
    var r := StrRepr(s) + rest;
    assert r[1..] == EscapeBody(s, q) + [q] + rest;
    UnescapeBody(s, q, rest);
  }
}
