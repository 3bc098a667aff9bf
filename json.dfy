/**
 * `JSON.stringify` applied to a string (QuoteJSONString, section 25.5.2.3 of
 * ECMA-262), and the reading of such a string literal back into the string it
 * denotes.
 */
module Json {
  import opened Wrappers

  /** The lower-case hexadecimal digit for `n`. */
  function HexDigit(n: nat): (c: char)
    requires n < 16
    ensures HexValue(c) == Some(n)
  {
    if n < 10 then ('0' as int + n) as char else ('a' as int + n - 10) as char
  }

  /** The value of a hexadecimal digit of either case. */
  function HexValue(c: char): Option<nat> {
    if '0' <= c <= '9' then Some(c as int - '0' as int)
    else if 'a' <= c <= 'f' then Some(c as int - 'a' as int + 10)
    else if 'A' <= c <= 'F' then Some(c as int - 'A' as int + 10)
    else None
  }

  /** The value of four hexadecimal digits. */
  function Hex4(t: string): Option<nat>
    requires |t| == 4
  {
    match (HexValue(t[0]), HexValue(t[1]), HexValue(t[2]), HexValue(t[3]))
    case (Some(a), Some(b), Some(c), Some(d)) => Some(((a * 16 + b) * 16 + c) * 16 + d)
    case _ => None
  }

  /** The letter of a two-character escape, for the characters that have one. */
  function EscapeLetter(c: char): Option<char> {
    if c == '"' then Some('"')
    else if c == '\\' then Some('\\')
    else if c as int == 8 then Some('b')
    else if c as int == 9 then Some('t')
    else if c as int == 10 then Some('n')
    else if c as int == 12 then Some('f')
    else if c as int == 13 then Some('r')
    else None
  }

  /** The character a two-character escape stands for. */
  function Unescape(letter: char): Option<char> {
    if letter == '"' then Some('"')
    else if letter == '\\' then Some('\\')
    else if letter == '/' then Some('/')
    else if letter == 'b' then Some(8 as char)
    else if letter == 't' then Some(9 as char)
    else if letter == 'n' then Some(10 as char)
    else if letter == 'f' then Some(12 as char)
    else if letter == 'r' then Some(13 as char)
    else None
  }

  /** How QuoteJSONString writes one character. */
  function EscapeChar(c: char): (r: string)
    ensures 1 <= |r| <= 6
  {
    match EscapeLetter(c)
    case Some(letter) => ['\\', letter]
    case None =>
      if c as int < 0x20 then ['\\', 'u', '0', '0', HexDigit(c as int / 16), HexDigit(c as int % 16)]
      else [c]
  }

  /** Each character of `s` as QuoteJSONString writes it. */
  function EscapeBody(s: string): string {
    if s == [] then [] else EscapeChar(s[0]) + EscapeBody(s[1..])
  }

  /** `JSON.stringify(s)` for a string `s`. */
  function Stringify(s: string): (r: string)
    ensures |r| >= 2 && r[0] == '"' && r[|r| - 1] == '"'
  {
    ['"'] + EscapeBody(s) + ['"']
  }

  function Prepend(c: char, rest: Option<string>): Option<string> {
    match rest
    case None => None
    case Some(u) => Some([c] + u)
  }

  /**
   * The characters between the quotes of a JSON string literal, read back;
   * `None` when they are not a well-formed literal body, or when a `\u`
   * escape denotes a surrogate code unit. Each `\u` escape is read on its
   * own, so an escaped surrogate pair (which a Dafny string could hold as one
   * character) is rejected too; `Stringify` never writes one.
   */
  function ParseBody(t: string): Option<string>
    decreases |t|
  {
    if t == [] then Some([])
    else if t[0] == '"' || t[0] as int < 0x20 then None
    else if t[0] != '\\' then Prepend(t[0], ParseBody(t[1..]))
    else if |t| < 2 then None
    else if t[1] == 'u' then
      if |t| < 6 then None
      else match Hex4(t[2..6])
        case None => None
        case Some(v) => if 0xD800 <= v < 0xE000 then None else Prepend(v as char, ParseBody(t[6..]))
    else match Unescape(t[1])
      case None => None
      case Some(c) => Prepend(c, ParseBody(t[2..]))
  }

  /** The string a JSON string literal denotes, if `q` is one. */
  function Parse(q: string): Option<string> {
    if |q| >= 2 && q[0] == '"' && q[|q| - 1] == '"' then ParseBody(q[1..|q| - 1]) else None
  }

  /** Reading an escaped character gives the character back, and reading goes on after it. */
  lemma ParseEscapedChar(c: char, t: string)
    ensures ParseBody(EscapeChar(c) + t) == Prepend(c, ParseBody(t))
  {
    var e := EscapeChar(c);
    assert (e + t)[0] == e[0];
    match EscapeLetter(c)
    case Some(letter) =>
      assert (e + t)[1] == letter;
      assert (e + t)[2..] == t;
    case None =>
      if c as int < 0x20 {
        var n := c as int;
        var u := e + t;
        assert u[2..6] == ['0', '0', HexDigit(n / 16), HexDigit(n % 16)];
        assert Hex4(u[2..6]) == Some(n);
        assert u[6..] == t;
      } else {
        assert (e + t)[1..] == t;
      }
  }

  /** Reading an escaped body gives back the string that was escaped. */
  lemma {:induction false} ParseEscapeBody(s: string)
    ensures ParseBody(EscapeBody(s)) == Some(s)
  {
    if s != [] {
      ParseEscapeBody(s[1..]);
      ParseEscapedChar(s[0], EscapeBody(s[1..]));
      assert [s[0]] + s[1..] == s;
    }
  }

  /** `JSON.stringify` of a string is a literal that denotes exactly that string. */
  lemma ParseStringify(s: string)
    ensures Parse(Stringify(s)) == Some(s)
  {
    var q := Stringify(s);
    assert q[1..|q| - 1] == EscapeBody(s);
    ParseEscapeBody(s);
  }
}
