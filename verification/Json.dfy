/** JSON text of strings as RFC 8259 section 7 allows and `JSON.stringify` prints it,
    with a reader that undoes the printing. */
module Json {
  import opened Wrappers
  import opened Text

  const HEX: string := "0123456789abcdef"

  /** Control characters print as short escapes where one exists and as \u00xx otherwise. */
  function EscapeChar(c: char): string {
    if c == '"' then ['\\', '"']
    else if c == '\\' then ['\\', '\\']
    else if c as int == 8 then ['\\', 'b']
    else if c as int == 9 then ['\\', 't']
    else if c as int == 10 then ['\\', 'n']
    else if c as int == 12 then ['\\', 'f']
    else if c as int == 13 then ['\\', 'r']
    else if c as int < 32 then ['\\', 'u', '0', '0', HEX[c as int / 16], HEX[c as int % 16]]
    else [c]
  }

  function Escape(s: string): string {
    if s == [] then [] else EscapeChar(s[0]) + Escape(s[1..])
  }

  function Quote(s: string): string {
    ['"'] + Escape(s) + ['"']
  }

  function HexValue(c: char): Option<nat> {
    if '0' <= c <= '9' then Some(c as int - '0' as int)
    else if 'a' <= c <= 'f' then Some(c as int - 'a' as int + 10)
    else None
  }

  /** One character of a string body, with the text after it. */
  function ReadChar(t: string): (r: Option<(char, string)>)
    ensures r.Some? ==> |r.value.1| < |t|
  {
    if t == [] || t[0] == '"' || t[0] as int < 32 then None
    else if t[0] != '\\' then Some((t[0], t[1..]))
    else if |t| < 2 then None
    else if t[1] == '"' || t[1] == '\\' then Some((t[1], t[2..]))
    else if t[1] == 'b' then Some((8 as char, t[2..]))
    else if t[1] == 't' then Some((9 as char, t[2..]))
    else if t[1] == 'n' then Some((10 as char, t[2..]))
    else if t[1] == 'f' then Some((12 as char, t[2..]))
    else if t[1] == 'r' then Some((13 as char, t[2..]))
    else if t[1] == 'u' && |t| >= 6 && t[2] == '0' && t[3] == '0' && HexValue(t[4]).Some? && HexValue(t[5]).Some? then
      Some(((16 * HexValue(t[4]).value + HexValue(t[5]).value) as char, t[6..]))
    else None
  }

  /** The body of a string up to its closing quote, with the text after the quote. */
  function ReadBody(t: string): (r: Option<(string, string)>)
    ensures r.Some? ==> |r.value.1| < |t|
    decreases |t|
  {
    if t != [] && t[0] == '"' then Some(([], t[1..]))
    else
      match ReadChar(t)
      case None => None
      case Some((c, rest)) =>
        match ReadBody(rest)
        case None => None
        case Some((s, after)) => Some(([c] + s, after))
  }

  function ReadString(t: string): Option<(string, string)> {
    if t != [] && t[0] == '"' then ReadBody(t[1..]) else None
  }

  lemma ReadEscapedChar(c: char, rest: string)
    ensures ReadChar(EscapeChar(c) + rest) == Some((c, rest))
    ensures EscapeChar(c)[0] != '"'
  {
    var t := EscapeChar(c) + rest;
    assert t[|EscapeChar(c)|..] == rest;
  }

  lemma {:induction false} ReadEscaped(s: string, rest: string)
    ensures ReadBody(Escape(s) + ['"'] + rest) == Some((s, rest))
  {
    if s == [] {
      assert Escape(s) + ['"'] + rest == ['"'] + rest;
    } else {
      var tail := Escape(s[1..]) + ['"'] + rest;
      assert Escape(s) + ['"'] + rest == EscapeChar(s[0]) + tail;
      ReadEscapedChar(s[0], tail);
      ReadEscaped(s[1..], rest);
      assert s == [s[0]] + s[1..];
    }
  }

  /** Reading undoes printing, whatever follows: a printed string is self-delimiting. */
  lemma ReadQuoted(s: string, rest: string)
    ensures ReadString(Quote(s) + rest) == Some((s, rest))
  {
    assert (Quote(s) + rest)[1..] == Escape(s) + ['"'] + rest;
    ReadEscaped(s, rest);
  }
}
