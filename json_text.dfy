/**
 * The text that `json.dumps` produces for a JSON object with string members,
 * under its default `ensure_ascii=True`: every string is quoted and every
 * character outside " ".."~" is written as an escape made of ASCII
 * characters. The authentication handler passes this text through the
 * lossy ASCII filter before parsing it again; the lemmas here show that
 * the filter then has nothing to drop.
 */
module JsonText {
  import opened Ascii

  function HexDigit(d: int): (c: char)
    requires 0 <= d < 16
    ensures IsAscii(c)
  {
    if d < 10 then (48 + d) as char else (97 + (d - 10)) as char
  }

  /** Four lower-case hexadecimal digits, as `'{0:04x}'.format(n)` writes them. */
  function Hex4(n: int): (r: string)
    requires 0 <= n < 0x10000
    ensures |r| == 4 && AllAscii(r)
  {
    [HexDigit(n / 4096), HexDigit(n / 256 % 16), HexDigit(n / 16 % 16), HexDigit(n % 16)]
  }

  /**
   * The escape of one character: two-character escapes for the quote, the
   * backslash and five control characters; the character itself for the rest
   * of " ".."~"; "\uXXXX" for other characters below 0x10000; and a
   * surrogate pair of such escapes above that.
   */
  function EscapeChar(c: char): (r: string)
    ensures |r| >= 1 && AllAscii(r)
  {
    if c == '"' then "\\\""
    else if c == '\\' then "\\\\"
    else if c == 8 as char then "\\b"
    else if c == 12 as char then "\\f"
    else if c == '\n' then "\\n"
    else if c == '\r' then "\\r"
    else if c == '\t' then "\\t"
    else if ' ' <= c <= '~' then [c]
    else if c as int < 0x10000 then "\\u" + Hex4(c as int)
    else
      var n := c as int - 0x10000;
      "\\u" + Hex4(0xD800 + n / 0x400) + "\\u" + Hex4(0xDC00 + n % 0x400)
  }

  function EscapeBody(s: string): (r: string)
    ensures AllAscii(r)
  {
    if s == [] then []
    else
      AllAsciiConcat(EscapeChar(s[0]), EscapeBody(s[1..]));
      EscapeChar(s[0]) + EscapeBody(s[1..])
  }

  /** `encode_basestring_ascii`: a quoted JSON string literal. */
  function Quote(s: string): (r: string)
    ensures AllAscii(r)
  {
    AllAsciiConcat("\"", EscapeBody(s));
    AllAsciiConcat("\"" + EscapeBody(s), "\"");
    "\"" + EscapeBody(s) + "\""
  }

  /** The members of an object, `"name": "value"`, separated by ", " as `json.dumps` does. */
  function Members(fields: seq<(string, string)>): (r: string)
    ensures AllAscii(r)
  {
    if fields == [] then []
    else
      var member := Quote(fields[0].0) + ": " + Quote(fields[0].1);
      AllAsciiConcat(Quote(fields[0].0), ": ");
      AllAsciiConcat(Quote(fields[0].0) + ": ", Quote(fields[0].1));
      if |fields| == 1 then member
      else
        AllAsciiConcat(member, ", ");
        AllAsciiConcat(member + ", ", Members(fields[1..]));
        member + ", " + Members(fields[1..])
  }

  /** `json.dumps` of an object whose members are `fields`, in order. */
  function Dump(fields: seq<(string, string)>): (r: string)
    ensures AllAscii(r)
  {
    AllAsciiConcat("{", Members(fields));
    AllAsciiConcat("{" + Members(fields), "}");
    "{" + Members(fields) + "}"
  }

  /** The ASCII filter leaves the serialised payload exactly as it was. */
  lemma SanitizeKeepsDump(fields: seq<(string, string)>)
    ensures Sanitize(Dump(fields)) == Dump(fields)
  {
    SanitizeIdentity(Dump(fields));
  }
}
