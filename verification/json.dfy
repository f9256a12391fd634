/**
 * `JSON.stringify` and `JSON.parse` on an array of strings, as server/server.js
 * uses them for the `tags` and `photos` columns. The encoder follows the
 * ECMAScript rules for quoting a string (section 25.5.2.3 of ECMA-262,
 * QuoteJSONString); the parser accepts the compact form the encoder emits,
 * every escape of RFC 8259 section 7 and no insignificant whitespace.
 */
module Json {
  import opened Wrappers

  /** A lower-case hexadecimal digit. */
  function HexDigit(d: nat): (c: char)
    requires d < 16
    ensures HexValue(c) == Some(d)
  {
    if d < 10 then ('0' as int + d) as char else ('a' as int + d - 10) as char
  }

  /** The value of a hexadecimal digit of either case. */
  function HexValue(c: char): (v: Option<nat>)
    ensures v.Some? ==> v.value < 16
  {
    if '0' <= c <= '9' then Some(c as int - '0' as int)
    else if 'a' <= c <= 'f' then Some(c as int - 'a' as int + 10)
    else if 'A' <= c <= 'F' then Some(c as int - 'A' as int + 10)
    else None
  }

  /** The escape of one character inside a JSON string literal. */
  function Escape(c: char): string {
    if c == '"' then "\\\""
    else if c == '\\' then "\\\\"
    else if c == '\U{0008}' then "\\b"
    else if c == '\U{000C}' then "\\f"
    else if c == '\n' then "\\n"
    else if c == '\r' then "\\r"
    else if c == '\t' then "\\t"
    else if (c as int) < 0x20 then "\\u00" + [HexDigit(c as int / 16), HexDigit(c as int % 16)]
    else [c]
  }

  function EscapeAll(s: string): string {
    if s == [] then "" else Escape(s[0]) + EscapeAll(s[1..])
  }

  /** `JSON.stringify` of one string. */
  function Quote(s: string): string {
    "\"" + EscapeAll(s) + "\""
  }

  /** The comma-separated items between the brackets. */
  function Items(xs: seq<string>): string {
    if xs == [] then ""
    else if |xs| == 1 then Quote(xs[0])
    else Quote(xs[0]) + "," + Items(xs[1..])
  }

  /** `JSON.stringify` of an array of strings. */
  function Stringify(xs: seq<string>): (s: string)
    ensures |s| >= 2 && s[0] == '[' && s[|s| - 1] == ']'
  {
    "[" + Items(xs) + "]"
  }

  /** The character an escape `\x` stands for, for the single-letter escapes. */
  function SimpleEscape(c: char): Option<char> {
    if c == '"' then Some('"')
    else if c == '\\' then Some('\\')
    else if c == '/' then Some('/')
    else if c == 'b' then Some('\U{0008}')
    else if c == 'f' then Some('\U{000C}')
    else if c == 'n' then Some('\n')
    else if c == 'r' then Some('\r')
    else if c == 't' then Some('\t')
    else None
  }

  /** The code point of four hexadecimal digits. */
  function Hex4(s: string): (v: Option<nat>)
    requires |s| == 4
    ensures v.Some? ==> v.value < 0x10000
  {
    var a := HexValue(s[0]);
    var b := HexValue(s[1]);
    var c := HexValue(s[2]);
    var d := HexValue(s[3]);
    if a.Some? && b.Some? && c.Some? && d.Some? then
      Some(((a.value * 16 + b.value) * 16 + c.value) * 16 + d.value)
    else None
  }

  /** The body of a string literal after its opening quote: the decoded characters and
      what follows the closing quote. A surrogate escape is refused: a Dafny character
      is a Unicode scalar value, so surrogate pairs are not modelled. */
  function ParseChars(s: string): (r: Option<(string, string)>)
    ensures r.Some? ==> |r.value.1| < |s|
  {
    if s == [] then None
    else if s[0] == '"' then Some(("", s[1..]))
    else if s[0] == '\\' then
      if |s| < 2 then None
      else if s[1] == 'u' then
        if |s| < 6 then None
        else
          var code := Hex4(s[2..6]);
          if code.None? || 0xD800 <= code.value < 0xE000 then None
          else
            var tail := ParseChars(s[6..]);
            if tail.None? then None else Some(([code.value as char] + tail.value.0, tail.value.1))
      else
        var e := SimpleEscape(s[1]);
        if e.None? then None
        else
          var tail := ParseChars(s[2..]);
          if tail.None? then None else Some(([e.value] + tail.value.0, tail.value.1))
    else if (s[0] as int) < 0x20 then None
    else
      var tail := ParseChars(s[1..]);
      if tail.None? then None else Some(([s[0]] + tail.value.0, tail.value.1))
  }

  /** A string literal at the head of `s`, and the rest of `s`. */
  function ParseString(s: string): (r: Option<(string, string)>)
    ensures r.Some? ==> |r.value.1| < |s|
  {
    if s == [] || s[0] != '"' then None else ParseChars(s[1..])
  }

  /** One or more items followed by the closing bracket, which must end the input. */
  function ParseItems(s: string): Option<seq<string>>
    decreases |s|
  {
    var head := ParseString(s);
    if head.None? then None
    else
      var (v, rest) := head.value;
      if rest == [] then None
      else if rest == "]" then Some([v])
      else if rest[0] == ',' then
        var tail := ParseItems(rest[1..]);
        if tail.None? then None else Some([v] + tail.value)
      else None
  }

  /** `JSON.parse` of an array of strings; `None` where JavaScript throws a SyntaxError
      (or the text is some other JSON value). */
  function Parse(s: string): Option<seq<string>> {
    if s == "[]" then Some([])
    else if |s| < 2 || s[0] != '[' then None
    else ParseItems(s[1..])
  }

  /** Decoding an escaped character stops exactly after its escape. */
  lemma EscapeThenParse(c: char, t: string)
    requires ParseChars(t).Some?
    ensures ParseChars(Escape(c) + t) == Some(([c] + ParseChars(t).value.0, ParseChars(t).value.1))
  {
    if c == '"' || c == '\\' || c == '\U{0008}' || c == '\U{000C}' || c == '\n' || c == '\r' || c == '\t' {
      SimpleEscapeThenParse(c, t);
    } else if (c as int) < 0x20 {
      ControlEscapeThenParse(c, t);
    } else {
      assert (Escape(c) + t)[1..] == t;
    }
  }

  lemma SimpleEscapeThenParse(c: char, t: string)
    requires c == '"' || c == '\\' || c == '\U{0008}' || c == '\U{000C}' || c == '\n' || c == '\r' || c == '\t'
    requires ParseChars(t).Some?
    ensures ParseChars(Escape(c) + t) == Some(([c] + ParseChars(t).value.0, ParseChars(t).value.1))
  {
    var s := Escape(c) + t;
    assert |Escape(c)| == 2 && Escape(c)[0] == '\\';
    assert SimpleEscape(s[1]) == Some(c);
    assert s[2..] == t;
  }

  lemma ControlEscapeThenParse(c: char, t: string)
    requires (c as int) < 0x20 && c != '\U{0008}' && c != '\U{000C}' && c != '\n' && c != '\r' && c != '\t'
    requires ParseChars(t).Some?
    ensures ParseChars(Escape(c) + t) == Some(([c] + ParseChars(t).value.0, ParseChars(t).value.1))
  {
    var hi := c as int / 16;
    var lo := c as int % 16;
    var s := Escape(c) + t;
    assert Escape(c) == "\\u00" + [HexDigit(hi), HexDigit(lo)];
    assert s[2..6] == ['0', '0', HexDigit(hi), HexDigit(lo)];
    assert Hex4(s[2..6]) == Some(hi * 16 + lo);
    assert s[6..] == t;
  }

  /** Decoding the escaped form of a string, closed by a quote, gives the string back and
      leaves what follows. */
  lemma {:induction false} ParseEscaped(s: string, rest: string)
    ensures ParseChars(EscapeAll(s) + "\"" + rest) == Some((s, rest))
  {
    if s == [] {
      assert EscapeAll(s) + "\"" + rest == "\"" + rest;
      assert ("\"" + rest)[1..] == rest;
    } else {
      var t := EscapeAll(s[1..]) + "\"" + rest;
      ParseEscaped(s[1..], rest);
      EscapeThenParse(s[0], t);
      assert EscapeAll(s) + "\"" + rest == Escape(s[0]) + t;
      assert [s[0]] + s[1..] == s;
    }
  }

  lemma ParseQuoted(x: string, rest: string)
    ensures ParseString(Quote(x) + rest) == Some((x, rest))
  {
    ParseEscaped(x, rest);
    assert (Quote(x) + rest)[1..] == EscapeAll(x) + "\"" + rest;
  }

  lemma {:induction false} ParseItemsOfItems(xs: seq<string>)
    requires xs != []
    ensures ParseItems(Items(xs) + "]") == Some(xs)
  {
    if |xs| == 1 {
      ParseQuoted(xs[0], "]");
      assert Items(xs) + "]" == Quote(xs[0]) + "]";
      assert [xs[0]] == xs;
    } else {
      var tail := Items(xs[1..]) + "]";
      ParseQuoted(xs[0], "," + tail);
      assert Items(xs) + "]" == Quote(xs[0]) + ("," + tail);
      assert ("," + tail)[1..] == tail;
      ParseItemsOfItems(xs[1..]);
      assert [xs[0]] + xs[1..] == xs;
    }
  }

  /** `JSON.parse(JSON.stringify(xs))` gives back `xs`. */
  lemma ParseStringify(xs: seq<string>)
    ensures Parse(Stringify(xs)) == Some(xs)
  {
    if xs != [] {
      ParseItemsOfItems(xs);
      var s := Stringify(xs);
      assert s[1..] == Items(xs) + "]";
      assert Quote(xs[0])[0] == '"';
      assert s[1] == '"';
    }
  }
}
