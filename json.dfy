/**
 * JSON text for arrays of strings: what `JSON.stringify` writes for a `string[]` and what
 * `JSON.parse` reads back. The daily-log array fields, the medication reminder times and the
 * emotion lists are stored in this form.
 */
module Json {
  import opened Wrappers

  const HEX_DIGITS := "0123456789abcdef"

  function HexDigit(d: nat): char
    requires d < 16
  {
    HEX_DIGITS[d]
  }

  /** Value of one hexadecimal digit, either case. */
  function HexValue(c: char): Option<nat> {
    if '0' <= c <= '9' then Some(c as int - '0' as int)
    else if 'a' <= c <= 'f' then Some(c as int - 'a' as int + 10)
    else if 'A' <= c <= 'F' then Some(c as int - 'A' as int + 10)
    else None
  }

  // ---------------------------------------------------------------------------
  // Encoding (JSON.stringify)
  // ---------------------------------------------------------------------------

  /** The letter of the two-character escape `JSON.stringify` uses for `c`, if it has one. */
  function ShortEscape(c: char): (r: Option<char>)
    ensures r.Some? ==> r.value != 'u' && r.value != 'U'
  {
    if c == '"' then Some('"')
    else if c == '\\' then Some('\\')
    else if c == '\U{0008}' then Some('b')
    else if c == '\U{000C}' then Some('f')
    else if c == '\n' then Some('n')
    else if c == '\r' then Some('r')
    else if c == '\t' then Some('t')
    else None
  }

  /** How `JSON.stringify` writes one character inside a string literal. */
  function EscapeChar(c: char): string {
    match ShortEscape(c)
    case Some(l) => ['\\', l]
    case None =>
      if (c as int) < 0x20 then ['\\', 'u', '0', '0', HexDigit(c as int / 16), HexDigit(c as int % 16)]
      else [c]
  }

  function EscapeString(s: string): string {
    if s == [] then "" else EscapeChar(s[0]) + EscapeString(s[1..])
  }

  function Quote(s: string): string {
    "\"" + EscapeString(s) + "\""
  }

  /** The comma-separated string literals of a non-empty array. */
  function Items(a: seq<string>): string
    requires a != []
  {
    if |a| == 1 then Quote(a[0]) else Quote(a[0]) + "," + Items(a[1..])
  }

  /** `JSON.stringify(a)` for an array of strings. */
  function Stringify(a: seq<string>): (r: string)
    ensures |r| >= 2 && r[0] == '[' && r[|r| - 1] == ']'
  {
    if a == [] then "[]" else "[" + Items(a) + "]"
  }

  // ---------------------------------------------------------------------------
  // Decoding (JSON.parse), restricted to arrays of strings
  // ---------------------------------------------------------------------------

  /** The character a two-character escape letter stands for. */
  function ShortUnescape(l: char): Option<char> {
    if l == '"' then Some('"')
    else if l == '\\' then Some('\\')
    else if l == '/' then Some('/')
    else if l == 'b' then Some('\U{0008}')
    else if l == 'f' then Some('\U{000C}')
    else if l == 'n' then Some('\n')
    else if l == 'r' then Some('\r')
    else if l == 't' then Some('\t')
    else None
  }

  /** The character four hexadecimal digits stand for; `s` starts just after the `u`. */
  function DecodeUnicode(s: string): (r: Option<(char, string)>)
    ensures r.Some? ==> |s| >= 4 && r.value.1 == s[4..]
  {
    if |s| < 4 then None
    else
      match (HexValue(s[0]), HexValue(s[1]), HexValue(s[2]), HexValue(s[3]))
      case (Some(a), Some(b), Some(c), Some(d)) =>
        var code := ((a * 16 + b) * 16 + c) * 16 + d;
        // A lone surrogate half is not a character; pairs are not decoded by this model.
        if code < 0xD800 || 0xE000 <= code then Some((code as char, s[4..])) else None
      case _ => None
  }

  /** The character an escape sequence stands for; `s` starts just after the backslash. */
  function DecodeEscape(s: string): (r: Option<(char, string)>)
    ensures r.Some? ==> |r.value.1| < |s|
  {
    if s == [] then None
    else if s[0] == 'u' then DecodeUnicode(s[1..])
    else match ShortUnescape(s[0])
      case Some(c) => Some((c, s[1..]))
      case None => None
  }

  /** Reads the body of a string literal up to its closing quote; returns the text and what follows. */
  function ParseStringBody(s: string): (r: Option<(string, string)>)
    ensures r.Some? ==> |r.value.1| < |s|
    decreases |s|
  {
    if s == [] then None
    else if s[0] == '"' then Some(("", s[1..]))
    else if s[0] == '\\' then
      match DecodeEscape(s[1..])
      case None => None
      case Some((c, rest)) =>
        match ParseStringBody(rest)
        case None => None
        case Some((body, after)) => Some(([c] + body, after))
    else if (s[0] as int) < 0x20 then None
    else
      match ParseStringBody(s[1..])
      case None => None
      case Some((body, after)) => Some(([s[0]] + body, after))
  }

  /** Reads `"…","…",…` and returns the strings and what follows the last one. */
  function ParseItems(s: string): (r: Option<(seq<string>, string)>)
    ensures r.Some? ==> |r.value.1| < |s|
    decreases |s|
  {
    if s == [] || s[0] != '"' then None
    else
      match ParseStringBody(s[1..])
      case None => None
      case Some((x, rest)) =>
        if rest != [] && rest[0] == ',' then
          match ParseItems(rest[1..])
          case None => None
          case Some((xs, after)) => Some(([x] + xs, after))
        else Some(([x], rest))
  }

  /** `JSON.parse(s)` when the text is an array of strings; `None` where `JSON.parse` would throw. */
  function Parse(s: string): Option<seq<string>> {
    if |s| >= 2 && s[0] == '[' then
      if s[1..] == "]" then Some([])
      else
        match ParseItems(s[1..])
        case Some((xs, after)) => if after == "]" then Some(xs) else None
        case None => None
    else None
  }

  // ---------------------------------------------------------------------------
  // Round trip
  // ---------------------------------------------------------------------------

  lemma EscapeCharRoundTrip(c: char, rest: string)
    ensures EscapeChar(c) != [] && EscapeChar(c)[0] != '"'
    ensures EscapeChar(c)[0] == '\\' ==> DecodeEscape(EscapeChar(c)[1..] + rest) == Some((c, rest))
    ensures EscapeChar(c)[0] != '\\' ==> EscapeChar(c) == [c] && (c as int) >= 0x20
  {
    var e := EscapeChar(c);
    match ShortEscape(c)
    case Some(l) =>
      assert e[1..] + rest == [l] + rest;
      assert ShortUnescape(l) == Some(c);
    case None =>
      if (c as int) < 0x20 {
        UnicodeEscapeRoundTrip(c, rest);
      }
  }

  lemma UnicodeEscapeRoundTrip(c: char, rest: string)
    requires ShortEscape(c).None? && (c as int) < 0x20
    ensures DecodeEscape(EscapeChar(c)[1..] + rest) == Some((c, rest))
  {
    var n := c as int;
    var t := EscapeChar(c)[1..] + rest;
    assert t == ['u', '0', '0', HexDigit(n / 16), HexDigit(n % 16)] + rest;
    assert HexValue(t[3]) == Some(n / 16);
    assert HexValue(t[4]) == Some(n % 16);
    assert t[1..][4..] == rest;
  }

  lemma {:induction false} StringBodyRoundTrip(x: string, rest: string)
    ensures ParseStringBody(EscapeString(x) + "\"" + rest) == Some((x, rest))
    decreases |x|
  {
    if x == [] {
      assert EscapeString(x) + "\"" + rest == "\"" + rest;
    } else {
      StringBodyRoundTrip(x[1..], rest);
      StringBodyStep(x, rest);
    }
  }

  /** One character more in front of a literal body that already reads back. */
  lemma {:induction false} StringBodyStep(x: string, rest: string)
    requires x != [] && ParseStringBody(EscapeString(x[1..]) + "\"" + rest) == Some((x[1..], rest))
    ensures ParseStringBody(EscapeString(x) + "\"" + rest) == Some((x, rest))
  {
    var e := EscapeChar(x[0]);
    var tail := EscapeString(x[1..]) + "\"" + rest;
    var s := EscapeString(x) + "\"" + rest;
    EscapeStringCons(x, rest);
    EscapeCharRoundTrip(x[0], tail);
    if e[0] == '\\' {
      EscapedStep(s, e, tail, x[0]);
      ParseEscaped(s, x[0], tail, x[1..], rest);
    } else {
      assert s[1..] == tail;
      ParsePlain(s, x[1..], rest);
    }
    assert [x[0]] + x[1..] == x;
  }

  lemma EscapeStringCons(x: string, rest: string)
    requires x != []
    ensures EscapeString(x) + "\"" + rest == EscapeChar(x[0]) + (EscapeString(x[1..]) + "\"" + rest)
  {
  }

  lemma EscapedStep(s: string, e: string, tail: string, c: char)
    requires e != [] && s == e + tail && DecodeEscape(e[1..] + tail) == Some((c, tail))
    ensures s != [] && s[0] == e[0] && DecodeEscape(s[1..]) == Some((c, tail))
  {
    assert s[1..] == e[1..] + tail;
  }

  lemma ParseEscaped(s: string, c: char, tail: string, body: string, after: string)
    requires s != [] && s[0] == '\\' && DecodeEscape(s[1..]) == Some((c, tail))
    requires ParseStringBody(tail) == Some((body, after))
    ensures ParseStringBody(s) == Some(([c] + body, after))
  {
  }

  lemma ParsePlain(s: string, body: string, after: string)
    requires s != [] && s[0] != '"' && s[0] != '\\' && (s[0] as int) >= 0x20
    requires ParseStringBody(s[1..]) == Some((body, after))
    ensures ParseStringBody(s) == Some(([s[0]] + body, after))
  {
  }

  lemma {:induction false} ParseItemsLast(s: string, x: string, rest: string)
    requires s != [] && s[0] == '"' && ParseStringBody(s[1..]) == Some((x, rest))
    requires rest == [] || rest[0] != ','
    ensures ParseItems(s) == Some(([x], rest))
  {
  }

  lemma {:induction false} ParseItemsCons(s: string, x: string, rest: string, xs: seq<string>, after: string)
    requires s != [] && s[0] == '"' && ParseStringBody(s[1..]) == Some((x, rest))
    requires rest != [] && rest[0] == ',' && ParseItems(rest[1..]) == Some((xs, after))
    ensures ParseItems(s) == Some(([x] + xs, after))
  {
  }

  /** The text after the first item's opening quote. */
  function AfterFirstItem(a: seq<string>, rest: string): string
    requires a != []
  {
    if |a| == 1 then rest else "," + Items(a[1..]) + rest
  }

  lemma {:induction false} ItemsUnfold(a: seq<string>)
    requires |a| > 1
    ensures Items(a) == Quote(a[0]) + "," + Items(a[1..])
  {
  }

  lemma {:induction false} QuoteFollow(x: string, follow: string)
    ensures (Quote(x) + follow)[0] == '"'
    ensures (Quote(x) + follow)[1..] == EscapeString(x) + "\"" + follow
  {
    assert Quote(x) + follow == "\"" + (EscapeString(x) + "\"" + follow);
  }

  lemma {:induction false} ItemsShape(a: seq<string>, rest: string)
    requires a != []
    ensures (Items(a) + rest)[0] == '"'
    ensures (Items(a) + rest)[1..] == EscapeString(a[0]) + "\"" + AfterFirstItem(a, rest)
  {
    if |a| == 1 {
      assert Items(a) == Quote(a[0]);
      QuoteFollow(a[0], rest);
    } else {
      ItemsUnfold(a);
      var follow := "," + Items(a[1..]) + rest;
      assert Items(a) + rest == Quote(a[0]) + follow;
      QuoteFollow(a[0], follow);
    }
  }

  lemma {:induction false} SingleItemRoundTrip(a: seq<string>, rest: string)
    requires |a| == 1
    requires rest == [] || rest[0] != ','
    ensures ParseItems(Items(a) + rest) == Some((a, rest))
  {
    ItemsShape(a, rest);
    StringBodyRoundTrip(a[0], rest);
    ParseItemsLast(Items(a) + rest, a[0], rest);
    assert [a[0]] == a;
  }

  lemma {:induction false} CommaFollow(t: string, rest: string)
    ensures ("," + t + rest) != [] && ("," + t + rest)[0] == ','
    ensures ("," + t + rest)[1..] == t + rest
  {
    assert "," + t + rest == "," + (t + rest);
  }

  lemma {:induction false} ConsItemRoundTrip(a: seq<string>, rest: string)
    requires |a| > 1
    requires ParseItems(Items(a[1..]) + rest) == Some((a[1..], rest))
    ensures ParseItems(Items(a) + rest) == Some((a, rest))
  {
    var tailText := Items(a[1..]);
    var more := AfterFirstItem(a, rest);
    assert more == "," + tailText + rest;
    CommaFollow(tailText, rest);
    ItemsShape(a, rest);
    StringBodyRoundTrip(a[0], more);
    ParseItemsCons(Items(a) + rest, a[0], more, a[1..], rest);
    assert [a[0]] + a[1..] == a;
  }

  lemma {:induction false} ItemsRoundTrip(a: seq<string>, rest: string)
    requires a != []
    requires rest == [] || rest[0] != ','
    ensures ParseItems(Items(a) + rest) == Some((a, rest))
    decreases |a|
  {
    if |a| == 1 {
      SingleItemRoundTrip(a, rest);
    } else {
      ItemsRoundTrip(a[1..], rest);
      ConsItemRoundTrip(a, rest);
    }
  }

  /** `JSON.parse(JSON.stringify(a))` gives back `a` for every array of strings. */
  lemma RoundTrip(a: seq<string>)
    ensures Parse(Stringify(a)) == Some(a)
  {
    if a != [] {
      var s := Stringify(a);
      assert s[1..] == Items(a) + "]";
      ItemsRoundTrip(a, "]");
      assert s[1..] != "]" by {
        assert s[1] == '"';
      }
    }
  }
}
