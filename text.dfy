/** String helpers shared by the model: prefixes, decimal rendering, trimming and concatenation. */
module Text {

  /** `s.startsWith(p)` */
  predicate StartsWith(s: string, p: string) {
    |p| <= |s| && s[..|p|] == p
  }

  lemma StartsWithAppend(p: string, t: string)
    ensures StartsWith(p + t, p)
  {
    assert (p + t)[..|p|] == p;
  }

  // ---------------------------------------------------------------------------
  // Decimal rendering of naturals (`n.toString()`) and its inverse
  // ---------------------------------------------------------------------------

  predicate IsDigit(c: char) {
    '0' <= c <= '9'
  }

  function DigitChar(d: nat): (c: char)
    requires d < 10
    ensures IsDigit(c) && c as int - '0' as int == d
  {
    ('0' as int + d) as char
  }

  function DigitValue(c: char): nat
    requires IsDigit(c)
  {
    c as int - '0' as int
  }

  predicate AllDigits(s: string) {
    forall i :: 0 <= i < |s| ==> IsDigit(s[i])
  }

  /** The number a string of decimal digits denotes (what `Number(s)` gives for such a string). */
  function DigitsValue(s: string): nat
    requires AllDigits(s)
  {
    if s == [] then 0 else DigitsValue(s[..|s| - 1]) * 10 + DigitValue(s[|s| - 1])
  }

  /** `n.toString()` for a non-negative integer: the shortest decimal numeral of `n`. */
  function NatToString(n: nat): (r: string)
    ensures |r| > 0 && AllDigits(r)
    ensures DigitsValue(r) == n
    ensures r[0] == '0' ==> n == 0
    ensures n < 10 <==> |r| == 1
  {
    if n < 10 then [DigitChar(n)]
    else
      var p := NatToString(n / 10);
      var r := p + [DigitChar(n % 10)];
      assert r[..|r| - 1] == p;
      r
  }

  /** Decimal rendering is injective: distinct numbers give distinct numerals. */
  lemma NatToStringInjective(a: nat, b: nat)
    requires NatToString(a) == NatToString(b)
    ensures a == b
  {
  }

  /** `n.toString().padStart(2, '0')` */
  function Pad2(n: nat): (r: string)
    ensures AllDigits(r) && DigitsValue(r) == n
    ensures n < 100 ==> |r| == 2
    ensures |r| >= 2
  {
    if n < 10 then
      var r := "0" + NatToString(n);
      assert r[..1] == "0";
      r
    else NatToString(n)
  }

  // ---------------------------------------------------------------------------
  // String.prototype.trim
  // ---------------------------------------------------------------------------

  /** The code points ECMAScript counts as WhiteSpace or LineTerminator. */
  predicate IsWhitespace(c: char) {
    || c == '\t' || c == '\n' || c == '\U{000B}' || c == '\U{000C}' || c == '\r' || c == ' '
    || c == '\U{00A0}' || c == '\U{1680}' || ('\U{2000}' <= c <= '\U{200A}')
    || c == '\U{2028}' || c == '\U{2029}' || c == '\U{202F}' || c == '\U{205F}'
    || c == '\U{3000}' || c == '\U{FEFF}'
  }

  predicate AllWhitespace(s: string) {
    forall i :: 0 <= i < |s| ==> IsWhitespace(s[i])
  }

  /** Drops the leading whitespace. */
  function TrimStart(s: string): (r: string)
    ensures |r| <= |s|
  {
    if s != [] && IsWhitespace(s[0]) then TrimStart(s[1..]) else s
  }

  /** Drops the trailing whitespace. */
  function TrimEnd(s: string): (r: string)
    ensures |r| <= |s|
  {
    if s != [] && IsWhitespace(s[|s| - 1]) then TrimEnd(s[..|s| - 1]) else s
  }

  /** `TrimStart` keeps a suffix that starts with a non-blank character, and drops only whitespace. */
  lemma {:induction false} TrimStartSpec(s: string)
    ensures var r := TrimStart(s);
      && r == s[|s| - |r|..]
      && AllWhitespace(s[..|s| - |r|])
      && (r != [] ==> !IsWhitespace(r[0]))
    decreases |s|
  {
    if s != [] && IsWhitespace(s[0]) {
      TrimStartSpec(s[1..]);
      var r := TrimStart(s[1..]);
      assert s[..|s| - |r|] == [s[0]] + s[1..][..|s| - 1 - |r|];
      assert s[1..][|s| - 1 - |r|..] == s[|s| - |r|..];
    }
  }

  /** `TrimEnd` keeps a prefix that ends with a non-blank character, and drops only whitespace. */
  lemma {:induction false} TrimEndSpec(s: string)
    ensures var r := TrimEnd(s);
      && r == s[..|r|]
      && AllWhitespace(s[|r|..])
      && (r != [] ==> !IsWhitespace(r[|r| - 1]))
    decreases |s|
  {
    if s != [] && IsWhitespace(s[|s| - 1]) {
      TrimEndSpec(s[..|s| - 1]);
      var r := TrimEnd(s[..|s| - 1]);
      assert s[|r|..] == s[..|s| - 1][|r|..] + [s[|s| - 1]];
      assert s[..|s| - 1][..|r|] == s[..|r|];
    }
  }

  /** `s.trim()` */
  function Trim(s: string): string {
    TrimEnd(TrimStart(s))
  }

  /** `s.trim() === ''` holds exactly for strings made only of whitespace. */
  lemma TrimEmptyIffBlank(s: string)
    ensures Trim(s) == "" <==> AllWhitespace(s)
  {
    var t := TrimStart(s);
    TrimStartSpec(s);
    TrimEndSpec(t);
    if t == [] {
      assert s[..|s| - |t|] == s;
    } else {
      assert !IsWhitespace(t[0]);
      assert s[|s| - |t|] == t[0];
    }
  }

  // ---------------------------------------------------------------------------
  // Concatenation of a list of strings
  // ---------------------------------------------------------------------------

  function Concat(ss: seq<string>): string {
    if ss == [] then "" else Concat(ss[..|ss| - 1]) + ss[|ss| - 1]
  }

  lemma ConcatAppend(ss: seq<string>, t: seq<string>)
    ensures Concat(ss + t) == Concat(ss) + Concat(t)
    decreases |t|
  {
    if t == [] {
      assert ss + t == ss;
    } else {
      assert (ss + t)[..|ss + t| - 1] == ss + t[..|t| - 1];
      ConcatAppend(ss, t[..|t| - 1]);
    }
  }

  /** `filter(t => t.trim() !== '')`: the entries that are not blank, in order. */
  function NonBlank(ts: seq<string>): (r: seq<string>)
    ensures |r| <= |ts|
  {
    if ts == [] then []
    else NonBlank(ts[..|ts| - 1]) + (if Trim(ts[|ts| - 1]) != "" then [ts[|ts| - 1]] else [])
  }

  /** An entry survives exactly when it is in the input and not blank. */
  lemma {:induction false} NonBlankMembers(ts: seq<string>)
    ensures forall t :: t in NonBlank(ts) <==> t in ts && Trim(t) != ""
  {
    if ts != [] {
      NonBlankMembers(ts[..|ts| - 1]);
      assert ts == ts[..|ts| - 1] + [ts[|ts| - 1]];
    }
  }

  /** Filtering twice keeps what filtering once kept. */
  lemma {:induction false} NonBlankIdempotent(ts: seq<string>)
    ensures NonBlank(NonBlank(ts)) == NonBlank(ts)
  {
    if ts != [] {
      var p := ts[..|ts| - 1];
      var x := ts[|ts| - 1];
      NonBlankIdempotent(p);
      var q := NonBlank(p);
      if Trim(x) != "" {
        assert NonBlank(ts) == q + [x];
        assert (q + [x])[..|q|] == q;
        assert NonBlank(q + [x]) == NonBlank(q) + [x];
      } else {
        assert NonBlank(ts) == q + [];
        assert q + [] == q;
      }
    }
  }

  // ---------------------------------------------------------------------------
  // UTF-16 lengths, as JavaScript's `length` and `substring` count
  // ---------------------------------------------------------------------------

  /** The UTF-16 code units of one character: two (a surrogate pair) above U+FFFF. */
  function Units(c: char): nat {
    if c as int > 0xFFFF then 2 else 1
  }

  /** `s.length` in JavaScript. */
  function Utf16Length(s: string): nat {
    if s == [] then 0 else Units(s[0]) + Utf16Length(s[1..])
  }

  /**
   * The characters `s.substring(0, n)` keeps whole: the longest prefix of `s` taking at
   * most `n` code units.
   */
  function {:induction false} Utf16Prefix(s: string, n: nat): (r: string)
    ensures |r| <= |s| && r == s[..|r|]
    ensures Utf16Length(r) <= n
    ensures |r| < |s| ==> Utf16Length(r) + Units(s[|r|]) > n
  {
    if s == [] || Units(s[0]) > n then []
    else
      var rest := Utf16Prefix(s[1..], n - Units(s[0]));
      assert ([s[0]] + rest)[1..] == rest;
      [s[0]] + rest
  }

  /** Without characters above U+FFFF, code units and characters agree. */
  lemma {:induction false} BmpUnits(s: string, n: nat)
    requires forall i :: 0 <= i < |s| ==> s[i] as int <= 0xFFFF
    ensures Utf16Length(s) == |s|
    ensures Utf16Prefix(s, n) == if |s| <= n then s else s[..n]
  {
    if s != [] {
      BmpUnits(s[1..], if n == 0 then 0 else n - 1);
      if n > 0 {
        assert Utf16Prefix(s, n) == [s[0]] + Utf16Prefix(s[1..], n - 1);
        if |s| > n {
          assert [s[0]] + s[1..][..n - 1] == s[..n];
        } else {
          assert [s[0]] + s[1..] == s;
        }
      }
    }
  }

  /** With only characters above U+FFFF, each takes two code units. */
  lemma {:induction false} AstralUnits(s: string, n: nat)
    requires forall i :: 0 <= i < |s| ==> s[i] as int > 0xFFFF
    ensures Utf16Length(s) == 2 * |s|
    ensures Utf16Prefix(s, n) == if 2 * |s| <= n then s else s[..n / 2]
  {
    if s != [] {
      AstralUnits(s[1..], if n < 2 then 0 else n - 2);
      if n >= 2 {
        assert Utf16Prefix(s, n) == [s[0]] + Utf16Prefix(s[1..], n - 2);
        if 2 * |s| > n {
          assert (n - 2) / 2 == n / 2 - 1;
          assert [s[0]] + s[1..][..n / 2 - 1] == s[..n / 2];
        } else {
          assert [s[0]] + s[1..] == s;
        }
      }
    }
  }
}
