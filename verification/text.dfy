/** The pieces of Rust's `str` API the compiler relies on: `char::is_whitespace`,
    `trim`, `lines`, `split_whitespace`, `split`, and decimal printing and parsing
    of integers (`Display` for integers and `FromStr` for `i32`, `i64`, `usize`). */
module Text {
  import opened Wrappers

  /** Unicode White_Space, the set Rust's `char::is_whitespace` accepts. */
  predicate IsWhitespace(c: char) {
    var n := c as int;
    || (9 <= n <= 13) || n == 32 || n == 0x85 || n == 0xA0 || n == 0x1680
    || (0x2000 <= n <= 0x200A) || n == 0x2028 || n == 0x2029 || n == 0x202F
    || n == 0x205F || n == 0x3000
  }

  predicate NoWhitespace(s: string) {
    forall i :: 0 <= i < |s| ==> !IsWhitespace(s[i])
  }

  predicate IsDigit(c: char) {
    '0' <= c <= '9'
  }

  predicate AllDigits(s: string) {
    forall i :: 0 <= i < |s| ==> IsDigit(s[i])
  }

  predicate StartsWith(s: string, prefix: string) {
    |prefix| <= |s| && s[..|prefix|] == prefix
  }

  predicate EndsWith(s: string, suffix: string) {
    |suffix| <= |s| && s[|s| - |suffix|..] == suffix
  }

  // ---------------------------------------------------------------------------
  // trim

  /** `str::trim_start`: drops leading whitespace. */
  function TrimStart(s: string): (r: string)
    ensures |r| <= |s| && r == s[|s| - |r|..]
    ensures forall i :: 0 <= i < |s| - |r| ==> IsWhitespace(s[i])
    ensures |r| > 0 ==> !IsWhitespace(r[0])
  {
    if |s| > 0 && IsWhitespace(s[0]) then TrimStart(s[1..]) else s
  }

  /** `str::trim_end`: drops trailing whitespace. */
  function TrimEnd(s: string): (r: string)
    ensures |r| <= |s| && r == s[..|r|]
    ensures forall i :: |r| <= i < |s| ==> IsWhitespace(s[i])
    ensures |r| > 0 ==> !IsWhitespace(r[|r| - 1])
  {
    if |s| > 0 && IsWhitespace(s[|s| - 1]) then TrimEnd(s[..|s| - 1]) else s
  }

  /** `str::trim`: the longest slice of `s` that neither starts nor ends with whitespace. */
  function Trim(s: string): (r: string)
    ensures |r| > 0 ==> !IsWhitespace(r[0]) && !IsWhitespace(r[|r| - 1])
    ensures |r| <= |s|
  {
    var t := TrimStart(s);
    var r := TrimEnd(t);
    assert |r| > 0 ==> r[0] == t[0];
    r
  }

  /** A string that already has no surrounding whitespace is its own trim. */
  lemma TrimOfTrimmed(s: string)
    requires |s| > 0 ==> !IsWhitespace(s[0]) && !IsWhitespace(s[|s| - 1])
    ensures Trim(s) == s
  {
  }

  lemma TrimIdempotent(s: string)
    ensures Trim(Trim(s)) == Trim(s)
  {
    TrimOfTrimmed(Trim(s));
  }

  // ---------------------------------------------------------------------------
  // lines

  /** Index of the first `c` in `s`, or `|s|` when there is none. */
  function IndexOf(s: string, c: char): (k: nat)
    ensures k <= |s|
    ensures forall i :: 0 <= i < k ==> s[i] != c
    ensures k < |s| ==> s[k] == c
  {
    if |s| == 0 then 0 else if s[0] == c then 0 else 1 + IndexOf(s[1..], c)
  }

  /** Removes one trailing carriage return. */
  function StripCr(s: string): string {
    if |s| > 0 && s[|s| - 1] == '\r' then s[..|s| - 1] else s
  }

  /** `str::lines`: the text between line feeds, a line feed being optionally
      preceded by a carriage return that is dropped with it; a final line feed
      does not start an extra empty line. */
  function Lines(s: string): (ls: seq<string>)
    ensures forall i :: 0 <= i < |ls| ==> '\n' !in ls[i]
    decreases |s|
  {
    if |s| == 0 then []
    else
      var k := IndexOf(s, '\n');
      if k == |s| then [s] else [StripCr(s[..k])] + Lines(s[k + 1..])
  }

  /** The inverse of `Lines` on line-feed-free lines: joins with `"\n"`. */
  function JoinLines(ls: seq<string>): string {
    if |ls| == 0 then ""
    else if |ls| == 1 then ls[0]
    else ls[0] + "\n" + JoinLines(ls[1..])
  }

  predicate PlainLine(l: string) {
    && |l| > 0
    && (forall i :: 0 <= i < |l| ==> l[i] != '\n')
    && l[|l| - 1] != '\r'
  }

  lemma {:induction false} LinesOfJoin(ls: seq<string>)
    requires forall i :: 0 <= i < |ls| ==> PlainLine(ls[i])
    ensures Lines(JoinLines(ls)) == ls
  {
    if |ls| == 0 {
    } else if |ls| == 1 {
      assert IndexOf(ls[0], '\n') == |ls[0]|;
    } else {
      var s := JoinLines(ls);
      var rest := JoinLines(ls[1..]);
      assert s == ls[0] + "\n" + rest;
      assert s[|ls[0]|] == '\n';
      assert forall i :: 0 <= i < |ls[0]| ==> s[i] == ls[0][i];
      assert IndexOf(s, '\n') == |ls[0]|;
      assert s[..|ls[0]|] == ls[0];
      assert s[|ls[0]| + 1..] == rest;
      LinesOfJoin(ls[1..]);
    }
  }

  // ---------------------------------------------------------------------------
  // split_whitespace and split

  /** Index of the first whitespace character of `s`, or `|s|`. */
  function WordEnd(s: string): (k: nat)
    ensures k <= |s|
    ensures NoWhitespace(s[..k])
    ensures k < |s| ==> IsWhitespace(s[k])
  {
    if |s| == 0 || IsWhitespace(s[0]) then 0
    else
      var k := 1 + WordEnd(s[1..]);
      assert s[..k] == [s[0]] + s[1..][..k - 1];
      k
  }

  /** `str::split_whitespace`: the maximal whitespace-free runs of `s`, in order. */
  function SplitWhitespace(s: string): (parts: seq<string>)
    ensures forall i :: 0 <= i < |parts| ==> |parts[i]| > 0 && NoWhitespace(parts[i])
    decreases |s|
  {
    if |s| == 0 then []
    else if IsWhitespace(s[0]) then SplitWhitespace(s[1..])
    else
      var k := WordEnd(s);
      [s[..k]] + SplitWhitespace(s[k..])
  }

  lemma SplitWhitespaceOfWord(w: string)
    requires |w| > 0 && NoWhitespace(w)
    ensures SplitWhitespace(w) == [w]
  {
    var k := WordEnd(w);
    assert k == |w|;
    assert w[..k] == w && w[k..] == [];
  }

  lemma {:induction false} WordEndBeforeSpace(w: string, rest: string)
    requires NoWhitespace(w)
    ensures WordEnd(w + " " + rest) == |w|
  {
    if |w| > 0 {
      assert (w + " " + rest)[1..] == w[1..] + " " + rest;
      WordEndBeforeSpace(w[1..], rest);
    }
  }

  /** Splitting `w + " " + rest` yields `w` followed by the words of `rest`. */
  lemma SplitWhitespaceCons(w: string, rest: string)
    requires |w| > 0 && NoWhitespace(w)
    ensures SplitWhitespace(w + " " + rest) == [w] + SplitWhitespace(rest)
  {
    var s := w + " " + rest;
    assert forall i :: 0 <= i < |w| ==> s[i] == w[i];
    assert s[|w|] == ' ';
    WordEndBeforeSpace(w, rest);
    assert s[..|w|] == w;
    assert s[|w|..][1..] == rest;
  }

  /** Words joined by single spaces, as `format!("{} {} {}", ..)` lays out an
      instruction. */
  function Unwords(ws: seq<string>): string {
    if |ws| == 0 then ""
    else if |ws| == 1 then ws[0]
    else ws[0] + " " + Unwords(ws[1..])
  }

  predicate IsWord(w: string) {
    |w| > 0 && NoWhitespace(w)
  }

  /** Splitting a line laid out by `Unwords` gives back its words. */
  lemma {:induction false} SplitWhitespaceOfUnwords(ws: seq<string>)
    requires forall i :: 0 <= i < |ws| ==> IsWord(ws[i])
    ensures SplitWhitespace(Unwords(ws)) == ws
  {
    if |ws| == 1 {
      SplitWhitespaceOfWord(ws[0]);
    } else if |ws| > 1 {
      SplitWhitespaceOfUnwords(ws[1..]);
      SplitWhitespaceCons(ws[0], Unwords(ws[1..]));
    }
  }

  /** `str::split(sep)`: the pieces between occurrences of `sep`; never empty. */
  function Split(s: string, sep: char): (pieces: seq<string>)
    ensures |pieces| >= 1
    ensures pieces[0] == s[..IndexOf(s, sep)]
    ensures IndexOf(s, sep) < |s| ==> |pieces| >= 2
    decreases |s|
  {
    var k := IndexOf(s, sep);
    if k == |s| then [s] else [s[..k]] + Split(s[k + 1..], sep)
  }

  /** `str::trim_end_matches(c)`: drops every trailing `c`. */
  function TrimEndMatches(s: string, c: char): (r: string)
    ensures |r| <= |s| && r == s[..|r|]
    ensures |r| > 0 ==> r[|r| - 1] != c
    ensures forall i :: |r| <= i < |s| ==> s[i] == c
  {
    if |s| > 0 && s[|s| - 1] == c then TrimEndMatches(s[..|s| - 1], c) else s
  }

  // ---------------------------------------------------------------------------
  // Decimal numerals

  function DigitChar(d: nat): (c: char)
    requires d < 10
    ensures IsDigit(c)
  {
    ('0' as int + d) as char
  }

  function DigitValue(c: char): nat
    requires IsDigit(c)
  {
    c as int - '0' as int
  }

  /** Integer `Display`: the shortest decimal numeral of `n`. */
  function NatToString(n: nat): (r: string)
    ensures |r| >= 1 && AllDigits(r)
    decreases n
  {
    if n < 10 then [DigitChar(n)] else NatToString(n / 10) + [DigitChar(n % 10)]
  }

  /** Integer `Display` for signed values: a minus sign before negative numbers. */
  function IntToString(n: int): (r: string)
    ensures |r| >= 1 && NoWhitespace(r)
    ensures n >= 0 ==> AllDigits(r)
    ensures n < 0 ==> r[0] == '-' && AllDigits(r[1..])
  {
    if n < 0 then
      var d := NatToString(-n);
      assert ("-" + d)[1..] == d;
      "-" + d
    else NatToString(n)
  }

  /** The value of a string of decimal digits, most significant first. */
  function DigitsValue(s: string): nat
    requires AllDigits(s)
  {
    if |s| == 0 then 0 else DigitsValue(s[..|s| - 1]) * 10 + DigitValue(s[|s| - 1])
  }

  lemma {:induction false} DigitsValueOfNatToString(n: nat)
    ensures DigitsValue(NatToString(n)) == n
    decreases n
  {
    if n >= 10 {
      var s := NatToString(n);
      assert s[..|s| - 1] == NatToString(n / 10);
      DigitsValueOfNatToString(n / 10);
    }
  }

  /** Rust's `FromStr` for a signed integer type with range `lo..=hi`: an
      optional `+` or `-`, then one or more ASCII digits, and the value in range. */
  function ParseSigned(s: string, lo: int, hi: int): (r: Option<int>)
    ensures r.Some? ==> lo <= r.value <= hi
  {
    if |s| == 0 then None
    else
      var digits := if s[0] == '-' || s[0] == '+' then s[1..] else s;
      if |digits| == 0 || !AllDigits(digits) then None
      else
        var v: int := if s[0] == '-' then -(DigitsValue(digits) as int) else DigitsValue(digits);
        if lo <= v <= hi then Some(v) else None
  }

  /** Rust's `FromStr` for an unsigned type with maximum `hi`: like the signed
      case, except that a leading `-` is an invalid digit. */
  function ParseUnsigned(s: string, hi: nat): (r: Option<nat>)
    ensures r.Some? ==> r.value <= hi
  {
    if |s| == 0 then None
    else
      var digits := if s[0] == '+' then s[1..] else s;
      if |digits| == 0 || !AllDigits(digits) then None
      else if DigitsValue(digits) <= hi then Some(DigitsValue(digits)) else None
  }

  /** Printing an in-range integer and parsing it back returns it. */
  lemma ParseSignedOfIntToString(n: int, lo: int, hi: int)
    requires lo <= n <= hi
    ensures ParseSigned(IntToString(n), lo, hi) == Some(n)
  {
    var s := IntToString(n);
    if n < 0 {
      assert s[1..] == NatToString(-n);
      DigitsValueOfNatToString(-n);
    } else {
      assert IsDigit(s[0]);
      DigitsValueOfNatToString(n);
    }
  }

  /** Printing a natural and parsing it back as an unsigned integer returns it. */
  lemma ParseUnsignedOfNatToString(n: nat, hi: nat)
    requires n <= hi
    ensures ParseUnsigned(NatToString(n), hi) == Some(n)
  {
    var s := NatToString(n);
    assert IsDigit(s[0]);
    DigitsValueOfNatToString(n);
  }

  lemma IntToStringHasNoDot(n: int)
    ensures '.' !in IntToString(n)
  {
    var s := IntToString(n);
    forall i | 0 <= i < |s|
      ensures s[i] != '.'
    {
      if n < 0 && i > 0 {
        assert s[i] == s[1..][i - 1];
      }
    }
  }
}
