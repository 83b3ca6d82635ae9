/** The JavaScript string operations the edge function relies on:
    `String.prototype.trim`, the decimal rendering of a number inside a template
    literal, and a scanner that reads a string up to a given character (used by
    the inverse functions that recover what a template inserted). */
module JsText {

  /** WhiteSpace and LineTerminator code points, the set `trim` removes. */
  predicate IsWhiteSpace(c: char) {
    c == '\t' || c == '\n' || c == '\U{000B}' || c == '\U{000C}' || c == '\r' || c == ' '
    || c == '\U{00A0}' || c == '\U{1680}' || ('\U{2000}' <= c <= '\U{200A}')
    || c == '\U{2028}' || c == '\U{2029}' || c == '\U{202F}' || c == '\U{205F}'
    || c == '\U{3000}' || c == '\U{FEFF}'
  }

  predicate AllWhiteSpace(s: string) {
    forall i :: 0 <= i < |s| ==> IsWhiteSpace(s[i])
  }

  /** Drops the leading white space: what is left is a suffix of `s` that is empty
      or starts with a non-white-space character, and what was dropped is white. */
  function TrimStart(s: string): (r: string)
    ensures |r| <= |s| && r == s[|s| - |r|..]
    ensures AllWhiteSpace(s[..|s| - |r|])
    ensures r == [] || !IsWhiteSpace(r[0])
  {
    if s != [] && IsWhiteSpace(s[0]) then TrimStart(s[1..]) else s
  }

  /** Drops the trailing white space: what is left is a prefix of `s` that is empty
      or ends with a non-white-space character, and what was dropped is white. */
  function TrimEnd(s: string): (r: string)
    ensures |r| <= |s| && r == s[..|r|]
    ensures AllWhiteSpace(s[|r|..])
    ensures r == [] || !IsWhiteSpace(r[|r| - 1])
  {
    if s != [] && IsWhiteSpace(s[|s| - 1]) then TrimEnd(s[..|s| - 1]) else s
  }

  /** `s.trim()`: a slice of `s` with neither end white, obtained by removing white
      space only; `lead` below is where the slice starts. */
  function Trim(s: string): (r: string)
    ensures |r| <= |s| - Lead(s) && r == s[Lead(s)..Lead(s) + |r|]
    ensures AllWhiteSpace(s[..Lead(s)]) && AllWhiteSpace(s[Lead(s) + |r|..])
    ensures r == [] || (!IsWhiteSpace(r[0]) && !IsWhiteSpace(r[|r| - 1]))
  {
    var t := TrimStart(s);
    var r := TrimEnd(t);
    assert Lead(s) == |s| - |t|;
    TrimBothEnds(s, t, r);
    r
  }

  /** Removing white space from the front (giving `t`) and then from the back
      (giving `r`) leaves a slice of `s` with neither end white. */
  lemma TrimBothEnds(s: string, t: string, r: string)
    requires |t| <= |s| && t == s[|s| - |t|..] && AllWhiteSpace(s[..|s| - |t|])
    requires t == [] || !IsWhiteSpace(t[0])
    requires |r| <= |t| && r == t[..|r|] && AllWhiteSpace(t[|r|..])
    requires r == [] || !IsWhiteSpace(r[|r| - 1])
    ensures var i := |s| - |t|;
      r == s[i..i + |r|] && AllWhiteSpace(s[..i]) && AllWhiteSpace(s[i + |r|..])
      && (r == [] || (!IsWhiteSpace(r[0]) && !IsWhiteSpace(r[|r| - 1])))
  {
    var i := |s| - |t|;
    assert s[i + |r|..] == t[|r|..];
    assert r != [] ==> r[0] == t[0];
  }

  /** The number of white-space characters `trim` removes at the front. */
  function Lead(s: string): nat
    ensures Lead(s) <= |s|
  {
    |s| - |TrimStart(s)|
  }

  /** A string comes out of `trim` empty exactly when it is all white space. */
  lemma TrimEmptyIffWhiteSpace(s: string)
    ensures Trim(s) == [] <==> AllWhiteSpace(s)
  {
    var i := Lead(s);
    if Trim(s) == [] {
      assert TrimStart(s) == [];
      assert s[..i] == s;
    } else {
      assert Trim(s)[0] == s[i];
    }
  }

  /** `trim` is idempotent. */
  lemma TrimIdempotent(s: string)
    ensures Trim(Trim(s)) == Trim(s)
  {
    var r := Trim(s);
    if r != [] {
      assert TrimStart(r) == r;
      assert TrimEnd(r) == r;
    }
  }

  /** Trimming a string whose two ends are not white space, once white space has
      been put around it, gives back exactly that string. */
  lemma {:induction false} TrimSurrounded(pre: string, s: string, post: string)
    requires AllWhiteSpace(pre) && AllWhiteSpace(post)
    requires s != [] && !IsWhiteSpace(s[0]) && !IsWhiteSpace(s[|s| - 1])
    ensures Trim(pre + s + post) == s
  {
    TrimStartWhitePrefix(pre, s + post);
    assert pre + s + post == pre + (s + post);
    TrimEndWhiteSuffix(s, post);
  }

  lemma {:induction false} TrimStartWhitePrefix(pre: string, s: string)
    requires AllWhiteSpace(pre) && s != [] && !IsWhiteSpace(s[0])
    ensures TrimStart(pre + s) == s
  {
    if pre != [] {
      assert (pre + s)[1..] == pre[1..] + s;
      TrimStartWhitePrefix(pre[1..], s);
    }
  }

  lemma {:induction false} TrimEndWhiteSuffix(s: string, post: string)
    requires AllWhiteSpace(post) && s != [] && !IsWhiteSpace(s[|s| - 1])
    ensures TrimEnd(s + post) == s
  {
    if post != [] {
      var p := post[..|post| - 1];
      assert (s + post)[..|s + post| - 1] == s + p;
      TrimEndWhiteSuffix(s, p);
    }
  }

  predicate IsDigit(c: char) {
    '0' <= c <= '9'
  }

  predicate AllDigits(s: string) {
    forall i :: 0 <= i < |s| ==> IsDigit(s[i])
  }

  /** The decimal numeral of `n`, as a template literal renders an integer. */
  function Decimal(n: nat): (s: string)
    ensures s != [] && AllDigits(s)
    // no leading zero: only zero itself is written with a `0` in front
    ensures n > 0 ==> s[0] != '0'
  {
    var last := ('0' as int + n % 10) as char;
    if n < 10 then [last] else Decimal(n / 10) + [last]
  }

  /** The value of a numeral: the inverse of `Decimal`. */
  function ParseDecimal(s: string): nat
    requires AllDigits(s)
  {
    if s == [] then 0
    else ParseDecimal(s[..|s| - 1]) * 10 + (s[|s| - 1] as int - '0' as int)
  }

  lemma {:induction false} DecimalRoundTrip(n: nat)
    ensures ParseDecimal(Decimal(n)) == n
  {
    var s := Decimal(n);
    if n >= 10 {
      assert s[..|s| - 1] == Decimal(n / 10);
      DecimalRoundTrip(n / 10);
    }
  }

  /** A numeral as `Decimal` writes it: digits only, and no leading zero unless it
      is the single digit `0`. */
  predicate Canonical(s: string) {
    s != [] && AllDigits(s) && (|s| > 1 ==> s[0] != '0')
  }

  /** What `Decimal` writes is canonical, and holds no space. */
  lemma DecimalIsCanonical(n: nat)
    ensures Canonical(Decimal(n)) && ' ' !in Decimal(n)
  {
    var d := Decimal(n);
    assert n == 0 ==> d == "0";
    forall i | 0 <= i < |d| ensures d[i] != ' ' {
      assert IsDigit(d[i]);
    }
  }

  /** A numeral that does not start with `0` has a positive value. */
  lemma {:induction false} ParseDecimalPositive(s: string)
    requires s != [] && AllDigits(s) && s[0] != '0'
    ensures ParseDecimal(s) > 0
  {
    if |s| > 1 {
      ParseDecimalPositive(s[..|s| - 1]);
    }
  }

  /** Every canonical numeral is the one `Decimal` writes for its value, so `Decimal`
      and `ParseDecimal` are inverse bijections between `nat` and canonical numerals. */
  lemma {:induction false} DecimalUnique(s: string)
    requires Canonical(s)
    ensures Decimal(ParseDecimal(s)) == s
  {
    var n := ParseDecimal(s);
    if |s| > 1 {
      var init := s[..|s| - 1];
      assert init[0] == s[0];
      ParseDecimalPositive(init);
      assert n / 10 == ParseDecimal(init) && n % 10 == s[|s| - 1] as int - '0' as int;
      DecimalUnique(init);
      assert s == init + [s[|s| - 1]];
    }
  }

  /** The part of `s` before the first occurrence of `c` (all of `s` if there is none). */
  function PrefixBefore(s: string, c: char): (r: string)
    ensures |r| <= |s| && r == s[..|r|]
    ensures c !in r
    ensures |r| < |s| ==> s[|r|] == c
  {
    if s == [] || s[0] == c then [] else [s[0]] + PrefixBefore(s[1..], c)
  }

  /** A piece free of `c` followed by text that starts with `c` is read back whole. */
  lemma {:induction false} PrefixBeforeConcat(v: string, c: char, rest: string)
    requires c !in v && rest != [] && rest[0] == c
    ensures PrefixBefore(v + rest, c) == v
  {
    if v != [] {
      assert (v + rest)[1..] == v[1..] + rest;
      PrefixBeforeConcat(v[1..], c, rest);
    }
  }
}
