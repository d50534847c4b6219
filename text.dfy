/**
 * Character and string helpers shared by the model: ASCII classification and
 * lower-casing, Python's `sep.join(parts)`, substring search, `str.strip`,
 * decimal rendering of naturals (`str(n)`) and the number parser standing for
 * `pd.to_numeric`.
 */
module Text {
  import opened Wrappers

  predicate IsAsciiDigit(c: char) { '0' <= c <= '9' }

  predicate IsAsciiLetter(c: char) { 'a' <= c <= 'z' || 'A' <= c <= 'Z' }

  /** The character class `[a-zA-Z0-9]` of Python's `re`. */
  predicate IsAsciiAlnum(c: char) { IsAsciiLetter(c) || IsAsciiDigit(c) }

  predicate AllDigits(s: string) { forall i :: 0 <= i < |s| ==> IsAsciiDigit(s[i]) }

  /** `str.lower` restricted to the ASCII letters. */
  function LowerChar(c: char): char
  {
    if 'A' <= c <= 'Z' then (c as int + 32) as char else c
  }

  function Lower(s: string): string
  {
    seq(|s|, i requires 0 <= i < |s| => LowerChar(s[i]))
  }

  /** `sep.join(parts)`. */
  function Join(parts: seq<string>, sep: string): string
  {
    if |parts| == 0 then ""
    else if |parts| == 1 then parts[0]
    else parts[0] + sep + Join(parts[1..], sep)
  }

  predicate IsPrefix(pre: string, s: string)
  {
    |pre| <= |s| && s[..|pre|] == pre
  }

  /** `s.endswith(suffix)`. */
  predicate EndsWith(s: string, suffix: string)
  {
    |suffix| <= |s| && s[|s| - |suffix|..] == suffix
  }

  /** `sub in s` for strings. */
  predicate Contains(s: string, sub: string)
  {
    IsPrefix(sub, s) || (|s| > 0 && Contains(s[1..], sub))
  }

  lemma {:induction false} ContainsMiddle(a: string, sub: string, b: string)
    ensures Contains(a + sub + b, sub)
  {
    if a == [] {
      assert (a + sub + b)[..|sub|] == sub;
    } else {
      assert (a + sub + b)[1..] == a[1..] + sub + b;
      ContainsMiddle(a[1..], sub, b);
    }
  }

  lemma {:induction false} ContainsAppendLeft(a: string, x: string, sub: string)
    requires Contains(x, sub)
    ensures Contains(a + x, sub)
  {
    if a != [] {
      assert (a + x)[1..] == a[1..] + x;
      ContainsAppendLeft(a[1..], x, sub);
    } else {
      assert a + x == x;
    }
  }

  /** Every part of a join occurs in the joined text. */
  lemma {:induction false} JoinContainsParts(parts: seq<string>, sep: string, k: nat)
    requires k < |parts|
    ensures Contains(Join(parts, sep), parts[k])
  {
    if |parts| == 1 {
      ContainsMiddle([], parts[0], []);
      assert [] + parts[0] + [] == parts[0];
    } else if k == 0 {
      ContainsMiddle([], parts[0], sep + Join(parts[1..], sep));
      assert [] + parts[0] + (sep + Join(parts[1..], sep)) == Join(parts, sep);
    } else {
      JoinContainsParts(parts[1..], sep, k - 1);
      ContainsAppendLeft(parts[0] + sep, Join(parts[1..], sep), parts[k]);
    }
  }

  function LStrip(s: string, p: char -> bool): string
  {
    if |s| > 0 && p(s[0]) then LStrip(s[1..], p) else s
  }

  function RStrip(s: string, p: char -> bool): string
  {
    if |s| > 0 && p(s[|s| - 1]) then RStrip(s[..|s| - 1], p) else s
  }

  /** `s.strip(chars)` where `p` tells which characters are in `chars`. */
  function Strip(s: string, p: char -> bool): string
  {
    RStrip(LStrip(s, p), p)
  }

  /** `s[i..j]` is what remains after removing a leading and a trailing run of `p`-characters. */
  ghost predicate TrimmedBy(s: string, p: char -> bool, i: nat, j: nat)
  {
    && i <= j <= |s|
    && (forall k :: 0 <= k < i ==> p(s[k]))
    && (forall k :: j <= k < |s| ==> p(s[k]))
    && (i < j ==> !p(s[i]) && !p(s[j - 1]))
  }

  lemma {:induction false} LStripSpec(s: string, p: char -> bool) returns (i: nat)
    ensures i <= |s| && LStrip(s, p) == s[i..]
    ensures forall k :: 0 <= k < i ==> p(s[k])
    ensures i < |s| ==> !p(s[i])
  {
    if |s| > 0 && p(s[0]) {
      var i' := LStripSpec(s[1..], p);
      i := i' + 1;
      assert s[1..][i'..] == s[i..];
    } else {
      i := 0;
    }
  }

  lemma {:induction false} RStripSpec(s: string, p: char -> bool) returns (j: nat)
    ensures j <= |s| && RStrip(s, p) == s[..j]
    ensures forall k :: j <= k < |s| ==> p(s[k])
    ensures j > 0 ==> !p(s[j - 1])
  {
    if |s| > 0 && p(s[|s| - 1]) {
      j := RStripSpec(s[..|s| - 1], p);
      assert s[..|s| - 1][..j] == s[..j];
    } else {
      j := |s|;
    }
  }

  lemma StripSpec(s: string, p: char -> bool) returns (i: nat, j: nat)
    ensures TrimmedBy(s, p, i, j) && Strip(s, p) == s[i..j]
  {
    i := LStripSpec(s, p);
    var j' := RStripSpec(s[i..], p);
    j := i + j';
    assert s[i..][..j'] == s[i..j];
  }

  /** The trimmed substring is determined by the trimming conditions. */
  lemma StripUnique(s: string, p: char -> bool, i: nat, j: nat)
    requires TrimmedBy(s, p, i, j)
    ensures Strip(s, p) == s[i..j]
  {
    var i', j' := StripSpec(s, p);
    if i < j {
      assert !p(s[i]) && !p(s[j - 1]);
      assert i' <= i;
      assert i' < j';
      assert i <= i';
      assert j <= j';
      assert j' <= j;
    } else {
      assert forall k :: 0 <= k < |s| ==> p(s[k]);
      assert i' == j';
    }
  }

  /** Stripping a smaller class first changes nothing about a later strip of a larger class. */
  lemma StripCompose(s: string, p: char -> bool, q: char -> bool)
    requires forall c :: p(c) ==> q(c)
    ensures Strip(Strip(s, p), q) == Strip(s, q)
  {
    var i, j := StripSpec(s, p);
    var t := s[i..j];
    var i', j' := StripSpec(t, q);
    assert TrimmedBy(s, q, i + i', i + j') by {
      forall k | 0 <= k < i + i'
        ensures q(s[k])
      {
        if k >= i { assert s[k] == t[k - i]; }
      }
      forall k | i + j' <= k < |s|
        ensures q(s[k])
      {
        if k < j { assert s[k] == t[k - i]; }
      }
      if i' < j' {
        assert s[i + i'] == t[i'] && s[i + j' - 1] == t[j' - 1];
      }
    }
    StripUnique(s, q, i + i', i + j');
    forall k | 0 <= k < j' - i'
      ensures s[i + i'..i + j'][k] == t[i'..j'][k]
    {
      assert t[i' + k] == s[i + i' + k];
    }
    assert s[i + i'..i + j'] == t[i'..j'];
  }

  function DigitChar(d: nat): (c: char)
    requires d < 10
    ensures IsAsciiDigit(c)
  {
    "0123456789"[d]
  }

  function DigitValue(c: char): nat
    requires IsAsciiDigit(c)
  {
    c as int - '0' as int
  }

  /** `str(n)` for a natural number. */
  function NatToString(n: nat): (r: string)
    ensures |r| >= 1 && AllDigits(r)
    decreases n
  {
    if n < 10 then [DigitChar(n)] else NatToString(n / 10) + [DigitChar(n % 10)]
  }

  /** The value of a string of decimal digits (the empty string reads as 0). */
  function DigitsValue(s: string): nat
    requires AllDigits(s)
  {
    if s == [] then 0 else DigitsValue(s[..|s| - 1]) * 10 + DigitValue(s[|s| - 1])
  }

  function Pow10(k: nat): (r: nat)
    ensures r >= 1
  {
    if k == 0 then 1 else 10 * Pow10(k - 1)
  }

  function IndexOf(s: string, c: char): (r: Option<nat>)
    ensures r.Some? ==> r.value < |s| && s[r.value] == c
    ensures r.None? ==> c !in s
    ensures r.Some? ==> c !in s[..r.value]
  {
    if s == [] then None
    else if s[0] == c then Some(0)
    else match IndexOf(s[1..], c)
      case None => None
      case Some(k) => assert s[..k + 1] == [s[0]] + s[1..][..k]; Some(k + 1)
  }

  /** The characters pandas' number parser skips around a number: space, `\t`, `\n`, `\v`, `\f`, `\r`. */
  predicate IsAsciiSpace(c: char) { c == ' ' || '\t' <= c <= '\r' }

  /** Unsigned decimal mantissa: `digits`, `digits.digits`, `digits.` or `.digits`. */
  function ParseUnsigned(s: string): Option<real>
  {
    match IndexOf(s, '.')
    case None =>
      if s != [] && AllDigits(s) then Some(DigitsValue(s) as real) else None
    case Some(d) =>
      var whole, frac := s[..d], s[d + 1..];
      if (whole != [] || frac != []) && AllDigits(whole) && AllDigits(frac) then
        Some(DigitsValue(whole) as real + DigitsValue(frac) as real / Pow10(|frac|) as real)
      else None
  }

  /** Exponent digits after the `e`/`E`, with an optional sign; at least one digit. */
  function ParseExponent(s: string): Option<int>
  {
    if s != [] && (s[0] == '-' || s[0] == '+') then
      var ds := s[1..];
      if ds != [] && AllDigits(ds) then
        Some(if s[0] == '-' then -(DigitsValue(ds) as int) else DigitsValue(ds) as int)
      else None
    else if s != [] && AllDigits(s) then Some(DigitsValue(s) as int)
    else None
  }

  /** `x * 10^e`. */
  function Scale10(x: real, e: int): real
  {
    if e >= 0 then x * Pow10(e) as real else x / Pow10(-e) as real
  }

  /** Unsigned literal: a mantissa, then optionally `e` or `E` and an exponent. */
  function ParseScientific(s: string): Option<real>
  {
    match IndexOf(Lower(s), 'e')
    case None => ParseUnsigned(s)
    case Some(k) =>
      match ParseUnsigned(s[..k])
      case None => None
      case Some(m) =>
        match ParseExponent(s[k + 1..])
        case None => None
        case Some(e) => Some(Scale10(m, e))
  }

  /**
   * The numeric reading of a text cell that `pd.to_numeric` performs: ASCII
   * whitespace around the text is skipped, then an optionally signed decimal
   * literal with an optional exponent must make up the rest; anything else
   * (a blank, a word, a trailing `e`) is not a number.
   */
  function ParseNumber(s: string): Option<real>
  {
    ParseSigned(Strip(s, IsAsciiSpace))
  }

  /** An optionally signed literal, with nothing around it. */
  function ParseSigned(t: string): Option<real>
  {
    if t != [] && t[0] == '-' then
      match ParseScientific(t[1..])
      case None => None
      case Some(x) => Some(-x)
    else if t != [] && t[0] == '+' then ParseScientific(t[1..])
    else ParseScientific(t)
  }

  /** Stripping `p`-characters from a text padded by them gives back the text, if it is not bordered by them itself. */
  lemma StripPadded(pre: string, s: string, post: string, p: char -> bool)
    requires forall k :: 0 <= k < |pre| ==> p(pre[k])
    requires forall k :: 0 <= k < |post| ==> p(post[k])
    requires s != [] ==> !p(s[0]) && !p(s[|s| - 1])
    ensures Strip(pre + s + post, p) == s
  {
    var w := pre + s + post;
    var i, j := |pre|, |pre| + |s|;
    if s == [] {
      i := |w|;
      j := |w|;
      forall k | 0 <= k < |w| ensures p(w[k]) {
        if k < |pre| { assert w[k] == pre[k]; } else { assert w[k] == post[k - |pre|]; }
      }
    } else {
      assert w[i] == s[0] && w[j - 1] == s[|s| - 1];
      forall k | 0 <= k < i ensures p(w[k]) { assert w[k] == pre[k]; }
      forall k | j <= k < |w| ensures p(w[k]) { assert w[k] == post[k - j]; }
    }
    assert TrimmedBy(w, p, i, j);
    StripUnique(w, p, i, j);
    assert w[i..j] == s;
  }

  /** Whitespace around a number does not change its reading. */
  lemma ParseNumberPadded(pre: string, s: string, post: string)
    requires forall k :: 0 <= k < |pre| ==> IsAsciiSpace(pre[k])
    requires forall k :: 0 <= k < |post| ==> IsAsciiSpace(post[k])
    requires s != [] ==> !IsAsciiSpace(s[0]) && !IsAsciiSpace(s[|s| - 1])
    ensures ParseNumber(pre + s + post) == ParseNumber(s)
  {
    StripPadded(pre, s, post, IsAsciiSpace);
    StripPadded([], s, [], IsAsciiSpace);
    assert [] + s + [] == s;
  }

  /** The first occurrence of `c` is at `k` when `s[k]` is `c` and no earlier character is. */
  lemma {:induction false} IndexOfFirst(s: string, c: char, k: nat)
    requires k < |s| && s[k] == c && c !in s[..k]
    ensures IndexOf(s, c) == Some(k)
  {
    if k > 0 {
      assert s[0] in s[..k];
      assert s[1..][..k - 1] == s[..k][1..];
      IndexOfFirst(s[1..], c, k - 1);
    }
  }

  /** A mantissa followed by `e` and exponent digits reads as the mantissa scaled by that power of ten. */
  lemma ParseScientificValue(m: string, x: real, ds: string)
    requires ParseUnsigned(m) == Some(x)
    requires ds != [] && AllDigits(ds)
    ensures ParseScientific(m + "e" + ds) == Some(Scale10(x, DigitsValue(ds)))
  {
    var s := m + "e" + ds;
    MantissaHasNoE(m);
    assert Lower(s)[..|m|] == Lower(m);
    IndexOfFirst(Lower(s), 'e', |m|);
    assert s[..|m|] == m;
    assert s[|m| + 1..] == ds;
    var e := DigitsValue(ds);
    assert ParseExponent(s[|m| + 1..]) == Some(e as int);
  }

  /** A readable mantissa holds only digits and a point, so no `e` or `E`. */
  lemma MantissaHasNoE(m: string)
    requires ParseUnsigned(m).Some?
    ensures 'e' !in Lower(m)
  {
    forall k | 0 <= k < |m|
      ensures Lower(m)[k] != 'e'
    {
      match IndexOf(m, '.')
      case None =>
        assert IsAsciiDigit(m[k]);
      case Some(d) =>
        if k < d { assert m[k] == m[..d][k]; }
        else if k > d { assert m[k] == m[d + 1..][k - d - 1]; }
    }
  }

  lemma {:induction false} DigitsValueOfNatToString(n: nat)
    ensures DigitsValue(NatToString(n)) == n
    decreases n
  {
    var r := NatToString(n);
    if n < 10 {
      assert r[..0] == [];
    } else {
      var pre := NatToString(n / 10);
      assert r == pre + [DigitChar(n % 10)];
      assert r[..|r| - 1] == pre;
      DigitsValueOfNatToString(n / 10);
    }
  }

  /** Rendering a natural and reading it back gives the same number. */
  lemma ParseNatToString(n: nat)
    ensures ParseNumber(NatToString(n)) == Some(n as real)
  {
    var r := NatToString(n);
    DigitsValueOfNatToString(n);
    assert TrimmedBy(r, IsAsciiSpace, 0, |r|);
    StripUnique(r, IsAsciiSpace, 0, |r|);
    assert r[0..|r|] == r;
    assert 'e' !in Lower(r) by {
      forall k | 0 <= k < |r| ensures Lower(r)[k] != 'e' { assert IsAsciiDigit(r[k]); }
    }
    assert !IsAsciiDigit('.');
    assert IsAsciiDigit(r[0]);
  }

  /** Distinct naturals render as distinct strings. */
  lemma NatToStringInjective(a: nat, b: nat)
    requires a != b
    ensures NatToString(a) != NatToString(b)
  {
    DigitsValueOfNatToString(a);
    DigitsValueOfNatToString(b);
  }
}
