/** The few Python string operations the scraper relies on: str.strip(), str.replace(pat, ""),
    str.endswith(), int() on a page label and Decimal() on a price text. */
module Text {
  import opened Wrappers

  /** The characters Python's str.isspace() accepts, which str.strip() removes. */
  predicate IsSpace(c: char) {
    || ('\t' <= c <= '\r')
    || ('\U{1C}' <= c <= ' ')
    || c == '\U{85}' || c == '\U{A0}' || c == '\U{1680}'
    || ('\U{2000}' <= c <= '\U{200A}')
    || c == '\U{2028}' || c == '\U{2029}' || c == '\U{202F}' || c == '\U{205F}' || c == '\U{3000}'
  }

  /** The text is empty or white space only, so stripping it leaves nothing. */
  predicate IsBlank(s: string) {
    forall k :: 0 <= k < |s| ==> IsSpace(s[k])
  }

  /** str.strip(): the text without its leading and trailing white space. */
  function Strip(s: string): (r: string)
    ensures |r| <= |s|
    ensures r != [] ==> !IsSpace(r[0]) && !IsSpace(r[|r| - 1])
  {
    if s != [] && IsSpace(s[0]) then Strip(s[1..])
    else if s != [] && IsSpace(s[|s| - 1]) then Strip(s[..|s| - 1])
    else s
  }

  /** Stripping adds no character. */
  lemma {:induction false} StripKeepsChars(s: string)
    ensures forall k :: 0 <= k < |Strip(s)| ==> Strip(s)[k] in s
  {
    var r := Strip(s);
    if s != [] && IsSpace(s[0]) {
      StripKeepsChars(s[1..]);
      forall k | 0 <= k < |r| ensures r[k] in s {
        assert r[k] in s[1..];
      }
    } else if s != [] && IsSpace(s[|s| - 1]) {
      StripKeepsChars(s[..|s| - 1]);
      forall k | 0 <= k < |r| ensures r[k] in s {
        assert r[k] in s[..|s| - 1];
      }
    }
  }

  /** Stripping leaves nothing exactly when the text is blank. */
  lemma {:induction false} StripEmptyIffBlank(s: string)
    ensures Strip(s) == [] <==> IsBlank(s)
  {
    if s != [] && IsSpace(s[0]) {
      StripEmptyIffBlank(s[1..]);
      assert IsBlank(s) <==> IsBlank(s[1..]) by {
        if IsBlank(s[1..]) {
          forall k | 0 <= k < |s| ensures IsSpace(s[k]) {
            if k > 0 { assert s[k] == s[1..][k - 1]; }
          }
        }
      }
    } else if s != [] && IsSpace(s[|s| - 1]) {
      StripEmptyIffBlank(s[..|s| - 1]);
      assert !IsBlank(s) && !IsBlank(s[..|s| - 1]) by {
        assert s[..|s| - 1][0] == s[0];
      }
    } else if s != [] {
      assert !IsSpace(s[0]);
    }
  }

  /** A text with no white space at either end is left as it is. */
  lemma StripUntrimmed(s: string)
    requires s == [] || (!IsSpace(s[0]) && !IsSpace(s[|s| - 1]))
    ensures Strip(s) == s
  {
  }

  predicate EndsWith(s: string, suffix: string) {
    |suffix| <= |s| && s[|s| - |suffix|..] == suffix
  }

  /** s.replace(pat, ""): the non-overlapping occurrences of `pat`, found left to right, removed. */
  function RemoveAll(s: string, pat: string): (r: string)
    requires pat != []
    ensures |r| <= |s|
    decreases |s|
  {
    if |s| >= |pat| && s[..|pat|] == pat then RemoveAll(s[|pat|..], pat)
    else if s == [] then []
    else [s[0]] + RemoveAll(s[1..], pat)
  }

  /** Removal adds no character. */
  lemma {:induction false} RemoveAllKeepsChars(s: string, pat: string)
    requires pat != []
    ensures forall k :: 0 <= k < |RemoveAll(s, pat)| ==> RemoveAll(s, pat)[k] in s
    decreases |s|
  {
    var r := RemoveAll(s, pat);
    if |s| >= |pat| && s[..|pat|] == pat {
      RemoveAllKeepsChars(s[|pat|..], pat);
      assert r == RemoveAll(s[|pat|..], pat);
      forall k | 0 <= k < |r| ensures r[k] in s {
        assert r[k] in s[|pat|..];
      }
    } else if s != [] {
      RemoveAllKeepsChars(s[1..], pat);
      var t := RemoveAll(s[1..], pat);
      assert r == [s[0]] + t;
      forall k | 0 <= k < |r| ensures r[k] in s {
        if k > 0 {
          assert r[k] == t[k - 1];
          assert r[k] in s[1..];
        }
      }
    }
  }

  /** Removing a one-character pattern leaves no occurrence of it. */
  lemma {:induction false} RemoveAllSingle(s: string, c: char)
    ensures c !in RemoveAll(s, [c])
    decreases |s|
  {
    if s != [] {
      RemoveAllSingle(s[1..], c);
    }
  }

  /** A text that does not contain the pattern's first character is left as it is. */
  lemma {:induction false} RemoveAllAbsent(s: string, pat: string)
    requires pat != [] && pat[0] !in s
    ensures RemoveAll(s, pat) == s
    decreases |s|
  {
    if s != [] {
      assert s[0] != pat[0];
      RemoveAllAbsent(s[1..], pat);
    }
  }

  /** Removal works piecewise when no occurrence can straddle the seam: always for a
      one-character pattern, and whenever the first piece lacks the pattern's first character. */
  lemma {:induction false} RemoveAllConcat(a: string, b: string, pat: string)
    requires pat != []
    requires |pat| == 1 || pat[0] !in a
    ensures RemoveAll(a + b, pat) == RemoveAll(a, pat) + RemoveAll(b, pat)
    decreases |a|
  {
    if a == [] {
      assert a + b == b;
    } else if a[0] == pat[0] {
      assert |pat| == 1;
      assert (a + b)[..1] == pat && a[..1] == pat;
      assert (a + b)[1..] == a[1..] + b;
      RemoveAllConcat(a[1..], b, pat);
    } else {
      assert (a + b)[1..] == a[1..] + b;
      assert (a + b)[0] == a[0];
      RemoveAllConcat(a[1..], b, pat);
    }
  }

  predicate IsDigit(c: char) {
    '0' <= c <= '9'
  }

  predicate AllDigits(s: string) {
    forall k :: 0 <= k < |s| ==> IsDigit(s[k])
  }

  /** The number a string of decimal digits denotes (0 for the empty string). */
  function DigitsValue(s: string): nat
    requires AllDigits(s)
  {
    if s == [] then 0 else DigitsValue(s[..|s| - 1]) * 10 + (s[|s| - 1] as int - '0' as int)
  }

  function DigitChar(d: nat): (c: char)
    requires d < 10
    ensures IsDigit(c) && c as int - '0' as int == d
  {
    ('0' as int + d) as char
  }

  /** str(n) for a natural number: its decimal digits without leading zeros. */
  function NatToString(n: nat): (s: string)
    ensures s != [] && AllDigits(s)
    ensures s[0] == '0' ==> n == 0
  {
    if n < 10 then [DigitChar(n)] else NatToString(n / 10) + [DigitChar(n % 10)]
  }

  /** Reading the digits of str(n) back gives n. */
  lemma {:induction false} NatToStringValue(n: nat)
    ensures DigitsValue(NatToString(n)) == n
  {
    var s := NatToString(n);
    if n >= 10 {
      NatToStringValue(n / 10);
      assert s[..|s| - 1] == NatToString(n / 10);
    }
  }

  /** The longest run of digits the text starts with. */
  function LeadingDigits(s: string): (d: string)
    ensures |d| <= |s| && AllDigits(d)
  {
    if s != [] && IsDigit(s[0]) then [s[0]] + LeadingDigits(s[1..]) else []
  }

  /** Digits followed by something that is not a digit can be read back off the front. */
  lemma {:induction false} LeadingDigitsOf(d: string, rest: string)
    requires AllDigits(d) && rest != [] && !IsDigit(rest[0])
    ensures LeadingDigits(d + rest) == d
  {
    if d == [] {
      assert d + rest == rest;
    } else {
      assert (d + rest)[0] == d[0];
      assert (d + rest)[1..] == d[1..] + rest;
      LeadingDigitsOf(d[1..], rest);
      assert [d[0]] + d[1..] == d;
    }
  }

  /** The most decimal digits int() converts; a longer text raises ValueError (CPython's default
      sys.int_info.default_max_str_digits). */
  const MaxIntDigits: nat := 4300

  /** int(s) on an already stripped label: an optional sign and one to MaxIntDigits decimal digits. */
  function ParseInt(s: string): Option<int> {
    if |s| > 0 && (s[0] == '+' || s[0] == '-') then
      var ds := s[1..];
      if ds != [] && |ds| <= MaxIntDigits && AllDigits(ds) then
        var v: int := DigitsValue(ds);
        Some(if s[0] == '-' then -v else v)
      else None
    else if s != [] && |s| <= MaxIntDigits && AllDigits(s) then Some(DigitsValue(s))
    else None
  }

  /** int(str(n)) == n for every n whose decimal text is within the digit limit. */
  lemma ParseIntOfNatToString(n: nat)
    requires |NatToString(n)| <= MaxIntDigits
    ensures ParseInt(NatToString(n)) == Some(n)
  {
    NatToStringValue(n);
  }

  /** A run of digits is read exactly when it is within the limit; past it, no sign helps. */
  lemma ParseIntDigitLimit(s: string)
    requires s != [] && AllDigits(s)
    ensures ParseInt(s).Some? <==> |s| <= MaxIntDigits
    ensures ParseInt("+" + s).Some? <==> |s| <= MaxIntDigits
    ensures ParseInt("-" + s).Some? <==> |s| <= MaxIntDigits
  {
    assert ("+" + s)[1..] == s;
    assert ("-" + s)[1..] == s;
  }

  /** Distinct numbers print differently. */
  lemma NatToStringInjective(m: nat, n: nat)
    requires NatToString(m) == NatToString(n)
    ensures m == n
  {
    NatToStringValue(m);
    NatToStringValue(n);
  }

  function Pow10(n: nat): (r: nat)
    ensures r >= 1
  {
    if n == 0 then 1 else 10 * Pow10(n - 1)
  }

  function Pow2(n: nat): (r: nat)
    ensures r >= 1
  {
    if n == 0 then 1 else 2 * Pow2(n - 1)
  }

  /** The index of the first `c` in `s`, or |s| when there is none. */
  function IndexOf(s: string, c: char): (i: nat)
    ensures i <= |s|
    ensures i < |s| ==> s[i] == c
  {
    if s == [] || s[0] == c then 0 else 1 + IndexOf(s[1..], c)
  }

  /** Without a `c` the search runs to the end. */
  lemma {:induction false} IndexOfAbsent(s: string, c: char)
    requires c !in s
    ensures IndexOf(s, c) == |s|
  {
    if s != [] {
      IndexOfAbsent(s[1..], c);
    }
  }

  /** Decimal(s) without a sign: digits, optionally a point and more digits, at least one digit in all. */
  function ParseUnsignedDecimal(s: string): Option<real> {
    var dot := IndexOf(s, '.');
    var whole := s[..dot];
    var frac := if dot < |s| then s[dot + 1..] else [];
    if AllDigits(whole) && AllDigits(frac) && |whole| + |frac| > 0 then
      Some(DigitsValue(whole) as real + DigitsValue(frac) as real / Pow10(|frac|) as real)
    else None
  }

  /** Decimal(s): an exact decimal number with an optional sign. */
  function ParseDecimal(s: string): Option<real> {
    if |s| > 0 && s[0] == '-' then
      match ParseUnsignedDecimal(s[1..])
      case Some(v) => Some(-v)
      case None => None
    else if |s| > 0 && s[0] == '+' then ParseUnsignedDecimal(s[1..])
    else ParseUnsignedDecimal(s)
  }

  /** Decimal() of a plain run of digits is the number they denote. */
  lemma ParseDecimalOfDigits(s: string)
    requires s != [] && AllDigits(s)
    ensures ParseDecimal(s) == Some(DigitsValue(s) as real)
  {
    forall k | 0 <= k < |s| ensures s[k] != '.' {
      assert IsDigit(s[k]);
    }
    IndexOfAbsent(s, '.');
    assert s[..|s|] == s;
    assert IsDigit(s[0]);
  }

  /** Decimal(str(n)) == n. */
  lemma ParseDecimalOfNatToString(n: nat)
    ensures ParseDecimal(NatToString(n)) == Some(n as real)
  {
    NatToStringValue(n);
    ParseDecimalOfDigits(NatToString(n));
  }
}
