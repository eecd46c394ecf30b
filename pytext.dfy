/** The Python string primitives the checker relies on: `str.isspace`,
    `str.strip`, `str.startswith`,
    `str.replace(pat, '')` and `str(int)`. Strings are sequences of code points. */
module PyText {

  /** True of exactly the characters for which Python's `str.isspace()` holds. */
  predicate IsSpace(c: char)
  {
    || c == ' '
    || '\t' <= c <= '\r'
    || '\U{1c}' <= c <= '\U{1f}'
    || c == '\U{85}' || c == '\U{a0}' || c == '\U{1680}'
    || '\U{2000}' <= c <= '\U{200a}'
    || c == '\U{2028}' || c == '\U{2029}' || c == '\U{202f}' || c == '\U{205f}' || c == '\U{3000}'
  }

  /** Every character of `s` is whitespace. */
  predicate AllSpace(s: string)
  {
    forall k :: 0 <= k < |s| ==> IsSpace(s[k])
  }

  /** `s.lstrip()`: leading whitespace removed. */
  function TrimStart(s: string): (r: string)
    ensures |r| <= |s|
  {
    if s != [] && IsSpace(s[0]) then TrimStart(s[1..]) else s
  }

  /** `lstrip()` keeps a suffix that does not start with whitespace, and drops only whitespace. */
  lemma {:induction false} TrimStartSuffix(s: string)
    ensures var r := TrimStart(s);
      && r == s[|s| - |r|..]
      && AllSpace(s[..|s| - |r|])
      && (r == [] || !IsSpace(r[0]))
  {
    if s != [] && IsSpace(s[0]) {
      TrimStartSuffix(s[1..]);
      var r := TrimStart(s[1..]);
      assert s[1..][|s| - 1 - |r|..] == s[|s| - |r|..];
      assert s[..|s| - |r|] == [s[0]] + s[1..][..|s| - 1 - |r|];
    }
  }

  /** `s.rstrip()`: trailing whitespace removed. */
  function TrimEnd(s: string): (r: string)
    ensures |r| <= |s|
  {
    if s != [] && IsSpace(s[|s| - 1]) then TrimEnd(s[..|s| - 1]) else s
  }

  /** `rstrip()` keeps a prefix that does not end in whitespace, and drops only whitespace. */
  lemma {:induction false} TrimEndPrefix(s: string)
    ensures var r := TrimEnd(s);
      && r == s[..|r|]
      && AllSpace(s[|r|..])
      && (r == [] || !IsSpace(r[|r| - 1]))
  {
    if s != [] && IsSpace(s[|s| - 1]) {
      TrimEndPrefix(s[..|s| - 1]);
      var r := TrimEnd(s[..|s| - 1]);
      assert s[..|s| - 1][..|r|] == s[..|r|];
      assert s[|r|..] == s[..|s| - 1][|r|..] + [s[|s| - 1]];
    }
  }

  /** `s.strip()`: leading and trailing whitespace removed. */
  function Strip(s: string): (r: string)
    ensures |r| <= |s|
  {
    TrimEnd(TrimStart(s))
  }

  /** What `strip()` keeps is one contiguous slice of `s` that neither starts
      nor ends with whitespace, and what it drops on either side is whitespace. */
  lemma StripIsSlice(s: string) returns (i: nat)
    ensures var r := Strip(s);
      && i + |r| <= |s|
      && r == s[i..i + |r|]
      && AllSpace(s[..i])
      && AllSpace(s[i + |r|..])
      && (r == [] || (!IsSpace(r[0]) && !IsSpace(r[|r| - 1])))
  {
    var t := TrimStart(s);
    var r := TrimEnd(t);
    i := |s| - |t|;
    assert Strip(s) == r;
    assert r == s[i..i + |r|] && AllSpace(s[..i]) && AllSpace(s[i + |r|..])
           && (r == [] || (!IsSpace(r[0]) && !IsSpace(r[|r| - 1]))) by {
      TrimStartSuffix(s);
      TrimEndPrefix(t);
      assert s[i + |r|..] == t[|r|..];
      assert r != [] ==> r[0] == t[0];
    }
  }

  /** A string whose ends are not whitespace is left as it is by `strip()`. */
  lemma StripKeepsTrimmed(s: string)
    requires s != [] && !IsSpace(s[0]) && !IsSpace(s[|s| - 1])
    ensures Strip(s) == s
  {
  }

  /** `s.startswith(prefix)`, character by character. */
  predicate StartsWith(s: string, prefix: string)
  {
    prefix == [] || (s != [] && s[0] == prefix[0] && StartsWith(s[1..], prefix[1..]))
  }

  /** `startswith` agrees with Dafny's prefix relation. */
  lemma {:induction false} StartsWithIsPrefix(s: string, prefix: string)
    ensures StartsWith(s, prefix) <==> prefix <= s
  {
    if prefix != [] && s != [] {
      StartsWithIsPrefix(s[1..], prefix[1..]);
      assert prefix <= s <==> s[0] == prefix[0] && prefix[1..] <= s[1..];
    }
  }

  /** `pat in s` for a non-empty pattern: `pat` starts at some position of `s`. */
  predicate Occurs(pat: string, s: string)
  {
    pat <= s || (s != [] && Occurs(pat, s[1..]))
  }

  /** Appending a character that the pattern does not contain creates no occurrence. */
  lemma {:induction false} NoOccurrenceAppend(pat: string, s: string, c: char)
    requires pat != [] && c !in pat && !Occurs(pat, s)
    ensures !Occurs(pat, s + [c])
  {
    if |pat| <= |s| {
      assert (s + [c])[..|pat|] == s[..|pat|];
    } else if |pat| == |s| + 1 {
      assert pat[|s|] != c && (s + [c])[|s|] == c;
    }
    assert !(pat <= s + [c]);
    if s != [] {
      assert (s + [c])[1..] == s[1..] + [c];
      NoOccurrenceAppend(pat, s[1..], c);
    } else {
      assert !Occurs(pat, [c][1..]);
    }
  }

  /** `s.replace(pat, '')`: every occurrence of `pat`, found left to right
      without overlap, is removed. */
  function RemoveAll(s: string, pat: string): (r: string)
    requires pat != []
    ensures |r| <= |s|
    ensures !Occurs(pat, s) ==> r == s
    ensures |pat| == 1 ==> pat[0] !in r
    decreases |s|
  {
    if s == [] then s
    else if pat <= s then
      RemoveAll(s[|pat|..], pat)
    else
      [s[0]] + RemoveAll(s[1..], pat)
  }

  /** Removing the characters `c` from `t + [c]` gives `t` back when `t` has none. */
  lemma {:induction false} RemoveTrailingChar(t: string, c: char)
    requires c !in t
    ensures RemoveAll(t + [c], [c]) == t
  {
    if t == [] {
      assert [c][1..] == [];
    } else {
      assert (t + [c])[0] == t[0] != c;
      assert (t + [c])[1..] == t[1..] + [c];
      RemoveTrailingChar(t[1..], c);
    }
  }

  /** The character of a decimal digit. */
  function DigitChar(d: nat): (c: char)
    requires d < 10
    ensures '0' <= c <= '9' && c as int - '0' as int == d
  {
    (d + '0' as int) as char
  }

  /** The decimal digits of `n`, most significant first, no leading zero. */
  function Digits(n: nat): (r: string)
    ensures r != [] && (forall k :: 0 <= k < |r| ==> '0' <= r[k] <= '9')
    decreases n
  {
    if n < 10 then [DigitChar(n)] else Digits(n / 10) + [DigitChar(n % 10)]
  }

  /** The number a string of decimal digits denotes. */
  function DecimalValue(s: string): nat
    requires forall k :: 0 <= k < |s| ==> '0' <= s[k] <= '9'
  {
    if s == [] then 0 else 10 * DecimalValue(s[..|s| - 1]) + (s[|s| - 1] as int - '0' as int)
  }

  /** Reading the digits back gives the number: `str` of a natural number loses nothing. */
  lemma {:induction false} DigitsRoundTrip(n: nat)
    ensures DecimalValue(Digits(n)) == n
  {
    if n >= 10 {
      var ds := Digits(n / 10) + [DigitChar(n % 10)];
      assert ds[..|ds| - 1] == Digits(n / 10);
      DigitsRoundTrip(n / 10);
    }
  }

  /** `str(n)` for a Python int. */
  function IntText(n: int): (r: string)
    ensures r != [] && forall k :: 0 <= k < |r| ==> r[k] == '-' || '0' <= r[k] <= '9'
  {
    if n < 0 then "-" + Digits(-n) else Digits(n)
  }

  /** Distinct integers print differently. */
  lemma IntTextInjective(m: int, n: int)
    requires IntText(m) == IntText(n)
    ensures m == n
  {
    var tm, tn := IntText(m), IntText(n);
    assert tm[0] == '-' <==> m < 0;
    assert tn[0] == '-' <==> n < 0;
    if m < 0 {
      assert tm[1..] == Digits(-m) && tn[1..] == Digits(-n);
      DigitsRoundTrip(-m);
      DigitsRoundTrip(-n);
    } else {
      assert tm == Digits(m) && tn == Digits(n);
      DigitsRoundTrip(m);
      DigitsRoundTrip(n);
    }
  }
}
