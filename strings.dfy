/**
 * The Python string operations both scripts rely on: `str(int)` and f-string
 * interpolation of integers, a decimal `int(...)`, `str.split`, `str.join`,
 * `str.endswith` and `str.strip`.
 */
module Strings {
  import opened Results

  // ---------------------------------------------------------------- digits

  predicate IsDigit(c: char) { '0' <= c <= '9' }

  predicate AllDigits(s: string) { forall i :: 0 <= i < |s| ==> IsDigit(s[i]) }

  function DigitValue(c: char): (d: nat)
    requires IsDigit(c)
    ensures d < 10
  {
    c as int - '0' as int
  }

  function DigitChar(d: nat): (c: char)
    requires d < 10
    ensures IsDigit(c) && DigitValue(c) == d
  {
    ('0' as int + d) as char
  }

  // ---------------------------------------------------------------- str(int)

  /** Python's `str(n)` for a natural number: decimal digits, no leading zero. */
  function NatToString(n: nat): (s: string)
    ensures |s| > 0 && AllDigits(s)
    ensures (s[0] == '0') == (n == 0)
    ensures s[0] == '0' ==> |s| == 1
    decreases n
  {
    if n < 10 then [DigitChar(n)] else NatToString(n / 10) + [DigitChar(n % 10)]
  }

  /** Python's `str(i)` (and `f"{i}"`) for any integer. */
  function IntToString(i: int): (s: string)
    ensures IsIntLiteral(s)
    ensures i < 0 <==> s[0] == '-'
    ensures 0 <= i ==> AllDigits(s) && (s[0] == '0' ==> |s| == 1)
    ensures i < 0 ==> |s| > 1 && AllDigits(s[1..]) && s[1] != '0'
  {
    if i < 0 then "-" + NatToString(-i) else NatToString(i)
  }

  // ---------------------------------------------------------------- int(str)

  /** The value of a string of decimal digits, most significant first. */
  function DigitsValue(s: string): nat
    requires AllDigits(s)
    decreases |s|
  {
    if s == [] then 0 else DigitsValue(s[..|s| - 1]) * 10 + DigitValue(s[|s| - 1])
  }

  /** An optional sign followed by one or more decimal digits. */
  predicate IsIntLiteral(s: string)
  {
    if |s| > 0 && (s[0] == '-' || s[0] == '+') then |s| > 1 && AllDigits(s[1..])
    else |s| > 0 && AllDigits(s)
  }

  /** Python's `int(s)` on a decimal literal; `None` where Python raises `ValueError`. */
  function ParseInt(s: string): (r: Option<int>)
    ensures r.Some? <==> IsIntLiteral(s)
    ensures r.Some? && s[0] == '-' ==> r.value <= 0
    ensures r.Some? && s[0] != '-' ==> r.value >= 0
  {
    if !IsIntLiteral(s) then None
    else if s[0] == '-' then Some(0 - DigitsValue(s[1..]) as int)
    else if s[0] == '+' then Some(DigitsValue(s[1..]))
    else Some(DigitsValue(s))
  }

  lemma {:induction false} DigitsValueOfNatToString(n: nat)
    ensures DigitsValue(NatToString(n)) == n
    decreases n
  {
    var s := NatToString(n);
    if n < 10 {
      assert s[..|s| - 1] == [];
    } else {
      var prefix := NatToString(n / 10);
      assert s == prefix + [DigitChar(n % 10)];
      assert s[..|s| - 1] == prefix;
      DigitsValueOfNatToString(n / 10);
    }
  }

  /** `int(str(i)) == i` for every integer. */
  lemma ParseIntOfIntToString(i: int)
    ensures ParseInt(IntToString(i)) == Some(i)
  {
    var s := IntToString(i);
    if i < 0 {
      assert s[1..] == NatToString(-i);
      DigitsValueOfNatToString(-i);
    } else {
      DigitsValueOfNatToString(i);
    }
  }

  /** A leading zero does not change the value of a digit string. */
  lemma {:induction false} DigitsValueLeadingZero(d: string)
    requires AllDigits(d)
    ensures AllDigits("0" + d) && DigitsValue("0" + d) == DigitsValue(d)
    decreases |d|
  {
    if d != [] {
      var z := "0" + d;
      assert z[..|z| - 1] == "0" + d[..|d| - 1];
      DigitsValueLeadingZero(d[..|d| - 1]);
    }
  }

  /** `int("0" + d) == int(d)`: leading zeros are accepted and ignored. */
  lemma ParseIntLeadingZero(d: string)
    requires |d| > 0 && AllDigits(d)
    ensures ParseInt(d).Some? && ParseInt("0" + d) == ParseInt(d)
  {
    DigitsValueLeadingZero(d);
  }

  /** `int("+" + d) == int(d)`: a plus sign is accepted and ignored. */
  lemma ParseIntPlusSign(d: string)
    requires |d| > 0 && AllDigits(d)
    ensures ParseInt(d).Some? && ParseInt("+" + d) == ParseInt(d)
  {
    assert ("+" + d)[1..] == d;
  }

  /** `int("-" + d) == -int(d)`. */
  lemma ParseIntMinusSign(d: string)
    requires |d| > 0 && AllDigits(d)
    ensures ParseInt(d).Some? && ParseInt("-" + d) == Some(-ParseInt(d).value)
  {
    assert ("-" + d)[1..] == d;
  }

  /** Distinct integers print differently. */
  lemma IntToStringInjective(i: int, j: int)
    requires IntToString(i) == IntToString(j)
    ensures i == j
  {
    ParseIntOfIntToString(i);
    ParseIntOfIntToString(j);
  }

  // ---------------------------------------------------------------- split / join

  function Count(s: string, c: char): nat
    decreases |s|
  {
    if s == [] then 0 else (if s[0] == c then 1 else 0) + Count(s[1..], c)
  }

  /** Python's `s.split(sep)` for a one-character separator. */
  function Split(s: string, sep: char): (parts: seq<string>)
    ensures |parts| == Count(s, sep) + 1
    ensures forall i :: 0 <= i < |parts| ==> sep !in parts[i]
    decreases |s|
  {
    if s == [] then [""]
    else
      var rest := Split(s[1..], sep);
      if s[0] == sep then [""] + rest
      else [[s[0]] + rest[0]] + rest[1..]
  }

  /** Python's `sep.join(parts)`. */
  function Join(parts: seq<string>, sep: string): string
    decreases |parts|
  {
    if parts == [] then ""
    else if |parts| == 1 then parts[0]
    else parts[0] + sep + Join(parts[1..], sep)
  }

  /** Joining what `split` produced gives back the original string. */
  lemma {:induction false} JoinSplit(s: string, sep: char)
    ensures Join(Split(s, sep), [sep]) == s
    decreases |s|
  {
    if s != [] {
      var rest := Split(s[1..], sep);
      JoinSplit(s[1..], sep);
      if s[0] == sep {
        assert Split(s, sep) == [""] + rest;
        assert ([""] + rest)[1..] == rest;
      } else {
        var parts := [[s[0]] + rest[0]] + rest[1..];
        assert Split(s, sep) == parts;
        if |rest| == 1 {
          assert Join(rest, [sep]) == rest[0];
        } else {
          assert parts[1..] == rest[1..];
          assert Join(rest, [sep]) == rest[0] + [sep] + Join(rest[1..], [sep]);
        }
      }
    }
  }

  /** A string without the separator splits into itself alone. */
  lemma {:induction false} SplitWithoutSeparator(s: string, sep: char)
    requires sep !in s
    ensures Split(s, sep) == [s]
    decreases |s|
  {
    if s != [] {
      assert sep !in s[1..];
      SplitWithoutSeparator(s[1..], sep);
      assert [s[0]] + s[1..] == s;
    }
  }

  /** Splitting at the first separator peels off the text before it. */
  lemma {:induction false} SplitAtFirstSeparator(a: string, sep: char, b: string)
    requires sep !in a
    ensures Split(a + [sep] + b, sep) == [a] + Split(b, sep)
    decreases |a|
  {
    var s := a + [sep] + b;
    if a == [] {
      assert s[1..] == b;
    } else {
      assert s[0] == a[0];
      assert s[1..] == a[1..] + [sep] + b;
      assert sep !in a[1..];
      SplitAtFirstSeparator(a[1..], sep, b);
      assert [a[0]] + a[1..] == a;
    }
  }

  /** Where the `i`-th part starts inside `Join(parts, sep)`. */
  function JoinOffset(parts: seq<string>, sep: string, i: nat): nat
    requires i < |parts|
    decreases i
  {
    if i == 0 then 0 else |parts[0]| + |sep| + JoinOffset(parts[1..], sep, i - 1)
  }

  /** `t` occurs in `s` starting at index `o`. */
  predicate OccursAt(s: string, t: string, o: int)
  {
    0 <= o && o + |t| <= |s| && s[o..o + |t|] == t
  }

  /** An occurrence in `s` is an occurrence in `p + s`, shifted by `|p|`. */
  lemma OccursAtAfterPrefix(p: string, s: string, t: string, o: int)
    requires OccursAt(s, t, o)
    ensures OccursAt(p + s, t, |p| + o)
  {
    assert (p + s)[|p| + o..|p| + o + |t|] == s[o..o + |t|];
  }

  /** `t` occurs somewhere in `s`. */
  ghost predicate Contains(s: string, t: string)
  {
    exists o :: OccursAt(s, t, o)
  }

  /** Every part appears verbatim in the joined string, at its offset. */
  lemma {:induction false} JoinContainsPart(parts: seq<string>, sep: string, i: nat)
    requires i < |parts|
    ensures OccursAt(Join(parts, sep), parts[i], JoinOffset(parts, sep, i))
    decreases i
  {
    if |parts| > 1 {
      var head := parts[0] + sep;
      var tail := Join(parts[1..], sep);
      assert Join(parts, sep) == head + tail;
      if i > 0 {
        JoinContainsPart(parts[1..], sep, i - 1);
        var o := JoinOffset(parts[1..], sep, i - 1);
        assert (head + tail)[|head| + o..|head| + o + |parts[i]|] == tail[o..o + |parts[i]|];
      }
    }
  }

  // ---------------------------------------------------------------- endswith

  /** Python's `s.endswith(suffix)`: case-sensitive, character for character. */
  predicate EndsWith(s: string, suffix: string)
  {
    |suffix| <= |s| && s[|s| - |suffix|..] == suffix
  }

  // ---------------------------------------------------------------- strip

  /** The characters for which Python's `str.isspace` holds. */
  const Whitespace: set<char> := {
    '\t', '\n', '\U{0B}', '\U{0C}', '\r', '\U{1C}', '\U{1D}', '\U{1E}', '\U{1F}', ' ',
    '\U{85}', '\U{A0}', '\U{1680}',
    '\U{2000}', '\U{2001}', '\U{2002}', '\U{2003}', '\U{2004}', '\U{2005}',
    '\U{2006}', '\U{2007}', '\U{2008}', '\U{2009}', '\U{200A}',
    '\U{2028}', '\U{2029}', '\U{202F}', '\U{205F}', '\U{3000}'
  }

  predicate IsSpace(c: char) { c in Whitespace }

  /** The index of the first non-whitespace character at or after `i` (or `|s|`). */
  function SkipSpaces(s: string, i: nat): (r: nat)
    requires i <= |s|
    ensures i <= r <= |s|
    ensures forall k :: i <= k < r ==> IsSpace(s[k])
    ensures r < |s| ==> !IsSpace(s[r])
    decreases |s| - i
  {
    if i < |s| && IsSpace(s[i]) then SkipSpaces(s, i + 1) else i
  }

  /** The end of `s[lo..hi]` once its trailing whitespace is dropped. */
  function SkipSpacesBack(s: string, lo: nat, hi: nat): (r: nat)
    requires lo <= hi <= |s|
    ensures lo <= r <= hi
    ensures forall k :: r <= k < hi ==> IsSpace(s[k])
    ensures lo < r ==> !IsSpace(s[r - 1])
    decreases hi
  {
    if lo < hi && IsSpace(s[hi - 1]) then SkipSpacesBack(s, lo, hi - 1) else hi
  }

  /** Python's `s.strip()`: drops leading and trailing whitespace, keeps what lies between. */
  function Strip(s: string): (r: string)
    ensures var lo := SkipSpaces(s, 0);
      && lo + |r| <= |s| && r == s[lo..lo + |r|]
      && (forall k :: 0 <= k < lo ==> IsSpace(s[k]))
      && (forall k :: lo + |r| <= k < |s| ==> IsSpace(s[k]))
    ensures r != [] ==> !IsSpace(r[0]) && !IsSpace(r[|r| - 1])
    ensures r == [] <==> forall k :: 0 <= k < |s| ==> IsSpace(s[k])
  {
    var lo := SkipSpaces(s, 0);
    var hi := SkipSpacesBack(s, lo, |s|);
    // a non-space at `lo` stays inside the result
    assert lo < |s| ==> lo < hi;
    s[lo..hi]
  }
}
