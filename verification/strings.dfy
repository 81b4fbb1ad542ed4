/**
 * The few `System.String` operations the core relies on, with ordinal
 * semantics. A Dafny `string` holds Unicode scalar values; the ordinal
 * comparison is made on their UTF-16 code units, as .NET strings store them.
 */
module Strings {

  predicate StartsWith(s: string, prefix: string) {
    |prefix| <= |s| && s[..|prefix|] == prefix
  }

  /** `s.Contains(sub)`: ordinal substring test; every string contains "". */
  predicate Contains(s: string, sub: string)
    decreases |s|
  {
    StartsWith(s, sub) || (|s| > 0 && Contains(s[1..], sub))
  }

  /** A string shorter than `sub` cannot contain it. */
  lemma {:induction false} ShorterDoesNotContain(s: string, sub: string)
    requires |s| < |sub|
    ensures !Contains(s, sub)
    decreases |s|
  {
    if |s| > 0 {
      ShorterDoesNotContain(s[1..], sub);
    }
  }

  /** A string that lacks one of the characters of `sub` does not contain `sub`. */
  lemma {:induction false} MissingCharDoesNotContain(s: string, sub: string, k: nat)
    requires k < |sub| && sub[k] !in s
    ensures !Contains(s, sub)
    decreases |s|
  {
    if |s| > 0 {
      MissingCharDoesNotContain(s[1..], sub, k);
    }
  }

  /**
   * An occurrence of `sub` in `pre + s` lies inside `s` when it does not start
   * `pre + s` and the first character of `sub` occurs nowhere else in `pre`.
   */
  lemma {:induction false} ContainsPastPrefix(pre: string, s: string, sub: string)
    requires |sub| > 0 && |pre| > 0 && sub[0] !in pre[1..]
    requires !StartsWith(pre + s, sub)
    requires Contains(pre + s, sub)
    ensures Contains(s, sub)
    decreases |pre|
  {
    assert (pre + s)[1..] == pre[1..] + s;
    if |pre| > 1 {
      assert (pre[1..] + s)[0] == pre[1..][0];
      ContainsPastPrefix(pre[1..], s, sub);
    } else {
      assert pre[1..] + s == s;
    }
  }

  /**
   * `s.Replace(sub, string.Empty)`: scans left to right and drops every
   * non-overlapping occurrence of `sub` (.NET refuses an empty `sub`).
   */
  function RemoveAll(s: string, sub: string): (r: string)
    requires |sub| > 0
    ensures |r| <= |s|
    ensures !Contains(s, sub) ==> r == s
    ensures Contains(s, sub) ==> |r| <= |s| - |sub|
    decreases |s|
  {
    if |s| == 0 then []
    else if StartsWith(s, sub) then RemoveAll(s[|sub|..], sub)
    else [s[0]] + RemoveAll(s[1..], sub)
  }

  /** A leading occurrence is removed and the scan resumes right after it. */
  lemma RemoveAllLeading(sub: string, rest: string)
    requires |sub| > 0
    ensures RemoveAll(sub + rest, sub) == RemoveAll(rest, sub)
  {
    assert (sub + rest)[..|sub|] == sub;
    assert (sub + rest)[|sub|..] == rest;
  }

  /** The UTF-16 code units of one scalar value: itself below U+10000, otherwise a surrogate pair. */
  function CodeUnits(c: char): (u: seq<int>)
    ensures 1 <= |u| <= 2
    ensures |u| == 1 <==> (c as int) < 0x1_0000
    ensures forall k :: 0 <= k < |u| ==> 0 <= u[k] < 0x1_0000
  {
    var v := c as int;
    if v < 0x1_0000 then [v]
    else [0xD800 + (v - 0x1_0000) / 0x400, 0xDC00 + (v - 0x1_0000) % 0x400]
  }

  /** The UTF-16 encoding of a string: its characters' code units, in order. */
  function Utf16(s: string): (u: seq<int>)
    ensures |u| >= |s|
    decreases |s|
  {
    if |s| == 0 then [] else CodeUnits(s[0]) + Utf16(s[1..])
  }

  /**
   * Lexicographic order on code-unit sequences, a proper prefix sorting
   * first: the sign of the ordinal comparison.
   */
  function CompareUnits(a: seq<int>, b: seq<int>): (c: int)
    ensures -1 <= c <= 1
    decreases |a|
  {
    if |a| == 0 && |b| == 0 then 0
    else if |a| == 0 then -1
    else if |b| == 0 then 1
    else if a[0] < b[0] then -1
    else if a[0] > b[0] then 1
    else CompareUnits(a[1..], b[1..])
  }

  /**
   * Sign of `string.Compare(a, b, StringComparison.Ordinal)`: the order of
   * the two UTF-16 encodings, so a character above U+FFFF, whose first unit
   * is a high surrogate, sorts before one in U+E000..U+FFFF.
   */
  function Compare(a: string, b: string): (c: int)
    ensures -1 <= c <= 1
  {
    CompareUnits(Utf16(a), Utf16(b))
  }

  lemma {:induction false} CompareUnitsZeroIffEqual(a: seq<int>, b: seq<int>)
    ensures CompareUnits(a, b) == 0 <==> a == b
    decreases |a|
  {
    if |a| > 0 && |b| > 0 && a[0] == b[0] {
      CompareUnitsZeroIffEqual(a[1..], b[1..]);
      if a[1..] == b[1..] {
        assert a == [a[0]] + a[1..];
        assert b == [b[0]] + b[1..];
      }
    }
  }

  /** The first units of an encoding tell how many units its first character takes, and which character it is. */
  lemma CodeUnitsPrefixFree(c: char, d: char, x: seq<int>, y: seq<int>)
    requires CodeUnits(c) + x == CodeUnits(d) + y
    ensures c == d && x == y
  {
    var u, w := CodeUnits(c), CodeUnits(d);
    assert (u + x)[0] == u[0] && (w + y)[0] == w[0];
    if |u| == 1 && |w| == 1 {
      assert x == (u + x)[1..] && y == (w + y)[1..];
    } else if |u| == 2 && |w| == 2 {
      assert (u + x)[1] == u[1] && (w + y)[1] == w[1];
      assert x == (u + x)[2..] && y == (w + y)[2..];
    } else {
      assert false;
    }
  }

  /** Distinct strings have distinct encodings. */
  lemma {:induction false} Utf16Injective(a: string, b: string)
    requires Utf16(a) == Utf16(b)
    ensures a == b
    decreases |a|
  {
    if |a| > 0 && |b| > 0 {
      CodeUnitsPrefixFree(a[0], b[0], Utf16(a[1..]), Utf16(b[1..]));
      Utf16Injective(a[1..], b[1..]);
      assert a == [a[0]] + a[1..];
      assert b == [b[0]] + b[1..];
    }
  }

  lemma CompareZeroIffEqual(a: string, b: string)
    ensures Compare(a, b) == 0 <==> a == b
  {
    CompareUnitsZeroIffEqual(Utf16(a), Utf16(b));
    if Utf16(a) == Utf16(b) {
      Utf16Injective(a, b);
    }
  }

  lemma {:induction false} CompareUnitsAntisymmetric(a: seq<int>, b: seq<int>)
    ensures CompareUnits(b, a) == -CompareUnits(a, b)
    decreases |a|
  {
    if |a| > 0 && |b| > 0 && a[0] == b[0] {
      CompareUnitsAntisymmetric(a[1..], b[1..]);
    }
  }

  lemma CompareAntisymmetric(a: string, b: string)
    ensures Compare(b, a) == -Compare(a, b)
  {
    CompareUnitsAntisymmetric(Utf16(a), Utf16(b));
  }

  lemma {:induction false} CompareUnitsTransitive(a: seq<int>, b: seq<int>, c: seq<int>)
    requires CompareUnits(a, b) <= 0 && CompareUnits(b, c) <= 0
    ensures CompareUnits(a, c) <= 0
    decreases |a|
  {
    if |a| > 0 && |b| > 0 && |c| > 0 && a[0] == b[0] && b[0] == c[0] {
      CompareUnitsTransitive(a[1..], b[1..], c[1..]);
    }
  }

  lemma CompareTransitive(a: string, b: string, c: string)
    requires Compare(a, b) <= 0 && Compare(b, c) <= 0
    ensures Compare(a, c) <= 0
  {
    CompareUnitsTransitive(Utf16(a), Utf16(b), Utf16(c));
  }

  /** U+E000 sorts after U+1F600: the high surrogate 0xD83D is below 0xE000. */
  lemma SupplementaryBeforePrivateUse()
    ensures Compare("\U{E000}", "\U{1F600}") == 1
  {
    assert Utf16("\U{E000}") == [0xE000];
    assert Utf16("\U{1F600}") == [0xD83D, 0xDE00];
  }

  /** Strict version of transitivity, for strictly ascending sequences. */
  lemma {:induction false} CompareStrictTransitive(a: string, b: string, c: string)
    requires Compare(a, b) < 0 && Compare(b, c) < 0
    ensures Compare(a, c) < 0
  {
    CompareTransitive(a, b, c);
    CompareZeroIffEqual(a, c);
    if a == c {
      CompareAntisymmetric(a, b);
    }
  }

  /** Sign of `long.CompareTo`. */
  function IntCompare(x: int, y: int): (c: int)
    ensures c < 0 <==> x < y
    ensures c == 0 <==> x == y
    ensures c > 0 <==> x > y
  {
    if x < y then -1 else if x > y then 1 else 0
  }

  function DigitChar(d: nat): char
    requires d < 10
  {
    (48 + d) as char
  }

  /** `int.ToString()` of a non-negative value: decimal digits, no leading zeros. */
  function NatToString(n: nat): (r: string)
    ensures |r| >= 1
    ensures n >= 10 ==> |r| >= 2
    decreases n
  {
    if n < 10 then [DigitChar(n)]
    else NatToString(n / 10) + [DigitChar(n % 10)]
  }

  /** Different numbers print differently, so `key_i` names are pairwise distinct. */
  lemma {:induction false} NatToStringInjective(m: nat, n: nat)
    requires NatToString(m) == NatToString(n)
    ensures m == n
    decreases n
  {
    var sm, sn := NatToString(m), NatToString(n);
    if m < 10 && n < 10 {
      assert sm[0] == sn[0];
    } else if m >= 10 && n >= 10 {
      assert sm[|sm| - 1] == DigitChar(m % 10);
      assert sn[|sn| - 1] == DigitChar(n % 10);
      assert sm[..|sm| - 1] == NatToString(m / 10);
      assert sn[..|sn| - 1] == NatToString(n / 10);
      NatToStringInjective(m / 10, n / 10);
    }
  }
}
