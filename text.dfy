/**
 * Character classes and the handful of Python string operations the scripts
 * rely on: `str.split`, `str.replace`, `pathlib.PurePath.stem`,
 * `os.path.splitext`, string ordering, and decimal digits.
 */
module Text {

  /** Python's `\d` restricted to ASCII: the file names are ASCII. */
  predicate IsDigit(c: char) { '0' <= c <= '9' }

  predicate IsAsciiLetter(c: char) { ('a' <= c <= 'z') || ('A' <= c <= 'Z') }

  /** Python's `\w` restricted to ASCII. */
  predicate IsWordChar(c: char) { IsAsciiLetter(c) || IsDigit(c) || c == '_' }

  /** Python's `\s` for `str` patterns (the characters `str.isspace` accepts). */
  predicate IsSpace(c: char)
  {
    var k := c as int;
    k == 0x20 || (0x09 <= k <= 0x0d) || (0x1c <= k <= 0x1f) || k == 0x85 || k == 0xa0
    || k == 0x1680 || (0x2000 <= k <= 0x200a) || k == 0x2028 || k == 0x2029
    || k == 0x202f || k == 0x205f || k == 0x3000
  }

  /** ASCII lower-casing, the folding `re.IGNORECASE` applies to these patterns' letters. */
  function Lower(c: char): (r: char)
    ensures IsAsciiLetter(c) ==> 'a' <= r <= 'z'
    ensures !('A' <= c <= 'Z') ==> r == c
  {
    if 'A' <= c <= 'Z' then (c as int + 32) as char else c
  }

  predicate EqualIgnoreCase(a: string, b: string)
  {
    |a| == |b| && forall i :: 0 <= i < |a| ==> Lower(a[i]) == Lower(b[i])
  }

  /** Every character of `s` satisfies `p`. */
  predicate All(s: string, p: char -> bool) { forall i :: 0 <= i < |s| ==> p(s[i]) }

  predicate AllDigits(s: string) { All(s, IsDigit) }

  predicate StartsWith(s: string, p: string) { |p| <= |s| && s[..|p|] == p }

  predicate EndsWith(s: string, p: string) { |p| <= |s| && s[|s| - |p|..] == p }

  predicate Contains(s: string, c: char) { exists i :: 0 <= i < |s| && s[i] == c }

  /** Length of the maximal run of characters satisfying `p` that starts at `i`. */
  function RunLength(s: string, i: nat, p: char -> bool): (n: nat)
    requires i <= |s|
    ensures i + n <= |s|
    ensures forall k :: i <= k < i + n ==> p(s[k])
    ensures i + n == |s| || !p(s[i + n])
    decreases |s| - i
  {
    if i == |s| || !p(s[i]) then 0 else 1 + RunLength(s, i + 1, p)
  }

  /** A run of exactly `n` matching characters followed by a non-matching one (or the end) has length `n`. */
  lemma {:induction false} RunLengthOf(s: string, i: nat, n: nat, p: char -> bool)
    requires i + n <= |s|
    requires forall k :: i <= k < i + n ==> p(s[k])
    requires i + n == |s| || !p(s[i + n])
    ensures RunLength(s, i, p) == n
    decreases n
  {
    if n > 0 {
      RunLengthOf(s, i + 1, n - 1, p);
    }
  }

  function Pow10(n: nat): (r: nat)
    ensures r >= 1
  {
    if n == 0 then 1 else 10 * Pow10(n - 1)
  }

  function DigitValue(c: char): (d: nat)
    requires IsDigit(c)
    ensures d <= 9
  {
    c as int - '0' as int
  }

  /** The number a string of decimal digits denotes (`int(s)`). */
  function DigitsValue(s: string): (v: nat)
    requires AllDigits(s)
  {
    if s == [] then 0 else DigitValue(s[0]) * Pow10(|s| - 1) + DigitsValue(s[1..])
  }

  lemma {:induction false} DigitsValueBound(s: string)
    requires AllDigits(s)
    ensures DigitsValue(s) < Pow10(|s|)
  {
    if s != [] {
      DigitsValueBound(s[1..]);
      var d := DigitValue(s[0]);
      var p := Pow10(|s| - 1);
      assert d * p <= 9 * p by { MulLeMono(d, 9, p); }
    }
  }

  lemma {:induction false} Pow10Add(m: nat, n: nat)
    ensures Pow10(m + n) == Pow10(m) * Pow10(n)
  {
    if m > 0 {
      Pow10Add(m - 1, n);
      assert Pow10(m + n) == 10 * Pow10(m - 1 + n);
    }
  }

  /** Appending digits shifts the value left: `int(a + b) == int(a) * 10**len(b) + int(b)`. */
  lemma {:induction false} DigitsValueAppend(a: string, b: string)
    requires AllDigits(a) && AllDigits(b)
    ensures AllDigits(a + b)
    ensures DigitsValue(a + b) == DigitsValue(a) * Pow10(|b|) + DigitsValue(b)
  {
    assert AllDigits(a + b) by {
      forall k | 0 <= k < |a + b| ensures IsDigit((a + b)[k]) {
        if k < |a| { assert (a + b)[k] == a[k]; } else { assert (a + b)[k] == b[k - |a|]; }
      }
    }
    if a == [] {
      assert a + b == b;
    } else {
      var ab := a + b;
      assert ab[0] == a[0] && ab[1..] == a[1..] + b;
      assert AllDigits(a[1..]) by {
        forall k | 0 <= k < |a[1..]| ensures IsDigit(a[1..][k]) { assert a[1..][k] == a[k + 1]; }
      }
      DigitsValueAppend(a[1..], b);
      Pow10Add(|a| - 1, |b|);
      var d := DigitValue(a[0]);
      assert DigitsValue(ab) == d * Pow10(|a| - 1 + |b|) + DigitsValue(a[1..] + b);
      assert DigitsValue(a) == d * Pow10(|a| - 1) + DigitsValue(a[1..]);
      ShiftArith(d, Pow10(|a| - 1), Pow10(|b|), DigitsValue(a[1..]), DigitsValue(b));
    }
  }

  lemma ShiftArith(d: nat, p: nat, q: nat, r: nat, b: nat)
    ensures d * (p * q) + (r * q + b) == (d * p + r) * q + b
  {
    assert d * (p * q) == (d * p) * q;
    assert (d * p + r) * q == (d * p) * q + r * q;
  }

  lemma MulLeMono(a: nat, b: nat, p: nat)
    requires a <= b
    ensures a * p <= b * p
  {}

  /** Python's string comparison `a < b`: code-point order, a proper prefix first. */
  predicate LexLess(a: string, b: string)
  {
    if a == [] then b != []
    else if b == [] then false
    else if a[0] != b[0] then a[0] < b[0]
    else LexLess(a[1..], b[1..])
  }

  /** `a <= b` on Python strings. */
  predicate LexLe(a: string, b: string)
  {
    a == b || LexLess(a, b)
  }

  /** String order is a strict total order: exactly one of `a < b`, `a == b`, `b < a`. */
  lemma {:induction false} LexLessTrichotomy(a: string, b: string)
    ensures LexLess(a, b) || a == b || LexLess(b, a)
    ensures !(LexLess(a, b) && LexLess(b, a)) && !LexLess(a, a)
  {
    if a != [] && b != [] {
      LexLessTrichotomy(a[1..], b[1..]);
      if a[0] == b[0] && a[1..] == b[1..] {
        assert a == [a[0]] + a[1..] && b == [b[0]] + b[1..];
      }
    }
    if a != [] {
      LexLessTrichotomy(a[1..], a[1..]);
    }
  }

  lemma {:induction false} LexLessTransitive(a: string, b: string, c: string)
    requires LexLess(a, b) && LexLess(b, c)
    ensures LexLess(a, c)
  {
    if a != [] && a[0] == b[0] && b[0] == c[0] {
      LexLessTransitive(a[1..], b[1..], c[1..]);
    }
  }

  /**
   * On two digit strings of the same length (an 8-digit `YYYYMMDD` date, say)
   * string order is numeric order, so sorting such dates as strings is sorting
   * them chronologically.
   */
  lemma {:induction false} LexLessIsNumericOrder(a: string, b: string)
    requires AllDigits(a) && AllDigits(b) && |a| == |b|
    ensures LexLess(a, b) <==> DigitsValue(a) < DigitsValue(b)
  {
    if a != [] {
      if a[0] == b[0] {
        LexLessIsNumericOrder(a[1..], b[1..]);
        assert LexLess(a, b) == LexLess(a[1..], b[1..]);
      } else if a[0] < b[0] {
        assert LexLess(a, b);
        HeadDigitDecides(a, b);
      } else {
        assert !LexLess(a, b);
        HeadDigitDecides(b, a);
      }
    }
  }

  lemma HeadDigitDecides(a: string, b: string)
    requires AllDigits(a) && AllDigits(b) && |a| == |b| > 0 && a[0] < b[0]
    ensures DigitsValue(a) < DigitsValue(b)
  {
    DigitsValueBound(a[1..]);
    LeadingDigitDecides(DigitValue(a[0]), DigitValue(b[0]), DigitsValue(a[1..]), DigitsValue(b[1..]), Pow10(|a| - 1));
  }

  lemma LeadingDigitDecides(da: nat, db: nat, ra: nat, rb: nat, p: nat)
    requires da < db && ra < p
    ensures da * p + ra < db * p + rb
  {
    MulLeMono(da + 1, db, p);
  }

  /** Decimal rendering of a natural number (`str(n)`). */
  function NatToString(n: nat): (s: string)
    ensures |s| >= 1 && AllDigits(s)
    decreases n
  {
    if n < 10 then [('0' as int + n) as char]
    else NatToString(n / 10) + [('0' as int + n % 10) as char]
  }

  /** `int(str(n)) == n`; in particular different numbers print differently. */
  lemma {:induction false} NatToStringValue(n: nat)
    ensures DigitsValue(NatToString(n)) == n
    decreases n
  {
    if n >= 10 {
      var last := [('0' as int + n % 10) as char];
      NatToStringValue(n / 10);
      DigitsValueAppend(NatToString(n / 10), last);
      assert DigitsValue(last) == n % 10 by {
        assert last[1..] == [];
      }
    }
  }

  /** Python's `s.split(sep)` for a one-character separator. */
  function Split(s: string, sep: char): (parts: seq<string>)
    ensures |parts| >= 1
    ensures forall k :: 0 <= k < |parts| ==> !Contains(parts[k], sep)
    decreases |s|
  {
    if !Contains(s, sep) then [s]
    else
      var i := FirstIndex(s, sep);
      [s[..i]] + Split(s[i + 1..], sep)
  }

  function FirstIndex(s: string, c: char): (i: nat)
    requires Contains(s, c)
    ensures i < |s| && s[i] == c && !Contains(s[..i], c)
  {
    if s[0] == c then 0
    else
      assert Contains(s[1..], c) by {
        var k :| 0 <= k < |s| && s[k] == c;
        assert s[1..][k - 1] == c;
      }
      var j := FirstIndex(s[1..], c);
      var prefix := s[..j + 1];
      assert !Contains(prefix, c) by {
        forall k | 0 <= k < j + 1 ensures prefix[k] != c {
          if k > 0 { assert prefix[k] == s[1..][..j][k - 1]; }
        }
      }
      1 + j
  }

  /** `sep.join(parts)`. */
  function Join(parts: seq<string>, sep: char): string
    requires |parts| >= 1
  {
    if |parts| == 1 then parts[0] else parts[0] + [sep] + Join(parts[1..], sep)
  }

  /** Splitting and joining again gives back the original name. */
  lemma {:induction false} JoinSplit(s: string, sep: char)
    ensures Join(Split(s, sep), sep) == s
    decreases |s|
  {
    if Contains(s, sep) {
      var i := FirstIndex(s, sep);
      JoinSplit(s[i + 1..], sep);
      assert s == s[..i] + [sep] + s[i + 1..];
    }
  }

  /** Joining separator-free parts and splitting again gives back the parts. */
  lemma {:induction false} SplitJoin(parts: seq<string>, sep: char)
    requires |parts| >= 1
    requires forall k :: 0 <= k < |parts| ==> !Contains(parts[k], sep)
    ensures Split(Join(parts, sep), sep) == parts
  {
    if |parts| > 1 {
      var head := parts[0];
      var rest := Join(parts[1..], sep);
      var s := Join(parts, sep);
      assert s == head + [sep] + rest;
      assert s[|head|] == sep;
      assert Contains(s, sep);
      var i := FirstIndex(s, sep);
      assert i == |head|;
      assert s[..i] == head;
      assert s[i + 1..] == rest;
      SplitJoin(parts[1..], sep);
    }
  }

  /** Python's `s.replace(pat, rep)`: leftmost, non-overlapping occurrences. */
  function ReplaceAll(s: string, pat: string, rep: string): string
    requires pat != []
    decreases |s|
  {
    if |s| < |pat| then s
    else if s[..|pat|] == pat then rep + ReplaceAll(s[|pat|..], pat, rep)
    else [s[0]] + ReplaceAll(s[1..], pat, rep)
  }

  /**
   * `name.replace(".csv", rep)` on a dot-free stem replaces exactly the
   * extension: `""` strips it, `"_old.csv"` renames the file.
   */
  lemma {:induction false} ReplaceCsvExtension(stem: string, rep: string)
    requires !Contains(stem, '.')
    ensures ReplaceAll(stem + ".csv", ".csv", rep) == stem + rep
    decreases |stem|
  {
    var s := stem + ".csv";
    if stem == [] {
      assert s[..4] == ".csv";
      assert s[4..] == [];
    } else {
      assert s[0] == stem[0] && stem[0] != '.';
      assert s[..4] != ".csv";
      assert !Contains(stem[1..], '.') by {
        forall k | 0 <= k < |stem[1..]| ensures stem[1..][k] != '.' {
          assert stem[1..][k] == stem[k + 1];
        }
      }
      ReplaceCsvExtension(stem[1..], rep);
      assert s[1..] == stem[1..] + ".csv";
      assert ReplaceAll(s, ".csv", rep) == [s[0]] + ReplaceAll(s[1..], ".csv", rep);
      assert [stem[0]] + (stem[1..] + rep) == stem + rep;
    }
  }

  /** Index of the last occurrence of `c`, if any. */
  function LastIndex(s: string, c: char): (r: int)
    ensures -1 <= r < |s|
    ensures r >= 0 ==> s[r] == c
    ensures forall k :: r < k < |s| ==> s[k] != c
    decreases |s|
  {
    if s == [] then -1
    else if s[|s| - 1] == c then |s| - 1
    else LastIndex(s[..|s| - 1], c)
  }

  /** `pathlib.PurePath(name).stem` for a bare file name. */
  function Stem(name: string): (r: string)
    ensures |r| <= |name| && r == name[..|r|]
    ensures !Contains(name, '.') ==> r == name
  {
    var i := LastIndex(name, '.');
    if 0 < i < |name| - 1 then name[..i] else name
  }

  /** The name of `x.csv` without extension is `x`, whenever `x` is not empty. */
  lemma StemOfCsv(x: string)
    requires x != []
    ensures Stem(x + ".csv") == x
  {
    var name := x + ".csv";
    assert name[|name| - 4] == '.';
    assert forall k :: |name| - 4 < k < |name| ==> name[k] != '.';
  }

  /**
   * `os.path.splitext(name)` for a bare file name: the extension starts at the
   * last dot, unless every character before that dot is itself a dot.
   */
  function SplitExt(name: string): (r: (string, string))
    ensures r.0 + r.1 == name
    ensures r.1 == [] || r.1[0] == '.'
  {
    var i := LastIndex(name, '.');
    if i > 0 && exists j :: 0 <= j < i && name[j] != '.' then (name[..i], name[i..])
    else (name, [])
  }

  /** A `.csv` or `.json` file `x.ext` has base name `x` when `x` holds a non-dot character. */
  lemma SplitExtOfKnownExtension(x: string, ext: string)
    requires ext == ".csv" || ext == ".json"
    requires exists j :: 0 <= j < |x| && x[j] != '.'
    ensures SplitExt(x + ext).0 == x && SplitExt(x + ext).1 == ext
  {
    var name := x + ext;
    assert name[|x|] == '.';
    assert forall k :: |x| < k < |name| ==> name[k] != '.';
    var j :| 0 <= j < |x| && x[j] != '.';
    assert name[j] != '.';
  }
}
