/**
 * The Python string operations the diary backend relies on: `strip()`, `startswith`,
 * `in`, `lower()`, `replace(p, "")`, slicing `s[:n]`, `split`, `join`, `int()` on
 * digit strings, zero-padded formatting, and the code-point-wise order in which
 * Python and Firestore compare strings.
 */
module Strings {

  /** Python's `str.isspace()`: the characters `str.strip()` removes. */
  predicate IsSpace(c: char)
  {
    || ('\U{9}' <= c <= '\U{D}') || ('\U{1C}' <= c <= '\U{20}')
    || c == '\U{85}' || c == '\U{A0}' || c == '\U{1680}'
    || ('\U{2000}' <= c <= '\U{200A}') || c == '\U{2028}' || c == '\U{2029}'
    || c == '\U{202F}' || c == '\U{205F}' || c == '\U{3000}'
  }

  /** `s.lstrip()` */
  function TrimStart(s: string): (r: string)
    ensures |r| <= |s| && r == s[|s| - |r|..]
    ensures forall i :: 0 <= i < |s| - |r| ==> IsSpace(s[i])
    ensures r != [] ==> !IsSpace(r[0])
    decreases |s|
  {
    if s != [] && IsSpace(s[0]) then TrimStart(s[1..]) else s
  }

  /** `s.rstrip()` */
  function TrimEnd(s: string): (r: string)
    ensures |r| <= |s| && r == s[..|r|]
    ensures forall i :: |r| <= i < |s| ==> IsSpace(s[i])
    ensures r != [] ==> !IsSpace(r[|r| - 1])
    decreases |s|
  {
    if s != [] && IsSpace(s[|s| - 1]) then TrimEnd(s[..|s| - 1]) else s
  }

  /** `s.strip()`: no white space is left at either end, and a string with none there is kept. */
  function Strip(s: string): (r: string)
    ensures |r| <= |s|
    ensures r != [] ==> !IsSpace(r[0]) && !IsSpace(r[|r| - 1])
    ensures r == [] <==> forall i :: 0 <= i < |s| ==> IsSpace(s[i])
    ensures (s == [] || (!IsSpace(s[0]) && !IsSpace(s[|s| - 1]))) ==> r == s
  {
    var t := TrimStart(s);
    assert t != [] ==> t[|t| - 1] == s[|s| - 1];
    TrimEnd(t)
  }

  lemma StripIdempotent(s: string)
    ensures Strip(Strip(s)) == Strip(s)
  {
  }

  /** `s.startswith(p)` */
  predicate StartsWith(s: string, p: string)
  {
    |p| <= |s| && s[..|p|] == p
  }

  lemma StartsWithConcat(p: string, t: string)
    ensures StartsWith(p + t, p)
  {
    assert (p + t)[..|p|] == p;
  }

  /** `p in s` */
  predicate Contains(s: string, p: string)
    decreases |s|
  {
    StartsWith(s, p) || (s != [] && Contains(s[1..], p))
  }

  /** `s.lower()` on ASCII letters; other characters are kept. */
  function Lower(s: string): (r: string)
    ensures |r| == |s|
  {
    seq(|s|, i requires 0 <= i < |s| => if 'A' <= s[i] <= 'Z' then (s[i] as int + 32) as char else s[i])
  }

  /** `s.replace(p, "")`: every non-overlapping occurrence of `p`, scanned left to right, is removed. */
  function RemoveAll(s: string, p: string): (r: string)
    requires p != []
    ensures |r| <= |s|
    ensures !Contains(s, p) ==> r == s
    decreases |s|
  {
    if |s| < |p| then s
    else if s[..|p|] == p then RemoveAll(s[|p|..], p)
    else [s[0]] + RemoveAll(s[1..], p)
  }

  lemma RemoveAllLeading(p: string, t: string)
    requires p != [] && !Contains(t, p)
    ensures RemoveAll(p + t, p) == t
  {
    assert (p + t)[..|p|] == p;
    assert (p + t)[|p|..] == t;
  }

  /** `s[:n]` */
  function Take(s: string, n: nat): (r: string)
    ensures |r| <= n && |r| <= |s| && r == s[..|r|]
    ensures |s| <= n ==> r == s
    ensures |s| > n ==> |r| == n
  {
    if |s| <= n then s else s[..n]
  }

  /** `s.split(c)` for a one-character separator. */
  function Split(s: string, c: char): (r: seq<string>)
    ensures |r| >= 1
    ensures forall i :: 0 <= i < |r| ==> c !in r[i]
    decreases |s|
  {
    if s == [] then [""]
    else
      var rest := Split(s[1..], c);
      if s[0] == c then [""] + rest else [[s[0]] + rest[0]] + rest[1..]
  }

  lemma {:induction false} SplitWithout(s: string, c: char)
    requires c !in s
    ensures Split(s, c) == [s]
    decreases |s|
  {
    if s != [] {
      SplitWithout(s[1..], c);
      assert [s[0]] + s[1..] == s;
    }
  }

  /** The first separator in `a + [c] + b` ends the first part. */
  lemma {:induction false} SplitAround(a: string, c: char, b: string)
    requires c !in a
    ensures Split(a + [c] + b, c) == [a] + Split(b, c)
    decreases |a|
  {
    var s := a + [c] + b;
    if a == [] {
      assert s[1..] == b;
    } else {
      assert s[1..] == a[1..] + [c] + b;
      SplitAround(a[1..], c, b);
      assert [a[0]] + a[1..] == a;
    }
  }

  /** `sep.join(parts)` */
  function Join(parts: seq<string>, sep: string): string
    decreases |parts|
  {
    if |parts| == 0 then ""
    else if |parts| == 1 then parts[0]
    else parts[0] + sep + Join(parts[1..], sep)
  }

  /** Splitting on a character and joining with it again gives the original string. */
  lemma {:induction false} JoinSplit(s: string, c: char)
    ensures Join(Split(s, c), [c]) == s
    decreases |s|
  {
    if s != [] {
      var rest := Split(s[1..], c);
      JoinSplit(s[1..], c);
      if s[0] == c {
        assert Split(s, c) == [""] + rest;
        assert ([""] + rest)[1..] == rest;
      } else {
        var parts := [[s[0]] + rest[0]] + rest[1..];
        assert Split(s, c) == parts;
        if |rest| == 1 {
          assert Join(parts, [c]) == [s[0]] + rest[0];
        } else {
          assert parts[1..] == rest[1..];
          assert Join(rest, [c]) == rest[0] + [c] + Join(rest[1..], [c]);
          assert Join(parts, [c]) == [s[0]] + rest[0] + [c] + Join(rest[1..], [c]);
        }
      }
    }
  }

  // ---- code-point-wise order (Python `<` on str, Firestore string order) ----

  predicate LexLess(a: string, b: string)
    decreases |a|
  {
    if a == [] then b != []
    else b != [] && (if a[0] == b[0] then LexLess(a[1..], b[1..]) else a[0] < b[0])
  }

  predicate LexLe(a: string, b: string)
  {
    a == b || LexLess(a, b)
  }

  lemma {:induction false} LexLessIrreflexive(a: string)
    ensures !LexLess(a, a)
    decreases |a|
  {
    if a != [] {
      LexLessIrreflexive(a[1..]);
    }
  }

  lemma {:induction false} LexLessTransitive(a: string, b: string, c: string)
    requires LexLess(a, b) && LexLess(b, c)
    ensures LexLess(a, c)
    decreases |a|
  {
    if a != [] && a[0] == b[0] && b[0] == c[0] {
      LexLessTransitive(a[1..], b[1..], c[1..]);
    }
  }

  lemma {:induction false} LexLessTotal(a: string, b: string)
    ensures a == b || LexLess(a, b) || LexLess(b, a)
    decreases |a|
  {
    if a != [] && b != [] && a[0] == b[0] {
      LexLessTotal(a[1..], b[1..]);
      if a[1..] == b[1..] {
        assert a == [a[0]] + a[1..] && b == [b[0]] + b[1..];
      }
    }
  }

  lemma LexLessAsymmetric(a: string, b: string)
    requires LexLess(a, b)
    ensures !LexLess(b, a)
  {
    if LexLess(b, a) {
      LexLessTransitive(a, b, a);
      LexLessIrreflexive(a);
    }
  }

  lemma LexLeTransitive(a: string, b: string, c: string)
    requires LexLe(a, b) && LexLe(b, c)
    ensures LexLe(a, c)
  {
    if a != b && b != c {
      LexLessTransitive(a, b, c);
    }
  }

  /** Comparing two strings whose first parts have equal length compares those parts first. */
  lemma {:induction false} LexLessSplitAt(p: string, q: string, x: string, y: string)
    requires |p| == |q|
    ensures LexLess(p + x, q + y) <==> LexLess(p, q) || (p == q && LexLess(x, y))
    decreases |p|
  {
    if p != [] {
      assert (p + x)[0] == p[0] && (q + y)[0] == q[0];
      assert (p + x)[1..] == p[1..] + x && (q + y)[1..] == q[1..] + y;
      LexLessSplitAt(p[1..], q[1..], x, y);
      if p[0] == q[0] {
        assert p == q <==> p[1..] == q[1..] by {
          assert p == [p[0]] + p[1..] && q == [q[0]] + q[1..];
        }
      }
    } else {
      assert p + x == x && q + y == y;
    }
  }

  /** The parts of `a-r`, read back by position. */
  lemma DashSplit(a: string, r: string)
    ensures var s := a + "-" + r; |s| == |a| + 1 + |r| && s[..|a|] == a && s[|a|] == '-' && s[|a| + 1..] == r
  {
    var s := a + "-" + r;
    assert s[..|a|] == a;
    assert s[|a| + 1..] == r;
  }

  /** Strings `a-r` whose first parts have equal length compare by those parts first, then by the rest. */
  lemma DashedOrder(a1: string, r1: string, a2: string, r2: string)
    requires |a1| == |a2|
    ensures LexLess(a1 + "-" + r1, a2 + "-" + r2) <==> LexLess(a1, a2) || (a1 == a2 && LexLess(r1, r2))
  {
    assert a1 + "-" + r1 == a1 + ("-" + r1) && a2 + "-" + r2 == a2 + ("-" + r2);
    LexLessSplitAt(a1, a2, "-" + r1, "-" + r2);
    LexLessSplitAt("-", "-", r1, r2);
    LexLessIrreflexive("-");
  }

  // ---- decimal digits ----

  predicate IsDigit(c: char)
  {
    '0' <= c <= '9'
  }

  predicate AllDigits(s: string)
  {
    forall i :: 0 <= i < |s| ==> IsDigit(s[i])
  }

  function DigitChar(d: nat): (c: char)
    requires d <= 9
    ensures IsDigit(c)
  {
    ('0' as int + d) as char
  }

  function Pow10(w: nat): (r: nat)
    ensures r >= 1
  {
    if w == 0 then 1 else 10 * Pow10(w - 1)
  }

  /** `int(s)` for a string of ASCII digits. */
  function DigitsValue(s: string): (n: nat)
    requires AllDigits(s)
    ensures n < Pow10(|s|)
    decreases |s|
  {
    if s == [] then 0
    else DigitsValue(s[..|s| - 1]) * 10 + (s[|s| - 1] as int - '0' as int)
  }

  /** The `w` lowest decimal digits of `n`, most significant first: `f"{n:0{w}d}"` when `n < 10^w`. */
  function Digits(n: nat, w: nat): (r: string)
    ensures |r| == w && AllDigits(r)
    decreases w
  {
    if w == 0 then "" else Digits(n / 10, w - 1) + [DigitChar(n % 10)]
  }

  /** The number of decimal digits Python prints for `n`. */
  function NumDigits(n: nat): (k: nat)
    ensures k >= 1 && n < Pow10(k)
  {
    if n < 10 then 1 else 1 + NumDigits(n / 10)
  }

  /** `f"{n:0{w}d}"`: `n` in decimal, padded on the left with zeros to at least `w` characters. */
  function ZeroPadded(n: nat, w: nat): (r: string)
    ensures AllDigits(r) && |r| >= w
    ensures w >= 1 && n < Pow10(w) ==> r == Digits(n, w)
  {
    var k := NumDigits(n);
    assert w >= 1 && n < Pow10(w) ==> k <= w by {
      if w >= 1 && n < Pow10(w) { NumDigitsMinimal(n, w); }
    }
    Digits(n, if k <= w then w else k)
  }

  lemma {:induction false} NumDigitsMinimal(n: nat, w: nat)
    requires w >= 1 && n < Pow10(w)
    ensures NumDigits(n) <= w
  {
    if n >= 10 {
      assert n / 10 < Pow10(w - 1);
      NumDigitsMinimal(n / 10, w - 1);
    }
  }

  /** Reading back the digits of `n` gives `n`. */
  lemma {:induction false} DigitsValueOfDigits(n: nat, w: nat)
    requires n < Pow10(w)
    ensures DigitsValue(Digits(n, w)) == n
    decreases w
  {
    if w > 0 {
      var d := Digits(n, w);
      assert d[..w - 1] == Digits(n / 10, w - 1);
      DigitsValueOfDigits(n / 10, w - 1);
    }
  }

  /** Zero-padded numbers of one width compare as strings exactly as they compare as numbers. */
  lemma {:induction false} DigitsOrder(a: nat, b: nat, w: nat)
    requires a < Pow10(w) && b < Pow10(w)
    ensures LexLess(Digits(a, w), Digits(b, w)) <==> a < b
    decreases w
  {
    if w == 0 {
      assert Digits(a, w) == Digits(b, w) == "";
    } else {
      var pa, pb := Digits(a / 10, w - 1), Digits(b / 10, w - 1);
      DigitsOrder(a / 10, b / 10, w - 1);
      LexLessSplitAt(pa, pb, [DigitChar(a % 10)], [DigitChar(b % 10)]);
      if pa == pb {
        LexLessIrreflexive(pa);
        DigitsOrder(b / 10, a / 10, w - 1);
      }
    }
  }
}
