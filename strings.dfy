/** The few Python string operations the modelled code relies on:
    `str.strip`, `str.rfind`, `str.lower` on ASCII letters, decimal
    formatting of a non-negative int (`f"{i}"`) and `int(...)` of a
    decimal string. */
module Strings {
  import opened Wrappers

  /** Python's `str.isspace` for a single character. */
  predicate IsSpace(c: char) {
    || '\t' <= c <= '\r'
    || '\U{1C}' <= c <= ' '
    || c == '\U{85}' || c == '\U{A0}' || c == '\U{1680}'
    || '\U{2000}' <= c <= '\U{200A}'
    || c == '\U{2028}' || c == '\U{2029}' || c == '\U{202F}'
    || c == '\U{205F}' || c == '\U{3000}'
  }

  predicate AllSpace(s: string) {
    forall i :: 0 <= i < |s| ==> IsSpace(s[i])
  }

  /** Python's `str.strip()` with no argument: whitespace removed from
      both ends. A non-empty result begins and ends with a non-whitespace
      character. */
  function Strip(s: string): (r: string)
    ensures |r| <= |s|
    ensures r != [] ==> !IsSpace(r[0]) && !IsSpace(r[|r| - 1])
    decreases |s|
  {
    if s == [] then []
    else if IsSpace(s[0]) then Strip(s[1..])
    else if IsSpace(s[|s| - 1]) then Strip(s[..|s| - 1])
    else s
  }

  /** `strip` gives the empty string exactly when `s` is all whitespace. */
  lemma {:induction false} StripBlank(s: string)
    ensures Strip(s) == [] <==> AllSpace(s)
    decreases |s|
  {
    if s != [] {
      if IsSpace(s[0]) {
        StripBlank(s[1..]);
        assert AllSpace(s) <==> AllSpace(s[1..]) by {
          if AllSpace(s[1..]) {
            forall i | 0 < i < |s| ensures IsSpace(s[i]) { assert s[i] == s[1..][i - 1]; }
          }
        }
      } else if IsSpace(s[|s| - 1]) {
        StripBlank(s[..|s| - 1]);
        assert !AllSpace(s) && !AllSpace(s[..|s| - 1]) by {
          assert s[..|s| - 1][0] == s[0];
        }
      }
    }
  }

  /** What `strip` removes is whitespace: the result is the slice of `s`
      between a whitespace-only prefix and a whitespace-only suffix. */
  lemma {:induction false} StripIsSlice(s: string) returns (a: nat)
    ensures SpaceAround(s, Strip(s), a)
    decreases |s|
  {
    if s == [] {
      a := 0;
    } else if IsSpace(s[0]) {
      var b := StripIsSlice(s[1..]);
      a := b + 1;
      SliceWithSpaceBefore(s, a);
    } else if IsSpace(s[|s| - 1]) {
      a := StripIsSlice(s[..|s| - 1]);
      SliceWithSpaceAfter(s, a);
    } else {
      a := 0;
      assert s[..0] == [] && s[|s|..] == [];
    }
  }

  /** `r` is the slice of `s` from `a` on, with only whitespace around it. */
  predicate SpaceAround(s: string, r: string, a: nat) {
    && a + |r| <= |s| && r == s[a..a + |r|]
    && AllSpace(s[..a]) && AllSpace(s[a + |r|..])
  }

  lemma SliceWithSpaceBefore(s: string, a: nat)
    requires s != [] && IsSpace(s[0]) && a >= 1
    requires SpaceAround(s[1..], Strip(s[1..]), a - 1)
    ensures SpaceAround(s, Strip(s), a)
  {
    var t := s[1..];
    var r := Strip(t);
    assert Strip(s) == r;
    var k := a + |r|;
    TailSlices(s, a, k);
    AllSpaceConcat([s[0]], t[..a - 1]);
  }

  /** Slices of `s[1..]` as slices of `s`. */
  lemma TailSlices<T>(s: seq<T>, a: nat, k: nat)
    requires 1 <= a <= k <= |s|
    ensures s[1..][a - 1..k - 1] == s[a..k]
    ensures s[..a] == [s[0]] + s[1..][..a - 1]
    ensures s[k..] == s[1..][k - 1..]
  {
  }

  lemma SliceWithSpaceAfter(s: string, a: nat)
    requires s != [] && !IsSpace(s[0]) && IsSpace(s[|s| - 1])
    requires SpaceAround(s[..|s| - 1], Strip(s[..|s| - 1]), a)
    ensures SpaceAround(s, Strip(s), a)
  {
    var t := s[..|s| - 1];
    var r := Strip(t);
    assert Strip(s) == r;
    var k := a + |r|;
    InitSlices(s, a, k);
    AllSpaceConcat(t[k..], [s[|s| - 1]]);
  }

  /** Slices of `s[..|s| - 1]` as slices of `s`. */
  lemma InitSlices<T>(s: seq<T>, a: nat, k: nat)
    requires a <= k <= |s| - 1
    ensures s[..|s| - 1][a..k] == s[a..k]
    ensures s[..a] == s[..|s| - 1][..a]
    ensures s[k..] == s[..|s| - 1][k..] + [s[|s| - 1]]
  {
  }

  lemma AllSpaceConcat(a: string, b: string)
    ensures AllSpace(a + b) <==> AllSpace(a) && AllSpace(b)
  {
    if AllSpace(a + b) {
      forall i | 0 <= i < |a| ensures IsSpace(a[i]) { assert a[i] == (a + b)[i]; }
      forall i | 0 <= i < |b| ensures IsSpace(b[i]) { assert b[i] == (a + b)[|a| + i]; }
    }
    if AllSpace(a) && AllSpace(b) {
      forall i | 0 <= i < |a + b| ensures IsSpace((a + b)[i]) {
        if i >= |a| { assert (a + b)[i] == b[i - |a|]; }
      }
    }
  }

  /** `pat` occurs in `s` starting at index `j`. */
  predicate OccursAt(s: string, pat: string, j: int) {
    0 <= j && j + |pat| <= |s| && s[j..j + |pat|] == pat
  }

  /** The last occurrence of `pat` in `s` that starts before `k`, or -1. */
  function RFindBefore(s: string, pat: string, k: int): (r: int)
    ensures r == -1 || (r < k && OccursAt(s, pat, r))
    ensures forall j :: r < j < k ==> !OccursAt(s, pat, j)
    decreases k
  {
    if k <= 0 then -1
    else if OccursAt(s, pat, k - 1) then k - 1
    else RFindBefore(s, pat, k - 1)
  }

  /** Python's `s.rfind(pat)`: the start of the last occurrence of `pat`
      in `s`, or -1 when there is none. */
  function RFind(s: string, pat: string): (r: int)
    ensures r == -1 || OccursAt(s, pat, r)
    ensures forall j :: OccursAt(s, pat, j) ==> j <= r
  {
    RFindBefore(s, pat, |s| - |pat| + 1)
  }

  /** When the first character of `pat` never appears in `s`, `rfind` finds
      nothing. */
  lemma {:induction false} RFindAbsent(s: string, pat: string)
    requires |pat| > 0
    requires forall i :: 0 <= i < |s| ==> s[i] != pat[0]
    ensures RFind(s, pat) == -1
  {
    forall j ensures !OccursAt(s, pat, j) {
      if 0 <= j && j + |pat| <= |s| {
        assert s[j..j + |pat|][0] == s[j];
      }
    }
  }

  /** The position of the first `c` in `s`, or -1 when there is none. */
  function IndexOf(s: string, c: char): (r: int)
    ensures r == -1 <==> c !in s
    ensures r != -1 ==> 0 <= r < |s| && s[r] == c && c !in s[..r]
    decreases |s|
  {
    if s == [] then -1
    else if s[0] == c then 0
    else
      var r := IndexOf(s[1..], c);
      if r == -1 then -1
      else
        assert s[..r + 1] == [s[0]] + s[1..][..r];
        r + 1
  }

  /** In `p + [c] + rest` with no `c` in `p`, the first `c` is the one
      right after `p`. */
  lemma {:induction false} IndexOfAfter(p: string, c: char, rest: string)
    requires c !in p
    ensures IndexOf(p + [c] + rest, c) == |p|
    decreases |p|
  {
    if p != [] {
      assert (p + [c] + rest)[1..] == p[1..] + [c] + rest;
      IndexOfAfter(p[1..], c, rest);
    }
  }

  /** Python's `rsplit(sep, 1)[-1]` for a one-character separator: the text
      after the last `sep`, or all of `s` when `sep` does not occur. */
  function AfterLast(s: string, sep: char): (r: string)
    ensures sep !in r
    ensures sep in s ==> exists p :: s == p + [sep] + r
    ensures sep !in s ==> r == s
  {
    var i := RFind(s, [sep]);
    if i == -1 then
      assert sep !in s by {
        forall j | 0 <= j < |s| ensures s[j] != sep {
          assert !OccursAt(s, [sep], j);
        }
      }
      s
    else
      var r := s[i + 1..];
      assert sep !in r by {
        forall j | 0 <= j < |r| ensures r[j] != sep {
          assert !OccursAt(s, [sep], i + 1 + j);
        }
      }
      assert s == s[..i] + [sep] + r;
      r
  }

  /** Python's `str.lower()` on one character, for ASCII letters. */
  function LowerChar(c: char): char {
    if 'A' <= c <= 'Z' then (c as int + 32) as char else c
  }

  function ToLower(s: string): (r: string)
    ensures |r| == |s| && forall i :: 0 <= i < |s| ==> r[i] == LowerChar(s[i])
  {
    seq(|s|, i requires 0 <= i < |s| => LowerChar(s[i]))
  }

  predicate IsDigit(c: char) { '0' <= c <= '9' }

  predicate AllDigits(s: string) {
    forall i :: 0 <= i < |s| ==> IsDigit(s[i])
  }

  function DigitChar(d: nat): (c: char)
    requires d < 10
    ensures IsDigit(c) && c as int - '0' as int == d
  {
    ('0' as int + d) as char
  }

  /** Python's `f"{n}"` for a non-negative int: decimal digits without
      leading zeros. */
  function Decimal(n: nat): (s: string)
    ensures |s| >= 1 && AllDigits(s)
    ensures |s| == 1 <==> n < 10
    decreases n
  {
    if n < 10 then [DigitChar(n)] else Decimal(n / 10) + [DigitChar(n % 10)]
  }

  /** Distinct numbers print differently. */
  lemma {:induction false} DecimalInjective(m: nat, n: nat)
    requires Decimal(m) == Decimal(n)
    ensures m == n
  {
    var s := Decimal(m);
    if m < 10 {
      assert n < 10;
      assert DigitChar(m) == s[0] == DigitChar(n);
    } else {
      assert n >= 10;
      assert DigitChar(m % 10) == s[|s| - 1] == DigitChar(n % 10);
      assert Decimal(m / 10) == s[..|s| - 1] == Decimal(n / 10);
      DecimalInjective(m / 10, n / 10);
    }
  }

  /** The value of a string of decimal digits. */
  function DigitsValue(s: string): nat
    requires AllDigits(s)
  {
    if s == [] then 0
    else 10 * DigitsValue(s[..|s| - 1]) + (s[|s| - 1] as int - '0' as int)
  }

  /** Python's `int(s)` on a string: surrounding whitespace is ignored,
      then an optional sign and ASCII decimal digits; anything else raises,
      modelled as `None`. */
  function ParseInt(s: string): (r: Option<int>)
    ensures r.Some? ==> Strip(s) != []
  {
    var t := Strip(s);
    if |t| > 0 && (t[0] == '-' || t[0] == '+') then
      var digits := t[1..];
      if digits != [] && AllDigits(digits) then
        var v: int := DigitsValue(digits);
        Some(if t[0] == '-' then -v else v)
      else None
    else if t != [] && AllDigits(t) then Some(DigitsValue(t))
    else None
  }

  /** Parsing the printed form of a number gives the number back, with
      or without whitespace around it. */
  lemma {:induction false} ParseDecimal(n: nat, before: string, after: string)
    requires AllSpace(before) && AllSpace(after)
    ensures ParseInt(before + Decimal(n) + after) == Some(n)
  {
    var d := Decimal(n);
    DigitsOfDecimal(n);
    StripAround(before, d, after);
  }

  /** Whitespace around a string that neither begins nor ends with
      whitespace is exactly what `strip` removes. */
  lemma StripAround(before: string, s: string, after: string)
    requires AllSpace(before) && AllSpace(after)
    requires s != [] && !IsSpace(s[0]) && !IsSpace(s[|s| - 1])
    ensures Strip(before + s + after) == s
  {
    assert before + s + after == before + (s + after);
    StripLeading(before, s + after);
    StripTrailing(s, after);
  }

  lemma {:induction false} StripLeading(before: string, u: string)
    requires AllSpace(before) && u != [] && !IsSpace(u[0])
    ensures Strip(before + u) == Strip(u)
    decreases |before|
  {
    if before != [] {
      var t := before + u;
      assert t[0] == before[0];
      assert t[1..] == before[1..] + u;
      StripLeading(before[1..], u);
    } else {
      assert before + u == u;
    }
  }

  lemma {:induction false} StripTrailing(u: string, after: string)
    requires AllSpace(after) && u != [] && !IsSpace(u[0]) && !IsSpace(u[|u| - 1])
    ensures Strip(u + after) == u
    decreases |after|
  {
    var t := u + after;
    if after != [] {
      assert t[0] == u[0] && t[|t| - 1] == after[|after| - 1];
      assert t[..|t| - 1] == u + after[..|after| - 1];
      StripTrailing(u, after[..|after| - 1]);
    } else {
      assert t == u;
    }
  }

  lemma {:induction false} DigitsOfDecimal(n: nat)
    ensures DigitsValue(Decimal(n)) == n
    decreases n
  {
    var s := Decimal(n);
    if n >= 10 {
      assert s[..|s| - 1] == Decimal(n / 10);
      DigitsOfDecimal(n / 10);
    }
  }
}
