/**
 The slice of the Java runtime that the mock tweet generator relies on:
 32-bit `int` arithmetic, `java.util.Random.nextInt(bound)`, the exception it
 throws, `String.trim`, `String.replace(CharSequence, CharSequence)` and
 `String.valueOf(long)` for non-negative values.
 */
module JavaRuntime {

  /** Java's `int`: 32-bit two's complement. */
  const INT_MIN: int := -0x8000_0000
  const INT_MAX: int := 0x7fff_ffff
  const LONG_MAX: int := 0x7fff_ffff_ffff_ffff

  type Int32 = x: int | -0x8000_0000 <= x <= 0x7fff_ffff

  /** Reduces a mathematical integer to the `int` Java computes for it. */
  function Wrap32(x: int): (r: Int32)
    ensures (x - r) % 0x1_0000_0000 == 0
    ensures INT_MIN <= x <= INT_MAX ==> r == x
  {
    (x + 0x8000_0000) % 0x1_0000_0000 - 0x8000_0000
  }

  /** The only exception the modelled code can raise: `nextInt` with a bound that is not positive. */
  datatype Exception = IllegalArgument

  /** The outcome of a Java call: a value, or the exception it threw. */
  datatype Result<+T> = Ok(value: T) | Thrown(exception: Exception) {

    predicate IsFailure() {
      Thrown?
    }

    function PropagateFailure<U>(): Result<U>
      requires Thrown?
    {
      Thrown(exception)
    }

    function Extract(): T
      requires Ok?
    {
      value
    }
  }

  /**
   The successive raw outputs of a `java.util.Random`. The generator is
   consumed through a position: `nextInt(bound)` reads the output at the
   current position and reduces it into [0, bound), so every value of that
   interval can be drawn and no other.
   */
  type RandomStream = nat -> nat

  /** A drawn value and the position of the next unread output. */
  datatype Draw = Draw(drawn: int, next: nat)

  /** `Random.nextInt(bound)`. */
  function NextInt(rng: RandomStream, pos: nat, bound: int): (r: Result<Draw>)
    ensures r.Ok? <==> bound > 0
    ensures r.Ok? ==> 0 <= r.value.drawn < bound && r.value.next == pos + 1
    ensures r.Thrown? ==> r.exception == IllegalArgument
  {
    if bound <= 0 then Thrown(IllegalArgument) else Ok(Draw(rng(pos) % bound, pos + 1))
  }

  /** `String.trim` removes every character whose code is at most U+0020. */
  predicate Trimmable(c: char) {
    c <= ' '
  }

  /** Drops the trimmable prefix: the longest suffix of `s` that does not start with a trimmable character. */
  function TrimStart(s: string): (r: string)
    ensures |r| <= |s| && r == s[|s| - |r|..]
    ensures forall k :: 0 <= k < |s| - |r| ==> Trimmable(s[k])
    ensures |r| > 0 ==> !Trimmable(r[0])
    decreases |s|
  {
    if |s| > 0 && Trimmable(s[0]) then TrimStart(s[1..]) else s
  }

  /** Drops the trimmable suffix: the longest prefix of `s` that does not end with a trimmable character. */
  function TrimEnd(s: string): (r: string)
    ensures |r| <= |s| && r == s[..|r|]
    ensures forall k :: |r| <= k < |s| ==> Trimmable(s[k])
    ensures |r| > 0 ==> !Trimmable(r[|r| - 1])
    decreases |s|
  {
    if |s| > 0 && Trimmable(s[|s| - 1]) then TrimEnd(s[..|s| - 1]) else s
  }

  /** `String.trim`. */
  function Trim(s: string): (r: string)
    ensures |r| > 0 ==> !Trimmable(r[0]) && !Trimmable(r[|r| - 1])
    ensures |r| <= |s|
    ensures exists lo :: TrimmedAt(s, r, lo)
  {
    var t := TrimStart(s);
    var r := TrimEnd(t);
    TrimEndInSource(s, t, r);
    r
  }

  /** `r` is `s` from offset `lo` on, with only trimmable characters cut before and after it. */
  predicate TrimmedAt(s: string, r: string, lo: int) {
    && 0 <= lo <= |s| - |r| && r == s[lo..lo + |r|]
    && (forall k :: 0 <= k < lo ==> Trimmable(s[k]))
    && (forall k :: lo + |r| <= k < |s| ==> Trimmable(s[k]))
  }

  /** Cutting a padding prefix and then a padding suffix leaves a middle slice of the original. */
  lemma TrimEndInSource(s: string, t: string, r: string)
    requires |t| <= |s| && t == s[|s| - |t|..] && forall k :: 0 <= k < |s| - |t| ==> Trimmable(s[k])
    requires |r| <= |t| && r == t[..|r|] && forall k :: |r| <= k < |t| ==> Trimmable(t[k])
    ensures TrimmedAt(s, r, |s| - |t|)
  {
    var lo := |s| - |t|;
    forall i | 0 <= i < |t| ensures t[i] == s[lo + i] {
      assert t == s[lo..];
    }
    var u := s[lo..lo + |r|];
    forall i | 0 <= i < |r| ensures r[i] == u[i] {
      assert r == t[..|r|];
    }
    assert r == u;
    forall k | lo + |r| <= k < |s| ensures Trimmable(s[k]) {
      assert s[k] == t[k - lo];
    }
  }

  /** A string of padding alone trims to the empty string. */
  lemma TrimBlank(s: string)
    requires forall k :: 0 <= k < |s| ==> Trimmable(s[k])
    ensures Trim(s) == ""
  {
    var lo :| TrimmedAt(s, Trim(s), lo);
  }

  /** Trimming removes exactly the padding: a core that starts and ends with a visible character survives whole. */
  lemma {:induction false} TrimPadded(p: string, u: string, q: string)
    requires |u| > 0 && !Trimmable(u[0]) && !Trimmable(u[|u| - 1])
    requires forall k :: 0 <= k < |p| ==> Trimmable(p[k])
    requires forall k :: 0 <= k < |q| ==> Trimmable(q[k])
    ensures Trim(p + u + q) == u
  {
    TrimStartPadded(p, u + q);
    assert p + u + q == p + (u + q);
    TrimEndPadded(u, q);
  }

  lemma {:induction false} TrimStartPadded(p: string, v: string)
    requires |v| > 0 && !Trimmable(v[0])
    requires forall k :: 0 <= k < |p| ==> Trimmable(p[k])
    ensures TrimStart(p + v) == v
    decreases |p|
  {
    if |p| > 0 {
      assert (p + v)[1..] == p[1..] + v;
      TrimStartPadded(p[1..], v);
    } else {
      assert p + v == v;
    }
  }

  lemma {:induction false} TrimEndPadded(u: string, q: string)
    requires |u| > 0 && !Trimmable(u[|u| - 1])
    requires forall k :: 0 <= k < |q| ==> Trimmable(q[k])
    ensures TrimEnd(u + q) == u
    decreases |q|
  {
    if |q| > 0 {
      assert (u + q)[..|u + q| - 1] == u + q[..|q| - 1];
      TrimEndPadded(u, q[..|q| - 1]);
    } else {
      assert u + q == u;
    }
  }

  /** `pat` occurs in `s` at offset `k`. */
  predicate OccursAt(s: string, pat: string, k: int) {
    0 <= k && k + |pat| <= |s| && s[k..k + |pat|] == pat
  }

  /** `pat` occurs somewhere in `s`. */
  predicate Contains(s: string, pat: string) {
    exists k | 0 <= k <= |s| - |pat| :: OccursAt(s, pat, k)
  }

  /**
   `String.replace(target, replacement)` for a non-empty target: scans left to
   right and replaces every non-overlapping occurrence literally; the inserted
   text is not scanned again.
   */
  function ReplaceAll(s: string, pat: string, rep: string): string
    requires |pat| > 0
    decreases |s|
  {
    if |s| < |pat| then s
    else if s[..|pat|] == pat then rep + ReplaceAll(s[|pat|..], pat, rep)
    else [s[0]] + ReplaceAll(s[1..], pat, rep)
  }

  /** A string in which the target does not occur is returned unchanged. */
  lemma {:induction false} ReplaceAllAbsent(s: string, pat: string, rep: string)
    requires |pat| > 0
    requires !Contains(s, pat)
    ensures ReplaceAll(s, pat, rep) == s
    decreases |s|
  {
    if |s| >= |pat| {
      assert !OccursAt(s, pat, 0);
      assert s[0..|pat|] == s[..|pat|];
      forall k | OccursAt(s[1..], pat, k)
        ensures OccursAt(s, pat, k + 1)
      {
        assert s[1..][k..k + |pat|] == s[k + 1..k + 1 + |pat|];
      }
      ReplaceAllAbsent(s[1..], pat, rep);
    }
  }

  /** The target itself is replaced by the replacement. */
  lemma ReplaceAllWhole(pat: string, rep: string)
    requires |pat| > 0
    ensures ReplaceAll(pat, pat, rep) == rep
  {
    assert pat[..|pat|] == pat;
    assert pat[|pat|..] == [];
    assert rep + [] == rep;
  }

  /**
   Replacing in a concatenation replaces in each part, provided no occurrence
   can straddle the seam: one of the two characters next to it is not part of
   the target.
   */
  lemma {:induction false} ReplaceAllConcat(a: string, b: string, pat: string, rep: string)
    requires |pat| > 0
    requires |a| == 0 || |b| == 0 || a[|a| - 1] !in pat || b[0] !in pat
    ensures ReplaceAll(a + b, pat, rep) == ReplaceAll(a, pat, rep) + ReplaceAll(b, pat, rep)
    decreases |a|
  {
    if |a| == 0 {
      assert a + b == b;
    } else if |b| == 0 {
      assert a + b == a;
    } else if StartsWith(a + b, pat) {
      ConcatMatchInLeft(a, b, pat);
      assert (a + b)[|pat|..] == a[|pat|..] + b;
      ReplaceAllConcat(a[|pat|..], b, pat, rep);
    } else {
      assert (a + b)[1..] == a[1..] + b;
      ReplaceAllConcat(a[1..], b, pat, rep);
      ReplaceAllSkip(a + b, pat, rep);
      if |a| >= |pat| {
        assert a[..|pat|] == (a + b)[..|pat|];
      }
      ReplaceAllSkip(a, pat, rep);
    }
  }

  /** A last character that is not part of the target stays the last character. */
  lemma ReplaceAllKeepsLast(s: string, pat: string, rep: string)
    requires |pat| > 0 && |s| > 0 && s[|s| - 1] !in pat
    ensures var r := ReplaceAll(s, pat, rep); |r| > 0 && r[|r| - 1] == s[|s| - 1]
  {
    var init, c := s[..|s| - 1], s[|s| - 1];
    assert s == init + [c];
    ReplaceAllConcat(init, [c], pat, rep);
    if |pat| == 1 {
      assert [c][..1] != pat;
      assert ReplaceAll([c], pat, rep) == [c] + ReplaceAll([], pat, rep);
    }
  }

  /** A first character that is not part of the target stays the first character. */
  lemma ReplaceAllKeepsFirst(s: string, pat: string, rep: string)
    requires |pat| > 0 && |s| > 0 && s[0] !in pat
    ensures var r := ReplaceAll(s, pat, rep); |r| > 0 && r[0] == s[0]
  {
    var c, rest := s[0], s[1..];
    assert s == [c] + rest;
    ReplaceAllConcat([c], rest, pat, rep);
    if |pat| == 1 {
      assert [c][..1] != pat;
      assert ReplaceAll([c], pat, rep) == [c] + ReplaceAll([], pat, rep);
    }
  }

  /** `s` begins with `pat`. */
  predicate StartsWith(s: string, pat: string) {
    |pat| <= |s| && s[..|pat|] == pat
  }

  /** Where the target does not start, one character is copied and the scan moves on. */
  lemma ReplaceAllSkip(s: string, pat: string, rep: string)
    requires |pat| > 0 && |s| > 0 && !StartsWith(s, pat)
    ensures ReplaceAll(s, pat, rep) == [s[0]] + ReplaceAll(s[1..], pat, rep)
  {
    if |s| < |pat| {
      assert s == [s[0]] + s[1..];
    }
  }

  /** An occurrence at the start of `a + b` that runs past `a` uses the characters on both sides of the seam. */
  lemma StraddleChars(a: string, b: string, pat: string)
    requires 0 < |a| < |pat| && |b| > 0
    requires StartsWith(a + b, pat)
    ensures a[|a| - 1] in pat && b[0] in pat
  {
    assert pat[|a| - 1] == (a + b)[|a| - 1] == a[|a| - 1];
    assert pat[|a|] == (a + b)[|a|] == b[0];
  }

  /** An occurrence at the start of `a + b` that cannot straddle the seam lies within `a`. */
  lemma ConcatMatchInLeft(a: string, b: string, pat: string)
    requires |pat| > 0 && |a| > 0 && |b| > 0
    requires a[|a| - 1] !in pat || b[0] !in pat
    requires StartsWith(a + b, pat)
    ensures StartsWith(a, pat)
  {
    if |pat| > |a| {
      StraddleChars(a, b, pat);
      assert false;
    }
    assert (a + b)[..|pat|] == a[..|pat|];
  }

  /** A decimal digit character. */
  predicate IsDigit(c: char) {
    '0' <= c <= '9'
  }

  function DigitChar(d: nat): (c: char)
    requires d < 10
    ensures IsDigit(c)
  {
    ('0' as int + d) as char
  }

  /** `String.valueOf(long)` for a non-negative value: its decimal digits, most significant first. */
  function DecimalString(n: nat): (r: string)
    ensures |r| > 0
    ensures forall k :: 0 <= k < |r| ==> IsDigit(r[k])
    ensures n > 0 ==> r[0] != '0'
    ensures |r| > 1 ==> r[0] != '0'
  {
    if n < 10 then [DigitChar(n)] else DecimalString(n / 10) + [DigitChar(n % 10)]
  }

  /** A digit string without a leading zero, other than `"0"` itself, as `String.valueOf` writes numbers. */
  predicate Canonical(s: string) {
    |s| > 0 && (forall k :: 0 <= k < |s| ==> IsDigit(s[k])) && (|s| > 1 ==> s[0] != '0')
  }

  /** Reads a string of decimal digits back into the number it denotes. */
  function ParseDecimal(s: string): nat
    requires forall k :: 0 <= k < |s| ==> IsDigit(s[k])
  {
    if |s| == 0 then 0
    else
      assert IsDigit(s[|s| - 1]);
      ParseDecimal(s[..|s| - 1]) * 10 + (s[|s| - 1] as int - '0' as int)
  }

  /** Decimal rendering loses nothing: parsing it gives the number back. */
  lemma {:induction false} DecimalRoundTrip(n: nat)
    ensures ParseDecimal(DecimalString(n)) == n
  {
    var r := DecimalString(n);
    if n >= 10 {
      assert r[..|r| - 1] == DecimalString(n / 10);
      DecimalRoundTrip(n / 10);
    }
  }

  /** The rendering is the only canonical digit string that denotes the number. */
  lemma {:induction false} DecimalCanonical(s: string)
    requires Canonical(s)
    ensures DecimalString(ParseDecimal(s)) == s
    decreases |s|
  {
    var n := ParseDecimal(s);
    var c := s[|s| - 1];
    var d := c as int - '0' as int;
    if |s| == 1 {
      assert ParseDecimal(s[..0]) == 0;
      assert DigitChar(n) == c;
    } else {
      var init := s[..|s| - 1];
      assert init[0] == s[0];
      ParseDecimalPositive(init);
      DecimalCanonical(init);
      assert n / 10 == ParseDecimal(init) && n % 10 == d;
      assert DigitChar(d) == c;
      assert s == init + [c];
    }
  }

  /** A digit string that starts with a non-zero digit denotes a positive number. */
  lemma {:induction false} ParseDecimalPositive(s: string)
    requires |s| > 0 && (forall k :: 0 <= k < |s| ==> IsDigit(s[k])) && s[0] != '0'
    ensures ParseDecimal(s) > 0
    decreases |s|
  {
    if |s| > 1 {
      var init := s[..|s| - 1];
      assert init[0] == s[0];
      ParseDecimalPositive(init);
    }
  }

  /** Distinct numbers have distinct decimal renderings. */
  lemma DecimalInjective(i: nat, j: nat)
    requires DecimalString(i) == DecimalString(j)
    ensures i == j
  {
    DecimalRoundTrip(i);
    DecimalRoundTrip(j);
  }
}
