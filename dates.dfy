/**
 * JavaScript's `<` on two strings (code-unit-wise lexicographic order) and the
 * hook's expiry rule built on it.
 */
module Dates {
  import opened Wrappers

  /** `a < b` on strings: compare at the first position where they differ; a
      proper prefix is smaller. */
  function LexLess(a: string, b: string): bool
  {
    if b == [] then false
    else if a == [] then true
    else if a[0] != b[0] then a[0] < b[0]
    else LexLess(a[1..], b[1..])
  }

  /** The textbook reading of lexicographic order: some common prefix of length
      `k` after which `a` ends or has the smaller character. */
  ghost predicate FirstDifferenceSmaller(a: string, b: string)
  {
    exists k :: 0 <= k <= |a| && k < |b| && a[..k] == b[..k] && (k == |a| || a[k] < b[k])
  }

  /** The index of the first difference, when `a` is below `b`. */
  lemma {:induction false} LexLessWitness(a: string, b: string) returns (k: nat)
    requires LexLess(a, b)
    ensures k <= |a| && k < |b| && a[..k] == b[..k] && (k == |a| || a[k] < b[k])
  {
    if a == [] || a[0] != b[0] {
      k := 0;
    } else {
      var j := LexLessWitness(a[1..], b[1..]);
      k := j + 1;
      assert a[..k] == [a[0]] + a[1..][..j];
      assert b[..k] == [b[0]] + b[1..][..j];
    }
  }

  /** A common prefix followed by the end of `a` or a smaller character puts `a` below `b`. */
  lemma {:induction false} LexLessFromWitness(a: string, b: string, k: nat)
    requires k <= |a| && k < |b| && a[..k] == b[..k] && (k == |a| || a[k] < b[k])
    ensures LexLess(a, b)
  {
    if k > 0 {
      assert a[0] == a[..k][0] && b[0] == b[..k][0];
      assert a[1..][..k-1] == a[..k][1..] && b[1..][..k-1] == b[..k][1..];
      LexLessFromWitness(a[1..], b[1..], k - 1);
    }
  }

  lemma LexLessIsLexicographic(a: string, b: string)
    ensures LexLess(a, b) <==> FirstDifferenceSmaller(a, b)
  {
    if LexLess(a, b) {
      var k := LexLessWitness(a, b);
    }
    if FirstDifferenceSmaller(a, b) {
      var k :| 0 <= k <= |a| && k < |b| && a[..k] == b[..k] && (k == |a| || a[k] < b[k]);
      LexLessFromWitness(a, b, k);
    }
  }

  lemma {:induction false} LexLessIrreflexive(a: string)
    ensures !LexLess(a, a)
  {
    if a != [] { LexLessIrreflexive(a[1..]); }
  }

  lemma {:induction false} LexLessTransitive(a: string, b: string, c: string)
    requires LexLess(a, b) && LexLess(b, c)
    ensures LexLess(a, c)
  {
    if a != [] && a[0] == b[0] && b[0] == c[0] {
      LexLessTransitive(a[1..], b[1..], c[1..]);
    }
  }

  /** Any two different strings are ordered one way or the other. */
  lemma {:induction false} LexLessTotal(a: string, b: string)
    requires a != b
    ensures LexLess(a, b) != LexLess(b, a)
  {
    if a != [] && b != [] && a[0] == b[0] {
      assert a == [a[0]] + a[1..] && b == [b[0]] + b[1..];
      LexLessTotal(a[1..], b[1..]);
    }
  }

  /** Comparing two strings whose first parts have the same length: the first
      parts decide, and only a tie hands over to the rest. */
  lemma {:induction false} LexLessConcat(p: string, x: string, q: string, y: string)
    requires |p| == |q|
    ensures LexLess(p + x, q + y) == (LexLess(p, q) || (p == q && LexLess(x, y)))
  {
    if p == [] {
      assert p + x == x && q + y == y;
    } else {
      assert (p + x)[0] == p[0] && (q + y)[0] == q[0];
      assert (p + x)[1..] == p[1..] + x && (q + y)[1..] == q[1..] + y;
      if p[0] == q[0] {
        LexLessConcat(p[1..], x, q[1..], y);
        assert p == q <==> p[1..] == q[1..] by {
          if p[1..] == q[1..] { assert p == [p[0]] + p[1..] && q == [q[0]] + q[1..]; }
        }
      }
    }
  }

  predicate IsDigit(c: char)
  {
    '0' <= c <= '9'
  }

  predicate AllDigits(s: string)
  {
    forall i :: 0 <= i < |s| ==> IsDigit(s[i])
  }

  /** The decimal value of a string of digits. */
  function Num(s: string): nat
    requires AllDigits(s)
  {
    if s == [] then 0 else 10 * Num(s[..|s| - 1]) + (s[|s| - 1] as int - '0' as int)
  }

  /** On digit strings of one length, string order is numeric order. */
  lemma {:induction false} DigitOrder(x: string, y: string)
    requires AllDigits(x) && AllDigits(y) && |x| == |y|
    ensures LexLess(x, y) <==> Num(x) < Num(y)
    ensures x == y <==> Num(x) == Num(y)
  {
    if x != [] {
      var n := |x| - 1;
      var px, py := x[..n], y[..n];
      DigitOrder(px, py);
      assert x == px + [x[n]] && y == py + [y[n]];
      LexLessConcat(px, [x[n]], py, [y[n]]);
      if px == py && x[n] == y[n] {
        assert x == y;
      }
    }
  }

  /** `YYYY-MM-DD`, as the date input and `toISOString().split('T')[0]` produce. */
  predicate IsIsoDate(s: string)
  {
    |s| == 10 && s[4] == '-' && s[7] == '-'
    && AllDigits(s[..4]) && AllDigits(s[5..7]) && AllDigits(s[8..])
  }

  /** `YYYYMMDD` as a number: the calendar order of the dates. */
  function DayNumber(s: string): nat
    requires IsIsoDate(s)
  {
    10000 * Num(s[..4]) + 100 * Num(s[5..7]) + Num(s[8..])
  }

  lemma TwoDigitBound(s: string)
    requires AllDigits(s) && |s| == 2
    ensures Num(s) < 100
  {
    assert s[..1][..0] == [];
    assert Num(s[..1]) == s[0] as int - '0' as int;
  }

  /** On well-formed dates the string comparison the hook uses is the calendar order. */
  lemma IsoDateOrder(a: string, b: string)
    requires IsIsoDate(a) && IsIsoDate(b)
    ensures LexLess(a, b) <==> DayNumber(a) < DayNumber(b)
  {
    var ya, ma, da := a[..4], a[5..7], a[8..];
    var yb, mb, db := b[..4], b[5..7], b[8..];
    assert a == ya + ([a[4]] + (ma + ([a[7]] + da)));
    assert b == yb + ([b[4]] + (mb + ([b[7]] + db)));
    LexLessConcat(ya, [a[4]] + (ma + ([a[7]] + da)), yb, [b[4]] + (mb + ([b[7]] + db)));
    LexLessConcat([a[4]], ma + ([a[7]] + da), [b[4]], mb + ([b[7]] + db));
    LexLessConcat(ma, [a[7]] + da, mb, [b[7]] + db);
    LexLessConcat([a[7]], da, [b[7]], db);
    assert !LexLess([a[4]], [b[4]]) && !LexLess([a[7]], [b[7]]);
    DigitOrder(ya, yb);
    DigitOrder(ma, mb);
    DigitOrder(da, db);
    TwoDigitBound(ma);
    TwoDigitBound(mb);
    TwoDigitBound(da);
    TwoDigitBound(db);
  }

  /** `expireDate && expireDate < today`, read for its truth value: a null or
      empty expiry date never expires. */
  predicate IsExpiredOn(expireDate: Option<string>, today: string)
  {
    expireDate.Some? && expireDate.value != "" && LexLess(expireDate.value, today)
  }

  /** For well-formed dates a device is expired exactly when its date is before today. */
  lemma ExpiredIffBefore(expireDate: string, today: string)
    requires IsIsoDate(expireDate) && IsIsoDate(today)
    ensures IsExpiredOn(Some(expireDate), today) <==> DayNumber(expireDate) < DayNumber(today)
  {
    IsoDateOrder(expireDate, today);
  }
}
