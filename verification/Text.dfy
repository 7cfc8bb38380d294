/** Text primitives shared by the other modules: the decimal numerals `{}` and
    `{:0w}` print, and the character-by-character order in which file names and
    strings are compared. */
module Text {

  predicate IsDigit(c: char) {
    '0' <= c <= '9'
  }

  predicate AllDigits(s: string) {
    forall i :: 0 <= i < |s| ==> IsDigit(s[i])
  }

  function Digit(d: nat): (c: char)
    requires d < 10
    ensures IsDigit(c)
    ensures c as int - '0' as int == d
  {
    ('0' as int + d) as char
  }

  /** The shortest decimal numeral of `n`. */
  function Decimal(n: nat): (s: string)
    ensures |s| > 0 && AllDigits(s)
  {
    if n < 10 then [Digit(n)] else Decimal(n / 10) + [Digit(n % 10)]
  }

  /** The number a digit string denotes. */
  function Value(s: string): nat
    requires AllDigits(s)
  {
    if s == [] then 0 else 10 * Value(s[..|s| - 1]) + (s[|s| - 1] as int - '0' as int)
  }

  lemma {:induction false} ValueOfDecimal(n: nat)
    ensures Value(Decimal(n)) == n
  {
    if n >= 10 {
      ValueOfDecimal(n / 10);
      assert Decimal(n)[..|Decimal(n)| - 1] == Decimal(n / 10);
    } else {
      assert Decimal(n)[..0] == [];
    }
  }

  /** Distinct numbers print distinctly. */
  lemma {:induction false} DecimalInjective(m: nat, n: nat)
    requires Decimal(m) == Decimal(n)
    ensures m == n
  {
    ValueOfDecimal(m);
    ValueOfDecimal(n);
  }

  /** `w` zeros. */
  function Zeros(w: nat): (s: string)
    ensures |s| == w && AllDigits(s)
  {
    seq(w, _ => '0')
  }

  /** `n` padded on the left with zeros to at least `w` characters. */
  function Padded(n: nat, w: nat): (s: string)
    ensures AllDigits(s) && |s| >= w
  {
    var d := Decimal(n);
    if |d| >= w then d else Zeros(w - |d|) + d
  }

  lemma {:induction false} ValueOfZeros(w: nat, s: string)
    requires AllDigits(s)
    ensures AllDigits(Zeros(w) + s) && Value(Zeros(w) + s) == Value(s)
  {
    var z := Zeros(w) + s;
    if s != [] {
      ValueOfZeros(w, s[..|s| - 1]);
      assert z[..|z| - 1] == Zeros(w) + s[..|s| - 1];
    } else if w > 0 {
      ValueOfZeros(w - 1, s);
      assert z[..|z| - 1] == Zeros(w - 1) + s;
    } else {
      assert z == s;
    }
  }

  lemma {:induction false} ValueOfPadded(n: nat, w: nat)
    ensures Value(Padded(n, w)) == n
  {
    hide Value, Decimal, Zeros;
    ValueOfDecimal(n);
    var d := Decimal(n);
    if |d| < w {
      ValueOfZeros(w - |d|, d);
    }
  }

  function Pow10(w: nat): (p: nat)
    ensures p >= 1
  {
    if w == 0 then 1 else 10 * Pow10(w - 1)
  }

  lemma {:induction false} DecimalLength(n: nat, w: nat)
    requires w >= 1
    ensures |Decimal(n)| <= w <==> n < Pow10(w)
  {
    if n < 10 {
      assert Pow10(w) == 10 * Pow10(w - 1);
    } else if w > 1 {
      DecimalLength(n / 10, w - 1);
      assert Pow10(w) == 10 * Pow10(w - 1);
    } else {
      assert Pow10(1) == 10 * Pow10(0);
    }
  }

  /** A padded numeral has exactly `w` characters if and only if it fits. */
  lemma {:induction false} PaddedLength(n: nat, w: nat)
    requires w >= 1
    ensures |Padded(n, w)| == w <==> n < Pow10(w)
  {
    DecimalLength(n, w);
  }

  /** Strict lexicographic order, a proper prefix first. */
  predicate Less(a: string, b: string) {
    b != [] && (a == [] || a[0] < b[0] || (a[0] == b[0] && Less(a[1..], b[1..])))
  }

  predicate AtMost(a: string, b: string) {
    a == b || Less(a, b)
  }

  lemma {:induction false} LessIrreflexive(a: string)
    ensures !Less(a, a)
  {
    if a != [] {
      LessIrreflexive(a[1..]);
    }
  }

  lemma {:induction false} LessTransitive(a: string, b: string, c: string)
    requires Less(a, b) && Less(b, c)
    ensures Less(a, c)
  {
    if a != [] && a[0] == b[0] == c[0] {
      LessTransitive(a[1..], b[1..], c[1..]);
    }
  }

  lemma {:induction false} LessTotal(a: string, b: string)
    ensures a == b || Less(a, b) || Less(b, a)
  {
    if a != [] && b != [] && a[0] == b[0] {
      LessTotal(a[1..], b[1..]);
      assert a == [a[0]] + a[1..] && b == [b[0]] + b[1..];
    }
  }

  /** Equal-length heads are compared before the tails. */
  lemma {:induction false} LessOfConcat(a: string, b: string, c: string, d: string)
    requires |a| == |b|
    ensures Less(a + c, b + d) <==> Less(a, b) || (a == b && Less(c, d))
  {
    if a == [] {
      assert a + c == c && b + d == d;
    } else {
      LessOfConcat(a[1..], b[1..], c, d);
      assert (a + c)[1..] == a[1..] + c && (b + d)[1..] == b[1..] + d;
      assert a == [a[0]] + a[1..] && b == [b[0]] + b[1..];
    }
  }

  /** On numerals of one width the string order is the numeric order. */
  lemma {:induction false} LessIsNumeric(a: string, b: string)
    requires |a| == |b| && AllDigits(a) && AllDigits(b)
    ensures Less(a, b) <==> Value(a) < Value(b)
    ensures a == b <==> Value(a) == Value(b)
  {
    if a != [] {
      var k := |a| - 1;
      LessIsNumeric(a[..k], b[..k]);
      assert a == a[..k] + [a[k]] && b == b[..k] + [b[k]];
      LessOfConcat(a[..k], b[..k], [a[k]], [b[k]]);
      assert Less([a[k]], [b[k]]) <==> a[k] < b[k];
    }
  }
}
