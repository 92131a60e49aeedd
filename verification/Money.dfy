/**
  The money arithmetic shared by the cart and the order service.

  Prices are whole paisa; the program holds them as decimal strings with two
  digits and adds them up in binary64.  Fl is round-to-nearest, ties-to-even,
  with 53 significant bits and an unbounded exponent (section 4.3.1 of IEEE
  754-2019); ToFixed2 is Number.prototype.toFixed(2) (section 21.1.3.3 of
  ECMA-262).
*/
module Money {

  /** One priced line: unit price in paisa, and a quantity. */
  datatype Priced = Priced(price: nat, quantity: nat)

  const TWO52: real := 4503599627370496.0
  const TWO53: real := 9007199254740992.0
  /** Half a unit in the last place, relative: 2^-53. */
  const UNIT: real := 1.0 / 9007199254740992.0

  function Abs(x: real): real {
    if x < 0.0 then -x else x
  }

  // ----- binary64 rounding -----

  function RoundHalfEven(x: real): (n: int)
    requires 0.0 <= x
    ensures Abs(n as real - x) <= 0.5
    ensures Abs(n as real - x) == 0.5 ==> n % 2 == 0
  {
    var f := x.Floor;
    var d := x - f as real;
    if d < 0.5 || (d == 0.5 && f % 2 == 0) then f else f + 1
  }

  /** Rounding of a value at or above the smallest 53-bit integer. */
  function FlHigh(x: real): (y: real)
    requires TWO52 <= x
    ensures Abs(y - x) <= UNIT * x
    decreases x.Floor
  {
    if x < TWO53 then RoundHalfEven(x) as real else 2.0 * FlHigh(x / 2.0)
  }

  /** Doublings left before x, scaled up, reaches the 53-bit integers. */
  function Scalings(x: real): (n: nat)
    requires 0.0 < x
  {
    (TWO53 / x).Floor
  }

  lemma ScalingShrinks(x: real)
    requires 0.0 < x < TWO52
    ensures Scalings(x + x) < Scalings(x)
  {
    var v := TWO53 / x;
    assert v * x == TWO53;
    assert !(v <= 2.0) by { if v <= 2.0 { MulMono(v, 2.0, x); } }
    assert (v / 2.0) * (x + x) == TWO53;
    assert TWO53 / (x + x) == v / 2.0;
  }

  /** Rounding of a positive value below it, by scaling up. */
  function FlLow(x: real): (y: real)
    requires 0.0 < x < TWO53
    ensures Abs(y - x) <= UNIT * x
    decreases Scalings(x)
  {
    if TWO52 <= x then RoundHalfEven(x) as real
    else
      ScalingShrinks(x);
      FlLow(x + x) / 2.0
  }

  /** The binary64 value nearest to x: within half a unit in the last place. */
  function Fl(x: real): (y: real)
    requires 0.0 <= x
    ensures Abs(y - x) <= UNIT * x
    ensures 0.0 <= y
  {
    if x == 0.0 then 0.0 else if x < TWO53 then FlLow(x) else FlHigh(x)
  }

  // ----- Fl(x) is the binary64 value nearest to x -----

  function Pow2(k: nat): (p: real)
    ensures p >= 1.0 && (k > 0 ==> p >= 2.0)
  {
    if k == 0 then 1.0 else 2.0 * Pow2(k - 1)
  }

  /** m, below 2^53, scaled up or down by 2^k. */
  predicate Scaled(y: real, m: nat, k: nat) {
    m < 0x20_0000_0000_0000 && (y == m as real * Pow2(k) || y * Pow2(k) == m as real)
  }

  /** The non-negative values with 53 significant bits. */
  ghost predicate IsFloat(y: real) {
    exists m: nat, k: nat :: Scaled(y, m, k)
  }

  lemma FloatDoubles(y: real)
    requires IsFloat(y)
    ensures IsFloat(y + y)
  {
    var m: nat, k: nat :| Scaled(y, m, k);
    if y == m as real * Pow2(k) {
      assert y + y == m as real * (2.0 * Pow2(k));
      assert Scaled(y + y, m, k + 1);
    } else {
      assert k > 0;
      assert (y + y) * Pow2(k - 1) == y * (2.0 * Pow2(k - 1));
      assert Scaled(y + y, m, k - 1);
    }
  }

  lemma FloatHalves(y: real)
    requires IsFloat(y)
    ensures IsFloat(y / 2.0)
  {
    var m: nat, k: nat :| Scaled(y, m, k);
    if y * Pow2(k) == m as real {
      assert (y / 2.0) * (2.0 * Pow2(k)) == y * Pow2(k);
      assert Scaled(y / 2.0, m, k + 1);
    } else {
      assert k > 0;
      assert m as real * Pow2(k - 1) == (m as real * (2.0 * Pow2(k - 1))) / 2.0;
      assert Scaled(y / 2.0, m, k - 1);
    }
  }

  lemma RoundedIsFloat(x: real)
    requires TWO52 <= x < TWO53
    ensures IsFloat(RoundHalfEven(x) as real)
  {
    var n := RoundHalfEven(x);
    if n < 0x20_0000_0000_0000 {
      assert Pow2(0) == 1.0;
      assert Scaled(n as real, n, 0);
    } else {
      assert Pow2(1) == 2.0 * Pow2(0) == 2.0;
      assert Scaled(n as real, 0x10_0000_0000_0000, 1);
    }
  }

  /** A 53-bit value is a whole number or lies below 2^52. */
  lemma WholeOrSmall(y: real) returns (n: int)
    requires IsFloat(y)
    ensures y == n as real || y < TWO52
  {
    var m: nat, k: nat :| Scaled(y, m, k);
    if k > 0 && y * Pow2(k) == m as real {
      n := 0;
      SmallQuotient(y, Pow2(k), m);
    } else {
      n := WholeMultiple(y, m, k);
    }
  }

  lemma WholeMultiple(y: real, m: nat, k: nat) returns (n: int)
    requires y == m as real * Pow2(k) || (k == 0 && y * Pow2(k) == m as real)
    ensures y == n as real
  {
    PowIsWhole(k);
    ProductIsWhole(m, PowInt(k));
    n := m * PowInt(k);
  }

  lemma ProductIsWhole(m: nat, p: nat)
    ensures m as real * p as real == (m * p) as real
  {}

  lemma SmallQuotient(y: real, p: real, m: nat)
    requires p >= 2.0 && y * p == m as real && m < 0x20_0000_0000_0000
    ensures y < TWO52
  {
    if y >= 0.0 {
      MulMono(2.0, p, y);
      assert 2.0 * y <= m as real;
    }
  }

  /** No 53-bit value lies nearer to x than the integer x rounds to, where those integers start. */
  lemma IntegerIsNearest(x: real, y: real)
    requires TWO52 <= x < TWO53 && IsFloat(y)
    ensures IsFloat(RoundHalfEven(x) as real)
    ensures Abs(RoundHalfEven(x) as real - x) <= Abs(y - x)
  {
    RoundedIsFloat(x);
    var n := WholeOrSmall(y);
    NoNearerInteger(x, if y == n as real then n else 0x10_0000_0000_0000);
  }

  function PowInt(k: nat): nat {
    if k == 0 then 1 else 2 * PowInt(k - 1)
  }

  lemma {:induction false} PowIsWhole(k: nat)
    ensures Pow2(k) == PowInt(k) as real
  {
    if k == 0 {
    } else {
      PowIsWhole(k - 1);
    }
  }

  lemma NoNearerInteger(x: real, n: int)
    requires 0.0 <= x
    ensures Abs(RoundHalfEven(x) as real - x) <= Abs(n as real - x)
  {
    var f := x.Floor;
    if n <= f { assert n as real <= f as real; } else { assert n as real >= f as real + 1.0; }
  }

  lemma {:induction false} HighIsNearest(x: real, y: real)
    requires TWO52 <= x && IsFloat(y)
    ensures IsFloat(FlHigh(x)) && Abs(FlHigh(x) - x) <= Abs(y - x)
    decreases x.Floor
  {
    if x < TWO53 {
      IntegerIsNearest(x, y);
    } else {
      FloatHalves(y);
      HighIsNearest(x / 2.0, y / 2.0);
      FloatDoubles(FlHigh(x / 2.0));
    }
  }

  lemma {:induction false} LowIsNearest(x: real, y: real)
    requires 0.0 < x < TWO53 && IsFloat(y)
    ensures IsFloat(FlLow(x)) && Abs(FlLow(x) - x) <= Abs(y - x)
    decreases Scalings(x)
  {
    if TWO52 <= x {
      IntegerIsNearest(x, y);
    } else {
      ScalingShrinks(x);
      FloatDoubles(y);
      LowIsNearest(x + x, y + y);
      FloatHalves(FlLow(x + x));
    }
  }

  /** Fl(x) has 53 significant bits, and no value that has lies nearer to x. */
  lemma FlIsNearest(x: real, y: real)
    requires 0.0 <= x && IsFloat(y)
    ensures IsFloat(Fl(x)) && Abs(Fl(x) - x) <= Abs(y - x)
  {
    if x == 0.0 {
      assert Scaled(0.0, 0, 0);
    } else if x < TWO53 {
      LowIsNearest(x, y);
    } else {
      HighIsNearest(x, y);
    }
  }

  type Rounding = real -> real

  /** The standard model of a 53-bit rounding: relative error at most 2^-53. */
  ghost predicate Nearest53(fl: Rounding) {
    forall x :: 0.0 <= x ==> 0.0 <= fl(x) && Abs(fl(x) - x) <= UNIT * x
  }

  const BINARY64: Rounding := (x: real) => if 0.0 <= x then Fl(x) else -Fl(-x)

  lemma Binary64IsNearest()
    ensures Nearest53(BINARY64)
  {}

  // ----- totals -----

  function Rupees(paisa: nat): (r: real) {
    paisa as real / 100.0
  }

  /** The exact amounts of the lines, in paisa. */
  function Amounts(lines: seq<Priced>): (a: seq<nat>) {
    seq(|lines|, i requires 0 <= i < |lines| => lines[i].price * lines[i].quantity)
  }

  function Sum(a: seq<nat>): (t: nat) {
    if a == [] then 0 else Sum(a[..|a| - 1]) + a[|a| - 1]
  }

  /** The exact total of a cart, in paisa. */
  function Exact(lines: seq<Priced>): (t: nat) {
    Sum(Amounts(lines))
  }

  /** The exact product of a value and a whole quantity. */
  function Times(x: real, n: nat): (z: real) {
    if n == 0 then 0.0 else Times(x, n - 1) + x
  }

  lemma {:induction false} TimesIsProduct(x: real, n: nat)
    ensures Times(x, n) == x * n as real
  {
    if n == 0 {
    } else {
      TimesIsProduct(x, n - 1);
    }
  }

  /** Number(unitPrice) * quantity, each operation rounded. */
  function FloatLine(fl: Rounding, l: Priced): (y: real) {
    fl(Times(fl(Rupees(l.price)), l.quantity))
  }

  function FloatLines(fl: Rounding, lines: seq<Priced>): (t: seq<real>) {
    seq(|lines|, i requires 0 <= i < |lines| => FloatLine(fl, lines[i]))
  }

  /** Left-to-right rounded accumulation, starting at zero. */
  function Accumulate(fl: Rounding, t: seq<real>): (y: real) {
    if t == [] then 0.0 else fl(Accumulate(fl, t[..|t| - 1]) + t[|t| - 1])
  }

  /** The total of a cart as the program computes it. */
  function FloatSum(fl: Rounding, lines: seq<Priced>): (y: real) {
    Accumulate(fl, FloatLines(fl, lines))
  }

  /** The integer n with n/100 nearest to x, the larger on a tie. */
  function ToFixed2(x: real): (n: int)
    ensures 100.0 * x - 0.5 < n as real <= 100.0 * x + 0.5
  {
    (100.0 * x + 0.5).Floor
  }

  // ----- error analysis -----

  const MAX_LINES: nat := 4000
  /** The largest amount numeric(12,2) holds, in paisa. */
  const MAX_TOTAL: nat := 999999999999

  lemma MulMono(a: real, b: real, c: real)
    requires a <= b && 0.0 <= c
    ensures a * c <= b * c
  {}

  /** Scaling a value by a quantity scales its error. */
  lemma Scale(p: real, v: real, q: real, u: real)
    requires 0.0 <= q && Abs(v - p) <= u * p
    ensures Abs(v * q - p * q) <= u * (p * q)
  {
    MulMono(v - p, u * p, q);
    MulMono(-(u * p), v - p, q);
    assert v * q - p * q == (v - p) * q;
    assert (u * p) * q == u * (p * q);
  }

  /** Relative error left by the two roundings of one line: a little over 2^-52. */
  const LINE_ERROR: real := 3.0 / 9007199254740992.0
  /** Absolute error one addition can leave while totals fit numeric(12,2). */
  const SUM_ERROR: real := 10000000001.0 / 9007199254740992.0

  lemma ProductError(p: real, fp: real, q: real, v: real, x: real)
    requires 0.0 <= p && 0.0 <= fp && 0.0 <= q && x == p * q && v == fp * q
    requires Abs(fp - p) <= UNIT * p
    ensures 0.0 <= x && 0.0 <= v && Abs(v - x) <= UNIT * x
  {
    Scale(p, fp, q, UNIT);
    MulMono(0.0, p, q);
    MulMono(0.0, fp, q);
  }

  /** Instance of the standard model at one value. */
  lemma Rounded(fl: Rounding, x: real)
    requires Nearest53(fl) && 0.0 <= x
    ensures 0.0 <= fl(x) && Abs(fl(x) - x) <= UNIT * x
  {}

  lemma TimesError(p: real, fp: real, n: nat, x: real)
    requires 0.0 <= p && 0.0 <= fp && x == p * n as real && Abs(fp - p) <= UNIT * p
    ensures 0.0 <= x && 0.0 <= Times(fp, n) && Abs(Times(fp, n) - x) <= UNIT * x
  {
    TimesIsProduct(fp, n);
    ProductError(p, fp, n as real, Times(fp, n), x);
  }

  lemma LineError(fl: Rounding, p: real, n: nat, x: real)
    requires Nearest53(fl) && 0.0 <= p && x == p * n as real
    ensures 0.0 <= fl(Times(fl(p), n))
    ensures Abs(fl(Times(fl(p), n)) - x) <= LINE_ERROR * x
  {
    Rounded(fl, p);
    TimesError(p, fl(p), n, x);
    Rounded(fl, Times(fl(p), n));
  }

  /** Adding one line to a running total of k lines. */
  lemma AddError(k: nat, s: real, fs: real, x: real, fx: real, w: real)
    requires k < MAX_LINES
    requires 0.0 <= s && 0.0 <= x && s + x <= Rupees(MAX_TOTAL)
    requires Abs(fs - s) <= LINE_ERROR * s + k as real * SUM_ERROR
    requires Abs(fx - x) <= LINE_ERROR * x
    requires Abs(w - (fs + fx)) <= UNIT * (fs + fx)
    ensures Abs(w - (s + x)) <= LINE_ERROR * (s + x) + (k + 1) as real * SUM_ERROR
  {
    assert k as real * SUM_ERROR <= 1.0;
  }

  /** Every term is a correctly rounded line. */
  ghost predicate Terms(t: seq<real>, a: seq<nat>) {
    |t| == |a| && forall i :: 0 <= i < |t| ==> 0.0 <= t[i] && Abs(t[i] - Rupees(a[i])) <= LINE_ERROR * Rupees(a[i])
  }

  lemma LinesAreTerms(fl: Rounding, lines: seq<Priced>)
    requires Nearest53(fl)
    ensures Terms(FloatLines(fl, lines), Amounts(lines))
  {
    forall i | 0 <= i < |lines|
      ensures var x := Rupees(Amounts(lines)[i]);
        0.0 <= FloatLines(fl, lines)[i] && Abs(FloatLines(fl, lines)[i] - x) <= LINE_ERROR * x
    {
      var l := lines[i];
      LineError(fl, Rupees(l.price), l.quantity, Rupees(Amounts(lines)[i]));
    }
  }

  /** x is a total of k lines that adds up to n paisa, up to the errors allowed. */
  ghost predicate CloseTo(x: real, n: nat, k: nat) {
    0.0 <= x && Abs(x - Rupees(n)) <= LINE_ERROR * Rupees(n) + k as real * SUM_ERROR
  }

  /** The accumulated error of n additions of rounded lines. */
  lemma {:induction false} SumError(fl: Rounding, t: seq<real>, a: seq<nat>)
    requires Nearest53(fl) && Terms(t, a)
    requires |t| <= MAX_LINES && Sum(a) <= MAX_TOTAL
    ensures CloseTo(Accumulate(fl, t), Sum(a), |t|)
  {
    if t == [] {
    } else {
      SumError(fl, t[..|t| - 1], a[..|a| - 1]);
      OneMoreTerm(fl, t, a);
    }
  }

  lemma OneMoreTerm(fl: Rounding, t: seq<real>, a: seq<nat>)
    requires Nearest53(fl) && Terms(t, a)
    requires 0 < |t| <= MAX_LINES && Sum(a) <= MAX_TOTAL
    requires var n := |t| - 1; CloseTo(Accumulate(fl, t[..n]), Sum(a[..n]), n)
    ensures CloseTo(Accumulate(fl, t), Sum(a), |t|)
  {
    var n := |t| - 1;
    var fs, s := Accumulate(fl, t[..n]), Rupees(Sum(a[..n]));
    Rounded(fl, fs + t[n]);
    assert Rupees(Sum(a)) == s + Rupees(a[n]);
    AddError(n, s, fs, Rupees(a[n]), t[n], Accumulate(fl, t));
  }

  /** Main result: the printed total is the exact integer sum of the lines. */
  lemma TotalIsExact(fl: Rounding, lines: seq<Priced>)
    requires Nearest53(fl)
    requires |lines| <= MAX_LINES && Exact(lines) <= MAX_TOTAL
    ensures ToFixed2(FloatSum(fl, lines)) == Exact(lines)
  {
    LinesAreTerms(fl, lines);
    SumError(fl, FloatLines(fl, lines), Amounts(lines));
  }

  // ----- printing -----

  function Digit(d: nat): char
    requires d < 10
  {
    '0' + d as char
  }

  function Digits(n: nat): (s: string)
    ensures |s| > 0
  {
    if n < 10 then [Digit(n)] else Digits(n / 10) + [Digit(n % 10)]
  }

  /** The decimal string of n hundredths, with two digits after the point. */
  function Format2(n: int): (s: string)
    ensures |s| >= 4
    decreases n < 0
  {
    if n < 0 then "-" + Format2(-n)
    else Digits(n / 100) + ['.', Digit(n / 10 % 10), Digit(n % 10)]
  }

  predicate EndsWith(s: string, suffix: string) {
    |suffix| <= |s| && s[|s| - |suffix|..] == suffix
  }

  /** The number a string of decimal digits stands for. */
  function Read(s: string): int {
    if s == [] then 0 else 10 * Read(s[..|s| - 1]) + (s[|s| - 1] as int - '0' as int)
  }

  lemma {:induction false} DigitsRead(n: nat)
    ensures Read(Digits(n)) == n && (n >= 10 ==> Digits(n)[0] != '0')
  {
    if n < 10 {
      assert Digits(n)[..0] == [];
    } else {
      DigitsRead(n / 10);
      assert Digits(n)[..|Digits(n)| - 1] == Digits(n / 10);
    }
  }

  /** A printed amount has a point before its last two digits and reads as the amount, without leading zeros. */
  lemma {:induction false} FormatReads(n: nat)
    ensures var s := Format2(n);
      && s[|s| - 3] == '.' && Read(s[..|s| - 3] + s[|s| - 2..]) == n
      && (|s| > 4 ==> s[0] != '0')
  {
    var s, whole := Format2(n), Digits(n / 100);
    DigitsRead(n / 100);
    LastTwoDigits(n, n / 10 % 10, n % 10);
    var tens, ones := Digit(n / 10 % 10), Digit(n % 10);
    assert s == whole + ['.', tens, ones];
    assert s[..|s| - 3] + s[|s| - 2..] == whole + [tens] + [ones];
    assert (whole + [tens] + [ones])[..|whole| + 1] == whole + [tens] && (whole + [tens])[..|whole|] == whole;
    if |s| > 4 { assert n / 100 >= 10; }
  }

  /** The last three characters decide the last two digits of the amount. */
  lemma EndsInThirteen(n: nat)
    ensures EndsWith(Format2(n), ".13") <==> n % 100 == 13
  {
    var s, tens, ones := Format2(n), n / 10 % 10, n % 10;
    var tail := ['.', Digit(tens), Digit(ones)];
    assert s[|s| - 3..] == tail;
    assert tail == ".13" <==> tail[1] == '1' && tail[2] == '3';
    LastTwoDigits(n, tens, ones);
  }

  lemma LastTwoDigits(n: nat, tens: nat, ones: nat)
    requires tens == n / 10 % 10 && ones == n % 10
    ensures n % 100 == 10 * tens + ones
  {}
}
