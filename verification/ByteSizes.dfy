/** How a byte count is shown: the unit it is scaled to, and the quotient as it is printed. */
module ByteSizes {
  import opened Versions

  newtype uint64 = x: int | 0 <= x < 0x1_0000_0000_0000_0000

  const UNIT: uint64 := 1024
  const PREFIXES: string := "KMGTPE"

  /** A byte count below one unit is shown as it is, any other as a quotient. */
  datatype Size = Bytes(count: uint64) | Scaled(div: uint64, prefix: char)

  function Power(k: nat): nat {
    if k == 0 then 1 else 1024 * Power(k - 1)
  }

  lemma {:induction false} PowerGrows(j: nat, k: nat)
    requires j <= k
    ensures 1 <= Power(j) <= Power(k)
  {
    if j < k {
      PowerGrows(j, k - 1);
    } else if 0 < j {
      PowerGrows(j - 1, k - 1);
    }
  }

  /** In units of the k-th prefix the count reads as at least 1 and less than 1024. */
  predicate Fits(b: uint64, k: nat) {
    Power(k + 1) <= b as int < Power(k + 2)
  }

  predicate UsesPrefix(s: Size, k: nat) {
    s.Scaled? && k < |PREFIXES| && s.prefix == PREFIXES[k] && s.div as int == Power(k + 1)
  }

  ghost predicate WellScaled(b: uint64, s: Size) {
    if s.Bytes? then s.count == b < UNIT
    else exists k: nat :: UsesPrefix(s, k) && Fits(b, k)
  }

  /** Only one size is well scaled for a count. */
  lemma ScalingIsUnique(b: uint64, s: Size, t: Size)
    requires WellScaled(b, s) && WellScaled(b, t)
    ensures s == t
  {
    if s.Scaled? {
      var j: nat :| UsesPrefix(s, j) && Fits(b, j);
      FitsAtLeastUnit(b, j);
      if t.Scaled? {
        var k: nat :| UsesPrefix(t, k) && Fits(b, k);
        FitsOnce(b, j, k);
      }
    } else if t.Scaled? {
      var k: nat :| UsesPrefix(t, k) && Fits(b, k);
      FitsAtLeastUnit(b, k);
    }
  }

  lemma FitsAtLeastUnit(b: uint64, k: nat)
    requires Fits(b, k)
    ensures b >= UNIT
  {
    PowerGrows(1, k + 1);
    assert Power(1) == 1024 * Power(0);
  }

  lemma FitsOnce(b: uint64, j: nat, k: nat)
    requires Fits(b, j) && Fits(b, k)
    ensures j == k
  {
    if j < k {
      PowerGrows(j + 2, k + 1);
    } else if k < j {
      PowerGrows(k + 2, j + 1);
    }
  }

  /** The loop of fmtBytes on 64-bit words: div never overflows and the index stays
      inside the six prefixes. */
  method Scaling(b: uint64) returns (s: Size)
    ensures WellScaled(b, s)
  {
    if b < UNIT {
      return Bytes(b);
    }
    var div, exp: nat := UNIT, 0;
    var n := b / UNIT;
    assert Power(1) == 1024 * Power(0);
    while n >= UNIT
      invariant n >= 1
      invariant div as int == Power(exp + 1)
      invariant n as int * div as int <= b as int < (n as int + 1) * div as int
      decreases n
    {
      Quotient(n as int, div as int, b as int);
      assert Power(exp + 2) == 1024 * Power(exp + 1);
      div := div * UNIT;
      exp := exp + 1;
      n := n / UNIT;
    }
    Bracket(n as int, div as int, b as int);
    assert Power(exp + 2) == 1024 * Power(exp + 1);
    IndexInside(exp, b);
    s := Scaled(div, PREFIXES[exp]);
    assert UsesPrefix(s, exp) && Fits(b, exp);
  }

  lemma Quotient(n: nat, div: nat, b: nat)
    requires n >= 1024 && n * div <= b < (n + 1) * div
    ensures (n / 1024) * (div * 1024) <= b < (n / 1024 + 1) * (div * 1024)
    ensures div * 1024 <= b
  {
    var q := n / 1024;
    Scale(q * 1024, n, div);
    Scale(n + 1, (q + 1) * 1024, div);
    Scale(1024, n, div);
    assert q * (div * 1024) == (q * 1024) * div;
    assert (q + 1) * (div * 1024) == ((q + 1) * 1024) * div;
  }

  lemma Scale(a: nat, c: nat, div: nat)
    requires a <= c
    ensures a * div <= c * div
  {
    assert c * div == a * div + (c - a) * div;
  }

  lemma Bracket(n: nat, div: nat, b: nat)
    requires 1 <= n < 1024 && n * div <= b < (n + 1) * div
    ensures div <= b < 1024 * div
  {
    Scale(1, n, div);
    Scale(n + 1, 1024, div);
  }

  lemma IndexInside(exp: nat, b: uint64)
    requires Power(exp + 1) <= b as int
    ensures exp < |PREFIXES|
  {
    if exp >= 6 {
      PowerGrows(7, exp + 1);
      SevenUnits();
    }
  }

  lemma SevenUnits()
    ensures Power(7) == 0x40_0000_0000_0000_0000
  {
    assert Power(3) == 1024 * Power(2) && Power(2) == 1024 * Power(1) && Power(1) == 1024 * Power(0);
    assert Power(6) == 1024 * Power(5) && Power(5) == 1024 * Power(4) && Power(4) == 1024 * Power(3);
    assert Power(7) == 1024 * Power(6);
  }

  // Rounding

  /** n / d rounded to the nearest integer, ties to even. */
  function HalfEven(n: nat, d: nat): nat
    requires d > 0
  {
    var q, r := n / d, n % d;
    if 2 * r < d || (2 * r == d && q % 2 == 0) then q else q + 1
  }

  /** A division written out, with the product as a number of its own. */
  lemma DivMod(n: nat, d: nat) returns (q: nat, r: nat, x: nat)
    requires d > 0
    ensures q == n / d && r == n % d && x == q * d && n == x + r && r < d
    ensures HalfEven(n, d) == if 2 * r < d || (2 * r == d && q % 2 == 0) then q else q + 1
  {
    q, r, x := n / d, n % d, (n / d) * d;
  }

  lemma ScaleMore(a: nat, c: nat, d: nat)
    requires a < c
    ensures a * d + d <= c * d
  {
    Scale(a + 1, c, d);
    assert (a + 1) * d == a * d + d;
  }

  /** Rounding is off by at most half a unit. */
  lemma HalfEvenNear(n: nat, d: nat)
    requires d > 0
    ensures 2 * n <= 2 * (HalfEven(n, d) * d) + d && 2 * (HalfEven(n, d) * d) <= 2 * n + d
  {
    var q, r, x := DivMod(n, d);
    assert (q + 1) * d == x + d;
  }

  /** Rounding never leaves whole bounds. */
  lemma HalfEvenStays(n: nat, d: nat, lo: nat, hi: nat)
    requires d > 0 && lo * d <= n <= hi * d
    ensures lo <= HalfEven(n, d) <= hi
  {
    var q, r, x := DivMod(n, d);
    if q < lo {
      ScaleMore(q, lo, d);
    }
    if hi < q {
      ScaleMore(hi, q, d);
    }
  }

  /** Which numerators round up to a given even result. */
  lemma HalfEvenIs(n: nat, d: nat, even: nat)
    requires d > 0 && even > 0 && even % 2 == 0 && n <= even * d
    ensures HalfEven(n, d) == even <==> 2 * n + d >= 2 * (even * d)
  {
    var q, r, x := DivMod(n, d);
    if even < q {
      ScaleMore(even, q, d);
    }
    if q + 1 < even {
      ScaleMore(q + 1, even, d);
      assert (q + 1) * d == x + d;
    } else if q + 1 == even {
      assert even * d == x + d;
    }
  }

  // 64-bit floating point

  function Two(k: nat): nat {
    if k == 0 then 1 else 2 * Two(k - 1)
  }

  lemma {:induction false} TwoAdds(j: nat, k: nat)
    ensures Two(j + k) == Two(j) * Two(k)
  {
    if j > 0 {
      TwoAdds(j - 1, k);
      Doubles(Two(j - 1), Two(k));
    }
  }

  lemma Doubles(a: nat, c: nat)
    ensures 2 * (a * c) == (2 * a) * c
  {}

  lemma {:induction false} TwoGrows(j: nat, k: nat)
    requires j <= k
    ensures 1 <= Two(j) <= Two(k)
  {
    if j < k {
      TwoGrows(j, k - 1);
    } else if j > 0 {
      TwoGrows(j - 1, k - 1);
    }
  }

  /** The number of binary digits a number has beyond the 53 of a float's significand. */
  function Excess(b: nat): nat {
    if b < 0x20_0000_0000_0000 then 0 else 1 + Excess(b / 2)
  }

  lemma {:induction false} ExcessFits(b: nat)
    ensures b < Two(53 + Excess(b))
    ensures Excess(b) > 0 ==> Two(52 + Excess(b)) <= b
  {
    SignificandHolds();
    if b >= 0x20_0000_0000_0000 {
      ExcessFits(b / 2);
    }
  }

  lemma SignificandHolds()
    ensures Two(53) == 0x20_0000_0000_0000
  {
    TenTwos();
    TwoAdds(10, 10);
    TwoAdds(20, 10);
    TwoAdds(30, 10);
    TwoAdds(40, 10);
    assert Two(53) == 8 * Two(50);
  }

  /** The integer value of float64(b): 53 significant binary digits, ties to even. */
  function Float64(b: nat): nat {
    HalfEven(b, Unit(b)) * Unit(b)
  }

  /** The value of the last binary digit kept. */
  function Unit(b: nat): (u: nat)
    ensures u > 0
  {
    TwoGrows(0, Excess(b));
    Two(Excess(b))
  }

  lemma FloatExact(b: nat)
    requires b < Two(53)
    ensures Float64(b) == b
  {
    SignificandHolds();
    assert Unit(b) == 1;
    HalfEvenStays(b, 1, b, b);
  }

  /** Between two neighbouring units the conversion stays between them. */
  lemma FloatStays(b: nat, m: nat)
    requires Two(m) <= b < Two(m + 10)
    ensures Two(m) <= Float64(b) <= Two(m + 10)
  {
    var k := Excess(b);
    ExcessFits(b);
    if k > m {
      TwoGrows(m + 10, 52 + k);
    }
    TwoAdds(m - k, k);
    TwoAdds(m + 10 - k, k);
    RoundedStays(b, Unit(b), Two(m - k), Two(m + 10 - k));
  }

  lemma RoundedStays(n: nat, d: nat, lo: nat, hi: nat)
    requires d > 0 && lo * d <= n <= hi * d
    ensures lo * d <= HalfEven(n, d) * d <= hi * d
  {
    HalfEvenStays(n, d, lo, hi);
    Scale(lo, HalfEven(n, d), d);
    Scale(HalfEven(n, d), hi, d);
  }

  // The printed text

  /** The quotient in tenths, as "%.1f" prints it. Dividing by a power of two is exact. */
  function Tenths(b: nat, div: nat): nat
    requires div > 0
  {
    HalfEven(10 * Float64(b), div)
  }

  function Show(b: uint64, s: Size): string {
    match s
    case Bytes(count) => Decimal(count as nat) + " B"
    case Scaled(div, prefix) =>
      if div == 0 then ""
      else
        var t := Tenths(b as nat, div as nat);
        Decimal(t / 10) + "." + [Digit(t % 10)] + " " + [prefix] + "B"
  }

  /** fmtBytes. */
  method FmtBytes(b: uint64) returns (text: string)
    ensures forall s :: WellScaled(b, s) ==> text == Show(b, s)
    ensures exists s :: WellScaled(b, s) && text == Show(b, s)
  {
    var s := Scaling(b);
    forall t | WellScaled(b, t)
      ensures t == s
    {
      ScalingIsUnique(b, t, s);
    }
    return Show(b, s);
  }

  lemma {:induction false} PowerIsTwo(k: nat)
    ensures Power(k) == Two(10 * k)
  {
    if k > 0 {
      PowerIsTwo(k - 1);
      TwoAdds(10, 10 * (k - 1));
      TenTwos();
    }
  }

  lemma TenTwos()
    ensures Two(10) == 1024
  {
    assert Two(5) == 32;
    TwoAdds(5, 5);
  }

  /** What is printed lies between "1.0" and "1024.0" and is at most half a tenth off the
      float; "1024.0" instead of the next unit's "1.0" is printed exactly from 1023.95
      units on. */
  lemma PrintedQuotient(b: uint64, k: nat)
    requires Fits(b, k)
    ensures Power(k + 1) > 0
    ensures var div := Power(k + 1);
            var f, t := Float64(b as nat), Tenths(b as nat, div);
            && 10 <= t <= 10240
            && 20 * f <= 2 * (t * div) + div && 2 * (t * div) <= 20 * f + div
            && (t == 10240 <==> 20 * f >= 20479 * div)
  {
    var div := Power(k + 1);
    PowerGrows(0, k + 1);
    PowerIsTwo(k + 1);
    PowerIsTwo(k + 2);
    FloatStays(b as nat, 10 * (k + 1));
    var f := Float64(b as nat);
    assert Power(k + 2) == 1024 * div;
    HalfEvenNear(10 * f, div);
    HalfEvenStays(10 * f, div, 10, 10240);
    HalfEvenIs(10 * f, div, 10240);
  }

  /** For counts that a float holds exactly, that is a condition on the count itself. */
  lemma ReadsThousandIff(b: uint64, k: nat)
    requires Fits(b, k) && b as nat < Two(53)
    ensures Power(k + 1) > 0
    ensures Tenths(b as nat, Power(k + 1)) == 10240 <==> 20 * b as nat >= 20479 * Power(k + 1)
  {
    PrintedQuotient(b, k);
    FloatExact(b as nat);
  }
}
