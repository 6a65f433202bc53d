/** Bit operations on unbounded naturals, and what masks and shifts compute. */
module Bits {

  function Pow2(n: nat): (r: nat)
    ensures r >= 1
  {
    if n == 0 then 1 else 2 * Pow2(n - 1)
  }

  function And(a: nat, b: nat): nat {
    if a == 0 || b == 0 then 0
    else (if a % 2 == 1 && b % 2 == 1 then 1 else 0) + 2 * And(a / 2, b / 2)
  }

  function Or(a: nat, b: nat): nat
    decreases a + b
  {
    if a == 0 then b
    else if b == 0 then a
    else (if a % 2 == 1 || b % 2 == 1 then 1 else 0) + 2 * Or(a / 2, b / 2)
  }

  function Shl(a: nat, n: nat): nat { a * Pow2(n) }

  function Quotient(a: nat, d: nat): nat
    requires d >= 1
  {
    a / d
  }

  function Shr(a: nat, n: nat): nat { Quotient(a, Pow2(n)) }

  lemma {:induction false} Pow2Add(m: nat, n: nat)
    ensures Pow2(m + n) == Pow2(m) * Pow2(n)
  {
    if m != 0 {
      Pow2Add(m - 1, n);
      var p, q := Pow2(m - 1), Pow2(n);
      assert Pow2(m) == 2 * p && Pow2(m + n) == 2 * Pow2(m - 1 + n);
      hide Pow2;
      Regrouped(p, q);
    }
  }

  lemma Regrouped(p: nat, q: nat)
    ensures 2 * (p * q) == (2 * p) * q
  {
  }

  lemma {:induction false} Pow2Grows(m: nat, n: nat)
    requires m <= n
    ensures Pow2(m) <= Pow2(n)
  {
    if m < n { Pow2Grows(m, n - 1); }
  }

  lemma Pow2Of4()
    ensures Pow2(4) == 16
  {
  }

  lemma Pow2Steps()
    ensures Pow2(8) == 0x100 && Pow2(16) == 0x1_0000 && Pow2(32) == 0x1_0000_0000
    ensures Pow2(128) == 0x1_0000_0000_0000_0000_0000_0000_0000_0000
  {
    hide Pow2;
    Pow2Of4();
    Pow2Add(4, 4);
    Pow2Add(8, 8);
    Pow2Add(16, 16);
    Pow2Add(32, 32);
    Pow2Add(64, 64);
  }

  lemma HalfQuotient(a: nat, d: nat)
    requires d >= 1
    ensures a / (2 * d) == (a / 2) / d
    ensures a % (2 * d) == a % 2 + 2 * ((a / 2) % d)
  {
    var q, r := (a / 2) / d, (a / 2) % d;
    assert a / 2 == q * d + r;
    assert a == 2 * (q * d + r) + a % 2 == q * (2 * d) + (2 * r + a % 2);
    QuotientUnique(a, 2 * d, q, 2 * r + a % 2);
  }

  lemma Multiples(x: nat, y: nat, d: nat)
    ensures x < y ==> x * d + d <= y * d
    ensures x <= y ==> x * d <= y * d
  {
    if x <= y {
      var k := y - x;
      assert y * d == (x + k) * d == x * d + k * d;
      AtLeastOne(k, d);
    }
  }

  lemma {:induction false} AtLeastOne(k: nat, d: nat)
    ensures 0 <= k * d
    ensures k >= 1 ==> k * d >= d
  {
    if k > 1 {
      AtLeastOne(k - 1, d);
      assert k * d == (k - 1) * d + d;
    }
  }

  lemma QuotientUnique(a: nat, d: nat, q: nat, r: nat)
    requires d >= 1 && r < d && a == q * d + r
    ensures a / d == q && a % d == r
  {
    var p, s := a / d, a % d;
    assert a == p * d + s;
    SameDivision(p, s, q, r, d);
  }

  lemma SameDivision(p: nat, s: nat, q: nat, r: nat, d: nat)
    requires s < d && r < d && p * d + s == q * d + r
    ensures p == q && s == r
  {
    Multiples(q, p, d);
    Multiples(p, q, d);
  }

  /** A quotient names the block of `d` numbers that holds the dividend. */
  lemma InBlock(a: nat, q: nat, d: nat)
    requires d >= 1
    ensures Quotient(a, d) == q <==> q * d <= a < q * d + d
  {
    if q * d <= a < q * d + d { QuotientUnique(a, d, q, a - q * d); }
    assert a == (a / d) * d + a % d;
  }

  /** Appending low bits below a shifted value is addition. */
  lemma {:induction false} OrIsAppend(a: nat, b: nat, n: nat)
    requires b < Pow2(n)
    ensures Or(Shl(a, n), b) == Shl(a, n) + b
  {
    hide Shl;
    ShiftNothing(a, n);
    if n > 0 && a > 0 && b > 0 {
      ShlHalf(a, n);
      OrIsAppend(a, b / 2, n - 1);
    }
  }

  lemma AndOdd(a: nat, b: nat)
    requires a > 0
    ensures And(a, 2 * b + 1) == a % 2 + 2 * And(a / 2, b)
  {
    assert (2 * b + 1) / 2 == b && (2 * b + 1) % 2 == 1;
  }

  lemma AndNothing(a: nat, b: nat)
    ensures And(a, 0) == 0 && And(0, b) == 0
  {
  }

  lemma Pow2Step(n: nat)
    ensures Pow2(n) == if n == 0 then 1 else 2 * Pow2(n - 1)
  {
  }

  /** A mask of low ones keeps the remainder. */
  lemma {:induction false} AndLowMask(a: nat, n: nat)
    ensures And(a, Pow2(n) - 1) == a % Pow2(n)
  {
    hide Pow2, And;
    Pow2Step(n);
    AndNothing(a, Pow2(n) - 1);
    if n == 0 {
    } else if a == 0 {
      QuotientUnique(0, Pow2(n), 0, 0);
    } else {
      AndLowMask(a / 2, n - 1);
      HalfQuotient(a, Pow2(n - 1));
      AndOdd(a, Pow2(n - 1) - 1);
    }
  }

  /** Shifting by one place more doubles. */
  lemma ShlHalf(a: nat, n: nat)
    requires n > 0
    ensures Shl(a, n) == 2 * Shl(a, n - 1)
    ensures a > 0 ==> Shl(a, n - 1) > 0
  {
    assert a * (2 * Pow2(n - 1)) == 2 * (a * Pow2(n - 1));
    if a > 0 { Multiples(1, a, Pow2(n - 1)); }
  }

  lemma ShrHalf(a: nat, n: nat)
    requires n > 0
    ensures Shr(a, n) == Shr(a / 2, n - 1)
  {
    HalfQuotient(a, Pow2(n - 1));
  }

  lemma ShiftNothing(a: nat, n: nat)
    ensures Shl(a, 0) == a && Shr(a, 0) == a && Shl(0, n) == 0 && Shr(0, n) == 0
  {
    QuotientUnique(0, Pow2(n), 0, 0);
  }

  /** Masking with shifted ones acts on the shifted value. */
  lemma {:induction false} AndShifted(a: nat, m: nat, n: nat)
    ensures And(a, Shl(m, n)) == Shl(And(Shr(a, n), m), n)
  {
    hide Shl, Shr;
    ShiftNothing(a, n);
    ShiftNothing(m, n);
    ShiftNothing(And(a, m), n);
    if n == 0 || a == 0 || m == 0 {
      assert And(a, 0) == 0 && And(0, m) == 0 && And(0, Shl(m, n)) == 0 && And(Shr(a, n), 0) == 0;
    } else {
      ShlHalf(m, n);
      ShrHalf(a, n);
      AndShifted(a / 2, m, n - 1);
      var r := And(Shr(a, n), m);
      hide And;
      ShlHalf(r, n);
      AndEven(a, Shl(m, n - 1));
    }
  }

  lemma AndEven(a: nat, b: nat)
    requires a > 0
    ensures And(a, 2 * b) == 2 * And(a / 2, b)
  {
    if b == 0 { assert And(a / 2, 0) == 0; }
  }

  lemma SmallRemainder(a: nat, d: nat)
    requires a < d
    ensures a % d == a && a / d == 0
  {
    QuotientUnique(a, d, 0, a);
  }

  lemma QuotientBound(a: nat, d: nat, e: nat)
    requires d >= 1 && a < d * e
    ensures a / d < e
  {
    Multiples(e, a / d, d);
    assert a == (a / d) * d + a % d;
  }

  /** Masking the top `prefix` of `bits` bits clears the rest. */
  lemma PrefixMask(a: nat, bits: nat, prefix: nat)
    requires prefix <= bits && a < Pow2(bits)
    ensures And(a, Shl(Pow2(prefix) - 1, bits - prefix)) == Shl(Shr(a, bits - prefix), bits - prefix)
  {
    var host := bits - prefix;
    Pow2Add(host, prefix);
    QuotientBound(a, Pow2(host), Pow2(prefix));
    AndShifted(a, Pow2(prefix) - 1, host);
    AndLowMask(Shr(a, host), prefix);
    SmallRemainder(Shr(a, host), Pow2(prefix));
  }

  lemma ShlInjective(a: nat, b: nat, n: nat)
    ensures Shl(a, n) == Shl(b, n) <==> a == b
  {
    hide Pow2;
    Multiples(a, b, Pow2(n));
    Multiples(b, a, Pow2(n));
  }
}
