/**
 * Certificates of primality.  The table sizes of blt/lib/libblt/hash.c were found
 * by trial division up to the square root; here each of them gets a proof
 * that is short enough to check: Lucas's converse of Fermat's theorem.
 */
module Primality {
  import opened Probing

  /** `a` to the `n`, modulo `p`. */
  ghost function Pow(a: int, n: nat, p: int): (r: int)
    requires 1 < p
    ensures 0 <= r < p
  {
    if n == 0 then 1 else a * Pow(a, n - 1, p) % p
  }

  lemma Magnitude(p: int, k: int)
    requires 0 < p
    ensures k >= 1 ==> p * k >= p
    ensures k <= 0 ==> p * k <= 0
    ensures k <= -1 ==> p * k <= -p
  {
  }

  lemma MulModLeft(x: int, y: int, p: int)
    requires 1 < p
    ensures x % p * y % p == x * y % p
  {
    var q, r := x / p, x % p;
    assert x * y == r * y + p * (q * y) by {
      assert x == p * q + r;
      assert (p * q + r) * y == p * q * y + r * y;
    }
    AddMultiple(r * y, q * y, p);
  }

  lemma AddMultiple(x: int, k: int, p: int)
    requires 1 < p
    ensures (x + p * k) % p == x % p
  {
    var q, r := x / p, x % p;
    assert x + p * k == p * (q + k) + r;
    SameRemainder(x + p * k, q + k, r, p);
  }

  lemma SameRemainder(x: int, q: int, r: int, p: int)
    requires 1 < p && x == p * q + r && 0 <= r < p
    ensures x % p == r
  {
    var q', r' := x / p, x % p;
    assert p * (q' - q) == r - r';
    Magnitude(p, q' - q);
  }

  lemma PowStep(a: int, x: int, y: int, p: int)
    requires 1 < p
    ensures a * (x * y % p) % p == a * x % p * y % p
  {
    MulModLeft(x * y, a, p);
    MulModLeft(a * x, y, p);
    assert a * x * y == x * y * a;
    assert x * y % p * a == a * (x * y % p);
  }

  lemma {:induction false} PowAdd(a: int, m: nat, n: nat, p: int)
    requires 1 < p
    ensures Pow(a, m + n, p) == Pow(a, m, p) * Pow(a, n, p) % p
  {
    var y := Pow(a, n, p);
    if m == 0 {
      SameRemainder(y, 0, y, p);
    } else {
      PowAdd(a, m - 1, n, p);
      PowStep(a, Pow(a, m - 1, p), y, p);
    }
  }

  /** Powers of a power that is 1 are 1. */
  lemma {:induction false} PowOfOne(a: int, n: nat, k: nat, p: int)
    requires 1 < p && Pow(a, n, p) == 1
    ensures Pow(a, n * k, p) == 1
  {
    if k == 0 {
      assert n * k == 0;
    } else {
      PowOfOne(a, n, k - 1, p);
      assert n * k == n + n * (k - 1);
      PowAdd(a, n, n * (k - 1), p);
      SameRemainder(1, 0, 1, p);
    }
  }

  /** One or zero as the last binary digit of the exponent. */
  lemma Next(a: int, p: int, n: nat, x: int, m: nat, y: int)
    requires 1 < p && Pow(a, n, p) == x
    requires m == 2 * n || m == 2 * n + 1
    requires y == (if m == 2 * n then x * x else x * x * a) % p
    ensures Pow(a, m, p) == y
  {
    hide Pow;
    PowAdd(a, n, n, p);
    if m != 2 * n {
      PowOneMore(a, 2 * n, p);
      MulModLeft(x * x, a, p);
      assert a * (x * x % p) == x * x % p * a;
    }
  }

  lemma PowOneMore(a: int, n: nat, p: int)
    requires 1 < p
    ensures Pow(a, n + 1, p) == a * Pow(a, n, p) % p
  {
  }

  /** Four binary digits of the exponent. */
  lemma Next4(a: int, p: int, n: nat, x: int, n1: nat, y1: int, n2: nat, y2: int, n3: nat, y3: int, m: nat, y: int)
    requires 1 < p && Pow(a, n, p) == x
    requires n1 == 2 * n || n1 == 2 * n + 1
    requires y1 == (if n1 == 2 * n then x * x else x * x * a) % p
    requires n2 == 2 * n1 || n2 == 2 * n1 + 1
    requires y2 == (if n2 == 2 * n1 then y1 * y1 else y1 * y1 * a) % p
    requires n3 == 2 * n2 || n3 == 2 * n2 + 1
    requires y3 == (if n3 == 2 * n2 then y2 * y2 else y2 * y2 * a) % p
    requires m == 2 * n3 || m == 2 * n3 + 1
    requires y == (if m == 2 * n3 then y3 * y3 else y3 * y3 * a) % p
    ensures Pow(a, m, p) == y
  {
    hide Pow;
    Next(a, p, n, x, n1, y1);
    Next(a, p, n1, y1, n2, y2);
    Next(a, p, n2, y2, n3, y3);
    Next(a, p, n3, y3, m, y);
  }

  // ---- what divides a product of primes

  /** If `m` divides `d*r` and `q*r`, with `q` prime and `0 < d < q`, then `m` divides `r`. */
  lemma {:induction false} CommonMultiple(m: int, q: int, d: int, r: int, j: int, k: int) returns (h: int)
    requires Prime(q) && 0 < d < q
    requires d * r == m * j && q * r == m * k
    ensures r == m * h
    decreases d
  {
    if d == 1 {
      h := j;
    } else {
      var e, f := q / d, q % d;
      assert q == e * d + f;
      calc {
        f * r;
        (q - e * d) * r;
        q * r - (e * d) * r;
        q * r - e * (d * r);
        m * k - e * (m * j);
        m * (k - e * j);
      }
      h := CommonMultiple(m, q, f, r, k - e * j, k);
    }
  }

  ghost function Product(qs: seq<int>): int {
    if qs == [] then 1 else qs[0] * Product(qs[1..])
  }

  /** `n` is `m` times `k`. */
  ghost predicate Multiple(n: int, m: int, k: int) {
    n == m * k
  }

  ghost predicate AllPrime(qs: seq<int>) {
    forall i :: 0 <= i < |qs| ==> Prime(qs[i])
  }

  /** A divisor above 1 of a product of primes is a multiple of one of them. */
  lemma {:induction false} DivisorOfProduct(m: int, k: int, qs: seq<int>) returns (q: int, h: int)
    requires 1 < m && Multiple(Product(qs), m, k) && AllPrime(qs)
    ensures q in qs && Multiple(m, q, h)
    decreases |qs|
  {
    hide Prime, Multiple;
    if qs == [] {
      NotOne(m, k);
      q, h := 0, 0;
      assert false;
    } else {
      var g;
      h, g := DivideOut(m, k, qs[0], Product(qs[1..]));
      if Multiple(m, qs[0], h) {
        q := qs[0];
      } else {
        q, h := DivisorOfProduct(m, g, qs[1..]);
      }
    }
  }

  /** Euclid's lemma, for a prime `q`. */
  lemma DivideOut(m: int, k: int, q: int, r: int) returns (h: int, g: int)
    requires 1 < m && Prime(q) && Multiple(q * r, m, k)
    ensures Multiple(m, q, h) || Multiple(r, m, g)
  {
    var d := m % q;
    h, g := m / q, 0;
    assert m == q * h + d;
    if d != 0 {
      RemainderTimes(m, q, h, d, r, k);
      g := CommonMultiple(m, q, d, r, r - h * k, k);
    }
  }

  lemma RemainderTimes(m: int, q: int, h: int, d: int, r: int, k: int)
    requires m == q * h + d && q * r == m * k
    ensures d * r == m * (r - h * k)
  {
    calc {
      d * r;
      (m - q * h) * r;
      m * r - q * h * r;
      m * r - h * (q * r);
      m * r - h * (m * k);
      m * (r - h * k);
    }
  }

  lemma NotOne(m: int, k: int)
    requires 1 < m
    ensures !Multiple(1, m, k)
  {
    Magnitude(m, k);
  }

  // ---- Lucas's criterion

  /** If `a` to the `p-1` is 1, and the `n`-th power too, some power dividing `p-1` and below is. */
  lemma {:induction false} OrderDivides(a: int, p: int, n: nat) returns (d: nat, k: nat)
    requires 1 < p && Pow(a, p - 1, p) == 1
    requires 0 < n < p - 1 && Pow(a, n, p) == 1
    ensures 0 < d < p - 1 && Pow(a, d, p) == 1 && p - 1 == d * k
    decreases n
  {
    var q, r := (p - 1) / n, (p - 1) % n;
    assert p - 1 == n * q + r;
    if r == 0 {
      d, k := n, q;
    } else {
      PowOfOne(a, n, q, p);
      PowAdd(a, n * q, r, p);
      SameRemainder(Pow(a, r, p), 0, Pow(a, r, p), p);
      d, k := OrderDivides(a, p, r);
    }
  }

  /** `n` is the product of the primes `qs`, and for no `q` among them is `a` to the `(p-1)/q` 1. */
  ghost predicate Witness(p: int, a: int, n: int, qs: seq<int>) {
    && 1 < p
    && Product(qs) == n && AllPrime(qs)
    && (forall i :: 0 <= i < |qs| ==> 0 <= (p - 1) / qs[i] && Pow(a, (p - 1) / qs[i], p) != 1)
  }

  lemma NoWitness(p: int, a: int) returns (qs: seq<int>)
    requires 1 < p
    ensures Witness(p, a, 1, qs)
  {
    qs := [];
  }

  lemma AddWitness(p: int, a: int, n: int, qs: seq<int>, q: int, k: nat, x: int, m: int) returns (rs: seq<int>)
    requires Witness(p, a, n, qs) && Prime(q)
    requires p - 1 == q * k && Pow(a, k, p) == x && x != 1
    requires m == q * n
    ensures Witness(p, a, m, rs)
  {
    Quotient(p - 1, q, k);
    rs := [q] + qs;
    assert rs[1..] == qs;
  }

  /** `a` has order `p-1`, as the prime factors `qs` of `p-1` show. */
  ghost predicate Certificate(p: int, a: int, qs: seq<int>) {
    2 < p && Witness(p, a, p - 1, qs) && Pow(a, p - 1, p) == 1
  }

  lemma OrderIsFull(p: int, a: int, qs: seq<int>, n: nat)
    requires Certificate(p, a, qs)
    requires 0 < n < p - 1
    ensures Pow(a, n, p) != 1
  {
    hide Pow, Product;
    if Pow(a, n, p) == 1 {
      var d, k := OrderDivides(a, p, n);
      NotAUnitDivisor(d, k, p - 1);
      assert p - 1 == k * d;
      var q, h := DivisorOfProduct(k, d, qs);
      assert Prime(q);
      Magnitude(q, h);
      assert d * k == q * (d * h);
      Quotient(p - 1, q, d * h);
      PowOfOne(a, d, h, p);
    }
  }

  lemma NotAUnitDivisor(d: int, k: int, n: int)
    requires 0 < d < n && n == d * k
    ensures 1 < k
  {
    Magnitude(d, k);
  }

  lemma Quotient(n: int, q: int, k: int)
    requires 0 < q && n == q * k
    ensures n / q == k
  {
    var r := n - q * (n / q);
    assert q * (k - n / q) == r;
    Magnitude(q, k - n / q);
  }

  ghost function Powers(a: int, n: nat, p: int): set<int>
    requires 1 < p
  {
    if n == 0 then {} else Powers(a, n - 1, p) + {Pow(a, n - 1, p)}
  }

  lemma {:induction false} PowerAt(a: int, n: nat, p: int, x: int) returns (k: nat)
    requires 1 < p && x in Powers(a, n, p)
    ensures k < n && Pow(a, k, p) == x
  {
    if x == Pow(a, n - 1, p) {
      k := n - 1;
    } else {
      k := PowerAt(a, n - 1, p, x);
    }
  }

  /** A power with an inverse shares no divisor with the modulus. */
  lemma PowerIsUnit(p: int, a: int, k: nat, d: int)
    requires 2 < p && Pow(a, p - 1, p) == 1 && k < p - 1
    requires 1 < d && p % d == 0
    ensures Pow(a, k, p) % d != 0
  {
    hide Pow;
    PowAdd(a, k, p - 1 - k, p);
    UnitsShareNoDivisor(p, Pow(a, k, p), Pow(a, p - 1 - k, p), d);
  }

  lemma UnitsShareNoDivisor(p: int, x: int, y: int, d: int)
    requires 1 < p && x * y % p == 1
    requires 1 < d && p % d == 0
    ensures x % d != 0
  {
    if x % d == 0 {
      var u, v, w := x / d, p / d, x * y / p;
      assert x == d * u && p == d * v;
      assert x * y == p * w + 1;
      calc {
        1;
        x * y - p * w;
        d * u * y - d * v * w;
        d * (u * y - v * w);
      }
      NotOne(d, u * y - v * w);
    }
  }

  /** Below the order, powers are distinct. */
  lemma PowersDiffer(p: int, a: int, qs: seq<int>, m: nat, n: nat)
    requires Certificate(p, a, qs)
    requires m < n < p - 1
    ensures Pow(a, m, p) != Pow(a, n, p)
  {
    hide Pow, Certificate;
    if Pow(a, m, p) == Pow(a, n, p) {
      var r := p - 1 - m;
      assert Certificate(p, a, qs) ==> 2 < p && Pow(a, p - 1, p) == 1 by { CertificateParts(p, a, qs); }
      PowAdd(a, m, r, p);
      PowAdd(a, n, r, p);
      assert n + r == (p - 1) + (n - m);
      PowAdd(a, p - 1, n - m, p);
      SameRemainder(Pow(a, n - m, p), 0, Pow(a, n - m, p), p);
      OrderIsFull(p, a, qs, n - m);
    }
  }

  lemma CertificateParts(p: int, a: int, qs: seq<int>)
    requires Certificate(p, a, qs)
    ensures 2 < p && Pow(a, p - 1, p) == 1
  {
  }

  lemma {:induction false} PowersCount(p: int, a: int, qs: seq<int>, n: nat)
    requires Certificate(p, a, qs) && n <= p - 1
    ensures |Powers(a, n, p)| == n
    ensures forall x :: x in Powers(a, n, p) ==> 0 < x < p
  {
    hide Pow, Certificate;
    CertificateParts(p, a, qs);
    if n != 0 {
      PowersCount(p, a, qs, n - 1);
      var x := Pow(a, n - 1, p);
      PowerIsUnit(p, a, n - 1, p);
      if x in Powers(a, n - 1, p) {
        var k := PowerAt(a, n - 1, p, x);
        PowersDiffer(p, a, qs, k, n - 1);
      }
    }
  }

  /** Lucas: a residue of order `p - 1` makes `p` prime. */
  lemma Lucas(p: int, a: int, qs: seq<int>)
    requires Certificate(p, a, qs)
    ensures Prime(p)
  {
    hide Pow, Certificate;
    CertificateParts(p, a, qs);
    PowersCount(p, a, qs, p - 1);
    SubsetOfSameSize(Powers(a, p - 1, p) + {0}, Below(p));
    forall d | 1 < d < p ensures p % d != 0 {
      if p % d == 0 {
        var k := PowerAt(a, p - 1, p, d);
        PowerIsUnit(p, a, k, d);
      }
    }
  }

  // ---- trial division, for primes below 529

  /** `q` is not a proper multiple of a prime below 23. */
  ghost predicate Tried(q: int) {
    && (q == 2 || q % 2 != 0) && (q == 3 || q % 3 != 0) && (q == 5 || q % 5 != 0)
    && (q == 7 || q % 7 != 0) && (q == 11 || q % 11 != 0) && (q == 13 || q % 13 != 0)
    && (q == 17 || q % 17 != 0) && (q == 19 || q % 19 != 0)
  }

  const PRIMES_BELOW_23: set<int> := {2, 3, 5, 7, 11, 13, 17, 19}

  lemma SmallFactor(d: int) returns (r: int, k: int)
    requires 1 < d < 23
    ensures r in PRIMES_BELOW_23 && 0 < k && d == r * k
  {
    if d % 2 == 0 {
      r, k := 2, d / 2;
    } else if d % 3 == 0 {
      r, k := 3, d / 3;
    } else {
      r, k := d, 1;
    }
  }

  lemma TriedFactor(q: int, r: int, k: int)
    requires Tried(q) && r in PRIMES_BELOW_23 && q == r * k
    ensures q == r
  {
    SameRemainder(q, k, 0, r);
  }

  lemma TriedDivisor(q: int, d: int, e: int)
    requires Tried(q) && q == d * e && 1 < d <= e
    ensures d > 22
  {
    hide Tried, PRIMES_BELOW_23;
    if d <= 22 {
      var r, k := SmallFactor(d);
      assert q == r * (k * e);
      TriedFactor(q, r, k * e);
    }
  }

  lemma TrialDivision(q: int)
    requires Tried(q) && 1 < q < 529
    ensures Prime(q)
  {
    hide Tried;
    forall d | 1 < d < q ensures q % d != 0 {
      NoFactors(q, d, q / d);
    }
  }

  lemma NoFactors(q: int, d: int, e: int)
    requires Tried(q) && 1 < d < q < 529
    ensures q != d * e
  {
    hide Tried;
    if q == d * e {
      Magnitude(d, e - 1);
      NotAUnitDivisor(d, e, q);
      if d <= e {
        TriedDivisor(q, d, e);
        Square(d, e);
      } else {
        TriedDivisor(q, e, d);
        Square(e, d);
      }
    }
  }

  lemma Square(d: int, e: int)
    requires 22 < d <= e
    ensures d * e >= 529
  {
    Magnitude(d, e - 23);
    assert d * e == d * (e - 23) + 23 * d;
  }
}
