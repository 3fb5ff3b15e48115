/**
 * Double hashing modulo a prime (blt/lib/libblt/hash.c, after Knuth's Algorithm
 * 6.4D).  A probe sequence starts at some slot and walks backwards by a fixed
 * step; when the number of slots is prime the first `p` probes visit every slot
 * exactly once, which is what makes every probe loop of the table end.
 */
module Probing {
  ghost predicate Prime(p: int) {
    && 1 < p
    && forall d :: 1 < d < p ==> p % d != 0
  }

  /** One step of the probe sequence: back by `c`, wrapping below slot 0. */
  function StepBack(p: int, i: int, c: int): (j: int)
    requires 0 <= i < p && 0 < c < p
    ensures 0 <= j < p
    ensures j == i - c || j == i - c + p
  {
    if i - c < 0 then i - c + p else i - c
  }

  /** The slot of the `m`-th probe. */
  ghost function Slot(p: int, i: int, c: int, m: nat): (j: int)
    requires 0 <= i < p && 0 < c < p
    ensures 0 <= j < p
  {
    if m == 0 then i else StepBack(p, Slot(p, i, c, m - 1), c)
  }

  /** `Slot` is `i - m*c` up to a multiple of `p`. */
  lemma {:induction false} SlotIsLinear(p: int, i: int, c: int, m: nat) returns (w: int)
    requires 0 <= i < p && 0 < c < p
    ensures Slot(p, i, c, m) == i - m * c + p * w
  {
    if m == 0 {
      w := 0;
    } else {
      var v := SlotIsLinear(p, i, c, m - 1);
      w := if Slot(p, i, c, m - 1) - c < 0 then v + 1 else v;
      BackOnce(p, i, c, m, v, w, Slot(p, i, c, m - 1));
    }
  }

  lemma BackOnce(p: int, i: int, c: int, m: int, v: int, w: int, j: int)
    requires j == i - (m - 1) * c + p * v
    ensures j - c + p * (w - v) == i - m * c + p * w
    ensures w == v ==> p * (w - v) == 0
    ensures w == v + 1 ==> p * (w - v) == p
  {
    assert (m - 1) * c == m * c - c;
    assert p * (w - v) == p * w - p * v;
  }

  lemma NoSmallMultiple(p: int, k: int, c: int)
    requires 0 < c < p
    ensures c != p * k
  {
    if k >= 1 {
      assert p * k >= p;
    } else {
      assert p * k <= 0;
    }
  }

  /** Modulo a prime, no product of two nonzero residues is zero. */
  lemma {:induction false} NoZeroDivisors(p: int, c: int, d: int, k: int)
    requires Prime(p) && 0 < c < p && 0 < d < p
    ensures d * c != p * k
    decreases d
  {
    if d * c == p * k {
      if d == 1 {
        NoSmallMultiple(p, k, c);
      } else {
        var q, r := p / d, p % d;
        assert p == q * d + r;
        calc {
          r * c;
          (p - q * d) * c;
          p * c - (q * d) * c;
          p * c - q * (d * c);
          p * c - q * (p * k);
          p * (c - q * k);
        }
        NoZeroDivisors(p, c, r, c - q * k);
      }
    }
  }

  /** The first `p` probes are pairwise distinct. */
  lemma ProbesAreDistinct(p: int, i: int, c: int, m: nat, n: nat)
    requires Prime(p) && 0 <= i < p && 0 < c < p
    requires m < n < p
    ensures Slot(p, i, c, m) != Slot(p, i, c, n)
  {
    var v := SlotIsLinear(p, i, c, m);
    var w := SlotIsLinear(p, i, c, n);
    if Slot(p, i, c, m) == Slot(p, i, c, n) {
      assert n * c - m * c == (n - m) * c;
      assert p * w - p * v == p * (w - v);
      NoZeroDivisors(p, c, n - m, w - v);
    }
  }

  ghost function Visited(p: int, i: int, c: int, n: nat): set<int>
    requires 0 <= i < p && 0 < c < p
  {
    if n == 0 then {} else Visited(p, i, c, n - 1) + {Slot(p, i, c, n - 1)}
  }

  lemma {:induction false} VisitedBy(p: int, i: int, c: int, n: nat, s: int) returns (m: nat)
    requires 0 <= i < p && 0 < c < p
    requires s in Visited(p, i, c, n)
    ensures m < n && Slot(p, i, c, m) == s
  {
    if s == Slot(p, i, c, n - 1) {
      m := n - 1;
    } else {
      m := VisitedBy(p, i, c, n - 1, s);
    }
  }

  lemma NotYetVisited(p: int, i: int, c: int, n: nat)
    requires Prime(p) && 0 <= i < p && 0 < c < p
    requires n < p
    ensures Slot(p, i, c, n) !in Visited(p, i, c, n)
  {
    if Slot(p, i, c, n) in Visited(p, i, c, n) {
      var m := VisitedBy(p, i, c, n, Slot(p, i, c, n));
      ProbesAreDistinct(p, i, c, m, n);
    }
  }

  lemma {:induction false} VisitedCount(p: int, i: int, c: int, n: nat)
    requires Prime(p) && 0 <= i < p && 0 < c < p
    requires n <= p
    ensures |Visited(p, i, c, n)| == n
    ensures forall s :: s in Visited(p, i, c, n) ==> 0 <= s < p
  {
    if n != 0 {
      VisitedCount(p, i, c, n - 1);
      NotYetVisited(p, i, c, n - 1);
    }
  }

  ghost function Below(n: nat): (r: set<int>)
    ensures forall s :: s in r <==> 0 <= s < n
    ensures |r| == n
  {
    if n == 0 then {} else Below(n - 1) + {n - 1}
  }

  lemma SubsetOfSameSize(a: set<int>, b: set<int>)
    requires a <= b && |a| == |b|
    ensures a == b
  {
    assert b == a + (b - a);
    assert |b| == |a| + |b - a|;
  }

  /** Modulo a prime, every slot is among the first `p` probes. */
  lemma ProbesVisitEverySlot(p: int, i: int, c: int, s: int) returns (m: nat)
    requires Prime(p) && 0 <= i < p && 0 < c < p
    requires 0 <= s < p
    ensures m < p && Slot(p, i, c, m) == s
  {
    VisitedCount(p, i, c, p);
    SubsetOfSameSize(Visited(p, i, c, p), Below(p));
    m := VisitedBy(p, i, c, p, s);
  }
}
