/**
 * Bentley and McIlroy's quicksort (blt/lib/libc/qsort.c), on an array of elements:
 * a pivot by median of three or of nine, a partition that collects the elements
 * equal to the pivot at both ends, insertion sort for short or unswapped pieces,
 * recursion on the left part and iteration on the right one.
 */
module Qsort {
  import opened Word

  /** The comparison is antisymmetric and "at most" is transitive: a total preorder. */
  ghost predicate TotalPreorder<T(!new)>(cmp: (T, T) -> int) {
    && (forall x, y :: cmp(x, y) < 0 <==> cmp(y, x) > 0)
    && (forall x, y, z {:trigger cmp(x, y), cmp(y, z)} :: cmp(x, y) <= 0 && cmp(y, z) <= 0 ==> cmp(x, z) <= 0)
  }

  ghost predicate Sorted<T(!new)>(cmp: (T, T) -> int, s: seq<T>, lo: int, hi: int)
    requires 0 <= lo <= hi <= |s|
  {
    forall i, j :: lo <= i < j < hi ==> cmp(s[i], s[j]) <= 0
  }

  /** `t` is `s` with the elements from `lo` to `hi` in another order. */
  ghost predicate Rearranged<T(!new)>(s: seq<T>, t: seq<T>, lo: int, hi: int)
    requires 0 <= lo <= hi <= |s|
  {
    && |t| == |s|
    && t[..lo] == s[..lo] && t[hi..] == s[hi..]
    && multiset(t[lo..hi]) == multiset(s[lo..hi])
  }

  ghost function Swapped<T(!new)>(s: seq<T>, i: int, j: int): (t: seq<T>)
    requires 0 <= i < |s| && 0 <= j < |s|
    ensures |t| == |s|
  {
    s[i := s[j]][j := s[i]]
  }

  lemma SwappedFirst<T(!new)>(s: seq<T>, i: int, j: int)
    requires 0 <= i < |s| && 0 <= j < |s|
    ensures Swapped(s, i, j)[i] == s[j]
  {
  }

  lemma SwappedRearranges<T(!new)>(s: seq<T>, i: int, j: int, lo: int, hi: int)
    requires 0 <= lo <= i < hi <= |s| && lo <= j < hi
    ensures Rearranged(s, Swapped(s, i, j), lo, hi)
  {
    SwappedPermutes(s[lo..hi], i - lo, j - lo);
    SwappedRange(s, i, j, lo, hi);
  }

  lemma SwappedPermutes<T(!new)>(s: seq<T>, i: int, j: int)
    requires 0 <= i < |s| && 0 <= j < |s|
    ensures multiset(Swapped(s, i, j)) == multiset(s)
  {
  }

  lemma SwappedRange<T(!new)>(s: seq<T>, i: int, j: int, lo: int, hi: int)
    requires 0 <= lo <= i < hi <= |s| && lo <= j < hi
    ensures var t := Swapped(s, i, j);
            t[..lo] == s[..lo] && t[hi..] == s[hi..] && t[lo..hi] == Swapped(s[lo..hi], i - lo, j - lo)
  {
  }

  lemma RearrangedTrans<T(!new)>(s: seq<T>, t: seq<T>, u: seq<T>, lo: int, hi: int)
    requires 0 <= lo <= hi <= |s|
    requires Rearranged(s, t, lo, hi) && Rearranged(t, u, lo, hi)
    ensures Rearranged(s, u, lo, hi)
  {
  }

  /** Rearranging part of a range rearranges the range. */
  lemma RearrangedWiden<T(!new)>(s: seq<T>, t: seq<T>, l: int, h: int, lo: int, hi: int)
    requires 0 <= lo <= l <= h <= hi <= |s|
    requires Rearranged(s, t, l, h)
    ensures Rearranged(s, t, lo, hi)
  {
    assert s[lo..hi] == s[lo..l] + s[l..h] + s[h..hi];
    assert t[lo..hi] == t[lo..l] + t[l..h] + t[h..hi];
    assert t[lo..l] == t[..l][lo..] == s[lo..l];
    assert t[h..hi] == t[h..][..hi - h] == s[h..hi];
    assert t[..lo] == t[..l][..lo] == s[..lo];
    assert t[hi..] == t[h..][hi - h..] == s[hi..];
  }

  lemma RearrangedAt<T(!new)>(s: seq<T>, t: seq<T>, lo: int, hi: int, i: int) returns (j: int)
    requires 0 <= lo <= hi <= |s| && 0 <= i < |s|
    requires Rearranged(s, t, lo, hi)
    ensures if lo <= i < hi then lo <= j < hi else j == i
    ensures 0 <= j < |s| && t[i] == s[j]
  {
    if lo <= i < hi {
      assert t[i] == t[lo..hi][i - lo];
      assert t[i] in multiset(t[lo..hi]);
      assert t[i] in s[lo..hi];
      var k :| 0 <= k < hi - lo && s[lo..hi][k] == t[i];
      j := lo + k;
    } else if i < lo {
      j := i;
      assert t[i] == t[..lo][i] == s[..lo][i];
    } else {
      j := i;
      assert t[i] == t[hi..][i - hi] == s[hi..][i - hi];
    }
  }

  lemma SwapOnward<T(!new)>(s: seq<T>, t: seq<T>, i: int, j: int, lo: int, hi: int)
    requires 0 <= lo <= i < hi <= |s| == |t| && lo <= j < hi
    requires Rearranged(s, t, lo, hi)
    ensures Rearranged(s, Swapped(t, i, j), lo, hi)
  {
    SwappedRearranges(t, i, j, lo, hi);
    RearrangedTrans(s, t, Swapped(t, i, j), lo, hi);
  }

  lemma Elsewhere<T(!new)>(s: seq<T>, i: int, j: int, k: int)
    requires 0 <= i < |s| && 0 <= j < |s| && 0 <= k < |s| && k != i && k != j
    ensures Swapped(s, i, j)[k] == s[k]
  {
  }

  method Swap<T(!new)>(a: array<T>, i: int, j: int)
    requires 0 <= i < a.Length && 0 <= j < a.Length
    modifies a
    ensures a[..] == Swapped(old(a[..]), i, j)
  {
    a[i], a[j] := a[j], a[i];
  }

  // ---- insertion sort

  /** Sorted from `lo` to `hi`, but for the element at `k`, which is at most all that follow it. */
  ghost predicate Sinking<T(!new)>(cmp: (T, T) -> int, s: seq<T>, lo: int, k: int, hi: int)
    requires 0 <= lo <= k < hi <= |s|
  {
    && (forall i, j :: lo <= i < j < hi && i != k && j != k ==> cmp(s[i], s[j]) <= 0)
    && (forall j :: k < j < hi ==> cmp(s[k], s[j]) <= 0)
  }

  lemma SinkingStep<T(!new)>(cmp: (T, T) -> int, s: seq<T>, lo: int, k: int, hi: int)
    requires TotalPreorder(cmp)
    requires 0 <= lo < k < hi <= |s| && Sinking(cmp, s, lo, k, hi)
    requires cmp(s[k - 1], s[k]) > 0
    ensures Sinking(cmp, Swapped(s, k, k - 1), lo, k - 1, hi)
  {
  }

  lemma SinkingDone<T(!new)>(cmp: (T, T) -> int, s: seq<T>, lo: int, k: int, hi: int)
    requires TotalPreorder(cmp)
    requires 0 <= lo <= k < hi <= |s| && Sinking(cmp, s, lo, k, hi)
    requires k == lo || cmp(s[k - 1], s[k]) <= 0
    ensures Sorted(cmp, s, lo, hi)
  {
    forall i, j | lo <= i < j < hi ensures cmp(s[i], s[j]) <= 0 {
      if j == k && i < k - 1 {
        assert cmp(s[i], s[k - 1]) <= 0;
      }
    }
  }

  /** The inner loop: move the element at `pm` down to its place. */
  method Sink<T(!new)>(a: array<T>, lo: int, pm: int, cmp: (T, T) -> int)
    requires TotalPreorder(cmp)
    requires 0 <= lo < pm < a.Length
    requires Sorted(cmp, a[..], lo, pm)
    modifies a
    ensures Sorted(cmp, a[..], lo, pm + 1)
    ensures Rearranged(old(a[..]), a[..], lo, pm + 1)
  {
    hide TotalPreorder, Sorted, Rearranged, Swapped, Sinking;
    var pl := pm;
    RearrangedRefl(a[..], lo, pm + 1);
    SinkingStart(cmp, a[..], lo, pm);
    while pl > lo && cmp(a[pl - 1], a[pl]) > 0
      invariant lo <= pl <= pm
      invariant Sinking(cmp, a[..], lo, pl, pm + 1)
      invariant Rearranged(old(a[..]), a[..], lo, pm + 1)
    {
      SinkingStep(cmp, a[..], lo, pl, pm + 1);
      SwapOnward(old(a[..]), a[..], pl, pl - 1, lo, pm + 1);
      Swap(a, pl, pl - 1);
      pl := pl - 1;
    }
    SinkingDone(cmp, a[..], lo, pl, pm + 1);
  }

  method InsertionSort<T(!new)>(a: array<T>, lo: int, n: int, cmp: (T, T) -> int)
    requires TotalPreorder(cmp)
    requires 0 <= lo && 0 <= n && lo + n <= a.Length
    modifies a
    ensures Sorted(cmp, a[..], lo, lo + n)
    ensures Rearranged(old(a[..]), a[..], lo, lo + n)
  {
    hide TotalPreorder, Sorted, Rearranged, Swapped, Sinking;
    var hi := lo + n;
    RearrangedRefl(a[..], lo, hi);
    SortedShort(cmp, a[..], lo, if n == 0 then lo else lo + 1);
    var pm := lo + 1;
    while pm < hi
      invariant lo + 1 <= pm && (pm <= hi || n == 0)
      invariant Sorted(cmp, a[..], lo, if n == 0 then lo else pm)
      invariant Rearranged(old(a[..]), a[..], lo, hi)
    {
      ghost var s := a[..];
      Sink(a, lo, pm, cmp);
      RearrangedWiden(s, a[..], lo, pm + 1, lo, hi);
      RearrangedTrans(old(a[..]), s, a[..], lo, hi);
      pm := pm + 1;
    }
  }

  lemma RearrangedRefl<T(!new)>(s: seq<T>, lo: int, hi: int)
    requires 0 <= lo <= hi <= |s|
    ensures Rearranged(s, s, lo, hi)
  {
  }

  lemma SortedShort<T(!new)>(cmp: (T, T) -> int, s: seq<T>, lo: int, hi: int)
    requires 0 <= lo <= hi <= |s| && hi <= lo + 1
    ensures Sorted(cmp, s, lo, hi)
  {
  }

  lemma SinkingStart<T(!new)>(cmp: (T, T) -> int, s: seq<T>, lo: int, k: int)
    requires 0 <= lo < k < |s| && Sorted(cmp, s, lo, k)
    ensures Sinking(cmp, s, lo, k, k + 1)
  {
  }

  // ---- the pivot

  /** Of three positions, the one whose element is the median. */
  function Med3<T>(cmp: (T, T) -> int, x: array<T>, a: int, b: int, c: int): (m: int)
    requires 0 <= a < x.Length && 0 <= b < x.Length && 0 <= c < x.Length
    reads x
    ensures m == a || m == b || m == c
  {
    if cmp(x[a], x[b]) < 0 then
      if cmp(x[b], x[c]) < 0 then b else if cmp(x[a], x[c]) < 0 then c else a
    else
      if cmp(x[b], x[c]) > 0 then b else if cmp(x[a], x[c]) < 0 then a else c
  }

  ghost function AtMost<T>(cmp: (T, T) -> int, x: T, y: T): int {
    if cmp(x, y) <= 0 then 1 else 0
  }

  /** At least two of the three are at most the chosen one, and it is at most two of them. */
  lemma Med3IsMedian<T(!new)>(cmp: (T, T) -> int, x: array<T>, a: int, b: int, c: int)
    requires TotalPreorder(cmp)
    requires 0 <= a < x.Length && 0 <= b < x.Length && 0 <= c < x.Length
    ensures var v := x[Med3(cmp, x, a, b, c)];
            && AtMost(cmp, x[a], v) + AtMost(cmp, x[b], v) + AtMost(cmp, x[c], v) >= 2
            && AtMost(cmp, v, x[a]) + AtMost(cmp, v, x[b]) + AtMost(cmp, v, x[c]) >= 2
  {
    var u, v, w := x[a], x[b], x[c];
    assert cmp(u, v) <= 0 || cmp(v, u) <= 0;
    assert cmp(v, w) <= 0 || cmp(w, v) <= 0;
    assert cmp(u, w) <= 0 || cmp(w, u) <= 0;
    assert cmp(u, u) == 0 && cmp(v, v) == 0 && cmp(w, w) == 0;
  }

  /** How many of a sample are at most `v`, and how many `v` is at most. */
  ghost function Below<T>(cmp: (T, T) -> int, sample: seq<T>, v: T): int {
    if sample == [] then 0 else AtMost(cmp, sample[0], v) + Below(cmp, sample[1..], v)
  }

  ghost function Above<T>(cmp: (T, T) -> int, sample: seq<T>, v: T): int {
    if sample == [] then 0 else AtMost(cmp, v, sample[0]) + Above(cmp, sample[1..], v)
  }

  /** The elements that the choice of the pivot looks at: one, three, or nine spread over the piece. */
  ghost function Sample<T>(s: seq<T>, lo: int, n: int): (r: seq<T>)
    requires 7 <= n && 0 <= lo && lo + n <= |s|
  {
    var m, e, d := lo + n / 2, lo + n - 1, n / 8;
    if n == 7 then [s[m]]
    else if n <= 40 then [s[lo], s[m], s[e]]
    else [s[lo], s[lo + d], s[lo + 2 * d]] + [s[m - d], s[m], s[m + d]] + [s[e - 2 * d], s[e - d], s[e]]
  }

  /** `v` is of the sample and in the middle of it: of nine, four are not above it and four not below. */
  ghost predicate Central<T>(cmp: (T, T) -> int, sample: seq<T>, v: T) {
    var least := if |sample| == 9 then 4 else if |sample| == 3 then 2 else 1;
    v in sample && Below(cmp, sample, v) >= least && Above(cmp, sample, v) >= least
  }

  lemma CountThree<T>(cmp: (T, T) -> int, a: T, b: T, c: T, v: T)
    ensures Below(cmp, [a, b, c], v) == AtMost(cmp, a, v) + AtMost(cmp, b, v) + AtMost(cmp, c, v)
    ensures Above(cmp, [a, b, c], v) == AtMost(cmp, v, a) + AtMost(cmp, v, b) + AtMost(cmp, v, c)
  {
    hide AtMost;
    assert [c][1..] == [];
    assert Below(cmp, [c], v) == AtMost(cmp, c, v) && Above(cmp, [c], v) == AtMost(cmp, v, c);
    assert [b, c][1..] == [c];
    assert Below(cmp, [b, c], v) == AtMost(cmp, b, v) + AtMost(cmp, c, v);
    assert Above(cmp, [b, c], v) == AtMost(cmp, v, b) + AtMost(cmp, v, c);
    assert [a, b, c][1..] == [b, c];
  }

  lemma {:induction false} CountBoth<T>(cmp: (T, T) -> int, r: seq<T>, s: seq<T>, v: T)
    ensures Below(cmp, r + s, v) == Below(cmp, r, v) + Below(cmp, s, v)
    ensures Above(cmp, r + s, v) == Above(cmp, r, v) + Above(cmp, s, v)
  {
    hide AtMost;
    if r == [] {
      assert r + s == s;
    } else {
      assert (r + s)[1..] == r[1..] + s;
      CountBoth(cmp, r[1..], s, v);
    }
  }

  /** The median of a triple that is not above `v` has two below `v`, one that is not below has two above. */
  lemma TripleBelow<T(!new)>(cmp: (T, T) -> int, x: array<T>, a: int, b: int, c: int, v: T)
    requires TotalPreorder(cmp)
    requires 0 <= a < x.Length && 0 <= b < x.Length && 0 <= c < x.Length
    ensures var m := x[Med3(cmp, x, a, b, c)];
            && m in [x[a], x[b], x[c]]
            && (cmp(m, v) <= 0 ==> Below(cmp, [x[a], x[b], x[c]], v) >= 2)
            && (cmp(v, m) <= 0 ==> Above(cmp, [x[a], x[b], x[c]], v) >= 2)
            && Below(cmp, [x[a], x[b], x[c]], v) >= 0 && Above(cmp, [x[a], x[b], x[c]], v) >= 0
  {
    hide Med3, Below, Above;
    Med3IsMedian(cmp, x, a, b, c);
    CountThree(cmp, x[a], x[b], x[c], v);
  }

  lemma MedianCentral<T(!new)>(cmp: (T, T) -> int, x: array<T>, a: int, b: int, c: int)
    requires TotalPreorder(cmp)
    requires 0 <= a < x.Length && 0 <= b < x.Length && 0 <= c < x.Length
    ensures Central(cmp, [x[a], x[b], x[c]], x[Med3(cmp, x, a, b, c)])
  {
    hide TotalPreorder, Med3, AtMost, Below, Above;
    Med3IsMedian(cmp, x, a, b, c);
    CountThree(cmp, x[a], x[b], x[c], x[Med3(cmp, x, a, b, c)]);
  }

  /** The pseudo-median of nine: the median of three medians of three. */
  lemma NineCentral<T(!new)>(cmp: (T, T) -> int, x: array<T>, p: int, q: int, r: int, p1: int, q1: int, r1: int,
      p2: int, q2: int, r2: int)
    requires TotalPreorder(cmp)
    requires 0 <= p < x.Length && 0 <= q < x.Length && 0 <= r < x.Length
    requires 0 <= p1 < x.Length && 0 <= q1 < x.Length && 0 <= r1 < x.Length
    requires 0 <= p2 < x.Length && 0 <= q2 < x.Length && 0 <= r2 < x.Length
    ensures var v := x[Med3(cmp, x, Med3(cmp, x, p, q, r), Med3(cmp, x, p1, q1, r1), Med3(cmp, x, p2, q2, r2))];
            Central(cmp, [x[p], x[q], x[r]] + [x[p1], x[q1], x[r1]] + [x[p2], x[q2], x[r2]], v)
  {
    hide TotalPreorder, Med3, Below, Above;
    var a, b, c := Med3(cmp, x, p, q, r), Med3(cmp, x, p1, q1, r1), Med3(cmp, x, p2, q2, r2);
    var v := x[Med3(cmp, x, a, b, c)];
    var s, t, u := [x[p], x[q], x[r]], [x[p1], x[q1], x[r1]], [x[p2], x[q2], x[r2]];
    Med3IsMedian(cmp, x, a, b, c);
    TripleBelow(cmp, x, p, q, r, v);
    TripleBelow(cmp, x, p1, q1, r1, v);
    TripleBelow(cmp, x, p2, q2, r2, v);
    CountBoth(cmp, s, t, v);
    CountBoth(cmp, s + t, u, v);
  }

  lemma OneCentral<T(!new)>(cmp: (T, T) -> int, v: T)
    requires TotalPreorder(cmp)
    ensures Central(cmp, [v], v)
  {
    assert [v][1..] == [];
    assert cmp(v, v) == 0;
  }

  lemma SampleOfNine<T(!new)>(a: array<T>, lo: int, n: int)
    requires 40 < n && 0 <= lo && lo + n <= a.Length
    ensures var m, e, d := lo + n / 2, lo + (n - 1), n / 8;
      Sample(a[..], lo, n) == [a[lo], a[lo + d], a[lo + 2 * d]] + [a[m - d], a[m], a[m + d]] +
        [a[e - 2 * d], a[e - d], a[e]]
  {
  }

  lemma PivotOfNine<T(!new)>(cmp: (T, T) -> int, a: array<T>, lo: int, n: int)
    requires TotalPreorder(cmp)
    requires 40 < n && 0 <= lo && lo + n <= a.Length
    ensures var m, e, d := lo + n / 2, lo + (n - 1), n / 8;
      Central(cmp, Sample(a[..], lo, n),
        a[Med3(cmp, a, Med3(cmp, a, lo, lo + d, lo + 2 * d), Med3(cmp, a, m - d, m, m + d),
          Med3(cmp, a, e - 2 * d, e - d, e))])
  {
    hide TotalPreorder, Central, Med3, Sample;
    SampleOfNine(a, lo, n);
    var m, e, d := lo + n / 2, lo + (n - 1), n / 8;
    NineCentral(cmp, a, lo, lo + d, lo + 2 * d, m - d, m, m + d, e - 2 * d, e - d, e);
  }

  /** What is chosen is in the middle of what is looked at, for every length. */
  lemma PivotCentral<T(!new)>(cmp: (T, T) -> int, a: array<T>, lo: int, n: int)
    requires TotalPreorder(cmp)
    requires 7 <= n && 0 <= lo && lo + n <= a.Length
    ensures n == 7 ==> Central(cmp, Sample(a[..], lo, n), a[lo + n / 2])
    ensures 7 < n <= 40 ==> Central(cmp, Sample(a[..], lo, n), a[Med3(cmp, a, lo, lo + n / 2, lo + (n - 1))])
    ensures n > 40 ==>
      var m, e, d := lo + n / 2, lo + (n - 1), n / 8;
      Central(cmp, Sample(a[..], lo, n),
        a[Med3(cmp, a, Med3(cmp, a, lo, lo + d, lo + 2 * d), Med3(cmp, a, m - d, m, m + d),
          Med3(cmp, a, e - 2 * d, e - d, e))])
  {
    hide TotalPreorder, Central, Med3;
    var m, e, d := lo + n / 2, lo + (n - 1), n / 8;
    if n == 7 {
      OneCentral(cmp, a[m]);
    } else if n <= 40 {
      MedianCentral(cmp, a, lo, m, e);
    } else {
      PivotOfNine(cmp, a, lo, n);
    }
  }

  /** The choice of the pivot. */
  method ChoosePivot<T(!new)>(a: array<T>, lo: int, n: int, cmp: (T, T) -> int) returns (pm: int)
    requires TotalPreorder(cmp)
    requires 7 <= n && 0 <= lo && lo + n <= a.Length
    ensures lo <= pm < lo + n
    ensures Central(cmp, Sample(a[..], lo, n), a[pm])
  {
    hide TotalPreorder, Central, Sample, Med3;
    PivotCentral(cmp, a, lo, n);
    pm := lo + n / 2;
    if n > 7 {
      var pl, pn := lo, lo + (n - 1);
      if n > 40 {
        var d := n / 8;
        pl := Med3(cmp, a, pl, pl + d, pl + 2 * d);
        pm := Med3(cmp, a, pm - d, pm, pm + d);
        pn := Med3(cmp, a, pn - 2 * d, pn - d, pn);
      }
      pm := Med3(cmp, a, pl, pm, pn);
    }
  }

  // ---- the partition

  /**
   * The state of the partition around the pivot `v`: equal elements up to `pa`, smaller ones up
   * to `pb`, unseen ones up to and including `pc`, larger ones up to and including `pd`, equal ones.
   */
  ghost predicate Parted<T(!new)>(cmp: (T, T) -> int, s: seq<T>, v: T, lo: int, hi: int, pa: int, pb: int, pc: int,
      pd: int) {
    && 0 <= lo < pa <= pb <= pc + 1 && pc <= pd < hi <= |s|
    && s[lo] == v
    && (forall i :: lo <= i < pa ==> cmp(s[i], v) == 0)
    && (forall i :: pa <= i < pb ==> cmp(s[i], v) < 0)
    && (forall i :: pc < i <= pd ==> cmp(s[i], v) > 0)
    && (forall i :: pd < i < hi ==> cmp(s[i], v) == 0)
  }

  lemma PartedStart<T(!new)>(cmp: (T, T) -> int, s: seq<T>, lo: int, hi: int)
    requires TotalPreorder(cmp) && 0 <= lo < hi <= |s|
    ensures Parted(cmp, s, s[lo], lo, hi, lo + 1, lo + 1, hi - 1, hi - 1)
  {
  }

  lemma LeftEqual<T(!new)>(cmp: (T, T) -> int, s: seq<T>, v: T, lo: int, hi: int, pa: int, pb: int, pc: int, pd: int)
    requires Parted(cmp, s, v, lo, hi, pa, pb, pc, pd) && pb <= pc && cmp(s[pb], v) == 0
    ensures Parted(cmp, Swapped(s, pa, pb), v, lo, hi, pa + 1, pb + 1, pc, pd)
  {
  }

  lemma LeftSmaller<T(!new)>(cmp: (T, T) -> int, s: seq<T>, v: T, lo: int, hi: int, pa: int, pb: int, pc: int, pd: int)
    requires Parted(cmp, s, v, lo, hi, pa, pb, pc, pd) && pb <= pc && cmp(s[pb], v) < 0
    ensures Parted(cmp, s, v, lo, hi, pa, pb + 1, pc, pd)
  {
  }

  lemma RightEqual<T(!new)>(cmp: (T, T) -> int, s: seq<T>, v: T, lo: int, hi: int, pa: int, pb: int, pc: int, pd: int)
    requires Parted(cmp, s, v, lo, hi, pa, pb, pc, pd) && pb <= pc && cmp(s[pc], v) == 0
    ensures Parted(cmp, Swapped(s, pc, pd), v, lo, hi, pa, pb, pc - 1, pd - 1)
  {
  }

  lemma RightLarger<T(!new)>(cmp: (T, T) -> int, s: seq<T>, v: T, lo: int, hi: int, pa: int, pb: int, pc: int, pd: int)
    requires Parted(cmp, s, v, lo, hi, pa, pb, pc, pd) && pb <= pc && cmp(s[pc], v) > 0
    ensures Parted(cmp, s, v, lo, hi, pa, pb, pc - 1, pd)
  {
  }

  lemma Crossed<T(!new)>(cmp: (T, T) -> int, s: seq<T>, v: T, lo: int, hi: int, pa: int, pb: int, pc: int, pd: int)
    requires Parted(cmp, s, v, lo, hi, pa, pb, pc, pd) && pb <= pc
    requires cmp(s[pb], v) > 0 && cmp(s[pc], v) < 0
    ensures Parted(cmp, Swapped(s, pb, pc), v, lo, hi, pa, pb + 1, pc - 1, pd)
  {
  }

  lemma PartedBounds<T(!new)>(cmp: (T, T) -> int, s: seq<T>, v: T, lo: int, hi: int, pa: int, pb: int, pc: int, pd: int)
    requires Parted(cmp, s, v, lo, hi, pa, pb, pc, pd)
    ensures 0 <= lo < pa <= pb <= pc + 1 && pc <= pd < hi <= |s| && s[lo] == v
  {
  }

  /** The scan from the left, up to an element larger than the pivot. */
  method ScanLeft<T(!new)>(a: array<T>, lo: int, hi: int, pa0: int, pb0: int, pc: int, pd: int, cmp: (T, T) -> int)
    returns (pa: int, pb: int, swapped: bool)
    requires 0 <= lo < a.Length && Parted(cmp, a[..], a[lo], lo, hi, pa0, pb0, pc, pd)
    modifies a
    ensures Parted(cmp, a[..], old(a[lo]), lo, hi, pa, pb, pc, pd)
    ensures 0 <= pb && (pb > pc || (pb < a.Length && cmp(a[pb], old(a[lo])) > 0))
    ensures pb0 <= pb && 0 <= hi <= a.Length && Rearranged(old(a[..]), a[..], lo, hi)
    ensures !swapped ==> a[..] == old(a[..])
  {
    hide Parted, Rearranged, Swapped;
    ghost var v := a[lo];
    pa, pb, swapped := pa0, pb0, false;
    PartedBounds(cmp, a[..], v, lo, hi, pa, pb, pc, pd);
    RearrangedRefl(a[..], lo, hi);
    while pb <= pc && cmp(a[pb], a[lo]) <= 0
      invariant lo < pa <= pb <= pc + 1 && pc < a.Length && pb0 <= pb && a[lo] == v
      invariant Parted(cmp, a[..], v, lo, hi, pa, pb, pc, pd)
      invariant Rearranged(old(a[..]), a[..], lo, hi)
      invariant !swapped ==> a[..] == old(a[..])
    {
      if cmp(a[pb], a[lo]) == 0 {
        swapped := true;
        LeftEqual(cmp, a[..], v, lo, hi, pa, pb, pc, pd);
        PartedBounds(cmp, Swapped(a[..], pa, pb), v, lo, hi, pa + 1, pb + 1, pc, pd);
        SwapOnward(old(a[..]), a[..], pa, pb, lo, hi);
        Swap(a, pa, pb);
        pa := pa + 1;
      } else {
        LeftSmaller(cmp, a[..], v, lo, hi, pa, pb, pc, pd);
      }
      pb := pb + 1;
    }
  }

  /** The scan from the right, down to an element smaller than the pivot. */
  method ScanRight<T(!new)>(a: array<T>, lo: int, hi: int, pa: int, pb: int, pc0: int, pd0: int, cmp: (T, T) -> int)
    returns (pc: int, pd: int, swapped: bool)
    requires 0 <= lo < a.Length && Parted(cmp, a[..], a[lo], lo, hi, pa, pb, pc0, pd0)
    requires pb > pc0 || cmp(a[pb], a[lo]) > 0
    modifies a
    ensures Parted(cmp, a[..], old(a[lo]), lo, hi, pa, pb, pc, pd)
    ensures 0 <= pb && (pb > pc || (pc < a.Length && cmp(a[pb], old(a[lo])) > 0 && cmp(a[pc], old(a[lo])) < 0))
    ensures pc <= pc0 && 0 <= hi <= a.Length && Rearranged(old(a[..]), a[..], lo, hi)
    ensures !swapped ==> a[..] == old(a[..])
  {
    hide Parted, Rearranged, Swapped;
    ghost var v := a[lo];
    pc, pd, swapped := pc0, pd0, false;
    PartedBounds(cmp, a[..], v, lo, hi, pa, pb, pc, pd);
    RearrangedRefl(a[..], lo, hi);
    while pb <= pc && cmp(a[pc], a[lo]) >= 0
      invariant lo < pa <= pb <= pc + 1 && pc <= pd < hi <= a.Length && pc <= pc0 && a[lo] == v
      invariant Parted(cmp, a[..], v, lo, hi, pa, pb, pc, pd)
      invariant pb > pc || cmp(a[pb], v) > 0
      invariant Rearranged(old(a[..]), a[..], lo, hi)
      invariant !swapped ==> a[..] == old(a[..])
    {
      if cmp(a[pc], a[lo]) == 0 {
        swapped := true;
        RightEqual(cmp, a[..], v, lo, hi, pa, pb, pc, pd);
        PartedBounds(cmp, Swapped(a[..], pc, pd), v, lo, hi, pa, pb, pc - 1, pd - 1);
        if pb < pc { Elsewhere(a[..], pc, pd, pb); }
        SwapOnward(old(a[..]), a[..], pc, pd, lo, hi);
        Swap(a, pc, pd);
        pd := pd - 1;
      } else {
        RightLarger(cmp, a[..], v, lo, hi, pa, pb, pc, pd);
      }
      pc := pc - 1;
    }
  }

  /** Both scans. */
  method Scan<T(!new)>(a: array<T>, lo: int, hi: int, pa0: int, pb0: int, pc0: int, pd0: int, cmp: (T, T) -> int)
    returns (pa: int, pb: int, pc: int, pd: int, swapped: bool)
    requires 0 <= lo < a.Length && Parted(cmp, a[..], a[lo], lo, hi, pa0, pb0, pc0, pd0)
    modifies a
    ensures Parted(cmp, a[..], old(a[lo]), lo, hi, pa, pb, pc, pd) && a[lo] == old(a[lo])
    ensures 0 <= pb && (pb > pc || (pc < a.Length && cmp(a[pb], a[lo]) > 0 && cmp(a[pc], a[lo]) < 0))
    ensures pb0 <= pb && pc <= pc0 && 0 <= hi <= a.Length && Rearranged(old(a[..]), a[..], lo, hi)
    ensures !swapped ==> a[..] == old(a[..])
  {
    hide Parted, Rearranged, Swapped;
    var left, right;
    pa, pb, left := ScanLeft(a, lo, hi, pa0, pb0, pc0, pd0, cmp);
    PartedBounds(cmp, a[..], old(a[lo]), lo, hi, pa, pb, pc0, pd0);
    ghost var s := a[..];
    pc, pd, right := ScanRight(a, lo, hi, pa, pb, pc0, pd0, cmp);
    PartedBounds(cmp, a[..], old(a[lo]), lo, hi, pa, pb, pc, pd);
    RearrangedTrans(old(a[..]), s, a[..], lo, hi);
    swapped := left || right;
  }

  /** The whole partition around the element at `lo`. */
  method Partition<T(!new)>(a: array<T>, lo: int, hi: int, cmp: (T, T) -> int)
    returns (pa: int, pb: int, pc: int, pd: int, swapped: bool)
    requires TotalPreorder(cmp)
    requires 0 <= lo < hi <= a.Length
    modifies a
    ensures Parted(cmp, a[..], old(a[lo]), lo, hi, pa, pb, pc, pd) && pb == pc + 1
    ensures Rearranged(old(a[..]), a[..], lo, hi)
    ensures !swapped ==> a[..] == old(a[..])
  {
    hide Parted, Rearranged, Swapped, TotalPreorder;
    ghost var v := a[lo];
    pa, pb, pc, pd, swapped := lo + 1, lo + 1, hi - 1, hi - 1, false;
    PartedStart(cmp, a[..], lo, hi);
    RearrangedRefl(a[..], lo, hi);
    while true
      invariant a[lo] == v
      invariant Parted(cmp, a[..], v, lo, hi, pa, pb, pc, pd)
      invariant Rearranged(old(a[..]), a[..], lo, hi)
      invariant !swapped ==> a[..] == old(a[..])
      decreases pc - pb + 2
    {
      var scanned;
      ghost var s := a[..];
      PartedBounds(cmp, s, v, lo, hi, pa, pb, pc, pd);
      pa, pb, pc, pd, scanned := Scan(a, lo, hi, pa, pb, pc, pd, cmp);
      PartedBounds(cmp, a[..], v, lo, hi, pa, pb, pc, pd);
      RearrangedTrans(old(a[..]), s, a[..], lo, hi);
      swapped := swapped || scanned;
      if pb > pc { break; }
      Crossed(cmp, a[..], v, lo, hi, pa, pb, pc, pd);
      PartedBounds(cmp, Swapped(a[..], pb, pc), v, lo, hi, pa, pb + 1, pc - 1, pd);
      SwapOnward(old(a[..]), a[..], pb, pc, lo, hi);
      Swap(a, pb, pc);
      swapped := true;
      pb, pc := pb + 1, pc - 1;
    }
  }

  // ---- bringing the equal elements to the middle

  /** `t` is `s` with the `r` elements from `i` and the `r` elements from `j` exchanged. */
  ghost predicate Exchanged<T(!new)>(s: seq<T>, t: seq<T>, i: int, j: int, r: int)
    requires 0 <= i && 0 <= r && i + r <= j && j + r <= |s|
  {
    && |t| == |s|
    && (forall k {:trigger t[k]} :: 0 <= k < |s| ==>
          t[k] == if i <= k < i + r then s[k + (j - i)] else if j <= k < j + r then s[k - (j - i)] else s[k])
  }

  lemma ExchangedStep<T(!new)>(s: seq<T>, t: seq<T>, i: int, j: int, r: int)
    requires 0 <= i && 0 <= r && i + r < j && j + r < |s|
    requires Exchanged(s, t, i, j, r)
    ensures Exchanged(s, Swapped(t, i + r, j + r), i, j, r + 1)
  {
  }

  /** Exchange two blocks of `r` elements, one pair after the other. */
  method VecSwap<T(!new)>(a: array<T>, i: int, j: int, r: int, ghost lo: int, ghost hi: int)
    requires 0 <= lo <= i && 0 <= r && i + r <= j && j + r <= hi <= a.Length
    modifies a
    ensures Exchanged(old(a[..]), a[..], i, j, r)
    ensures Rearranged(old(a[..]), a[..], lo, hi)
  {
    hide Rearranged, Swapped;
    RearrangedRefl(a[..], lo, hi);
    var k := 0;
    while k < r
      invariant 0 <= k <= r
      invariant Exchanged(old(a[..]), a[..], i, j, k)
      invariant Rearranged(old(a[..]), a[..], lo, hi)
    {
      ExchangedStep(old(a[..]), a[..], i, j, k);
      SwapOnward(old(a[..]), a[..], i + k, j + k, lo, hi);
      Swap(a, i + k, j + k);
      k := k + 1;
    }
  }

  /** Smaller elements up to `l`, equal ones up to `g`, larger ones up to `hi`. */
  ghost predicate ThreeWay<T(!new)>(cmp: (T, T) -> int, s: seq<T>, v: T, lo: int, l: int, g: int, hi: int)
    requires 0 <= lo <= l <= g <= hi <= |s|
  {
    && (forall i :: lo <= i < l ==> cmp(s[i], v) < 0)
    && (forall i :: l <= i < g ==> cmp(s[i], v) == 0)
    && (forall i :: g <= i < hi ==> cmp(s[i], v) > 0)
  }

  /** The first exchange, of equal against smaller elements. */
  ghost predicate LeftDone<T(!new)>(cmp: (T, T) -> int, s: seq<T>, v: T, lo: int, hi: int, l: int, pb: int, pd: int)
    requires 0 <= lo <= l < pb && pb - 1 <= pd < hi <= |s|
  {
    && (forall i :: lo <= i < l ==> cmp(s[i], v) < 0)
    && (forall i :: l <= i < pb ==> cmp(s[i], v) == 0)
    && (forall i :: pb <= i <= pd ==> cmp(s[i], v) > 0)
    && (forall i :: pd < i < hi ==> cmp(s[i], v) == 0)
  }

  lemma FirstExchange<T(!new)>(cmp: (T, T) -> int, s: seq<T>, t: seq<T>, v: T, lo: int, hi: int, pa: int, pb: int,
      pc: int, pd: int, r: int)
    requires Parted(cmp, s, v, lo, hi, pa, pb, pc, pd) && pb == pc + 1
    requires r == Min(pa - lo, pb - pa) && Exchanged(s, t, lo, pb - r, r)
    ensures LeftDone(cmp, t, v, lo, hi, lo + (pb - pa), pb, pd)
  {
  }

  lemma SecondExchange<T(!new)>(cmp: (T, T) -> int, t: seq<T>, u: seq<T>, v: T, lo: int, hi: int, l: int, pb: int,
      pd: int, r: int)
    requires 0 <= lo <= l < pb && pb - 1 <= pd < hi <= |t|
    requires LeftDone(cmp, t, v, lo, hi, l, pb, pd)
    requires r == Min(pd - (pb - 1), hi - pd - 1) && Exchanged(t, u, pb, hi - r, r)
    ensures ThreeWay(cmp, u, v, lo, l, hi - (pd - (pb - 1)), hi)
  {
  }

  /** Partition, then bring the equal elements to the middle. */
  method ThreeWayPartition<T(!new)>(a: array<T>, lo: int, hi: int, cmp: (T, T) -> int, pa: int, pb: int, pc: int,
      pd: int, ghost v: T)
    requires 0 <= lo < hi <= a.Length
    requires Parted(cmp, a[..], v, lo, hi, pa, pb, pc, pd) && pb == pc + 1
    modifies a
    ensures lo < pa <= pb && pc <= pd < hi
    ensures ThreeWay(cmp, a[..], v, lo, lo + (pb - pa), hi - (pd - pc), hi)
    ensures Rearranged(old(a[..]), a[..], lo, hi)
  {
    hide Parted, Rearranged, Exchanged, LeftDone, ThreeWay;
    ghost var s := a[..];
    PartedBounds(cmp, s, v, lo, hi, pa, pb, pc, pd);
    var r := Min(pa - lo, pb - pa);
    VecSwap(a, lo, pb - r, r, lo, hi);
    ghost var t := a[..];
    FirstExchange(cmp, s, t, v, lo, hi, pa, pb, pc, pd, r);
    r := Min(pd - pc, hi - pd - 1);
    VecSwap(a, pb, hi - r, r, lo, hi);
    SecondExchange(cmp, t, a[..], v, lo, hi, lo + (pb - pa), pb, pd, r);
    RearrangedTrans(s, t, a[..], lo, hi);
  }

  // ---- the sort

  /** Everything from `start` to `lo` is sorted, and at most everything from `lo` to `hi`. */
  ghost predicate Settled<T(!new)>(cmp: (T, T) -> int, s: seq<T>, start: int, lo: int, hi: int)
    requires 0 <= start <= lo <= hi <= |s|
  {
    Sorted(cmp, s, start, lo) && forall i, j :: start <= i < lo <= j < hi ==> cmp(s[i], s[j]) <= 0
  }

  lemma SettledKept<T(!new)>(cmp: (T, T) -> int, s: seq<T>, t: seq<T>, start: int, lo: int, hi: int)
    requires 0 <= start <= lo <= hi <= |s|
    requires Settled(cmp, s, start, lo, hi) && Rearranged(s, t, lo, hi)
    ensures Settled(cmp, t, start, lo, hi)
  {
    assert forall i :: start <= i < lo ==> t[i] == t[..lo][i] == s[..lo][i] == s[i];
    forall i, j | start <= i < lo <= j < hi ensures cmp(t[i], t[j]) <= 0 {
      var k := RearrangedAt(s, t, lo, hi, j);
    }
  }

  lemma SettledDone<T(!new)>(cmp: (T, T) -> int, s: seq<T>, start: int, lo: int, hi: int)
    requires 0 <= start <= lo <= hi <= |s|
    requires Settled(cmp, s, start, lo, hi) && Sorted(cmp, s, lo, hi)
    ensures Sorted(cmp, s, start, hi)
  {
  }

  /** Sorting the smaller elements keeps the three parts. */
  lemma ThreeWayKept<T(!new)>(cmp: (T, T) -> int, s: seq<T>, t: seq<T>, v: T, lo: int, l: int, g: int, hi: int)
    requires 0 <= lo <= l <= g <= hi <= |s|
    requires ThreeWay(cmp, s, v, lo, l, g, hi) && Rearranged(s, t, lo, l)
    ensures ThreeWay(cmp, t, v, lo, l, g, hi)
  {
    hide Rearranged;
    RearrangedLength(s, t, lo, l);
    forall i | lo <= i < hi ensures (i < l ==> cmp(t[i], v) < 0) && (l <= i ==> t[i] == s[i]) {
      var j := RearrangedAt(s, t, lo, l, i);
    }
  }

  lemma RearrangedLength<T(!new)>(s: seq<T>, t: seq<T>, lo: int, hi: int)
    requires 0 <= lo <= hi <= |s| && Rearranged(s, t, lo, hi)
    ensures |t| == |s|
  {
  }

  /** With the smaller elements sorted, only the larger ones remain to be sorted. */
  lemma SettledGrows<T(!new)>(cmp: (T, T) -> int, s: seq<T>, v: T, start: int, lo: int, l: int, g: int, hi: int)
    requires TotalPreorder(cmp)
    requires 0 <= start <= lo <= l <= g <= hi <= |s|
    requires Settled(cmp, s, start, lo, hi) && ThreeWay(cmp, s, v, lo, l, g, hi) && Sorted(cmp, s, lo, l)
    ensures Settled(cmp, s, start, g, hi)
  {
    forall i, j | lo <= i < g && i < j < hi ensures cmp(s[i], s[j]) <= 0 {
      if j >= l {
        assert cmp(s[i], v) <= 0 && cmp(v, s[j]) <= 0;
      }
    }
  }

  lemma SettledStart<T(!new)>(cmp: (T, T) -> int, s: seq<T>, lo: int, hi: int)
    requires 0 <= lo <= hi <= |s|
    ensures Settled(cmp, s, lo, lo, hi)
  {
  }

  /** The remaining range was sorted. */
  lemma Finished<T(!new)>(cmp: (T, T) -> int, s0: seq<T>, s: seq<T>, t: seq<T>, start: int, lo: int, hi: int)
    requires 0 <= start <= lo <= hi <= |s0| == |s| == |t|
    requires Settled(cmp, s, start, lo, hi) && Rearranged(s0, s, start, hi)
    requires Rearranged(s, t, lo, hi) && Sorted(cmp, t, lo, hi)
    ensures Sorted(cmp, t, start, hi) && Rearranged(s0, t, start, hi)
  {
    hide Sorted, Rearranged, Settled;
    SettledKept(cmp, s, t, start, lo, hi);
    SettledDone(cmp, t, start, lo, hi);
    RearrangedWiden(s, t, lo, hi, start, hi);
    RearrangedTrans(s0, s, t, start, hi);
  }

  /** The smaller part was sorted; the larger part remains. */
  lemma OneRoundMore<T(!new)>(cmp: (T, T) -> int, s0: seq<T>, s: seq<T>, t: seq<T>, u: seq<T>, v: T,
                              start: int, lo: int, l: int, g: int, hi: int)
    requires TotalPreorder(cmp)
    requires 0 <= start <= lo <= l <= g <= hi <= |s0| == |s| == |t| == |u|
    requires Settled(cmp, s, start, lo, hi) && Rearranged(s0, s, start, hi)
    requires Rearranged(s, t, lo, hi) && ThreeWay(cmp, t, v, lo, l, g, hi)
    requires Rearranged(t, u, lo, l) && Sorted(cmp, u, lo, l)
    ensures Settled(cmp, u, start, g, hi) && Rearranged(s0, u, start, hi)
  {
    hide TotalPreorder, Sorted, Rearranged, Settled, ThreeWay;
    RearrangedWiden(t, u, lo, l, lo, hi);
    RearrangedTrans(s, t, u, lo, hi);
    SettledKept(cmp, s, u, start, lo, hi);
    ThreeWayKept(cmp, t, u, v, lo, l, g, hi);
    SettledGrows(cmp, u, v, start, lo, l, g, hi);
    RearrangedWiden(s, u, lo, hi, start, hi);
    RearrangedTrans(s0, s, u, start, hi);
  }

  /**
   * Choose a pivot and partition around it.  If the partition never swapped, the piece is sorted
   * by insertion; else smaller, equal and larger elements are apart, and some are equal.
   */
  method Round<T(!new)>(a: array<T>, lo: int, n: int, cmp: (T, T) -> int)
    returns (done: bool, l: int, g: int, ghost v: T)
    requires TotalPreorder(cmp)
    requires 7 <= n && 0 <= lo && lo + n <= a.Length
    modifies a
    ensures Rearranged(old(a[..]), a[..], lo, lo + n)
    ensures done ==> Sorted(cmp, a[..], lo, lo + n)
    ensures !done ==> lo <= l < g <= lo + n && ThreeWay(cmp, a[..], v, lo, l, g, lo + n)
    ensures Central(cmp, Sample(old(a[..]), lo, n), v)
  {
    hide TotalPreorder, Sorted, Rearranged, ThreeWay, Parted, Swapped, Central, Sample;
    ghost var hi := lo + n;
    var pm := ChoosePivot(a, lo, n, cmp);
    SwappedRearranges(a[..], lo, pm, lo, hi);
    SwappedFirst(a[..], lo, pm);
    Swap(a, lo, pm);
    assert a[..][lo] == old(a[..])[pm];
    v := a[lo];
    ghost var s := a[..];
    var pa, pb, pc, pd, swapped := Partition(a, lo, lo + n, cmp);
    RearrangedTrans(old(a[..]), s, a[..], lo, hi);
    s := a[..];
    done, l, g := !swapped, lo, lo;
    if swapped {
      ThreeWayPartition(a, lo, lo + n, cmp, pa, pb, pc, pd, v);
      l, g := lo + (pb - pa), lo + n - (pd - pc);
    } else {
      InsertionSort(a, lo, n, cmp);
    }
    RearrangedTrans(old(a[..]), s, a[..], lo, hi);
  }

  /** The `n0` elements from `lo0` on end up sorted and rearranged, and the rest as they were. */
  method Sort<T(!new)>(a: array<T>, lo0: int, n0: int, cmp: (T, T) -> int)
    requires TotalPreorder(cmp)
    requires 0 <= lo0 && 0 <= n0 && lo0 + n0 <= a.Length
    modifies a
    ensures Sorted(cmp, a[..], lo0, lo0 + n0)
    ensures Rearranged(old(a[..]), a[..], lo0, lo0 + n0)
    decreases n0
  {
    hide TotalPreorder, Sorted, Rearranged, Settled, ThreeWay, Central, Sample;
    var lo, n := lo0, n0;
    ghost var hi := lo0 + n0;
    RearrangedRefl(a[..], lo0, hi);
    SettledStart(cmp, a[..], lo0, hi);
    while true
      invariant lo0 <= lo && 0 <= n <= n0 && lo + n == hi <= a.Length
      invariant Settled(cmp, a[..], lo0, lo, hi)
      invariant Rearranged(old(a[..]), a[..], lo0, hi)
      decreases n
    {
      ghost var s := a[..];
      if n < 7 {
        InsertionSort(a, lo, n, cmp);
        Finished(cmp, old(a[..]), s, a[..], lo0, lo, hi);
        return;
      }
      var done, l, g;
      ghost var v;
      done, l, g, v := Round(a, lo, n, cmp);
      if done {
        Finished(cmp, old(a[..]), s, a[..], lo0, lo, hi);
        return;
      }
      ghost var t := a[..];
      RearrangedRefl(t, lo, l);
      if l - lo > 1 {
        Sort(a, lo, l - lo, cmp);
      } else {
        SortedShort(cmp, t, lo, l);
      }
      OneRoundMore(cmp, old(a[..]), s, t, a[..], v, lo0, lo, l, g, hi);
      lo, n := g, lo + n - g;
      if n <= 1 {
        SortedShort(cmp, a[..], lo, hi);
        SettledDone(cmp, a[..], lo0, lo, hi);
        return;
      }
    }
  }

  /** The whole array. */
  method Qsort<T(!new)>(a: array<T>, cmp: (T, T) -> int)
    requires TotalPreorder(cmp)
    modifies a
    ensures forall i, j :: 0 <= i < j < a.Length ==> cmp(a[i], a[j]) <= 0
    ensures multiset(a[..]) == multiset(old(a[..]))
  {
    ghost var s := a[..];
    Sort(a, 0, a.Length, cmp);
    ghost var t := a[..];
    assert s[0..a.Length] == s && t[0..a.Length] == t;
    assert forall i :: 0 <= i < a.Length ==> a[i] == t[i];
  }
}
