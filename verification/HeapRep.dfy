/** When the words of memory represent a layout, and what each primitive step of the layout
    needs to be written for that to stay so.

    In the middle of an operation some tags are out of date. "stale" names the chunks whose
    size field or footer may be wrong; at the end of every operation it is empty. */
module HeapRep {
  import opened HeapLayout
  import opened HeapMemory

  ghost predicate SizesOk(m: Mem, a: Layout, stale: set<int>) {
    && (forall p {:trigger Head(m, p)} :: p in a.chunks && p !in stale ==>
          Head(m, p) == Tag(a.chunks[p].size, PrevInuse(Head(m, p))))
    && (a.top < a.end && a.top !in stale ==> Head(m, a.top) == Tag(a.end - a.top, true))
  }

  ghost predicate BitsOk(m: Mem, a: Layout, stale: set<int>) {
    && (a.base < a.end && a.base !in stale ==> PrevInuse(Head(m, a.base)))
    && (forall p {:trigger a.Next(p)} :: p in a.chunks && a.Next(p) !in stale ==>
          PrevInuse(Head(m, a.Next(p))) == a.chunks[p].used)
  }

  ghost predicate FeetOk(m: Mem, a: Layout, stale: set<int>) {
    forall p {:trigger a.Next(p)} :: a.Free(p) && p !in stale ==> PrevSize(m, a.Next(p)) == a.chunks[p].size
  }

  ghost predicate TagsOk(m: Mem, a: Layout, stale: set<int>) {
    SizesOk(m, a, stale) && BitsOk(m, a, stale) && FeetOk(m, a, stale)
  }

  /** lr: the last_remainder list is out of date. */
  ghost predicate RingsOk(m: Mem, bins: seq<seq<int>>, lr: bool)
    requires |bins| == NAV
  {
    forall i :: (if lr then 2 else 1) <= i < NAV ==> Ring(m, Bin(i), bins[i])
  }

  ghost predicate Rep(m: Mem, a: Layout, stale: set<int>, lr: bool) {
    && |a.bins| == NAV && AV_END <= a.base
    && TagsOk(m, a, stale) && RingsOk(m, a.bins, lr)
  }

  // ---- which words a step may touch --------------------------------------------------------

  /** The words of the bin headers, and of the links in free chunks. */
  ghost predicate LinkCell(a: Layout, w: int) {
    w < a.base || a.Free(w - 2 * SIZE_SZ) || a.Free(w - 3 * SIZE_SZ)
  }

  ghost predicate OnlyLinks(a: Layout, m: Mem, m': Mem) {
    forall w {:trigger Rd(m', w)} :: !LinkCell(a, w) ==> Rd(m', w) == Rd(m, w)
  }

  /** The data words of the block in chunk p: up to and including the footer word, which
      belongs to the block while the chunk is in use. */
  predicate DataWord(p: int, size: int, w: int) {
    p + 2 * SIZE_SZ <= w < p + size + SIZE_SZ
  }

  lemma LinksAreNotData(a: Layout, p: int, w: int)
    requires Aligned(a) && Apart(a) && a.Used(p) && DataWord(p, a.chunks[p].size, w)
    ensures !LinkCell(a, w)
  {
  }

  lemma LinksAreNotTags(a: Layout, p: int)
    requires Aligned(a) && Apart(a) && (p in a.chunks || p == a.top)
    ensures !LinkCell(a, p) && !LinkCell(a, p + SIZE_SZ)
  {
  }

  lemma TagsUntouched(a: Layout, m: Mem, m': Mem)
    requires Aligned(a) && Linked(a) && Apart(a) && OnlyLinks(a, m, m')
    ensures forall p :: p in a.chunks || p == a.top ==> Head(m', p) == Head(m, p)
    ensures forall p {:trigger a.Next(p)} :: p in a.chunks ==>
      Head(m', a.Next(p)) == Head(m, a.Next(p)) && PrevSize(m', a.Next(p)) == PrevSize(m, a.Next(p))
  {
    hide LinkCell;
    forall p | p in a.chunks || p == a.top
      ensures Head(m', p) == Head(m, p) && PrevSize(m', p) == PrevSize(m, p)
    {
      LinksAreNotTags(a, p);
    }
  }

  /** Writes that touch only links keep the boundary tags right. */
  lemma TagsFrame(m: Mem, m': Mem, a: Layout, stale: set<int>)
    requires Tiled(a)
    requires OnlyLinks(a, m, m')
    requires TagsOk(m, a, stale)
    ensures TagsOk(m', a, stale)
  {
    hide OnlyLinks, PrevInuse, Tag, Head, PrevSize;
    TagsUntouched(a, m, m');
  }

  // ---- rings ---------------------------------------------------------------------------------

  lemma BinNodes(a: Layout, i: int)
    requires Inv(a) && AV_END <= a.base && 1 <= i < NAV
    ensures Nodes(Bin(i), a.bins[i])
    ensures forall x :: x in a.bins[i] ==> a.Free(x)
    ensures forall x :: x in a.chunks ==> Eight(x) && x != Bin(i)
  {
    hide BinIndex;
    assert BinOk(a.chunks, i, a.bins[i]);
  }

  lemma BinsDiffer(i: int, j: int)
    requires i != j
    ensures Bin(i) != Bin(j)
  {
  }

  /** Rewriting only the fields of the nodes of ring i leaves every other ring as it was. */
  ghost predicate OnlyRing(m: Mem, m': Mem, h: int, s: seq<int>) {
    forall y :: Eight(y) && y != h && y !in s ==> Fd(m', y) == Fd(m, y) && Bk(m', y) == Bk(m, y)
  }

  lemma OtherRings(m: Mem, m': Mem, a: Layout, i: int, s: seq<int>, lr: bool)
    requires Inv(a) && AV_END <= a.base && RingsOk(m, a.bins, lr) && 1 <= i < NAV
    requires OnlyRing(m, m', Bin(i), s)
    requires forall x, j :: x in s && 1 <= j < NAV && j != i ==> x !in a.bins[j]
    requires forall x :: x in s ==> x in a.chunks
    ensures forall j :: (if lr then 2 else 1) <= j < NAV && j != i ==> Ring(m', Bin(j), a.bins[j])
  {
    hide BinIndex, Fd, Bk, Bin, Eight;
    forall j | (if lr then 2 else 1) <= j < NAV && j != i
      ensures Ring(m', Bin(j), a.bins[j])
    {
      BinNodes(a, j);
      BinsDiffer(i, j);
      BinNodes(a, i);
      assert forall x :: x in a.bins[j] ==> Eight(x) && x != Bin(i) && x !in s;
      assert Bin(j) !in s;
      RingFrame(m, m', Bin(j), a.bins[j]);
    }
  }

  // ---- steps that move a chunk in or out of a bin ---------------------------------------------

  lemma UnlinkWrites(m: Mem, x: int)
    ensures forall w {:trigger Rd(Unlink(m, x), w)} ::
      w != Bk(m, x) + 2 * SIZE_SZ && w != Fd(m, x) + 3 * SIZE_SZ ==> Rd(Unlink(m, x), w) == Rd(m, w)
  {
  }

  lemma LinkWrites(m: Mem, x: int, bck: int, fwd: int)
    ensures forall w {:trigger Rd(Link(m, x, bck, fwd), w)} ::
      w != bck + 2 * SIZE_SZ && w != fwd + 3 * SIZE_SZ && w != x + 2 * SIZE_SZ && w != x + 3 * SIZE_SZ
      ==> Rd(Link(m, x, bck, fwd), w) == Rd(m, w)
  {
  }

  /** The neighbours of a position in a bin: its header, or free chunks. */
  lemma Neighbours(a: Layout, i: int, k: int)
    requires Inv(a) && AV_END <= a.base && 1 <= i < NAV && 0 <= k <= |a.bins[i]|
    ensures Eight(Before(Bin(i), a.bins[i], k)) && Eight(At(Bin(i), a.bins[i], k))
    ensures Before(Bin(i), a.bins[i], k) == Bin(i) || a.Free(Before(Bin(i), a.bins[i], k))
    ensures At(Bin(i), a.bins[i], k) == Bin(i) || a.Free(At(Bin(i), a.bins[i], k))
    ensures Before(Bin(i), a.bins[i], k) in a.bins[i] + [Bin(i)]
    ensures At(Bin(i), a.bins[i], k) in a.bins[i] + [Bin(i)]
    ensures AV <= Bin(i) && Bin(i) + 3 * SIZE_SZ < a.base
  {
    hide BinIndex;
    BinNodes(a, i);
    assert (a.bins[i] + [Bin(i)])[|a.bins[i]|] == Bin(i);
  }

  lemma UnlinkOnly(m: Mem, a: Layout, i: int, k: int)
    requires |a.bins| == NAV && Inv(a) && AV_END <= a.base && 1 <= i < NAV && 0 <= k < |a.bins[i]|
    requires Ring(m, Bin(i), a.bins[i])
    ensures Ring(Unlink(m, a.bins[i][k]), Bin(i), RemoveAt(a.bins[i], k))
    ensures OnlyLinks(a, m, Unlink(m, a.bins[i][k]))
    ensures OnlyRing(m, Unlink(m, a.bins[i][k]), Bin(i), a.bins[i])
  {
    hide BinIndex, Unlink, Rd, Fd, Bk, Bin, Eight, Inv;
    var s, h, x := a.bins[i], Bin(i), a.bins[i][k];
    BinNodes(a, i);
    UnlinkRing(m, h, s, k);
    Neighbours(a, i, k);
    Neighbours(a, i, k + 1);
    assert Bk(m, x) == Before(h, s, k) && Fd(m, x) == At(h, s, k + 1);
    UnlinkFields(m, x);
    UnlinkWrites(m, x);
    assert LinkCell(a, Bk(m, x) + 2 * SIZE_SZ) && LinkCell(a, Fd(m, x) + 3 * SIZE_SZ);
  }

  /** unlink(): the chunk is out of its bin; the use bit after it is now out of date. */
  lemma TakeStep(m: Mem, a: Layout, stale: set<int>, lr: bool, i: int, k: int)
    requires Inv(a) && Rep(m, a, stale, lr) && 1 <= i < NAV && 0 <= k < |a.bins[i]|
    requires !(lr && i == LAST_REMAINDER)
    requires a.bins[i][k] in a.chunks
    ensures Inv(Take(a, i, k))
    ensures Rep(Unlink(m, a.bins[i][k]), Take(a, i, k), stale + {a.Next(a.bins[i][k])}, lr)
    ensures OnlyLinks(a, m, Unlink(m, a.bins[i][k]))
  {
    hide BinIndex, PrevInuse, Tag, Head, PrevSize, Ring, Unlink, LinkCell;
    var x := a.bins[i][k];
    var b, m' := Take(a, i, k), Unlink(m, x);
    TakeKeeps(a, i, k);
    UnlinkOnly(m, a, i, k);
    TagsFrame(m, m', a, stale);
    BinNodes(a, i);
    forall y, j | y in a.bins[i] && 1 <= j < NAV && j != i
      ensures y !in a.bins[j]
    {
      BinsApart(a.chunks, a.bins, i, j, y);
    }
    OtherRings(m, m', a, i, a.bins[i], lr);
    TakeTags(m', a, stale, i, k);
  }

  lemma TakeTags(m: Mem, a: Layout, stale: set<int>, i: int, k: int)
    requires Tiled(a) && TagsOk(m, a, stale)
    requires |a.bins| == NAV && 1 <= i < NAV && 0 <= k < |a.bins[i]| && a.bins[i][k] in a.chunks
    ensures TagsOk(m, Take(a, i, k), stale + {a.Next(a.bins[i][k])})
  {
    hide PrevInuse, Tag, Head, PrevSize, Aligned, Apart, RemoveAt;
    var b, more := Take(a, i, k), stale + {a.Next(a.bins[i][k])};
    assert forall p :: p in b.chunks ==> b.Next(p) == a.Next(p);
    assert SizesOk(m, b, more) by { hide BitsOk, FeetOk; }
    assert BitsOk(m, b, more) by { hide SizesOk, FeetOk; }
    assert FeetOk(m, b, more) by { hide SizesOk, BitsOk; }
  }

  lemma LinkOnlyLinks(m: Mem, a: Layout, b: Layout, x: int, bck: int, fwd: int)
    requires b.base == a.base && forall p :: a.Free(p) ==> b.Free(p)
    requires b.Free(x)
    requires bck + 2 * SIZE_SZ < a.base || a.Free(bck)
    requires fwd + 3 * SIZE_SZ < a.base || a.Free(fwd)
    ensures OnlyLinks(b, m, Link(m, x, bck, fwd))
  {
    LinkWrites(m, x, bck, fwd);
    assert LinkCell(b, bck + 2 * SIZE_SZ) && LinkCell(b, fwd + 3 * SIZE_SZ);
    assert LinkCell(b, x + 2 * SIZE_SZ) && LinkCell(b, x + 3 * SIZE_SZ);
    hide Rd, Link, LinkCell;
  }

  lemma LinkOnlyRing(m: Mem, h: int, s: seq<int>, x: int, bck: int, fwd: int)
    requires Eight(x) && Eight(bck) && Eight(fwd) && x != bck && x != fwd
    requires bck in s + [h] && fwd in s + [h]
    ensures OnlyRing(m, Link(m, x, bck, fwd), h, s + [x])
  {
    hide Eight, Fd, Bk, Link;
    LinkFields(m, x, bck, fwd);
    assert forall y :: y in s + [x] <==> y in s || y == x;
  }

  lemma LinkOnly(m: Mem, a: Layout, x: int, i: int, k: int)
    requires |a.bins| == NAV && Inv(a) && AV_END <= a.base
    requires a.Used(x) && 1 <= i < NAV && 0 <= k <= |a.bins[i]|
    requires Ring(m, Bin(i), a.bins[i])
    ensures Ring(Link(m, x, Before(Bin(i), a.bins[i], k), At(Bin(i), a.bins[i], k)), Bin(i), InsertAt(a.bins[i], k, x))
    ensures OnlyLinks(Put(a, x, i, k), m, Link(m, x, Before(Bin(i), a.bins[i], k), At(Bin(i), a.bins[i], k)))
    ensures OnlyRing(m, Link(m, x, Before(Bin(i), a.bins[i], k), At(Bin(i), a.bins[i], k)), Bin(i), a.bins[i] + [x])
  {
    hide BinIndex, Link, Rd, Fd, Bk, Bin, Eight, Inv, OnlyLinks, OnlyRing, Ring;
    var s, h, b := a.bins[i], Bin(i), Put(a, x, i, k);
    BinNodes(a, i);
    Neighbours(a, i, k);
    LinkRing(m, h, s, k, x);
    LinkOnlyLinks(m, a, b, x, Before(h, s, k), At(h, s, k));
    LinkOnlyRing(m, h, s, x, Before(h, s, k), At(h, s, k));
  }

  lemma PutTags(m: Mem, a: Layout, stale: set<int>, x: int, i: int, k: int)
    requires Tiled(a) && TagsOk(m, a, stale)
    requires |a.bins| == NAV && 1 <= i < NAV && 0 <= k <= |a.bins[i]| && x in a.chunks
    ensures TagsOk(m, Put(a, x, i, k), stale + {x, a.Next(x)})
  {
    hide PrevInuse, Tag, Head, PrevSize, Aligned, Apart, InsertAt;
    var b, more := Put(a, x, i, k), stale + {x, a.Next(x)};
    assert forall p :: p in b.chunks ==> b.Next(p) == a.Next(p);
    assert SizesOk(m, b, more) by { hide BitsOk, FeetOk; }
    assert BitsOk(m, b, more) by { hide SizesOk, FeetOk; }
    assert FeetOk(m, b, more) by { hide SizesOk, BitsOk; }
  }

  /** The tail of frontlink(): the tags of x, and the use bit after it, may not be written yet. */
  lemma PutStep(m: Mem, a: Layout, stale: set<int>, lr: bool, x: int, i: int, k: int)
    requires Inv(a) && Rep(m, a, stale, lr) && a.Used(x) && Fits(a, x, i, k) && Enclosed(a, x)
    requires i != LAST_REMAINDER
    ensures Inv(Put(a, x, i, k))
    ensures Rep(Link(m, x, Before(Bin(i), a.bins[i], k), At(Bin(i), a.bins[i], k)),
                Put(a, x, i, k), stale + {x, a.Next(x)}, lr)
    ensures OnlyLinks(Put(a, x, i, k), m, Link(m, x, Before(Bin(i), a.bins[i], k), At(Bin(i), a.bins[i], k)))
  {
    hide BinIndex, PrevInuse, Tag, Head, PrevSize, Ring, Link, LinkCell;
    var m' := Link(m, x, Before(Bin(i), a.bins[i], k), At(Bin(i), a.bins[i], k));
    var b := Put(a, x, i, k);
    PutKeeps(a, x, i, k);
    LinkOnly(m, a, x, i, k);
    PutTags(m, a, stale, x, i, k);
    TagsFrame(m, m', b, stale + {x, a.Next(x)});
    PutOthers(m, m', a, x, i, lr);
  }

  lemma PutOthers(m: Mem, m': Mem, a: Layout, x: int, i: int, lr: bool)
    requires Inv(a) && AV_END <= a.base && a.Used(x) && 1 <= i < NAV && RingsOk(m, a.bins, lr)
    requires OnlyRing(m, m', Bin(i), a.bins[i] + [x])
    ensures forall j :: (if lr then 2 else 1) <= j < NAV && j != i ==> Ring(m', Bin(j), a.bins[j])
  {
    hide BinIndex, Ring;
    UsedNotBinned(a.chunks, a.bins, x);
    BinNodes(a, i);
    forall y, j | y in a.bins[i] + [x] && 1 <= j < NAV && j != i
      ensures y !in a.bins[j]
    {
      if y in a.bins[i] {
        BinsApart(a.chunks, a.bins, i, j, y);
      }
    }
    OtherRings(m, m', a, i, a.bins[i] + [x], lr);
  }

  // ---- the last remainder ----------------------------------------------------------------------

  lemma LinkLrWrites(m: Mem, x: int)
    ensures forall w {:trigger Rd(LinkLastRemainder(m, x), w)} ::
      (w != Bin(LAST_REMAINDER) + 2 * SIZE_SZ && w != Bin(LAST_REMAINDER) + 3 * SIZE_SZ
       && w != x + 2 * SIZE_SZ && w != x + 3 * SIZE_SZ) ==> Rd(LinkLastRemainder(m, x), w) == Rd(m, w)
    ensures x != Bin(LAST_REMAINDER) && Eight(x) ==> Ring(LinkLastRemainder(m, x), Bin(LAST_REMAINDER), [x])
    ensures Eight(x) ==> OnlyRing(m, LinkLastRemainder(m, x), Bin(LAST_REMAINDER), [x])
  {
  }

  lemma LinkLrOnly(m: Mem, a: Layout, x: int)
    requires |a.bins| == NAV && Inv(a) && AV_END <= a.base && a.Used(x) && a.bins[LAST_REMAINDER] == []
    ensures Ring(LinkLastRemainder(m, x), Bin(LAST_REMAINDER), [x])
    ensures OnlyLinks(Put(a, x, LAST_REMAINDER, 0), m, LinkLastRemainder(m, x))
    ensures OnlyRing(m, LinkLastRemainder(m, x), Bin(LAST_REMAINDER), a.bins[LAST_REMAINDER] + [x])
  {
    hide BinIndex, Inv;
    BinNodes(a, LAST_REMAINDER);
    var b, h := Put(a, x, LAST_REMAINDER, 0), Bin(LAST_REMAINDER);
    LinkLrWrites(m, x);
    assert b.Free(x) && h + 3 * SIZE_SZ < a.base;
    assert LinkCell(b, h + 2 * SIZE_SZ) && LinkCell(b, h + 3 * SIZE_SZ);
    assert LinkCell(b, x + 2 * SIZE_SZ) && LinkCell(b, x + 3 * SIZE_SZ);
    hide Rd, LinkLastRemainder, LinkCell, Bin;
  }

  /** link_last_remainder(): whatever the slot held before is forgotten. */
  lemma PutLrStep(m: Mem, a: Layout, stale: set<int>, lr: bool, x: int)
    requires Inv(a) && Rep(m, a, stale, lr) && a.Used(x) && Enclosed(a, x)
    requires a.bins[LAST_REMAINDER] == []
    ensures Inv(Put(a, x, LAST_REMAINDER, 0))
    ensures Rep(LinkLastRemainder(m, x), Put(a, x, LAST_REMAINDER, 0), stale + {x, a.Next(x)}, false)
    ensures OnlyLinks(Put(a, x, LAST_REMAINDER, 0), m, LinkLastRemainder(m, x))
  {
    hide BinIndex, PrevInuse, Tag, Head, PrevSize, Ring, LinkLastRemainder, LinkCell;
    var m' := LinkLastRemainder(m, x);
    var b := Put(a, x, LAST_REMAINDER, 0);
    assert Fits(a, x, LAST_REMAINDER, 0);
    PutKeeps(a, x, LAST_REMAINDER, 0);
    LinkLrOnly(m, a, x);
    PutTags(m, a, stale, x, LAST_REMAINDER, 0);
    TagsFrame(m, m', b, stale + {x, a.Next(x)});
    PutOthers(m, m', a, x, LAST_REMAINDER, lr);
    assert InsertAt([], 0, x) == [x];
  }

  /** Taking the last remainder without unlinking it, as malloc does before it rewrites the slot. */
  lemma TakeLrStep(m: Mem, a: Layout, stale: set<int>, lr: bool)
    requires Inv(a) && Rep(m, a, stale, lr) && |a.bins[LAST_REMAINDER]| == 1
    requires a.bins[LAST_REMAINDER][0] in a.chunks
    ensures Inv(Take(a, LAST_REMAINDER, 0))
    ensures Take(a, LAST_REMAINDER, 0).bins[LAST_REMAINDER] == []
    ensures Rep(m, Take(a, LAST_REMAINDER, 0), stale + {a.Next(a.bins[LAST_REMAINDER][0])}, true)
  {
    hide BinIndex, PrevInuse, Tag, Head, PrevSize, Ring;
    TakeKeeps(a, LAST_REMAINDER, 0);
    TakeTags(m, a, stale, LAST_REMAINDER, 0);
  }

  lemma ClearLrStep(m: Mem, a: Layout, stale: set<int>, lr: bool)
    requires Inv(a) && Rep(m, a, stale, lr) && a.bins[LAST_REMAINDER] == []
    ensures Rep(ClearLastRemainder(m), a, stale, false)
    ensures OnlyLinks(a, m, ClearLastRemainder(m))
  {
    hide BinIndex;
    var m' := ClearLastRemainder(m);
    assert OnlyLinks(a, m, m');
    assert OnlyRing(m, m', Bin(LAST_REMAINDER), []);
    ClearLrRings(m, m', a, lr);
    TagsFrame(m, m', a, stale);
  }

  lemma ClearLrRings(m: Mem, m': Mem, a: Layout, lr: bool)
    requires Inv(a) && AV_END <= a.base && a.bins[LAST_REMAINDER] == [] && RingsOk(m, a.bins, lr)
    requires m' == ClearLastRemainder(m) && OnlyRing(m, m', Bin(LAST_REMAINDER), [])
    ensures RingsOk(m', a.bins, false)
  {
    hide BinIndex;
    OtherRings(m, m', a, LAST_REMAINDER, [], lr);
    assert Ring(m', Bin(LAST_REMAINDER), []);
  }

  // ---- steps on held chunks and on top -----------------------------------------------------------

  lemma JoinTags(m: Mem, a: Layout, stale: set<int>, p: int)
    requires Aligned(a) && Apart(a) && TagsOk(m, a, stale) && a.Used(p) && a.Used(a.Next(p))
    ensures TagsOk(m, Join(a, p), stale + {p})
  {
    hide PrevInuse, Tag, Head, PrevSize;
    var b, q := Join(a, p), a.Next(p);
    assert b.Next(p) == a.Next(q);
    forall r | r in b.chunks && r != p
      ensures b.Next(r) == a.Next(r) && b.Next(r) != q
    {
    }
  }

  lemma JoinStep(m: Mem, a: Layout, stale: set<int>, lr: bool, p: int)
    requires Inv(a) && Rep(m, a, stale, lr) && a.Used(p) && a.Used(a.Next(p))
    ensures Inv(Join(a, p)) && Rep(m, Join(a, p), stale + {p}, lr)
  {
    hide BinIndex, Ring, SizesOk, BitsOk, FeetOk;
    JoinKeeps(a, p);
    JoinTags(m, a, stale, p);
  }

  lemma CutTags(m: Mem, a: Layout, stale: set<int>, p: int, n: int)
    requires Apart(a) && TagsOk(m, a, stale) && Cuttable(a, p, n) && p + n !in a.chunks
    ensures TagsOk(m, Cut(a, p, n), stale + {p, p + n})
  {
    hide PrevInuse, Tag, Head, PrevSize;
    var b := Cut(a, p, n);
    assert b.Next(p) == p + n && b.Next(p + n) == a.Next(p);
    forall r | r in b.chunks && r != p && r != p + n
      ensures b.Next(r) == a.Next(r)
    {
    }
  }

  lemma CutStep(m: Mem, a: Layout, stale: set<int>, lr: bool, p: int, n: int)
    requires Inv(a) && Rep(m, a, stale, lr) && Cuttable(a, p, n)
    ensures Inv(Cut(a, p, n)) && Rep(m, Cut(a, p, n), stale + {p, p + n}, lr)
  {
    hide BinIndex, Ring, SizesOk, BitsOk, FeetOk;
    CutKeeps(a, p, n);
    CutTags(m, a, stale, p, n);
  }

  lemma CarveStep(m: Mem, a: Layout, stale: set<int>, lr: bool, n: int)
    requires Inv(a) && Rep(m, a, stale, lr)
    requires n % 8 == 0 && MINSIZE <= n && a.top + n + MINSIZE <= a.end
    ensures Inv(Carve(a, n)) && Rep(m, Carve(a, n), stale + {a.top, a.top + n}, lr)
  {
    hide BinIndex, PrevInuse, Tag, Head, PrevSize, Ring;
    CarveKeeps(a, n);
    var b := Carve(a, n);
    assert b.Next(a.top) == a.top + n;
    forall r | r in b.chunks && r != a.top
      ensures b.Next(r) == a.Next(r)
    {
    }
  }

  lemma AbsorbStep(m: Mem, a: Layout, stale: set<int>, lr: bool, p: int)
    requires Inv(a) && Rep(m, a, stale, lr) && a.Used(p) && a.Next(p) == a.top
    requires forall q {:trigger a.Next(q)} :: q in a.chunks && a.Next(q) == p ==> a.chunks[q].used
    ensures Inv(Absorb(a, p)) && Rep(m, Absorb(a, p), stale + {p}, lr)
  {
    hide BinIndex, PrevInuse, Tag, Head, PrevSize, Ring;
    assert forall q :: q in a.chunks && a.Next(q) == p ==> a.chunks[q].used;
    AbsorbKeeps(a, p);
    var b := Absorb(a, p);
    forall r | r in b.chunks
      ensures b.Next(r) == a.Next(r)
    {
    }
  }

  lemma StretchStep(m: Mem, a: Layout, stale: set<int>, lr: bool, p: int, n: int)
    requires Inv(a) && Rep(m, a, stale, lr) && a.Used(p) && a.Next(p) == a.top
    requires n % 8 == 0 && MINSIZE <= n && p + n + MINSIZE <= a.end
    ensures Inv(Stretch(a, p, n)) && Rep(m, Stretch(a, p, n), stale + {p, p + n}, lr)
  {
    hide BinIndex, PrevInuse, Tag, Head, PrevSize, Ring, Binned, Coalesced, Aligned, Linked, Apart;
    StretchKeeps(a, p, n);
    var b := Stretch(a, p, n);
    assert b.Next(p) == p + n;
    forall r | r in b.chunks && r != p
      ensures b.Next(r) == a.Next(r)
    {
    }
  }

  lemma GrowStep(m: Mem, a: Layout, stale: set<int>, lr: bool, n: int)
    requires Inv(a) && Rep(m, a, stale, lr) && n % 8 == 0 && 0 <= n
    ensures Inv(Grow(a, n)) && Rep(m, Grow(a, n), stale + {a.top}, lr)
  {
    hide BinIndex, PrevInuse, Tag, Head, PrevSize, Ring;
    GrowKeeps(a, n);
    var b := Grow(a, n);
    forall r | r in b.chunks
      ensures b.Next(r) == a.Next(r)
    {
    }
  }

  // ---- writing a size field -------------------------------------------------------------------------

  /** The right value of the PREV_INUSE bit at chunk (or top) p. */
  ghost predicate RightBit(a: Layout, p: int, bit: bool) {
    && (p == a.base ==> bit)
    && (forall q {:trigger a.Next(q)} :: q in a.chunks && a.Next(q) == p ==> a.chunks[q].used == bit)
  }

  ghost predicate RightHead(a: Layout, p: int, v: int, bit: bool) {
    && ((p in a.chunks && v == Tag(a.chunks[p].size, bit))
        || (p == a.top && bit && v == Tag(a.end - a.top, true)))
    && RightBit(a, p, bit)
  }

  ghost predicate RightFoot(m: Mem, a: Layout, p: int) {
    a.Free(p) ==> PrevSize(m, a.Next(p)) == a.chunks[p].size
  }

  lemma RingFrameWord(m: Mem, a: Layout, h: int, s: seq<int>, w: int, v: int)
    requires Ring(m, h, s) && h + 3 * SIZE_SZ < a.base && !LinkCell(a, w)
    requires forall x :: x in s ==> a.Free(x)
    ensures Ring(Wr(m, w, v), h, s)
  {
    assert forall x :: x in s ==> a.Free(x) && x + 2 * SIZE_SZ != w && x + 3 * SIZE_SZ != w;
    RingFrame(m, Wr(m, w, v), h, s);
  }

  /** A word that holds no link leaves every ring alone. */
  lemma RingsFrame(m: Mem, a: Layout, lr: bool, w: int, v: int)
    requires Inv(a) && AV_END <= a.base && RingsOk(m, a.bins, lr) && !LinkCell(a, w)
    ensures RingsOk(Wr(m, w, v), a.bins, lr)
  {
    hide BinIndex, Ring, LinkCell;
    forall i | (if lr then 2 else 1) <= i < NAV
      ensures Ring(Wr(m, w, v), Bin(i), a.bins[i])
    {
      BinNodes(a, i);
      RingFrameWord(m, a, Bin(i), a.bins[i], w, v);
    }
  }

  lemma HeadWriteTags(m: Mem, a: Layout, p: int, v: int)
    requires Aligned(a) && Linked(a) && Apart(a) && (p in a.chunks || p == a.top)
    ensures forall q :: q in a.chunks || q == a.top ==> Head(SetHead(m, p, v), q) == if q == p then v else Head(m, q)
    ensures forall q {:trigger a.Next(q)} :: q in a.chunks ==>
      PrevSize(SetHead(m, p, v), a.Next(q)) == PrevSize(m, a.Next(q))
  {
    forall q | q in a.chunks || q == a.top
      ensures PrevSize(SetHead(m, p, v), q) == PrevSize(m, q)
    {
      BoundariesApart(a, q, p);
    }
    hide Aligned, Apart, PrevSize;
  }

  lemma BoundariesApart(a: Layout, q: int, p: int)
    requires Aligned(a) && Apart(a)
    requires (p in a.chunks || p == a.top) && (q in a.chunks || q == a.top)
    ensures p == q || p + MINSIZE <= q || q + MINSIZE <= p
  {
  }

  lemma SetHeadTags(m: Mem, a: Layout, stale: set<int>, p: int, v: int, bit: bool)
    requires Tiled(a) && TagsOk(m, a, stale)
    requires RightHead(a, p, v, bit) && RightFoot(m, a, p)
    ensures TagsOk(SetHead(m, p, v), a, stale - {p})
  {
    var m' := SetHead(m, p, v);
    HeadWriteTags(m, a, p, v);
    assert p in a.chunks ==> a.chunks[p].size % 8 == 0;
    TagFields(if p in a.chunks then a.chunks[p].size else a.end - a.top, bit);
    assert PrevInuse(v) == bit;
    SetHeadTagsRest(m, m', a, stale, p, v, bit);
  }

  lemma SetHeadTagsRest(m: Mem, m': Mem, a: Layout, stale: set<int>, p: int, v: int, bit: bool)
    requires Tiled(a) && TagsOk(m, a, stale)
    requires RightHead(a, p, v, bit) && RightFoot(m, a, p) && PrevInuse(v) == bit
    requires forall q :: q in a.chunks || q == a.top ==> Head(m', q) == if q == p then v else Head(m, q)
    requires forall q {:trigger a.Next(q)} :: q in a.chunks ==> PrevSize(m', a.Next(q)) == PrevSize(m, a.Next(q))
    ensures TagsOk(m', a, stale - {p})
  {
    hide PrevInuse, Tag, Head, PrevSize;
  }

  /** set_head with the right value: that size field is no longer out of date. */
  lemma SetHeadStep(m: Mem, a: Layout, stale: set<int>, lr: bool, p: int, v: int, bit: bool)
    requires Inv(a) && Rep(m, a, stale, lr) && RightHead(a, p, v, bit) && RightFoot(m, a, p)
    ensures Rep(SetHead(m, p, v), a, stale - {p}, lr)
  {
    hide BinIndex, PrevInuse, Tag, Head, PrevSize, Ring, LinkCell;
    SetHeadTags(m, a, stale, p, v, bit);
    LinksAreNotTags(a, p);
    RingsFrame(m, a, lr, p + SIZE_SZ, v);
  }

  /** A size field that already has the right value is not out of date. */
  lemma TrustStep(m: Mem, a: Layout, stale: set<int>, lr: bool, p: int, bit: bool)
    requires Inv(a) && Rep(m, a, stale, lr) && RightHead(a, p, Head(m, p), bit) && RightFoot(m, a, p)
    ensures Rep(m, a, stale - {p}, lr)
  {
    hide BinIndex, Head, PrevSize, Ring, LinkCell;
    TagFields(if p in a.chunks then a.chunks[p].size else a.end - a.top, bit);
    assert PrevInuse(Head(m, p)) == bit;
    SetHeadTagsRest(m, m, a, stale, p, Head(m, p), bit);
  }

  /** A size field may be called out of date and then overwritten at will. */
  lemma ScribbleHeadStep(m: Mem, a: Layout, stale: set<int>, lr: bool, p: int, v: int)
    requires Inv(a) && Rep(m, a, stale, lr) && (p in a.chunks || p == a.top)
    ensures Rep(SetHead(m, p, v), a, stale + {p}, lr)
  {
    hide BinIndex, PrevInuse, Tag, Head, PrevSize, Ring, LinkCell;
    HeadWriteTags(m, a, p, v);
    LinksAreNotTags(a, p);
    RingsFrame(m, a, lr, p + SIZE_SZ, v);
  }

  lemma DataWriteTags(m: Mem, a: Layout, x: int, w: int, v: int)
    requires Tiled(a) && Coalesced(a) && a.Used(x) && DataWord(x, a.chunks[x].size, w)
    ensures forall q :: q in a.chunks || q == a.top ==> Head(Wr(m, w, v), q) == Head(m, q)
    ensures forall q {:trigger a.Next(q)} :: a.Free(q) ==> PrevSize(Wr(m, w, v), a.Next(q)) == PrevSize(m, a.Next(q))
  {
    forall q | a.Free(q)
      ensures a.Next(q) != w
    {
      assert a.Next(q) in a.chunks;
      assert q < x || x < q;
    }
    forall q | q in a.chunks || q == a.top
      ensures q + SIZE_SZ != w
    {
      assert q in a.chunks ==> q <= x || x + a.chunks[x].size <= q;
    }
  }

  /** The data words of a chunk in use carry no bookkeeping. */
  lemma DataWriteStep(m: Mem, a: Layout, stale: set<int>, lr: bool, x: int, w: int, v: int)
    requires Inv(a) && Rep(m, a, stale, lr) && a.Used(x) && DataWord(x, a.chunks[x].size, w)
    ensures Rep(Wr(m, w, v), a, stale, lr)
  {
    hide BinIndex, PrevInuse, Tag, Head, PrevSize, Ring, LinkCell, DataWord;
    DataWriteTags(m, a, x, w, v);
    LinksAreNotData(a, x, w);
    RingsFrame(m, a, lr, w, v);
  }

  lemma FootWriteTags(m: Mem, a: Layout, stale: set<int>, x: int, v: int)
    requires Aligned(a) && Linked(a) && Apart(a) && TagsOk(m, a, stale) && a.Free(x) && x in stale
    ensures TagsOk(Wr(m, a.Next(x), v), a, stale)
  {
    var w := a.Next(x);
    forall q | q in a.chunks || q == a.top
      ensures Head(Wr(m, w, v), q) == Head(m, q)
    {
      BoundariesApart(a, q, w);
    }
    forall q | q in a.chunks && q != x
      ensures a.Next(q) != w
    {
    }
    hide Aligned, Apart, Head, Tag, PrevInuse;
  }

  /** set_foot on a chunk whose tags are still out of date. */
  lemma FootWriteStep(m: Mem, a: Layout, stale: set<int>, lr: bool, x: int, v: int)
    requires Inv(a) && Rep(m, a, stale, lr) && a.Free(x) && x in stale
    ensures Rep(Wr(m, a.Next(x), v), a, stale, lr)
  {
    hide BinIndex, TagsOk, Ring, LinkCell;
    FootWriteTags(m, a, stale, x, v);
    LinksAreNotTags(a, a.Next(x));
    RingsFrame(m, a, lr, a.Next(x), v);
  }

  // ---- bookkeeping on stale --------------------------------------------------------------------------

  lemma StaleMore(m: Mem, a: Layout, stale: set<int>, more: set<int>, lr: bool)
    requires |a.bins| == NAV && Rep(m, a, stale, lr) && stale <= more
    ensures Rep(m, a, more, lr)
  {
    hide PrevInuse, Tag, Head, PrevSize, Ring;
  }

  /** What is not a chunk has no tags. */
  lemma ForgetStep(m: Mem, a: Layout, stale: set<int>, lr: bool, p: int)
    requires Inv(a) && Rep(m, a, stale, lr) && p !in a.chunks && p != a.top
    ensures Rep(m, a, stale - {p}, lr)
  {
    hide BinIndex, PrevInuse, Tag, Head, PrevSize, Ring, Binned;
  }

  /** While chunk x is held, its words may already be linked as the last remainder. */
  lemma LinkLrHeldStep(m: Mem, a: Layout, stale: set<int>, x: int)
    requires Inv(a) && Rep(m, a, stale, true) && a.Used(x) && a.bins[LAST_REMAINDER] == []
    ensures Rep(LinkLastRemainder(m, x), a, stale, true)
    ensures Ring(LinkLastRemainder(m, x), Bin(LAST_REMAINDER), [x])
    ensures OnlyLinks(Put(a, x, LAST_REMAINDER, 0), m, LinkLastRemainder(m, x))
  {
    hide BinIndex, TagsOk, Ring, LinkLastRemainder, LinkCell;
    var m' := LinkLastRemainder(m, x);
    LinkLrOnly(m, a, x);
    PutOthers(m, m', a, x, LAST_REMAINDER, true);
    LinkLrTags(m, m', a, stale, x);
  }

  lemma LinkLrTags(m: Mem, m': Mem, a: Layout, stale: set<int>, x: int)
    requires |a.bins| == NAV && Inv(a) && a.Used(x) && TagsOk(m, a, stale)
    requires OnlyLinks(Put(a, x, LAST_REMAINDER, 0), m, m')
    ensures TagsOk(m', a, stale)
  {
    hide BinIndex, Head, PrevSize, Tag, PrevInuse, LinkCell, Binned, Aligned, Apart, OnlyLinks;
    var b := Put(a, x, LAST_REMAINDER, 0);
    PutTiled(a, x, LAST_REMAINDER, 0);
    TagsUntouched(b, m, m');
    SameTags(m, m', a, stale);
  }

  lemma SameTags(m: Mem, m': Mem, a: Layout, stale: set<int>)
    requires TagsOk(m, a, stale) && (a.base == a.top || a.base in a.chunks)
    requires forall p :: p in a.chunks || p == a.top ==> Head(m', p) == Head(m, p)
    requires forall p {:trigger a.Next(p)} :: p in a.chunks ==>
      Head(m', a.Next(p)) == Head(m, a.Next(p)) && PrevSize(m', a.Next(p)) == PrevSize(m, a.Next(p))
    ensures TagsOk(m', a, stale)
  {
    hide Head, PrevSize, Tag, PrevInuse;
  }

  /** The slot already holds exactly x: x may be counted as the last remainder. */
  lemma PutLrTrustStep(m: Mem, a: Layout, stale: set<int>, x: int)
    requires Inv(a) && Rep(m, a, stale, true) && a.Used(x) && Enclosed(a, x)
    requires a.bins[LAST_REMAINDER] == [] && Ring(m, Bin(LAST_REMAINDER), [x])
    ensures Inv(Put(a, x, LAST_REMAINDER, 0))
    ensures Rep(m, Put(a, x, LAST_REMAINDER, 0), stale + {x, a.Next(x)}, false)
  {
    hide BinIndex, PrevInuse, Tag, Head, PrevSize, Ring;
    assert Fits(a, x, LAST_REMAINDER, 0);
    PutKeeps(a, x, LAST_REMAINDER, 0);
    PutTags(m, a, stale, x, LAST_REMAINDER, 0);
    assert InsertAt([], 0, x) == [x];
  }

  /** p->fd == last_remainder tells whether free chunk p is the last remainder. */
  lemma IsLastRemainder(m: Mem, a: Layout, stale: set<int>, x: int)
    requires Inv(a) && Rep(m, a, stale, false) && a.Free(x)
    ensures Fd(m, x) == Bin(LAST_REMAINDER) <==> a.bins[LAST_REMAINDER] == [x]
  {
    hide BinIndex, TagsOk, Fd, Bk, Bin, Eight, Coalesced;
    var i := Home(a, x);
    var k := IndexOf(a.bins[i], x);
    assert Ring(m, Bin(i), a.bins[i]);
    BinNodes(a, i);
    BinNodes(a, LAST_REMAINDER);
    if i != LAST_REMAINDER {
      BinsDiffer(i, LAST_REMAINDER);
      BinsApart(a.chunks, a.bins, i, LAST_REMAINDER, x);
      if k + 1 < |a.bins[i]| {
        assert a.bins[i][k + 1] in a.bins[i];
      }
    }
  }

  // ---- what stays as it was -------------------------------------------------------------------------

  /** From (a, m) to (b, m2): every block in use, except possibly x, is still in use, in the
      same place, with the same size and the same data. */
  ghost predicate Intact(a: Layout, m: Mem, b: Layout, m2: Mem, x: int) {
    forall q :: a.Used(q) && q != x ==>
      b.Used(q) && b.chunks[q] == a.chunks[q]
      && forall w :: DataWord(q, a.chunks[q].size, w) ==> Rd(m2, w) == Rd(m, w)
  }

  /** The second step may also change a chunk y that was not in use at first. */
  lemma IntactTrans(a: Layout, m: Mem, b: Layout, m2: Mem, c: Layout, m3: Mem, x: int, y: int)
    requires Intact(a, m, b, m2, x) && Intact(b, m2, c, m3, y) && (x == y || !a.Used(y))
    ensures Intact(a, m, c, m3, x)
  {
    hide DataWord, Rd;
  }

  lemma IntactLinks(a: Layout, m: Mem, m2: Mem, b: Layout, x: int)
    requires Inv(a) && Inv(b) && (OnlyLinks(a, m, m2) || OnlyLinks(b, m, m2))
    requires forall q :: a.Used(q) && q != x ==> b.Used(q) && b.chunks[q] == a.chunks[q]
    ensures Intact(a, m, b, m2, x)
  {
    hide BinIndex, LinkCell, DataWord;
    forall q, w | a.Used(q) && q != x && DataWord(q, a.chunks[q].size, w)
      ensures Rd(m2, w) == Rd(m, w)
    {
      LinksAreNotData(a, q, w);
      LinksAreNotData(b, q, w);
    }
  }

  lemma IntactHead(a: Layout, m: Mem, p: int, v: int, x: int)
    requires Inv(a) && (p in a.chunks || p == a.top)
    ensures Intact(a, m, a, SetHead(m, p, v), x)
  {
    hide BinIndex;
    forall q | a.Used(q)
      ensures !DataWord(q, a.chunks[q].size, p + SIZE_SZ)
    {
      BoundariesApart(a, q, p);
    }
  }

  lemma IntactData(a: Layout, m: Mem, w: int, v: int, x: int)
    requires Inv(a) && x in a.chunks && DataWord(x, a.chunks[x].size, w)
    ensures Intact(a, m, a, Wr(m, w, v), x)
  {
    hide BinIndex;
    forall q | a.Used(q) && q != x
      ensures !DataWord(q, a.chunks[q].size, w)
    {
      assert q < x ==> q + a.chunks[q].size <= x;
    }
  }

  lemma IntactFoot(a: Layout, m: Mem, p: int, v: int, x: int)
    requires Inv(a) && a.Free(p)
    ensures Intact(a, m, a, Wr(m, a.Next(p), v), x)
  {
    hide BinIndex;
    forall q | a.Used(q)
      ensures !DataWord(q, a.chunks[q].size, a.Next(p))
    {
      assert q < p ==> q + a.chunks[q].size <= p;
    }
  }
}
