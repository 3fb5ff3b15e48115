/** The layout of the libc heap, without its memory: which chunks tile the arena, which of
    them are free, and which bin lists hold the free ones.

    A chunk occupies [p, p + size). "used" here means "not in any bin": the blocks handed to
    callers, and also the chunk that malloc, free or realloc is holding in the middle of an
    operation. Every allocator operation is a composition of the eight primitive steps
    below, and each primitive step keeps the whole invariant. */
module HeapLayout {

  const SIZE_SZ := 4
  const MINSIZE := 16
  const NAV := 128
  const MAX_SMALLBIN_SIZE := 512
  const BINBLOCKWIDTH := 4
  const BLOCKS := 32   // NAV / BINBLOCKWIDTH: the bits of the one-word block index
  const LAST_REMAINDER := 1   // last_remainder is bin_at(1)

  datatype Chunk = Chunk(size: int, used: bool)

  /** blocks is the binblocks word, as the set of its set bits. */
  datatype Layout = Layout(base: int, top: int, end: int, chunks: map<int, Chunk>,
                           bins: seq<seq<int>>, blocks: set<int>)
  {
    function Next(p: int): int
      requires p in chunks
    {
      p + chunks[p].size
    }

    predicate Free(p: int) {
      p in chunks && !chunks[p].used
    }

    predicate Used(p: int) {
      p in chunks && chunks[p].used
    }
  }

  function BinIndex(sz: int): int {
    var s := sz / 512;
    if s == 0 then sz / 8
    else if s <= 4 then 56 + sz / 64
    else if s <= 20 then 91 + sz / 512
    else if s <= 84 then 110 + sz / 4096
    else if s <= 340 then 119 + sz / 32768
    else if s <= 1364 then 124 + sz / 262144
    else 126
  }

  lemma BinIndexMonotone(a: int, b: int)
    requires 0 <= a <= b
    ensures BinIndex(a) <= BinIndex(b)
  {
  }

  /**
   * The smallest size of a bin: 64 bins spaced by 8 bytes, 32 by 64, 16 by 512, 8 by 4096, 4 by 32768, 2 by 262144,
   * and one for the rest. Where the spacing changes to 4096, the bins below it run on up to 10752.
   */
  function BinLow(i: nat): nat {
    if i <= 64 then 8 * i
    else if i <= 96 then 512 + 64 * (i - 64)
    else if i < 112 then 2560 + 512 * (i - 96)
    else if i == 112 then 10752
    else if i <= 120 then 8192 + 4096 * (i - 112)
    else if i <= 124 then 32768 + 32768 * (i - 120)
    else 262144 * (i - 124)
  }

  /** A size is in exactly the bin it is spaced into. */
  lemma BinIndexExactly(sz: nat, i: nat)
    requires i <= 126
    ensures BinIndex(sz) == i <==> BinLow(i) <= sz && (i < 126 ==> sz < BinLow(i + 1))
  {
    var k := BinIndex(sz);
    assert BinLow(k) <= sz && (k < 126 ==> sz < BinLow(k + 1));
    if i < k {
      BinLowGrows(i + 1, k);
    } else if k < i {
      BinLowGrows(k + 1, i);
    }
  }

  lemma BinLowGrows(i: nat, j: nat)
    requires i <= j <= 126
    ensures BinLow(i) <= BinLow(j)
  {
  }

  lemma BinIndexRange(sz: int)
    requires MINSIZE <= sz
    ensures 2 <= BinIndex(sz) <= 126
    ensures sz < MAX_SMALLBIN_SIZE <==> BinIndex(sz) < 64
  {
  }

  ghost predicate Aligned(a: Layout) {
    && a.base % 8 == 0 && a.top % 8 == 0 && a.end % 8 == 0
    && a.base <= a.top <= a.end
    && (forall p :: p in a.chunks ==>
          && a.base <= p && p % 8 == 0 && a.chunks[p].size % 8 == 0
          && MINSIZE <= a.chunks[p].size && p + a.chunks[p].size <= a.top)
  }

  /** What follows a chunk is a chunk, or top. */
  ghost predicate Linked(a: Layout) {
    && (a.base == a.top || a.base in a.chunks)
    && (forall p {:trigger a.Next(p)} :: p in a.chunks ==> a.Next(p) == a.top || a.Next(p) in a.chunks)
  }

  ghost predicate Apart(a: Layout) {
    forall p, q :: p in a.chunks && q in a.chunks && p < q ==> p + a.chunks[p].size <= q
  }

  /** The arena [base, end) is the chunks, one after the other, and then top. */
  ghost predicate Tiled(a: Layout) {
    Aligned(a) && Linked(a) && Apart(a)
  }

  /** A free chunk is followed by a used one: free space never touches free space or top. */
  ghost predicate Coalesced(a: Layout) {
    forall p {:trigger a.Next(p)} :: a.Free(p) ==> a.Used(a.Next(p))
  }

  /** What bin i holds: distinct free chunks of its sizes, in decreasing size order. */
  ghost predicate BinOk(c: map<int, Chunk>, i: int, s: seq<int>) {
    && (forall k :: 0 <= k < |s| ==>
          s[k] in c && !c[s[k]].used && (i != LAST_REMAINDER ==> BinIndex(c[s[k]].size) == i))
    && (forall k, l :: 0 <= k < l < |s| ==> s[k] != s[l] && c[s[k]].size >= c[s[l]].size)
  }

  ghost predicate BinsOk(c: map<int, Chunk>, bins: seq<seq<int>>) {
    && |bins| == NAV && |bins[LAST_REMAINDER]| <= 1
    && (forall i :: 1 <= i < NAV ==> BinOk(c, i, bins[i]))
    && (forall x, i :: x in bins[LAST_REMAINDER] && 2 <= i < NAV ==> x !in bins[i])
  }

  /** Every free chunk is in its own bin, or is the last remainder. */
  ghost predicate Complete(c: map<int, Chunk>, bins: seq<seq<int>>)
    requires |bins| == NAV
  {
    forall p :: p in c && !c[p].used && 0 <= BinIndex(c[p].size) < NAV ==>
      p in bins[LAST_REMAINDER] || p in bins[BinIndex(c[p].size)]
  }

  /** A nonempty bin always has its block bit set; the converse may fail. */
  ghost predicate BlocksCover(bins: seq<seq<int>>, blocks: set<int>)
    requires |bins| == NAV
  {
    && (forall b :: b in blocks ==> 0 <= b < BLOCKS)
    && (forall i :: 2 <= i < NAV && bins[i] != [] ==> i / BINBLOCKWIDTH in blocks)
  }

  ghost predicate Binned(a: Layout) {
    BinsOk(a.chunks, a.bins) && Complete(a.chunks, a.bins) && BlocksCover(a.bins, a.blocks)
  }

  ghost predicate Geometry(a: Layout) {
    Tiled(a) && Coalesced(a)
  }

  ghost predicate Inv(a: Layout) {
    Geometry(a) && Binned(a)
  }

  // ---- geometry ----------------------------------------------------------------------

  /** Every chunk (and top) but the first has a chunk ending where it starts. */
  lemma {:induction false} Predecessor(a: Layout, from: int, q: int) returns (p: int)
    requires Tiled(a)
    requires from in a.chunks && from < q && (q in a.chunks || q == a.top)
    ensures p in a.chunks && a.Next(p) == q
    decreases q - from
  {
    if a.Next(from) == q {
      p := from;
    } else {
      p := Predecessor(a, a.Next(from), q);
    }
  }

  /** Bytes of the chunks selected by w from p up to top. */
  ghost function Bytes(a: Layout, p: int, w: bool): int
    requires Tiled(a)
    requires p in a.chunks || p == a.top
    decreases a.top - p
  {
    if p == a.top || p !in a.chunks then 0
    else (if a.chunks[p].used == w then a.chunks[p].size else 0) + Bytes(a, a.Next(p), w)
  }

  /** Used bytes, free bytes and top add up to the arena. */
  lemma {:induction false} BytesAddUp(a: Layout, p: int)
    requires Tiled(a)
    requires p in a.chunks || p == a.top
    ensures Bytes(a, p, true) + Bytes(a, p, false) + (a.end - a.top) == a.end - p
    decreases a.top - p
  {
    if p in a.chunks {
      assert p != a.top;
      BytesAddUp(a, a.Next(p));
    }
  }

  // ---- bins ---------------------------------------------------------------------------

  function IndexOf(s: seq<int>, x: int): (k: int)
    requires x in s
    ensures 0 <= k < |s| && s[k] == x
  {
    if s[0] == x then 0 else 1 + IndexOf(s[1..], x)
  }

  /** The bin that holds free chunk x. */
  ghost function Home(a: Layout, x: int): (i: int)
    requires Tiled(a) && Binned(a) && a.Free(x)
    ensures 1 <= i < NAV && x in a.bins[i]
    ensures i == LAST_REMAINDER || i == BinIndex(a.chunks[x].size)
  {
    BinIndexRange(a.chunks[x].size);
    if x in a.bins[LAST_REMAINDER] then LAST_REMAINDER else BinIndex(a.chunks[x].size)
  }

  function RemoveAt(s: seq<int>, k: int): seq<int>
    requires 0 <= k < |s|
  {
    s[..k] + s[k + 1..]
  }

  function InsertAt(s: seq<int>, k: int, x: int): seq<int>
    requires 0 <= k <= |s|
  {
    s[..k] + [x] + s[k..]
  }

  // ---- the primitive steps --------------------------------------------------------------

  /** Take the chunk at position k of bin i out of its bin. */
  ghost function Take(a: Layout, i: int, k: int): Layout
    requires |a.bins| == NAV && 1 <= i < NAV && 0 <= k < |a.bins[i]|
    requires a.bins[i][k] in a.chunks
  {
    var x := a.bins[i][k];
    a.(chunks := a.chunks[x := Chunk(a.chunks[x].size, true)],
       bins := a.bins[i := RemoveAt(a.bins[i], k)])
  }

  /** Put held chunk x at position k of bin i. */
  ghost function Put(a: Layout, x: int, i: int, k: int): Layout
    requires |a.bins| == NAV && 1 <= i < NAV && 0 <= k <= |a.bins[i]| && x in a.chunks
  {
    a.(chunks := a.chunks[x := Chunk(a.chunks[x].size, false)],
       bins := a.bins[i := InsertAt(a.bins[i], k, x)],
       blocks := if i >= 2 then a.blocks + {i / BINBLOCKWIDTH} else a.blocks)
  }

  /** Join held chunk p with the held chunk after it. */
  ghost function Join(a: Layout, p: int): Layout
    requires p in a.chunks && a.Next(p) in a.chunks
  {
    var q := a.Next(p);
    a.(chunks := (a.chunks - {q})[p := Chunk(a.chunks[p].size + a.chunks[q].size, true)])
  }

  /** Cut held chunk p after n bytes. */
  ghost function Cut(a: Layout, p: int, n: int): Layout
    requires p in a.chunks
  {
    a.(chunks := a.chunks[p := Chunk(n, true)][p + n := Chunk(a.chunks[p].size - n, true)])
  }

  /** Carve n bytes off the low end of top. */
  ghost function Carve(a: Layout, n: int): Layout {
    a.(chunks := a.chunks[a.top := Chunk(n, true)], top := a.top + n)
  }

  /** Give held chunk p, which borders top, back to top. */
  ghost function Absorb(a: Layout, p: int): Layout {
    a.(chunks := a.chunks - {p}, top := p)
  }

  /** Held chunk p, which borders top, becomes n bytes long and top starts after it. */
  ghost function Stretch(a: Layout, p: int, n: int): Layout {
    a.(chunks := a.chunks[p := Chunk(n, true)], top := p + n)
  }

  /** The system extends the arena by n bytes. */
  ghost function Grow(a: Layout, n: int): Layout {
    a.(end := a.end + n)
  }

  /** Putting a chunk in a bin moves nothing. */
  lemma PutTiled(a: Layout, x: int, i: int, k: int)
    requires Tiled(a) && |a.bins| == NAV && 1 <= i < NAV && 0 <= k <= |a.bins[i]| && x in a.chunks
    ensures Tiled(Put(a, x, i, k))
    ensures forall p :: p in a.chunks ==> Put(a, x, i, k).Next(p) == a.Next(p)
  {
    var b := Put(a, x, i, k);
    assert forall p :: p in a.chunks ==> b.chunks[p].size == a.chunks[p].size;
    assert b.chunks.Keys == a.chunks.Keys;
    assert Aligned(b) && Apart(b);
    hide Aligned, Apart;
    forall p | p in a.chunks
      ensures b.Next(p) == a.Next(p)
    {
    }
  }

  // ---- each step keeps the invariant ------------------------------------------------------

  lemma RemoveAtMembers(s: seq<int>, k: int)
    requires 0 <= k < |s|
    ensures forall x :: x in s && x != s[k] ==> x in RemoveAt(s, k)
    ensures forall x :: x in RemoveAt(s, k) ==> x in s
  {
    forall x | x in s && x != s[k]
      ensures x in RemoveAt(s, k)
    {
      var l := IndexOf(s, x);
      assert RemoveAt(s, k)[if l < k then l else l - 1] == x;
    }
  }

  lemma InsertAtMembers(s: seq<int>, k: int, x: int)
    requires 0 <= k <= |s|
    ensures forall y :: y in InsertAt(s, k, x) <==> y in s || y == x
  {
    forall y | y in s
      ensures y in InsertAt(s, k, x)
    {
      var l := IndexOf(s, y);
      assert InsertAt(s, k, x)[if l < k then l else l + 1] == y;
    }
    assert InsertAt(s, k, x)[k] == x;
  }

  lemma BinOkFrame(c: map<int, Chunk>, d: map<int, Chunk>, i: int, s: seq<int>)
    requires BinOk(c, i, s)
    requires forall x :: x in s && x in c ==> x in d && d[x] == c[x]
    ensures BinOk(d, i, s)
  {
    hide BinIndex;
    forall k | 0 <= k < |s|
      ensures s[k] in c && s[k] in d && d[s[k]] == c[s[k]]
    {
      var x := s[k];
      assert x in s && x in c;
    }
  }

  lemma BinOkRemove(c: map<int, Chunk>, i: int, s: seq<int>, k: int)
    requires BinOk(c, i, s) && 0 <= k < |s|
    ensures BinOk(c[s[k] := Chunk(c[s[k]].size, true)], i, RemoveAt(s, k))
    ensures s[k] !in RemoveAt(s, k)
  {
    hide BinIndex;
    var t := RemoveAt(s, k);
    assert forall l :: 0 <= l < |t| ==> t[l] == s[if l < k then l else l + 1] && t[l] != s[k];
  }

  /** Two chunks in one bin list, or in two, are different chunks. */
  lemma BinsApart(c: map<int, Chunk>, bins: seq<seq<int>>, i: int, j: int, x: int)
    requires BinsOk(c, bins) && 1 <= i < NAV && 1 <= j < NAV && i != j
    ensures !(x in bins[i] && x in bins[j])
  {
    hide BinIndex;
    assert BinOk(c, i, bins[i]) && BinOk(c, j, bins[j]);
  }

  lemma TakeKeepsBins(a: Layout, i: int, k: int)
    requires Inv(a) && 1 <= i < NAV && 0 <= k < |a.bins[i]|
    requires a.bins[i][k] in a.chunks
    ensures BinsOk(Take(a, i, k).chunks, Take(a, i, k).bins)
  {
    hide BinIndex;
    var b := Take(a, i, k);
    var x := a.bins[i][k];
    assert BinOk(a.chunks, i, a.bins[i]);
    BinOkRemove(a.chunks, i, a.bins[i], k);
    RemoveAtMembers(a.bins[i], k);
    forall j | 1 <= j < NAV
      ensures BinOk(b.chunks, j, b.bins[j])
    {
      if j != i {
        BinsApart(a.chunks, a.bins, i, j, x);
        BinOkFrame(a.chunks, b.chunks, j, a.bins[j]);
      }
    }
  }

  lemma TakeGeometry(a: Layout, i: int, k: int)
    requires Geometry(a) && |a.bins| == NAV && 1 <= i < NAV && 0 <= k < |a.bins[i]|
    requires a.bins[i][k] in a.chunks
    ensures Geometry(Take(a, i, k))
  {
    hide RemoveAt;
    var b := Take(a, i, k);
    assert forall p :: p in b.chunks ==> b.chunks[p].size == a.chunks[p].size;
    assert Aligned(b) && Apart(b);
    hide Aligned, Apart;
    forall p | p in b.chunks
      ensures b.Next(p) == b.top || b.Next(p) in b.chunks
      ensures b.Free(p) ==> b.Used(b.Next(p))
    {
      assert a.Next(p) == b.Next(p);
    }
  }

  lemma TakeBinned(a: Layout, i: int, k: int)
    requires Inv(a) && 1 <= i < NAV && 0 <= k < |a.bins[i]|
    requires a.bins[i][k] in a.chunks
    ensures Binned(Take(a, i, k))
  {
    hide BinIndex, Geometry;
    TakeKeepsBins(a, i, k);
    RemoveAtMembers(a.bins[i], k);
    assert BinOk(a.chunks, i, a.bins[i]);
  }

  lemma TakeKeeps(a: Layout, i: int, k: int)
    requires Inv(a) && 1 <= i < NAV && 0 <= k < |a.bins[i]|
    requires a.bins[i][k] in a.chunks
    ensures Inv(Take(a, i, k))
  {
    TakeBinned(a, i, k);
    hide Geometry, BinOk;
    TakeGeometry(a, i, k);
  }

  /** Where a chunk of the given size may be put in bin i. */
  ghost predicate Fits(a: Layout, x: int, i: int, k: int) {
    && |a.bins| == NAV && x in a.chunks
    && (i == LAST_REMAINDER ==> a.bins[i] == [] && k == 0)
    && (i != LAST_REMAINDER ==>
          && 2 <= i < NAV && BinIndex(a.chunks[x].size) == i && 0 <= k <= |a.bins[i]|
          && (forall l :: 0 <= l < |a.bins[i]| ==> a.bins[i][l] in a.chunks)
          && (forall l :: 0 <= l < k ==> a.chunks[a.bins[i][l]].size >= a.chunks[x].size)
          && (forall l :: k <= l < |a.bins[i]| ==> a.chunks[a.bins[i][l]].size <= a.chunks[x].size))
  }

  lemma BinOkInsert(c: map<int, Chunk>, x: int, i: int, s: seq<int>, k: int)
    requires BinOk(c, i, s) && x in c && c[x].used && 0 <= k <= |s|
    requires i != LAST_REMAINDER ==> BinIndex(c[x].size) == i
    requires forall l :: 0 <= l < k ==> c[s[l]].size >= c[x].size
    requires forall l :: k <= l < |s| ==> c[s[l]].size <= c[x].size
    ensures BinOk(c[x := Chunk(c[x].size, false)], i, InsertAt(s, k, x))
  {
    hide BinIndex;
    var t := InsertAt(s, k, x);
    var d := c[x := Chunk(c[x].size, false)];
    assert forall l :: 0 <= l < |t| ==> t[l] == if l < k then s[l] else if l == k then x else s[l - 1];
    assert forall l :: 0 <= l < |s| ==> s[l] != x && d[s[l]] == c[s[l]];
  }

  lemma UsedNotBinned(c: map<int, Chunk>, bins: seq<seq<int>>, x: int)
    requires BinsOk(c, bins) && (x in c ==> c[x].used)
    ensures forall j :: 1 <= j < NAV ==> x !in bins[j]
  {
    hide BinIndex;
    forall j | 1 <= j < NAV
      ensures x !in bins[j]
    {
      assert BinOk(c, j, bins[j]);
    }
  }

  lemma PutKeepsBins(a: Layout, x: int, i: int, k: int)
    requires Binned(a) && a.Used(x) && Fits(a, x, i, k)
    ensures BinsOk(Put(a, x, i, k).chunks, Put(a, x, i, k).bins)
  {
    hide BinIndex;
    var b := Put(a, x, i, k);
    UsedNotBinned(a.chunks, a.bins, x);
    assert BinOk(a.chunks, i, a.bins[i]);
    BinOkInsert(a.chunks, x, i, a.bins[i], k);
    InsertAtMembers(a.bins[i], k, x);
    forall j | 1 <= j < NAV
      ensures BinOk(b.chunks, j, b.bins[j])
    {
      if j != i {
        BinOkFrame(a.chunks, b.chunks, j, a.bins[j]);
      }
    }
  }

  /** The neighbours of a chunk being freed must be in use (or the start of the arena). */
  ghost predicate Enclosed(a: Layout, x: int)
    requires x in a.chunks
  {
    && a.Used(a.Next(x))
    && (forall p {:trigger a.Next(p)} :: p in a.chunks && a.Next(p) == x ==> a.chunks[p].used)
  }

  lemma PutGeometry(a: Layout, x: int, i: int, k: int)
    requires Geometry(a) && a.Used(x) && Enclosed(a, x)
    requires |a.bins| == NAV && 1 <= i < NAV && 0 <= k <= |a.bins[i]|
    ensures Geometry(Put(a, x, i, k))
  {
    var b := Put(a, x, i, k);
    forall p | p in b.chunks
      ensures b.Next(p) == b.top || b.Next(p) in b.chunks
      ensures b.Free(p) ==> b.Used(b.Next(p))
    {
      assert a.Next(p) == b.Next(p);
    }
  }

  lemma PutKeeps(a: Layout, x: int, i: int, k: int)
    requires Inv(a) && a.Used(x) && Fits(a, x, i, k) && Enclosed(a, x)
    ensures Inv(Put(a, x, i, k))
  {
    hide BinIndex;
    PutGeometry(a, x, i, k);
    PutKeepsBins(a, x, i, k);
    InsertAtMembers(a.bins[i], k, x);
    var b := Put(a, x, i, k);
    forall p | p in b.chunks && !b.chunks[p].used && 0 <= BinIndex(b.chunks[p].size) < NAV
      ensures p in b.bins[LAST_REMAINDER] || p in b.bins[BinIndex(b.chunks[p].size)]
    {
      assert p == x || (p in a.chunks && !a.chunks[p].used);
    }
  }

  /** A layout whose free chunks are all still there, unchanged, has the same bins. */
  lemma BinnedFrame(a: Layout, b: Layout)
    requires Binned(a) && b.bins == a.bins && b.blocks == a.blocks
    requires forall p :: a.Free(p) <==> b.Free(p)
    requires forall p :: a.Free(p) && p in b.chunks ==> b.chunks[p] == a.chunks[p]
    ensures Binned(b)
  {
    hide BinIndex;
    forall j | 1 <= j < NAV
      ensures BinOk(b.chunks, j, b.bins[j])
    {
      assert BinOk(a.chunks, j, a.bins[j]);
      assert forall x :: x in a.bins[j] ==> a.Free(x) && b.Free(x);
      BinOkFrame(a.chunks, b.chunks, j, a.bins[j]);
    }
    assert forall p :: p in b.chunks && !b.chunks[p].used ==> b.Free(p) && a.Free(p);
  }

  lemma JoinAligned(a: Layout, p: int)
    requires Aligned(a) && a.Used(p) && a.Used(a.Next(p))
    ensures Aligned(Join(a, p))
  {
    var b, q := Join(a, p), a.Next(p);
    Multiples(a.chunks[p].size, a.chunks[q].size);
    forall r | r in b.chunks
      ensures a.base <= r && r % 8 == 0 && b.chunks[r].size % 8 == 0
      ensures MINSIZE <= b.chunks[r].size && r + b.chunks[r].size <= a.top
    {
      assert r in a.chunks && (r == p || b.chunks[r] == a.chunks[r]);
    }
  }

  lemma JoinApart(a: Layout, p: int)
    requires Apart(a) && a.Used(p) && a.Used(a.Next(p)) && 0 < a.chunks[p].size
    ensures Apart(Join(a, p))
  {
    var b, q := Join(a, p), a.Next(p);
    forall r, t | r in b.chunks && t in b.chunks && r < t
      ensures r + b.chunks[r].size <= t
    {
      assert r in a.chunks && t in a.chunks && t != q && r != q;
      if r == p {
        assert t > q;
      } else {
        assert b.chunks[r] == a.chunks[r];
      }
    }
  }

  lemma JoinGeometry(a: Layout, p: int)
    requires Geometry(a) && a.Used(p) && a.Used(a.Next(p))
    ensures Geometry(Join(a, p))
  {
    var b, q := Join(a, p), a.Next(p);
    JoinAligned(a, p);
    JoinApart(a, p);
    assert b.Next(p) == a.Next(q);
    forall r | r in b.chunks && r != p
      ensures b.Next(r) == b.top || b.Next(r) in b.chunks
      ensures b.Free(r) ==> b.Used(b.Next(r))
    {
      assert b.Next(r) == a.Next(r);
      assert r < p || q + a.chunks[q].size <= r;
    }
  }

  lemma JoinKeeps(a: Layout, p: int)
    requires Inv(a) && a.Used(p) && a.Used(a.Next(p))
    ensures Inv(Join(a, p))
  {
    JoinGeometry(a, p);
    BinnedFrame(a, Join(a, p));
  }

  ghost predicate Cuttable(a: Layout, p: int, n: int) {
    a.Used(p) && n % 8 == 0 && MINSIZE <= n && n + MINSIZE <= a.chunks[p].size
  }

  lemma Multiples(x: int, y: int)
    requires x % 8 == 0 && y % 8 == 0
    ensures (x + y) % 8 == 0 && (x - y) % 8 == 0
  {
  }

  lemma CutAligned(a: Layout, p: int, n: int)
    requires Aligned(a) && Cuttable(a, p, n)
    ensures Aligned(Cut(a, p, n))
  {
    var b := Cut(a, p, n);
    Multiples(p, n);
    Multiples(a.chunks[p].size, n);
    assert b.chunks[p + n] == Chunk(a.chunks[p].size - n, true) && b.chunks[p] == Chunk(n, true);
    assert forall r :: r in b.chunks && r != p && r != p + n ==> r in a.chunks && b.chunks[r] == a.chunks[r];
  }

  lemma CutApart(a: Layout, p: int, n: int)
    requires Apart(a) && Cuttable(a, p, n)
    ensures Apart(Cut(a, p, n))
    ensures p + n !in a.chunks
  {
    var b := Cut(a, p, n);
    var size := a.chunks[p].size;
    assert forall q :: q in a.chunks && q != p ==> q + a.chunks[q].size <= p || p + size <= q || q < p;
    assert forall q :: q in b.chunks && q != p && q != p + n ==> q in a.chunks && b.chunks[q] == a.chunks[q];
  }

  lemma CutLinked(a: Layout, p: int, n: int)
    requires Linked(a) && Coalesced(a) && Cuttable(a, p, n) && p + n !in a.chunks
    ensures Linked(Cut(a, p, n)) && Coalesced(Cut(a, p, n))
  {
    var b := Cut(a, p, n);
    assert b.Next(p) == p + n && b.Next(p + n) == a.Next(p);
    forall r | r in b.chunks
      ensures b.Next(r) == b.top || b.Next(r) in b.chunks
      ensures b.Free(r) ==> b.Used(b.Next(r))
    {
      if r != p && r != p + n {
        assert b.Next(r) == a.Next(r);
      }
    }
  }

  lemma CutGeometry(a: Layout, p: int, n: int)
    requires Geometry(a) && Cuttable(a, p, n)
    ensures Geometry(Cut(a, p, n))
    ensures p + n !in a.chunks
  {
    hide Cut;
    CutAligned(a, p, n);
    CutApart(a, p, n);
    hide Aligned, Apart, Linked, Coalesced;
    CutLinked(a, p, n);
  }

  lemma CutKeeps(a: Layout, p: int, n: int)
    requires Inv(a) && Cuttable(a, p, n)
    ensures Inv(Cut(a, p, n))
    ensures p + n !in a.chunks
  {
    CutGeometry(a, p, n);
    BinnedFrame(a, Cut(a, p, n));
  }

  lemma CarveAligned(a: Layout, n: int)
    requires Aligned(a) && n % 8 == 0 && MINSIZE <= n && a.top + n + MINSIZE <= a.end
    ensures Aligned(Carve(a, n)) && a.top !in a.chunks
  {
    Multiples(a.top, n);
  }

  lemma CarveApart(a: Layout, n: int)
    requires Aligned(a) && Apart(a)
    ensures Apart(Carve(a, n))
  {
    var b := Carve(a, n);
    forall p, q | p in b.chunks && q in b.chunks && p < q
      ensures p + b.chunks[p].size <= q
    {
      assert q != a.top ==> q in a.chunks && q + a.chunks[q].size <= a.top;
      assert p != a.top ==> p in a.chunks && p + a.chunks[p].size <= a.top;
    }
  }

  lemma CarveGeometry(a: Layout, n: int)
    requires Geometry(a) && n % 8 == 0 && MINSIZE <= n && a.top + n + MINSIZE <= a.end
    ensures Geometry(Carve(a, n)) && a.top !in a.chunks
  {
    CarveAligned(a, n);
    CarveApart(a, n);
    hide Aligned, Apart;
    var b := Carve(a, n);
    assert b.Next(a.top) == b.top;
    forall p | p in b.chunks
      ensures b.Next(p) == b.top || b.Next(p) in b.chunks
      ensures b.Free(p) ==> b.Used(b.Next(p))
    {
      assert p != a.top ==> p in a.chunks && a.Next(p) == b.Next(p);
    }
  }

  lemma CarveKeeps(a: Layout, n: int)
    requires Inv(a) && n % 8 == 0 && MINSIZE <= n && a.top + n + MINSIZE <= a.end
    ensures Inv(Carve(a, n))
    ensures a.top !in a.chunks
  {
    CarveGeometry(a, n);
    hide Binned, Geometry;
    BinnedFrame(a, Carve(a, n));
  }

  lemma AbsorbKeeps(a: Layout, p: int)
    requires Inv(a) && a.Used(p) && a.Next(p) == a.top
    requires forall q :: q in a.chunks && a.Next(q) == p ==> a.chunks[q].used
    ensures Inv(Absorb(a, p))
  {
    hide BinIndex;
    var b := Absorb(a, p);
    forall r | r in b.chunks
      ensures b.Next(r) == b.top || b.Next(r) in b.chunks
      ensures b.Free(r) ==> b.Used(b.Next(r))
    {
      assert a.Next(r) == b.Next(r);
    }
    assert Tiled(b);
    BinnedFrame(a, b);
  }

  lemma GrowKeeps(a: Layout, n: int)
    requires Inv(a) && n % 8 == 0 && 0 <= n
    ensures Inv(Grow(a, n))
  {
    hide BinIndex, BinOk;
    var b := Grow(a, n);
    forall r | r in b.chunks
      ensures b.Next(r) == b.top || b.Next(r) in b.chunks
      ensures b.Free(r) ==> b.Used(b.Next(r))
    {
      assert a.Next(r) == b.Next(r);
    }
    assert Tiled(b);
    BinnedFrame(a, b);
  }

  /** What comes before the last chunk ends before it. */
  lemma BeforeLast(a: Layout, p: int, r: int)
    requires Aligned(a) && Apart(a) && p in a.chunks && a.Next(p) == a.top && r in a.chunks && r != p
    ensures r + a.chunks[r].size <= p
  {
  }

  lemma StretchShape(a: Layout, p: int, n: int)
    requires Aligned(a) && Apart(a) && a.Used(p) && a.Next(p) == a.top
    requires n % 8 == 0 && MINSIZE <= n && p + n + MINSIZE <= a.end
    ensures Aligned(Stretch(a, p, n)) && Apart(Stretch(a, p, n))
  {
    var b := Stretch(a, p, n);
    Multiples(p, n);
    forall r | r in b.chunks && r != p
      ensures r + b.chunks[r].size <= p && b.chunks[r] == a.chunks[r] && r in a.chunks
    {
      BeforeLast(a, p, r);
    }
    assert Aligned(b);
    hide Aligned;
  }

  lemma StretchGeometry(a: Layout, p: int, n: int)
    requires Geometry(a) && a.Used(p) && a.Next(p) == a.top
    requires n % 8 == 0 && MINSIZE <= n && p + n + MINSIZE <= a.end
    ensures Geometry(Stretch(a, p, n))
  {
    var b := Stretch(a, p, n);
    StretchShape(a, p, n);
    hide Aligned;
    assert b.Next(p) == b.top;
    forall r | r in b.chunks && r != p
      ensures b.Next(r) in b.chunks
      ensures b.Free(r) ==> b.Used(b.Next(r))
    {
      assert b.Next(r) == a.Next(r);
      assert b.Next(r) <= p;
    }
  }

  lemma StretchKeeps(a: Layout, p: int, n: int)
    requires Inv(a) && a.Used(p) && a.Next(p) == a.top
    requires n % 8 == 0 && MINSIZE <= n && p + n + MINSIZE <= a.end
    ensures Inv(Stretch(a, p, n))
  {
    hide BinIndex;
    StretchGeometry(a, p, n);
    BinnedFrame(a, Stretch(a, p, n));
  }
}
