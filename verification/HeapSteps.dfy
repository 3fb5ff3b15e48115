/** What malloc, free and realloc need to know about memory and layouts: request sizes, which
    chunk malloc chooses, and the facts that hold between their individual writes. */
module HeapSteps {
  import opened HeapLayout
  import opened HeapMemory
  import opened HeapRep
  import opened Word

  const PAGE := 0x1000
  const SMALL_LIMIT := MAX_SMALLBIN_SIZE - 8   // is_small_request: nb < SMALL_LIMIT

  /** request2size, in 32-bit arithmetic. */
  function RequestToSize(req: int): int {
    var padded := (req + SIZE_SZ + 7) % WORD;
    if Signed(padded) < MINSIZE + 7 then MINSIZE else padded - padded % 8
  }

  /** The padded size holds the request exactly when the padding does not pass 2^31. Above
      that the comparison is made on a negative number and the request becomes MINSIZE. */
  lemma RequestFits(req: int)
    requires 0 <= req < WORD
    ensures MINSIZE <= RequestToSize(req) < LIMIT && RequestToSize(req) % 8 == 0
    ensures req <= RequestToSize(req) - SIZE_SZ <==> req + SIZE_SZ + 7 < LIMIT
    ensures req + SIZE_SZ + 7 < LIMIT && MINSIZE < RequestToSize(req) ==>
      RequestToSize(req) < req + SIZE_SZ + 8
  {
    var padded := (req + SIZE_SZ + 7) % WORD;
    var k := padded / 8;
    assert padded == 8 * k + padded % 8;
  }

  lemma SmallBinIndex(s: int)
    requires 0 <= s < MAX_SMALLBIN_SIZE
    ensures BinIndex(s) == s / 8
  {
  }

  lemma SmallBinSizes(a: Layout, i: int)
    requires Inv(a) && 2 <= i < 64
    ensures forall y :: y in a.bins[i] ==> y in a.chunks && a.chunks[y].size == 8 * i
  {
    assert BinOk(a.chunks, i, a.bins[i]);
    forall y | y in a.bins[i]
      ensures y in a.chunks && a.chunks[y].size == 8 * i
    {
      var s := a.chunks[y].size;
      assert BinIndex(s) == i && s % 8 == 0;
      var k := s / 8;
      assert s == 8 * k;
      BinIndexRange(s);
    }
  }

  lemma UniquePrevious(a: Layout, p: int, q: int)
    requires Aligned(a) && Apart(a) && p in a.chunks && q in a.chunks && a.Next(p) == a.Next(q)
    ensures p == q
  {
  }

  /** The size field after a chunk, when it is up to date. */
  lemma NextHead(m: Mem, a: Layout, stale: set<int>, lr: bool, x: int)
    requires Inv(a) && Rep(m, a, stale, lr) && x in a.chunks && a.Next(x) !in stale
    ensures a.Next(x) in a.chunks ==> Head(m, a.Next(x)) == Tag(a.chunks[a.Next(x)].size, a.chunks[x].used)
    ensures a.Next(x) !in a.chunks ==> a.Next(x) == a.top && a.chunks[x].used
    ensures forall p {:trigger a.Next(p)} :: p in a.chunks && a.Next(p) == a.Next(x) ==> p == x
  {
    hide BinIndex, Ring;
    assert a.Free(x) ==> a.Used(a.Next(x));
    forall p | p in a.chunks && a.Next(p) == a.Next(x)
      ensures p == x
    {
      UniquePrevious(a, p, x);
    }
  }

  lemma SetInuseValue(size: int, b: bool)
    requires size % 8 == 0
    ensures Tag(Tag(size, b) - Tag(size, b) % 2, true) == Tag(size, true)
  {
    var k := size / 8;
    assert size == 8 * k;
  }

  /** The chunks around a free chunk are in use. */
  lemma FreeEnclosed(a: Layout, x: int)
    requires Geometry(a) && a.Free(x)
    ensures Enclosed(a, x)
  {
    forall p | p in a.chunks && a.Next(p) == x
      ensures a.chunks[p].used
    {
      assert a.Free(p) ==> a.Used(a.Next(p));
    }
  }

  lemma FreeNext(a: Layout, x: int)
    requires Inv(a) && a.Free(x)
    ensures a.Used(a.Next(x))
  {
    hide BinIndex;
  }

  lemma HeadUnlinked(a: Layout, m: Mem, m': Mem, p: int)
    requires Inv(a) && OnlyLinks(a, m, m') && (p in a.chunks || p == a.top)
    ensures Head(m', p) == Head(m, p)
  {
    hide BinIndex, LinkCell;
    LinksAreNotTags(a, p);
  }

  lemma FootKeepsHeads(a: Layout, m: Mem, x: int, v: int)
    requires Inv(a) && a.Free(x)
    ensures forall q :: q in a.chunks || q == a.top ==> Head(Wr(m, a.Next(x), v), q) == Head(m, q)
  {
    hide BinIndex;
    forall q | q in a.chunks || q == a.top
      ensures q + SIZE_SZ != a.Next(x)
    {
      BoundariesApart(a, q, a.Next(x));
    }
  }

  /** A chunk, the one after it, and what follows are boundaries of the tiling. */
  lemma SplitBoundaries(c: Layout, x: int, r: int)
    requires Inv(c) && x in c.chunks && r in c.chunks && c.Next(x) == r && c.Next(r) in c.chunks
    ensures Aligned(c) && Linked(c) && Apart(c)
    ensures c.Next(r) == r + c.chunks[r].size
  {
    hide BinIndex, Binned;
  }

  lemma RightBitPut(b: Layout, x: int, r: int)
    requires |b.bins| == NAV && Geometry(b) && x in b.chunks && b.Next(x) == r && r in b.chunks && RightBit(b, x, true)
    ensures RightBit(Put(b, r, LAST_REMAINDER, 0), x, true)
  {
    var c := Put(b, r, LAST_REMAINDER, 0);
    forall q | q in c.chunks && c.Next(q) == x
      ensures c.chunks[q].used
    {
      assert b.Next(q) == x && q != r;
    }
  }

  /** All three tags around a finished split are right. */
  lemma SplitTrust(m: Mem, c: Layout, x: int, r: int, next: int)
    requires Inv(c) && Rep(m, c, {x, r, next}, false)
    requires c.Used(x) && c.Free(r) && c.Used(next) && c.Next(x) == r && c.Next(r) == next
    requires RightBit(c, x, true)
    requires Head(m, x) == Tag(c.chunks[x].size, true)
    requires Head(m, r) == Tag(c.chunks[r].size, true) && PrevSize(m, next) == c.chunks[r].size
    requires Head(m, next) == Tag(c.chunks[next].size, false)
    ensures Rep(m, c, {}, false)
  {
    hide BinIndex, Head, PrevSize, TagsOk, RingsOk, Binned, Tag, Aligned;
    forall q | q in c.chunks && (c.Next(q) == r || c.Next(q) == next)
      ensures q == x || q == r
    {
      if c.Next(q) == r {
        UniquePrevious(c, q, x);
      } else {
        UniquePrevious(c, q, r);
      }
    }
    FirstIsFirst(c, x);
    FirstIsFirst(c, r);
    assert RightBit(c, r, true) && RightBit(c, next, false);
    TrustStep(m, c, {x, r, next}, false, r, true);
    assert {x, r, next} - {r} == {x, next} - {r};
    TrustStep(m, c, {x, r, next} - {r}, false, x, true);
    TrustStep(m, c, {x, r, next} - {r} - {x}, false, next, false);
    assert {x, r, next} - {r} - {x} - {next} == {};
  }

  lemma BinChunk(a: Layout, i: int, k: int)
    requires Inv(a) && 1 <= i < NAV && 0 <= k < |a.bins[i]|
    ensures a.Free(a.bins[i][k])
  {
    hide BinIndex;
    assert BinOk(a.chunks, i, a.bins[i]);
  }

  ghost function SizeAt(a: Layout, i: int, k: int): int
    requires 0 <= i < |a.bins| && 0 <= k < |a.bins[i]|
  {
    if a.bins[i][k] in a.chunks then a.chunks[a.bins[i][k]].size else 0
  }

  lemma TopSize(m: Mem, a: Layout)
    requires Inv(a) && Rep(m, a, {}, false) && a.top < a.end
    ensures Head(m, a.top) == Tag(a.end - a.top, true) && ChunkSize(Head(m, a.top)) == a.end - a.top
  {
    hide BinIndex, Binned, RingsOk;
    Multiples(a.end, a.top);
    TagFields(a.end - a.top, true);
  }

  /** What borders top is in use. */
  lemma TopEnclosed(a: Layout)
    requires Geometry(a)
    ensures RightBit(a, a.top, true)
  {
    forall q | q in a.chunks && a.Next(q) == a.top
      ensures a.chunks[q].used
    {
      assert a.Free(q) ==> a.Used(a.Next(q));
    }
  }

  lemma CarveFacts(m: Mem, a: Layout, n: int)
    requires Inv(a) && Rep(m, a, {}, false)
    requires n % 8 == 0 && MINSIZE <= n && a.top + n + MINSIZE <= a.end
    ensures Inv(Carve(a, n)) && Rep(m, Carve(a, n), {a.top, a.top + n}, false)
    ensures RightBit(Carve(a, n), a.top, true) && RightBit(Carve(a, n), a.top + n, true)
    ensures a.top !in a.chunks
  {
    hide BinIndex, Binned, RingsOk, TagsOk;
    CarveStep(m, a, {}, false, n);
    assert {} + {a.top, a.top + n} == {a.top, a.top + n};
    CarveKeeps(a, n);
    TopEnclosed(a);
    var b := Carve(a, n);
    TopEnclosed(b);
    forall q | q in b.chunks && b.Next(q) == a.top
      ensures b.chunks[q].used
    {
      assert q != a.top && a.Next(q) == a.top;
    }
  }

  lemma IntactCarve(a: Layout, m: Mem, n: int)
    requires a.top !in a.chunks
    ensures Intact(a, m, Carve(a, n), m, 0)
  {
  }

  lemma IntactVia(a: Layout, m: Mem, b: Layout, c: Layout, m2: Mem, x: int)
    requires Intact(a, m, b, m2, x)
    requires forall q :: a.Used(q) && q != x ==> c.Used(q) && c.chunks[q] == a.chunks[q]
    ensures Intact(a, m, c, m2, x)
  {
    hide Rd, DataWord;
  }

  lemma IntactSelf(a: Layout, m: Mem)
    ensures Intact(a, m, a, m, 0)
  {
  }

  lemma IntactGrow(a: Layout, m: Mem, n: int)
    ensures Intact(a, m, Grow(a, n), m, 0)
  {
  }

  lemma IntactEmpty(a: Layout, m: Mem, b: Layout, m2: Mem)
    requires a.chunks == map[]
    ensures Intact(a, m, b, m2, 0)
  {
  }

  /** The bytes asked of the system: rounded to pages, except the first time. */
  function SbrkSize(first: bool, nb: int): int {
    if first then nb + MINSIZE else (nb + MINSIZE + (PAGE - 1)) / PAGE * PAGE
  }

  lemma GrowSize(nb: int, end: int)
    requires 0 <= nb && end % PAGE == 0
    ensures nb + MINSIZE <= SbrkSize(false, nb)
    ensures SbrkSize(false, nb) % 8 == 0 && (end + SbrkSize(false, nb)) % PAGE == 0
  {
    var k, l := (nb + MINSIZE + (PAGE - 1)) / PAGE, end / PAGE;
    assert SbrkSize(false, nb) == PAGE * k && end == PAGE * l;
    assert PAGE * k == 8 * (512 * k);
    assert end + PAGE * k == PAGE * (k + l);
  }

  /** Where the arena would end after the extension. */
  function ExtentAfter(first: bool, brk: int, end: int, nb: int): int {
    if first then
      var start := if (brk + 2 * SIZE_SZ) % 8 > 0 then brk + (8 - (brk + 2 * SIZE_SZ) % 8) else brk;
      start + SbrkSize(true, nb) + PAGE - (start + SbrkSize(true, nb)) % PAGE
    else end + SbrkSize(false, nb)
  }

  lemma ExtentFirst(brk: int, end: int, other: int, nb: int)
    ensures ExtentAfter(true, brk, end, nb) == ExtentAfter(true, brk, other, nb)
  {
  }

  /** A later extension takes the fewest whole pages that hold nb bytes and a smallest chunk; the first one starts at
      the first aligned address and ends on the page boundary after them. */
  lemma ExtentExactly(first: bool, brk: int, end: int, nb: int)
    requires 0 <= nb && 0 <= brk
    ensures var extent := ExtentAfter(first, brk, end, nb);
            if first then
              && extent % PAGE == 0
              && exists start :: brk <= start < brk + 8 && start % 8 == 0 && 0 < extent - start - nb - MINSIZE <= PAGE
            else (extent - end) % PAGE == 0 && 0 <= extent - end - nb - MINSIZE < PAGE
  {
    if first {
      var start := if (brk + 8) % 8 > 0 then brk + (8 - (brk + 8) % 8) else brk;
      var k := (start + nb + MINSIZE) / PAGE;
      assert ExtentAfter(first, brk, end, nb) == PAGE * (k + 1);
      assert brk <= start < brk + 8 && start % 8 == 0;
    } else {
      var k := (nb + MINSIZE + (PAGE - 1)) / PAGE;
      assert SbrkSize(false, nb) == PAGE * k;
    }
  }

  // ---- which chunk malloc chooses ------------------------------------------------------------

  /** Bins whose chunks count as exact fits for nb: for a small request its own bin and the
      next one, otherwise its own bin. */
  ghost predicate ExactBin(i: int, nb: int) {
    if nb < SMALL_LIMIT then i == nb / 8 || i == nb / 8 + 1 else i == BinIndex(nb)
  }

  ghost predicate NoExactFit(a: Layout, nb: int) {
    forall y :: Listed(a, y) && ExactBin(BinIndex(a.chunks[y].size), nb) ==>
      !(nb <= a.chunks[y].size < nb + MINSIZE)
  }

  /** From layout a to layout b exactly one block came into use: chunk p, which holds nb bytes
      with less than a whole chunk to spare, at the front of what was available. */
  ghost predicate Allocated(a: Layout, b: Layout, p: int, nb: int) {
    && b.Used(p) && !a.Used(p) && p % 8 == 0 && RightBit(b, p, true)
    && nb <= b.chunks[p].size < nb + MINSIZE
    && (forall q :: b.Used(q) <==> a.Used(q) || q == p)
  }

  /** The last remainder is what was split off the free chunk p, which served a request for nb; if nothing was
      split off there is none. */
  ghost predicate Remains(a: Layout, b: Layout, p: int, nb: int) {
    |b.bins| == NAV && b.bins[LAST_REMAINDER] == if a.Free(p) && nb + MINSIZE <= a.chunks[p].size then [p + nb] else []
  }

  ghost predicate SameRemainder(a: Layout, b: Layout) {
    |a.bins| == |b.bins| == NAV && b.bins[LAST_REMAINDER] == a.bins[LAST_REMAINDER]
  }

  ghost predicate NothingFits(a: Layout, nb: int) {
    forall y :: a.Free(y) ==> a.chunks[y].size < nb
  }

  /** Top has no room, and the system gives none, or would have to give too much. */
  ghost predicate NoMemory(a: Layout, started: bool, nb: int, brk: int, granted: bool) {
    && !(started && a.top + nb + MINSIZE <= a.end)
    && !(granted && ExtentAfter(!started, brk, a.end, nb) <= LIMIT)
  }

  /** The end of the arena after a request for nb bytes that is served by malloc: it moves exactly when nothing fits and
      top has no room. */
  ghost function EndAfter(a: Layout, started: bool, nb: int, brk: int, served: bool): int {
    if served && NothingFits(a, nb) && !(started && a.top + nb + MINSIZE <= a.end) then
      ExtentAfter(!started, brk, a.end, nb)
    else a.end
  }

  /** There is no way to get nb bytes. */
  ghost predicate Exhausted(a: Layout, started: bool, nb: int, brk: int, granted: bool) {
    NothingFits(a, nb) && NoMemory(a, started, nb, brk, granted)
  }

  /** The chunk malloc may choose: an exact fit from the bins; else the last remainder, if it
      is large enough; else the best fit in the bins; else memory from top. */
  ghost predicate Chosen(a: Layout, p: int, nb: int) {
    || (BestFit(a, p, nb) && a.chunks[p].size < nb + MINSIZE)
    || (NoExactFit(a, nb) && |a.bins| == NAV && p in a.bins[LAST_REMAINDER] && a.Free(p) && nb <= a.chunks[p].size)
    || (BestFit(a, p, nb) && forall z :: a.Free(z) && !Listed(a, z) ==> a.chunks[z].size < nb)
    || (p !in a.chunks && NothingFits(a, nb))
  }

  ghost predicate SameArena(a: Layout, b: Layout) {
    b.base == a.base && b.top == a.top && b.end == a.end
  }

  ghost function SizeOf(a: Layout, p: int): int {
    if p in a.chunks then a.chunks[p].size else 0
  }

  lemma AllocatedWhole(a: Layout, i: int, k: int, nb: int)
    requires Inv(a) && 1 <= i < NAV && 0 <= k < |a.bins[i]| && a.bins[i][k] in a.chunks
    requires nb <= a.chunks[a.bins[i][k]].size < nb + MINSIZE
    ensures Allocated(a, Take(a, i, k), a.bins[i][k], nb)
  {
    hide BinIndex;
    BinChunk(a, i, k);
    TakenFacts(a, i, k);
  }

  lemma AllocatedSplit(a: Layout, i: int, k: int, nb: int)
    requires Inv(a) && 1 <= i < NAV && 0 <= k < |a.bins[i]| && a.bins[i][k] in a.chunks
    requires Take(a, i, k).bins[LAST_REMAINDER] == []
    requires nb % 8 == 0 && MINSIZE <= nb && nb + MINSIZE <= a.chunks[a.bins[i][k]].size
    ensures Allocated(a, SplitOf(Take(a, i, k), a.bins[i][k], nb), a.bins[i][k], nb)
  {
    hide BinIndex, Inv;
    BinChunk(a, i, k);
    AllocatedSplitBins(a);
    var x, b := a.bins[i][k], Take(a, i, k);
    TakeKeeps(a, i, k);
    TakeSame(a, i, k);
    TakenFacts(a, i, k);
    CutKeeps(b, x, nb);
    ChunkSizes(a, x);
    SplitBit(b, x, nb);
  }

  lemma AllocatedSplitBins(a: Layout)
    requires Inv(a)
    ensures |a.bins| == NAV
  {
  }

  lemma SplitBit(b: Layout, x: int, nb: int)
    requires |b.bins| == NAV && b.bins[LAST_REMAINDER] == []
    requires Inv(b) && Cuttable(b, x, nb) && b.Used(b.Next(x)) && RightBit(b, x, true)
    ensures RightBit(SplitOf(b, x, nb), x, true)
  {
    hide BinIndex, Binned;
    CutLayoutFacts(b, x, nb);
    ChunkSizes(b, x);
    var c, d := SplitOf(b, x, nb), Cut(b, x, nb);
    forall q | q in c.chunks && c.Next(q) == x
      ensures c.chunks[q].used
    {
      assert d.Next(q) == x && q != x + nb;
    }
  }

  lemma AllocatedCarve(m: Mem, a: Layout, nb: int)
    requires Inv(a) && Rep(m, a, {}, false)
    requires nb % 8 == 0 && MINSIZE <= nb && a.top + nb + MINSIZE <= a.end
    ensures Allocated(a, Carve(a, nb), a.top, nb)
  {
    CarveFacts(m, a, nb);
    hide BinIndex, Binned, RingsOk, TagsOk;
  }

  lemma TopPositive(a: Layout)
    requires Inv(a) && AV_END <= a.base
    ensures 0 < a.top && a.top !in a.chunks
  {
    hide BinIndex;
  }

  lemma IntactBlocks(a: Layout, m: Mem, blocks: set<int>)
    ensures Intact(a, m, a.(blocks := blocks), m, 0)
  {
  }

  lemma BestFitSize(a: Layout, p: int, nb: int)
    requires BestFit(a, p, nb)
    ensures a.Free(p) && nb <= a.chunks[p].size
  {
  }

  lemma UsedPositive(a: Layout, p: int)
    requires Inv(a) && AV_END <= a.base && a.Used(p)
    ensures 0 < p
  {
    hide BinIndex;
  }

  lemma AllocatedPositive(a: Layout, b: Layout, p: int, nb: int)
    requires Inv(b) && AV_END <= b.base && Allocated(a, b, p, nb)
    ensures 0 < p
  {
    UsedPositive(b, p);
  }

  lemma AllocatedFrom(a: Layout, b: Layout, c: Layout, p: int, nb: int)
    requires a.chunks == b.chunks && Allocated(b, c, p, nb)
    ensures Allocated(a, c, p, nb)
  {
  }

  /** Demoting a last remainder that is too small does not change where to scan from. */
  lemma ScanFromDemoted(a: Layout, b: Layout, first: int, nb: int)
    requires ScanFrom(a, first, nb) && |a.bins| == NAV && |b.bins| == NAV
    requires b.chunks == a.chunks && b.bins[LAST_REMAINDER] == []
    requires forall z :: z in a.bins[LAST_REMAINDER] ==> SizeOf(a, z) < nb
    ensures ScanFrom(b, first, nb)
  {
    hide BinIndex;
    forall y | Listed(b, y) && nb <= b.chunks[y].size
      ensures Listed(a, y)
    {
      assert SizeOf(a, y) == b.chunks[y].size;
    }
    if BinIndex(nb) == first {
      var y :| Listed(a, y) && nb <= a.chunks[y].size && BinIndex(a.chunks[y].size) == first;
      assert Listed(b, y);
    }
  }

  lemma ChosenByScan(a: Layout, b: Layout, p: int, nb: int)
    requires |a.bins| == NAV && b.chunks == a.chunks && BestFit(b, p, nb)
    requires |b.bins| == NAV && b.bins[LAST_REMAINDER] == []
    requires forall z :: z in a.bins[LAST_REMAINDER] ==> SizeOf(a, z) < nb
    ensures BestFit(a, p, nb) && forall z :: a.Free(z) && !Listed(a, z) ==> a.chunks[z].size < nb
  {
    assert SizeOf(a, p) == a.chunks[p].size;
    forall y | Listed(a, y)
      ensures Listed(b, y)
    {
    }
    forall z | a.Free(z) && !Listed(a, z)
      ensures a.chunks[z].size < nb
    {
      assert SizeOf(a, z) == a.chunks[z].size;
    }
  }

  /** A free chunk that is in a size bin, not in the last_remainder slot. */
  ghost predicate Listed(a: Layout, y: int) {
    a.Free(y) && |a.bins| == NAV && y !in a.bins[LAST_REMAINDER]
  }

  ghost predicate BestFit(a: Layout, x: int, nb: int) {
    && Listed(a, x) && nb <= a.chunks[x].size
    && (forall y :: Listed(a, y) && nb <= a.chunks[y].size ==> a.chunks[x].size <= a.chunks[y].size)
  }

  /** The size bins have no candidate below bin first, and bin first is worth scanning. */
  ghost predicate ScanFrom(a: Layout, first: int, nb: int) {
    && BINBLOCKWIDTH <= first < NAV
    && (forall y :: Listed(a, y) && nb <= a.chunks[y].size ==> first <= BinIndex(a.chunks[y].size))
    && (BinIndex(nb) < first
        || (BinIndex(nb) == first && exists y :: Listed(a, y) && nb <= a.chunks[y].size
                                                 && BinIndex(a.chunks[y].size) == first))
  }

  lemma ListedHome(a: Layout, y: int)
    requires Inv(a) && Listed(a, y)
    ensures 2 <= BinIndex(a.chunks[y].size) < NAV && y in a.bins[BinIndex(a.chunks[y].size)]
  {
    BinIndexRange(a.chunks[y].size);
    hide BinIndex;
  }

  lemma ScanCandidates(a: Layout, first: int, nb: int)
    requires Inv(a) && a.bins[LAST_REMAINDER] == [] && ScanFrom(a, first, nb) && MINSIZE <= nb
    ensures Candidates(a, first, nb)
  {
    hide BinIndex, Geometry;
    forall j | 2 <= j < NAV && first <= j && a.bins[j] != []
      ensures nb <= SizeAt(a, j, 0)
    {
      assert BinOk(a.chunks, j, a.bins[j]);
      var x := a.bins[j][0];
      if j == BinIndex(nb) {
        var y :| Listed(a, y) && nb <= a.chunks[y].size && BinIndex(a.chunks[y].size) == first;
        ListedHome(a, y);
        var l := IndexOf(a.bins[j], y);
      } else if a.chunks[x].size < nb {
        BinIndexMonotone(if a.chunks[x].size < 0 then 0 else a.chunks[x].size, nb);
        ChunkSizes(a, x);
      }
    }
  }

  lemma ChunkSizes(a: Layout, x: int)
    requires Inv(a) && x in a.chunks
    ensures MINSIZE <= a.chunks[x].size && a.chunks[x].size % 8 == 0 && x % 8 == 0
  {
    hide BinIndex;
  }

  /** The last chunk of at least nb bytes in the first bin worth looking at is the best fit. */
  lemma BestOfBin(a: Layout, nb: int, i: int, k: int)
    requires Inv(a) && MINSIZE <= nb && 2 <= i < NAV && 0 <= k < |a.bins[i]|
    requires nb <= SizeAt(a, i, k)
    requires forall l :: k < l < |a.bins[i]| ==> SizeAt(a, i, l) < nb
    requires forall y :: Listed(a, y) && nb <= a.chunks[y].size ==> i <= BinIndex(a.chunks[y].size)
    ensures BestFit(a, a.bins[i][k], nb)
  {
    hide BinIndex, Geometry;
    assert BinOk(a.chunks, i, a.bins[i]);
    var x := a.bins[i][k];
    assert x in a.bins[i];
    BinsApart(a.chunks, a.bins, i, LAST_REMAINDER, x);
    forall y | Listed(a, y) && nb <= a.chunks[y].size
      ensures a.chunks[x].size <= a.chunks[y].size
    {
      ListedHome(a, y);
      if BinIndex(a.chunks[y].size) == i {
        var l := IndexOf(a.bins[i], y);
        assert SizeAt(a, i, l) == a.chunks[y].size;
      } else if a.chunks[y].size < a.chunks[x].size {
        BinIndexMonotone(a.chunks[y].size, a.chunks[x].size);
      }
    }
  }

  /** The chunk the scan stops at is the smallest that fits. */
  lemma ScanIsBestFit(a: Layout, first: int, nb: int, i: int, k: int)
    requires Inv(a) && ScanFrom(a, first, nb) && MINSIZE <= nb
    requires first <= i < NAV && 0 <= k < |a.bins[i]| && EmptyBins(a, first, i)
    requires nb <= SizeAt(a, i, k)
    requires forall l :: k < l < |a.bins[i]| ==> SizeAt(a, i, l) < nb
    ensures BestFit(a, a.bins[i][k], nb)
  {
    hide BinIndex, Geometry;
    forall y | Listed(a, y) && nb <= a.chunks[y].size
      ensures i <= BinIndex(a.chunks[y].size)
    {
      ListedHome(a, y);
    }
    BestOfBin(a, nb, i, k);
  }

  /** An unsuccessful scan means that nothing binned is big enough. */
  lemma ScanFoundNothing(a: Layout, first: int, nb: int)
    requires Inv(a) && ScanFrom(a, first, nb) && EmptyBins(a, first, NAV)
    ensures forall y :: Listed(a, y) ==> a.chunks[y].size < nb
  {
    hide BinIndex, Geometry;
    forall y | Listed(a, y)
      ensures a.chunks[y].size < nb
    {
      ListedHome(a, y);
    }
  }

  lemma ExactFitThere(a: Layout, nb: int, i: int, k: int)
    requires Inv(a) && 2 <= i < NAV && ExactBin(i, nb) && 0 <= k < |a.bins[i]|
    requires nb <= SizeAt(a, i, k) < nb + MINSIZE
    ensures !NoExactFit(a, nb)
  {
    hide BinIndex, Geometry;
    var x := a.bins[i][k];
    BinChunk(a, i, k);
    assert x in a.bins[i];
    BinsApart(a.chunks, a.bins, i, LAST_REMAINDER, x);
    assert Listed(a, x) && BinIndex(a.chunks[x].size) == i;
  }

  lemma SmallIsBest(a: Layout, nb: int, i: int, k: int)
    requires Inv(a) && MINSIZE <= nb < SMALL_LIMIT && nb % 8 == 0
    requires i == nb / 8 || (i == nb / 8 + 1 && a.bins[nb / 8] == [])
    requires 0 <= k < |a.bins[i]|
    ensures BestFit(a, a.bins[i][k], nb) && a.chunks[a.bins[i][k]].size < nb + MINSIZE
  {
    hide BinIndex, Geometry;
    var x := a.bins[i][k];
    SmallBinSizes(a, i);
    assert x in a.bins[i];
    BinsApart(a.chunks, a.bins, i, LAST_REMAINDER, x);
    BinChunk(a, i, k);
    assert nb == 8 * (nb / 8);
    forall y | Listed(a, y) && nb <= a.chunks[y].size
      ensures a.chunks[x].size <= a.chunks[y].size
    {
      ChunkSizes(a, y);
      if a.chunks[y].size == nb {
        SmallBinIndex(nb);
        ListedHome(a, y);
      }
    }
  }

  lemma SmallIsEmpty(a: Layout, nb: int)
    requires Inv(a) && MINSIZE <= nb < SMALL_LIMIT && nb % 8 == 0
    requires a.bins[nb / 8] == [] && a.bins[nb / 8 + 1] == []
    ensures NoExactFit(a, nb) && ScanFrom(a, nb / 8 + 2, nb)
  {
    hide BinIndex, Geometry;
    SmallBinIndex(nb);
    forall y | Listed(a, y)
      ensures BinIndex(a.chunks[y].size) != nb / 8 && BinIndex(a.chunks[y].size) != nb / 8 + 1
    {
      ListedHome(a, y);
    }
    forall y | Listed(a, y) && nb <= a.chunks[y].size
      ensures nb / 8 <= BinIndex(a.chunks[y].size)
    {
      BinIndexMonotone(nb, a.chunks[y].size);
    }
  }

  lemma LargeTooBig(a: Layout, nb: int, k: int)
    requires Inv(a) && SMALL_LIMIT <= nb && nb % 8 == 0
    requires 1 <= BinIndex(nb) < NAV && 0 <= k < |a.bins[BinIndex(nb)]|
    requires nb + MINSIZE <= SizeAt(a, BinIndex(nb), k)
    requires forall l :: k < l < |a.bins[BinIndex(nb)]| ==> SizeAt(a, BinIndex(nb), l) < nb
    ensures NoExactFit(a, nb) && ScanFrom(a, BinIndex(nb), nb)
  {
    var i := LargeBin(nb);
    hide BinIndex, Geometry;
    assert BinOk(a.chunks, i, a.bins[i]);
    var x := a.bins[i][k];
    assert x in a.bins[i];
    BinsApart(a.chunks, a.bins, i, LAST_REMAINDER, x);
    assert Listed(a, x);
    forall y | Listed(a, y) && BinIndex(a.chunks[y].size) == i
      ensures !(nb <= a.chunks[y].size < nb + MINSIZE)
    {
      ListedHome(a, y);
      var l := IndexOf(a.bins[i], y);
      assert SizeAt(a, i, l) == a.chunks[y].size;
    }
    forall y | Listed(a, y) && nb <= a.chunks[y].size
      ensures i <= BinIndex(a.chunks[y].size)
    {
      BinIndexMonotone(nb, a.chunks[y].size);
    }
  }

  lemma LargeBin(nb: int) returns (i: int)
    requires SMALL_LIMIT <= nb
    ensures i == BinIndex(nb) && 63 <= i <= 126
  {
    BinIndexRange(nb);
    i := BinIndex(nb);
    BinIndexMonotone(SMALL_LIMIT, nb);
  }

  lemma LargeIsBest(a: Layout, nb: int, k: int)
    requires Inv(a) && SMALL_LIMIT <= nb && nb % 8 == 0
    requires 1 <= BinIndex(nb) < NAV && 0 <= k < |a.bins[BinIndex(nb)]|
    requires nb <= SizeAt(a, BinIndex(nb), k) < nb + MINSIZE
    requires forall l :: k < l < |a.bins[BinIndex(nb)]| ==> SizeAt(a, BinIndex(nb), l) < nb
    ensures BestFit(a, a.bins[BinIndex(nb)][k], nb)
    ensures 2 <= BinIndex(nb)
  {
    var i := LargeBin(nb);
    hide BinIndex, Geometry, Binned;
    forall y | Listed(a, y) && nb <= a.chunks[y].size
      ensures i <= BinIndex(a.chunks[y].size)
    {
      BinIndexMonotone(nb, a.chunks[y].size);
    }
    BestOfBin(a, nb, i, k);
  }

  lemma LargeNone(a: Layout, nb: int)
    requires Inv(a) && SMALL_LIMIT <= nb && nb % 8 == 0 && 1 <= BinIndex(nb) < NAV
    requires forall l :: 0 <= l < |a.bins[BinIndex(nb)]| ==> SizeAt(a, BinIndex(nb), l) < nb
    ensures NoExactFit(a, nb) && ScanFrom(a, BinIndex(nb) + 1, nb)
  {
    var i := LargeBin(nb);
    hide BinIndex, Geometry;
    forall y | Listed(a, y) && BinIndex(a.chunks[y].size) == i
      ensures a.chunks[y].size < nb
    {
      ListedHome(a, y);
      var l := IndexOf(a.bins[i], y);
      assert SizeAt(a, i, l) == a.chunks[y].size;
    }
    forall y | Listed(a, y) && nb <= a.chunks[y].size
      ensures i < BinIndex(a.chunks[y].size)
    {
      BinIndexMonotone(nb, a.chunks[y].size);
    }
  }

  /** The first arena starts 8-aligned and ends on a page boundary. */
  lemma FirstArena(brk: int, start: int, size: int, correction: int)
    requires 0 <= brk && 0 <= size && size % 8 == 0
    requires start == if (brk + 8) % 8 > 0 then brk + (8 - (brk + 8) % 8) else brk
    requires correction == (start - brk) + PAGE - (start + size) % PAGE
    ensures start % 8 == 0 && brk <= start < brk + 8
    ensures (brk + size + correction) % PAGE == 0 && (brk + size + correction) % 8 == 0
    ensures start < brk + size + correction
  {
    var k := (start + size) / PAGE;
    assert brk + size + correction == PAGE * (k + 1);
    assert (PAGE * (k + 1)) % PAGE == 0;
    assert PAGE * (k + 1) == 8 * (512 * (k + 1));
  }

  /** The four bins of a block are empty. */
  ghost predicate BlockEmpty(a: Layout, block: int)
    requires |a.bins| == NAV
  {
    EmptyBins(a, BINBLOCKWIDTH * block, BINBLOCKWIDTH * block + BINBLOCKWIDTH)
  }

  ghost predicate EmptyBins(a: Layout, lo: int, hi: int)
    requires |a.bins| == NAV
  {
    forall j :: 2 <= j < NAV && lo <= j < hi ==> a.bins[j] == []
  }

  /** From `was`, only bits of empty blocks were cleared, and every marked block from `lo` to `hi` holds a chunk. */
  ghost predicate Pruned(was: set<int>, a: Layout, lo: int, hi: int)
    requires |a.bins| == NAV
  {
    && (forall b :: b in was && b !in a.blocks ==> BlockEmpty(a, b))
    && (forall b :: b in a.blocks && lo <= b < hi ==> !BlockEmpty(a, b))
  }

  lemma PrunedStart(a: Layout, lo: int)
    requires |a.bins| == NAV
    ensures Pruned(a.blocks, a, lo, lo)
  {
  }

  lemma PrunedSkip(was: set<int>, a: Layout, lo: int, mid: int, hi: int)
    requires |a.bins| == NAV && Pruned(was, a, lo, mid)
    requires forall b :: mid <= b < hi ==> b !in a.blocks
    ensures Pruned(was, a, lo, hi)
  {
    hide BlockEmpty;
  }

  lemma PrunedCleared(was: set<int>, a: Layout, b: Layout, lo: int, block: int)
    requires |a.bins| == NAV && Pruned(was, a, lo, block)
    requires b == a.(blocks := b.blocks)
    requires b.blocks == if BlockEmpty(b, block) then a.blocks - {block} else a.blocks
    ensures Pruned(was, b, lo, block + 1)
  {
    assert forall k :: BlockEmpty(a, k) <==> BlockEmpty(b, k);
  }

  lemma EmptyParts(a: Layout, first: int, start: int, hi: int)
    requires |a.bins| == NAV && first <= start
    ensures EmptyBins(a, first, first)
    ensures EmptyBins(a, first, hi) ==> EmptyBins(a, start, hi)
  {
  }

  lemma EmptySame(a: Layout, b: Layout, lo: int, hi: int)
    requires |a.bins| == NAV && a.bins == b.bins && EmptyBins(a, lo, hi)
    ensures EmptyBins(b, lo, hi)
  {
  }

  /** No marked block from `block` on: the bins from there on are empty. */
  lemma NoneAbove(a: Layout, first: int, idx: int, block: int)
    requires |a.bins| == NAV && EmptyBins(a, first, idx) && block * BINBLOCKWIDTH <= idx
    requires BlocksCover(a.bins, a.blocks) && forall b :: b in a.blocks ==> b < block
    ensures EmptyBins(a, first, NAV)
  {
  }

  /** The block of `first` is not marked: its bins from there on are empty. */
  lemma UnmarkedRest(a: Layout, first: int)
    requires |a.bins| == NAV && BlocksCover(a.bins, a.blocks) && 2 <= first && first / BINBLOCKWIDTH !in a.blocks
    ensures EmptyBins(a, first, first - first % BINBLOCKWIDTH + BINBLOCKWIDTH)
  {
  }

  lemma Unmark(m: Mem, a: Layout, block: int)
    requires Inv(a) && Rep(m, a, {}, false)
      && EmptyBins(a, BINBLOCKWIDTH * block, BINBLOCKWIDTH * block + BINBLOCKWIDTH)
    ensures Inv(a.(blocks := a.blocks - {block})) && Rep(m, a.(blocks := a.blocks - {block}), {}, false)
  {
    hide BinIndex, Tag, Head, PrevInuse, PrevSize, Ring;
    var b := a.(blocks := a.blocks - {block});
    forall p | p in b.chunks
      ensures b.Next(p) == a.Next(p)
    {
    }
    forall j | 2 <= j < NAV && j / BINBLOCKWIDTH == block
      ensures a.bins[j] == []
    {
      assert BINBLOCKWIDTH * block <= j < BINBLOCKWIDTH * block + BINBLOCKWIDTH;
    }
  }

  lemma ChunkPositive(a: Layout, x: int)
    requires Inv(a) && 0 < a.base && x in a.chunks
    ensures 0 < x
  {
    hide BinIndex;
  }

  /** Every nonempty bin from first on holds a chunk of at least nb bytes, at its large end. */
  ghost predicate Candidates(a: Layout, first: int, nb: int)
    requires |a.bins| == NAV
  {
    forall j :: 2 <= j < NAV && first <= j && a.bins[j] != [] ==> nb <= SizeAt(a, j, 0)
  }

  /** All the tags of a free chunk, when none is out of date. */
  lemma FreeTags(m: Mem, a: Layout, x: int)
    requires Inv(a) && Rep(m, a, {}, false) && a.Free(x)
    ensures Head(m, x) == Tag(a.chunks[x].size, true) && RightBit(a, x, true)
    ensures PrevSize(m, a.Next(x)) == a.chunks[x].size
    ensures a.Used(a.Next(x)) && Head(m, a.Next(x)) == Tag(a.chunks[a.Next(x)].size, false)
  {
    hide BinIndex, RingsOk, Binned, Tag, Head, PrevSize;
    FreeNext(a, x);
    FreeEnclosed(a, x);
    NextHead(m, a, {}, false, x);
    if x != a.base {
      var p := Predecessor(a, a.base, x);
      assert a.Next(p) == x;
    }
  }

  lemma TagsUntouchedOf(a: Layout, m: Mem, m': Mem, x: int)
    requires Inv(a) && OnlyLinks(a, m, m') && x in a.chunks && a.Next(x) in a.chunks
    ensures Head(m', x) == Head(m, x) && Head(m', a.Next(x)) == Head(m, a.Next(x))
    ensures PrevSize(m', a.Next(x)) == PrevSize(m, a.Next(x))
  {
    hide BinIndex, Binned, OnlyLinks, Head, PrevSize;
    TagsUntouched(a, m, m');
  }

  /** A held chunk with used neighbours can be put in a bin, and only the chunk after it may be out of date. */
  lemma HeldEnclosed(b: Layout, x: int, next: int)
    requires Inv(b) && b.Used(x) && RightBit(b, x, true) && b.Next(x) == next && b.Used(next)
    ensures Enclosed(b, x) && forall y :: b.Free(y) ==> y !in {next}
  {
    hide BinIndex, Binned, Geometry;
  }

  /** The tags of a chunk that has gone from the slot to its bin are right again. */
  lemma DemotedTrust(m: Mem, c: Layout, x: int, next: int)
    requires Inv(c) && Rep(m, c, {x, next}, false) && c.Free(x) && c.Next(x) == next && c.Used(next)
    requires Head(m, x) == Tag(c.chunks[x].size, true) && PrevSize(m, next) == c.chunks[x].size
    requires Head(m, next) == Tag(c.chunks[next].size, false)
    ensures Rep(m, c, {}, false)
  {
    hide BinIndex, Head, PrevSize, TagsOk, RingsOk, Binned, Tag, Geometry;
    FreeEnclosed(c, x);
    DemotedHeads(m, c, x, next);
    TrustStep(m, c, {x, next}, false, x, true);
    TrustStep(m, c, {x, next} - {x}, false, next, false);
    assert {x, next} - {x} - {next} == {};
  }

  lemma DemotedHeads(m: Mem, c: Layout, x: int, next: int)
    requires Inv(c) && c.Free(x) && c.Next(x) == next && c.Used(next)
    requires Head(m, x) == Tag(c.chunks[x].size, true) && PrevSize(m, next) == c.chunks[x].size
    requires Head(m, next) == Tag(c.chunks[next].size, false)
    ensures RightHead(c, x, Head(m, x), true) && RightFoot(m, c, x)
    ensures RightHead(c, next, Head(m, next), false) && RightFoot(m, c, next)
  {
    hide BinIndex, Head, PrevSize, Binned, Tag;
    FreeEnclosed(c, x);
    forall q | q in c.chunks && c.Next(q) == next
      ensures q == x
    {
      UniquePrevious(c, q, x);
    }
  }

  lemma TakenFacts(a: Layout, i: int, k: int)
    requires Inv(a) && 1 <= i < NAV && 0 <= k < |a.bins[i]| && a.Free(a.bins[i][k])
    ensures var b, x := Take(a, i, k), a.bins[i][k];
      b.Used(x) && b.Next(x) == a.Next(x) && b.Used(a.Next(x))
      && b.chunks[a.Next(x)] == a.chunks[a.Next(x)] && RightBit(b, x, true)
  {
    hide BinIndex;
    var b, x := Take(a, i, k), a.bins[i][k];
    FreeNext(a, x);
    FreeEnclosed(a, x);
    forall q | q in b.chunks && b.Next(q) == x
      ensures b.chunks[q].used
    {
      assert a.Next(q) == x;
    }
  }

  lemma IntactTaken(a: Layout, m: Mem, m2: Mem, i: int, k: int)
    requires |a.bins| == NAV && 1 <= i < NAV && 0 <= k < |a.bins[i]| && a.Free(a.bins[i][k])
    requires Intact(a, m, a, m2, 0)
    ensures Intact(a, m, Take(a, i, k), m2, 0)
  {
    hide DataWord, Rd;
  }

  lemma FirstIsFirst(a: Layout, x: int)
    requires Aligned(a) && x in a.chunks
    ensures a.Next(x) != a.base
  {
  }

  /** set_inuse_bit_at_offset after chunk x, which is in use. */
  lemma MarkUsedStep(m: Mem, a: Layout, lr: bool, x: int)
    requires Inv(a) && a.Used(x) && Rep(m, a, {a.Next(x)}, lr) && a.Used(a.Next(x))
    requires exists b :: Head(m, a.Next(x)) == Tag(a.chunks[a.Next(x)].size, b)
    ensures Rep(SetInuse(m, a.Next(x)), a, {}, lr)
    ensures Intact(a, m, a, SetInuse(m, a.Next(x)), 0)
  {
    hide BinIndex, Head, TagsOk, RingsOk, LinkCell, Binned, Tag, DataWord, SetHead;
    var n := a.Next(x);
    var size := a.chunks[n].size;
    var b :| Head(m, n) == Tag(size, b);
    SetInuseValue(size, b);
    forall q | q in a.chunks && a.Next(q) == n
      ensures a.chunks[q].used
    {
      UniquePrevious(a, q, x);
    }
    assert n != a.base;
    SetHeadStep(m, a, {n}, lr, n, Tag(size, true), true);
    assert {n} - {n} == {};
    IntactHead(a, m, n, Tag(size, true), 0);
  }

  /** A held chunk in one piece, whose own tag is about to be split. */
  ghost predicate ReadyToSplit(m: Mem, a: Layout, x: int, n: int, lr: bool) {
    && Inv(a) && Cuttable(a, x, n) && a.bins[LAST_REMAINDER] == []
    && a.Used(a.Next(x)) && Rep(m, a, {x, a.Next(x)}, lr)
    && RightBit(a, x, true) && Head(m, x) == Tag(n, true)
    && Head(m, a.Next(x)) == Tag(a.chunks[a.Next(x)].size, false)
  }

  ghost function SplitOf(a: Layout, x: int, n: int): Layout
    requires |a.bins| == NAV && x in a.chunks && a.bins[LAST_REMAINDER] == []
  {
    Put(Cut(a, x, n), x + n, LAST_REMAINDER, 0)
  }

  lemma CutBefore(a: Layout, x: int, n: int)
    requires Aligned(a) && Apart(a) && Cuttable(a, x, n) && RightBit(a, x, true)
    requires x + n !in a.chunks
    ensures RightBit(Cut(a, x, n), x, true)
  {
    var b := Cut(a, x, n);
    forall q | q in b.chunks && b.Next(q) == x
      ensures b.chunks[q].used
    {
      if q != x && q != x + n {
        assert a.Next(q) == x;
      }
    }
  }

  lemma CutSame(a: Layout, x: int, n: int)
    requires Cuttable(a, x, n) && x + n !in a.chunks
    ensures Cut(a, x, n).Used(x) && Cut(a, x, n).Used(x + n)
    ensures Cut(a, x, n).Next(x) == x + n && Cut(a, x, n).Next(x + n) == a.Next(x)
    ensures forall q :: a.Used(q) && q != x ==> Cut(a, x, n).Used(q) && Cut(a, x, n).chunks[q] == a.chunks[q]
  {
  }

  lemma CutLayoutFacts(a: Layout, x: int, n: int)
    requires Geometry(a) && Cuttable(a, x, n) && a.Used(a.Next(x)) && RightBit(a, x, true)
    ensures Cut(a, x, n).Used(x + n) && Enclosed(Cut(a, x, n), x + n)
    ensures Cut(a, x, n).Next(x + n) == a.Next(x) && Cut(a, x, n).Used(a.Next(x))
    ensures Cut(a, x, n).chunks[a.Next(x)] == a.chunks[a.Next(x)]
    ensures RightBit(Cut(a, x, n), x, true) && x + n !in a.chunks
    ensures forall q :: a.Used(q) && q != x ==> Cut(a, x, n).Used(q) && Cut(a, x, n).chunks[q] == a.chunks[q]
  {
    CutGeometry(a, x, n);
    CutBefore(a, x, n);
    CutSame(a, x, n);
    var b := Cut(a, x, n);
    assert a.Next(x) != x;
    forall q | q in b.chunks && b.Next(q) == x + n
      ensures b.chunks[q].used
    {
      UniquePrevious(b, q, x);
    }
    hide Cut, Aligned, Apart, Linked, Coalesced;
  }

  lemma CutFacts(m: Mem, a: Layout, x: int, n: int, lr: bool)
    requires ReadyToSplit(m, a, x, n, lr)
    ensures Inv(Cut(a, x, n)) && Rep(m, Cut(a, x, n), {x, x + n, a.Next(x)}, lr)
  {
    hide BinIndex, Head, TagsOk, RingsOk, Binned, Tag, Geometry;
    CutStep(m, a, {x, a.Next(x)}, lr, x, n);
    assert {x, a.Next(x)} + {x, x + n} == {x, x + n, a.Next(x)};
  }

  ghost function Fresh(): Layout {
    Layout(AV_END, AV_END, AV_END, map[], seq(NAV, _ => []), {})
  }

  ghost function Arena(base: int, end: int): Layout {
    Layout(base, base, end, map[], seq(NAV, _ => []), {})
  }

  /** The static initializer of av_: two zero words, then every bin points at itself. */
  function InitialWord(w: int): int {
    if w < AV + 8 then 0 else w - w % 8 - 8
  }

  lemma InitialLinks(i: int)
    requires 0 <= i < NAV
    ensures (Bin(i) + 8) % SIZE_SZ == 0 && InitialWord(Bin(i) + 8) == Bin(i)
    ensures (Bin(i) + 12) % SIZE_SZ == 0 && InitialWord(Bin(i) + 12) == Bin(i)
  {
  }

  lemma FreshOk(m: Mem)
    requires m == map w | AV <= w < AV_END && w % SIZE_SZ == 0 :: InitialWord(w)
    ensures Inv(Fresh()) && Rep(m, Fresh(), {}, false) && Head(m, AV) == 0
  {
    hide BinIndex, InitialWord;
    assert InitialWord(AV + 4) == 0 by { InitialZero(); }
    forall i | 1 <= i < NAV
      ensures Ring(m, Bin(i), [])
    {
      InitialLinks(i);
    }
    hide Ring;
  }

  lemma InitialZero()
    ensures InitialWord(AV + 4) == 0 && (AV + 4) % SIZE_SZ == 0
  {
  }

  lemma ArenaOk(m: Mem, base: int, end: int)
    requires Rep(m, Fresh(), {}, false)
    requires AV_END <= base < end && base % 8 == 0 && end % 8 == 0
    ensures Inv(Arena(base, end)) && Rep(m, Arena(base, end), {base}, false)
    ensures RightBit(Arena(base, end), base, true)
  {
    hide BinIndex, Ring, Head;
    forall i | 1 <= i < NAV
      ensures Ring(m, Bin(i), Arena(base, end).bins[i])
    {
      assert Fresh().bins[i] == [];
    }
  }

  // ---- freeing ---------------------------------------------------------------------------------

  /** Chunk p of sz bytes is held for freeing: nothing free is before it, its own tags and the
      use bit after it are still to be settled. islr: it already sits in the last_remainder slot. */
  ghost predicate Releasing(m: Mem, a: Layout, p: int, sz: int, islr: bool) {
    && Inv(a) && a.Used(p) && a.chunks[p].size == sz && RightBit(a, p, true)
    && a.Next(p) in a.chunks && Rep(m, a, {p, a.Next(p)}, islr)
    && Head(m, a.Next(p)) == Tag(a.chunks[a.Next(p)].size, false)
    && (islr ==> a.bins[LAST_REMAINDER] == [] && Ring(m, Bin(LAST_REMAINDER), [p]))
  }

  /** A clear PREV_INUSE bit: the chunk before is free and its size is in the footer. */
  lemma PreviousFree(m: Mem, a: Layout, lr: bool, p: int) returns (q: int)
    requires Inv(a) && p in a.chunks && Rep(m, a, {a.Next(p)}, lr) && !PrevInuse(Head(m, p))
    ensures a.Free(q) && a.Next(q) == p && PrevSize(m, p) == a.chunks[q].size
  {
    hide BinIndex, PrevInuse, Tag, Head, PrevSize, RingsOk, Binned;
    SelfNotNext(a, p);
    q := Predecessor(a, a.base, p);
    assert a.Next(q) == p;
    ChunkSizes(a, p);
    ChunkSizes(a, q);
  }

  lemma PreviousUsed(m: Mem, a: Layout, stale: set<int>, lr: bool, p: int)
    requires Inv(a) && Rep(m, a, stale, lr) && p in a.chunks && p !in stale && PrevInuse(Head(m, p))
    ensures RightBit(a, p, true)
  {
    hide BinIndex, PrevInuse, Tag, Head, PrevSize, RingsOk, Binned;
  }

  lemma JoinFacts(b: Layout, p: int)
    requires Inv(b) && b.Used(p) && b.Used(b.Next(p))
    ensures var q, c := b.Next(p), Join(b, p);
      Inv(c) && c.Used(p) && c.Next(p) == b.Next(q) && c.chunks[p].size == b.chunks[p].size + b.chunks[q].size
      && q !in c.chunks && q != c.top && b.Next(q) != p && b.Next(q) != q
      && (forall y :: y in b.chunks && y != p && y != q ==> y in c.chunks && c.chunks[y] == b.chunks[y])
  {
    JoinKeeps(b, p);
    ChunkSizes(b, p);
    ChunkSizes(b, b.Next(p));
    JoinTop(b, p);
    hide Inv;
  }

  lemma JoinTop(b: Layout, p: int)
    requires Inv(b) && p in b.chunks && b.Next(p) in b.chunks
    ensures b.Next(p) != b.top
  {
    ChunkSizes(b, b.Next(p));
    hide BinIndex, Binned;
  }

  lemma TakeSame(a: Layout, i: int, k: int)
    requires |a.bins| == NAV && 1 <= i < NAV && 0 <= k < |a.bins[i]| && a.bins[i][k] in a.chunks
    ensures Take(a, i, k).chunks.Keys == a.chunks.Keys && SameArena(a, Take(a, i, k))
    ensures forall y :: y in a.chunks && y != a.bins[i][k] ==> Take(a, i, k).chunks[y] == a.chunks[y]
    ensures forall y :: y in a.chunks ==> Take(a, i, k).Next(y) == a.Next(y)
    ensures Take(a, i, k).chunks[a.bins[i][k]].size == a.chunks[a.bins[i][k]].size
  {
  }

  lemma TakeJoinFacts(a: Layout, i: int, k: int, p: int)
    requires |a.bins| == NAV && Inv(a) && a.Used(p) && 1 <= i < NAV && 0 <= k < |a.bins[i]|
    requires a.Free(a.bins[i][k]) && a.Next(a.bins[i][k]) == p
    ensures var q, b := a.bins[i][k], Take(a, i, k);
      Inv(b) && b.Used(q) && b.Next(q) == p && b.Used(p) && b.chunks[p] == a.chunks[p]
      && Inv(Join(b, q)) && Join(b, q).Used(q) && Join(b, q).Next(q) == a.Next(p)
      && Join(b, q).chunks[q].size == a.chunks[q].size + a.chunks[p].size
      && p !in Join(b, q).chunks && p != Join(b, q).top && RightBit(Join(b, q), q, true)
      && (a.Next(p) in a.chunks ==>
            (a.Next(p) in Join(b, q).chunks && Join(b, q).chunks[a.Next(p)] == a.chunks[a.Next(p)]))
      && (forall y :: a.Used(y) && y != p ==> Join(b, q).Used(y) && Join(b, q).chunks[y] == a.chunks[y])
  {
    hide BinIndex, Inv, Take, Join;
    var q, b := a.bins[i][k], Take(a, i, k);
    TakeKeeps(a, i, k);
    TakeSame(a, i, k);
    TakenFacts(a, i, k);
    JoinFacts(b, q);
    JoinRightBit(b, q, true);
  }

  lemma JoinRightBit(b: Layout, q: int, bit: bool)
    requires Inv(b) && b.Used(q) && b.Used(b.Next(q)) && RightBit(b, q, bit)
    ensures RightBit(Join(b, q), q, bit)
  {
    hide BinIndex, Binned;
    var c := Join(b, q);
    forall r | r in c.chunks && c.Next(r) == q
      ensures c.chunks[r].used == bit
    {
      if r != q {
        assert b.Next(r) == q;
      } else {
        ChunkSizes(b, q);
        ChunkSizes(b, b.Next(q));
      }
    }
  }

  /** The blocks in use in b are those of a, with p replaced by p2. */
  ghost predicate SameUsed(a: Layout, b: Layout, p: int, p2: int) {
    forall q :: b.Used(q) <==> (a.Used(q) && q != p) || q == p2
  }

  /** Chunk z is the last remainder. */
  ghost predicate IsRemainder(a: Layout, z: int) {
    |a.bins| == NAV && a.bins[LAST_REMAINDER] == [z]
  }

  /** The last remainder once block p is free. If it bordered p, it is now the chunk that p was merged into,
      unless that is top; otherwise it is what it was. */
  ghost predicate RemainderFreed(a: Layout, b: Layout, p: int) {
    if exists z :: IsRemainder(a, z) && z in a.chunks && p in a.chunks && (a.Next(z) == p || a.Next(p) == z) then
      if b.top <= p then |b.bins| == NAV && b.bins[LAST_REMAINDER] == []
      else exists z :: IsRemainder(b, z) && z <= p < z + SizeOf(b, z)
    else SameRemainder(a, b)
  }

  lemma RemainderIsFree(a: Layout, z: int)
    requires Inv(a) && IsRemainder(a, z)
    ensures a.Free(z)
  {
    hide BinIndex, Binned, Geometry;
    BinChunk(a, LAST_REMAINDER, 0);
  }

  lemma NotRemainder(a: Layout, z: int)
    requires Inv(a) && a.Used(z)
    ensures !IsRemainder(a, z)
  {
    hide BinIndex, Binned, Geometry;
    if IsRemainder(a, z) {
      RemainderIsFree(a, z);
    }
  }

  /** Where the chunk before p is q, or in use, the last remainder borders p only as q or as the chunk after p. */
  lemma RemainderBefore(a: Layout, p: int, q: int, z: int)
    requires Inv(a) && p in a.chunks && z in a.chunks && IsRemainder(a, z) && a.Next(z) == p
    requires RightBit(a, p, true) || (q in a.chunks && a.Next(q) == p)
    ensures z == q && !RightBit(a, p, true)
  {
    hide BinIndex, Binned;
    RemainderIsFree(a, z);
    if !RightBit(a, p, true) {
      UniquePrevious(a, z, q);
    }
  }

  /** The block joined neither side of it to the last remainder. */
  lemma RemainderStays(a: Layout, d: Layout, p: int, q: int)
    requires Inv(a) && a.Used(p) && SameRemainder(a, d)
    requires RightBit(a, p, true) || (q in a.chunks && a.Next(q) == p && !IsRemainder(a, q))
    requires a.Next(p) in a.chunks ==> !IsRemainder(a, a.Next(p))
    ensures RemainderFreed(a, d, p)
  {
    hide Inv, RightBit;
    forall z | IsRemainder(a, z) && z in a.chunks
      ensures a.Next(z) != p && a.Next(p) != z
    {
      if a.Next(z) == p {
        RemainderBefore(a, p, q, z);
      }
    }
  }

  /** Block p was freed into top, which now starts at start. */
  lemma FreedIntoTop(a: Layout, d: Layout, p: int, start: int, prevInUse: bool)
    requires Inv(a) && a.Used(p) && a.Next(p) == a.top && d.top == start <= p && |d.bins| == NAV
    requires if prevInUse then RightBit(a, p, true) else a.Free(start) && a.Next(start) == p
    requires if !prevInUse && IsRemainder(a, start) then d.bins[LAST_REMAINDER] == [] else SameRemainder(a, d)
    ensures RemainderFreed(a, d, p)
  {
    if prevInUse || !IsRemainder(a, start) {
      assert a.Next(p) !in a.chunks by { TopApart(a, p); }
      RemainderStays(a, d, p, start);
    }
  }

  lemma TopApart(a: Layout, p: int)
    requires Inv(a) && p in a.chunks && a.Next(p) == a.top
    ensures a.top !in a.chunks
  {
    hide BinIndex, Binned;
    if a.top in a.chunks {
      ChunkSizes(a, a.top);
    }
  }

  /** The last remainder z bordered p, and both are now part of chunk start. */
  lemma MergedRemainder(a: Layout, d: Layout, p: int, z: int, start: int, size: int)
    requires Inv(a) && a.Used(p) && IsRemainder(a, z) && z in a.chunks && (a.Next(z) == p || a.Next(p) == z)
    requires IsRemainder(d, start) && SizeOf(d, start) == size && start <= p < start + size && p < d.top
    ensures RemainderFreed(a, d, p)
  {
    RemainderIsFree(a, z);
    hide Inv;
  }

  lemma SelfNotNext(a: Layout, p: int)
    requires Inv(a) && p in a.chunks
    ensures a.Next(p) != p
  {
    ChunkSizes(a, p);
  }

  lemma HomeBin(a: Layout, x: int) returns (i: int)
    requires Inv(a) && a.Free(x)
    ensures 1 <= i < NAV && x in a.bins[i]
    ensures a.bins[LAST_REMAINDER] == [x] <==> i == LAST_REMAINDER
  {
    hide BinIndex;
    i := Home(a, x);
    if i == LAST_REMAINDER {
      var k := IndexOf(a.bins[i], x);
    } else {
      BinsApart(a.chunks, a.bins, i, LAST_REMAINDER, x);
    }
  }

  lemma LrRing(m: Mem, a: Layout, stale: set<int>)
    requires |a.bins| == NAV && Rep(m, a, stale, false)
    ensures Ring(m, Bin(LAST_REMAINDER), a.bins[LAST_REMAINDER])
  {
  }

  lemma TakeJoinForwardFacts(a: Layout, i: int, k: int, p: int, bit: bool)
    requires |a.bins| == NAV && Inv(a) && a.Used(p) && 1 <= i < NAV && 0 <= k < |a.bins[i]|
    requires a.Free(a.bins[i][k]) && a.Next(p) == a.bins[i][k] && RightBit(a, p, bit)
    ensures var x, b := a.bins[i][k], Take(a, i, k);
      Inv(b) && b.Used(p) && b.Next(p) == x && b.Used(x) && b.chunks[p] == a.chunks[p]
      && Inv(Join(b, p)) && Join(b, p).Used(p) && Join(b, p).Next(p) == a.Next(x)
      && Join(b, p).chunks[p].size == a.chunks[p].size + a.chunks[x].size
      && x !in Join(b, p).chunks && x != Join(b, p).top && RightBit(Join(b, p), p, bit)
      && Join(b, p).Used(a.Next(x)) && Join(b, p).chunks[a.Next(x)] == a.chunks[a.Next(x)]
      && (forall y :: a.Used(y) && y != p ==> Join(b, p).Used(y) && Join(b, p).chunks[y] == a.chunks[y])
  {
    hide BinIndex, Inv, Take, Join;
    var x, b := a.bins[i][k], Take(a, i, k);
    TakeKeeps(a, i, k);
    TakeSame(a, i, k);
    TakenFacts(a, i, k);
    FreeNext(a, x);
    ChunkSizes(a, x);
    forall q | q in b.chunks && b.Next(q) == p
      ensures b.chunks[q].used == bit
    {
      assert a.Next(q) == p;
      if q == x {
        ChunkSizes(a, p);
      }
    }
    JoinFacts(b, p);
    JoinRightBit(b, p, bit);
  }

  /** Unlinking another chunk leaves a slot that already holds exactly p as it is. */
  lemma UnlinkKeepsSlot(m: Mem, a: Layout, stale: set<int>, i: int, k: int, p: int)
    requires Inv(a) && Rep(m, a, stale, true) && 2 <= i < NAV && 0 <= k < |a.bins[i]| && a.Used(p)
    requires Ring(m, Bin(LAST_REMAINDER), [p])
    ensures Ring(Unlink(m, a.bins[i][k]), Bin(LAST_REMAINDER), [p])
  {
    hide BinIndex, Fd, Bk, Bin, Eight, Unlink, TagsOk, Geometry, Binned;
    var m' := Unlink(m, a.bins[i][k]);
    UnlinkOnly(m, a, i, k);
    BinNodes(a, i);
    BinNodes(a, LAST_REMAINDER);
    BinsDiffer(i, LAST_REMAINDER);
    assert Bin(LAST_REMAINDER) !in a.bins[i] by {
      assert forall x :: x in a.bins[i] ==> a.Free(x) && x != Bin(LAST_REMAINDER);
    }
    RingFrame(m, m', Bin(LAST_REMAINDER), [p]);
  }

  /** The use bit after the chunk that follows p. */
  lemma NextBit(m: Mem, a: Layout, lr: bool, p: int)
    requires Inv(a) && a.Used(p) && a.Next(p) in a.chunks && Rep(m, a, {p, a.Next(p)}, lr)
    ensures var n := a.Next(p);
      PrevInuse(Head(m, a.Next(n))) == a.chunks[n].used && a.Next(n) != p && a.Next(n) != n
      && (a.Free(n) ==> a.Used(a.Next(n)) && Head(m, a.Next(n)) == Tag(a.chunks[a.Next(n)].size, false))
  {
    var n := a.Next(p);
    ChunkSizes(a, p);
    ChunkSizes(a, n);
    hide BinIndex, Binned, RingsOk, Head, Tag, PrevInuse;
    if a.Free(n) {
      FreeNext(a, n);
      NextHead(m, a, {p, n}, lr, n);
    }
  }

  /** Writing a tag of the held chunk p, or its footer, leaves the slot that holds it alone. */
  lemma SlotKept(m: Mem, p: int, w: int, v: int)
    requires Ring(m, Bin(LAST_REMAINDER), [p]) && AV_END <= w
    requires w == p + SIZE_SZ || p + MINSIZE <= w
    ensures Ring(Wr(m, w, v), Bin(LAST_REMAINDER), [p])
  {
    assert Fd(m, [p][0]) == Bin(LAST_REMAINDER) && Bk(m, [p][0]) == Bin(LAST_REMAINDER);
  }

  /** The last two tags around a chunk that has just been put in a bin are right. */
  lemma ReleaseTrust(m: Mem, c: Layout, p: int, next: int)
    requires Inv(c) && Rep(m, c, {next} + {p, next}, false)
    requires c.Free(p) && c.Next(p) == next && c.Used(next) && RightBit(c, p, true)
    requires Head(m, p) == Tag(c.chunks[p].size, true) && PrevSize(m, next) == c.chunks[p].size
    requires Head(m, next) == Tag(c.chunks[next].size, false)
    ensures Rep(m, c, {}, false)
  {
    hide BinIndex, Head, PrevSize, TagsOk, RingsOk, Binned, Tag, Coalesced;
    forall q | q in c.chunks && c.Next(q) == next
      ensures q == p
    {
      UniquePrevious(c, q, p);
    }
    FirstIsFirst(c, p);
    TrustStep(m, c, {next} + {p, next}, false, p, true);
    TrustStep(m, c, {next} + {p, next} - {p}, false, next, false);
    assert {next} + {p, next} - {p} - {next} == {};
  }

  lemma PutFacts(a: Layout, p: int, i: int, k: int)
    requires |a.bins| == NAV && Inv(a) && a.Used(p) && 1 <= i < NAV && 0 <= k <= |a.bins[i]|
    requires RightBit(a, p, true)
    requires a.Used(a.Next(p)) && p != a.Next(p)
    ensures Enclosed(a, p)
    ensures var c := Put(a, p, i, k);
      c.Free(p) && c.Next(p) == a.Next(p) && c.Used(a.Next(p)) && RightBit(c, p, true)
      && c.chunks[p].size == a.chunks[p].size && c.chunks[a.Next(p)] == a.chunks[a.Next(p)]
      && (forall q :: c.Used(q) <==> a.Used(q) && q != p)
      && (forall q :: a.Used(q) && q != p ==> c.chunks[q] == a.chunks[q])
  {
    hide BinIndex, Binned, Coalesced, Linked, Aligned, Apart;
    var c := Put(a, p, i, k);
    forall q | q in c.chunks && c.Next(q) == p
      ensures c.chunks[q].used
    {
      assert a.Next(q) == p;
      if q == p {
        SelfNotNext(a, p);
      }
    }
  }

  lemma ChunkAboveBins(a: Layout, p: int)
    requires Inv(a) && AV_END <= a.base && p in a.chunks
    ensures AV_END <= p
  {
    hide BinIndex;
  }

  lemma HeadWriteAll(m: Mem, a: Layout, p: int, v: int)
    requires Inv(a) && (p in a.chunks || p == a.top)
    ensures forall q :: q in a.chunks || q == a.top ==> Head(SetHead(m, p, v), q) == if q == p then v else Head(m, q)
    ensures forall q {:trigger a.Next(q)} :: q in a.chunks ==>
      PrevSize(SetHead(m, p, v), a.Next(q)) == PrevSize(m, a.Next(q))
  {
    hide BinIndex, Head, PrevSize;
    HeadWriteTags(m, a, p, v);
  }

  lemma DataWriteHeads(m: Mem, a: Layout, x: int, w: int, v: int)
    requires Inv(a) && a.Used(x) && DataWord(x, a.chunks[x].size, w)
    ensures forall q :: q in a.chunks || q == a.top ==> Head(Wr(m, w, v), q) == Head(m, q)
  {
    hide BinIndex, Head, PrevSize;
    DataWriteTags(m, a, x, w, v);
  }

  lemma FootReads(m: Mem, p: int, sz: int)
    ensures PrevSize(SetFoot(m, p, sz), p + sz) == sz
  {
  }

  lemma TagsUntouchedAt(a: Layout, m: Mem, m': Mem, p: int)
    requires Inv(a) && OnlyLinks(a, m, m') && p in a.chunks && a.Next(p) in a.chunks
    ensures Head(m', p) == Head(m, p) && Head(m', a.Next(p)) == Head(m, a.Next(p))
    ensures PrevSize(m', a.Next(p)) == PrevSize(m, a.Next(p))
  {
    hide BinIndex, Head, PrevSize, LinkCell;
    TagsUntouched(a, m, m');
  }

  lemma AbsorbFacts(a: Layout, p: int)
    requires Inv(a) && a.Used(p) && a.Next(p) == a.top && RightBit(a, p, true)
    ensures var c := Absorb(a, p);
      Inv(c) && c.top == p && p < a.top && RightBit(c, p, true) && a.top !in c.chunks
      && (forall q :: c.Used(q) <==> a.Used(q) && q != p)
      && (forall q :: a.Used(q) && q != p ==> c.chunks[q] == a.chunks[q])
  {
    hide BinIndex, Binned;
    forall q | q in a.chunks && a.Next(q) == p
      ensures a.chunks[q].used
    {
    }
    AbsorbKeeps(a, p);
    TopEnclosed(Absorb(a, p));
    ChunkSizes(a, p);
    AbsorbTop(a);
  }

  lemma AbsorbTop(a: Layout)
    requires Inv(a)
    ensures a.top !in a.chunks
  {
    hide BinIndex, Binned;
  }

  /** Reading a chunk's own size field. */
  lemma ReadTag(m: Mem, a: Layout, p: int)
    requires Inv(a) && Rep(m, a, {}, false) && p in a.chunks
    ensures ChunkSize(Head(m, p)) == a.chunks[p].size
  {
    hide BinIndex, Binned, RingsOk;
    TagFields(a.chunks[p].size, PrevInuse(Head(m, p)));
  }

  /** The rest of a free works on chunk y, which holds the block p or only free space. */
  lemma IntactStart(a: Layout, m: Mem, b: Layout, m2: Mem, c: Layout, m3: Mem, p: int, y: int)
    requires Intact(a, m, b, m2, p) && Intact(b, m2, c, m3, y) && (y == p || !a.Used(y))
    ensures Intact(a, m, c, m3, p)
  {
    IntactTrans(a, m, b, m2, c, m3, p, y);
  }

  // ---- realloc -------------------------------------------------------------------------------------

  /** The n bytes from dst in memory m2 equal those from src in memory m, word by word. */
  ghost predicate Copied(m2: Mem, dst: int, m: Mem, src: int, n: int) {
    forall k {:trigger WordAt(m2, dst, k)} :: 0 <= k < n && k % SIZE_SZ == 0 ==> WordAt(m2, dst, k) == WordAt(m, src, k)
  }

  function WordAt(m: Mem, w: int, k: int): int {
    Rd(m, w + k)
  }

  lemma DataWriteKeeps(m: Mem, a: Layout, x: int, w: int, v: int)
    requires Inv(a) && a.Used(x) && DataWord(x, a.chunks[x].size, w)
    ensures forall q :: q in a.chunks || q == a.top ==> Head(Wr(m, w, v), q) == Head(m, q)
    ensures forall q {:trigger a.Next(q)} :: a.Free(q) ==> PrevSize(Wr(m, w, v), a.Next(q)) == PrevSize(m, a.Next(q))
  {
    hide BinIndex, Head, PrevSize;
    DataWriteTags(m, a, x, w, v);
  }

  lemma CopiedStep(m1: Mem, m: Mem, dst: int, src: int, i: int, n: int)
    requires 0 <= i < n && i % SIZE_SZ == 0 && (dst < src || src + n <= dst)
    requires Copied(m1, dst, m, src, i)
    requires forall w :: w < dst || dst + i <= w ==> Rd(m1, w) == Rd(m, w)
    ensures Copied(Wr(m1, dst + i, Rd(m1, src + i)), dst, m, src, i + SIZE_SZ)
    ensures forall w :: w < dst || dst + i + SIZE_SZ <= w ==> Rd(Wr(m1, dst + i, Rd(m1, src + i)), w) == Rd(m, w)
  {
    var m2 := Wr(m1, dst + i, Rd(m1, src + i));
    forall k | 0 <= k < i + SIZE_SZ && k % SIZE_SZ == 0
      ensures WordAt(m2, dst, k) == WordAt(m, src, k)
    {
      if k < i {
        assert WordAt(m1, dst, k) == WordAt(m, src, k);
      }
    }
  }

  /** The data of a block that is intact, as a copy of itself. */
  lemma CopiedIntact(a: Layout, m: Mem, b: Layout, m2: Mem, x: int, p: int, m0: Mem, src: int, n: int)
    requires Intact(a, m, b, m2, x) && a.Used(p) && p != x && n + SIZE_SZ <= a.chunks[p].size
    requires Copied(m, p + 2 * SIZE_SZ, m0, src, n)
    ensures Copied(m2, p + 2 * SIZE_SZ, m0, src, n)
  {
    forall k | 0 <= k < n && k % SIZE_SZ == 0
      ensures WordAt(m2, p + 2 * SIZE_SZ, k) == WordAt(m0, src, k)
    {
      assert WordAt(m, p + 2 * SIZE_SZ, k) == WordAt(m0, src, k);
      assert DataWord(p, a.chunks[p].size, p + 2 * SIZE_SZ + k);
    }
  }

  lemma CopiedSelf(m: Mem, dst: int, n: int)
    ensures Copied(m, dst, m, dst, n)
  {
  }

  lemma CopiedLess(m2: Mem, dst: int, m: Mem, src: int, n: int, n2: int)
    requires Copied(m2, dst, m, src, n) && n2 <= n
    ensures Copied(m2, dst, m, src, n2)
  {
  }

  /** Chunk p is held; its own size may be out of date, and so may the use bit after it. */
  ghost predicate Loose(m: Mem, a: Layout, p: int, size: int) {
    && Inv(a) && a.Used(p) && a.chunks[p].size == size
    && Rep(m, a, {p, a.Next(p)}, false) && RightBit(a, p, PrevInuse(Head(m, p)))
    && (a.Next(p) in a.chunks ==>
          (exists b :: Head(m, a.Next(p)) == Tag(a.chunks[a.Next(p)].size, b)) && RightFoot(m, a, a.Next(p)))
    && (a.Next(p) == a.top ==> Head(m, a.top) == Tag(a.end - a.top, true))
  }

  ghost predicate ReadyToTrim(m: Mem, a: Layout, p: int, size: int, nb: int) {
    Loose(m, a, p, size) && nb % 8 == 0 && MINSIZE <= nb <= size
  }

  /** set_inuse_bit_at_offset after held chunk p: what follows may be a chunk, or top. */
  lemma MarkAfter(m: Mem, a: Layout, stale: set<int>, p: int, x: int)
    requires Inv(a) && a.Used(p) && a.top < a.end && Rep(m, a, stale, false)
    requires a.Next(p) in a.chunks ==>
      (exists b :: Head(m, a.Next(p)) == Tag(a.chunks[a.Next(p)].size, b)) && RightFoot(m, a, a.Next(p))
    requires a.Next(p) == a.top ==> Head(m, a.top) == Tag(a.end - a.top, true)
    ensures Rep(SetInuse(m, a.Next(p)), a, stale - {a.Next(p)}, false)
    ensures Intact(a, m, a, SetInuse(m, a.Next(p)), x)
  {
    hide BinIndex, Head, TagsOk, RingsOk, LinkCell, Binned, Tag, DataWord, SetHead, Aligned;
    var n := a.Next(p);
    forall q | q in a.chunks && a.Next(q) == n
      ensures a.chunks[q].used
    {
      UniquePrevious(a, q, p);
    }
    FirstIsFirst(a, p);
    var size := if n in a.chunks then a.chunks[n].size else a.end - a.top;
    AfterSize(a, n);
    assert exists b :: Head(m, n) == Tag(size, b);
    var b :| Head(m, n) == Tag(size, b);
    SetInuseValue(size, b);
    SetHeadStep(m, a, stale, false, n, Tag(size, true), true);
    IntactHead(a, m, n, Tag(size, true), x);
  }

  lemma AfterSize(a: Layout, n: int)
    requires Inv(a)
    ensures n in a.chunks ==> a.chunks[n].size % 8 == 0
    ensures (a.end - a.top) % 8 == 0 && a.top !in a.chunks
  {
    hide BinIndex, Binned;
    Multiples(a.end, a.top);
  }

  /** After the cut of a held chunk: what is known about its two parts and what follows. */
  lemma TrimFacts(m: Mem, a: Layout, p: int, size: int, nb: int)
    requires ReadyToTrim(m, a, p, size, nb) && nb + MINSIZE <= size
    ensures var b, n, bit := Cut(a, p, nb), a.Next(p), PrevInuse(Head(m, p));
      Inv(b) && Rep(m, b, {p, n} + {p, p + nb}, false) && RightBit(b, p, bit) && RightBit(b, p + nb, true)
      && (n in a.chunks ==> RightFoot(m, b, n)) && n != p && n != p + nb && p + nb !in a.chunks
  {
    hide BinIndex, Head, PrevSize, TagsOk, RingsOk, Tag, PrevInuse, Binned;
    CutStep(m, a, {p, a.Next(p)}, false, p, nb);
    CutKeeps(a, p, nb);
    SelfNotNext(a, p);
    TrimBits(a, p, nb, PrevInuse(Head(m, p)));
    hide Geometry;
  }

  lemma TrimLayout(a: Layout, p: int, nb: int)
    requires Cuttable(a, p, nb) && p + nb !in a.chunks && a.Next(p) != p && a.Next(p) != p + nb
    ensures var b, n := Cut(a, p, nb), a.Next(p);
      b.Used(p) && b.Used(p + nb) && b.chunks[p] == Chunk(nb, true)
      && b.chunks[p + nb] == Chunk(a.chunks[p].size - nb, true) && b.Next(p) == p + nb && b.Next(p + nb) == n
      && (forall q :: b.Used(q) <==> a.Used(q) || q == p + nb)
      && (forall q :: a.Used(q) && q != p ==> b.chunks[q] == a.chunks[q])
      && (n in a.chunks <==> n in b.chunks) && (n in a.chunks ==> b.chunks[n] == a.chunks[n])
      && SameArena(a, b)
  {
  }

  lemma TrimBits(a: Layout, p: int, nb: int, bit: bool)
    requires Inv(a) && Cuttable(a, p, nb) && RightBit(a, p, bit) && p + nb !in a.chunks && Inv(Cut(a, p, nb))
    ensures RightBit(Cut(a, p, nb), p, bit) && RightBit(Cut(a, p, nb), p + nb, true)
  {
    hide BinIndex, Binned, Coalesced;
    var b := Cut(a, p, nb);
    forall q | q in b.chunks && b.Next(q) == p + nb
      ensures b.chunks[q].used
    {
      UniquePrevious(b, q, p);
    }
    forall q | q in b.chunks && b.Next(q) == p
      ensures b.chunks[q].used == bit
    {
      if q != p && q != p + nb {
        assert a.Next(q) == p;
      } else {
        ChunkSizes(b, q);
      }
    }
  }

  lemma IntactLess(a: Layout, m: Mem, b: Layout, m2: Mem, x: int)
    requires Intact(a, m, b, m2, 0) && Inv(a) && AV_END <= a.base
    ensures Intact(a, m, b, m2, x)
  {
    hide BinIndex, Binned, Coalesced, Linked, Rd, DataWord;
  }

  lemma IntactTrim(a: Layout, b: Layout, m: Mem, c: Layout, m2: Mem, p: int, r: int)
    requires Intact(b, m, c, m2, r) && !a.Used(r)
    requires forall q :: a.Used(q) && q != p ==> b.Used(q) && b.chunks[q] == a.chunks[q]
    ensures Intact(a, m, c, m2, p)
  {
    hide Rd, DataWord;
  }

  lemma IntactChunk(a: Layout, m: Mem, b: Layout, m2: Mem, x: int, p: int)
    requires Intact(a, m, b, m2, x) && a.Used(p) && p != x
    ensures b.Used(p) && b.chunks[p] == a.chunks[p]
  {
  }

  /** Between operations every block in use is loose in this sense. */
  lemma LooseAtRest(m: Mem, a: Layout, p: int)
    requires Inv(a) && Rep(m, a, {}, false) && a.Used(p) && a.top < a.end
    ensures Loose(m, a, p, a.chunks[p].size)
  {
    hide BinIndex, Head, PrevSize, Tag, PrevInuse, Binned, RingsOk;
    StaleMore(m, a, {}, {p, a.Next(p)}, false);
    var n := a.Next(p);
    NextHead(m, a, {}, false, p);
    if n in a.chunks {
      assert Head(m, n) == Tag(a.chunks[n].size, true);
    }
  }

  /** What follows a held chunk, when it is free. */
  lemma LooseNext(m: Mem, a: Layout, p: int)
    requires p in a.chunks && Loose(m, a, p, a.chunks[p].size) && a.Free(a.Next(p))
    ensures var n := a.Next(p);
      a.Used(a.Next(n)) && Head(m, a.Next(n)) == Tag(a.chunks[a.Next(n)].size, false)
      && a.Next(n) != p && a.Next(n) != n && n != p
  {
    hide BinIndex, Head, PrevSize, Tag, PrevInuse, Binned, RingsOk;
    SelfNotNext(a, p);
    NextBit(m, a, false, p);
  }

  /** What precedes a held chunk whose PREV_INUSE bit is clear. */
  lemma LoosePrevious(m: Mem, a: Layout, p: int) returns (q: int)
    requires p in a.chunks && Loose(m, a, p, a.chunks[p].size) && !PrevInuse(Head(m, p))
    ensures a.Free(q) && a.Next(q) == p && PrevSize(m, p) == a.chunks[q].size
    ensures PrevInuse(Head(m, q)) && q != a.Next(p)
  {
    hide BinIndex, Head, PrevSize, Tag, PrevInuse, Binned, RingsOk;
    q := Predecessor(a, a.base, p);
    assert a.Next(q) == p;
    ChunkSizes(a, p);
    ChunkSizes(a, q);
    FreeEnclosed(a, q);
    if q != a.base {
      var t := Predecessor(a, a.base, q);
      assert a.Next(t) == q;
    }
  }

  /** A held chunk that borders top, stretched or shrunk to n bytes. */
  lemma StretchFacts(m: Mem, a: Layout, p: int, size: int, n: int)
    requires Loose(m, a, p, size) && a.Next(p) == a.top
    requires n % 8 == 0 && MINSIZE <= n && p + n + MINSIZE <= a.end
    ensures var b, bit := Stretch(a, p, n), PrevInuse(Head(m, p));
      Inv(b) && b.Used(p) && b.chunks[p].size == n && b.top == p + n && b.base == a.base && b.end == a.end
      && Rep(m, b, {p, p + n}, false) && RightBit(b, p, bit) && RightBit(b, b.top, true)
      && (forall q :: b.Used(q) <==> a.Used(q)) && (forall q :: a.Used(q) && q != p ==> b.chunks[q] == a.chunks[q])
  {
    hide BinIndex, Head, PrevSize, TagsOk, RingsOk, Tag, PrevInuse, Binned, Geometry;
    var b := Stretch(a, p, n);
    StretchStep(m, a, {p, a.top}, false, p, n);
    AbsorbTop(a);
    ChunkSizes(a, p);
    StretchBit(a, p, n, PrevInuse(Head(m, p)));
    ForgetTop(m, a, b, p, n);
    StaleMore(m, b, {p, a.top} + {p, p + n} - (if b.top == a.top then {} else {a.top}), {p, p + n}, false);
  }

  lemma ForgetTop(m: Mem, a: Layout, b: Layout, p: int, n: int)
    requires Inv(b) && Rep(m, b, {p, a.top} + {p, p + n}, false) && a.top !in a.chunks && p in a.chunks
    requires b == Stretch(a, p, n)
    ensures Rep(m, b, {p, a.top} + {p, p + n} - (if b.top == a.top then {} else {a.top}), false)
  {
    hide BinIndex, TagsOk, RingsOk, Binned, Geometry;
    if b.top != a.top {
      ForgetStep(m, b, {p, a.top} + {p, p + n}, false, a.top);
    } else {
      assert {p, a.top} + {p, p + n} - {} == {p, a.top} + {p, p + n};
    }
  }

  lemma StretchBit(a: Layout, p: int, n: int, bit: bool)
    requires Inv(a) && p in a.chunks && RightBit(a, p, bit) && Inv(Stretch(a, p, n)) && 0 < n
    ensures RightBit(Stretch(a, p, n), p, bit) && RightBit(Stretch(a, p, n), p + n, true)
  {
    hide BinIndex, Binned;
    var b := Stretch(a, p, n);
    TopEnclosed(b);
    forall q | q in b.chunks && b.Next(q) == p
      ensures b.chunks[q].used == bit
    {
      if q != p {
        assert a.Next(q) == p;
      }
    }
  }

  /** What realloc does to the blocks: the block in chunk p0 is now in chunk p, of nb bytes or
      a little more, with its data; nothing else in use changed. */
  ghost predicate Moved(a: Layout, m: Mem, b: Layout, m2: Mem, p0: int, p: int, nb: int) {
    && a.Used(p0) && b.Used(p) && p % 8 == 0 && nb <= b.chunks[p].size < nb + MINSIZE
    && SameUsed(a, b, p0, p) && Intact(a, m, b, m2, p0)
    && Copied(m2, p + 2 * SIZE_SZ, m, p0 + 2 * SIZE_SZ, Min(a.chunks[p0].size, b.chunks[p].size) - SIZE_SZ)
  }

  lemma PrevUnlinked(a: Layout, m: Mem, m': Mem, p: int)
    requires Inv(a) && OnlyLinks(a, m, m') && (p in a.chunks || p == a.top)
    ensures PrevSize(m', p) == PrevSize(m, p)
  {
    hide BinIndex, LinkCell;
    LinksAreNotTags(a, p);
  }

  lemma LooseFoot(a: Layout, m: Mem, m': Mem, p: int, c: Layout)
    requires Inv(a) && OnlyLinks(a, m, m') && p in a.chunks
    requires a.Next(p) in a.chunks ==>
      RightFoot(m, a, a.Next(p)) && a.Next(p) in c.chunks && c.chunks[a.Next(p)] == a.chunks[a.Next(p)]
    ensures a.Next(p) in a.chunks ==> RightFoot(m', c, a.Next(p))
  {
    hide BinIndex, LinkCell, PrevSize, Binned;
    if a.Next(p) in a.chunks {
      assert a.Next(a.Next(p)) == a.top || a.Next(a.Next(p)) in a.chunks;
      PrevUnlinked(a, m, m', a.Next(a.Next(p)));
    }
  }

  lemma TopSizeLoose(m: Mem, a: Layout, p: int, size: int)
    requires Loose(m, a, p, size) && a.Next(p) == a.top
    ensures ChunkSize(Head(m, a.top)) == a.end - a.top
  {
    hide BinIndex, Binned, TagsOk, RingsOk;
    Multiples(a.end, a.top);
    TagFields(a.end - a.top, true);
  }

  lemma AfterIsBoundary(a: Layout, p: int)
    requires Inv(a) && p in a.chunks
    ensures a.Next(p) in a.chunks || a.Next(p) == a.top
  {
    hide BinIndex, Binned;
  }

  lemma CopiedTrans(m3: Mem, dst: int, m2: Mem, mid: int, m: Mem, src: int, n: int)
    requires Copied(m3, dst, m2, mid, n) && Copied(m2, mid, m, src, n)
    ensures Copied(m3, dst, m, src, n)
  {
    forall k | 0 <= k < n && k % SIZE_SZ == 0
      ensures WordAt(m3, dst, k) == WordAt(m, src, k)
    {
      assert WordAt(m3, dst, k) == WordAt(m2, mid, k);
    }
  }

  /** Unlinking free chunks does not touch the data of a block. */
  lemma CopiedLinks(a: Layout, m: Mem, m2: Mem, p: int, n: int)
    requires Inv(a) && OnlyLinks(a, m, m2) && a.Used(p) && n + SIZE_SZ <= a.chunks[p].size
    ensures Copied(m2, p + 2 * SIZE_SZ, m, p + 2 * SIZE_SZ, n)
  {
    hide BinIndex, LinkCell, Binned;
    forall k | 0 <= k < n && k % SIZE_SZ == 0
      ensures WordAt(m2, p + 2 * SIZE_SZ, k) == WordAt(m, p + 2 * SIZE_SZ, k)
    {
      LinksAreNotData(a, p, p + 2 * SIZE_SZ + k);
    }
  }

  /** A held chunk stays as it was when only its data is written. */
  lemma LooseKept(m: Mem, a: Layout, p: int, size: int, m2: Mem)
    requires Loose(m, a, p, size) && Rep(m2, a, {p, a.Next(p)}, false)
    requires forall q :: q in a.chunks || q == a.top ==> Head(m2, q) == Head(m, q)
    requires forall q {:trigger a.Next(q)} :: a.Free(q) ==> PrevSize(m2, a.Next(q)) == PrevSize(m, a.Next(q))
    ensures Loose(m2, a, p, size)
  {
    hide BinIndex, Head, PrevSize, Tag, PrevInuse, Binned, Geometry, TagsOk, RingsOk;
  }

  /** Two neighbouring blocks joined into one. */
  lemma LooseJoin(m: Mem, c: Layout, p: int)
    requires Inv(c) && Rep(m, c, {}, false) && c.Used(p) && c.Used(c.Next(p)) && c.top < c.end
    ensures Inv(Join(c, p)) && Loose(m, Join(c, p), p, c.chunks[p].size + c.chunks[c.Next(p)].size)
    ensures forall q :: Join(c, p).Used(q) <==> c.Used(q) && q != c.Next(p)
    ensures forall q :: c.Used(q) && q != p && q != c.Next(p) ==> Join(c, p).chunks[q] == c.chunks[q]
  {
    hide BinIndex, Aligned, Linked, Apart, BinOk, Complete, Binned, Rd, SizesOk;
    var q, b := c.Next(p), Join(c, p);
    JoinFacts(c, p);
    LooseAtRest(m, c, p);
    LooseAtRest(m, c, q);
    JoinRightBit(c, p, PrevInuse(Head(m, p)));
    JoinStep(m, c, {}, false, p);
    StaleMore(m, b, {} + {p}, {p, b.Next(p)}, false);
    hide BinIndex, Head, PrevSize, Tag, PrevInuse, Binned, Geometry, TagsOk, RingsOk;
    AfterIsBoundary(c, q);
    AbsorbTop(c);
    if c.Next(q) in c.chunks {
      assert b.chunks[c.Next(q)] == c.chunks[c.Next(q)];
    }
  }

  lemma MovedBy(a: Layout, m: Mem, b: Layout, m2: Mem, p0: int, p: int, nb: int, n: int)
    requires Inv(b) && a.Used(p0) && b.Used(p) && nb <= b.chunks[p].size < nb + MINSIZE
    requires SameUsed(a, b, p0, p) && Intact(a, m, b, m2, p0)
    requires Copied(m2, p + 2 * SIZE_SZ, m, p0 + 2 * SIZE_SZ, n)
    requires Min(a.chunks[p0].size, b.chunks[p].size) - SIZE_SZ <= n
    ensures Moved(a, m, b, m2, p0, p, nb)
  {
    hide Copied, Intact, SameUsed;
    ChunkSizes(b, p);
    CopiedLess(m2, p + 2 * SIZE_SZ, m, p0 + 2 * SIZE_SZ, n, Min(a.chunks[p0].size, b.chunks[p].size) - SIZE_SZ);
  }

  lemma WordMultiple(size: int)
    requires size % 8 == 0
    ensures (size - SIZE_SZ) % SIZE_SZ == 0
  {
    var k := size / 8;
    assert size - SIZE_SZ == SIZE_SZ * (2 * k - 1);
  }

  /** The data moved to p at m1 is still there when realloc returns. */
  lemma FinishMove(a: Layout, m: Mem, m1: Mem, c: Layout, m2: Mem, p0: int, p: int, nb: int, n: int, k: int)
    requires Inv(c) && a.Used(p0) && n == a.chunks[p0].size - SIZE_SZ && a.chunks[p0].size < nb
    requires c.Used(p) && nb <= c.chunks[p].size < nb + MINSIZE
    requires SameUsed(a, c, p0, p) && Intact(a, m, c, m2, p0)
    requires Copied(m1, p + 2 * SIZE_SZ, m, p0 + 2 * SIZE_SZ, n)
    requires n <= k && Copied(m2, p + 2 * SIZE_SZ, m1, p + 2 * SIZE_SZ, k)
    ensures Moved(a, m, c, m2, p0, p, nb)
  {
    hide Copied, Intact, SameUsed;
    CopiedLess(m2, p + 2 * SIZE_SZ, m1, p + 2 * SIZE_SZ, k, n);
    CopiedTrans(m2, p + 2 * SIZE_SZ, m1, p + 2 * SIZE_SZ, m, p0 + 2 * SIZE_SZ, n);
    MovedBy(a, m, c, m2, p0, p, nb, n);
  }

  /** Like Intact, with two exceptions. */
  ghost predicate IntactBut(a: Layout, m: Mem, b: Layout, m2: Mem, x: int, y: int) {
    forall q :: a.Used(q) && q != x && q != y ==>
      b.Used(q) && b.chunks[q] == a.chunks[q]
      && forall w :: DataWord(q, a.chunks[q].size, w) ==> Rd(m2, w) == Rd(m, w)
  }

  /** A block that was allocated on the way may have changed. */
  lemma IntactFresh(a: Layout, m: Mem, b: Layout, m2: Mem, c: Layout, m3: Mem, p: int, newp: int)
    requires Intact(a, m, b, m2, 0) && Inv(a) && AV_END <= a.base
    requires IntactBut(b, m2, c, m3, p, newp) && !a.Used(newp)
    ensures Intact(a, m, c, m3, p)
  {
    IntactLess(a, m, b, m2, p);
    hide Rd, DataWord;
  }

  lemma IntactTwo(a: Layout, m: Mem, b: Layout, m2: Mem, c: Layout, m3: Mem, x: int, y: int)
    requires Intact(a, m, b, m2, x) && Intact(b, m2, c, m3, y)
    ensures IntactBut(a, m, c, m3, y, x)
  {
    hide Rd, DataWord;
  }

  lemma IntactJoined(a: Layout, b: Layout, m: Mem, c: Layout, m2: Mem, p: int, q: int)
    requires Intact(b, m, c, m2, p)
    requires forall r :: a.Used(r) && r != p && r != q ==> b.Used(r) && b.chunks[r] == a.chunks[r]
    ensures IntactBut(a, m, c, m2, p, q)
  {
    hide Rd, DataWord;
  }

  lemma JoinArena(a: Layout, p: int)
    requires p in a.chunks && a.Next(p) in a.chunks
    ensures SameArena(a, Join(a, p)) && Join(a, p).blocks == a.blocks
  {
  }

  lemma LooseInv(m: Mem, a: Layout, p: int, size: int)
    requires Loose(m, a, p, size)
    ensures Inv(a) && a.Used(p) && a.chunks[p].size == size
  {
  }

  lemma ChunksApart(a: Layout, p: int, q: int)
    requires Inv(a) && p in a.chunks && q in a.chunks && p != q
    ensures q + a.chunks[q].size <= p || p + a.chunks[p].size <= q
  {
    hide BinIndex, Binned;
  }

  /** Blocks in use are aligned and share no word. */
  lemma BlocksDisjoint(a: Layout, p: int, q: int, w: int)
    requires Inv(a) && a.Used(p) && a.Used(q) && p != q
    ensures (p + 2 * SIZE_SZ) % 8 == 0
    ensures DataWord(p, a.chunks[p].size, w) ==> !DataWord(q, a.chunks[q].size, w)
  {
    ChunksApart(a, p, q);
    hide BinIndex, Binned;
  }

  /** realloc's test that a block of nb bytes leaves a chunk of top compares longs. When nb is
      within a chunk of 2^31 the right-hand side is negative, and the test succeeds however
      small top is; below that it says what it means. */
  lemma TopGuard(total: int, nb: int)
    requires 0 <= total < LIMIT && MINSIZE <= nb < LIMIT
    ensures (Signed((nb + MINSIZE) % WORD) <= Signed(total) <==> nb + MINSIZE <= total) <==> nb + MINSIZE < LIMIT
  {
  }

  /**
   * A block can be resized to nb bytes: nothing is to be done, or it does not border top, or the guard of
   * growing into top can be trusted.
   */
  ghost predicate GrowthSafe(a: Layout, p: int, nb: int)
    requires p in a.chunks
  {
    nb <= a.chunks[p].size || a.Next(p) != a.top || nb + MINSIZE < LIMIT
  }

  /**
   * Else the guard is true for a top too small, and the heap that growing into it leaves has its top behind the
   * end.
   */
  lemma GrowthUnsafe(a: Layout, p: int, nb: int)
    requires Inv(a) && a.Used(p) && AV_END <= a.base && a.end <= LIMIT && nb < LIMIT && !GrowthSafe(a, p, nb)
    ensures Signed(a.chunks[p].size + (a.end - a.top)) >= Signed((nb + MINSIZE) % WORD)
    ensures Stretch(a, p, nb).end < Stretch(a, p, nb).top && !Inv(Stretch(a, p, nb))
  {
    hide BinIndex, Binned;
    TopGuard(a.chunks[p].size + (a.end - a.top), nb);
  }

  /** inuse(next), and the size of next, at rest. */
  lemma NextAtRest(m: Mem, a: Layout, p: int)
    requires Inv(a) && Rep(m, a, {}, false) && a.Used(p)
    ensures var n := a.Next(p);
      n != a.top ==> (n in a.chunks && ChunkSize(Head(m, n)) == a.chunks[n].size
                      && PrevInuse(Head(m, n + a.chunks[n].size)) == a.chunks[n].used)
  {
    var n := a.Next(p);
    AfterIsBoundary(a, p);
    if n != a.top {
      ReadTag(m, a, n);
      hide BinIndex, Binned, RingsOk, Head, PrevInuse;
      assert a.Next(n) == n + a.chunks[n].size;
    }
  }

  /** What realloc knows about the free chunk before a block at rest. */
  lemma PreviousAtRest(m: Mem, a: Layout, p: int) returns (q: int)
    requires Inv(a) && Rep(m, a, {}, false) && a.Used(p) && a.top < a.end && !PrevInuse(Head(m, p))
    ensures a.Free(q) && a.Next(q) == p && PrevSize(m, p) == a.chunks[q].size && q != a.Next(p)
    ensures PrevInuse(Head(m, q)) && ChunkSize(Head(m, q)) == a.chunks[q].size
  {
    LooseAtRest(m, a, p);
    q := LoosePrevious(m, a, p);
    ReadTag(m, a, q);
  }

  /** Is there room for nb bytes from `extra` bytes before block p to the end of what is free behind it? */
  ghost predicate RoomBehind(a: Layout, p: int, extra: int, nb: int)
    requires p in a.chunks
  {
    var n, held := a.Next(p), extra + a.chunks[p].size;
    if n == a.top then nb + MINSIZE <= held + (a.end - a.top) else a.Free(n) && nb <= held + a.chunks[n].size
  }

  /** What realloc computes of it. */
  ghost predicate RoomComputed(a: Layout, p: int, usable: bool, nextsize: int, extra: int, nb: int)
    requires p in a.chunks
  {
    var held := extra + a.chunks[p].size;
    usable && if a.Next(p) == a.top then nb + MINSIZE <= nextsize + held else nb <= nextsize + held
  }

  /** Where a block that must grow ends up: where it is if there is room behind it, else at a free chunk
      before it that makes up for it, and only else anywhere (0 stands for nowhere). */
  ghost predicate Landing(a: Layout, p: int, nb: int, q: int)
    requires p in a.chunks
  {
    && (RoomBehind(a, p, 0, nb) ==> q == p)
    && (forall x {:trigger a.Next(x)} ::
          (a.Free(x) && a.Next(x) == p && !RoomBehind(a, p, 0, nb)
           && (RoomBehind(a, p, a.chunks[x].size, nb) || nb <= a.chunks[x].size + a.chunks[p].size)) ==> q == x)
  }

  /** Neither the free space behind a block nor a free chunk before it makes up for its growth. */
  ghost predicate Cramped(a: Layout, p: int, nb: int)
    requires p in a.chunks
  {
    && !RoomBehind(a, p, 0, nb)
    && (forall x {:trigger a.Next(x)} :: a.Free(x) && a.Next(x) == p ==>
          !RoomBehind(a, p, a.chunks[x].size, nb) && a.chunks[x].size + a.chunks[p].size < nb)
  }

  /** A block that must grow, and cannot where it is. */
  ghost predicate MustMove(a: Layout, p: int, nb: int) {
    p in a.chunks && a.chunks[p].size < nb && Cramped(a, p, nb)
  }

  /** Then the block goes where malloc puts a new one, and stays if that is right behind it. */
  ghost predicate Relocated(a: Layout, p: int, nb: int, q: int) {
    p in a.chunks && if q == p then Chosen(a, a.Next(p), nb) else q != a.Next(p) && Chosen(a, q, nb)
  }

  lemma NotCramped(a: Layout, p: int, nb: int, x: int)
    requires p in a.chunks && a.Free(x) && a.Next(x) == p
    requires RoomBehind(a, p, a.chunks[x].size, nb) || nb <= a.chunks[x].size + a.chunks[p].size
    ensures !Cramped(a, p, nb)
  {
    hide RoomBehind;
  }

  /** A block that need not grow stays where it is. */
  ghost predicate Resized(a: Layout, p: int, nb: int, q: int) {
    p in a.chunks && if nb <= a.chunks[p].size then q == p else Landing(a, p, nb, q)
  }

  lemma LandsAhead(a: Layout, p: int, nb: int)
    requires p in a.chunks && RoomBehind(a, p, 0, nb)
    ensures Landing(a, p, nb, p) && !Cramped(a, p, nb)
  {
    hide RoomBehind;
  }

  lemma LandsBefore(a: Layout, p: int, nb: int, x: int)
    requires Inv(a) && p in a.chunks && a.Free(x) && a.Next(x) == p && !RoomBehind(a, p, 0, nb)
    ensures Landing(a, p, nb, x)
  {
    hide BinIndex, Binned, RoomBehind;
    forall y | y in a.chunks && a.Next(y) == p ensures y == x {
      if y != x { ChunksApart(a, x, y); ChunkSizes(a, x); ChunkSizes(a, y); }
    }
  }

  /** Neither the free space behind nor the chunk before is enough. */
  lemma LandsElsewhere(m: Mem, a: Layout, p: int, nb: int, q: int)
    requires Inv(a) && Rep(m, a, {}, false) && a.Used(p) && !RoomBehind(a, p, 0, nb)
    requires PrevInuse(Head(m, p)) ||
             (exists x :: a.Free(x) && a.Next(x) == p && !RoomBehind(a, p, a.chunks[x].size, nb)
               && a.chunks[x].size + a.chunks[p].size < nb)
    ensures Landing(a, p, nb, q) && Cramped(a, p, nb)
  {
    hide BinIndex, Binned, RoomBehind, RingsOk, Head, PrevInuse;
    if !PrevInuse(Head(m, p)) {
      var x :| a.Free(x) && a.Next(x) == p && !RoomBehind(a, p, a.chunks[x].size, nb)
        && a.chunks[x].size + a.chunks[p].size < nb;
      forall y | y in a.chunks && a.Next(y) == p ensures y == x {
        if y != x { ChunksApart(a, x, y); ChunkSizes(a, x); ChunkSizes(a, y); }
      }
    }
  }

  /** realloc computes the room behind a block rightly. */
  lemma RoomRead(m: Mem, a: Layout, p: int, usable: bool, nextsize: int, extra: int, nb: int)
    requires Inv(a) && Rep(m, a, {}, false) && a.Used(p) && a.top < a.end
    requires usable == (a.Next(p) == a.top || !PrevInuse(Head(m, a.Next(p) + ChunkSize(Head(m, a.Next(p))))))
    requires usable ==> nextsize == ChunkSize(Head(m, a.Next(p)))
    ensures RoomBehind(a, p, extra, nb) <==> RoomComputed(a, p, usable, nextsize, extra, nb)
  {
    NextAtRest(m, a, p);
    TopSize(m, a);
    hide BinIndex, Binned, TagsOk, RingsOk, Head, PrevInuse, ChunkSize, Tag;
  }

  lemma ArenaBound(a: Layout, p: int)
    requires Inv(a) && AV_END <= a.base && p in a.chunks
    ensures 0 < p && p + a.chunks[p].size <= a.top
  {
    hide BinIndex, Binned;
  }

  // ---- the allocator's own checks, on the words of memory ------------------------------------------

  /** do_check_free_chunk: the tags, the footer and the links of a free chunk. */
  lemma FreeChunkChecks(m: Mem, a: Layout, p: int)
    requires Inv(a) && Rep(m, a, {}, false) && a.top < a.end && a.Free(p)
    ensures var sz, next := ChunkSize(Head(m, p)), p + ChunkSize(Head(m, p));
      sz % 8 == 0 && MINSIZE <= sz && next < a.top
      && !PrevInuse(Head(m, next)) && PrevSize(m, next) == sz && PrevInuse(Head(m, p))
      && PrevInuse(Head(m, next + ChunkSize(Head(m, next))))
      && Bk(m, Fd(m, p)) == p && Fd(m, Bk(m, p)) == p
  {
    hide BinIndex, PrevInuse, ChunkSize, Binned, RingsOk, Ring, Fd, Bk;
    ReadTag(m, a, p);
    ChunkSizes(a, p);
    FreeTags(m, a, p);
    FreeNext(a, p);
    var n := a.Next(p);
    ReadTag(m, a, n);
    assert a.Next(n) == n + a.chunks[n].size;
    TopEnclosed(a);
    TagFields(a.chunks[n].size, false);
    TagFields(a.chunks[p].size, true);
    UseBitAfter(m, a, n);
    LinksPaired(m, a, p);
  }

  lemma UseBitAfter(m: Mem, a: Layout, n: int)
    requires Inv(a) && Rep(m, a, {}, false) && a.Used(n) && a.top < a.end
    ensures PrevInuse(Head(m, a.Next(n)))
  {
    hide BinIndex, Binned, RingsOk, PrevInuse;
  }

  lemma LinksPaired(m: Mem, a: Layout, p: int)
    requires Inv(a) && Rep(m, a, {}, false) && a.Free(p)
    ensures Bk(m, Fd(m, p)) == p && Fd(m, Bk(m, p)) == p
  {
    hide BinIndex, Fd, Bk, TagsOk, Geometry, BinsOk;
    var i := HomeBin(a, p);
    var s := a.bins[i];
    var k := IndexOf(s, p);
    assert Ring(m, Bin(i), s);
    assert Fd(m, s[k]) == if k + 1 < |s| then s[k + 1] else Bin(i);
    assert Bk(m, s[k]) == if k > 0 then s[k - 1] else Bin(i);
    if k + 1 < |s| {
      assert Bk(m, s[k + 1]) == s[k];
    }
    if k > 0 {
      assert Fd(m, s[k - 1]) == s[k];
    }
  }

  /** Every free chunk is in exactly one bin, at exactly one position. */
  lemma InExactlyOneBin(a: Layout, p: int)
    requires Inv(a) && a.Free(p)
    ensures exists i :: 1 <= i < NAV && p in a.bins[i]
    ensures forall i, j :: 1 <= i < NAV && 1 <= j < NAV && p in a.bins[i] && p in a.bins[j] ==> i == j
    ensures forall i, k, l :: 1 <= i < NAV && 0 <= k < l < |a.bins[i]| ==> !(a.bins[i][k] == p && a.bins[i][l] == p)
  {
    hide BinIndex;
    var i := HomeBin(a, p);
    forall i, j | 1 <= i < NAV && 1 <= j < NAV && p in a.bins[i] && p in a.bins[j]
      ensures i == j
    {
      if i != j {
        BinsApart(a.chunks, a.bins, i, j, p);
      }
    }
    forall i, k, l | 1 <= i < NAV && 0 <= k < l < |a.bins[i]|
      ensures a.bins[i][k] != a.bins[i][l]
    {
      assert BinOk(a.chunks, i, a.bins[i]);
    }
  }

  /** The bytes in use (or not) from p to top, found by walking the size fields in memory and
      testing each chunk's use bit in the one after it. */
  ghost function Walk(m: Mem, p: int, top: int, used: bool): int
    decreases top - p
  {
    var size := ChunkSize(Head(m, p));
    if p >= top || size <= 0 then 0
    else (if PrevInuse(Head(m, p + size)) == used then size else 0) + Walk(m, p + size, top, used)
  }

  lemma {:induction false} WalkIsBytes(m: Mem, a: Layout, p: int, used: bool)
    requires Inv(a) && Rep(m, a, {}, false) && a.top < a.end && (p in a.chunks || p == a.top)
    ensures Walk(m, p, a.top, used) == Bytes(a, p, used)
    decreases a.top - p
  {
    hide BinIndex, Binned, RingsOk, PrevInuse, ChunkSize, Head;
    if p in a.chunks {
      AbsorbTop(a);
      ReadTag(m, a, p);
      ChunkSizes(a, p);
      ArenaTop(a, p);
      AfterIsBoundary(a, p);
      assert PrevInuse(Head(m, a.Next(p))) == a.chunks[p].used;
      WalkIsBytes(m, a, a.Next(p), used);
    }
  }

  lemma ArenaTop(a: Layout, p: int)
    requires Inv(a) && p in a.chunks
    ensures p + a.chunks[p].size <= a.top
  {
    hide BinIndex, Binned;
  }
}
