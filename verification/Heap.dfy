/** Doug Lea's malloc, free and realloc over the heap's words (blt/lib/libc/malloc.c). */
module Heap {
  import opened HeapLayout
  import opened HeapMemory
  import opened HeapRep
  import opened HeapSteps
  import opened Word

  class Heap {
    var mem: Mem
    var top: int
    var binblocks: set<int>   // the binblocks word, as the set of its set bits
    var sbrkBase: int
    var sbrkedMem: int
    ghost var layout: Layout

    /** Consistent between calls: not yet started, or with an arena that ends where the memory
        obtained from the system ends. */
    ghost predicate Valid()
      reads this
    {
      && Working({}, false)
      && (if sbrkBase == -1 then top == AV && Head(mem, AV) == 0 && layout == Fresh() && sbrkedMem == 0
          else Started())
    }

    ghost predicate Started()
      reads this
    {
      sbrkBase != -1 && top == layout.top && layout.top + MINSIZE <= layout.end && Obtained()
    }

    ghost predicate Obtained()
      reads this
    {
      && 0 <= sbrkBase <= layout.base < sbrkBase + 8
      && layout.end == sbrkBase + sbrkedMem && layout.end <= LIMIT && layout.end % PAGE == 0
    }

    constructor ()
      ensures Valid() && sbrkBase == -1
    {
      mem := map w | AV <= w < AV_END && w % SIZE_SZ == 0 :: InitialWord(w);
      top := AV;
      binblocks := {};
      sbrkBase, sbrkedMem := -1, 0;
      layout := Fresh();
      new;
      FreshOk(mem);
    }

    ghost predicate Working(stale: set<int>, lr: bool)
      reads this
    {
      Inv(layout) && Rep(mem, layout, stale, lr) && binblocks == layout.blocks
    }

    /** The size of a binned chunk, read from its header. */
    lemma BinnedSize(stale: set<int>, lr: bool, i: int, k: int)
      requires Working(stale, lr) && 1 <= i < NAV && 0 <= k < |layout.bins[i]|
      requires layout.bins[i][k] !in stale
      ensures layout.Free(layout.bins[i][k])
      ensures ChunkSize(Head(mem, layout.bins[i][k])) == layout.chunks[layout.bins[i][k]].size
    {
      hide BinIndex;
      assert BinOk(layout.chunks, i, layout.bins[i]);
      var x := layout.bins[i][k];
      TagFields(layout.chunks[x].size, PrevInuse(Head(mem, x)));
    }

    /** frontlink's walk down a large bin: the first chunk that is not larger than s. */
    method FindSpot(i: int, s: int, ghost stale: set<int>) returns (fwd: int, ghost k: int)
      requires Working(stale, false) && 2 <= i < NAV
      requires forall y :: layout.Free(y) ==> y !in stale
      ensures 0 <= k <= |layout.bins[i]| && fwd == At(Bin(i), layout.bins[i], k)
      ensures forall l :: 0 <= l < |layout.bins[i]| ==> layout.bins[i][l] in layout.chunks
      ensures forall l :: 0 <= l < k ==> layout.chunks[layout.bins[i][l]].size > s
      ensures forall l :: k <= l < |layout.bins[i]| ==> layout.chunks[layout.bins[i][l]].size <= s
    {
      hide BinIndex, Head, TagsOk, BlocksCover, Complete, Geometry, ChunkSize, Bin, Eight;
      ghost var bins := layout.bins;
      assert BinOk(layout.chunks, i, bins[i]);
      assert Ring(mem, Bin(i), bins[i]);
      BinNodes(layout, i);
      k := 0;
      fwd := Fd(mem, Bin(i));
      while fwd != Bin(i) && s < ChunkSize(Head(mem, fwd))
        invariant 0 <= k <= |bins[i]| && fwd == At(Bin(i), bins[i], k)
        invariant forall l :: 0 <= l < k ==> layout.chunks[bins[i][l]].size > s
        decreases |bins[i]| - k
      {
        BinnedSize(stale, false, i, k);
        fwd := Fd(mem, fwd);
        k := k + 1;
      }
      if k < |bins[i]| {
        BinnedSize(stale, false, i, k);
      }
    }

    /** Where frontlink puts a chunk of size s: its bin, and its neighbours there. Marks the
        bin's block, which for a large bin is needed only when the bin was empty. */
    method ChooseSpot(s: int, ghost stale: set<int>) returns (i: int, bck: int, fwd: int, ghost k: int)
      requires Working(stale, false) && MINSIZE <= s && s % 8 == 0
      requires forall y :: layout.Free(y) ==> y !in stale
      modifies this`binblocks
      ensures i == BinIndex(s) && 2 <= i < NAV && 0 <= k <= |layout.bins[i]|
      ensures bck == Before(Bin(i), layout.bins[i], k) && fwd == At(Bin(i), layout.bins[i], k)
      ensures forall l :: 0 <= l < |layout.bins[i]| ==> layout.bins[i][l] in layout.chunks
      ensures forall l :: 0 <= l < k ==> layout.chunks[layout.bins[i][l]].size > s
      ensures forall l :: k <= l < |layout.bins[i]| ==> layout.chunks[layout.bins[i][l]].size <= s
      ensures binblocks == layout.blocks + {i / BINBLOCKWIDTH}
    {
      hide BinIndex, Head, TagsOk, Complete, Geometry, ChunkSize, Bin;
      BinIndexRange(s);
      ghost var bins := layout.bins;
      i := BinIndex(s);
      assert Ring(mem, Bin(i), bins[i]);
      if s < MAX_SMALLBIN_SIZE {
        SmallBinIndex(s);
        binblocks := binblocks + {i / BINBLOCKWIDTH};
        bck := Bin(i);
        fwd := Fd(mem, bck);
        k := 0;
        SmallBinSizes(layout, i);
        assert forall l :: 0 <= l < |bins[i]| ==> bins[i][l] in bins[i];
      } else {
        bck := Bin(i);
        fwd := Fd(mem, bck);
        BinNodes(layout, i);
        if fwd == bck {
          binblocks := binblocks + {i / BINBLOCKWIDTH};
          k := 0;
        } else {
          fwd, k := FindSpot(i, s, stale);
          bck := Bk(mem, fwd);
        }
      }
    }

    /** frontlink: place held chunk x of size s in its bin, in size order, ahead of others of
        the same size. */
    method FrontLink(x: int, s: int, ghost stale: set<int>) returns (ghost k: int)
      requires Working(stale, false) && layout.Used(x) && layout.chunks[x].size == s
      requires Enclosed(layout, x)
      requires forall y :: layout.Free(y) ==> y !in stale
      modifies this`mem, this`binblocks, this`layout
      ensures 2 <= BinIndex(s) < NAV && Fits(old(layout), x, BinIndex(s), k)
      ensures forall l :: 0 <= l < k ==> SizeAt(old(layout), BinIndex(s), l) > s
      ensures layout == Put(old(layout), x, BinIndex(s), k)
      ensures Working(stale + {x, layout.Next(x)}, false)
      ensures OnlyLinks(layout, old(mem), mem)
    {
      hide BinIndex, Head, TagsOk, Complete, ChunkSize, Bin, Ring, Rep, Link, Apart, Linked, Coalesced, BinOk;
      var i, bck, fwd;
      i, bck, fwd, k := ChooseSpot(s, stale);
      BinIndexRange(s);
      assert Fits(layout, x, i, k);
      PutStep(mem, layout, stale, false, x, i, k);
      mem := Link(mem, x, bck, fwd);
      layout := Put(layout, x, i, k);
    }

    /** A binned chunk that fits is taken whole: unlink, and set the use bit after it. */
    method TakeWhole(x: int, ghost i: int, ghost k: int)
      requires Working({}, false) && 1 <= i < NAV && 0 <= k < |layout.bins[i]| && layout.bins[i][k] == x
      requires x in layout.chunks
      modifies this`mem, this`layout
      ensures layout == Take(old(layout), i, k) && Working({}, false)
      ensures Intact(old(layout), old(mem), layout, mem, 0)
    {
      hide BinIndex, Head, TagsOk, RingsOk, ChunkSize, Unlink, SetInuse, LinkCell, Binned, Geometry, Intact;
      ghost var a, m := layout, mem;
      BinnedSize({}, false, i, k);
      var next := x + ChunkSize(Head(mem, x));
      NextHead(mem, a, {}, false, x);
      assert a.Next(x) == next;
      assert a.Used(next) && next in a.chunks by { FreeNext(a, x); }
      TakeStep(mem, a, {}, false, i, k);
      assert {} + {next} == {next};
      mem := Unlink(mem, x);
      layout := Take(layout, i, k);
      IntactLinks(a, m, mem, layout, 0);
      assert Head(mem, next) == Head(m, next) by { HeadUnlinked(a, m, mem, next); }
      MarkUsedStep(mem, layout, false, x);
      IntactTrans(a, m, layout, mem, layout, SetInuse(mem, next), 0, 0);
      mem := SetInuse(mem, next);
    }

    /** The head and the footer of the rest of a split, which is linked already. */
    method WriteRemainder(x: int, remainder: int, rest: int)
      requires remainder in layout.chunks && Working({x, remainder, layout.Next(remainder)}, false)
      requires layout.Used(x) && layout.Next(x) == remainder && RightBit(layout, x, true)
      requires layout.Free(remainder) && layout.chunks[remainder].size == rest && layout.Used(layout.Next(remainder))
      requires Head(mem, x) == Tag(layout.chunks[x].size, true)
      requires Head(mem, layout.Next(remainder)) == Tag(layout.chunks[layout.Next(remainder)].size, false)
      modifies this`mem
      ensures Working({}, false) && Intact(layout, old(mem), layout, mem, x)
    {
      hide BinIndex, Head, TagsOk, RingsOk, ChunkSize, LinkCell, Binned, Geometry, Intact, SetHead, Tag, RightBit;
      ghost var c, m, next := layout, mem, layout.Next(remainder);
      ghost var stale := {x, remainder, next};
      ScribbleHeadStep(m, c, stale, false, remainder, Tag(rest, true));
      assert stale + {remainder} == stale;
      SplitBoundaries(c, x, remainder);
      HeadWriteTags(m, c, remainder, Tag(rest, true));
      IntactHead(c, m, remainder, Tag(rest, true), x);
      mem := SetHead(mem, remainder, Tag(rest, true));
      ghost var m1 := mem;
      FootWriteStep(m1, c, stale, false, remainder, rest);
      FootKeepsHeads(c, m1, remainder, rest);
      IntactFoot(c, m1, remainder, rest, x);
      IntactTrans(c, m, c, m1, c, Wr(m1, next, rest), x, x);
      mem := SetFoot(mem, remainder, rest);
      SplitTrust(mem, c, x, remainder, next);
    }

    /** The tail of a split: the rest of chunk x becomes the last remainder. */
    method FinishSplit(x: int, nb: int, rest: int, ghost lr: bool)
      requires ReadyToSplit(mem, layout, x, nb, lr) && binblocks == layout.blocks
      requires layout.chunks[x].size == nb + rest
      modifies this`mem, this`layout
      ensures layout == SplitOf(old(layout), x, nb) && Working({}, false)
      ensures Intact(old(layout), old(mem), layout, mem, x)
    {
      hide BinIndex, Head, TagsOk, RingsOk, ChunkSize, LinkCell, Binned, Geometry, Intact, LinkLastRemainder, Tag,
        RightBit;
      var remainder := x + nb;
      ghost var a, m, next := layout, mem, layout.Next(x);
      CutFacts(m, a, x, nb, lr);
      CutLayoutFacts(a, x, nb);
      ghost var b := Cut(a, x, nb);
      ghost var c := Put(b, remainder, LAST_REMAINDER, 0);
      layout := c;
      PutLrStep(mem, b, {x, remainder, next}, lr, remainder);
      assert {x, remainder, next} + {remainder, next} == {x, remainder, next};
      mem := LinkLastRemainder(mem, remainder);
      SplitBoundaries(c, x, remainder);
      HeadUnlinked(c, m, mem, x);
      HeadUnlinked(c, m, mem, next);
      RightBitPut(b, x, remainder);
      assert forall q :: a.Used(q) && q != x ==> q != remainder && c.chunks[q] == b.chunks[q];
      IntactLinks(a, m, mem, c, x);
      ghost var m1 := mem;
      WriteRemainder(x, remainder, rest);
      IntactTrans(a, m, c, m1, c, mem, x, x);
    }

    /** A binned chunk larger than needed: keep the low end, the rest is the last remainder. */
    method SplitBinned(x: int, nb: int, rest: int, ghost i: int, ghost k: int)
      requires Working({}, false) && 2 <= i < NAV && 0 <= k < |layout.bins[i]| && layout.bins[i][k] == x
      requires layout.bins[LAST_REMAINDER] == []
      requires x in layout.chunks && layout.chunks[x].size == nb + rest
      requires nb % 8 == 0 && MINSIZE <= nb && MINSIZE <= rest
      modifies this`mem, this`layout
      ensures layout == SplitOf(Take(old(layout), i, k), x, nb) && Working({}, false)
      ensures Intact(old(layout), old(mem), layout, mem, 0)
    {
      hide BinIndex, Head, TagsOk, RingsOk, ChunkSize, LinkCell, Binned, Intact, SetHead, Unlink, Tag;
      ghost var a, m, next := layout, mem, layout.Next(x);
      BinnedSize({}, false, i, k);
      FreeNext(a, x);
      NextHead(m, a, {}, false, x);
      BinChunk(a, i, k);
      ScribbleHeadStep(mem, a, {}, false, x, Tag(nb, true));
      HeadWriteTags(mem, a, x, Tag(nb, true));
      IntactHead(a, m, x, Tag(nb, true), 0);
      mem := SetHead(mem, x, Tag(nb, true));

      ghost var m1, b := mem, Take(a, i, k);
      TakeStep(mem, a, {} + {x}, false, i, k);
      assert {} + {x} + {next} == {x, next};
      mem := Unlink(mem, x);
      layout := b;
      HeadUnlinked(a, m1, mem, x);
      HeadUnlinked(a, m1, mem, next);
      IntactLinks(a, m1, mem, b, 0);
      IntactTrans(a, m, a, m1, b, mem, 0, 0);
      TakenFacts(a, i, k);
      assert ReadyToSplit(mem, b, x, nb, false);
      ghost var m2 := mem;
      FinishSplit(x, nb, rest, false);
      IntactTrans(a, m, b, m2, layout, mem, 0, x);
    }

    /** The last remainder is split again: the slot is rewritten without unlinking it first. */
    method ResplitLastRemainder(x: int, nb: int, rest: int)
      requires Working({}, false) && layout.bins[LAST_REMAINDER] == [x]
      requires x in layout.chunks && layout.chunks[x].size == nb + rest
      requires nb % 8 == 0 && MINSIZE <= nb && MINSIZE <= rest
      modifies this`mem, this`layout
      ensures layout == SplitOf(Take(old(layout), LAST_REMAINDER, 0), x, nb) && Working({}, false)
      ensures Intact(old(layout), old(mem), layout, mem, 0)
    {
      hide BinIndex, Head, TagsOk, RingsOk, ChunkSize, LinkCell, Binned, Intact, SetHead, Unlink, Tag;
      ghost var a, m, next := layout, mem, layout.Next(x);
      BinChunk(a, LAST_REMAINDER, 0);
      FreeNext(a, x);
      NextHead(m, a, {}, false, x);
      ScribbleHeadStep(mem, a, {}, false, x, Tag(nb, true));
      HeadWriteTags(mem, a, x, Tag(nb, true));
      IntactHead(a, m, x, Tag(nb, true), 0);
      mem := SetHead(mem, x, Tag(nb, true));

      ghost var m1, b := mem, Take(a, LAST_REMAINDER, 0);
      TakeLrStep(mem, a, {} + {x}, false);
      assert {} + {x} + {next} == {x, next};
      layout := b;
      assert Intact(a, m, b, mem, 0) by { IntactTaken(a, m, mem, LAST_REMAINDER, 0); }
      TakenFacts(a, LAST_REMAINDER, 0);
      assert ReadyToSplit(mem, b, x, nb, true);
      FinishSplit(x, nb, rest, true);
      IntactTrans(a, m, b, m1, layout, mem, 0, x);
    }

    /** The last remainder is taken whole. */
    method ExhaustLastRemainder(x: int)
      requires Working({}, false) && layout.bins[LAST_REMAINDER] == [x] && x in layout.chunks
      modifies this`mem, this`layout
      ensures layout == Take(old(layout), LAST_REMAINDER, 0) && Working({}, false)
      ensures Intact(old(layout), old(mem), layout, mem, 0)
    {
      hide BinIndex, Head, TagsOk, RingsOk, ChunkSize, LinkCell, Binned, Intact, SetInuse, ClearLastRemainder;
      ghost var a, m := layout, mem;
      BinChunk(a, LAST_REMAINDER, 0);
      BinnedSize({}, false, LAST_REMAINDER, 0);
      var next := x + ChunkSize(Head(mem, x));
      NextHead(mem, a, {}, false, x);
      FreeNext(a, x);
      TakenFacts(a, LAST_REMAINDER, 0);
      TakeLrStep(mem, a, {}, false);
      assert {} + {next} == {next};
      layout := Take(a, LAST_REMAINDER, 0);
      ClearLrStep(mem, layout, {next}, true);
      mem := ClearLastRemainder(mem);
      HeadUnlinked(layout, m, mem, next);
      IntactLinks(a, m, mem, layout, 0);
      MarkUsedStep(mem, layout, false, x);
      IntactTrans(a, m, layout, mem, layout, SetInuse(mem, next), 0, 0);
      mem := SetInuse(mem, next);
    }

    /** Empty the last_remainder slot: its chunk x is held, and only the size field after it is out of date. */
    method ClearSlot(x: int)
      requires Working({}, false) && layout.bins[LAST_REMAINDER] == [x] && x in layout.chunks
      modifies this`mem, this`layout
      ensures layout == Take(old(layout), LAST_REMAINDER, 0) && layout.bins[LAST_REMAINDER] == []
      ensures old(layout).Free(x) && layout.Used(x) && Working({layout.Next(x)}, false)
      ensures OnlyLinks(layout, old(mem), mem)
      ensures Intact(old(layout), old(mem), layout, mem, 0)
    {
      hide BinIndex, Head, PrevSize, TagsOk, RingsOk, ChunkSize, LinkCell, Binned, Geometry, Intact, ClearLastRemainder,
        OnlyLinks, RemoveAt;
      ghost var a, m := layout, mem;
      BinChunk(a, LAST_REMAINDER, 0);
      TakenFacts(a, LAST_REMAINDER, 0);
      TakeLrStep(mem, a, {}, false);
      ghost var b, next := Take(a, LAST_REMAINDER, 0), a.Next(x);
      assert {} + {next} == {next};
      ClearLrStep(mem, b, {next}, true);
      layout := b;
      mem := ClearLastRemainder(mem);
      IntactLinks(a, m, mem, b, 0);
    }

    /** The last remainder is too small: it goes to its bin. */
    method DemoteLastRemainder(x: int)
      requires Working({}, false) && layout.bins[LAST_REMAINDER] == [x] && x in layout.chunks
      modifies this`mem, this`layout, this`binblocks
      ensures Working({}, false) && layout.bins[LAST_REMAINDER] == []
      ensures layout.chunks == old(layout).chunks && layout.top == old(layout).top
      ensures layout.base == old(layout).base && layout.end == old(layout).end
      ensures Intact(old(layout), old(mem), layout, mem, 0)
    {
      hide BinIndex, Head, PrevSize, TagsOk, RingsOk, ChunkSize, LinkCell, Binned, Geometry, Intact, RightBit,
        OnlyLinks;
      ghost var a, m, next := layout, mem, layout.Next(x);
      BinnedSize({}, false, LAST_REMAINDER, 0);
      var size := ChunkSize(Head(mem, x));
      BinChunk(a, LAST_REMAINDER, 0);
      FreeTags(mem, a, x);
      TakenFacts(a, LAST_REMAINDER, 0);
      ClearSlot(x);
      ghost var b, m1 := layout, mem;
      TagsUntouchedOf(b, m, m1, x);
      HeldEnclosed(b, x, next);
      ghost var k := FrontLink(x, size, {next});
      IntactLinks(b, m1, mem, layout, x);
      IntactTrans(a, m, b, m1, layout, mem, 0, x);
      TagsUntouchedOf(layout, m1, mem, x);
      assert {next} + {x, next} == {x, next};
      DemotedTrust(mem, layout, x, next);
    }

    /** last(bin), last(bin)->bk, ...: the first chunk, from the small end, of at least nb. */
    method ScanBin(i: int, nb: int) returns (x: int, ghost k: int)
      requires Working({}, false) && 2 <= i < NAV
      ensures x == Bin(i) ==> forall l :: 0 <= l < |layout.bins[i]| ==> SizeAt(layout, i, l) < nb
      ensures x != Bin(i) ==> 0 <= k < |layout.bins[i]| && layout.bins[i][k] == x && x in layout.chunks
      ensures x != Bin(i) ==> nb <= layout.chunks[x].size && ChunkSize(Head(mem, x)) == layout.chunks[x].size
      ensures x != Bin(i) ==> forall l :: k < l < |layout.bins[i]| ==> SizeAt(layout, i, l) < nb
    {
      hide BinIndex, Head, TagsOk, Binned, Geometry, ChunkSize, Bin, Eight;
      ghost var bins := layout.bins;
      assert Ring(mem, Bin(i), bins[i]);
      BinNodes(layout, i);
      x := Bk(mem, Bin(i));
      k := |bins[i]| - 1;
      while x != Bin(i)
        invariant -1 <= k < |bins[i]| && x == Before(Bin(i), bins[i], k + 1)
        invariant forall l :: k < l < |bins[i]| ==> SizeAt(layout, i, l) < nb
        decreases k
      {
        BinnedSize({}, false, i, k);
        if nb <= ChunkSize(Head(mem, x)) {
          return;
        }
        x := Bk(mem, x);
        k := k - 1;
      }
    }

    /** first(bin) == bin exactly when the bin is empty. */
    lemma EmptyBin(i: int)
      requires Working({}, false) && 1 <= i < NAV
      ensures Fd(mem, Bin(i)) == Bin(i) <==> layout.bins[i] == []
    {
      hide BinIndex, Fd, TagsOk, Binned, Geometry, Bin, Eight;
      BinNodes(layout, i);
      assert Ring(mem, Bin(i), layout.bins[i]);
    }

    /** Bins start .. 4 * block + 4 are empty: clear the block's bit exactly if the rest of it is too. */
    method ClearBlock(start: int, block: int)
      requires Working({}, false) && 1 <= block < BLOCKS
      requires BINBLOCKWIDTH * block <= start < BINBLOCKWIDTH * block + BINBLOCKWIDTH
      requires EmptyBins(layout, start, BINBLOCKWIDTH * block + BINBLOCKWIDTH)
      modifies this`binblocks, this`layout
      ensures layout == old(layout).(blocks := binblocks) && Working({}, false)
      ensures binblocks == if BlockEmpty(layout, block) then old(binblocks) - {block} else old(binblocks)
    {
      hide BinIndex, TagsOk, RingsOk, BinsOk, Complete, Geometry;
      var startidx := start;
      var done := false;
      while !done
        invariant BINBLOCKWIDTH * block <= startidx <= start
        invariant !done ==> layout == old(layout) && binblocks == old(binblocks)
        invariant !done ==> EmptyBins(layout, startidx, BINBLOCKWIDTH * block + BINBLOCKWIDTH)
        invariant layout == old(layout).(blocks := binblocks) && Working({}, false)
        invariant done ==> binblocks == if BlockEmpty(layout, block) then old(binblocks) - {block} else old(binblocks)
        invariant top == old(top) && mem == old(mem)
        decreases !done, startidx
      {
        if startidx % BINBLOCKWIDTH == 0 {
          Unmark(mem, layout, block);
          binblocks := binblocks - {block};
          layout := layout.(blocks := binblocks);
          done := true;
        } else {
          startidx := startidx - 1;
          EmptyBin(startidx);
          done := Fd(mem, Bin(startidx)) != Bin(startidx);
        }
      }
    }

    /** The bitmap-guided search for the smallest binned chunk of at least nb bytes, from bin
        first on. Blocks found empty on the way are unmarked. */
    method Scan(first: int, nb: int) returns (x: int, ghost i: int, ghost k: int)
      requires Working({}, false) && BINBLOCKWIDTH <= first < NAV
      requires Candidates(layout, first, nb)
      modifies this`binblocks, this`layout
      ensures layout == old(layout).(blocks := binblocks) && Working({}, false)
      ensures binblocks <= old(binblocks)
      ensures Pruned(old(binblocks), layout, first / BINBLOCKWIDTH, if x == 0 then BLOCKS else i / BINBLOCKWIDTH)
      ensures x == 0 ==> EmptyBins(layout, first, NAV)
      ensures x != 0 ==> first <= i < NAV && 0 <= k < |layout.bins[i]| && layout.bins[i][k] == x
      ensures x != 0 ==> x in layout.chunks && nb <= layout.chunks[x].size
      ensures x != 0 ==> EmptyBins(layout, first, i)
      ensures x != 0 ==> forall l :: k < l < |layout.bins[i]| ==> SizeAt(layout, i, l) < nb
    {
      hide BinIndex, TagsOk, RingsOk, BinsOk, Complete, Geometry, Rd, Pruned, BlockEmpty, EmptyBins;
      x, i, k := 0, 0, 0;
      PrunedStart(layout, first / BINBLOCKWIDTH);
      EmptyParts(layout, first, first, first);
      var idx := first;
      var block := idx / BINBLOCKWIDTH;
      if !exists b :: b in binblocks && block <= b {    // (block = idx2binblock(idx)) <= binblocks
        NoneAbove(layout, first, first, block);
        PrunedSkip(binblocks, layout, first / BINBLOCKWIDTH, block, BLOCKS);
        return;
      }
      if block !in binblocks {
        idx := idx - idx % BINBLOCKWIDTH + BINBLOCKWIDTH;
        block := block + 1;
        UnmarkedRest(layout, first);
        idx, block := NextBlock(first, idx, block);
        PrunedSkip(binblocks, layout, first / BINBLOCKWIDTH, first / BINBLOCKWIDTH, block);
      }
      while true
        invariant Working({}, false) && layout == old(layout).(blocks := binblocks)
        invariant binblocks <= old(binblocks)
        invariant first <= idx < NAV && 1 <= block < BLOCKS && block == idx / BINBLOCKWIDTH
        invariant EmptyBins(layout, first, idx)
        invariant Pruned(old(binblocks), layout, first / BINBLOCKWIDTH, block)
        decreases BLOCKS - block
      {
        var startidx := idx;
        idx, x, k := ScanBlock(first, startidx, nb);
        i := idx;
        if x != 0 {
          return;
        }
        ghost var before := layout;
        EmptyParts(layout, first, startidx, idx);
        ClearBlock(startidx, block);
        EmptySame(before, layout, first, idx);
        PrunedCleared(old(binblocks), before, layout, first / BINBLOCKWIDTH, block);
        block := block + 1;
        if !exists b :: b in binblocks && block <= b {
          NoneAbove(layout, first, idx, block);
          PrunedSkip(old(binblocks), layout, first / BINBLOCKWIDTH, block, BLOCKS);
          return;
        }
        ghost var cleared := block;
        idx, block := NextBlock(first, idx, block);
        PrunedSkip(old(binblocks), layout, first / BINBLOCKWIDTH, cleared, block);
      }
    }

    /** The bins of one block, from start up. */
    method ScanBlock(ghost first: int, start: int, nb: int) returns (idx: int, x: int, ghost k: int)
      requires Working({}, false) && BINBLOCKWIDTH <= first <= start < NAV
      requires Candidates(layout, first, nb) && EmptyBins(layout, first, start)
      ensures x == 0 ==> idx == BINBLOCKWIDTH * (start / BINBLOCKWIDTH) + BINBLOCKWIDTH
      ensures x == 0 ==> EmptyBins(layout, first, idx)
      ensures x != 0 ==> start <= idx < NAV && idx / BINBLOCKWIDTH == start / BINBLOCKWIDTH
      ensures x != 0 ==> 0 <= k < |layout.bins[idx]| && layout.bins[idx][k] == x
      ensures x != 0 ==> x in layout.chunks && nb <= layout.chunks[x].size && EmptyBins(layout, first, idx)
      ensures x != 0 ==> forall l :: k < l < |layout.bins[idx]| ==> SizeAt(layout, idx, l) < nb
    {
      hide BinIndex, TagsOk, RingsOk, Binned, Geometry, Rd;
      idx := start;
      while true
        invariant start <= idx < NAV && idx / BINBLOCKWIDTH == start / BINBLOCKWIDTH
        invariant EmptyBins(layout, first, idx)
        decreases NAV - idx
      {
        x, k := ScanBin(idx, nb);
        if x != Bin(idx) {
          ChunkPositive(layout, x);
          return;
        }
        idx := idx + 1;
        if idx % BINBLOCKWIDTH == 0 {
          x := 0;
          return;
        }
      }
    }

    /** Skip the unmarked blocks. */
    method NextBlock(ghost first: int, idx0: int, block0: int) returns (idx: int, block: int)
      requires Working({}, false) && 2 <= first && 1 <= block0 && idx0 == BINBLOCKWIDTH * block0
      requires EmptyBins(layout, first, idx0)
      requires exists b :: b in binblocks && block0 <= b
      ensures block in binblocks && block0 <= block < BLOCKS && idx == BINBLOCKWIDTH * block
      ensures EmptyBins(layout, first, idx)
      ensures forall b :: block0 <= b < block ==> b !in binblocks
    {
      hide BinIndex, TagsOk, RingsOk, BinsOk, Complete, Geometry;
      idx, block := idx0, block0;
      ghost var b :| b in binblocks && block0 <= b;
      while block !in binblocks
        invariant idx == BINBLOCKWIDTH * block && block0 <= block <= b
        invariant EmptyBins(layout, first, idx)
        invariant forall b :: block0 <= b < block ==> b !in binblocks
        decreases b - block
      {
        assert forall j :: idx <= j < idx + BINBLOCKWIDTH && j < NAV && 2 <= j ==>
          (layout.bins[j] != [] ==> j / BINBLOCKWIDTH in layout.blocks);
        idx := idx + BINBLOCKWIDTH;
        block := block + 1;
      }
    }

    /** The end of malloc: carve the block off the low end of top. */
    method UseTop(nb: int)
      requires Working({}, false) && top == layout.top
      requires nb % 8 == 0 && MINSIZE <= nb && layout.top + nb + MINSIZE <= layout.end
      modifies this`mem, this`layout, this`top
      ensures layout == Carve(old(layout), nb) && Working({}, false) && top == layout.top
      ensures Intact(old(layout), old(mem), layout, mem, 0) && !old(layout).Used(old(top))
    {
      hide BinIndex, Head, TagsOk, RingsOk, ChunkSize, Binned, Intact, SetHead, Tag;
      ghost var a, m, b := layout, mem, Carve(layout, nb);
      TopSize(mem, a);
      var rest := ChunkSize(Head(mem, top)) - nb;
      var victim := top;
      CarveFacts(mem, a, nb);
      assert Intact(a, m, b, m, 0) by { IntactCarve(a, m, nb); }
      layout := b;

      SetHeadStep(mem, b, {victim, b.top}, false, victim, Tag(nb, true), true);
      IntactHead(b, mem, victim, Tag(nb, true), victim);
      IntactTrans(a, m, b, mem, b, SetHead(mem, victim, Tag(nb, true)), 0, victim);
      mem := SetHead(mem, victim, Tag(nb, true));

      top := victim + nb;
      SetHeadStep(mem, b, {victim, b.top} - {victim}, false, top, Tag(rest, true), true);
      IntactHead(b, mem, top, Tag(rest, true), victim);
      IntactTrans(a, m, b, mem, b, SetHead(mem, top, Tag(rest, true)), 0, victim);
      mem := SetHead(mem, top, Tag(rest, true));
      assert {victim, b.top} - {victim} - {b.top} == {};
    }

    /** malloc_extend_top. MORECORE is contiguous: the first call returns brk, every later one
        the old end of the arena; it fails when granted is false or the address space is full. */
    method ExtendTop(nb: int, brk: int, granted: bool)
      requires Valid() && nb % 8 == 0 && MINSIZE <= nb < LIMIT && AV_END <= brk
      modifies this`mem, this`layout, this`top, this`sbrkBase, this`sbrkedMem
      ensures Valid() && Intact(old(layout), old(mem), layout, mem, 0)
      ensures layout.chunks == old(layout).chunks && layout.bins == old(layout).bins
      ensures layout.blocks == old(layout).blocks
      ensures old(sbrkBase) != -1 ==> sbrkBase == old(sbrkBase) && layout.top == old(layout).top
      ensures if granted && ExtentAfter(old(sbrkBase) == -1, brk, old(layout).end, nb) <= LIMIT
              then sbrkBase != -1 && HasRoom(nb)
                && layout.end == ExtentAfter(old(sbrkBase) == -1, brk, old(layout).end, nb)
              else layout == old(layout) && sbrkBase == old(sbrkBase)
    {
      hide Working, Intact, SbrkSize;
      ExtentFirst(brk, sbrkBase + sbrkedMem, layout.end, nb);
      if !granted || ExtentAfter(sbrkBase == -1, brk, sbrkBase + sbrkedMem, nb) > LIMIT {
        assert Intact(layout, mem, layout, mem, 0) by { IntactSelf(layout, mem); }
      } else if sbrkBase != -1 {
        GrowArena(nb);
      } else {
        StartArena(nb, brk);
      }
    }

    /** brk == old_end: just add bytes to the current top. */
    method GrowArena(nb: int)
      requires Valid() && nb % 8 == 0 && MINSIZE <= nb < LIMIT && sbrkBase != -1
      requires ExtentAfter(false, 0, layout.end, nb) <= LIMIT
      modifies this`mem, this`layout, this`sbrkedMem
      ensures Valid() && Intact(old(layout), old(mem), layout, mem, 0)
      ensures layout == Grow(old(layout), SbrkSize(false, nb)) && HasRoom(nb)
    {
      hide SbrkSize, BinIndex, Head, TagsOk, RingsOk, ChunkSize, Binned, Intact, SetHead, Tag;
      ghost var a, m := layout, mem;
      var sbrkSize := SbrkSize(false, nb);
      TopSize(mem, a);
      var topSize := ChunkSize(Head(mem, top));
      sbrkedMem := sbrkedMem + sbrkSize;
      topSize := sbrkSize + topSize;
      GrowSize(nb, a.end);
      GrowStep(mem, a, {}, false, sbrkSize);
      layout := Grow(a, sbrkSize);
      TopEnclosed(layout);
      assert Intact(a, m, layout, mem, 0) by { IntactGrow(a, m, sbrkSize); }
      SetHeadStep(mem, layout, {} + {a.top}, false, top, Tag(topSize, true), true);
      IntactHead(layout, mem, top, Tag(topSize, true), 0);
      IntactTrans(a, m, layout, mem, layout, SetHead(mem, top, Tag(topSize, true)), 0, 0);
      mem := SetHead(mem, top, Tag(topSize, true));
      assert {} + {a.top} - {a.top} == {};
    }

    /** The first time through: record the base, align the first chunk, end on a page. */
    method StartArena(nb: int, brk: int)
      requires Valid() && nb % 8 == 0 && MINSIZE <= nb < LIMIT && sbrkBase == -1 && AV_END <= brk
      requires ExtentAfter(true, brk, 0, nb) <= LIMIT
      modifies this`mem, this`layout, this`top, this`sbrkBase, this`sbrkedMem
      ensures Valid() && Intact(old(layout), old(mem), layout, mem, 0)
      ensures layout.chunks == map[] && layout.bins == old(layout).bins && layout.blocks == {}
      ensures sbrkBase == brk && HasRoom(nb) && layout.end == ExtentAfter(true, brk, 0, nb)
      ensures brk <= layout.base < brk + 8
    {
      hide Inv, Rep, Intact, Head;
      var sbrkSize := SbrkSize(true, nb);
      var misalign := (brk + 2 * SIZE_SZ) % 8;
      var start := if misalign > 0 then brk + (8 - misalign) else brk;
      var correction := (start - brk) + PAGE - (start + sbrkSize) % PAGE;
      FirstArena(brk, start, sbrkSize, correction);
      sbrkBase := brk;
      sbrkedMem := sbrkSize + correction;
      var newBrk := brk + sbrkSize;
      PlaceTop(start, newBrk - start + correction);
    }

    /** All that was obtained becomes top. */
    method PlaceTop(start: int, topSize: int)
      requires Working({}, false) && layout == Fresh()
      requires AV_END <= start && 0 < topSize && start % 8 == 0 && (start + topSize) % 8 == 0
      modifies this`mem, this`layout, this`top
      ensures Working({}, false) && Intact(old(layout), old(mem), layout, mem, 0)
      ensures layout == Arena(start, start + topSize) && top == start
    {
      hide BinIndex, Head, TagsOk, RingsOk, ChunkSize, Binned, Intact, SetHead, Tag;
      ghost var a, m := layout, mem;
      top := start;
      layout := Arena(start, start + topSize);
      ArenaOk(mem, start, start + topSize);
      SetHeadStep(mem, layout, {start}, false, top, Tag(topSize, true), true);
      mem := SetHead(mem, top, Tag(topSize, true));
      assert {start} - {start} == {};
      assert Intact(a, m, layout, mem, 0) by { IntactEmpty(a, m, layout, mem); }
    }

    /** The first extension broke off between its two system calls: a base and a count, but no arena. */
    ghost predicate Stalled()
      reads this
    {
      && Working({}, false) && layout == Fresh() && top == AV && Head(mem, AV) == 0
      && AV_END <= sbrkBase && 0 <= sbrkedMem
    }

    /** The second call fails: what the first one gave is counted, top stays empty, and malloc fails. */
    method StallArena(nb: int, brk: int)
      requires Valid() && nb % 8 == 0 && MINSIZE <= nb < LIMIT && sbrkBase == -1 && AV_END <= brk
      modifies this`sbrkBase, this`sbrkedMem
      ensures Stalled() && sbrkBase == brk && sbrkedMem == SbrkSize(true, nb) && !Valid()
      ensures ChunkSize(Head(mem, top)) - nb < MINSIZE
    {
      hide Inv, Rep, Head;
      sbrkBase := brk;
      sbrkedMem := SbrkSize(true, nb);
    }

    /**
     * The next extension takes the memory it gets for that of somebody else, far above the empty top: the heap works
     * from then on, but its count of bytes is too large by all addresses below that memory.
     */
    method RestartArena(nb: int)
      requires Stalled() && nb % 8 == 0 && MINSIZE <= nb < LIMIT
      modifies this`mem, this`layout, this`top, this`sbrkedMem
      ensures Working({}, false) && top == layout.top && layout.chunks == map[] && HasRoom(nb)
      ensures layout.end % PAGE == 0 && old(sbrkBase + sbrkedMem) <= layout.base < old(sbrkBase + sbrkedMem) + 8
      ensures sbrkBase + sbrkedMem == layout.end + (old(sbrkBase + sbrkedMem) - AV)
      ensures layout.end < sbrkBase + sbrkedMem && !Valid()
    {
      hide Inv, Rep, Intact, Head, SbrkSize;
      var brk := sbrkBase + sbrkedMem;
      var sbrkSize := SbrkSize(false, nb);
      GrowSize(nb, 0);
      sbrkedMem := sbrkedMem + sbrkSize;
      sbrkedMem := sbrkedMem + (brk - AV);
      var misalign := (brk + 2 * SIZE_SZ) % 8;
      var start := if misalign > 0 then brk + (8 - misalign) else brk;
      var correction := (start - brk) + PAGE - (start + sbrkSize) % PAGE;
      FirstArena(brk, start, sbrkSize, correction);
      sbrkedMem := sbrkedMem + correction;
      PlaceTop(start, brk + sbrkSize - start + correction);
    }

    ghost predicate HasRoom(nb: int)
      reads this
    {
      layout.top + nb + MINSIZE <= layout.end
    }

    /** The first step of malloc: the exact-fit bins. */
    method ExactFit(nb: int) returns (x: int, idx: int, ghost i: int, ghost k: int)
      requires Working({}, false) && MINSIZE <= nb && nb % 8 == 0
      ensures x != 0 ==> 2 <= i < NAV && 0 <= k < |layout.bins[i]| && layout.bins[i][k] == x
      ensures x != 0 ==> BestFit(layout, x, nb) && layout.chunks[x].size < nb + MINSIZE
      ensures x != 0 ==> i != LAST_REMAINDER && !NoExactFit(layout, nb)
      ensures x == 0 ==> NoExactFit(layout, nb) && ScanFrom(layout, idx, nb)
    {
      hide BinIndex, TagsOk, RingsOk, Head, Binned, Geometry, ChunkSize, Fd, Bk;
      BinIndexRange(nb);
      if nb < SMALL_LIMIT {
        x, idx, i, k := SmallExactFit(nb);
      } else {
        x, idx, i, k := LargeExactFit(nb);
      }
    }

    /** No traversal or size check is needed in a small bin; the next one is tried as well,
        since its remainder would be too small to be a chunk. */
    method SmallExactFit(nb: int) returns (x: int, idx: int, ghost i: int, ghost k: int)
      requires Working({}, false) && MINSIZE <= nb < SMALL_LIMIT && nb % 8 == 0
      ensures x != 0 ==> 2 <= i < NAV && 0 <= k < |layout.bins[i]| && layout.bins[i][k] == x
      ensures x != 0 ==> BestFit(layout, x, nb) && layout.chunks[x].size < nb + MINSIZE
      ensures x != 0 ==> i != LAST_REMAINDER && !NoExactFit(layout, nb)
      ensures x == 0 ==> NoExactFit(layout, nb) && ScanFrom(layout, idx, nb)
    {
      hide BinIndex, TagsOk, RingsOk, Head, Binned, Geometry, ChunkSize, Fd, Bk, Rd, Bin;
      idx := nb / 8;
      var q := Bin(idx);
      LastOf(idx);
      LastOf(idx + 1);
      x := Bk(mem, q);
      i := idx;
      if x == q {
        q := Bin(idx + 1);
        x := Bk(mem, q);
        i := idx + 1;
      }
      k := |layout.bins[i]| - 1;
      if x != q {
        SmallIsBest(layout, nb, i, k);
        ExactFitThere(layout, nb, i, k);
        return;
      }
      idx := idx + 2;
      x := 0;
      SmallIsEmpty(layout, nb);
    }

    /** last(bin) is the bin itself when the bin is empty, else its last chunk. */
    lemma LastOf(i: int)
      requires Working({}, false) && 1 <= i < NAV
      ensures layout.bins[i] == [] ==> Bk(mem, Bin(i)) == Bin(i)
      ensures layout.bins[i] != [] ==> Bk(mem, Bin(i)) == layout.bins[i][|layout.bins[i]| - 1]
      ensures layout.bins[i] != [] ==> Bk(mem, Bin(i)) != Bin(i) && Bk(mem, Bin(i)) in layout.chunks
      ensures layout.bins[i] != [] ==> 0 < Bk(mem, Bin(i))
    {
      hide BinIndex, Bk, TagsOk, Binned, Geometry, Bin, Eight;
      BinNodes(layout, i);
      assert Ring(mem, Bin(i), layout.bins[i]);
      if layout.bins[i] != [] {
        BinChunk(layout, i, |layout.bins[i]| - 1);
        ChunkPositive(layout, layout.bins[i][|layout.bins[i]| - 1]);
      }
    }

    /** The chunks of a large bin are tried from the smallest up. */
    method LargeExactFit(nb: int) returns (x: int, idx: int, ghost i: int, ghost k: int)
      requires Working({}, false) && SMALL_LIMIT <= nb && nb % 8 == 0
      ensures x != 0 ==> 2 <= i < NAV && 0 <= k < |layout.bins[i]| && layout.bins[i][k] == x
      ensures x != 0 ==> BestFit(layout, x, nb) && layout.chunks[x].size < nb + MINSIZE
      ensures x != 0 ==> i != LAST_REMAINDER && !NoExactFit(layout, nb)
      ensures x == 0 ==> NoExactFit(layout, nb) && ScanFrom(layout, idx, nb)
    {
      hide BinIndex, TagsOk, Head, Binned, Geometry, ChunkSize, Bin, Eight;
      BinIndexRange(nb);
      idx := BinIndex(nb);
      i := idx;
      var bin := Bin(idx);
      ghost var s := layout.bins[i];
      assert Ring(mem, bin, s);
      BinNodes(layout, i);
      x := Bk(mem, bin);
      k := |s| - 1;
      while x != bin
        invariant -1 <= k < |s| && x == Before(bin, s, k + 1)
        invariant forall l :: k < l < |s| ==> SizeAt(layout, i, l) < nb
        decreases k
      {
        BinnedSize({}, false, i, k);
        var rest := ChunkSize(Head(mem, x)) - nb;
        if rest >= MINSIZE {          // too big: rescan this bin after the last remainder
          LargeTooBig(layout, nb, k);
          x := 0;
          return;
        } else if rest >= 0 {         // exact fit
          LargeIsBest(layout, nb, k);
          ExactFitThere(layout, nb, i, k);
          ChunkPositive(layout, x);
          return;
        }
        x := Bk(mem, x);
        k := k - 1;
      }
      LargeNone(layout, nb);
      idx := idx + 1;
      x := 0;
    }

    /** The second step of malloc: the most recently split-off remainder. */
    method FromLastRemainder(nb: int) returns (p: int)
      requires Working({}, false) && MINSIZE <= nb && nb % 8 == 0
      modifies this`mem, this`layout, this`binblocks
      ensures Working({}, false) && Intact(old(layout), old(mem), layout, mem, 0)
      ensures SameArena(old(layout), layout)
      ensures p != 0 ==> Allocated(old(layout), layout, p, nb) && old(layout).Free(p)
      ensures p != 0 ==> p in old(layout).bins[LAST_REMAINDER] && nb <= old(layout).chunks[p].size
      ensures p != 0 ==> Remains(old(layout), layout, p, nb)
      ensures p == 0 ==> layout.bins[LAST_REMAINDER] == [] && layout.chunks == old(layout).chunks
      ensures p == 0 ==> forall z :: z in old(layout).bins[LAST_REMAINDER] ==> SizeOf(old(layout), z) < nb
      ensures p == 0 && old(layout).bins[LAST_REMAINDER] == [] ==> layout == old(layout) && mem == old(mem)
    {
      hide BinIndex, TagsOk, RingsOk, Head, Geometry, Intact, ChunkSize, Fd;
      ghost var a, m := layout, mem;
      EmptyBin(LAST_REMAINDER);
      FirstOf(LAST_REMAINDER);
      p := Fd(mem, Bin(LAST_REMAINDER));
      if p == Bin(LAST_REMAINDER) {
        p := 0;
        assert Intact(a, m, layout, mem, 0) by { IntactSelf(a, m); }
        return;
      }
      assert a.bins[LAST_REMAINDER] == [p];
      BinnedSize({}, false, LAST_REMAINDER, 0);
      ChunkSizes(a, p);
      ChunkPositive(a, p);
      var size := ChunkSize(Head(mem, p));
      var rest := size - nb;
      if rest >= MINSIZE {
        ResplitLastRemainder(p, nb, rest);
        AllocatedSplit(a, LAST_REMAINDER, 0, nb);
      } else if rest >= 0 {
        ExhaustLastRemainder(p);
        AllocatedWhole(a, LAST_REMAINDER, 0, nb);
      } else {
        DemoteLastRemainder(p);
        p := 0;
      }
    }

    lemma FirstOf(i: int)
      requires Working({}, false) && 1 <= i < NAV
      ensures layout.bins[i] != [] ==> Fd(mem, Bin(i)) == layout.bins[i][0] && layout.bins[i][0] in layout.chunks
    {
      hide BinIndex, Fd, TagsOk, Binned, Geometry, Bin;
      if layout.bins[i] != [] {
        BinChunk(layout, i, 0);
      }
      assert Ring(mem, Bin(i), layout.bins[i]);
    }

    /** The third step of malloc: best fit in the bins. */
    method FromBins(first: int, nb: int) returns (p: int)
      requires Working({}, false) && layout.bins[LAST_REMAINDER] == []
      requires ScanFrom(layout, first, nb) && MINSIZE <= nb && nb % 8 == 0
      modifies this`mem, this`layout, this`binblocks
      ensures Working({}, false) && Intact(old(layout), old(mem), layout, mem, 0)
      ensures SameArena(old(layout), layout)
      ensures p != 0 ==> Allocated(old(layout), layout, p, nb) && BestFit(old(layout), p, nb)
      ensures p != 0 ==> Remains(old(layout), layout, p, nb)
      ensures p == 0 ==> NothingFits(old(layout), nb)
      ensures p == 0 ==> layout == old(layout).(blocks := layout.blocks) && mem == old(mem)
      ensures old(layout).blocks == {} && p == 0 ==> layout == old(layout)
    {
      hide BinIndex, TagsOk, RingsOk, Head, Geometry, Intact, ChunkSize;
      ghost var a, m := layout, mem;
      ScanCandidates(layout, first, nb);
      ghost var i, k;
      p, i, k := Scan(first, nb);
      assert Intact(a, m, layout, mem, 0) by { IntactSelf(a, m); IntactBlocks(a, m, binblocks); }
      ghost var b := layout;
      if p != 0 {
        assert forall l :: 0 <= l < |a.bins[i]| ==> SizeAt(a, i, l) == SizeAt(b, i, l);
        ScanIsBestFit(a, first, nb, i, k);
        BinnedSize({}, false, i, k);
        var size := ChunkSize(Head(mem, p));
        var rest := size - nb;
        ChunkSizes(a, p);
        if rest >= MINSIZE {
          SplitBinned(p, nb, rest, i, k);
          AllocatedSplit(b, i, k, nb);
        } else {
          TakeWhole(p, i, k);
          AllocatedWhole(b, i, k, nb);
        }
        IntactTrans(a, m, b, m, layout, mem, 0, 0);
      } else {
        ScanFoundNothing(a, first, nb);
      }
    }

    /** The last step of malloc: top, extended if need be. */
    method FromTop(nb: int, brk: int, granted: bool) returns (p: int)
      requires Valid() && MINSIZE <= nb < LIMIT && nb % 8 == 0 && AV_END <= brk
      modifies this
      ensures Valid() && Intact(old(layout), old(mem), layout, mem, 0)
      ensures p != 0 ==> Allocated(old(layout), layout, p, nb) && p !in old(layout).chunks
      ensures layout.bins == old(layout).bins
      ensures old(sbrkBase) != -1 && old(HasRoom(nb)) ==> p == old(layout).top && layout.end == old(layout).end
      ensures p != 0 && !(old(sbrkBase) != -1 && old(HasRoom(nb))) ==>
        layout.end == ExtentAfter(old(sbrkBase) == -1, brk, old(layout).end, nb)
      ensures p == 0 ==> layout.end == old(layout).end
      ensures p == 0 ==> layout.chunks == old(layout).chunks && !(sbrkBase != -1 && HasRoom(nb))
      ensures p == 0 <==> NoMemory(old(layout), old(sbrkBase) != -1, nb, brk, granted)
      ensures old(sbrkBase) != -1 ==> sbrkBase == old(sbrkBase)
    {
      hide BinIndex, TagsOk, RingsOk, Head, Binned, Geometry, Intact, ChunkSize, ExtentAfter;
      ghost var a, m := layout, mem;
      assert Intact(a, m, layout, mem, 0) by { IntactSelf(a, m); }
      TopSizeNow();
      if ChunkSize(Head(mem, top)) - nb < MINSIZE {
        ExtendTop(nb, brk, granted);
        TopSizeNow();
        if ChunkSize(Head(mem, top)) - nb < MINSIZE {
          p := 0;
          return;
        }
      }
      ghost var b, m1 := layout, mem;
      p := top;
      TopPositive(layout);
      AllocatedCarve(mem, b, nb);
      UseTop(nb);
      IntactTrans(a, m, b, m1, layout, mem, 0, 0);
    }

    /** chunksize(top), which reads an empty word before the first extension. */
    lemma TopSizeNow()
      requires Valid()
      ensures ChunkSize(Head(mem, top)) == if sbrkBase == -1 then 0 else layout.end - layout.top
    {
      hide BinIndex, TagsOk, RingsOk, Head, Binned, Geometry;
      if sbrkBase != -1 {
        TopSize(mem, layout);
      }
    }

    /** malloc(bytes): brk and granted say what the system's memory calls would answer. */
    method Malloc(bytes: int, brk: int, granted: bool) returns (r: int)
      requires Valid() && 0 <= bytes < WORD && AV_END <= brk
      modifies this
      ensures Valid() && Intact(old(layout), old(mem), layout, mem, 0)
      ensures r != 0 ==> Allocated(old(layout), layout, r - 2 * SIZE_SZ, RequestToSize(bytes))
      ensures r != 0 ==> Chosen(old(layout), r - 2 * SIZE_SZ, RequestToSize(bytes))
      ensures r == 0 ==> forall q :: layout.Used(q) <==> old(layout).Used(q)
      ensures r == 0 <==> Exhausted(old(layout), old(sbrkBase) != -1, RequestToSize(bytes), brk, granted)
      ensures NoExactFit(old(layout), RequestToSize(bytes)) ==>
        if r != 0 then Remains(old(layout), layout, r - 2 * SIZE_SZ, RequestToSize(bytes))
        else |layout.bins| == NAV && layout.bins[LAST_REMAINDER] == []
      ensures !NoExactFit(old(layout), RequestToSize(bytes)) ==> SameRemainder(old(layout), layout)
      ensures old(sbrkBase) != -1 ==> sbrkBase == old(sbrkBase)
      ensures layout.end == EndAfter(old(layout), old(sbrkBase) != -1, RequestToSize(bytes), brk, r != 0)
    {
      hide BinIndex, TagsOk, RingsOk, Head, Binned, Geometry, Intact, ChunkSize, RequestToSize, ExtentAfter;
      hide BestFit, NoExactFit, ScanFrom, Fd, Bk, Allocated;
      RequestFits(bytes);
      var nb := RequestToSize(bytes);
      ghost var a, m := layout, mem;
      var p, idx;
      ghost var i, k;
      p, idx, i, k := ExactFit(nb);
      if p != 0 {
        BinChunk(a, i, k);
        BestFitSize(a, p, nb);
        TakeWhole(p, i, k);
        AllocatedWhole(a, i, k, nb);
        UsedPositive(layout, p);
        r := p + 2 * SIZE_SZ;
        return;
      }
      p := FromLastRemainder(nb);
      if p != 0 {
        AllocatedPositive(a, layout, p, nb);
        r := p + 2 * SIZE_SZ;
        return;
      }
      ghost var b, m1 := layout, mem;
      ScanFromDemoted(a, b, idx, nb);
      p := FromBins(idx, nb);
      ghost var c, m2 := layout, mem;
      IntactTrans(a, m, b, m1, c, m2, 0, 0);
      if p != 0 {
        AllocatedPositive(b, c, p, nb);
        BestFitSize(b, p, nb);
        ChosenByScan(a, b, p, nb);
        AllocatedFrom(a, b, c, p, nb);
        r := p + 2 * SIZE_SZ;
        return;
      }
      p := FromTop(nb, brk, granted);
      IntactTrans(a, m, c, m2, layout, mem, 0, 0);
      if p != 0 {
        AllocatedPositive(c, layout, p, nb);
        AllocatedFrom(a, c, layout, p, nb);
        r := p + 2 * SIZE_SZ;
      } else {
        r := 0;
      }
    }

    /** Consolidate backward: the chunk before p is free. */
    method JoinBack(p: int, sz: int) returns (p': int, sz': int, islr: bool)
      requires Inv(layout) && layout.Used(p) && layout.chunks[p].size == sz && layout.Next(p) in layout.chunks
      requires Rep(mem, layout, {layout.Next(p)}, false) && binblocks == layout.blocks
      requires Head(mem, layout.Next(p)) == Tag(layout.chunks[layout.Next(p)].size, false)
      requires !PrevInuse(Head(mem, p))
      modifies this`mem, this`layout
      ensures Releasing(mem, layout, p', sz', islr) && binblocks == layout.blocks
      ensures layout.Next(p') == old(layout).Next(p) && SameArena(old(layout), layout)
      ensures old(layout).Free(p') && layout.chunks[layout.Next(p')] == old(layout).chunks[layout.Next(p')]
      ensures Intact(old(layout), old(mem), layout, mem, p)
      ensures SameUsed(old(layout), layout, p, p')
      ensures islr <==> IsRemainder(old(layout), p')
      ensures !islr ==> SameRemainder(old(layout), layout)
      ensures p' < p && old(layout).Next(p') == p
    {
      hide BinIndex, Head, PrevSize, TagsOk, RingsOk, Ring, Intact, Unlink, PrevInuse, Tag, Fd, LinkCell, Complete,
        BlocksCover, Geometry, BinOk;
      ghost var a, m, next := layout, mem, layout.Next(p);
      SelfNotNext(a, p);
      ghost var q := PreviousFree(mem, a, false, p);
      var prevsz := PrevSize(mem, p);
      p' := p - prevsz;
      sz' := sz + prevsz;
      assert p' == q;
      IsLastRemainder(mem, a, {next}, q);
      ChunkSizes(a, q);
      ghost var i := HomeBin(a, q);
      ghost var k := IndexOf(a.bins[i], q);
      ghost var b := Take(a, i, k);
      TakeJoinFacts(a, i, k, p);
      if Fd(mem, p') == Bin(LAST_REMAINDER) {
        islr := true;
        TakeLrStep(mem, a, {next}, false);
        assert Ring(mem, Bin(LAST_REMAINDER), [q]) by { LrRing(mem, a, {next}); }
      } else {
        islr := false;
        TakeStep(mem, a, {next}, false, i, k);
        mem := Unlink(mem, p');
        HeadUnlinked(a, m, mem, next);
      }
      IntactLinks(a, m, mem, Join(b, q), p);
      JoinStep(mem, b, {next} + {p}, islr, q);
      layout := Join(b, q);
      ForgetStep(mem, layout, {next} + {p} + {q}, islr, p);
      StaleMore(mem, layout, {next} + {p} + {q} - {p}, {q, next}, islr);
    }

    /** Consolidate forward, if the chunk after p is free. */
    method JoinForward(p: int, sz: int, next: int, nextsz: int, lr: bool) returns (sz': int, islr: bool)
      requires Releasing(mem, layout, p, sz, lr) && binblocks == layout.blocks
      requires next == layout.Next(p) && next in layout.chunks && nextsz == layout.chunks[next].size
      modifies this`mem, this`layout
      ensures Releasing(mem, layout, p, sz', islr) && binblocks == layout.blocks
      ensures layout.Used(layout.Next(p)) && SameArena(old(layout), layout)
      ensures Intact(old(layout), old(mem), layout, mem, p)
      ensures SameUsed(old(layout), layout, p, p)
      ensures islr <==> lr || IsRemainder(old(layout), next)
      ensures !islr ==> SameRemainder(old(layout), layout)
      ensures sz <= sz'
    {
      hide BinIndex, Head, PrevSize, TagsOk, RingsOk, Ring, Intact, Unlink, PrevInuse, Tag, Fd, LinkCell, Complete,
        BlocksCover, Geometry, LinkLastRemainder, Binned;
      ghost var a, m := layout, mem;
      sz', islr := sz, lr;
      ghost var next2 := next + nextsz;
      NextBit(mem, a, lr, p);
      if PrevInuse(Head(mem, next + nextsz)) {
        assert Intact(a, m, layout, mem, p) by { IntactLinks(a, m, mem, a, p); }
        assert !IsRemainder(a, next) by { NotRemainder(a, next); }
        return;
      }
      ChunkSizes(a, next);
      sz' := sz + nextsz;
      ghost var i := HomeBin(a, next);
      ghost var k := IndexOf(a.bins[i], next);
      ghost var b := Take(a, i, k);
      ghost var c := Join(b, p);
      TakeJoinForwardFacts(a, i, k, p, true);
      FreeNext(a, next);
      if !lr {
        IsLastRemainder(mem, a, {p, next}, next);
      }
      if !lr && Fd(mem, next) == Bin(LAST_REMAINDER) {
        islr := true;
        TakeLrStep(mem, a, {p, next}, false);
        JoinStep(mem, b, {p, next} + {next2}, true, p);
        layout := c;
        LinkLrHeldStep(mem, c, {p, next} + {next2} + {p}, p);
        mem := LinkLastRemainder(mem, p);
        assert Fits(c, p, LAST_REMAINDER, 0) && Enclosed(c, p);
        PutKeeps(c, p, LAST_REMAINDER, 0);
        HeadUnlinked(Put(c, p, LAST_REMAINDER, 0), m, mem, next2);
        IntactLinks(a, m, mem, Put(c, p, LAST_REMAINDER, 0), p);
        IntactVia(a, m, Put(c, p, LAST_REMAINDER, 0), c, mem, p);
      } else {
        TakeStep(mem, a, {p, next}, lr, i, k);
        if lr {
          UnlinkKeepsSlot(mem, a, {p, next}, i, k, p);
        }
        mem := Unlink(mem, next);
        HeadUnlinked(a, m, mem, next2);
        IntactLinks(a, m, mem, c, p);
        JoinStep(mem, b, {p, next} + {next2}, lr, p);
        layout := c;
      }
      ForgetStep(mem, layout, {p, next} + {next2} + {p}, islr, next);
      StaleMore(mem, layout, {p, next} + {next2} + {p} - {next}, {p, next2}, islr);
    }

    /** Write the tags of the consolidated chunk, and put it in a bin unless it is already in
        the last_remainder slot. */
    method FinishFree(p: int, sz: int, islr: bool)
      requires Releasing(mem, layout, p, sz, islr) && binblocks == layout.blocks
      requires layout.Used(layout.Next(p))
      modifies this`mem, this`layout, this`binblocks
      ensures Working({}, false) && SameArena(old(layout), layout)
      ensures Intact(old(layout), old(mem), layout, mem, p)
      ensures if islr then IsRemainder(layout, p) else SameRemainder(old(layout), layout)
      ensures SizeOf(layout, p) == sz
      ensures forall q :: layout.Used(q) <==> old(layout).Used(q) && q != p
    {
      hide BinIndex, Head, PrevSize, TagsOk, RingsOk, Ring, Intact, PrevInuse, Tag, LinkCell, Binned, Geometry;
      ghost var a, m, next := layout, mem, layout.Next(p);
      ChunkSizes(a, p);
      UsedPositive(a, p);
      ChunkAboveBins(a, p);

      SetHeadStep(mem, a, {p, next}, islr, p, Tag(sz, true), true);
      assert {p, next} - {p} == {next};
      HeadWriteAll(mem, a, p, Tag(sz, true));
      if islr {
        SlotKept(mem, p, p + SIZE_SZ, Tag(sz, true));
      }
      IntactHead(a, m, p, Tag(sz, true), p);
      mem := SetHead(mem, p, Tag(sz, true));
      ghost var m1 := mem;

      DataWriteStep(mem, a, {next}, islr, p, p + sz, sz);
      DataWriteHeads(mem, a, p, p + sz, sz);
      if islr {
        SlotKept(mem, p, p + sz, sz);
      }
      IntactData(a, mem, p + sz, sz, p);
      IntactTrans(a, m, a, m1, a, SetFoot(m1, p, sz), p, p);
      mem := SetFoot(mem, p, sz);
      ghost var m2 := mem;
      FootReads(m1, p, sz);

      if !islr {
        BinIndexRange(sz);
        PutFacts(a, p, BinIndex(sz), 0);
        ghost var k := FrontLink(p, sz, {next});
        PutFacts(a, p, BinIndex(sz), k);
        IntactLinks(a, m2, mem, layout, p);
        TagsUntouchedAt(layout, m2, mem, p);
      } else {
        PutFacts(a, p, LAST_REMAINDER, 0);
        PutLrTrustStep(mem, a, {next}, p);
        layout := Put(a, p, LAST_REMAINDER, 0);
        IntactLinks(a, m2, mem, layout, p);
      }
      IntactTrans(a, m, a, m2, layout, mem, p, p);
      ReleaseTrust(mem, layout, p, next);
    }

    /** free, when the block borders top: merge it, and a free chunk before it, into top. */
    method FreeIntoTop(p: int, sz: int, prevInUse: bool)
      requires Working({}, false) && layout.Used(p) && layout.chunks[p].size == sz
      requires layout.Next(p) == layout.top && top == layout.top && layout.top + MINSIZE <= layout.end
      requires prevInUse == PrevInuse(Head(mem, p))
      modifies this`mem, this`layout, this`top
      ensures Working({}, false) && top == layout.top && layout.top + MINSIZE <= layout.end
      ensures layout.base == old(layout).base && layout.end == old(layout).end
      ensures Intact(old(layout), old(mem), layout, mem, p)
      ensures forall q :: layout.Used(q) <==> old(layout).Used(q) && q != p
      ensures layout.top <= p && RemainderFreed(old(layout), layout, p)
    {
      hide BinIndex, Head, PrevSize, TagsOk, RingsOk, Ring, Intact, Unlink, PrevInuse, Tag, LinkCell, Complete,
        BlocksCover, Geometry, Aligned, BinOk, ChunkSize;
      ghost var a, m := layout, mem;
      TopSize(mem, a);
      var size := sz + ChunkSize(Head(mem, top));
      var start := p;
      ghost var stale := {};
      ChunkSizes(a, p);
      if !prevInUse {
        StaleMore(mem, a, {}, {a.Next(p)}, false);
        ghost var q := PreviousFree(mem, a, false, p);
        var prevsz := PrevSize(mem, p);
        ChunkSizes(a, q);
        start := p - prevsz;
        size := size + prevsz;
        ghost var i := HomeBin(a, q);
        ghost var k := IndexOf(a.bins[i], q);
        TakeJoinFacts(a, i, k, p);
        TakeStep(mem, a, {}, false, i, k);
        mem := Unlink(mem, start);
        IntactLinks(a, m, mem, Join(Take(a, i, k), q), p);
        JoinStep(mem, Take(a, i, k), {} + {p}, false, q);
        layout := Join(Take(a, i, k), q);
        ForgetStep(mem, layout, {} + {p} + {q}, false, p);
        stale := {} + {p} + {q} - {p};
      } else {
        PreviousUsed(mem, a, {}, false, p);
        IntactLinks(a, m, mem, a, p);
      }
      ghost var b, m1 := layout, mem;
      AbsorbFacts(b, start);
      AbsorbStep(mem, b, stale, false, start);
      layout := Absorb(b, start);
      ForgetStep(mem, layout, stale + {start}, false, b.top);
      IntactVia(a, m, b, layout, mem, p);
      SetHeadStep(mem, layout, stale + {start} - {b.top}, false, start, Tag(size, true), true);
      IntactHead(layout, mem, start, Tag(size, true), p);
      IntactTrans(a, m, layout, m1, layout, SetHead(m1, start, Tag(size, true)), p, p);
      mem := SetHead(mem, start, Tag(size, true));
      top := start;
      assert stale + {start} - {b.top} - {start} == {};
      assert RemainderFreed(a, layout, p) by {
        FreedIntoTop(a, layout, p, start, prevInUse);
      }
    }

    /** free(r), without the trimming of a large top. */
    method Free(r: int)
      requires Valid() && (r != 0 ==> layout.Used(r - 2 * SIZE_SZ))
      modifies this
      ensures Valid() && Intact(old(layout), old(mem), layout, mem, r - 2 * SIZE_SZ)
      ensures r == 0 ==> layout == old(layout) && mem == old(mem)
      ensures r != 0 ==> forall q :: layout.Used(q) <==> old(layout).Used(q) && q != r - 2 * SIZE_SZ
      ensures r != 0 ==> RemainderFreed(old(layout), layout, r - 2 * SIZE_SZ)
      ensures sbrkBase == old(sbrkBase) && layout.base == old(layout).base && layout.end == old(layout).end
    {
      hide BinIndex, Head, PrevSize, TagsOk, RingsOk, Ring, Intact, PrevInuse, Tag, LinkCell, Binned, Geometry, SetHead;
      ghost var a, m := layout, mem;
      if r == 0 {
        assert Intact(a, m, layout, mem, r - 2 * SIZE_SZ) by { IntactLinks(a, m, mem, a, r - 2 * SIZE_SZ); }
        return;
      }
      var p := r - 2 * SIZE_SZ;
      assert a.chunks != map[];
      ReadTag(mem, a, p);
      var prevInUse := PrevInuse(Head(mem, p));
      var sz := ChunkSize(Head(mem, p));
      var next := p + sz;
      if next == top {
        FreeIntoTop(p, sz, prevInUse);
        return;
      }
      NextHead(mem, a, {}, false, p);
      ReadTag(mem, a, next);
      var nextsz := ChunkSize(Head(mem, next));
      ScribbleHeadStep(mem, a, {}, false, next, Tag(nextsz, false));
      assert {} + {next} == {next};
      HeadWriteAll(mem, a, next, Tag(nextsz, false));
      IntactHead(a, m, next, Tag(nextsz, false), p);
      SelfNotNext(a, p);
      mem := SetHead(mem, next, Tag(nextsz, false));
      ghost var m1 := mem;

      var start, size, islr := p, sz, false;
      if !prevInUse {
        start, size, islr := JoinBack(p, sz);
        IntactTrans(a, m, a, m1, layout, mem, p, p);
      } else {
        StaleMore(mem, a, {next}, {p, next}, false);
        PreviousUsed(m, a, {}, false, p);
      }
      ghost var b, m2 := layout, mem;
      ghost var joined := islr;
      assert start <= p < start + size && p < a.top by { ChunkSizes(a, p); ArenaTop(a, p); }
      size, islr := JoinForward(start, size, next, nextsz, islr);
      IntactStart(a, m, b, m2, layout, mem, p, start);
      ghost var c, m3 := layout, mem;
      FinishFree(start, size, islr);
      IntactStart(a, m, c, m3, layout, mem, p, start);
      if islr {
        MergedRemainder(a, layout, p, if joined then start else next, start, size);
      } else {
        RemainderStays(a, layout, p, start);
      }
    }

    /** MALLOC_COPY: word by word, upwards, into the data of held chunk x. The source may
        overlap the destination from above. */
    method CopyWords(dst: int, src: int, n: int, ghost x: int, ghost stale: set<int>)
      requires Working(stale, false) && layout.Used(x) && 0 <= n && n % SIZE_SZ == 0
      requires x + 2 * SIZE_SZ <= dst && dst + n <= x + layout.chunks[x].size + SIZE_SZ
      requires dst < src || src + n <= dst
      modifies this`mem
      ensures Working(stale, false) && Intact(layout, old(mem), layout, mem, x)
      ensures forall q :: q in layout.chunks || q == layout.top ==> Head(mem, q) == Head(old(mem), q)
      ensures forall q {:trigger layout.Next(q)} :: layout.Free(q) ==>
        PrevSize(mem, layout.Next(q)) == PrevSize(old(mem), layout.Next(q))
      ensures Copied(mem, dst, old(mem), src, n)
    {
      hide BinIndex, Head, PrevSize, TagsOk, RingsOk, Intact, Binned, Geometry;
      ghost var m := mem;
      IntactLinks(layout, m, mem, layout, x);
      var i := 0;
      while i < n
        invariant 0 <= i <= n && i % SIZE_SZ == 0
        invariant Working(stale, false) && Intact(layout, m, layout, mem, x)
        invariant forall q :: q in layout.chunks || q == layout.top ==> Head(mem, q) == Head(m, q)
        invariant forall q {:trigger layout.Next(q)} :: layout.Free(q) ==>
          PrevSize(mem, layout.Next(q)) == PrevSize(m, layout.Next(q))
        invariant Copied(mem, dst, m, src, i)
        invariant forall w :: w < dst || dst + i <= w ==> Rd(mem, w) == Rd(m, w)
      {
        var v := Rd(mem, src + i);
        DataWriteStep(mem, layout, stale, false, x, dst + i, v);
        DataWriteKeeps(mem, layout, x, dst + i, v);
        IntactData(layout, mem, dst + i, v, x);
        IntactTrans(layout, m, layout, mem, layout, Wr(mem, dst + i, v), x, x);
        CopiedStep(mem, m, dst, src, i, n);
        mem := Wr(mem, dst + i, v);
        i := i + SIZE_SZ;
      }
    }

    /** realloc's label "split": give back what is more than a chunk too much. */
    method SplitHeld(p: int, size: int, nb: int)
      requires ReadyToTrim(mem, layout, p, size, nb) && binblocks == layout.blocks && Started()
      modifies this
      ensures Valid() && sbrkBase == old(sbrkBase)
      ensures layout.Used(p) && nb <= layout.chunks[p].size < nb + MINSIZE
      ensures forall q :: layout.Used(q) <==> old(layout).Used(q)
      ensures Intact(old(layout), old(mem), layout, mem, p)
      ensures Copied(mem, p + 2 * SIZE_SZ, old(mem), p + 2 * SIZE_SZ, layout.chunks[p].size - SIZE_SZ)
      ensures layout.end == old(layout).end
    {
      hide BinIndex, Head, PrevSize, TagsOk, RingsOk, Intact, PrevInuse, Tag, LinkCell, Binned, Geometry, SetInuse,
        Copied;
      ghost var a, m, bit, next := layout, mem, PrevInuse(Head(mem, p)), layout.Next(p);
      if size - nb >= MINSIZE {
        TrimSplit(p, size, nb);
      } else {
        AfterSize(a, next);
        SetHeadStep(mem, a, {p, next}, false, p, Tag(size, bit), bit);
        HeadWriteAll(mem, a, p, Tag(size, bit));
        IntactHead(a, m, p, Tag(size, bit), 0);
        SelfNotNext(a, p);
        mem := SetHeadSize(mem, p, size);
        MarkAfter(mem, a, {p, next} - {p}, p, 0);
        IntactTrans(a, m, a, mem, a, SetInuse(mem, next), 0, 0);
        mem := SetInuse(mem, p + size);
        assert {p, next} - {p} - {next} == {};
        IntactLess(a, m, a, mem, p);
        CopiedSelf(m, p + 2 * SIZE_SZ, size - SIZE_SZ);
        UsedPositive(a, p);
        CopiedIntact(a, m, a, mem, 0, p, m, p + 2 * SIZE_SZ, size - SIZE_SZ);
      }
    }

    method TrimSplit(p: int, size: int, nb: int)
      requires ReadyToTrim(mem, layout, p, size, nb) && binblocks == layout.blocks && Started()
      requires nb + MINSIZE <= size
      modifies this
      ensures Valid() && sbrkBase == old(sbrkBase)
      ensures layout.Used(p) && layout.chunks[p].size == nb
      ensures forall q :: layout.Used(q) <==> old(layout).Used(q)
      ensures Intact(old(layout), old(mem), layout, mem, p)
      ensures Copied(mem, p + 2 * SIZE_SZ, old(mem), p + 2 * SIZE_SZ, nb - SIZE_SZ)
      ensures layout.end == old(layout).end
    {
      hide BinIndex, Head, PrevSize, TagsOk, RingsOk, Intact, PrevInuse, Tag, LinkCell, Binned, Geometry, SetInuse,
        Copied;
      ghost var a, m, bit, next := layout, mem, PrevInuse(Head(mem, p)), layout.Next(p);
      TrimFacts(m, a, p, size, nb);
      TrimLayout(a, p, nb);
      var remainder := p + nb;
      var rest := size - nb;
      ghost var b, stale := Cut(a, p, nb), {p, next} + {p, remainder};
      layout := b;
      UsedPositive(b, p);
      UsedPositive(b, remainder);

      SetHeadStep(mem, b, stale, false, p, Tag(nb, bit), bit);
      HeadWriteAll(mem, b, p, Tag(nb, bit));
      IntactHead(b, mem, p, Tag(nb, bit), 0);
      mem := SetHeadSize(mem, p, nb);

      SetHeadStep(mem, b, stale - {p}, false, remainder, Tag(rest, true), true);
      HeadWriteAll(mem, b, remainder, Tag(rest, true));
      IntactHead(b, mem, remainder, Tag(rest, true), 0);
      IntactTrans(b, m, b, mem, b, SetHead(mem, remainder, Tag(rest, true)), 0, 0);
      mem := SetHead(mem, remainder, Tag(rest, true));

      MarkAfter(mem, b, stale - {p} - {remainder}, remainder, 0);
      IntactTrans(b, m, b, mem, b, SetInuse(mem, next), 0, 0);
      mem := SetInuse(mem, remainder + rest);
      assert stale - {p} - {remainder} - {next} == {};

      ghost var m3 := mem;
      Free(remainder + 2 * SIZE_SZ);
      IntactChunk(b, m3, layout, mem, remainder, p);
      IntactLess(b, m, b, m3, remainder);
      IntactTrans(b, m, b, m3, layout, mem, remainder, remainder);
      IntactTrim(a, b, m, layout, mem, p, remainder);
      CopiedSelf(m, p + 2 * SIZE_SZ, nb - SIZE_SZ);
      CopiedIntact(b, m, layout, mem, remainder, p, m, p + 2 * SIZE_SZ, nb - SIZE_SZ);
    }

    /** realloc takes the free chunk after held chunk p out of its bin and joins it. */
    method HeldForward(p: int, size: int, next: int, nextsz: int)
      requires Loose(mem, layout, p, size) && binblocks == layout.blocks
      requires next == layout.Next(p) && layout.Free(next) && nextsz == layout.chunks[next].size
      modifies this`mem, this`layout
      ensures Loose(mem, layout, p, size + nextsz) && binblocks == layout.blocks
      ensures Head(mem, p) == Head(old(mem), p) && PrevSize(mem, p) == PrevSize(old(mem), p)
      ensures SameArena(old(layout), layout) && Intact(old(layout), old(mem), layout, mem, p)
      ensures SameUsed(old(layout), layout, p, p) && OnlyLinks(old(layout), old(mem), mem)
    {
      hide BinIndex, Head, PrevSize, TagsOk, RingsOk, Ring, Intact, Unlink, PrevInuse, Tag, LinkCell, BlocksCover,
        Complete, Geometry;
      ghost var a, m, bit := layout, mem, PrevInuse(Head(mem, p));
      ghost var next2 := a.Next(next);
      LooseNext(m, a, p);
      ghost var i := HomeBin(a, next);
      ghost var k := IndexOf(a.bins[i], next);
      ghost var b := Take(a, i, k);
      TakeJoinForwardFacts(a, i, k, p, bit);
      TakeStep(mem, a, {p, next}, false, i, k);
      mem := Unlink(mem, next);
      HeadUnlinked(a, m, mem, next2);
      HeadUnlinked(a, m, mem, p);
      PrevUnlinked(a, m, mem, p);
      IntactLinks(a, m, mem, Join(b, p), p);
      JoinStep(mem, b, {p, next} + {next2}, false, p);
      layout := Join(b, p);
      ForgetStep(mem, layout, {p, next} + {next2} + {p}, false, next);
      StaleMore(mem, layout, {p, next} + {next2} + {p} - {next}, {p, next2}, false);
      AbsorbTop(layout);
    }

    /** realloc takes the free chunk before held chunk p out of its bin and joins it. */
    method HeldBack(p: int, size: int, prev: int, prevsz: int)
      requires Loose(mem, layout, p, size) && binblocks == layout.blocks
      requires layout.Free(prev) && layout.Next(prev) == p && prevsz == layout.chunks[prev].size
      requires PrevInuse(Head(mem, prev)) && prev != layout.Next(p)
      modifies this`mem, this`layout
      ensures Loose(mem, layout, prev, prevsz + size) && binblocks == layout.blocks
      ensures PrevInuse(Head(mem, prev)) && layout.Next(prev) == old(layout).Next(p)
      ensures SameArena(old(layout), layout) && Intact(old(layout), old(mem), layout, mem, p)
      ensures SameUsed(old(layout), layout, p, prev) && OnlyLinks(old(layout), old(mem), mem)
    {
      hide BinIndex, Head, PrevSize, TagsOk, RingsOk, Ring, Intact, Unlink, PrevInuse, Tag, LinkCell, BlocksCover,
        Complete, Geometry;
      ghost var a, m, next := layout, mem, layout.Next(p);
      ghost var i := HomeBin(a, prev);
      ghost var k := IndexOf(a.bins[i], prev);
      ghost var b := Take(a, i, k);
      TakeJoinFacts(a, i, k, p);
      TakeStep(mem, a, {p, next}, false, i, k);
      mem := Unlink(mem, prev);
      HeadUnlinked(a, m, mem, prev);
      AfterIsBoundary(a, p);
      HeadUnlinked(a, m, mem, next);
      LooseFoot(a, m, mem, p, Join(b, prev));
      IntactLinks(a, m, mem, Join(b, prev), p);
      JoinStep(mem, b, {p, next} + {p}, false, prev);
      layout := Join(b, prev);
      ForgetStep(mem, layout, {p, next} + {p} + {prev}, false, p);
      StaleMore(mem, layout, {p, next} + {p} + {prev} - {p}, {prev, next}, false);
    }

    /** The end of realloc's "into top" cases: top starts nb bytes after held chunk p. */
    method IntoTop(p: int, size: int, nb: int)
      requires Loose(mem, layout, p, size) && binblocks == layout.blocks && Started()
      requires layout.Next(p) == layout.top && nb % 8 == 0 && MINSIZE <= nb
      requires p + nb + MINSIZE <= layout.end
      modifies this`mem, this`layout, this`top
      ensures Valid() && sbrkBase == old(sbrkBase)
      ensures layout.Used(p) && layout.chunks[p].size == nb && SameUsed(old(layout), layout, p, p)
      ensures Intact(old(layout), old(mem), layout, mem, p)
      ensures Copied(mem, p + 2 * SIZE_SZ, old(mem), p + 2 * SIZE_SZ, nb - SIZE_SZ)
    {
      hide BinIndex, Head, PrevSize, TagsOk, RingsOk, Intact, PrevInuse, Tag, Binned, Geometry, SetHead, Copied;
      ghost var a, m, bit := layout, mem, PrevInuse(Head(mem, p));
      StretchFacts(m, a, p, size, nb);
      TopSizeLoose(m, a, p, size);
      var rest := ChunkSize(Head(mem, top)) + (top - p) - nb;
      layout := Stretch(a, p, nb);
      ghost var b := layout;
      assert Intact(a, m, b, m, p) by { IntactLinks(a, m, m, b, p); }
      UsedPositive(b, p);
      AbsorbTop(b);
      top := p + nb;
      SetHeadStep(mem, b, {p, p + nb}, false, top, Tag(rest, true), true);
      HeadWriteAll(mem, b, top, Tag(rest, true));
      IntactHead(b, mem, top, Tag(rest, true), 0);
      mem := SetHead(mem, top, Tag(rest, true));
      SetHeadStep(mem, b, {p, p + nb} - {b.top}, false, p, Tag(nb, bit), bit);
      IntactHead(b, mem, p, Tag(nb, bit), 0);
      IntactTrans(b, m, b, mem, b, SetHead(mem, p, Tag(nb, bit)), 0, 0);
      mem := SetHeadSize(mem, p, nb);
      assert {p, p + nb} - {b.top} - {p} == {};
      CopiedSelf(m, p + 2 * SIZE_SZ, nb - SIZE_SZ);
      CopiedIntact(b, m, b, mem, 0, p, m, p + 2 * SIZE_SZ, nb - SIZE_SZ);
      IntactLess(b, m, b, mem, p);
      IntactTrans(a, m, b, m, b, mem, p, p);
    }

    /** Move n bytes of data of the block that was in chunk p0 down to held chunk p. */
    method CopyDown(p: int, p0: int, n: int, ghost size: int)
      requires Loose(mem, layout, p, size) && binblocks == layout.blocks
      requires p < p0 && p0 + n + SIZE_SZ <= p + size && 0 <= n && n % SIZE_SZ == 0
      modifies this`mem
      ensures Loose(mem, layout, p, size) && Intact(layout, old(mem), layout, mem, p)
      ensures Head(mem, p) == Head(old(mem), p)
      ensures Copied(mem, p + 2 * SIZE_SZ, old(mem), p0 + 2 * SIZE_SZ, n)
    {
      hide BinIndex, Head, PrevSize, TagsOk, RingsOk, Intact, PrevInuse, Tag, Inv, Copied, RightBit, RightFoot;
      ghost var m := mem;
      CopyWords(p + 2 * SIZE_SZ, p0 + 2 * SIZE_SZ, n, p, {p, layout.Next(p)});
      LooseKept(m, layout, p, size, mem);
    }

    /** Extending forward into the free chunk after p. */
    method GrowForward(p: int, oldsize: int, next: int, nextsz: int, nb: int)
      requires Valid() && sbrkBase != -1 && layout.Used(p) && layout.chunks[p].size == oldsize < nb
      requires next == layout.Next(p) && layout.Free(next) && nextsz == layout.chunks[next].size
      requires nb % 8 == 0 && nb <= oldsize + nextsz
      modifies this
      ensures Valid() && sbrkBase == old(sbrkBase)
      ensures Moved(old(layout), old(mem), layout, mem, p, p, nb)
      ensures layout.end == old(layout).end
    {
      hide BinIndex, Head, PrevSize, TagsOk, RingsOk, Intact, PrevInuse, Tag, Binned, Geometry, Copied;
      ghost var a, m := layout, mem;
      LooseAtRest(mem, layout, p);
      HeldForward(p, oldsize, next, nextsz);
      CopiedLinks(a, m, mem, p, oldsize - SIZE_SZ);
      ghost var b, m1 := layout, mem;
      ChunkSizes(a, p);
      SplitHeld(p, oldsize + nextsz, nb);
      IntactTrans(a, m, b, m1, layout, mem, p, p);
      CopiedLess(mem, p + 2 * SIZE_SZ, m1, p + 2 * SIZE_SZ, layout.chunks[p].size - SIZE_SZ, oldsize - SIZE_SZ);
      CopiedTrans(mem, p + 2 * SIZE_SZ, m1, p + 2 * SIZE_SZ, m, p + 2 * SIZE_SZ, oldsize - SIZE_SZ);
      MovedBy(a, m, layout, mem, p, p, nb, oldsize - SIZE_SZ);
    }

    /** Shifting backwards: unlink the free chunk before held chunk p (which begins as the old
        block and may already extend over the chunk after it), and move the data down. */
    method ShiftDown(p: int, size: int, prev: int, prevsz: int, n: int)
      requires Loose(mem, layout, p, size) && binblocks == layout.blocks
      requires layout.Free(prev) && layout.Next(prev) == p && prevsz == layout.chunks[prev].size
      requires PrevInuse(Head(mem, prev)) && prev != layout.Next(p)
      requires 0 <= n && n % SIZE_SZ == 0 && n + SIZE_SZ <= size
      modifies this`mem, this`layout
      ensures Loose(mem, layout, prev, prevsz + size) && binblocks == layout.blocks
      ensures layout.Next(prev) == old(layout).Next(p) && SameArena(old(layout), layout)
      ensures Intact(old(layout), old(mem), layout, mem, p) && SameUsed(old(layout), layout, p, prev)
      ensures Copied(mem, prev + 2 * SIZE_SZ, old(mem), p + 2 * SIZE_SZ, n)
    {
      hide BinIndex, Head, PrevSize, TagsOk, RingsOk, PrevInuse, Tag, Copied, RightBit, RightFoot, Geometry, Binned,
        Intact;
      ghost var a, m := layout, mem;
      ChunkSizes(a, prev);
      HeldBack(p, size, prev, prevsz);
      CopiedLinks(a, m, mem, p, n);
      ghost var b, m1 := layout, mem;
      CopyDown(prev, p, n, prevsz + size);
      CopiedTrans(mem, prev + 2 * SIZE_SZ, m1, p + 2 * SIZE_SZ, m, p + 2 * SIZE_SZ, n);
      IntactTrans(a, m, b, m1, b, mem, p, prev);
    }

    /** Shifting backwards, with the part not needed given back. */
    method GrowBack(p: int, oldsize: int, prev: int, prevsz: int, nb: int)
      requires Valid() && sbrkBase != -1 && layout.Used(p) && layout.chunks[p].size == oldsize < nb
      requires layout.Free(prev) && layout.Next(prev) == p && prevsz == layout.chunks[prev].size
      requires PrevInuse(Head(mem, prev)) && prev != layout.Next(p)
      requires nb % 8 == 0 && nb <= prevsz + oldsize
      modifies this
      ensures Valid() && sbrkBase == old(sbrkBase)
      ensures Moved(old(layout), old(mem), layout, mem, p, prev, nb)
      ensures layout.end == old(layout).end
    {
      hide BinIndex, Head, PrevSize, TagsOk, RingsOk, Intact, PrevInuse, Tag, Binned, Geometry, Copied, RightBit,
        RightFoot;
      ghost var a, m := layout, mem;
      ChunkSizes(a, p);
      WordMultiple(oldsize);
      LooseAtRest(mem, layout, p);
      ShiftDown(p, oldsize, prev, prevsz, oldsize - SIZE_SZ);
      ghost var b, m1 := layout, mem;
      SplitHeld(prev, prevsz + oldsize, nb);
      IntactTrans(a, m, b, m1, layout, mem, p, prev);
      FinishMove(a, m, m1, layout, mem, p, prev, nb, oldsize - SIZE_SZ, layout.chunks[prev].size - SIZE_SZ);
    }

    /** Both shifting backwards and extending forward. */
    method GrowBothWays(p: int, oldsize: int, next: int, nextsz: int, prev: int, prevsz: int, nb: int)
      requires Valid() && sbrkBase != -1 && layout.Used(p) && layout.chunks[p].size == oldsize < nb
      requires next == layout.Next(p) && layout.Free(next) && nextsz == layout.chunks[next].size
      requires layout.Free(prev) && layout.Next(prev) == p && prevsz == layout.chunks[prev].size
      requires !PrevInuse(Head(mem, p)) && prevsz == PrevSize(mem, p) && prev == p - prevsz
      requires nb % 8 == 0 && nb <= nextsz + prevsz + oldsize
      modifies this
      ensures Valid() && sbrkBase == old(sbrkBase)
      ensures Moved(old(layout), old(mem), layout, mem, p, prev, nb)
      ensures layout.end == old(layout).end
    {
      hide BinIndex, Head, PrevSize, TagsOk, RingsOk, Intact, PrevInuse, Tag, Binned, Geometry, Copied, RightBit,
        RightFoot;
      ghost var a, m := layout, mem;
      ChunkSizes(a, p);
      ChunkSizes(a, next);
      WordMultiple(oldsize);
      LooseAtRest(mem, layout, p);
      HeldForward(p, oldsize, next, nextsz);
      CopiedLinks(a, m, mem, p, oldsize - SIZE_SZ);
      ghost var b, m1 := layout, mem;
      ghost var q := LoosePrevious(mem, layout, p);
      assert q == prev && layout.chunks[q].size == prevsz;
      ShiftDown(p, oldsize + nextsz, prev, prevsz, oldsize - SIZE_SZ);
      ghost var c, m2 := layout, mem;
      CopiedTrans(m2, prev + 2 * SIZE_SZ, m1, p + 2 * SIZE_SZ, m, p + 2 * SIZE_SZ, oldsize - SIZE_SZ);
      IntactTrans(a, m, b, m1, c, m2, p, p);
      SplitHeld(prev, prevsz + (oldsize + nextsz), nb);
      IntactTrans(a, m, c, m2, layout, mem, p, prev);
      FinishMove(a, m, m2, layout, mem, p, prev, nb, oldsize - SIZE_SZ, layout.chunks[prev].size - SIZE_SZ);
    }

    /** Shifting backwards with top behind the block. */
    method GrowBackIntoTop(p: int, oldsize: int, prev: int, prevsz: int, nb: int)
      requires Valid() && sbrkBase != -1 && layout.Used(p) && layout.chunks[p].size == oldsize < nb
      requires layout.Free(prev) && layout.Next(prev) == p && prevsz == layout.chunks[prev].size
      requires PrevInuse(Head(mem, prev)) && prev != layout.Next(p) && layout.Next(p) == layout.top
      requires nb % 8 == 0 && prev + nb + MINSIZE <= layout.end
      modifies this
      ensures Valid() && sbrkBase == old(sbrkBase)
      ensures Moved(old(layout), old(mem), layout, mem, p, prev, nb)
      ensures layout.end == old(layout).end
    {
      hide BinIndex, Head, PrevSize, TagsOk, RingsOk, Intact, PrevInuse, Tag, Binned, Geometry, Copied, RightBit,
        RightFoot;
      ghost var a, m := layout, mem;
      ChunkSizes(a, p);
      WordMultiple(oldsize);
      LooseAtRest(mem, layout, p);
      ShiftDown(p, oldsize, prev, prevsz, oldsize - SIZE_SZ);
      ghost var b, m1 := layout, mem;
      IntoTop(prev, prevsz + oldsize, nb);
      IntactTrans(a, m, b, m1, layout, mem, p, prev);
      FinishMove(a, m, m1, layout, mem, p, prev, nb, oldsize - SIZE_SZ, layout.chunks[prev].size - SIZE_SZ);
    }

    /** Extending forward into top. */
    method GrowIntoTop(p: int, oldsize: int, nb: int)
      requires Valid() && sbrkBase != -1 && layout.Used(p) && layout.chunks[p].size == oldsize < nb
      requires layout.Next(p) == layout.top && nb % 8 == 0 && p + nb + MINSIZE <= layout.end
      modifies this
      ensures Valid() && sbrkBase == old(sbrkBase)
      ensures Moved(old(layout), old(mem), layout, mem, p, p, nb)
      ensures layout.end == old(layout).end
    {
      hide BinIndex, Head, PrevSize, TagsOk, RingsOk, Intact, PrevInuse, Tag, Binned, Geometry, Copied, RightBit,
        RightFoot;
      ghost var a, m := layout, mem;
      ChunkSizes(a, p);
      LooseAtRest(mem, layout, p);
      IntoTop(p, oldsize, nb);
      MovedBy(a, m, layout, mem, p, p, nb, nb - SIZE_SZ);
    }

    /** realloc's last resort: allocate, then either join a block that happens to be the next
        one, or copy and free. */
    method GrowByMalloc(p: int, oldsize: int, bytes: int, nb: int, brk: int, granted: bool) returns (r: int)
      requires Valid() && sbrkBase != -1 && layout.Used(p) && layout.chunks[p].size == oldsize < nb
      requires 0 <= bytes < WORD && nb == RequestToSize(bytes) && AV_END <= brk
      modifies this
      ensures Valid() && sbrkBase == old(sbrkBase)
      ensures r != 0 ==> Moved(old(layout), old(mem), layout, mem, p, r - 2 * SIZE_SZ, nb)
      ensures r == 0 ==> Intact(old(layout), old(mem), layout, mem, 0)
      ensures r == 0 ==> forall q :: layout.Used(q) <==> old(layout).Used(q)
      ensures r == 0 <==> Exhausted(old(layout), true, nb, brk, granted)
      ensures r != 0 ==> Relocated(old(layout), p, nb, r - 2 * SIZE_SZ)
      ensures layout.end == EndAfter(old(layout), true, nb, brk, r != 0)
    {
      hide BinIndex, Head, PrevSize, TagsOk, RingsOk, Intact, PrevInuse, Tag, Binned, Geometry, Copied, RightBit,
        RightFoot, RequestToSize, ExtentAfter, Chosen, NothingFits, Exhausted;
      ghost var a, m := layout, mem;
      RequestFits(bytes);
      var newmem := Malloc(bytes, brk, granted);
      if newmem == 0 {
        r := 0;
        return;
      }
      ghost var b, m1 := layout, mem;
      var newp := newmem - 2 * SIZE_SZ;
      UsedPositive(a, p);
      IntactChunk(a, m, b, m1, 0, p);
      ChunkSizes(a, p);
      ChunkSizes(b, newp);
      ReadTag(mem, b, newp);
      CopiedSelf(m, p + 2 * SIZE_SZ, oldsize - SIZE_SZ);
      CopiedIntact(a, m, b, m1, 0, p, m, p + 2 * SIZE_SZ, oldsize - SIZE_SZ);
      if newp == p + oldsize {
        JoinNew(p, oldsize, newp, nb);
        IntactFresh(a, m, b, m1, layout, mem, p, newp);
        FinishMove(a, m, m1, layout, mem, p, p, nb, oldsize - SIZE_SZ, layout.chunks[p].size - SIZE_SZ);
        r := p + 2 * SIZE_SZ;
      } else {
        CopyAndFree(p, oldsize, newp);
        IntactFresh(a, m, b, m1, layout, mem, p, newp);
        CopiedTrans(mem, newmem, m1, p + 2 * SIZE_SZ, m, p + 2 * SIZE_SZ, oldsize - SIZE_SZ);
        MovedBy(a, m, layout, mem, p, newp, nb, oldsize - SIZE_SZ);
        r := newmem;
      }
    }

    /** The new block is the next chunk: join it instead of copying. */
    method JoinNew(p: int, oldsize: int, newp: int, nb: int)
      requires Valid() && sbrkBase != -1 && layout.Used(p) && layout.chunks[p].size == oldsize
      requires layout.Used(newp) && layout.Next(p) == newp
      requires nb % 8 == 0 && MINSIZE <= nb && nb <= layout.chunks[newp].size && 0 <= oldsize
      modifies this
      ensures Valid() && sbrkBase == old(sbrkBase)
      ensures layout.Used(p) && nb <= layout.chunks[p].size < nb + MINSIZE
      ensures forall q :: layout.Used(q) <==> old(layout).Used(q) && q != newp
      ensures IntactBut(old(layout), old(mem), layout, mem, p, newp)
      ensures Copied(mem, p + 2 * SIZE_SZ, old(mem), p + 2 * SIZE_SZ, layout.chunks[p].size - SIZE_SZ)
      ensures layout.end == old(layout).end
    {
      hide BinIndex, Head, PrevSize, TagsOk, RingsOk, Intact, PrevInuse, Tag, Binned, Geometry, Copied, RightBit,
        RightFoot, Loose, Join;
      ghost var a, m := layout, mem;
      ReadTag(mem, a, newp);
      var newsize := oldsize + ChunkSize(Head(mem, newp));
      LooseJoin(mem, a, p);
      ghost var b := Join(a, p);
      JoinArena(a, p);
      LooseInv(mem, b, p, newsize);
      layout := b;
      SplitHeld(p, newsize, nb);
      IntactJoined(a, b, m, layout, mem, p, newp);
    }

    /** Copy the data over and free the old block. */
    method CopyAndFree(p: int, oldsize: int, newp: int)
      requires Valid() && sbrkBase != -1 && layout.Used(p) && layout.chunks[p].size == oldsize
      requires layout.Used(newp) && newp != p && oldsize <= layout.chunks[newp].size
      requires oldsize % 8 == 0 && MINSIZE <= oldsize
      modifies this
      ensures Valid() && sbrkBase == old(sbrkBase)
      ensures forall q :: layout.Used(q) <==> old(layout).Used(q) && q != p
      ensures layout.Used(newp) && layout.chunks[newp] == old(layout).chunks[newp]
      ensures IntactBut(old(layout), old(mem), layout, mem, p, newp)
      ensures Copied(mem, newp + 2 * SIZE_SZ, old(mem), p + 2 * SIZE_SZ, oldsize - SIZE_SZ)
      ensures layout.end == old(layout).end
    {
      hide BinIndex, Head, PrevSize, TagsOk, RingsOk, Intact, PrevInuse, Tag, Binned, Geometry, Copied;
      ghost var a, m := layout, mem;
      WordMultiple(oldsize);
      ChunksApart(a, p, newp);
      CopyWords(newp + 2 * SIZE_SZ, p + 2 * SIZE_SZ, oldsize - SIZE_SZ, newp, {});
      ghost var m1 := mem;
      UsedPositive(a, p);
      Free(p + 2 * SIZE_SZ);
      IntactChunk(a, m1, layout, mem, p, newp);
      CopiedIntact(a, m1, layout, mem, p, newp, m, p + 2 * SIZE_SZ, oldsize - SIZE_SZ);
      IntactTwo(a, m, a, m1, layout, mem, newp, p);
    }

    /** The ways realloc tries to extend a block, in its order. */
    method Enlarge(p: int, oldsize: int, bytes: int, nb: int, brk: int, granted: bool) returns (r: int)
      requires Valid() && sbrkBase != -1 && layout.Used(p) && layout.chunks[p].size == oldsize < nb
      requires 0 <= bytes < WORD && nb == RequestToSize(bytes) && AV_END <= brk
      requires nb + MINSIZE < LIMIT || layout.Next(p) != layout.top
      modifies this
      ensures Valid() && sbrkBase == old(sbrkBase)
      ensures r != 0 ==> Moved(old(layout), old(mem), layout, mem, p, r - 2 * SIZE_SZ, nb)
      ensures r == 0 ==> Intact(old(layout), old(mem), layout, mem, 0)
      ensures r == 0 ==> forall q :: layout.Used(q) <==> old(layout).Used(q)
      ensures Landing(old(layout), p, nb, if r == 0 then 0 else r - 2 * SIZE_SZ)
      ensures r == 0 <==> Cramped(old(layout), p, nb) && Exhausted(old(layout), true, nb, brk, granted)
      ensures r != 0 && Cramped(old(layout), p, nb) ==> Relocated(old(layout), p, nb, r - 2 * SIZE_SZ)
      ensures layout.end == EndAfter(old(layout), true, nb, brk, r != 0 && Cramped(old(layout), p, nb))
    {
      hide BinIndex, Head, PrevSize, TagsOk, RingsOk, Intact, PrevInuse, Tag, Binned, Geometry, RequestToSize, Moved,
        ChunkSize, RoomBehind, Landing, Cramped, Exhausted, Relocated;
      RequestFits(bytes);
      ghost var a := layout;
      ArenaBound(a, p);
      ChunkSizes(a, p);
      var next := p + oldsize;
      NextAtRest(mem, a, p);
      TopSize(mem, a);
      // next == 0 in the source stands for "not usable"
      var usable := next == top || !PrevInuse(Head(mem, next + ChunkSize(Head(mem, next))));
      var nextsize := if usable then ChunkSize(Head(mem, next)) else 0;
      RoomRead(mem, a, p, usable, nextsize, 0, nb);
      if usable && next == top {
        TopGuard(nextsize + oldsize, nb);
        if Signed(nextsize + oldsize) >= Signed((nb + MINSIZE) % WORD) {
          LandsAhead(a, p, nb);
          GrowIntoTop(p, oldsize, nb);
          r := p + 2 * SIZE_SZ;
          return;
        }
      } else if usable && nextsize + oldsize >= nb {
        LandsAhead(a, p, nb);
        GrowForward(p, oldsize, next, nextsize, nb);
        r := p + 2 * SIZE_SZ;
        return;
      }
      if !PrevInuse(Head(mem, p)) {
        ghost var q := PreviousAtRest(mem, a, p);
        ArenaBound(a, q);
        ChunkSizes(a, q);
        var prev := p - PrevSize(mem, p);
        var prevsize := ChunkSize(Head(mem, prev));
        LandsBefore(a, p, nb, prev);
        RoomRead(mem, a, p, usable, nextsize, prevsize, nb);
        if usable && next == top {
          TopGuard(nextsize + prevsize + oldsize, nb);
          if Signed(nextsize + prevsize + oldsize) >= Signed((nb + MINSIZE) % WORD) {
            NotCramped(a, p, nb, prev);
            GrowBackIntoTop(p, oldsize, prev, prevsize, nb);
            r := prev + 2 * SIZE_SZ;
            return;
          }
        } else if usable && nextsize + prevsize + oldsize >= nb {
          NotCramped(a, p, nb, prev);
          GrowBothWays(p, oldsize, next, nextsize, prev, prevsize, nb);
          r := prev + 2 * SIZE_SZ;
          return;
        }
        if prevsize + oldsize >= nb {
          NotCramped(a, p, nb, prev);
          GrowBack(p, oldsize, prev, prevsize, nb);
          r := prev + 2 * SIZE_SZ;
          return;
        }
      }
      ghost var m := mem;
      r := GrowByMalloc(p, oldsize, bytes, nb, brk, granted);
      LandsElsewhere(m, a, p, nb, if r == 0 then 0 else r - 2 * SIZE_SZ);
    }

    /** realloc(r0, bytes). */
    method Realloc(r0: int, bytes: int, brk: int, granted: bool) returns (r: int)
      requires Valid() && 0 <= bytes < WORD && AV_END <= brk
      requires r0 != 0 ==> layout.Used(r0 - 2 * SIZE_SZ)
      requires r0 != 0 ==> GrowthSafe(layout, r0 - 2 * SIZE_SZ, RequestToSize(bytes))
      modifies this
      ensures Valid()
      ensures r0 == 0 && r != 0 ==> Allocated(old(layout), layout, r - 2 * SIZE_SZ, RequestToSize(bytes))
      ensures r0 == 0 ==> Intact(old(layout), old(mem), layout, mem, 0)
      ensures r0 != 0 && r != 0 ==>
        Moved(old(layout), old(mem), layout, mem, r0 - 2 * SIZE_SZ, r - 2 * SIZE_SZ, RequestToSize(bytes))
      ensures r == 0 ==> Intact(old(layout), old(mem), layout, mem, 0)
      ensures r == 0 ==> forall q :: layout.Used(q) <==> old(layout).Used(q)
      ensures r0 != 0 ==> Resized(old(layout), r0 - 2 * SIZE_SZ, RequestToSize(bytes), if r == 0 then 0
        else r - 2 * SIZE_SZ)
      ensures r == 0 <==> Exhausted(old(layout), old(sbrkBase) != -1, RequestToSize(bytes), brk, granted) &&
                          (r0 != 0 ==> MustMove(old(layout), r0 - 2 * SIZE_SZ, RequestToSize(bytes)))
      ensures r0 == 0 && r != 0 ==> Chosen(old(layout), r - 2 * SIZE_SZ, RequestToSize(bytes))
      ensures r0 != 0 && r != 0 && MustMove(old(layout), r0 - 2 * SIZE_SZ, RequestToSize(bytes)) ==>
        Relocated(old(layout), r0 - 2 * SIZE_SZ, RequestToSize(bytes), r - 2 * SIZE_SZ)
      ensures layout.end == EndAfter(old(layout), old(sbrkBase) != -1, RequestToSize(bytes), brk,
        r != 0 && (r0 != 0 ==> MustMove(old(layout), r0 - 2 * SIZE_SZ, RequestToSize(bytes))))
    {
      hide BinIndex, Head, PrevSize, TagsOk, RingsOk, Intact, PrevInuse, Tag, Binned, Geometry, RequestToSize,
        ChunkSize, Allocated, Chosen, NothingFits, ExtentAfter, Copied, Landing, Cramped, Exhausted, Relocated;
      if r0 == 0 {
        r := Malloc(bytes, brk, granted);
        return;
      }
      RequestFits(bytes);
      ghost var a, m := layout, mem;
      var p := r0 - 2 * SIZE_SZ;
      assert sbrkBase != -1 by { assert a.chunks != map[]; }
      ReadTag(mem, a, p);
      ChunkSizes(a, p);
      var oldsize := ChunkSize(Head(mem, p));
      var nb := RequestToSize(bytes);
      if oldsize < nb {
        r := Enlarge(p, oldsize, bytes, nb, brk, granted);
        return;
      }
      LooseAtRest(mem, a, p);
      SplitHeld(p, oldsize, nb);
      MovedBy(a, m, layout, mem, p, p, nb, layout.chunks[p].size - SIZE_SZ);
      r := r0;
    }

    /** The client writes a word of one of its blocks. */
    method Store(p: int, w: int, v: int)
      requires Valid() && layout.Used(p) && DataWord(p, layout.chunks[p].size, w)
      modifies this`mem
      ensures Valid() && Rd(mem, w) == v && Intact(layout, old(mem), layout, mem, p)
    {
      hide BinIndex, Head, TagsOk, RingsOk, Intact, Binned, Geometry;
      DataWriteStep(mem, layout, {}, false, p, w, v);
      IntactData(layout, mem, w, v, p);
      mem := Wr(mem, w, v);
    }

    /** Bytes in use, free bytes and top, as found by walking memory, add up to the bytes
        obtained from the system, less those skipped to align the first chunk. */
    lemma BytesConserved()
      requires Valid() && sbrkBase != -1
      ensures Walk(mem, layout.base, top, true) + Walk(mem, layout.base, top, false) + ChunkSize(Head(mem, top))
        == sbrkedMem - (layout.base - sbrkBase)
    {
      hide BinIndex, Binned, RingsOk, TagsOk, ChunkSize, Head, Walk;
      WalkIsBytes(mem, layout, layout.base, true);
      WalkIsBytes(mem, layout, layout.base, false);
      BytesAddUp(layout, layout.base);
      TopSize(mem, layout);
    }
  }
}
