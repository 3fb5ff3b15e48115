/**
 * Physical pages (blt/kernel/memory.c, `getpage` and `putpage`): the free pages are
 * chained through the page list, and a counter says how many are in use.
 */
module Pages {
  import opened FreeList
  import opened Seqs

  class FreePages {
    const pagelist: array<nat>
    var freepage: nat
    var used: int

    /** The free pages, next to be used first. */
    ghost var free: seq<nat>

    ghost predicate Valid()
      reads this, pagelist
    {
      FreeChain(pagelist[..], freepage, free)
    }

    /** All of memory's pages from `bottom` up, lowest first. */
    constructor (bottom: nat, top: nat)
      requires 0 < bottom <= top
      ensures Valid() && used == 0 && |free| == top - bottom && fresh(pagelist) && pagelist.Length == top
      ensures forall i :: 0 <= i < |free| ==> free[i] == bottom + i
    {
      var list := new nat[top](i => 0);
      ghost var chain: seq<nat> := [];
      var i, first := top, 0;
      while i > bottom
        invariant bottom <= i <= top && list.Length == top
        invariant FreeChain(list[..], first, chain) && |chain| == top - i
        invariant forall j :: 0 <= j < |chain| ==> chain[j] == i + j
      {
        i := i - 1;
        ChainPushed(list[..], first, chain, i);
        ghost var was := list[..];
        list[i] := first;
        assert list[..] == was[i := first];
        first := i;
        chain := [i] + chain;
      }
      pagelist, freepage, used, free := list, first, 0, chain;
    }

    /** Give a page back: it is the next to be used. */
    method PutPage(number: nat)
      requires Valid() && 0 < number < pagelist.Length && number !in free
      modifies this, pagelist
      ensures Valid() && free == [number] + old(free) && used == old(used) - 1
    {
      ChainPushed(pagelist[..], freepage, free, number);
      ghost var was := pagelist[..];
      pagelist[number] := freepage;
      assert pagelist[..] == was[number := freepage];
      freepage := number;
      used := used - 1;
      free := [number] + free;
    }

    /** The next free page; 0 stands for the panic when there is none. */
    method GetPage() returns (n: nat)
      requires Valid()
      modifies this
      ensures Valid()
      ensures n == 0 <==> old(free) == []
      ensures n == 0 ==> unchanged(this)
      ensures n != 0 ==> [n] + free == old(free) && used == old(used) + 1 && n < pagelist.Length && n !in free
    {
      n := freepage;
      if n == 0 {
        return;
      }
      ChainPopped(pagelist[..], freepage, free, pagelist[..]);
      freepage := pagelist[n];
      used := used + 1;
      free := free[1..];
    }
  }
}
