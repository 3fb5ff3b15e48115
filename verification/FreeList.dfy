/**
 * Free lists that are threaded through a table: the pages of blt/kernel/memory.c and
 * the resource numbers of blt/kernel/resource.c are chained in this way.
 */
module FreeList {
  import opened Seqs

  /** `chain` is the list that starts at `first` and goes on by `next`: each entry once, ended by 0. */
  ghost predicate FreeChain(next: seq<nat>, first: nat, chain: seq<nat>) {
    && first == (if chain == [] then 0 else chain[0])
    && Distinct(chain)
    && (forall i {:trigger chain[i]} :: 0 <= i < |chain| ==>
          0 < chain[i] < |next| && next[chain[i]] == if i + 1 < |chain| then chain[i + 1] else 0)
  }

  /** An entry that is put back comes first. */
  lemma ChainPushed(next: seq<nat>, first: nat, chain: seq<nat>, n: nat)
    requires FreeChain(next, first, chain) && 0 < n < |next| && n !in chain
    ensures FreeChain(next[n := first], n, [n] + chain)
  {
    var t := [n] + chain;
    forall i | 0 <= i < |t| ensures 0 < t[i] < |next| && next[n := first][t[i]] == if i + 1 < |t| then t[i + 1] else 0 {
      if i > 0 {
        assert t[i] == chain[i - 1] && chain[i - 1] != n;
      }
    }
  }

  /** The first entry is taken, whatever it then points at. */
  lemma ChainPopped(next: seq<nat>, first: nat, chain: seq<nat>, after: seq<nat>)
    requires FreeChain(next, first, chain) && chain != []
    requires |after| == |next| && forall i :: 0 <= i < |next| && i != first ==> after[i] == next[i]
    ensures first < |next| && FreeChain(after, next[first], chain[1..])
    ensures forall n :: n in chain[1..] <==> n in chain && n != first
  {
    var t := chain[1..];
    assert chain[0] == first;
    assert forall i :: 0 <= i < |t| ==> t[i] == chain[i + 1] && t[i] != first;
    forall n | n in chain && n != first ensures n in t {
      var i :| 0 <= i < |chain| && chain[i] == n;
      assert t[i - 1] == n;
    }
  }
}
