/**
 * The table of resource numbers (blt/kernel/resource.c): a map from numbers to
 * resources whose unused entries are chained into a free list, the list of each
 * owner's resources, and the list of all of them.
 */
module Resource {
  import opened FreeList
  import opened L = List
  import opened Seqs

  /** A resource, 0 being none, and a team, 0 being none. */
  type Ref = int
  type TeamId = int

  datatype Kind = NONE | TASK | ASPACE | PORT | SEM | RIGHT | AREA | QUEUE | TEAM

  /** An entry of the map: its resource, 0 for the null resource, and the next free entry. */
  datatype Entry = Entry(resource: Ref, next: nat)

  /** What a resource records about itself. */
  datatype Info = Info(id: nat, kind: Kind, owner: TeamId)

  /** Where the entries of the map point. */
  function Nexts(rmap: seq<Entry>): (r: seq<nat>)
    ensures |r| == |rmap| && forall i :: 0 <= i < |rmap| ==> r[i] == rmap[i].next
  {
    seq(|rmap|, i requires 0 <= i < |rmap| => rmap[i].next)
  }

  /** `chain` is the free list that starts at `first`, of unused entries. */
  ghost predicate FreeEntries(rmap: seq<Entry>, first: nat, chain: seq<nat>) {
    FreeChain(Nexts(rmap), first, chain) && forall id :: id in chain ==> 0 < id < |rmap| && rmap[id].resource == 0
  }

  /** Bound numbers and bound resources name each other; every other number but 0 is free. */
  ghost predicate Numbered(rmap: seq<Entry>, chain: seq<nat>, infos: map<Ref, Info>, pool: seq<int>) {
    && 0 < |rmap| && rmap[0].resource == 0
    && (forall id {:trigger rmap[id]} :: 0 < id < |rmap| ==> (rmap[id].resource == 0 <==> id in chain))
    && (forall id {:trigger rmap[id]} :: 0 < id < |rmap| && rmap[id].resource != 0 ==>
          rmap[id].resource in infos && infos[rmap[id].resource].id == id)
    && (forall r {:trigger infos[r]} :: r in infos ==>
          r != 0 && 0 < infos[r].id < |rmap| && rmap[infos[r].id].resource == r && infos[r].kind != NONE)
    && Distinct(pool) && (forall r: Ref :: r in pool <==> r in infos)
  }

  /** Every resource is on its owner's list, once, and on no other. */
  ghost predicate Owned(infos: map<Ref, Info>, owned: map<TeamId, seq<int>>) {
    && 0 !in owned
    && (forall r {:trigger infos[r]} :: r in infos && infos[r].owner != 0 ==> infos[r].owner in owned)
    && (forall o {:trigger owned[o]} :: o in owned ==>
          && Distinct(owned[o])
          && (forall r :: r in owned[o] <==> r in infos && infos[r].owner == o))
  }

  // ---- numbers are conserved

  ghost function Numbers(n: nat): (r: set<int>)
    ensures |r| == n
    ensures forall id :: id in r <==> 0 < id <= n
  {
    if n == 0 then {} else Numbers(n - 1) + {n}
  }

  /** The numbers of the resources in `pool`. */
  ghost function BoundNumbers(infos: map<Ref, Info>, pool: seq<int>): (ids: seq<int>)
    requires forall i :: 0 <= i < |pool| ==> pool[i] in infos
    ensures |ids| == |pool|
    ensures forall i {:trigger ids[i]} :: 0 <= i < |ids| ==> ids[i] == infos[pool[i]].id
  {
    seq(|pool|, i requires 0 <= i < |pool| => infos[pool[i]].id)
  }

  /** Different resources have different numbers: those of the bound map entries. */
  lemma BoundCount(rmap: seq<Entry>, chain: seq<nat>, infos: map<Ref, Info>, pool: seq<int>) returns (ids: seq<int>)
    requires Numbered(rmap, chain, infos, pool)
    ensures Distinct(ids) && |ids| == |pool|
    ensures forall id :: id in ids <==> 0 < id < |rmap| && rmap[id].resource != 0
  {
    forall i | 0 <= i < |pool| ensures pool[i] in infos {
      var r: Ref := pool[i];
      assert r in pool;
    }
    ids := BoundNumbers(infos, pool);
    forall i, j | 0 <= i < j < |ids| ensures ids[i] != ids[j] {
      var r, q: Ref := pool[i], pool[j];
      assert r in infos && q in infos && r != q;
      assert rmap[infos[r].id].resource == r && rmap[infos[q].id].resource == q;
    }
    forall id | 0 < id < |rmap| && rmap[id].resource != 0 ensures id in ids {
      var r := rmap[id].resource;
      assert r in pool;
      var i :| 0 <= i < |pool| && pool[i] == r;
      assert ids[i] == id;
    }
    forall id | id in ids ensures 0 < id < |rmap| && rmap[id].resource != 0 {
      var i :| 0 <= i < |ids| && ids[i] == id;
      var r: Ref := pool[i];
      assert r in infos && infos[r].id == id;
    }
  }

  /** Every number but 0 is either free or bound, so their counts always add up to the size of the map. */
  lemma NumbersConserved(rmap: seq<Entry>, first: nat, chain: seq<nat>, infos: map<Ref, Info>, pool: seq<int>)
    requires FreeEntries(rmap, first, chain) && Numbered(rmap, chain, infos, pool)
    ensures |chain| + |pool| == |rmap| - 1
  {
    var ids := BoundCount(rmap, chain, infos, pool);
    DistinctCount(ids);
    DistinctCount(chain);
    assert ToSet(chain) !! ToSet(ids);
    assert ToSet(chain) + ToSet(ids) == Numbers(|rmap| - 1);
  }

  // ---- what binding and releasing do

  /** Taking the first free entry. */
  lemma EntryTaken(rmap: seq<Entry>, first: nat, chain: seq<nat>, r: Ref)
    requires FreeEntries(rmap, first, chain) && chain != []
    ensures first < |rmap| && rmap[first].resource == 0
    ensures FreeEntries(rmap[first := rmap[first].(resource := r)], rmap[first].next, chain[1..])
    ensures forall id :: id in chain[1..] <==> id in chain && id != first
  {
    var after := rmap[first := rmap[first].(resource := r)];
    ChainPopped(Nexts(rmap), first, chain, Nexts(after));
  }

  /** Putting an entry back at the front. */
  lemma EntryBack(rmap: seq<Entry>, first: nat, chain: seq<nat>, id: nat)
    requires FreeEntries(rmap, first, chain) && 0 < id < |rmap| && id !in chain
    ensures FreeEntries(rmap[id := Entry(0, first)], id, [id] + chain)
  {
    ChainPushed(Nexts(rmap), first, chain, id);
    assert Nexts(rmap[id := Entry(0, first)]) == Nexts(rmap)[id := first];
  }

  lemma NumberedBind(rmap: seq<Entry>, chain: seq<nat>, infos: map<Ref, Info>, pool: seq<int>, id: nat, rest: seq<nat>,
      r: Ref, info: Info)
    requires Numbered(rmap, chain, infos, pool)
    requires 0 < id < |rmap| && id in chain && (forall x :: x in rest <==> x in chain && x != id)
    requires r != 0 && r !in infos && info.id == id && info.kind != NONE
    ensures Numbered(rmap[id := rmap[id].(resource := r)], rest, infos[r := info], pool + [r])
  {
    AppendDistinct(pool, r);
  }

  lemma NumberedRelease(rmap: seq<Entry>, chain: seq<nat>, infos: map<Ref, Info>, pool: seq<int>, r: Ref, next: nat)
    requires Numbered(rmap, chain, infos, pool) && r in infos
    ensures infos[r].id !in chain
    ensures Numbered(rmap[infos[r].id := Entry(0, next)], [infos[r].id] + chain, infos - {r}, L.Without(pool, r))
  {
    WithoutDistinct(pool, r);
  }

  /** Who owns a resource does not matter to its number. */
  lemma NumberedOwner(rmap: seq<Entry>, chain: seq<nat>, infos: map<Ref, Info>, pool: seq<int>, r: Ref, owner: TeamId)
    requires Numbered(rmap, chain, infos, pool) && r in infos
    ensures Numbered(rmap, chain, infos[r := infos[r].(owner := owner)], pool)
  {
  }

  lemma OwnedBind(infos: map<Ref, Info>, owned: map<TeamId, seq<int>>, r: Ref, info: Info)
    requires Owned(infos, owned) && r !in infos && (info.owner != 0 ==> info.owner in owned)
    ensures Owned(infos[r := info], if info.owner != 0 then owned[info.owner := owned[info.owner] + [r]] else owned)
  {
    if info.owner != 0 {
      AppendDistinct(owned[info.owner], r);
    }
  }

  lemma OwnedRelease(infos: map<Ref, Info>, owned: map<TeamId, seq<int>>, r: Ref)
    requires Owned(infos, owned) && r in infos
    ensures infos[r].owner != 0 ==> infos[r].owner in owned
    ensures Owned(infos - {r}, if infos[r].owner != 0 then owned[infos[r].owner := L.Without(owned[infos[r].owner], r)]
      else owned)
  {
    if infos[r].owner != 0 {
      WithoutDistinct(owned[infos[r].owner], r);
    }
  }

  /** The free list of a new map: every entry but entry 0, in order. */
  ghost function AllFree(rmap: seq<Entry>): (chain: seq<nat>)
    requires 2 <= |rmap|
    requires forall j :: 0 <= j < |rmap| ==> rmap[j] == Entry(0, if j < |rmap| - 1 then j + 1 else 0)
    ensures FreeEntries(rmap, 1, chain) && |chain| == |rmap| - 1
    ensures Numbered(rmap, chain, map[], [])
  {
    var chain := seq(|rmap| - 1, i => i + 1);
    assert forall id {:trigger rmap[id]} :: 0 < id < |rmap| ==> chain[id - 1] == id;
    chain
  }

  class Table {
    var rmap: array<Entry>
    var rfree: nat
    var infos: map<Ref, Info>
    var owned: map<TeamId, seq<int>>
    var pool: seq<int>

    /** The free entries, first to last. */
    ghost var chain: seq<nat>

    ghost predicate Valid()
      reads this, rmap
    {
      && FreeEntries(rmap[..], rfree, chain)
      && Numbered(rmap[..], chain, infos, pool)
      && Owned(infos, owned)
    }

    constructor (rmax: nat)
      requires rmax >= 2
      ensures Valid() && infos == map[] && owned == map[] && rmap.Length == rmax && fresh(rmap)
      ensures |chain| == rmax - 1
    {
      hide FreeEntries, Numbered;
      var map0 := new Entry[rmax](i => Entry(0, 0));
      var i := 0;
      while i < rmax
        invariant 0 <= i <= rmax && map0.Length == rmax && fresh(map0)
        invariant forall j :: 0 <= j < i ==> map0[j] == Entry(0, j + 1)
      {
        map0[i] := Entry(0, i + 1);
        i := i + 1;
      }
      map0[rmax - 1] := map0[rmax - 1].(next := 0);
      rmap, rfree := map0, 1;
      infos, owned, pool := map[], map[], [];
      chain := AllFree(map0[..]);
    }

    /** A new team, with nothing. */
    method AddOwner(owner: TeamId)
      requires Valid() && owner != 0 && owner !in owned
      requires forall r :: r in infos ==> infos[r].owner != owner
      modifies this`owned
      ensures Valid() && owned == old(owned)[owner := []]
    {
      owned := owned[owner := []];
    }

    /** The resource of that kind and number, or none. */
    method Find(kind: Kind, id: nat) returns (r: Ref)
      requires Valid() && kind != NONE
      ensures r != 0 ==> r in infos && infos[r].id == id && infos[r].kind == kind
      ensures r == 0 ==> forall x :: x in infos ==> !(infos[x].id == id && infos[x].kind == kind)
    {
      if id < rmap.Length && rmap[id].resource != 0 && infos[rmap[id].resource].kind == kind {
        return rmap[id].resource;
      }
      return 0;
    }

    /** Number a new resource; false is the panic of an exhausted table. */
    method Bind(r: Ref, kind: Kind, owner: TeamId) returns (ok: bool)
      requires Valid() && r != 0 && r !in infos && kind != NONE && (owner != 0 ==> owner in owned)
      modifies this, rmap
      ensures Valid() && rmap == old(rmap)
      ensures ok <==> |old(infos)| < rmap.Length - 1
      ensures !ok ==> unchanged(this) && unchanged(rmap)
      ensures ok ==> infos == old(infos)[r := Info(old(rfree), kind, owner)] && old(rfree) != 0
      ensures ok ==> owned == if owner != 0 then old(owned)[owner := old(owned)[owner] + [r]] else old(owned)
      ensures ok ==> pool == old(pool) + [r]
    {
      hide FreeEntries, Numbered, Owned;
      FreeExists(rmap[..], rfree, chain, infos, pool);
      if rfree == 0 {
        return false;
      }
      var id := rfree;
      ghost var t := rmap[..];
      EntryTaken(t, id, chain, r);
      NumberedBind(t, chain, infos, pool, id, chain[1..], r, Info(id, kind, owner));
      OwnedBind(infos, owned, r, Info(id, kind, owner));
      rfree := rmap[id].next;
      rmap[id] := rmap[id].(resource := r);
      infos := infos[r := Info(id, kind, owner)];
      if owner != 0 {
        owned := owned[owner := owned[owner] + [r]];
      }
      pool := pool + [r];
      chain := chain[1..];
      assert rmap[..] == t[id := t[id].(resource := r)];
      return true;
    }

    /** A released number is the next one to be given out, and nothing finds the resource any more. */
    method Release(r: Ref)
      requires Valid() && r in infos
      modifies this, rmap
      ensures Valid() && rmap == old(rmap)
      ensures infos == old(infos) - {r} && rfree == old(infos)[r].id
      ensures pool == L.Without(old(pool), r)
      ensures forall o :: o in owned <==> o in old(owned)
      ensures forall o :: o in owned ==>
        owned[o] == if o == old(infos)[r].owner then L.Without(old(owned)[o], r) else old(owned)[o]
    {
      hide FreeEntries, Numbered, Owned;
      var id := infos[r].id;
      ghost var t := rmap[..];
      BoundInRange(t, chain, infos, pool, r);
      NumberedRelease(t, chain, infos, pool, r, rfree);
      EntryBack(t, rfree, chain, id);
      OwnedRelease(infos, owned, r);
      OwnersSame(infos, owned);
      if infos[r].owner != 0 {
        owned := owned[infos[r].owner := L.Without(owned[infos[r].owner], r)];
      }
      pool := L.Without(pool, r);
      infos := infos - {r};
      rmap[id] := Entry(0, rfree);
      rfree := id;
      chain := [id] + chain;
      assert rmap[..] == t[id := t[id].(resource := 0, next := old(rfree))];
    }

    /** A resource changes hands: off one list, to the end of the other. */
    method SetOwner(r: Ref, owner: TeamId)
      requires Valid() && r in infos && (owner != 0 ==> owner in owned)
      modifies this`infos, this`owned
      ensures Valid()
      ensures infos == old(infos)[r := old(infos)[r].(owner := owner)]
      ensures forall o :: o in owned <==> o in old(owned)
      ensures forall o :: o in owned ==> (owned[o] ==
                (if o == old(infos)[r].owner then L.Without(old(owned)[o], r) else old(owned)[o]) +
                  (if o == owner then [r] else []))
    {
      hide FreeEntries, Owned, Without, Numbered;
      NumberedOwner(rmap[..], chain, infos, pool, r, owner);
      var info := infos[r];
      OwnersSame(infos, owned);
      OwnedRelease(infos, owned, r);
      if info.owner != 0 {
        owned := owned[info.owner := L.Without(owned[info.owner], r)];
      }
      OwnedBind(infos - {r}, owned, r, info.(owner := owner));
      if owner != 0 {
        owned := owned[owner := owned[owner] + [r]];
      }
      infos := infos[r := info.(owner := owner)];
      assert infos == (old(infos) - {r})[r := info.(owner := owner)];
    }
  }

  lemma FreeExists(rmap: seq<Entry>, first: nat, chain: seq<nat>, infos: map<Ref, Info>, pool: seq<int>)
    requires FreeEntries(rmap, first, chain) && Numbered(rmap, chain, infos, pool)
    ensures first == 0 <==> chain == []
    ensures chain != [] <==> |infos| < |rmap| - 1
    ensures chain != [] ==> first in chain && 0 < first < |rmap|
  {
    NumbersConserved(rmap, first, chain, infos, pool);
    DistinctCount(pool);
    forall r: Ref ensures r in ToSet(pool) <==> r in infos.Keys {
      assert r in pool <==> r in infos;
    }
    assert ToSet(pool) == infos.Keys;
    if chain != [] { assert chain[0] in chain; }
  }

  lemma BoundInRange(rmap: seq<Entry>, chain: seq<nat>, infos: map<Ref, Info>, pool: seq<int>, r: Ref)
    requires Numbered(rmap, chain, infos, pool) && r in infos
    ensures 0 < infos[r].id < |rmap|
  {
  }

  lemma OwnersSame(infos: map<Ref, Info>, owned: map<TeamId, seq<int>>)
    requires Owned(infos, owned)
    ensures 0 !in owned
    ensures forall r {:trigger infos[r]} :: r in infos && infos[r].owner != 0 ==> infos[r].owner in owned
  {
  }
}
