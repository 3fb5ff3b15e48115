/**
 * The calls on areas and address spaces (blt/kernel/aspace.c): creation, cloning,
 * resizing and destruction, over the pages of module Pages.
 */
module Areas {
  import L = List
  import opened Aspace
  import opened FreeList
  import opened Pages
  import opened Seqs
  import opened Spans

  /** A call is done, fails with an error, or finds memory exhausted, which stops the kernel. */
  datatype Outcome = Done(value: int) | Failed(status: int) | Panic

  /** The condition under which the span search can be trusted. */
  ghost predicate SearchSound(t: PageTable, start: nat, len: nat) {
    len > 0 ==> RunExists(t, Start(start), len) || t[1023] != 0
  }

  function PagesFor(size: nat): (n: nat)
    ensures n >= 1 && n * 0x1000 >= size && (size > 0 ==> (n - 1) * 0x1000 < size)
  {
    if size == 0 then 1 else if size % 0x1000 != 0 then size / 0x1000 + 1 else size / 0x1000
  }

  class System {
    var spaces: map<SpaceId, Space>
    var areas: map<AreaId, Area>
    var groups: map<GroupId, Group>
    const mem: FreePages

    /** The slot of every page in use by groups and spaces, and how many pages the kernel has besides. */
    ghost var holder: map<nat, Slot>
    ghost const kernelPages: int

    ghost function View(): State
      reads this
    {
      State(spaces, areas, groups)
    }

    ghost predicate Valid()
      reads this, mem, mem.pagelist
    {
      && Inv(View())
      && mem.Valid() && Held(View(), holder, mem.free) && Bounded(holder, mem.pagelist.Length)
      && (forall g :: g in groups ==> groups[g].refcount > 0)
      && mem.used == |holder| + kernelPages
    }

    /** Pages in use and free pages together. */
    ghost function Total(): int
      reads this, mem
    {
      mem.used + |mem.free|
    }

    constructor (mem: FreePages)
      requires mem.Valid()
      ensures Valid() && spaces == map[] && areas == map[] && groups == map[] && this.mem == mem
    {
      spaces, areas, groups, holder := map[], map[], map[], map[];
      this.mem, kernelPages := mem, mem.used;
    }

    /** Map `n` pages from entry `at` on: the next free ones, or those from `base` on. */
    method MapNew(p: SpaceId, at: nat, n: nat, physmap: bool, base: nat) returns (pages: seq<nat>, ok: bool)
      requires p in spaces && at + n <= ENTRIES && mem.Valid()
      modifies this`spaces, mem
      ensures mem.Valid()
      ensures physmap ==> ok && mem.free == old(mem.free) && mem.used == old(mem.used)
      ensures physmap ==> |pages| == n && forall k :: 0 <= k < n ==> pages[k] == base + k
      ensures !physmap ==> (ok <==> |old(mem.free)| >= n)
      ensures !physmap && ok ==> |pages| == n && old(mem.free) == pages + mem.free && mem.used == old(mem.used) + n
      ensures |pages| <= n && p in old(spaces) && p in spaces
      ensures spaces == old(spaces)[p := old(spaces)[p].(ptab := MapRange(old(spaces)[p].ptab, at, pages))]
      ensures ok ==> Shown(spaces[p].ptab, at, pages) && SameBut(old(spaces)[p].ptab, spaces[p].ptab, at, n)
    {
      hide FreeChain, MapRange, Shown, SameBut;
      pages, ok := [], true;
      var i, q := 0, base;
      NothingMappedYet(spaces[p].ptab, at);
      assert spaces == spaces[p := spaces[p].(ptab := spaces[p].ptab)];
      while i < n
        invariant 0 <= i <= n && |pages| == i && mem.Valid() && p in spaces
        invariant physmap ==> q == base + i && mem.free == old(mem.free) && mem.used == old(mem.used)
        invariant physmap ==> forall k :: 0 <= k < i ==> pages[k] == base + k
        invariant !physmap ==> old(mem.free) == pages + mem.free && mem.used == old(mem.used) + i
        invariant spaces == old(spaces)[p := old(spaces)[p].(ptab := MapRange(old(spaces)[p].ptab, at, pages))]
      {
        if !physmap {
          q := mem.GetPage();
          if q == 0 {
            return pages, false;
          }
        }
        OneMoreMapped(old(spaces)[p].ptab, at, pages, q);
        spaces := spaces[p := spaces[p].(ptab := spaces[p].ptab[at + i := Pte(q)])];
        pages := pages + [q];
        if physmap { q := q + 1; }
        i := i + 1;
      }
      MapRangeShows(old(spaces)[p].ptab, at, pages);
    }

    /** Give pages back, first to last. */
    method PutPages(pages: seq<nat>)
      requires mem.Valid() && Distinct(pages)
      requires forall q :: q in pages ==> q !in mem.free && 0 < q < mem.pagelist.Length
      modifies mem, mem.pagelist
      ensures mem.Valid() && mem.used == old(mem.used) - |pages|
      ensures |mem.free| == |old(mem.free)| + |pages|
      ensures forall q :: q in mem.free <==> q in old(mem.free) || q in pages
    {
      hide FreeChain;
      var i := 0;
      while i < |pages|
        invariant 0 <= i <= |pages| && mem.Valid() && mem.used == old(mem.used) - i
        invariant |mem.free| == |old(mem.free)| + i
        invariant forall q :: q in mem.free <==> q in old(mem.free) || q in pages[..i]
      {
        NotBefore(pages, i);
        mem.PutPage(pages[i]);
        assert pages[..i + 1] == pages[..i] + [pages[i]];
        i := i + 1;
      }
      assert pages[..i] == pages;
    }

    lemma FreeDistinct()
      requires mem.Valid()
      ensures Distinct(mem.free) && forall q :: q in mem.free ==> 0 < q < mem.pagelist.Length
    {
    }

    /** A new area over a new group, in the first span of free entries from `virt` on that is long enough. */
    method AreaCreate(p: SpaceId, size: nat, virt: nat, addr: nat, physmap: bool, g: GroupId, a: AreaId)
      returns (o: Outcome, at: nat)
      requires Valid() && p in spaces && g !in groups && a !in areas
      requires SearchSound(spaces[p].ptab, virt / 0x1000, PagesFor(size))
      modifies this, mem
      ensures o != Panic ==> Valid() && Total() == old(Total())
      ensures o.Failed? <==> !RunExists(old(spaces)[p].ptab, Start(virt / 0x1000), PagesFor(size))
      ensures o.Failed? ==> o == Failed(ERR_MEMORY) && unchanged(this) && unchanged(mem)
      ensures o.Panic? ==> !physmap && |old(mem.free)| < PagesFor(size)
      ensures o.Done? ==>
        && o.value == a && g in groups && |groups[g].pages| == PagesFor(size)
        && FirstRun(old(spaces)[p].ptab, Start(virt / 0x1000), PagesFor(size), at)
        && View() == Attached(old(View()).(groups := old(groups)[g := Group(groups[g].pages, 0, physmap, [])]), p, a, g,
          at)
        && (physmap ==> mem.free == old(mem.free) && forall k :: 0 <= k < PagesFor(size) ==>
          groups[g].pages[k] == addr / 0x1000 + k)
        && (!physmap ==> old(mem.free) == groups[g].pages + mem.free)
      ensures o.Done? ==>
        && p in spaces && Shown(spaces[p].ptab, at, groups[g].pages)
        && SameBut(old(spaces)[p].ptab, spaces[p].ptab, at, PagesFor(size))
        && areas == old(areas)[a := Area(g, p, at, PagesFor(size))]
        && groups == old(groups)[g := Group(groups[g].pages, 1, physmap, [a])]
    {
      hide Inv, Held, Bounded, FreeChain, Attached, MapRange, Hold, Shown, SameBut;
      var n := PagesFor(size);
      at := LocateSpan(spaces[p].ptab, virt / 0x1000, n);
      if at == 0 {
        return Failed(ERR_MEMORY), 0;
      }
      ghost var s := View();
      FreeDistinct();
      var pages, ok := MapNew(p, at, n, physmap, addr / 0x1000);
      if !ok {
        return Panic, at;
      }
      spaces := spaces[p := spaces[p].(areas := spaces[p].areas + [a])];
      areas := areas[a := Area(g, p, at, n)];
      groups := groups[g := Group(pages, 1, physmap, [a])];
      CreateKeeps(s, p, a, g, at, pages, physmap, holder, old(mem.free), mem.free, mem.pagelist.Length);
      ViewCreated(s, p, a, g, at, pages, physmap);
      if !physmap {
        holder := Hold(holder, pages, Page(g, 0));
      }
      return Done(a), at;
    }

    /** Map pages that are there already. */
    method MapAll(p: SpaceId, at: nat, pages: seq<nat>)
      requires p in spaces && at + |pages| <= ENTRIES
      modifies this`spaces
      ensures p in old(spaces) && p in spaces
      ensures spaces == old(spaces)[p := old(spaces)[p].(ptab := MapRange(old(spaces)[p].ptab, at, pages))]
      ensures Shown(spaces[p].ptab, at, pages) && SameBut(old(spaces)[p].ptab, spaces[p].ptab, at, |pages|)
    {
      hide MapRange, Shown, SameBut;
      MapRangeShows(spaces[p].ptab, at, pages);
      NothingMappedYet(spaces[p].ptab, at);
      assert spaces == spaces[p := spaces[p].(ptab := spaces[p].ptab)];
      assert pages[..0] == [];
      var i := 0;
      while i < |pages|
        invariant 0 <= i <= |pages| && p in spaces
        invariant spaces == old(spaces)[p := old(spaces)[p].(ptab := MapRange(old(spaces)[p].ptab, at, pages[..i]))]
      {
        OneMoreMapped(old(spaces)[p].ptab, at, pages[..i], pages[i]);
        assert pages[..i + 1] == pages[..i] + [pages[i]];
        spaces := spaces[p := spaces[p].(ptab := spaces[p].ptab[at + i := Pte(pages[i])])];
        i := i + 1;
      }
      assert pages[..i] == pages;
    }

    /** Another area over the pages of area `id`. */
    method AreaClone(p: SpaceId, id: AreaId, virt: nat, a: AreaId) returns (o: Outcome, at: nat)
      requires Valid() && p in spaces && a !in areas
      requires id in areas ==> SearchSound(spaces[p].ptab, virt / 0x1000, areas[id].length)
      modifies this
      ensures Valid() && Total() == old(Total()) && mem.free == old(mem.free)
      ensures id !in old(areas) ==> o == Failed(ERR_RESOURCE)
      ensures id in old(areas) ==>
        (o == Failed(ERR_MEMORY) <==> !RunExists(old(spaces)[p].ptab, Start(virt / 0x1000), old(areas)[id].length))
      ensures !o.Done? ==> unchanged(this)
      ensures o.Done? ==>
        && id in old(areas) && o.value == a && old(areas)[id].group in old(groups)
        && FirstRun(old(spaces)[p].ptab, Start(virt / 0x1000), old(areas)[id].length, at)
        && at + |old(groups)[old(areas)[id].group].pages| <= ENTRIES
        && View() == Attached(old(View()), p, a, old(areas)[id].group, at)
      ensures o.Done? ==> var g := old(areas)[id].group;
        && g in old(groups) && p in spaces && Shown(spaces[p].ptab, at, old(groups)[g].pages)
        && SameBut(old(spaces)[p].ptab, spaces[p].ptab, at, old(areas)[id].length)
        && areas == old(areas)[a := Area(g, p, at, old(areas)[id].length)]
        && groups == old(groups)[g := old(groups)[g].(refcount := old(groups)[g].refcount + 1,
                                                      areas := old(groups)[g].areas + [a])]
      ensures o == Failed(ERR_RESOURCE) || o == Failed(ERR_MEMORY) || o == Done(a)
    {
      hide Inv, Held, Bounded, FreeChain, MapRange, Attached, Shown, SameBut;
      if id !in areas {
        return Failed(ERR_RESOURCE), 0;
      }
      AreaFacts(View(), id);
      at := LocateSpan(spaces[p].ptab, virt / 0x1000, areas[id].length);
      if at == 0 {
        return Failed(ERR_MEMORY), 0;
      }
      ghost var s := View();
      var g := areas[id].group;
      var group := groups[g];
      AttachedInv(s, p, a, g, at);
      SlotsAttached(s, p, a, g, at, holder, mem.free);
      groups := groups[g := group.(refcount := group.refcount + 1, areas := group.areas + [a])];
      areas := areas[a := Area(g, p, at, areas[id].length)];
      spaces := spaces[p := spaces[p].(areas := spaces[p].areas + [a])];
      MapAll(p, at, group.pages);
      AttachedParts(s, p, a, g, at);
      assert View() == Attached(s, p, a, g, at);
      return Done(a), at;
    }

    /** Unmap an area; the last one to go returns the group's pages. */
    method AreaDestroy(p: SpaceId, id: AreaId) returns (o: Outcome)
      requires Valid() && p in spaces
      modifies this, mem, mem.pagelist
      ensures Valid() && Total() == old(Total())
      ensures o == Failed(ERR_RESOURCE) || o == Done(0)
      ensures o.Done? <==> id in old(areas) && old(areas)[id].space == p
      ensures o.Failed? ==> unchanged(this) && unchanged(mem) && unchanged(mem.pagelist)
      ensures o.Done? ==>
        && old(areas)[id].group in old(groups) && areas == old(areas) - {id}
        && old(areas)[id].virt + old(areas)[id].length <= ENTRIES
        && spaces == Detached(old(View()), p, id).spaces
        && var g := old(areas)[id].group;
           if old(groups)[g].refcount > 1 then
             groups == Detached(old(View()), p, id).groups && mem.free == old(mem.free)
           else
             && groups == old(groups) - {g}
             && (old(groups)[g].physmap ==> mem.free == old(mem.free))
             && (!old(groups)[g].physmap ==> forall q :: q in mem.free <==>
               q in old(mem.free) || q in old(groups)[g].pages)
    {
      hide Inv, Held, Bounded, FreeChain, ClearRange, Detached;
      if id !in areas {
        return Failed(ERR_RESOURCE);
      }
      AreaFacts(View(), id);
      if areas[id].space != p {
        return Failed(ERR_RESOURCE);
      }
      ghost var s := View();
      DetachedInv(s, p, id);
      SlotsDetached(s, p, id, holder, mem.free);
      DetachedParts(s, p, id);
      var area := areas[id];
      var group := groups[area.group];
      spaces := spaces[p := spaces[p].(ptab := ClearRange(spaces[p].ptab, area.virt, area.length),
        areas := L.Without(spaces[p].areas, id))];
      areas := areas - {id};
      groups := groups[area.group := group.(refcount := group.refcount - 1, areas := L.Without(group.areas, id))];
      assert View() == Detached(s, p, id);
      if group.refcount - 1 == 0 {
        ReleaseGroup(area.group);
      }
      return Done(0);
    }

    /** Take apart a group that no area uses. */
    method ReleaseGroup(g: GroupId)
      requires Inv(View()) && mem.Valid() && Held(View(), holder, mem.free) && Bounded(holder, mem.pagelist.Length)
      requires mem.used == |holder| + kernelPages
      requires g in groups && groups[g].refcount == 0 && forall h :: h in groups && h != g ==> groups[h].refcount > 0
      modifies this`groups, this`holder, mem, mem.pagelist
      ensures Valid() && Total() == old(Total()) && groups == old(groups) - {g}
      ensures old(groups)[g].physmap ==> mem.free == old(mem.free)
      ensures !old(groups)[g].physmap ==> forall q :: q in mem.free <==> q in old(mem.free) || q in old(groups)[g].pages
    {
      hide Inv, Held, FreeChain;
      ghost var s := View();
      NobodyLeft(s, g);
      GroupDropped(s, g);
      if groups[g].physmap {
        SlotsPhysmapDropped(s, g, holder, mem.free);
      } else {
        GroupPages(s, g, holder, mem.free);
        PutPages(groups[g].pages);
        SlotsGroupDropped(s, g, holder, old(mem.free), mem.free);
        holder := holder - ToSet(groups[g].pages);
      }
      groups := groups - {g};
      assert View() == s.(groups := s.groups - {g});
    }

    /**
     * Grow an area to the whole pages of `size`.  Whose area it is, who shares its pages and who
     * owns them is not looked at: all stays in order when it is the caller's, alone in a group that
     * owns its pages, and the mappings stay in order only when it is the caller's and alone.
     */
    method AreaResize(p: SpaceId, id: AreaId, size: nat) returns (o: Outcome)
      requires Valid() && p in spaces
      requires id in areas && size / 0x1000 > areas[id].length ==>
        SearchSound(spaces[p].ptab, areas[id].virt + areas[id].length, size / 0x1000 - areas[id].length)
      modifies this, mem
      ensures o != Panic && (id in old(areas) && size > old(areas)[id].length * 0x1000 ==>
        GrowsAlone(old(View()), p, id)) ==>
        Valid() && Total() == old(Total())
      ensures id !in old(areas) <==> o == Failed(ERR_RESOURCE)
      ensures o.Failed? ==> unchanged(this) && unchanged(mem) && (o == Failed(ERR_RESOURCE) || o == Failed(ERR_MEMORY))
      ensures o.Done? ==> id in old(areas) && old(areas)[id].group in old(groups)
      ensures o.Done? && size <= old(areas)[id].length * 0x1000 ==> View() == old(View()) && unchanged(mem)
      ensures o.Done? && size > old(areas)[id].length * 0x1000 ==>
        && id in areas && areas[id].length == size / 0x1000
        && areas[id].group in groups && |groups[areas[id].group].pages| == size / 0x1000
        && old(areas)[id].virt + size / 0x1000 <= ENTRIES && old(areas)[id].length <= size / 0x1000
        && View() == Grown(old(View()), p, id, groups[areas[id].group].pages[old(areas)[id].length..])
        && old(mem.free) == groups[areas[id].group].pages[old(areas)[id].length..] + mem.free
        && (Inv(View()) <==> old(areas)[id].space == p && old(groups)[old(areas)[id].group].areas == [id])
      ensures id in old(areas) && size > old(areas)[id].length * 0x1000 ==>
        var n, at := size / 0x1000 - old(areas)[id].length, old(areas)[id].virt + old(areas)[id].length;
        && (o == Failed(ERR_MEMORY) <==> !(n > 0 && FreeRun(old(spaces)[p].ptab, at, n)))
        && (o == Panic <==> n > 0 && FreeRun(old(spaces)[p].ptab, at, n) && |old(mem.free)| < n)
        && (o.Done? ==> p in spaces && Shown(spaces[p].ptab, at, old(mem.free)[..n])
                        && SameBut(old(spaces)[p].ptab, spaces[p].ptab, at, n))
      ensures id in old(areas) && size <= old(areas)[id].length * 0x1000 ==> o == Done(0)
    {
      hide Inv, Held, Bounded, FreeChain, MapRange, Grown, Hold, GrowsAlone, Shown, SameBut;
      if id !in areas {
        return Failed(ERR_RESOURCE);
      }
      AreaFacts(View(), id);
      var g := areas[id].group;
      var group := groups[g];
      var n := |group.pages|;
      if size <= n * 0x1000 {
        return Done(0);
      }
      var add := size / 0x1000 - n;
      var at := LocateSpan(spaces[p].ptab, areas[id].virt + n, add);
      FoundExactly(spaces[p].ptab, areas[id].virt + n, add, at);
      if at != areas[id].virt + n {
        return Failed(ERR_MEMORY);
      }
      ghost var s := View();
      FreeDistinct();
      var more, ok := MapNew(p, at, add, false, 0);
      if !ok {
        return Panic;
      }
      areas := areas[id := areas[id].(length := areas[id].length + add)];
      groups := groups[g := group.(pages := group.pages + more)];
      GrownParts(s, p, id, more);
      assert View() == Grown(s, p, id, more);
      assert (group.pages + more)[n..] == more;
      GrowthExactly(s, p, id, more);
      if GrowsAlone(s, p, id) {
        GrowKeeps(s, p, id, more, holder, old(mem.free), mem.free, mem.pagelist.Length);
        holder := Hold(holder, more, Page(g, n));
      }
      return Done(0);
    }

    /** The kernel's image of memory, in no address space; other teams may clone it. */
    method AreaCreateUber(size: nat, addr: nat, g: GroupId, a: AreaId)
      requires Valid() && g !in groups && a !in areas
      modifies this`areas, this`groups
      ensures Valid() && Total() == old(Total())
      ensures areas == old(areas)[a := Area(g, 0, 0, PagesFor(size))]
      ensures g in groups && groups == old(groups)[g := Group(groups[g].pages, 1, true, [a])]
        && |groups[g].pages| == PagesFor(size)
      ensures forall k :: 0 <= k < PagesFor(size) ==> groups[g].pages[k] == addr / 0x1000 + k
    {
      hide Inv, Held, FreeChain;
      ghost var s := View();
      var n := PagesFor(size);
      var pages: seq<nat> := [];
      var i := 0;
      while i < n
        invariant 0 <= i <= n && |pages| == i
        invariant forall k :: 0 <= k < i ==> pages[k] == addr / 0x1000 + k
      {
        pages := pages + [addr / 0x1000 + i];
        i := i + 1;
      }
      GroupAdded(s, g, pages, true);
      SlotsPhysmapAdded(s, g, pages, holder, mem.free);
      UberAdded(s.(groups := s.groups[g := Group(pages, 0, true, [])]), a, g, holder, mem.free);
      areas := areas[a := Area(g, 0, 0, n)];
      groups := groups[g := Group(pages, 1, true, [a])];
      assert s.groups[g := Group(pages, 0, true, [])][g := Group(pages, 1, true, [a])] == groups;
    }

    /** A new address space: two pages for its tables, and nothing mapped. */
    method AspaceCreate(p: SpaceId, blank: PageTable) returns (o: Outcome)
      requires Valid() && p !in spaces && p != 0
      requires forall i :: 0 <= i < ENTRIES ==> blank[i] == 0
      modifies this`spaces, this`holder, mem
      ensures o == Panic <==> |old(mem.free)| < 2
      ensures o != Panic ==> o == Done(0) && Valid() && Total() == old(Total())
      ensures o != Panic ==>
        && |old(mem.free)| >= 2 && mem.free == old(mem.free)[2..]
        && spaces == old(spaces)[p := Space(blank, [], old(mem.free)[..2])]
    {
      hide Inv, Held, Bounded, FreeChain, Hold;
      ghost var s := View();
      FreeDistinct();
      var pdir := mem.GetPage();
      if pdir == 0 { return Panic; }
      var ptab := mem.GetPage();
      if ptab == 0 { return Panic; }
      ghost var tables := [pdir, ptab];
      assert old(mem.free) == tables + mem.free;
      SpaceAdded(s, p, blank, tables);
      SlotsSpaceAdded(s, p, blank, tables, holder, old(mem.free), mem.free);
      HoldBounded(s, holder, old(mem.free), tables, mem.free, Table(p, 0), mem.pagelist.Length);
      spaces := spaces[p := Space(blank, [], [pdir, ptab])];
      holder := Hold(holder, tables, Table(p, 0));
      return Done(0);
    }

    /** Destroy every area of a space, then give back its tables. */
    method AspaceDestroy(p: SpaceId)
      requires Valid() && p in spaces
      modifies this, mem, mem.pagelist
      ensures Valid() && Total() == old(Total()) && p !in spaces
      ensures forall a :: a in areas <==> a in old(areas) && old(areas)[a].space != p
      ensures spaces.Keys == old(spaces.Keys) - {p}
    {
      hide Inv, Held, FreeChain, Detached;
      while spaces[p].areas != []
        invariant Valid() && Total() == old(Total()) && p in spaces && spaces.Keys == old(spaces.Keys)
        invariant forall a :: a in areas ==> a in old(areas) && areas[a] == old(areas)[a]
        invariant forall a :: a in old(areas) && old(areas)[a].space != p ==> a in areas
        decreases |spaces[p].areas|
      {
        var area := spaces[p].areas[0];
        FirstArea(View(), p);
        DetachedShorter(View(), p, area);
        var o := AreaDestroy(p, area);
      }
      ghost var s := View();
      NoAreas(s, p);
      SpaceDropped(s, p);
      SpaceTables(s, p, holder, mem.free);
      ghost var before := mem.free;
      PutPages(spaces[p].tables);
      SlotsSpaceDropped(s, p, holder, before, mem.free);
      holder := holder - ToSet(spaces[p].tables);
      spaces := spaces - {p};
    }
  }

  lemma UberAdded(s: State, a: AreaId, g: GroupId, holder: map<nat, Slot>, free: seq<nat>)
    requires Inv(s) && a !in s.areas && g in s.groups && 0 < |s.groups[g].pages| && s.groups[g].areas == []
      && s.groups[g].refcount == 0
    requires Held(s, holder, free)
    ensures var u := State(s.spaces, s.areas[a := Area(g, 0, 0, |s.groups[g].pages|)],
                           s.groups[g := s.groups[g].(refcount := 1, areas := [a])]);
            Inv(u) && Held(u, holder, free)
  {
    hide Mapped;
    var u := State(s.spaces, s.areas[a := Area(g, 0, 0, |s.groups[g].pages|)],
      s.groups[g := s.groups[g].(refcount := 1, areas := [a])]);
    forall q | q in u.spaces ensures Mapped(u.spaces[q], u.areas, u.groups) {
      assert Mapped(s.spaces[q], s.areas, s.groups);
      forall b | b in s.spaces[q].areas
        ensures b in s.areas && b != a && s.areas[b].group in s.groups
      {
        GroupOf(s, q, b);
      }
      MappedSame(s.spaces[q], s.areas, s.groups, u.areas, u.groups);
    }
    HeldSame(s, u, holder, free);
  }

  lemma FirstArea(s: State, p: SpaceId)
    requires Inv(s) && p in s.spaces && s.spaces[p].areas != []
    ensures s.spaces[p].areas[0] in s.areas && s.areas[s.spaces[p].areas[0]].space == p
  {
    GroupOf(s, p, s.spaces[p].areas[0]);
  }

  lemma DetachedShorter(s: State, p: SpaceId, a: AreaId)
    requires Inv(s) && p in s.spaces && a in s.areas && s.areas[a].space == p
    ensures s.areas[a].group in s.groups && s.areas[a].virt + s.areas[a].length <= ENTRIES
    ensures p in Detached(s, p, a).spaces && |Detached(s, p, a).spaces[p].areas| < |s.spaces[p].areas|
    ensures Detached(s, p, a).spaces.Keys == s.spaces.Keys
  {
    DetachedInv(s, p, a);
    L.WithoutDistinct(s.spaces[p].areas, a);
  }

  lemma NoAreas(s: State, p: SpaceId)
    requires Inv(s) && p in s.spaces && s.spaces[p].areas == []
    ensures forall a :: a in s.areas ==> s.areas[a].space != p
  {
    hide AllMapped;
  }

  lemma SpaceTables(s: State, p: SpaceId, holder: map<nat, Slot>, free: seq<nat>)
    requires Held(s, holder, free) && p in s.spaces
    ensures Distinct(s.spaces[p].tables)
    ensures forall q :: q in s.spaces[p].tables ==> q in holder && q !in free
  {
    BlockHeld(s, holder, free, s.spaces[p].tables, Table(p, 0));
  }

  /** A span is found where the search began exactly if there is a free run. */
  lemma FoundExactly(t: PageTable, start: nat, len: nat, at: nat)
    requires start > 0 && (len > 0 ==> SearchSound(t, start, len)) && Located(t, start, len, at)
    ensures at == start <==> len > 0 && FreeRun(t, start, len)
  {
    if len > 0 && FreeRun(t, start, len) {
      assert RunExists(t, Start(start), len);
    }
  }

  lemma GrownParts(s: State, p: SpaceId, a: AreaId, more: seq<nat>)
    requires p in s.spaces && a in s.areas && s.areas[a].group in s.groups
    requires s.areas[a].virt + s.areas[a].length + |more| <= ENTRIES
    ensures var sp, area, gr := s.spaces[p], s.areas[a], s.groups[s.areas[a].group];
            && Grown(s, p, a, more).spaces ==
              s.spaces[p := sp.(ptab := MapRange(sp.ptab, area.virt + area.length, more))]
            && Grown(s, p, a, more).areas == s.areas[a := area.(length := area.length + |more|)]
            && Grown(s, p, a, more).groups == s.groups[area.group := gr.(pages := gr.pages + more)]
  {
  }

  /** The area is the caller's, alone in a group that owns its pages. */
  ghost predicate GrowsAlone(s: State, p: SpaceId, a: AreaId) {
    && a in s.areas && s.areas[a].space == p && s.areas[a].group in s.groups
    && s.groups[s.areas[a].group].areas == [a] && !s.groups[s.areas[a].group].physmap
  }

  lemma GrowKeeps(s: State, p: SpaceId, a: AreaId, more: seq<nat>, holder: map<nat, Slot>, free: seq<nat>,
      rest: seq<nat>, limit: nat)
    requires Inv(s) && p in s.spaces && GrowsAlone(s, p, a) && 0 < |more|
    requires FreeRun(s.spaces[p].ptab, s.areas[a].virt + s.areas[a].length, |more|)
    requires Held(s, holder, free) && Bounded(holder, limit) && Distinct(free) && forall q :: q in free ==>
      0 < q < limit
    requires free == more + rest
    ensures var u := Grown(s, p, a, more);
            var m := Hold(holder, more, Page(s.areas[a].group, |s.groups[s.areas[a].group].pages|));
            Inv(u) && Held(u, m, rest) && Bounded(m, limit) && |m| == |holder| + |more|
  {
    hide Inv, Held, Grown, Hold;
    GrownInv(s, p, a, more);
    SlotsGrown(s, p, a, more, holder, free, rest);
    HoldBounded(s, holder, free, more, rest, Page(s.areas[a].group, |s.groups[s.areas[a].group].pages|), limit);
  }

  /** The new size is reached exactly when it is a whole number of pages. */
  lemma WholePages(size: nat, pages: nat)
    requires pages == size / 0x1000
    ensures pages * 0x1000 >= size <==> size % 0x1000 == 0
  {
  }

  /** Growing a shared group leaves the other areas short of it. */
  lemma SharedGrowthUnlinks(s: State, p: SpaceId, a: AreaId, more: seq<nat>)
    requires Linked(s) && p in s.spaces && a in s.areas && 0 < |more|
    requires s.areas[a].group in s.groups && s.areas[a].virt + s.areas[a].length + |more| <= ENTRIES
    requires s.groups[s.areas[a].group].areas != [a]
    ensures !Linked(Grown(s, p, a, more))
  {
    hide MapRange;
    var g := s.areas[a].group;
    InItsGroup(s, a);
    var list := s.groups[g].areas;
    var i :| 0 <= i < |list| && list[i] == a;
    var j := if i == 0 then 1 else 0;
    assert list[j] != a by {
      assert Distinct(list) && (|list| == 1 ==> list == [a]);
    }
    var b := list[j];
    var u := Grown(s, p, a, more);
    assert u.areas[b].length == |s.groups[g].pages| && u.groups[g].pages == s.groups[g].pages + more;
  }

  /** Growing an area of another space maps its pages where no area of the caller's space is. */
  lemma ForeignGrowthUncovered(s: State, p: SpaceId, a: AreaId, more: seq<nat>)
    requires Inv(s) && p in s.spaces && a in s.areas && s.areas[a].group in s.groups && 0 < |more|
    requires FreeRun(s.spaces[p].ptab, s.areas[a].virt + s.areas[a].length, |more|)
    requires s.areas[a].space != p
    ensures !AllMapped(Grown(s, p, a, more))
  {
    var u, at := Grown(s, p, a, more), s.areas[a].virt + s.areas[a].length;
    var sp := u.spaces[p];
    assert Mapped(s.spaces[p], s.areas, s.groups);
    assert s.spaces[p].ptab[at] == 0 && sp.ptab[at] == Pte(more[0]);
    forall b | b in sp.areas ensures b in u.areas && !Covers(u.areas[b], at) {
      assert b != a && u.areas[b] == s.areas[b];
      if Covers(s.areas[b], at) {
        NotFree(s.spaces[p].ptab, s.areas[b], s.groups[s.areas[b].group].pages, at);
      }
    }
    assert !Mapped(sp, u.areas, u.groups);
  }

  lemma NotFree(t: PageTable, area: Area, pages: seq<nat>, i: int)
    requires Maps(t, area, pages) && Covers(area, i)
    ensures 0 <= i < ENTRIES && t[i] != 0
  {
    assert t[area.virt + (i - area.virt)] == Pte(pages[i - area.virt]);
  }

  /**
   * Over a free run, growing keeps the lists and the mappings right exactly when the area is the caller's and
   * has its group to itself.
   */
  lemma GrowthExactly(s: State, p: SpaceId, a: AreaId, more: seq<nat>)
    requires Inv(s) && p in s.spaces && a in s.areas && s.areas[a].group in s.groups && 0 < |more|
    requires FreeRun(s.spaces[p].ptab, s.areas[a].virt + s.areas[a].length, |more|)
    ensures Inv(Grown(s, p, a, more)) <==> s.areas[a].space == p && s.groups[s.areas[a].group].areas == [a]
  {
    hide Linked, AllMapped, Grown;
    if s.groups[s.areas[a].group].areas != [a] {
      SharedGrowthUnlinks(s, p, a, more);
    } else if s.areas[a].space != p {
      ForeignGrowthUncovered(s, p, a, more);
    } else {
      GrownInv(s, p, a, more);
    }
  }

  /**
   * An instance: two spaces, one area; resized by the other space, its new page is mapped there, where there is
   * no area.
   */
  lemma ForeignGrowthExample()
    ensures var none: PageTable := seq(ENTRIES, i => 0);
            var s := State(map[1 := Space(MapRange(none, 512, [7]), [3], []), 2 := Space(none, [], [])],
                           map[3 := Area(5, 1, 512, 1)], map[5 := Group([7], 1, false, [3])]);
            && Inv(s) && GrowsAlone(s, 1, 3)
            && Inv(Grown(s, 1, 3, [8])) && !Inv(Grown(s, 2, 3, [8]))
              && Grown(s, 2, 3, [8]).spaces[2].ptab[513] == Pte(8)
  {
    hide Pte;
    var none: PageTable := seq(ENTRIES, i => 0);
    var s := State(map[1 := Space(MapRange(none, 512, [7]), [3], []), 2 := Space(none, [], [])],
                   map[3 := Area(5, 1, 512, 1)], map[5 := Group([7], 1, false, [3])]);
    assert Linked(s);
    assert Mapped(s.spaces[1], s.areas, s.groups) by {
      assert Maps(s.spaces[1].ptab, s.areas[3], [7]);
      assert forall i :: 0 <= i < ENTRIES && s.spaces[1].ptab[i] != 0 ==> Covers(s.areas[3], i);
    }
    assert Mapped(s.spaces[2], s.areas, s.groups);
    GrowthExactly(s, 1, 3, [8]);
    GrowthExactly(s, 2, 3, [8]);
  }

  /** The pages an area grows by are accounted for exactly when its group owns its pages. */
  lemma GrowthNeedsOwnPages(s: State, p: SpaceId, a: AreaId, more: seq<nat>, holder: map<nat, Slot>, free: seq<nat>,
      rest: seq<nat>)
    requires p in s.spaces && a in s.areas && s.areas[a].group in s.groups && 0 < |more|
    requires s.areas[a].virt + s.areas[a].length + |more| <= ENTRIES
    requires Held(s, holder, free) && free == more + rest && Distinct(free)
    ensures (forall q :: q in more ==> exists h {:trigger IsSlot(Grown(s, p, a, more), h)} ::
               IsSlot(Grown(s, p, a, more), h) && PageIn(Grown(s, p, a, more), h) == q)
            <==> !s.groups[s.areas[a].group].physmap
  {
    hide MapRange;
    var g := s.areas[a].group;
    var u := Grown(s, p, a, more);
    if s.groups[g].physmap {
      assert more[0] in more;
      forall h | IsSlot(u, h) ensures PageIn(u, h) != more[0] {
        assert IsSlot(s, h) && PageIn(s, h) == PageIn(u, h);
        assert free[0] == more[0] && free[0] in free;
      }
    } else {
      forall q | q in more ensures exists h {:trigger IsSlot(u, h)} :: IsSlot(u, h) && PageIn(u, h) == q {
        var k :| 0 <= k < |more| && more[k] == q;
        assert IsSlot(u, Page(g, |s.groups[g].pages| + k)) && PageIn(u, Page(g, |s.groups[g].pages| + k)) == q;
      }
    }
  }

  lemma AreaFacts(s: State, a: AreaId)
    requires Inv(s) && a in s.areas
    ensures s.areas[a].group in s.groups && s.areas[a].length == |s.groups[s.areas[a].group].pages| > 0
    ensures s.areas[a].space != 0 ==> s.areas[a].space in s.spaces
    ensures s.groups[s.areas[a].group].refcount == |s.groups[s.areas[a].group].areas| >= 1
    ensures 0 !in s.spaces
  {
    InItsGroup(s, a);
  }

  lemma AttachedParts(s: State, p: SpaceId, a: AreaId, g: GroupId, at: nat)
    requires p in s.spaces && g in s.groups && at + |s.groups[g].pages| <= ENTRIES
    ensures var sp, gr := s.spaces[p], s.groups[g];
            var listed := sp.(areas := sp.areas + [a]);
            && Attached(s, p, a, g, at).spaces ==
              s.spaces[p := listed][p := listed.(ptab := MapRange(sp.ptab, at, gr.pages))]
            && Attached(s, p, a, g, at).areas == s.areas[a := Area(g, p, at, |gr.pages|)]
            && Attached(s, p, a, g, at).groups ==
              s.groups[g := gr.(refcount := gr.refcount + 1, areas := gr.areas + [a])]
  {
    hide MapRange;
  }

  lemma DetachedParts(s: State, p: SpaceId, a: AreaId)
    requires p in s.spaces && a in s.areas && s.areas[a].group in s.groups
      && s.areas[a].virt + s.areas[a].length <= ENTRIES
    ensures var sp, area, gr := s.spaces[p], s.areas[a], s.groups[s.areas[a].group];
            && Detached(s, p, a).spaces ==
              s.spaces[p := sp.(ptab := ClearRange(sp.ptab, area.virt, area.length), areas := L.Without(sp.areas, a))]
            && Detached(s, p, a).areas == s.areas - {a}
            && Detached(s, p, a).groups ==
              s.groups[area.group := gr.(refcount := gr.refcount - 1, areas := L.Without(gr.areas, a))]
  {
  }

  lemma NobodyLeft(s: State, g: GroupId)
    requires Inv(s) && g in s.groups && s.groups[g].refcount == 0
    ensures s.groups[g].areas == []
  {
    hide AllMapped;
  }

  lemma GroupPages(s: State, g: GroupId, holder: map<nat, Slot>, free: seq<nat>)
    requires Held(s, holder, free) && g in s.groups && !s.groups[g].physmap
    ensures Distinct(s.groups[g].pages)
    ensures forall q :: q in s.groups[g].pages ==> q in holder && q !in free
  {
    BlockHeld(s, holder, free, s.groups[g].pages, Page(g, 0));
  }

  lemma ViewCreated(s: State, p: SpaceId, a: AreaId, g: GroupId, at: nat, pages: seq<nat>, physmap: bool)
    requires p in s.spaces && g !in s.groups && at + |pages| <= ENTRIES
    ensures var sp := s.spaces[p];
            Attached(s.(groups := s.groups[g := Group(pages, 0, physmap, [])]), p, a, g, at) ==
            State(s.spaces[p := sp.(ptab := MapRange(sp.ptab, at, pages))]
                          [p := sp.(ptab := MapRange(sp.ptab, at, pages), areas := sp.areas + [a])],
                  s.areas[a := Area(g, p, at, |pages|)],
                  s.groups[g := Group(pages, 1, physmap, [a])])
  {
    hide MapRange;
    assert [] + [a] == [a];
  }

  /** Adding a group and attaching an area to it keeps everything. */
  lemma CreateKeeps(s: State, p: SpaceId, a: AreaId, g: GroupId, at: nat, pages: seq<nat>, physmap: bool,
                    holder: map<nat, Slot>, free: seq<nat>, rest: seq<nat>, limit: nat)
    requires Inv(s) && p in s.spaces && g !in s.groups && a !in s.areas
    requires 0 < at && 0 < |pages| && FreeRun(s.spaces[p].ptab, at, |pages|)
    requires Held(s, holder, free) && Bounded(holder, limit) && Distinct(free) && forall q :: q in free ==>
      0 < q < limit
    requires if physmap then rest == free else free == pages + rest
    ensures var u := Attached(s.(groups := s.groups[g := Group(pages, 0, physmap, [])]), p, a, g, at);
            var m := if physmap then holder else Hold(holder, pages, Page(g, 0));
            Inv(u) && Held(u, m, rest) && Bounded(m, limit) && |m| == |holder| + (if physmap then 0 else |pages|)
  {
    hide Inv, Held, Attached, Hold;
    var t := s.(groups := s.groups[g := Group(pages, 0, physmap, [])]);
    GroupAdded(s, g, pages, physmap);
    AttachedInv(t, p, a, g, at);
    var m := if physmap then holder else Hold(holder, pages, Page(g, 0));
    if physmap {
      SlotsPhysmapAdded(s, g, pages, holder, free);
    } else {
      SlotsGroupAdded(s, g, pages, holder, free, rest);
      HoldBounded(s, holder, free, pages, rest, Page(g, 0), limit);
    }
    SlotsAttached(t, p, a, g, at, m, rest);
  }

  lemma HoldBounded(s: State, holder: map<nat, Slot>, free: seq<nat>, pages: seq<nat>, rest: seq<nat>, first: Slot,
      limit: nat)
    requires Held(s, holder, free) && Bounded(holder, limit) && free == pages + rest && Distinct(free)
    requires forall q :: q in free ==> 0 < q < limit
    ensures Bounded(Hold(holder, pages, first), limit)
  {
    TakenFresh(holder, free, pages, rest);
    HoldAdds(holder, pages, first);
    assert forall q :: q in pages ==> q in free;
  }

  lemma NotBefore(pages: seq<nat>, i: nat)
    requires Distinct(pages) && i < |pages|
    ensures pages[i] !in pages[..i] && pages[i] in pages
  {
  }

  lemma NothingMappedYet(t: PageTable, at: nat)
    requires at <= ENTRIES
    ensures MapRange(t, at, []) == t
  {
  }

  lemma OneMoreMapped(t: PageTable, at: nat, pages: seq<nat>, q: nat)
    requires at + |pages| < ENTRIES
    ensures MapRange(t, at, pages)[at + |pages| := Pte(q)] == MapRange(t, at, pages + [q])
  {
  }
}
