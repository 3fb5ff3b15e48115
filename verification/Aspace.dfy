/**
 * Address spaces (blt/kernel/aspace.c): page tables, the areas mapped into them,
 * and the groups of physical pages that areas share by reference count.
 */
module Aspace {
  import opened L = List
  import opened Pages
  import opened Seqs
  import opened Spans

  type AreaId = int
  type GroupId = int
  type SpaceId = int

  const ERR_NONE := 0
  const ERR_RESOURCE := -2
  const ERR_MEMORY := -3

  /** `space` is 0 for the area that is in no address space (the kernel's image of memory). */
  datatype Area = Area(group: GroupId, space: SpaceId, virt: nat, length: nat)

  /** `pages[k]` is the group's page `k`; a `physmap` group does not own its pages. */
  datatype Group = Group(pages: seq<nat>, refcount: int, physmap: bool, areas: seq<int>)

  /** `tables` are the pages that hold the space's page directory and page table. */
  datatype Space = Space(ptab: PageTable, areas: seq<int>, tables: seq<nat>)

  datatype State = State(spaces: map<SpaceId, Space>, areas: map<AreaId, Area>, groups: map<GroupId, Group>)

  /** The page table entry of a page: 20 bits of page number, and present, writable, user. */
  function Pte(page: nat): (e: int)
    ensures e != 0
  {
    page % 0x10_0000 * 0x1000 + 7
  }

  /** The page that the machine goes to by an entry: its bits 12 to 31. */
  function Frame(e: int): nat {
    e / 0x1000 % 0x10_0000
  }

  /** Present, writable, for users; and the other bits below the page number. */
  function Rights(e: int): nat {
    e % 0x1000
  }

  /** The entry of a page leads to just that page, if its number has 20 bits, present, writable, for users. */
  lemma PteLeads(page: nat)
    ensures Rights(Pte(page)) == 7 && (Frame(Pte(page)) == page <==> page < 0x10_0000)
  {
  }

  /** The machine finds `pages` from entry `at` on, and may write to them. */
  ghost predicate Shown(t: PageTable, at: nat, pages: seq<nat>) {
    && at + |pages| <= ENTRIES
    && forall k {:trigger pages[k]} :: 0 <= k < |pages| ==>
         Rights(t[at + k]) == 7 && (pages[k] < 0x10_0000 ==> Frame(t[at + k]) == pages[k])
  }

  /** Nothing but `len` entries from `at` on changed. */
  ghost predicate SameBut(t: PageTable, u: PageTable, at: nat, len: nat) {
    forall i {:trigger u[i]} :: 0 <= i < ENTRIES && !(at <= i < at + len) ==> u[i] == t[i]
  }

  /** `pages` mapped from entry `at` on. */
  function MapRange(t: PageTable, at: nat, pages: seq<nat>): PageTable
    requires at + |pages| <= ENTRIES
  {
    seq(ENTRIES, i requires 0 <= i < ENTRIES => if at <= i < at + |pages| then Pte(pages[i - at]) else t[i])
  }

  lemma MapRangeShows(t: PageTable, at: nat, pages: seq<nat>)
    requires at + |pages| <= ENTRIES
    ensures Shown(MapRange(t, at, pages), at, pages) && SameBut(t, MapRange(t, at, pages), at, |pages|)
  {
    hide Pte, Frame, Rights;
    var u := MapRange(t, at, pages);
    forall k {:trigger pages[k]} | 0 <= k < |pages|
      ensures Rights(u[at + k]) == 7 && (pages[k] < 0x10_0000 ==> Frame(u[at + k]) == pages[k])
    {
      PteLeads(pages[k]);
      assert u[at + k] == Pte(pages[k]);
    }
  }

  function ClearRange(t: PageTable, at: nat, len: nat): PageTable
    requires at + len <= ENTRIES
  {
    seq(ENTRIES, i requires 0 <= i < ENTRIES => if at <= i < at + len then 0 else t[i])
  }

  // ---- the invariants

  /** Every area is on its group's list and its space's... */
  ghost predicate AreasLinked(s: State) {
    forall a {:trigger s.areas[a]} :: a in s.areas ==>
      && s.areas[a].group in s.groups && a in s.groups[s.areas[a].group].areas
      && s.areas[a].length == |s.groups[s.areas[a].group].pages| > 0
      && (s.areas[a].space != 0 ==> s.areas[a].space in s.spaces && a in s.spaces[s.areas[a].space].areas)
  }

  /** ...which hold nothing else, once each, and reference counts are the lengths of the groups' lists. */
  ghost predicate GroupsLinked(s: State) {
    forall g {:trigger s.groups[g]} :: g in s.groups ==>
      && Distinct(s.groups[g].areas) && s.groups[g].refcount == |s.groups[g].areas|
      && (forall a :: a in s.groups[g].areas ==> a in s.areas && s.areas[a].group == g)
  }

  ghost predicate SpacesLinked(s: State) {
    forall p {:trigger s.spaces[p]} :: p in s.spaces ==>
      && Distinct(s.spaces[p].areas)
      && (forall a :: a in s.spaces[p].areas ==> a in s.areas && s.areas[a].space == p)
  }

  ghost predicate Linked(s: State) {
    0 !in s.spaces && AreasLinked(s) && GroupsLinked(s) && SpacesLinked(s)
  }

  /** Area `a` lies in the table and entry `k` of it maps page `k` of its group. */
  ghost predicate Maps(t: PageTable, area: Area, pages: seq<nat>) {
    && 0 < area.virt && area.virt + area.length <= ENTRIES && area.length == |pages| > 0
    && (forall k {:trigger pages[k]} :: 0 <= k < |pages| ==> t[area.virt + k] == Pte(pages[k]))
  }

  ghost predicate Apart(a: Area, b: Area) {
    a.virt + a.length <= b.virt || b.virt + b.length <= a.virt
  }

  ghost predicate Covers(a: Area, i: int) {
    a.virt <= i < a.virt + a.length
  }

  /** The areas of a space map their pages, do not overlap, and nothing else is mapped. */
  ghost predicate Mapped(sp: Space, areas: map<AreaId, Area>, groups: map<GroupId, Group>) {
    && (forall a :: a in sp.areas ==> a in areas)
    && (forall a {:trigger areas[a]} :: a in sp.areas ==>
          && areas[a].group in groups && Maps(sp.ptab, areas[a], groups[areas[a].group].pages))
    && (forall a, b {:trigger areas[a], areas[b]} :: a in sp.areas && b in sp.areas && a != b ==>
      Apart(areas[a], areas[b]))
    && (forall i {:trigger sp.ptab[i]} :: 0 <= i < ENTRIES && sp.ptab[i] != 0 ==>
          exists a {:trigger areas[a]} :: a in sp.areas && Covers(areas[a], i))
  }

  ghost predicate AllMapped(s: State) {
    forall p {:trigger s.spaces[p]} :: p in s.spaces ==> Mapped(s.spaces[p], s.areas, s.groups)
  }

  ghost predicate Inv(s: State) {
    Linked(s) && AllMapped(s)
  }

  lemma MapsShows(t: PageTable, area: Area, pages: seq<nat>)
    requires Maps(t, area, pages)
    ensures Shown(t, area.virt, pages)
  {
    MapRangeShows(t, area.virt, pages);
    var u := MapRange(t, area.virt, pages);
    forall i | 0 <= i < ENTRIES ensures u[i] == t[i] {
      if Covers(area, i) {
        assert t[area.virt + (i - area.virt)] == Pte(pages[i - area.virt]);
      }
    }
    assert u == t;
  }

  /** In order, the machine finds the pages of each area's group where the area is, whoever uses it. */
  lemma AreasShow(s: State, a: AreaId)
    requires Inv(s) && a in s.areas && s.areas[a].space != 0
    ensures s.areas[a].space in s.spaces && s.areas[a].group in s.groups
    ensures Shown(s.spaces[s.areas[a].space].ptab, s.areas[a].virt, s.groups[s.areas[a].group].pages)
    ensures s.areas[a].length == |s.groups[s.areas[a].group].pages|
  {
    hide Shown, Pte;
    var sp := s.spaces[s.areas[a].space];
    assert Mapped(sp, s.areas, s.groups);
    MapsShows(sp.ptab, s.areas[a], s.groups[s.areas[a].group].pages);
  }

  // ---- attaching an area to a group and a space

  function Attached(s: State, p: SpaceId, a: AreaId, g: GroupId, at: nat): State
    requires p in s.spaces && g in s.groups && at + |s.groups[g].pages| <= ENTRIES
  {
    var sp, gr := s.spaces[p], s.groups[g];
    State(
      s.spaces[p := sp.(ptab := MapRange(sp.ptab, at, gr.pages), areas := sp.areas + [a])],
      s.areas[a := Area(g, p, at, |gr.pages|)],
      s.groups[g := gr.(refcount := gr.refcount + 1, areas := gr.areas + [a])])
  }

  lemma AttachedLinked(s: State, p: SpaceId, a: AreaId, g: GroupId, at: nat)
    requires Linked(s) && p in s.spaces && g in s.groups && a !in s.areas
    requires 0 < |s.groups[g].pages| && at + |s.groups[g].pages| <= ENTRIES
    ensures Linked(Attached(s, p, a, g, at))
  {
    hide MapRange;
    AppendDistinct(s.spaces[p].areas, a);
    AppendDistinct(s.groups[g].areas, a);
  }

  /** The space that gets the area: its new entries were free, so nothing it had is touched. */
  lemma AttachedHere(sp: Space, areas: map<AreaId, Area>, groups: map<GroupId, Group>, a: AreaId, area: Area,
      after: map<GroupId, Group>)
    requires Mapped(sp, areas, groups) && a !in areas && a !in sp.areas
    requires area.group in groups && area.length == |groups[area.group].pages| && 0 < area.virt
    requires FreeRun(sp.ptab, area.virt, area.length) && 0 < area.length
    requires after.Keys == groups.Keys && forall g :: g in groups ==> after[g].pages == groups[g].pages
    ensures Mapped(sp.(ptab := MapRange(sp.ptab, area.virt, groups[area.group].pages), areas := sp.areas + [a]),
      areas[a := area], after)
  {
    var pages := groups[area.group].pages;
    var u := MapRange(sp.ptab, area.virt, pages);
    var m := areas[a := area];
    forall b | b in sp.areas ensures Maps(u, m[b], after[m[b].group].pages) && Apart(m[a], m[b]) {
      AreaApart(sp.ptab, areas[b], groups[areas[b].group].pages, area);
      AreaKept(sp.ptab, u, areas[b], groups[areas[b].group].pages, area);
    }
    forall i | 0 <= i < ENTRIES && u[i] != 0
      ensures exists b {:trigger m[b]} :: b in sp.areas + [a] && Covers(m[b], i)
    {
      if Covers(area, i) {
        assert a in sp.areas + [a] && Covers(m[a], i);
      } else {
        assert sp.ptab[i] != 0;
        var b :| b in sp.areas && Covers(areas[b], i);
        assert m[b] == areas[b];
      }
    }
  }

  lemma CoveredIsUsed(t: PageTable, area: Area, pages: seq<nat>, i: nat)
    requires Maps(t, area, pages) && Covers(area, i)
    ensures t[i] != 0
  {
    assert t[area.virt + (i - area.virt)] == Pte(pages[i - area.virt]);
  }

  /** A mapped area and a free run do not overlap. */
  lemma AreaApart(t: PageTable, area: Area, pages: seq<nat>, run: Area)
    requires Maps(t, area, pages) && FreeRun(t, run.virt, run.length) && 0 < run.length
    ensures Apart(area, run)
  {
    if !Apart(area, run) {
      CoveredIsUsed(t, area, pages, if area.virt < run.virt then run.virt else area.virt);
    }
  }

  lemma AreaKept(t: PageTable, u: PageTable, area: Area, pages: seq<nat>, run: Area)
    requires Maps(t, area, pages) && Apart(area, run)
    requires forall i :: 0 <= i < ENTRIES && !Covers(run, i) ==> u[i] == t[i]
    ensures Maps(u, area, pages) && 0 < area.length
  {
  }

  /** A space whose areas and their pages did not change. */
  lemma MappedSame(sp: Space, areas: map<AreaId, Area>, groups: map<GroupId, Group>, m: map<AreaId, Area>,
      n: map<GroupId, Group>)
    requires Mapped(sp, areas, groups)
    requires forall a :: a in sp.areas ==> a in m
    requires forall a {:trigger m[a]} :: a in sp.areas ==>
               m[a] == areas[a] && m[a].group in n && n[m[a].group].pages == groups[m[a].group].pages
    ensures Mapped(sp, m, n)
  {
    forall i | 0 <= i < ENTRIES && sp.ptab[i] != 0
      ensures exists a {:trigger m[a]} :: a in sp.areas && Covers(m[a], i)
    {
      var a :| a in sp.areas && Covers(areas[a], i);
      assert m[a] == areas[a];
    }
  }

  lemma GroupOf(s: State, p: SpaceId, a: AreaId)
    requires Linked(s) && p in s.spaces && a in s.spaces[p].areas
    ensures a in s.areas && s.areas[a].space == p && s.areas[a].group in s.groups
    ensures a in s.groups[s.areas[a].group].areas
  {
  }

  lemma AttachedInv(s: State, p: SpaceId, a: AreaId, g: GroupId, at: nat)
    requires Inv(s) && p in s.spaces && g in s.groups && a !in s.areas
    requires 0 < at && 0 < |s.groups[g].pages| && FreeRun(s.spaces[p].ptab, at, |s.groups[g].pages|)
    ensures Inv(Attached(s, p, a, g, at))
  {
    hide Mapped, MapRange;
    AttachedLinked(s, p, a, g, at);
    var u := Attached(s, p, a, g, at);
    forall q | q in u.spaces ensures Mapped(u.spaces[q], u.areas, u.groups) {
      assert Mapped(s.spaces[q], s.areas, s.groups);
      if q == p {
        AttachedHere(s.spaces[p], s.areas, s.groups, a, u.areas[a], u.groups);
      } else {
        MappedSame(s.spaces[q], s.areas, s.groups, u.areas, u.groups);
      }
    }
  }

  // ---- detaching an area

  function Detached(s: State, p: SpaceId, a: AreaId): State
    requires p in s.spaces && a in s.areas && s.areas[a].group in s.groups
      && s.areas[a].virt + s.areas[a].length <= ENTRIES
  {
    var sp, area, gr := s.spaces[p], s.areas[a], s.groups[s.areas[a].group];
    State(
      s.spaces[p := sp.(ptab := ClearRange(sp.ptab, area.virt, area.length), areas := L.Without(sp.areas, a))],
      s.areas - {a},
      s.groups[area.group := gr.(refcount := gr.refcount - 1, areas := L.Without(gr.areas, a))])
  }

  lemma DetachedLinked(s: State, p: SpaceId, a: AreaId)
    requires Linked(s) && p in s.spaces && a in s.areas && s.areas[a].space == p
    requires s.areas[a].virt + s.areas[a].length <= ENTRIES
    ensures Linked(Detached(s, p, a))
  {
    hide ClearRange, L.Without, L.IndexOf;
    WithoutDistinct(s.spaces[p].areas, a);
    WithoutDistinct(s.groups[s.areas[a].group].areas, a);
  }

  lemma DetachedHere(sp: Space, areas: map<AreaId, Area>, groups: map<GroupId, Group>, a: AreaId,
      after: map<GroupId, Group>)
    requires Mapped(sp, areas, groups) && Distinct(sp.areas) && a in sp.areas
    requires after.Keys == groups.Keys && forall g :: g in groups ==> after[g].pages == groups[g].pages
    ensures areas[a].virt + areas[a].length <= ENTRIES
    ensures Mapped(sp.(ptab := ClearRange(sp.ptab, areas[a].virt, areas[a].length), areas := L.Without(sp.areas, a)),
      areas - {a}, after)
  {
    hide L.Without, L.IndexOf;
    var area := areas[a];
    assert Maps(sp.ptab, area, groups[area.group].pages);
    var u := ClearRange(sp.ptab, area.virt, area.length);
    var m := areas - {a};
    WithoutDistinct(sp.areas, a);
    var rest := L.Without(sp.areas, a);
    forall b | b in rest ensures b in m && m[b].group in after && Maps(u, m[b], after[m[b].group].pages) {
      assert Apart(areas[b], areas[a]);
      AreaKept(sp.ptab, u, areas[b], groups[areas[b].group].pages, area);
    }
    forall i | 0 <= i < ENTRIES && u[i] != 0 ensures exists b {:trigger m[b]} :: b in rest && Covers(m[b], i) {
      assert sp.ptab[i] != 0;
      var b :| b in sp.areas && Covers(areas[b], i);
      assert m[b] == areas[b];
    }
  }

  lemma DetachedInv(s: State, p: SpaceId, a: AreaId)
    requires Inv(s) && p in s.spaces && a in s.areas && s.areas[a].space == p
    ensures s.areas[a].group in s.groups && s.areas[a].virt + s.areas[a].length <= ENTRIES
    ensures Inv(Detached(s, p, a))
  {
    hide ClearRange, L.Without, L.IndexOf, Maps;
    assert a in s.spaces[p].areas;
    AreaInTable(s.spaces[p], s.areas, s.groups, a);
    DetachedLinked(s, p, a);
    var u := Detached(s, p, a);
    forall q | q in u.spaces ensures Mapped(u.spaces[q], u.areas, u.groups) {
      assert Mapped(s.spaces[q], s.areas, s.groups);
      if q == p {
        DetachedHere(s.spaces[p], s.areas, s.groups, a, u.groups);
      } else {
        forall b | b in s.spaces[q].areas ensures b in u.areas && u.areas[b] == s.areas[b] {
          GroupOf(s, q, b);
        }
        MappedSame(s.spaces[q], s.areas, s.groups, u.areas, u.groups);
      }
    }
  }

  lemma AreaInTable(sp: Space, areas: map<AreaId, Area>, groups: map<GroupId, Group>, a: AreaId)
    requires Mapped(sp, areas, groups) && a in sp.areas
    ensures a in areas && 0 < areas[a].virt && areas[a].virt + areas[a].length <= ENTRIES
  {
    assert Maps(sp.ptab, areas[a], groups[areas[a].group].pages);
  }

  // ---- groups and spaces come and go empty

  lemma GroupAdded(s: State, g: GroupId, pages: seq<nat>, physmap: bool)
    requires Inv(s) && g !in s.groups
    ensures Inv(s.(groups := s.groups[g := Group(pages, 0, physmap, [])]))
  {
    hide Mapped;
    var u := s.(groups := s.groups[g := Group(pages, 0, physmap, [])]);
    forall p | p in u.spaces ensures Mapped(u.spaces[p], u.areas, u.groups) {
      assert Mapped(s.spaces[p], s.areas, s.groups);
      forall a | a in s.spaces[p].areas ensures s.areas[a].group in s.groups { GroupOf(s, p, a); }
      MappedSame(s.spaces[p], s.areas, s.groups, u.areas, u.groups);
    }
  }

  lemma GroupDropped(s: State, g: GroupId)
    requires Inv(s) && g in s.groups && s.groups[g].areas == []
    ensures Inv(s.(groups := s.groups - {g}))
  {
    hide Mapped;
    var u := s.(groups := s.groups - {g});
    forall p | p in u.spaces ensures Mapped(u.spaces[p], u.areas, u.groups) {
      assert Mapped(s.spaces[p], s.areas, s.groups);
      forall a | a in s.spaces[p].areas ensures s.areas[a].group in u.groups { GroupOf(s, p, a); }
      MappedSame(s.spaces[p], s.areas, s.groups, u.areas, u.groups);
    }
  }

  lemma SpaceAdded(s: State, p: SpaceId, t: PageTable, tables: seq<nat>)
    requires Inv(s) && p !in s.spaces && p != 0 && forall i :: 0 <= i < ENTRIES ==> t[i] == 0
    ensures Inv(s.(spaces := s.spaces[p := Space(t, [], tables)]))
  {
    hide Mapped, Linked;
    var u := s.(spaces := s.spaces[p := Space(t, [], tables)]);
    SpaceAddedLinked(s, p, t, tables);
    NothingMapped(t, s.areas, s.groups, tables);
    forall q | q in u.spaces ensures Mapped(u.spaces[q], u.areas, u.groups) {
      if q != p {
        assert Mapped(s.spaces[q], s.areas, s.groups);
      }
    }
  }

  lemma SpaceAddedAreas(s: State, p: SpaceId, sp: Space)
    requires AreasLinked(s) && p !in s.spaces
    ensures AreasLinked(s.(spaces := s.spaces[p := sp]))
  {
    hide Distinct;
    var u := s.(spaces := s.spaces[p := sp]);
    forall a | a in u.areas && u.areas[a].space != 0
      ensures u.areas[a].space in u.spaces && a in u.spaces[u.areas[a].space].areas
    {
      assert s.areas[a] == u.areas[a];
    }
  }

  lemma SpaceAddedSpaces(s: State, p: SpaceId, t: PageTable, tables: seq<nat>)
    requires SpacesLinked(s) && p !in s.spaces
    ensures SpacesLinked(s.(spaces := s.spaces[p := Space(t, [], tables)]))
  {
  }

  lemma SpaceAddedLinked(s: State, p: SpaceId, t: PageTable, tables: seq<nat>)
    requires Linked(s) && p !in s.spaces && p != 0
    ensures Linked(s.(spaces := s.spaces[p := Space(t, [], tables)]))
  {
    hide AreasLinked, SpacesLinked;
    SpaceAddedAreas(s, p, Space(t, [], tables));
    SpaceAddedSpaces(s, p, t, tables);
  }

  lemma NothingMapped(t: PageTable, areas: map<AreaId, Area>, groups: map<GroupId, Group>, tables: seq<nat>)
    requires forall i :: 0 <= i < ENTRIES ==> t[i] == 0
    ensures Mapped(Space(t, [], tables), areas, groups)
  {
  }

  lemma SpaceDropped(s: State, p: SpaceId)
    requires Inv(s) && p in s.spaces && s.spaces[p].areas == []
    ensures Inv(s.(spaces := s.spaces - {p}))
    ensures forall i {:trigger s.spaces[p].ptab[i]} :: 0 <= i < ENTRIES ==> s.spaces[p].ptab[i] == 0
  {
  }

  // ---- growing an area whose group nobody else uses

  function Grown(s: State, p: SpaceId, a: AreaId, more: seq<nat>): State
    requires p in s.spaces && a in s.areas && s.areas[a].group in s.groups
    requires s.areas[a].virt + s.areas[a].length + |more| <= ENTRIES
  {
    var sp, area, gr := s.spaces[p], s.areas[a], s.groups[s.areas[a].group];
    State(
      s.spaces[p := sp.(ptab := MapRange(sp.ptab, area.virt + area.length, more))],
      s.areas[a := area.(length := area.length + |more|)],
      s.groups[area.group := gr.(pages := gr.pages + more)])
  }

  lemma InItsGroup(s: State, a: AreaId)
    requires Linked(s) && a in s.areas
    ensures s.areas[a].group in s.groups && a in s.groups[s.areas[a].group].areas
  {
  }

  lemma GrownLinked(s: State, p: SpaceId, a: AreaId, more: seq<nat>)
    requires Linked(s) && p in s.spaces && a in s.areas && s.areas[a].space == p
    requires s.groups[s.areas[a].group].areas == [a]
    requires s.areas[a].virt + s.areas[a].length + |more| <= ENTRIES
    ensures Linked(Grown(s, p, a, more))
  {
    hide MapRange, Distinct;
    var g := s.areas[a].group;
    forall b | b in s.areas && b != a ensures s.areas[b].group != g {
      InItsGroup(s, b);
    }
  }

  lemma GrownHere(sp: Space, areas: map<AreaId, Area>, groups: map<GroupId, Group>, a: AreaId, area: Area,
      more: seq<nat>, after: map<GroupId, Group>)
    requires Mapped(sp, areas, groups) && a in sp.areas && area == areas[a]
    requires FreeRun(sp.ptab, area.virt + area.length, |more|) && 0 < |more|
    requires forall b :: b in sp.areas && b != a ==> areas[b].group != area.group
    requires area.group in after && after[area.group].pages == groups[area.group].pages + more
    requires forall g :: g in groups && g != area.group ==> g in after && after[g].pages == groups[g].pages
    ensures Mapped(sp.(ptab := MapRange(sp.ptab, area.virt + area.length, more)),
      areas[a := area.(length := area.length + |more|)], after)
  {
    hide Maps;
    var run := Area(area.group, area.space, area.virt + area.length, |more|);
    var u := MapRange(sp.ptab, run.virt, more);
    var m := areas[a := area.(length := area.length + |more|)];
    forall b | b in sp.areas && b != a
      ensures Maps(u, m[b], after[m[b].group].pages) && Apart(m[a], m[b]) && Apart(m[b], m[a])
    {
      assert Apart(areas[a], areas[b]) && Apart(areas[b], areas[a]);
      AreaApart(sp.ptab, areas[b], groups[areas[b].group].pages, run);
      AreaKept(sp.ptab, u, areas[b], groups[areas[b].group].pages, run);
    }
    GrownMaps(sp.ptab, area, groups[area.group].pages, more);
    forall i | 0 <= i < ENTRIES && u[i] != 0 ensures exists b {:trigger m[b]} :: b in sp.areas && Covers(m[b], i) {
      if Covers(run, i) {
        assert Covers(m[a], i);
      } else {
        assert sp.ptab[i] != 0;
        var b :| b in sp.areas && Covers(areas[b], i);
        assert Covers(m[b], i);
      }
    }
  }

  lemma GrownMaps(t: PageTable, area: Area, pages: seq<nat>, more: seq<nat>)
    requires Maps(t, area, pages) && area.virt + area.length + |more| <= ENTRIES
    ensures Maps(MapRange(t, area.virt + area.length, more), area.(length := area.length + |more|), pages + more)
  {
  }

  lemma GrownInv(s: State, p: SpaceId, a: AreaId, more: seq<nat>)
    requires Inv(s) && p in s.spaces && a in s.areas && s.areas[a].space == p
    requires s.groups[s.areas[a].group].areas == [a] && 0 < |more|
    requires FreeRun(s.spaces[p].ptab, s.areas[a].virt + s.areas[a].length, |more|)
    ensures Inv(Grown(s, p, a, more))
  {
    hide Mapped, MapRange;
    GrownLinked(s, p, a, more);
    var u := Grown(s, p, a, more);
    var g := s.areas[a].group;
    forall q | q in u.spaces ensures Mapped(u.spaces[q], u.areas, u.groups) {
      assert Mapped(s.spaces[q], s.areas, s.groups);
      forall b | b in s.spaces[q].areas && b != a ensures s.areas[b].group != g && s.areas[b].group in s.groups {
        GroupOf(s, q, b);
      }
      if q == p {
        GrownHere(s.spaces[p], s.areas, s.groups, a, s.areas[a], more, u.groups);
      } else {
        forall b | b in s.spaces[q].areas ensures b != a && b in s.areas {
          GroupOf(s, q, b);
        }
        MappedSame(s.spaces[q], s.areas, s.groups, u.areas, u.groups);
      }
    }
  }

  // ---- who holds a page

  /** What a page in use is for: page `k` of a group, or table page `k` of a space. */
  datatype Slot = Page(group: GroupId, k: nat) | Table(space: SpaceId, k: nat)

  ghost predicate IsSlot(s: State, h: Slot) {
    match h
    case Page(g, k) => g in s.groups && !s.groups[g].physmap && k < |s.groups[g].pages|
    case Table(p, k) => p in s.spaces && k < |s.spaces[p].tables|
  }

  ghost function PageIn(s: State, h: Slot): nat
    requires IsSlot(s, h)
  {
    match h
    case Page(g, k) => s.groups[g].pages[k]
    case Table(p, k) => s.spaces[p].tables[k]
  }

  /** Every page in use is in exactly one slot, and free pages are in none. */
  ghost predicate Held(s: State, holder: map<nat, Slot>, free: seq<nat>) {
    && (forall h {:trigger IsSlot(s, h)} :: IsSlot(s, h) ==> PageIn(s, h) in holder && holder[PageIn(s, h)] == h)
    && (forall q {:trigger holder[q]} :: q in holder ==> IsSlot(s, holder[q]) && PageIn(s, holder[q]) == q)
    && (forall q :: q in free ==> q !in holder)
  }

  /**
   * No page of an area is a page of another group that owns its pages, or of anybody's tables: what one writes
   * there, the others do not see.
   */
  lemma AreasIsolated(s: State, holder: map<nat, Slot>, free: seq<nat>, a: AreaId, k: nat, h: Slot)
    requires Inv(s) && Held(s, holder, free) && a in s.areas && s.areas[a].space != 0
    requires k < s.areas[a].length && s.areas[a].group in s.groups && !s.groups[s.areas[a].group].physmap
    requires IsSlot(s, h) && h != Page(s.areas[a].group, k)
    requires forall q :: q in holder ==> q < 0x10_0000
    ensures s.areas[a].space in s.spaces && s.areas[a].virt + k < ENTRIES
    ensures var e := s.spaces[s.areas[a].space].ptab[s.areas[a].virt + k];
            Frame(e) != PageIn(s, h) && Frame(e) in holder && Frame(e) !in free
  {
    hide Inv, Frame, Rights;
    AreasShow(s, a);
    var pages := s.groups[s.areas[a].group].pages;
    assert IsSlot(s, Page(s.areas[a].group, k)) && PageIn(s, Page(s.areas[a].group, k)) == pages[k];
  }

  /** Two areas with no page in common never lead to the same page. */
  lemma FramesApart(s: State, a: AreaId, b: AreaId, j: nat, k: nat)
    requires Inv(s) && a in s.areas && b in s.areas && s.areas[a].space != 0 && s.areas[b].space != 0
    requires j < s.areas[a].length && k < s.areas[b].length
    requires s.areas[a].group in s.groups && s.areas[b].group in s.groups
    requires forall q :: q in s.groups[s.areas[a].group].pages ==>
      q < 0x10_0000 && q !in s.groups[s.areas[b].group].pages
    requires forall q :: q in s.groups[s.areas[b].group].pages ==> q < 0x10_0000
    ensures s.areas[a].space in s.spaces && s.areas[a].virt + j < ENTRIES
    ensures s.areas[b].space in s.spaces && s.areas[b].virt + k < ENTRIES
    ensures Frame(s.spaces[s.areas[a].space].ptab[s.areas[a].virt + j]) !=
      Frame(s.spaces[s.areas[b].space].ptab[s.areas[b].virt + k])
  {
    hide Inv, Frame, Rights;
    AreasShow(s, a);
    AreasShow(s, b);
    assert s.groups[s.areas[a].group].pages[j] in s.groups[s.areas[a].group].pages;
    assert s.groups[s.areas[b].group].pages[k] in s.groups[s.areas[b].group].pages;
  }

  /** Page numbers in use are entries of the page list. */
  ghost predicate Bounded(holder: map<nat, Slot>, limit: nat) {
    forall q :: q in holder ==> 0 < q < limit
  }

  /** The slot `k` places after `first`, and the `n` slots from `first` on. */
  ghost function At(first: Slot, k: nat): Slot {
    match first
    case Page(g, j) => Page(g, j + k)
    case Table(p, j) => Table(p, j + k)
  }

  ghost predicate InBlock(h: Slot, first: Slot, n: nat) {
    first.k <= h.k < first.k + n && h == At(first, h.k - first.k)
  }

  /** The slots from `first` on hold `pages`. */
  ghost predicate Block(s: State, pages: seq<nat>, first: Slot) {
    forall k {:trigger pages[k]} {:trigger At(first, k)} :: 0 <= k < |pages| ==>
      IsSlot(s, At(first, k)) && PageIn(s, At(first, k)) == pages[k]
  }

  /** Pages put into the slots from `first` on. */
  ghost function Hold(holder: map<nat, Slot>, pages: seq<nat>, first: Slot): map<nat, Slot> {
    if pages == [] then holder
    else Hold(holder, pages[..|pages| - 1], first)[pages[|pages| - 1] := At(first, |pages| - 1)]
  }

  lemma {:induction false} HoldAdds(holder: map<nat, Slot>, pages: seq<nat>, first: Slot)
    requires Distinct(pages) && forall i :: 0 <= i < |pages| ==> pages[i] !in holder
    ensures forall k {:trigger pages[k]} :: 0 <= k < |pages| ==>
              pages[k] in Hold(holder, pages, first) && Hold(holder, pages, first)[pages[k]] == At(first, k)
    ensures forall q :: q in Hold(holder, pages, first) <==> q in holder || q in pages
    ensures forall q :: q in holder ==> Hold(holder, pages, first)[q] == holder[q]
    ensures |Hold(holder, pages, first)| == |holder| + |pages|
  {
    hide At;
    if pages != [] {
      var l := |pages| - 1;
      var rest, m := pages[..l], Hold(holder, pages[..l], first);
      HoldAdds(holder, rest, first);
      assert pages == rest + [pages[l]];
      assert pages[l] !in m;
      var m' := m[pages[l] := At(first, l)];
      forall k | 0 <= k < |pages| ensures pages[k] in m' && m'[pages[k]] == At(first, k) {
        if k < l { assert rest[k] == pages[k]; }
      }
      forall q | q in holder ensures q in m' && m'[q] == holder[q] {
        assert q in m && m[q] == holder[q];
        assert pages[l] !in holder;
        assert m'[q] == m[q];
      }
    }
  }

  /** Nothing that holds a page changed. */
  lemma HeldSame(s: State, u: State, holder: map<nat, Slot>, free: seq<nat>)
    requires Held(s, holder, free)
    requires forall h {:trigger IsSlot(u, h)} ::
      (IsSlot(u, h) <==> IsSlot(s, h)) && (IsSlot(u, h) ==> PageIn(u, h) == PageIn(s, h))
    ensures Held(u, holder, free)
  {
    hide IsSlot, PageIn;
    forall q | q in holder ensures IsSlot(u, holder[q]) && PageIn(u, holder[q]) == q {
      assert IsSlot(u, holder[q]) <==> IsSlot(s, holder[q]);
    }
  }

  /** The next free pages go into new slots. */
  lemma HeldTaken(s: State, u: State, holder: map<nat, Slot>, free: seq<nat>, pages: seq<nat>, rest: seq<nat>,
      first: Slot)
    requires Held(s, holder, free) && free == pages + rest && Distinct(free)
    requires forall h {:trigger IsSlot(u, h)} :: IsSlot(u, h) <==> IsSlot(s, h) || InBlock(h, first, |pages|)
    requires forall h {:trigger IsSlot(s, h)} :: IsSlot(s, h) ==>
      !InBlock(h, first, |pages|) && IsSlot(u, h) && PageIn(u, h) == PageIn(s, h)
    requires Block(u, pages, first)
    ensures Held(u, Hold(holder, pages, first), rest)
    ensures |Hold(holder, pages, first)| == |holder| + |pages|
  {
    hide IsSlot, PageIn, Hold;
    TakenFresh(holder, free, pages, rest);
    HoldAdds(holder, pages, first);
    var m := Hold(holder, pages, first);
    forall h | IsSlot(u, h) ensures PageIn(u, h) in m && m[PageIn(u, h)] == h {
      if IsSlot(s, h) {
        assert m[PageIn(s, h)] == holder[PageIn(s, h)];
      } else {
        assert h == At(first, h.k - first.k);
        assert pages[h.k - first.k] in m;
      }
    }
    forall q | q in m ensures IsSlot(u, m[q]) && PageIn(u, m[q]) == q {
      if q in holder {
        assert m[q] == holder[q] && IsSlot(s, holder[q]);
      } else {
        var k :| 0 <= k < |pages| && pages[k] == q;
      }
    }
  }

  lemma TakenFresh(holder: map<nat, Slot>, free: seq<nat>, pages: seq<nat>, rest: seq<nat>)
    requires free == pages + rest && Distinct(free) && forall q :: q in free ==> q !in holder
    ensures Distinct(pages) && forall i :: 0 <= i < |pages| ==> pages[i] !in holder
    ensures forall q :: q in rest ==> q !in holder && q !in pages
  {
    assert forall i :: 0 <= i < |pages| ==> pages[i] == free[i] && free[i] in free;
    forall q | q in rest ensures q !in holder && q !in pages {
      var i :| 0 <= i < |rest| && rest[i] == q;
      assert free[|pages| + i] == q;
    }
  }

  /** The pages of slots that go are free again, each once. */
  lemma HeldReleased(s: State, u: State, holder: map<nat, Slot>, free: seq<nat>, pages: seq<nat>, after: seq<nat>,
      first: Slot)
    requires Held(s, holder, free)
    requires forall q :: q in after <==> q in free || q in pages
    requires forall h {:trigger IsSlot(u, h)} :: IsSlot(u, h) <==> IsSlot(s, h) && !InBlock(h, first, |pages|)
    requires forall h {:trigger IsSlot(u, h)} :: IsSlot(u, h) ==> IsSlot(s, h) && PageIn(u, h) == PageIn(s, h)
    requires Block(s, pages, first)
    ensures Held(u, holder - ToSet(pages), after)
    ensures |holder - ToSet(pages)| == |holder| - |pages|
  {
    hide IsSlot, PageIn, InBlock, At, Block;
    BlockHeld(s, holder, free, pages, first);
    LetGoCount(holder, pages);
    var m := holder - ToSet(pages);
    forall h | IsSlot(u, h) ensures PageIn(u, h) in m && m[PageIn(u, h)] == h {
      assert holder[PageIn(s, h)] == h;
    }
    forall q | q in m ensures IsSlot(u, m[q]) && PageIn(u, m[q]) == q {
      assert holder[q] == m[q] && IsSlot(s, holder[q]);
      if InBlock(holder[q], first, |pages|) {
        OfBlock(s, holder, pages, first, holder[q]);
      }
      assert IsSlot(u, holder[q]);
    }
  }

  lemma BlockHeld(s: State, holder: map<nat, Slot>, free: seq<nat>, pages: seq<nat>, first: Slot)
    requires Held(s, holder, free)
    requires Block(s, pages, first)
    ensures Distinct(pages)
    ensures forall q :: q in pages ==> q in holder && q !in free && InBlock(holder[q], first, |pages|)
  {
    hide IsSlot, PageIn;
    forall k | 0 <= k < |pages| ensures pages[k] in holder && holder[pages[k]] == At(first, k) {
      assert IsSlot(s, At(first, k));
    }
  }

  lemma LetGoCount(holder: map<nat, Slot>, pages: seq<nat>)
    requires Distinct(pages) && forall q :: q in pages ==> q in holder
    ensures |holder - ToSet(pages)| == |holder| - |pages|
  {
    DistinctCount(pages);
    assert (holder - ToSet(pages)).Keys == holder.Keys - ToSet(pages);
    assert ToSet(pages) <= holder.Keys;
  }

  lemma OfBlock(s: State, holder: map<nat, Slot>, pages: seq<nat>, first: Slot, h: Slot)
    requires IsSlot(s, h) && InBlock(h, first, |pages|)
    requires Block(s, pages, first)
    ensures PageIn(s, h) in pages
  {
    assert pages[h.k - first.k] == PageIn(s, h);
  }

  // ---- which slots the calls touch

  lemma SlotsAttached(s: State, p: SpaceId, a: AreaId, g: GroupId, at: nat, holder: map<nat, Slot>, free: seq<nat>)
    requires p in s.spaces && g in s.groups && at + |s.groups[g].pages| <= ENTRIES
    requires Held(s, holder, free)
    ensures Held(Attached(s, p, a, g, at), holder, free)
  {
    HeldSame(s, Attached(s, p, a, g, at), holder, free);
  }

  lemma SlotsDetached(s: State, p: SpaceId, a: AreaId, holder: map<nat, Slot>, free: seq<nat>)
    requires p in s.spaces && a in s.areas && s.areas[a].group in s.groups
      && s.areas[a].virt + s.areas[a].length <= ENTRIES
    requires Held(s, holder, free)
    ensures Held(Detached(s, p, a), holder, free)
  {
    HeldSame(s, Detached(s, p, a), holder, free);
  }

  lemma SlotsGroupAdded(s: State, g: GroupId, pages: seq<nat>, holder: map<nat, Slot>, free: seq<nat>, rest: seq<nat>)
    requires Held(s, holder, free) && g !in s.groups && free == pages + rest && Distinct(free)
    ensures Held(s.(groups := s.groups[g := Group(pages, 0, false, [])]), Hold(holder, pages, Page(g, 0)), rest)
    ensures |Hold(holder, pages, Page(g, 0))| == |holder| + |pages|
  {
    HeldTaken(s, s.(groups := s.groups[g := Group(pages, 0, false, [])]), holder, free, pages, rest, Page(g, 0));
  }

  lemma SlotsPhysmapAdded(s: State, g: GroupId, pages: seq<nat>, holder: map<nat, Slot>, free: seq<nat>)
    requires Held(s, holder, free) && g !in s.groups
    ensures Held(s.(groups := s.groups[g := Group(pages, 0, true, [])]), holder, free)
  {
    HeldSame(s, s.(groups := s.groups[g := Group(pages, 0, true, [])]), holder, free);
  }

  lemma GroupDropSlots(s: State, g: GroupId)
    requires g in s.groups && !s.groups[g].physmap
    ensures var u, pages := s.(groups := s.groups - {g}), s.groups[g].pages;
            && Block(s, pages, Page(g, 0))
            && (forall h {:trigger IsSlot(u, h)} :: IsSlot(u, h) <==> IsSlot(s, h) && !InBlock(h, Page(g, 0), |pages|))
            && (forall h {:trigger IsSlot(u, h)} :: IsSlot(u, h) ==> IsSlot(s, h) && PageIn(u, h) == PageIn(s, h))
  {
  }

  lemma SlotsGroupDropped(s: State, g: GroupId, holder: map<nat, Slot>, free: seq<nat>, after: seq<nat>)
    requires Held(s, holder, free) && g in s.groups && !s.groups[g].physmap
    requires forall q :: q in after <==> q in free || q in s.groups[g].pages
    ensures Held(s.(groups := s.groups - {g}), holder - ToSet(s.groups[g].pages), after)
    ensures |holder - ToSet(s.groups[g].pages)| == |holder| - |s.groups[g].pages|
  {
    hide Held, ToSet, IsSlot, PageIn, InBlock, Block;
    GroupDropSlots(s, g);
    HeldReleased(s, s.(groups := s.groups - {g}), holder, free, s.groups[g].pages, after, Page(g, 0));
  }

  lemma SlotsPhysmapDropped(s: State, g: GroupId, holder: map<nat, Slot>, free: seq<nat>)
    requires Held(s, holder, free) && g in s.groups && s.groups[g].physmap
    ensures Held(s.(groups := s.groups - {g}), holder, free)
  {
    HeldSame(s, s.(groups := s.groups - {g}), holder, free);
  }

  lemma SlotsGrown(s: State, p: SpaceId, a: AreaId, more: seq<nat>, holder: map<nat, Slot>, free: seq<nat>,
      rest: seq<nat>)
    requires p in s.spaces && a in s.areas && s.areas[a].group in s.groups && !s.groups[s.areas[a].group].physmap
    requires s.areas[a].virt + s.areas[a].length + |more| <= ENTRIES
    requires Held(s, holder, free) && free == more + rest && Distinct(free)
    ensures var first := Page(s.areas[a].group, |s.groups[s.areas[a].group].pages|);
            Held(Grown(s, p, a, more), Hold(holder, more, first), rest)
              && |Hold(holder, more, first)| == |holder| + |more|
  {
    var g := s.areas[a].group;
    HeldTaken(s, Grown(s, p, a, more), holder, free, more, rest, Page(g, |s.groups[g].pages|));
  }

  lemma SlotsSpaceAdded(s: State, p: SpaceId, t: PageTable, tables: seq<nat>, holder: map<nat, Slot>, free: seq<nat>,
      rest: seq<nat>)
    requires Held(s, holder, free) && p !in s.spaces && free == tables + rest && Distinct(free)
    ensures Held(s.(spaces := s.spaces[p := Space(t, [], tables)]), Hold(holder, tables, Table(p, 0)), rest)
    ensures |Hold(holder, tables, Table(p, 0))| == |holder| + |tables|
  {
    HeldTaken(s, s.(spaces := s.spaces[p := Space(t, [], tables)]), holder, free, tables, rest, Table(p, 0));
  }

  lemma SpaceDropSlots(s: State, p: SpaceId)
    requires p in s.spaces
    ensures var u, pages := s.(spaces := s.spaces - {p}), s.spaces[p].tables;
            && Block(s, pages, Table(p, 0))
            && (forall h {:trigger IsSlot(u, h)} :: IsSlot(u, h) <==> IsSlot(s, h) && !InBlock(h, Table(p, 0), |pages|))
            && (forall h {:trigger IsSlot(u, h)} :: IsSlot(u, h) ==> IsSlot(s, h) && PageIn(u, h) == PageIn(s, h))
  {
  }

  lemma SlotsSpaceDropped(s: State, p: SpaceId, holder: map<nat, Slot>, free: seq<nat>, after: seq<nat>)
    requires Held(s, holder, free) && p in s.spaces
    requires forall q :: q in after <==> q in free || q in s.spaces[p].tables
    ensures Held(s.(spaces := s.spaces - {p}), holder - ToSet(s.spaces[p].tables), after)
    ensures |holder - ToSet(s.spaces[p].tables)| == |holder| - |s.spaces[p].tables|
  {
    hide Held, ToSet, IsSlot, PageIn, InBlock, Block;
    SpaceDropSlots(s, p);
    HeldReleased(s, s.(spaces := s.spaces - {p}), holder, free, s.spaces[p].tables, after, Table(p, 0));
  }
}
