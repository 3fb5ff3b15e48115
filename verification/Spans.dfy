/**
 * Finding a span of free virtual pages (blt/kernel/aspace.c, `locate_span`).
 */
module Spans {
  /** A page table has this many entries; an entry of 0 is free. */
  const ENTRIES := 1024
  const DEFAULT_START := 512

  type PageTable = t: seq<int> | |t| == ENTRIES witness seq(ENTRIES, i => 0)

  /** The `len` entries from `at` are there and free. */
  ghost predicate FreeRun(t: PageTable, at: int, len: int) {
    0 <= at && at + len <= ENTRIES && forall i :: at <= i < at + len ==> t[i] == 0
  }

  function Start(start: nat): (r: nat)
    ensures 1 <= r < ENTRIES && (1 <= start < ENTRIES ==> r == start)
  {
    if start < 1 || start > 1023 then DEFAULT_START else start
  }

  /** Some free run of `len` entries begins at `from` or after. */
  ghost predicate RunExists(t: PageTable, from: nat, len: nat) {
    exists at :: from <= at && FreeRun(t, at, len)
  }

  /** `at` begins the first free run of `len` entries from `from` on. */
  ghost predicate FirstRun(t: PageTable, from: nat, len: nat, at: nat) {
    from <= at && FreeRun(t, at, len) && forall b :: from <= b < at ==> !FreeRun(t, b, len)
  }

  /**
   * What the search finds: the first run if there is one, else the free entries at the end of
   * the table, however few, else 0.
   */
  ghost predicate Located(t: PageTable, start: nat, len: nat, at: nat) {
    if len == 0 then at == 0
    else if RunExists(t, Start(start), len) then FirstRun(t, Start(start), len, at)
    else if t[1023] != 0 then at == 0
    else Start(start) <= at <= 1023 && FreeRun(t, at, ENTRIES - at) && ENTRIES - at < len
  }

  method LocateSpan(t: PageTable, start: nat, len: nat) returns (at: nat)
    ensures Located(t, start, len, at)
  {
    var found, foundat, s := 0, 0, Start(start);
    while found < len && s < ENTRIES
      invariant Start(start) <= s <= ENTRIES && 0 <= found <= len && found <= s - Start(start)
      invariant found == 0 ==> foundat == 0 && (s > Start(start) ==> t[s - 1] != 0)
      invariant found > 0 ==> foundat == s - found && foundat >= Start(start)
      invariant forall i :: s - found <= i < s ==> t[i] == 0
      invariant forall b :: Start(start) <= b < s - found ==> !FreeRun(t, b, len)
      invariant found > 0 && s - found > Start(start) ==> t[s - found - 1] != 0
      decreases ENTRIES - s
    {
      if t[s] != 0 {
        Blocked(t, s - found, s, len);
        found, foundat := 0, 0;
      } else {
        if found == 0 { foundat := s; }
        found := found + 1;
      }
      s := s + 1;
    }
    if found == len {
      if len > 0 { assert FreeRun(t, foundat, len); }
    } else {
      NoRun(t, s - found, len);
    }
    return foundat;
  }

  /** No run of `len` begins within `len` of a used entry. */
  lemma Blocked(t: PageTable, lo: nat, used: nat, len: nat)
    requires lo <= used < ENTRIES && t[used] != 0 && used - lo < len
    ensures forall b :: lo <= b <= used ==> !FreeRun(t, b, len)
  {
  }

  lemma NoRun(t: PageTable, lo: nat, len: nat)
    requires lo <= ENTRIES && ENTRIES - lo < len
    ensures forall b :: lo <= b ==> !FreeRun(t, b, len)
  {
  }

  /** What a caller may take the result for: nothing found, or a free run. */
  ghost predicate Usable(t: PageTable, at: nat, len: nat) {
    at == 0 || FreeRun(t, at, len)
  }

  /** The result is usable exactly when there is a run to be found, or the last entry is used. */
  lemma UsableExactly(t: PageTable, start: nat, len: nat, at: nat)
    requires len > 0 && Located(t, start, len, at)
    ensures Usable(t, at, len) <==> RunExists(t, Start(start), len) || t[1023] != 0
  {
  }
}
