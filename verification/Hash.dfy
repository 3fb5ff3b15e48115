/**
 * The open-addressing hash table of blt/lib/libblt/hash.c: double hashing, removal
 * by tombstones, and rebuilds that grow and shrink the table.  It behaves as a
 * finite map, provided keys are unique and the load factor leaves a free slot.
 */
module Hash {
  import opened Probing
  import opened TableSizes

  /** Keys are C ints, read as unsigned by the remainder operation. */
  type Key = k: int | 0 <= k < 0x1_0000_0000

  /** `data` is a pointer, 0 being NULL. */
  datatype Node = Node(valid: bool, dirty: bool, key: Key, dsize: int, data: int)

  function HashOf(key: Key, p: int): (i: int)
    requires 2 < p
    ensures 0 <= i < p
  {
    key % p
  }

  function Rehash(key: Key, p: int): (c: int)
    requires 2 < p
    ensures 0 < c < p
  {
    1 + key % (p - 2)
  }

  /** The slot that the `m`-th probe for `key` looks at. */
  ghost function Probe(p: int, key: Key, m: nat): (i: int)
    requires 2 < p
    ensures 0 <= i < p
  {
    Slot(p, HashOf(key, p), Rehash(key, p), m)
  }

  predicate Live(n: Node) {
    n.valid && !n.dirty
  }

  ghost function ValidCount(t: seq<Node>): (n: nat)
    ensures n <= |t|
  {
    if t == [] then 0 else ValidCount(t[..|t| - 1]) + if t[|t| - 1].valid then 1 else 0
  }

  ghost function LiveCount(t: seq<Node>): (n: nat)
    ensures n <= ValidCount(t)
  {
    if t == [] then 0 else LiveCount(t[..|t| - 1]) + if Live(t[|t| - 1]) then 1 else 0
  }

  /** The first `m` probes for `key` meet valid slots only. */
  ghost predicate Path(t: seq<Node>, key: Key, m: nat)
    requires 2 < |t|
  {
    forall j: nat {:trigger Probe(|t|, key, j)} :: j < m ==> t[Probe(|t|, key, j)].valid
  }

  /** Probe `m` for `key` finds it, with entry `e`, and no earlier probe meets an empty slot. */
  ghost predicate Stored(t: seq<Node>, key: Key, e: (int, int), m: nat)
    requires 2 < |t|
  {
    var n := t[Probe(|t|, key, m)];
    Live(n) && n.key == key && n.data == e.0 && n.dsize == e.1 && Path(t, key, m)
  }

  /** The table holds exactly `entries`; `at` says after how many probes each key is met. */
  ghost predicate Represents(t: seq<Node>, entries: map<Key, (int, int)>, at: map<Key, nat>) {
    && 2 < |t|
    && at.Keys == entries.Keys
    && (forall i {:trigger t[i]} :: 0 <= i < |t| && t[i].dirty ==> t[i].valid)
    && (forall key :: key in at ==> Stored(t, key, entries[key], at[key]))
    && (forall i {:trigger t[i]} :: 0 <= i < |t| && Live(t[i]) ==>
      t[i].key in at && Probe(|t|, t[i].key, at[t[i].key]) == i)
  }

  // ---- counting

  lemma {:induction false} CountUpdate(t: seq<Node>, i: nat, n: Node)
    requires i < |t|
    ensures ValidCount(t[i := n]) == ValidCount(t) - (if t[i].valid then 1 else 0) + (if n.valid then 1 else 0)
  {
    var l := |t| - 1;
    if i == l {
      assert t[i := n][..l] == t[..l];
    } else {
      CountUpdate(t[..l], i, n);
      assert t[i := n][..l] == t[..l][i := n];
    }
  }

  lemma {:induction false} NoneValid(t: seq<Node>)
    requires forall i :: 0 <= i < |t| ==> !t[i].valid
    ensures ValidCount(t) == 0
  {
    if t != [] {
      NoneValid(t[..|t| - 1]);
    }
  }

  lemma {:induction false} EmptySlot(t: seq<Node>) returns (i: nat)
    requires ValidCount(t) < |t|
    ensures i < |t| && !t[i].valid
  {
    if !t[|t| - 1].valid {
      i := |t| - 1;
    } else {
      i := EmptySlot(t[..|t| - 1]);
    }
  }

  lemma {:induction false} LiveUpdate(t: seq<Node>, i: nat, n: Node)
    requires i < |t|
    ensures LiveCount(t[i := n]) == LiveCount(t) - (if Live(t[i]) then 1 else 0) + (if Live(n) then 1 else 0)
  {
    var l := |t| - 1;
    if i == l {
      assert t[i := n][..l] == t[..l];
    } else {
      LiveUpdate(t[..l], i, n);
      assert t[i := n][..l] == t[..l][i := n];
    }
  }

  /** A tombstone is valid but not live. */
  lemma {:induction false} TombstoneCount(t: seq<Node>, i: nat)
    requires i < |t|
    ensures t[i].valid && t[i].dirty ==> LiveCount(t) < ValidCount(t)
  {
    if i < |t| - 1 {
      TombstoneCount(t[..|t| - 1], i);
    }
  }

  lemma {:induction false} LivePrefix(t: seq<Node>, i: nat)
    requires i <= |t|
    ensures LiveCount(t[..i]) <= LiveCount(t)
    decreases |t|
  {
    if i == |t| {
      assert t[..i] == t;
    } else {
      LivePrefix(t[..|t| - 1], i);
      assert t[..|t| - 1][..i] == t[..i];
    }
  }

  // ---- what the operations do to the representation

  /** A table with nothing in it. */
  lemma EmptyTable(t: seq<Node>)
    requires 2 < |t|
    requires forall i :: 0 <= i < |t| ==> !t[i].valid && !t[i].dirty
    ensures Represents(t, map[], map[])
    ensures ValidCount(t) == 0
  {
    NoneValid(t);
  }

  /** Keeping valid slots valid keeps every path. */
  lemma PathKept(t: seq<Node>, u: seq<Node>, key: Key, m: nat)
    requires 2 < |t| == |u|
    requires forall i {:trigger u[i]} :: 0 <= i < |t| && t[i].valid ==> u[i].valid
    requires Path(t, key, m)
    ensures Path(u, key, m)
  {
  }

  /** Writing a new key at the slot its probe sequence reached first. */
  lemma Placed(t: seq<Node>, entries: map<Key, (int, int)>, at: map<Key, nat>, m: nat, n: Node)
    requires Represents(t, entries, at)
    requires n.key !in entries && Live(n)
    requires Path(t, n.key, m) && !Live(t[Probe(|t|, n.key, m)])
    ensures Represents(t[Probe(|t|, n.key, m) := n], entries[n.key := (n.data, n.dsize)], at[n.key := m])
  {
    hide Probe, Path;
    var i := Probe(|t|, n.key, m);
    var u := t[i := n];
    var at' := at[n.key := m];
    var entries' := entries[n.key := (n.data, n.dsize)];
    forall key | key in at' ensures Stored(u, key, entries'[key], at'[key]) {
      PathKept(t, u, key, at'[key]);
    }
  }

  /** Marking a live slot dirty. */
  lemma Buried(t: seq<Node>, entries: map<Key, (int, int)>, at: map<Key, nat>, key: Key)
    requires Represents(t, entries, at)
    requires key in at
    ensures var i := Probe(|t|, key, at[key]);
            Represents(t[i := t[i].(dirty := true)], entries - {key}, at - {key})
  {
    hide Probe, Path;
    var i := Probe(|t|, key, at[key]);
    var u := t[i := t[i].(dirty := true)];
    var at' := at - {key};
    assert Stored(t, key, entries[key], at[key]);
    forall k | k in at' ensures Stored(u, k, (entries - {key})[k], at'[k]) {
      assert Stored(t, k, entries[k], at[k]);
      PathKept(t, u, k, at'[k]);
    }
  }

  /** An empty slot bounds every path of valid slots. */
  lemma PathEnds(t: seq<Node>, key: Key, m: nat)
    requires 2 < |t| && Prime(|t|)
    requires ValidCount(t) < |t|
    requires Path(t, key, m)
    ensures m < |t|
  {
    var i := EmptySlot(t);
    var j := ProbesVisitEverySlot(|t|, HashOf(key, |t|), Rehash(key, |t|), i);
    assert Probe(|t|, key, j) == i;
  }

  // ---- along a probe sequence

  /** One probe later. */
  lemma ProbeStep(p: int, key: Key, m: nat)
    requires 2 < p
    ensures Probe(p, key, m + 1) == StepBack(p, Probe(p, key, m), Rehash(key, p))
  {
  }

  lemma ProbeStart(t: seq<Node>, key: Key)
    requires 2 < |t|
    ensures Probe(|t|, key, 0) == HashOf(key, |t|) && Path(t, key, 0)
  {
  }

  lemma PathGrows(t: seq<Node>, key: Key, m: nat)
    requires 2 < |t| && Path(t, key, m) && t[Probe(|t|, key, m)].valid
    ensures Path(t, key, m + 1)
  {
    hide Probe;
  }

  /** A live slot is where its key's own probe sequence ends. */
  lemma LiveSlot(t: seq<Node>, entries: map<Key, (int, int)>, at: map<Key, nat>, i: nat)
    requires Represents(t, entries, at) && i < |t| && Live(t[i])
    ensures t[i].key in entries && i == Probe(|t|, t[i].key, at[t[i].key])
  {
    hide Probe, Stored;
  }

  lemma EntryAt(t: seq<Node>, entries: map<Key, (int, int)>, at: map<Key, nat>, key: Key)
    requires Represents(t, entries, at) && key in entries
    ensures key in at && Stored(t, key, entries[key], at[key])
  {
    hide Probe, Stored;
  }

  /** Probing past a slot that does not hold `key`. */
  lemma Missed(t: seq<Node>, entries: map<Key, (int, int)>, at: map<Key, nat>, key: Key, m: nat)
    requires Represents(t, entries, at) && (key in entries ==> key in at && m <= at[key])
    requires var n := t[Probe(|t|, key, m)]; !Live(n) || n.key != key
    ensures key in entries ==> key in at && m < at[key]
  {
    hide Probe, Represents;
    if key in entries {
      EntryAt(t, entries, at, key);
    }
  }

  /** An empty slot ends the search. */
  lemma Absent(t: seq<Node>, entries: map<Key, (int, int)>, at: map<Key, nat>, key: Key, m: nat)
    requires Represents(t, entries, at) && (key in entries ==> key in at && m <= at[key])
    requires !t[Probe(|t|, key, m)].valid
    ensures key !in entries
  {
    hide Probe, Represents;
    if key in entries {
      EntryAt(t, entries, at, key);
    }
  }

  /** A search for an absent key ends exactly when some slot is empty. */
  lemma SearchEnds(t: seq<Node>, key: Key)
    requires 2 < |t| && Prime(|t|)
    ensures (exists m: nat {:trigger Probe(|t|, key, m)} :: !t[Probe(|t|, key, m)].valid) <==>
      (exists i :: 0 <= i < |t| && !t[i].valid)
  {
    if i :| 0 <= i < |t| && !t[i].valid {
      var j := ProbesVisitEverySlot(|t|, HashOf(key, |t|), Rehash(key, |t|), i);
      assert Probe(|t|, key, j) == i;
    }
  }

  // ---- rebuilding

  /** `entries` are those of `all` that the first `i` slots of `t` hold. */
  ghost predicate Copied(t: seq<Node>, all: map<Key, (int, int)>, at: map<Key, nat>, i: nat,
      entries: map<Key, (int, int)>)
    requires 2 < |t|
  {
    && (forall key :: key in entries <==> key in at && Probe(|t|, key, at[key]) < i)
    && (forall key :: key in entries ==> key in all && entries[key] == all[key])
  }

  lemma CopiedLive(t: seq<Node>, all: map<Key, (int, int)>, at: map<Key, nat>, i: nat, entries: map<Key, (int, int)>)
    requires 2 < |t| && Represents(t, all, at) && Copied(t, all, at, i, entries)
    requires i < |t| && Live(t[i])
    ensures t[i].key !in entries
    ensures Copied(t, all, at, i + 1, entries[t[i].key := (t[i].data, t[i].dsize)])
  {
    hide Probe, Represents, Path;
    LiveSlot(t, all, at, i);
    EntryAt(t, all, at, t[i].key);
    forall key | key in at && Probe(|t|, key, at[key]) == i ensures key == t[i].key {
      AtIsEntry(t, all, at, key);
      EntryAt(t, all, at, key);
    }
  }

  lemma DirtyIsValid(t: seq<Node>, entries: map<Key, (int, int)>, at: map<Key, nat>, i: nat)
    requires Represents(t, entries, at) && i < |t|
    ensures t[i].dirty ==> t[i].valid
  {
    hide Probe, Stored;
  }

  lemma Domains(t: seq<Node>, entries: map<Key, (int, int)>, at: map<Key, nat>)
    requires Represents(t, entries, at)
    ensures at.Keys == entries.Keys
  {
    hide Probe, Stored;
  }

  lemma AtIsEntry(t: seq<Node>, all: map<Key, (int, int)>, at: map<Key, nat>, key: Key)
    requires Represents(t, all, at) && key in at
    ensures key in all
  {
    hide Probe, Stored;
  }

  lemma CopiedDead(t: seq<Node>, all: map<Key, (int, int)>, at: map<Key, nat>, i: nat, entries: map<Key, (int, int)>)
    requires 2 < |t| && Represents(t, all, at) && Copied(t, all, at, i, entries)
    requires i < |t| && !Live(t[i])
    ensures Copied(t, all, at, i + 1, entries)
  {
    hide Probe, Represents, Path;
    forall key | key in at && Probe(|t|, key, at[key]) == i ensures false {
      AtIsEntry(t, all, at, key);
      EntryAt(t, all, at, key);
    }
  }

  lemma CopiedAll(t: seq<Node>, all: map<Key, (int, int)>, at: map<Key, nat>, entries: map<Key, (int, int)>)
    requires Represents(t, all, at) && Copied(t, all, at, |t|, entries)
    ensures entries == all
  {
    hide Probe, Stored;
    assert entries.Keys == all.Keys;
  }

  lemma NothingCopied(t: seq<Node>, all: map<Key, (int, int)>, at: map<Key, nat>)
    requires 2 < |t|
    ensures Copied(t, all, at, 0, map[])
  {
    hide Probe;
  }

  lemma NoneLive(t: seq<Node>)
    requires t == []
    ensures LiveCount(t) == 0
  {
  }

  lemma LiveStep(t: seq<Node>, i: nat)
    requires i < |t|
    ensures LiveCount(t[..i + 1]) == LiveCount(t[..i]) + if Live(t[i]) then 1 else 0
  {
    assert t[..i + 1][..i] == t[..i];
  }

  lemma {:induction false} LiveAmongValid(t: seq<Node>)
    ensures LiveCount(t) <= ValidCount(t)
  {
    if t != [] {
      LiveAmongValid(t[..|t| - 1]);
    }
  }

  lemma WithinNext(live: nat, used: int, num: int, den: int, p: int, q: int)
    requires GoodLoad(num, den) && live <= used && Loaded(used, num, den, p) && p <= q
    ensures live > 0 ==> (live - 1) * den <= num * q
  {
    Scale(den, live - 1, used - 1);
    Scale(num, p, q);
  }

  // ---- where growing ends

  /**
   * The size of a table of size `j` after `k` entries were put in one by one, with the growth that each of them
   * brings about, which puts in again those before it; `|TABLE_SIZE|` if the sizes run out.
   */
  function Level(j: nat, k: nat, num: int, den: int): (r: nat)
    ensures r <= |TABLE_SIZE| && (j <= |TABLE_SIZE| ==> j <= r)
    decreases k
  {
    if j >= |TABLE_SIZE| then |TABLE_SIZE|
    else if k == 0 then j
    else
      var i := Level(j, k - 1, num, den);
      if i < |TABLE_SIZE| && (k - 1) * den > num * TABLE_SIZE[i] then Level(i + 1, k - 1, num, den) else i
  }

  /** More entries never need a smaller table. */
  lemma {:induction false} LevelGrows(j: nat, k: nat, n: nat, num: int, den: int)
    requires k <= n
    ensures Level(j, k, num, den) <= Level(j, n, num, den)
    decreases n
  {
    hide TABLE_SIZE;
    if k < n {
      LevelGrows(j, k, n - 1, num, den);
    }
  }

  /** Entries within the load do not make a table grow at all. */
  lemma {:induction false} LevelStays(j: nat, k: nat, num: int, den: int)
    requires j < |TABLE_SIZE| && 0 <= den && (k > 0 ==> (k - 1) * den <= num * TABLE_SIZE[j])
    ensures Level(j, k, num, den) == j
    decreases k
  {
    hide TABLE_SIZE;
    if k > 1 {
      Scale(den, k - 2, k - 1);
    }
    if k > 0 {
      LevelStays(j, k - 1, num, den);
    }
  }

  /** Entries within the load of the next size make it grow by one size at most, exactly when they are over the load. */
  lemma {:induction false} LevelOneMore(j: nat, k: nat, num: int, den: int)
    requires j + 1 < |TABLE_SIZE| && 0 <= num && 0 <= den && (k > 0 ==> (k - 1) * den <= num * TABLE_SIZE[j + 1])
    ensures Level(j, k, num, den) == if k > 0 && (k - 1) * den > num * TABLE_SIZE[j] then j + 1 else j
    decreases k
  {
    SizesGrow(j);
    hide TABLE_SIZE, Level;
    if k == 0 {
      LevelStays(j, 0, num, den);
    } else {
      if k > 1 {
        Scale(den, k - 2, k - 1);
        Scale(num, TABLE_SIZE[j], TABLE_SIZE[j + 1]);
      }
      LevelOneMore(j, k - 1, num, den);
      LevelStep(j, k - 1, num, den);
      if k > 1 && (k - 2) * den <= num * TABLE_SIZE[j] {
        LevelStays(j + 1, k - 1, num, den);
      } else if k == 1 {
        LevelStays(j + 1, 0, num, den);
      }
    }
  }

  /** The size a rebuild starts from. */
  function RebuildFrom(index: nat, dir: int): nat
    requires dir == -1 || dir == 0 || dir == 1
  {
    if dir == -1 && index == 0 then 0 else index + dir
  }

  /** One entry more. */
  lemma LevelStep(j: nat, k: nat, num: int, den: int)
    requires j <= |TABLE_SIZE|
    ensures var i := Level(j, k, num, den);
            Level(j, k + 1, num, den) == if i < |TABLE_SIZE| && k * den > num * TABLE_SIZE[i]
              then Level(i + 1, k, num, den) else i
  {
    hide TABLE_SIZE;
  }

  lemma LevelInside(j: nat, k: nat, num: int, den: int)
    requires Level(j, k, num, den) < |TABLE_SIZE|
    ensures j < |TABLE_SIZE| && Level(j, 0, num, den) == j
  {
    hide TABLE_SIZE;
  }

  lemma NothingLoaded(num: int, den: int, size: int)
    requires GoodLoad(num, den) && 0 <= size
    ensures Loaded(0, num, den, size)
  {
    Scale(num, 0, size);
  }

  /** A table that was rebuilt larger has room for one more. */
  lemma GrownRoom(was: int, used: nat, num: int, den: int, index: nat, now: nat)
    requires used <= was && index < |TABLE_SIZE| && was < TABLE_SIZE[index]
    requires now < |TABLE_SIZE| && now == Level(index + 1, used, num, den)
    ensures index + 1 <= now && used + 1 < TABLE_SIZE[now] && TABLE_SIZE[index + 1] <= TABLE_SIZE[now]
  {
    SizesGrow(index);
    hide TABLE_SIZE, Level;
    LevelInside(index + 1, used, num, den);
    SizesGrowMore(index + 1, now);
  }

  /** And with an ample load factor it is within the load. */
  lemma GrownLoad(was: int, used: nat, num: int, den: int, index: nat, now: nat)
    requires GoodLoad(num, den) && Ample(num, den) && used <= was && index + 1 <= now < |TABLE_SIZE|
    requires Loaded(was, num, den, TABLE_SIZE[index]) && TABLE_SIZE[index + 1] <= TABLE_SIZE[now]
    ensures used * den <= num * TABLE_SIZE[now]
  {
    hide TABLE_SIZE, Loaded;
    GrowthMakesRoom(was, num, den, index);
    LoadStays(used, was, num, den, TABLE_SIZE[index + 1], TABLE_SIZE[now]);
  }

  lemma LoadStays(used: int, was: int, num: int, den: int, p: int, q: int)
    requires 0 <= num && 0 <= den && used <= was && p <= q && was * den <= num * p
    ensures used * den <= num * q
  {
    Scale(den, used, was);
    Scale(num, p, q);
  }

  lemma {:induction false} SizesGrowMore(k: nat, n: nat)
    requires k <= n < |TABLE_SIZE|
    ensures TABLE_SIZE[k] <= TABLE_SIZE[n]
    decreases n
  {
    if k < n {
      SizesGrow(n - 1);
      hide TABLE_SIZE;
      SizesGrowMore(k, n - 1);
    }
  }

  function Power2(n: nat): nat {
    if n == 0 then 1 else 2 * Power2(n - 1)
  }

  /** The smaller the load factor, the sooner the sizes run out: at 0 each entry doubles what was grown. */
  lemma {:induction false} LevelAtZero(j: nat, k: nat, den: int)
    requires 0 < den && 0 < k && j <= |TABLE_SIZE|
    ensures Level(j, k, 0, den) == if j + Power2(k - 1) <= |TABLE_SIZE| then j + Power2(k - 1) - 1 else |TABLE_SIZE|
    decreases k
  {
    hide TABLE_SIZE;
    if k == 1 {
      assert Level(j, 0, 0, den) == j;
    } else {
      LevelAtZero(j, k - 1, den);
      PowerPositive(k - 2);
      Scale(den, 1, k - 1);
      if Level(j, k - 1, 0, den) < |TABLE_SIZE| {
        LevelAtZero(Level(j, k - 1, 0, den) + 1, k - 1, den);
      }
    }
  }

  lemma PowerPositive(n: nat)
    ensures Power2(n) >= 1
  {
  }

  /** An instance: a table of load factor 0 holds five keys, and the sixth needs a size that there is not. */
  lemma SixthKeyRunsOut(den: int)
    requires 0 < den
    ensures Level(0, 5, 0, den) == 15 && Level(0, 6, 0, den) == |TABLE_SIZE|
  {
    SizesCount();
    hide Level, TABLE_SIZE;
    LevelAtZero(0, 5, den);
    LevelAtZero(0, 6, den);
    assert Power2(2) == 4;
    assert Power2(4) == 16;
    assert Power2(5) == 32;
  }

  // ---- the load factor

  /** The load factor `num/den` is below 6/7. */
  ghost predicate GoodLoad(num: int, den: int) {
    0 < den && 0 <= num && 7 * num < 6 * den
  }

  /** Growing by one size is then always enough. */
  ghost predicate Ample(num: int, den: int) {
    den <= 19 * num
  }

  lemma Scale(num: int, p: int, q: int)
    requires 0 <= num && p <= q
    ensures num * p <= num * q
  {
  }

  lemma SizesGrow(k: nat)
    requires k + 1 < |TABLE_SIZE|
    ensures 7 <= TABLE_SIZE[k] < TABLE_SIZE[k + 1]
    ensures if k == 0 then TABLE_SIZE[0] == 7 && TABLE_SIZE[1] == 19 else TABLE_SIZE[k] + 19 <= TABLE_SIZE[k + 1]
  {
  }

  lemma SizesCount()
    ensures |TABLE_SIZE| == 26
  {
  }

  lemma SizeBounds(k: nat)
    requires k < |TABLE_SIZE|
    ensures 7 <= TABLE_SIZE[k]
  {
  }

  /** Slots in use that do not make the next insertion grow the table by themselves. */
  ghost predicate Loaded(used: int, num: int, den: int, size: int) {
    (used - 1) * den <= num * size
  }

  lemma FullIsOverloaded(used: int, num: int, den: int, size: int)
    requires 0 <= num && 0 < den && 7 * num < 6 * den
    requires 7 <= size <= used
    ensures !Loaded(used, num, den, size)
  {
    Scale(den, size - 1, used - 1);
    Scale(den, 0, size - 7);
    Scale(size, 7 * num, 6 * den - 1);
    Distribute(num, den, size);
  }

  lemma Distribute(num: int, den: int, size: int)
    ensures 7 * ((size - 1) * den) == size * (6 * den - 1) + size + den * (size - 7)
    ensures 7 * (num * size) == size * (7 * num)
  {
  }

  /** While growth keeps `used` within the load, a slot stays empty... */
  lemma LoadLeavesSlot(used: int, num: int, den: int, size: int)
    requires 0 <= num && 0 < den && 7 * num < 6 * den
    requires 7 <= size && Loaded(used, num, den, size)
    ensures used < size
  {
    if used >= size {
      FullIsOverloaded(used, num, den, size);
    }
  }

  /** ...and 6/7 is exactly where that starts to fail. */
  lemma LoadBound(num: int, den: int)
    requires 0 <= num && 0 < den
    ensures 7 * num < 6 * den <==> (forall used, k {:trigger Loaded(used, num, den, TABLE_SIZE[k])} ::
              0 <= k < |TABLE_SIZE| && Loaded(used, num, den, TABLE_SIZE[k]) ==> used < TABLE_SIZE[k])
  {
    if 7 * num >= 6 * den {
      SizesGrow(0);
      assert Loaded(7, num, den, TABLE_SIZE[0]);
    } else {
      forall used, k | 0 <= k < |TABLE_SIZE| && Loaded(used, num, den, TABLE_SIZE[k]) ensures used < TABLE_SIZE[k] {
        SizeBounds(k);
        LoadLeavesSlot(used, num, den, TABLE_SIZE[k]);
      }
    }
  }

  /** Growing by one size makes room for what the old size could hold and one more... */
  lemma GrowthMakesRoom(used: int, num: int, den: int, k: nat)
    requires 0 < den <= 19 * num && k + 1 < |TABLE_SIZE|
    requires Loaded(used, num, den, TABLE_SIZE[k])
    ensures used * den <= num * TABLE_SIZE[k + 1]
  {
    SizesGrow(k);
    assert (used - 1) * den == used * den - den;
    if k == 0 {
      if used <= 1 {
        Scale(den, used, 1);
      } else {
        Scale(den, 1, used - 1);
      }
    } else {
      OneMore(used, num, den, TABLE_SIZE[k], TABLE_SIZE[k + 1]);
    }
  }

  lemma OneMore(used: int, num: int, den: int, p: int, q: int)
    requires 0 < den <= 19 * num && p + 19 <= q
    requires Loaded(used, num, den, p)
    ensures used * den <= num * q
  {
    Scale(num, p + 19, q);
    assert num * (p + 19) == num * p + 19 * num;
    assert (used - 1) * den == used * den - den;
  }

  /** ...exactly from 1/19 on. */
  lemma GrowthBound(num: int, den: int)
    requires 0 <= num && 0 < den
    ensures den <= 19 * num <==> (forall used, k {:trigger Loaded(used, num, den, TABLE_SIZE[k])} ::
              0 <= k < |TABLE_SIZE| - 1 && Loaded(used, num, den, TABLE_SIZE[k]) ==>
                used * den <= num * TABLE_SIZE[k + 1])
  {
    if den <= 19 * num {
      forall used, k | 0 <= k < |TABLE_SIZE| - 1 && Loaded(used, num, den, TABLE_SIZE[k])
        ensures used * den <= num * TABLE_SIZE[k + 1]
      {
        GrowthMakesRoom(used, num, den, k);
      }
    } else {
      SizesGrow(0);
      assert Loaded(1, num, den, TABLE_SIZE[0]) && TABLE_SIZE[0 + 1] == 19;
    }
  }

  class Hashtable {
    var table: array<Node>
    var sizeIndex: nat
    var used: nat
    var dirty: nat
    const num: int
    const den: int

    /** What the table holds, and after how many probes. */
    ghost var entries: map<Key, (int, int)>
    ghost var at: map<Key, nat>

    ghost predicate Valid()
      reads this, table
    {
      && GoodLoad(num, den)
      && sizeIndex < |TABLE_SIZE| && table.Length == TABLE_SIZE[sizeIndex]
      && Represents(table[..], entries, at)
      && used == ValidCount(table[..]) <= LiveCount(table[..]) + dirty
      && used < table.Length && (Ample(num, den) ==> Loaded(used, num, den, table.Length))
    }

    /** How many keys the table holds. */
    ghost function Keys(): nat
      reads this, table
    {
      LiveCount(table[..])
    }

    /** The sizes do not run out when `keys` entries are put in a table of size `index`. */
    ghost predicate SizesSuffice(index: nat, keys: int)
      reads this
    {
      keys >= 0 ==> Level(index, keys, num, den) < |TABLE_SIZE|
    }

    ghost predicate NoTombstones()
      reads this, table
    {
      used == LiveCount(table[..])
    }

    constructor (num: int, den: int)
      requires GoodLoad(num, den)
      ensures Valid() && entries == map[] && NoTombstones() && dirty == 0
      ensures fresh(table)
      ensures sizeIndex == 0 && this.num == num && this.den == den
    {
      this.num, this.den := num, den;
      sizeIndex, used, dirty := 0, 0, 0;
      SizeBounds(0);
      table := new Node[TABLE_SIZE[0]];
      entries, at := map[], map[];
      new;
      Clear();
      NothingLoaded(num, den, TABLE_SIZE[0]);
    }

    method Clear()
      requires 2 < table.Length
      modifies table
      ensures forall i :: 0 <= i < table.Length ==> !table[i].valid && !table[i].dirty
      ensures Represents(table[..], map[], map[]) && ValidCount(table[..]) == 0
    {
      var i := 0;
      while i < table.Length
        invariant 0 <= i <= table.Length
        invariant forall j :: 0 <= j < i ==> !table[j].valid && !table[j].dirty
      {
        table[i] := table[i].(valid := false, dirty := false);
        i := i + 1;
      }
      EmptyTable(table[..]);
    }

    /** A probe that still runs has not been round the whole table. */
    lemma Bounded(key: Key, m: nat)
      requires Valid() && Path(table[..], key, m)
      ensures m < table.Length
    {
      hide Represents, Path;
      SizesArePrime(sizeIndex);
      SizeBounds(sizeIndex);
      PathEnds(table[..], key, m);
    }

    /** The probe loop that lookup and remove share: the slot that holds `key`, if one does. */
    method Search(key: Key) returns (found: bool, i: nat)
      requires Valid()
      ensures found <==> key in entries
      ensures i < table.Length
      ensures found ==> key in at && i == Probe(table.Length, key, at[key])
    {
      hide Probe, Path, Represents;
      SizeBounds(sizeIndex);
      i := HashOf(key, TABLE_SIZE[sizeIndex]);
      ghost var m: nat := 0;
      ProbeStart(table[..], key);
      Domains(table[..], entries, at);
      while table[i].valid
        invariant i < table.Length && i == Probe(table.Length, key, m)
        invariant Path(table[..], key, m)
        invariant key in entries ==> key in at && m <= at[key]
        decreases table.Length - m
      {
        if table[i].key == key && !table[i].dirty {
          LiveSlot(table[..], entries, at, i);
          return true, i;
        }
        Missed(table[..], entries, at, key, m);
        Bounded(key, m);
        PathGrows(table[..], key, m);
        ProbeStep(table.Length, key, m);
        i := StepBack(TABLE_SIZE[sizeIndex], i, Rehash(key, TABLE_SIZE[sizeIndex]));
        m := m + 1;
      }
      Absent(table[..], entries, at, key, m);
      return false, i;
    }

    /** The data and size stored under `key`, or NULL and 0. */
    method Lookup(key: Key) returns (data: int, dsize: int)
      requires Valid()
      ensures (data, dsize) == if key in entries then entries[key] else (0, 0)
    {
      hide Probe, Path, Represents;
      var found, i := Search(key);
      if found {
        EntryAt(table[..], entries, at, key);
        return table[i].data, table[i].dsize;
      }
      return 0, 0;
    }

    /** Where insertion puts a key that is not in the table. */
    method FreeSlot(key: Key) returns (i: nat, ghost m: nat)
      requires Valid() && key !in entries
      ensures i < table.Length && i == Probe(table.Length, key, m)
      ensures Path(table[..], key, m) && !Live(table[i])
    {
      hide Probe, Path, Represents;
      SizeBounds(sizeIndex);
      i := HashOf(key, TABLE_SIZE[sizeIndex]);
      m := 0;
      ProbeStart(table[..], key);
      if table[i].valid {
        while true
          invariant i < table.Length && i == Probe(table.Length, key, m)
          invariant Path(table[..], key, m) && table[i].valid
          decreases table.Length - m
        {
          Bounded(key, m);
          PathGrows(table[..], key, m);
          ProbeStep(table.Length, key, m);
          i := StepBack(TABLE_SIZE[sizeIndex], i, Rehash(key, TABLE_SIZE[sizeIndex]));
          m := m + 1;
          if !(table[i].valid && !table[i].dirty) { break; }
        }
      }
    }

    /** Fill a free slot, possibly a tombstone's, and account for it. */
    method Place(key: Key, data: int, dsize: int)
      requires Valid() && key !in entries
      requires used + 1 < table.Length && (Ample(num, den) ==> used * den <= num * table.Length)
      modifies this`used, this`entries, this`at, table
      ensures Valid() && entries == old(entries)[key := (data, dsize)]
      ensures old(NoTombstones()) ==> NoTombstones() && used == old(used) + 1
    {
      hide Probe, Path, Represents, ValidCount, LiveCount;
      ghost var m;
      var i;
      i, m := FreeSlot(key);
      ghost var t := table[..];
      TombstoneCount(t, i);
      DirtyIsValid(t, entries, at, i);
      if !table[i].dirty {
        used := used + 1;
      }
      table[i] := table[i].(valid := true, dirty := false, key := key, dsize := dsize, data := data);
      CountUpdate(t, i, table[i]);
      LiveUpdate(t, i, table[i]);
      Placed(t, entries, at, m, table[i]);
      entries, at := entries[key := (data, dsize)], at[key := m];
      assert table[..] == t[i := table[i]];
    }

    /** Add a key that is not in the table, growing the table first when it is loaded. */
    method Insert(key: Key, data: int, dsize: int)
      requires Valid() && key !in entries
      requires used * den > num * TABLE_SIZE[sizeIndex] ==> SizesSuffice(sizeIndex + 1, Keys())
      modifies this, table
      ensures Valid() && entries == old(entries)[key := (data, dsize)]
      ensures table == old(table) || fresh(table)
      ensures (sizeIndex, dirty) == if old(used * den > num * TABLE_SIZE[sizeIndex])
                                    then (Level(old(sizeIndex) + 1, old(Keys()), num, den), 0)
                                    else (old(sizeIndex), old(dirty))
      ensures old(NoTombstones()) ==> NoTombstones() && used == old(used) + 1
      decreases Keys(), 1
    {
      hide Represents, ValidCount, LiveCount, Level, TABLE_SIZE;
      SizeBounds(sizeIndex);
      if used * den > num * TABLE_SIZE[sizeIndex] {
        ghost var was, size := used, sizeIndex;
        LiveAmongValid(table[..]);
        Rebuild(1);
        GrownRoom(was, used, num, den, size, sizeIndex);
        if Ample(num, den) { GrownLoad(was, used, num, den, size, sizeIndex); }
      } else {
        LoadLeavesSlot(used + 1, num, den, table.Length);
      }
      Place(key, data, dsize);
    }

    /** An empty table of the current size. */
    method NewTable()
      requires GoodLoad(num, den) && sizeIndex < |TABLE_SIZE|
      modifies this
      ensures Valid() && NoTombstones() && fresh(table)
      ensures entries == map[] && used == 0 && dirty == 0
      ensures sizeIndex == old(sizeIndex)
    {
      SizeBounds(sizeIndex);
      used, dirty := 0, 0;
      table := new Node[TABLE_SIZE[sizeIndex]];
      Clear();
      entries, at := map[], map[];
      NothingLoaded(num, den, table.Length);
    }

    /** Move every live entry to a new table, one size up or down. */
    method Rebuild(dir: int)
      requires Valid()
      requires dir == -1 || dir == 0 || dir == 1
      requires SizesSuffice(RebuildFrom(sizeIndex, dir), Keys())
      modifies this
      ensures Valid() && entries == old(entries)
      ensures fresh(table)
      ensures NoTombstones() && dirty == 0 && used == old(Keys())
      ensures sizeIndex == Level(RebuildFrom(old(sizeIndex), dir), old(Keys()), num, den)
      decreases Keys(), 0
    {
      hide Probe, Represents, ValidCount, LiveCount, Copied, Loaded, GoodLoad, Ample, Level, TABLE_SIZE;
      var oldTable := table;
      ghost var t, all, wasAt, start := table[..], entries, at, RebuildFrom(sizeIndex, dir);
      SizeBounds(sizeIndex);
      LevelInside(start, LiveCount(t), num, den);
      match dir {
        case -1 => sizeIndex := if sizeIndex != 0 then sizeIndex - 1 else 0;
        case 0 =>
        case 1 => sizeIndex := sizeIndex + 1;
      }
      NewTable();
      NothingCopied(t, all, wasAt);
      NoneLive(t[..0]);
      LevelInside(start, 0, num, den);
      var i := 0;
      while i < oldTable.Length
        invariant 0 <= i <= oldTable.Length
        invariant Valid() && NoTombstones() && fresh(table)
        invariant oldTable[..] == t && used == LiveCount(t[..i])
        invariant Copied(t, all, wasAt, i, entries)
        invariant sizeIndex == Level(start, LiveCount(t[..i]), num, den) && dirty == 0
      {
        LiveStep(t, i);
        if oldTable[i].valid && !oldTable[i].dirty {
          LivePrefix(t, i + 1);
          LevelStep(start, LiveCount(t[..i]), num, den);
          LevelGrows(start, LiveCount(t[..i + 1]), LiveCount(t), num, den);
          CopiedLive(t, all, wasAt, i, entries);
          Insert(oldTable[i].key, oldTable[i].data, oldTable[i].dsize);
        } else {
          CopiedDead(t, all, wasAt, i, entries);
        }
        i := i + 1;
      }
      assert t[..i] == t;
      CopiedAll(t, all, wasAt, entries);
    }

    /** With an ample load factor, growing is growing by one size, while there is one. */
    lemma GrowingSuffices()
      requires Valid() && Ample(num, den) && sizeIndex + 1 < |TABLE_SIZE|
      ensures Level(sizeIndex + 1, Keys(), num, den) == sizeIndex + 1 && SizesSuffice(sizeIndex + 1, Keys())
    {
      hide Represents, ValidCount, LiveCount, Level, TABLE_SIZE;
      LiveAmongValid(table[..]);
      SizesGrow(sizeIndex);
      WithinNext(Keys(), used, num, den, TABLE_SIZE[sizeIndex], TABLE_SIZE[sizeIndex + 1]);
      LevelStays(sizeIndex + 1, Keys(), num, den);
    }

    /** And shrinking is shrinking by one size, or growing back when the keys are over the smaller load. */
    lemma ShrinkingSuffices()
      requires Valid() && Ample(num, den) && sizeIndex > 0 && Keys() > 0
      ensures SizesSuffice(sizeIndex - 1, Keys() - 1)
      ensures Level(sizeIndex - 1, Keys() - 1, num, den)
        == if Keys() > 1 && (Keys() - 2) * den > num * TABLE_SIZE[sizeIndex - 1] then sizeIndex else sizeIndex - 1
    {
      hide Represents, ValidCount, LiveCount, Level, TABLE_SIZE;
      LiveAmongValid(table[..]);
      WithinNext(Keys() - 1, used, num, den, TABLE_SIZE[sizeIndex], TABLE_SIZE[sizeIndex]);
      LevelOneMore(sizeIndex - 1, Keys() - 1, num, den);
    }

    /** The data and size that were stored under `key`, which is gone; the table may shrink. */
    method Remove(key: Key) returns (data: int, dsize: int)
      requires Valid()
      requires key in entries && (dirty + 1) * den > (den - num) * TABLE_SIZE[sizeIndex] && sizeIndex != 0 ==>
        SizesSuffice(sizeIndex - 1, Keys() - 1)
      modifies this, table
      ensures Valid() && entries == old(entries) - {key}
      ensures (data, dsize) == if key in old(entries) then old(entries)[key] else (0, 0)
      ensures table == old(table) || fresh(table)
      ensures key in old(entries) ==> old(Keys()) > 0
      ensures key in old(entries) ==>
        if old((dirty + 1) * den > (den - num) * TABLE_SIZE[sizeIndex] && sizeIndex != 0) then
          && NoTombstones() && dirty == 0 && fresh(table)
          && sizeIndex == Level(old(sizeIndex) - 1, old(Keys()) - 1, num, den)
        else table == old(table) && sizeIndex == old(sizeIndex) && used == old(used) && dirty == old(dirty) + 1
      ensures key !in old(entries) ==> unchanged(this) && unchanged(old(table))
    {
      hide Probe, Path, Represents, ValidCount, LiveCount, Level, Loaded, Ample, GoodLoad, TABLE_SIZE;
      var found, i := Search(key);
      if found {
        ghost var t := table[..];
        EntryAt(t, entries, at, key);
        data, dsize := table[i].data, table[i].dsize;
        table[i] := table[i].(dirty := true);
        dirty := dirty + 1;
        Buried(t, entries, at, key);
        CountUpdate(t, i, table[i]);
        LiveUpdate(t, i, table[i]);
        entries, at := entries - {key}, at - {key};
        assert table[..] == t[i := table[i]];
        if dirty * den > (den - num) * TABLE_SIZE[sizeIndex] && sizeIndex != 0 {
          Rebuild(-1);
        }
        return;
      }
      assert entries - {key} == entries;
      return 0, 0;
    }
  }
}
