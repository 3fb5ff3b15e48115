/** The words of the heap: boundary tags, footers and the circular bin lists.

    Memory is one map from byte addresses of 32-bit words to their values, so a block's data,
    a free chunk's links and a free chunk's footer really do share the same words. */
module HeapMemory {
  import opened HeapLayout

  type Mem = map<int, int>

  function Rd(m: Mem, w: int): int {
    if w in m then m[w] else 0
  }

  function Wr(m: Mem, w: int, v: int): Mem {
    m[w := v]
  }

  // ---- chunk fields (struct malloc_chunk: prev_size, size, fd, bk) ----------------------

  function PrevSize(m: Mem, p: int): int { Rd(m, p) }
  function Head(m: Mem, p: int): int { Rd(m, p + SIZE_SZ) }
  function Fd(m: Mem, p: int): int { Rd(m, p + 2 * SIZE_SZ) }
  function Bk(m: Mem, p: int): int { Rd(m, p + 3 * SIZE_SZ) }

  function SetHead(m: Mem, p: int, v: int): Mem { Wr(m, p + SIZE_SZ, v) }
  function SetFoot(m: Mem, p: int, s: int): Mem { Wr(m, p + s, s) }
  function SetFd(m: Mem, p: int, v: int): Mem { Wr(m, p + 2 * SIZE_SZ, v) }
  function SetBk(m: Mem, p: int, v: int): Mem { Wr(m, p + 3 * SIZE_SZ, v) }

  /** A size field: the size, with the PREV_INUSE bit. */
  function Tag(size: int, prevInuse: bool): int {
    if prevInuse then size + 1 else size
  }

  function PrevInuse(h: int): bool {
    h % 2 == 1
  }

  /** chunksize: both low bits masked off. */
  function ChunkSize(h: int): int {
    h - h % 4
  }

  lemma TagFields(size: int, b: bool)
    requires size % 8 == 0
    ensures PrevInuse(Tag(size, b)) == b && ChunkSize(Tag(size, b)) == size
  {
    var k := size / 8;
    assert size == 8 * k;
  }

  /** set_inuse_bit_at_offset: p->size |= PREV_INUSE for the chunk at q. */
  function SetInuse(m: Mem, q: int): Mem {
    SetHead(m, q, Tag(Head(m, q) - Head(m, q) % 2, true))
  }

  /** set_head_size: a new size, the use bit kept. */
  function SetHeadSize(m: Mem, p: int, s: int): Mem {
    SetHead(m, p, Tag(s, PrevInuse(Head(m, p))))
  }

  // ---- bins: circular doubly linked lists through the headers in av_ ----------------------

  const AV := 0x2000                     // bin_at(0), in the static data below the heap
  const AV_END := AV + 8 * NAV + 16

  function Bin(i: int): int {
    AV + 8 * i
  }

  /** The list from header h holds exactly s, first element at h->fd. */
  ghost predicate Ring(m: Mem, h: int, s: seq<int>) {
    && Fd(m, h) == (if s == [] then h else s[0])
    && Bk(m, h) == (if s == [] then h else s[|s| - 1])
    && (forall k {:trigger Fd(m, s[k])} :: 0 <= k < |s| ==> Fd(m, s[k]) == if k + 1 < |s| then s[k + 1] else h)
    && (forall k {:trigger Bk(m, s[k])} :: 0 <= k < |s| ==> Bk(m, s[k]) == if k > 0 then s[k - 1] else h)
  }

  predicate Eight(x: int) {
    x % 8 == 0
  }

  /** Ring nodes are distinct and 8-aligned. */
  ghost predicate Nodes(h: int, s: seq<int>) {
    && Eight(h)
    && (forall k :: 0 <= k < |s| ==> Eight(s[k]) && s[k] != h)
    && (forall k, l :: 0 <= k < l < |s| ==> s[k] != s[l])
  }

  /** unlink: FD->bk = BK; BK->fd = FD. */
  function Unlink(m: Mem, x: int): Mem {
    var bck, fwd := Bk(m, x), Fd(m, x);
    SetFd(SetBk(m, fwd, bck), bck, fwd)
  }

  /** The tail of frontlink: P->bk = BK; P->fd = FD; FD->bk = BK->fd = P. */
  function Link(m: Mem, x: int, bck: int, fwd: int): Mem {
    SetBk(SetFd(SetFd(SetBk(m, x, bck), x, fwd), bck, x), fwd, x)
  }

  function LinkLastRemainder(m: Mem, x: int): Mem {
    var h := Bin(LAST_REMAINDER);
    SetBk(SetFd(SetFd(SetBk(m, h, x), h, x), x, h), x, h)
  }

  function ClearLastRemainder(m: Mem): Mem {
    var h := Bin(LAST_REMAINDER);
    SetFd(SetBk(m, h, h), h, h)
  }

  /** The node before position k, and the node at position k. */
  function Before(h: int, s: seq<int>, k: int): int
    requires 0 <= k <= |s|
  {
    if k == 0 then h else s[k - 1]
  }

  function At(h: int, s: seq<int>, k: int): int
    requires 0 <= k <= |s|
  {
    if k == |s| then h else s[k]
  }

  lemma UnlinkFields(m: Mem, x: int)
    requires Eight(Fd(m, x)) && Eight(Bk(m, x))
    ensures forall y :: Eight(y) ==> Fd(Unlink(m, x), y) == if y == Bk(m, x) then Fd(m, x) else Fd(m, y)
    ensures forall y :: Eight(y) ==> Bk(Unlink(m, x), y) == if y == Fd(m, x) then Bk(m, x) else Bk(m, y)
  {
  }

  lemma LinkFields(m: Mem, x: int, bck: int, fwd: int)
    requires Eight(x) && Eight(bck) && Eight(fwd) && x != bck && x != fwd
    ensures forall y :: Eight(y) ==>
      Fd(Link(m, x, bck, fwd), y) == if y == bck then x else if y == x then fwd else Fd(m, y)
    ensures forall y :: Eight(y) ==>
      Bk(Link(m, x, bck, fwd), y) == if y == fwd then x else if y == x then bck else Bk(m, y)
  {
  }

  lemma UnlinkForward(m: Mem, h: int, s: seq<int>, k: int, l: int)
    requires Ring(m, h, s) && Nodes(h, s) && 0 <= k < |s| && 0 <= l < |s| && l != k
    ensures Fd(Unlink(m, s[k]), s[l]) == At(h, s, if l + 1 == k then k + 1 else l + 1)
  {
    hide Fd, Bk, Unlink, Eight;
    assert Bk(m, s[k]) == Before(h, s, k) && Fd(m, s[k]) == At(h, s, k + 1);
    UnlinkFields(m, s[k]);
    assert s[l] == Before(h, s, k) <==> l + 1 == k;
    assert Fd(m, s[l]) == At(h, s, l + 1);
  }

  lemma UnlinkBackward(m: Mem, h: int, s: seq<int>, k: int, l: int)
    requires Ring(m, h, s) && Nodes(h, s) && 0 <= k < |s| && 0 <= l < |s| && l != k
    ensures Bk(Unlink(m, s[k]), s[l]) == Before(h, s, if l == k + 1 then k else l)
  {
    hide Fd, Bk, Unlink, Eight;
    assert Bk(m, s[k]) == Before(h, s, k) && Fd(m, s[k]) == At(h, s, k + 1);
    UnlinkFields(m, s[k]);
    assert s[l] == At(h, s, k + 1) <==> l == k + 1;
    assert Bk(m, s[l]) == Before(h, s, l);
  }

  lemma UnlinkRing(m: Mem, h: int, s: seq<int>, k: int)
    requires Ring(m, h, s) && Nodes(h, s) && 0 <= k < |s|
    ensures Ring(Unlink(m, s[k]), h, RemoveAt(s, k))
  {
    hide Fd, Bk, Unlink, Eight;
    var t, m' := RemoveAt(s, k), Unlink(m, s[k]);
    forall l {:trigger Fd(m', t[l])} | 0 <= l < |t|
      ensures Fd(m', t[l]) == if l + 1 < |t| then t[l + 1] else h
    {
      UnlinkForward(m, h, s, k, if l < k then l else l + 1);
    }
    forall l {:trigger Bk(m', t[l])} | 0 <= l < |t|
      ensures Bk(m', t[l]) == if l > 0 then t[l - 1] else h
    {
      UnlinkBackward(m, h, s, k, if l < k then l else l + 1);
    }
    UnlinkHeader(m, h, s, k);
  }

  lemma UnlinkHeader(m: Mem, h: int, s: seq<int>, k: int)
    requires Ring(m, h, s) && Nodes(h, s) && 0 <= k < |s|
    ensures var t, m' := RemoveAt(s, k), Unlink(m, s[k]);
      Fd(m', h) == (if t == [] then h else t[0]) && Bk(m', h) == (if t == [] then h else t[|t| - 1])
  {
    hide Fd, Bk, Unlink, Eight;
    assert Bk(m, s[k]) == Before(h, s, k) && Fd(m, s[k]) == At(h, s, k + 1);
    UnlinkFields(m, s[k]);
  }

  lemma LinkRing(m: Mem, h: int, s: seq<int>, k: int, x: int)
    requires Ring(m, h, s) && Nodes(h, s) && 0 <= k <= |s|
    requires Eight(x) && x != h && x !in s
    ensures Ring(Link(m, x, Before(h, s, k), At(h, s, k)), h, InsertAt(s, k, x))
  {
    hide Fd, Bk, Link, Eight;
    var bck, fwd := Before(h, s, k), At(h, s, k);
    var t, m' := InsertAt(s, k, x), Link(m, x, bck, fwd);
    LinkFields(m, x, bck, fwd);
    forall l | 0 <= l < |t|
      ensures Fd(m', t[l]) == if l + 1 < |t| then t[l + 1] else h
      ensures Bk(m', t[l]) == if l > 0 then t[l - 1] else h
    {
      if l != k {
        var j := if l < k then l else l - 1;
        assert t[l] == s[j];
        assert Fd(m, s[j]) == At(h, s, j + 1) && Bk(m, s[j]) == Before(h, s, j);
      }
    }
  }

  lemma RingFrame(m: Mem, m': Mem, h: int, s: seq<int>)
    requires Ring(m, h, s)
    requires Fd(m', h) == Fd(m, h) && Bk(m', h) == Bk(m, h)
    requires forall x :: x in s ==> Fd(m', x) == Fd(m, x) && Bk(m', x) == Bk(m, x)
    ensures Ring(m', h, s)
  {
    forall k | 0 <= k < |s|
      ensures Fd(m', s[k]) == Fd(m, s[k]) && Bk(m', s[k]) == Bk(m, s[k])
    {
      assert s[k] in s;
    }
  }
}
