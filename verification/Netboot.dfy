/**
 * Booting over the network: the stop-and-wait sender of blt/util/netboot.c and the
 * receiver `handle_udp` of blt/netboot/netboot.c, over a network that loses,
 * delays, reorders and duplicates packets.
 */
module Netboot {
  type Byte = b: int | 0 <= b < 256

  const BLOCK := 1024
  const NETBOOT_BASE := 0x0010_0000
  const NETBOOT_PORT := 4242
  const BLK_RANGE := 0x1_0000

  const CMD_LOAD := 1
  const CMD_EXEC := 2
  const CMD_ACK := 3

  type Block = b: seq<Byte> | |b| == BLOCK witness seq(BLOCK, i => 0)

  // ---- the image, cut into blocks

  function Blocks(image: seq<Byte>): (n: nat)
    ensures n * BLOCK >= |image| && (n > 0 ==> (n - 1) * BLOCK < |image|)
  {
    (|image| + BLOCK - 1) / BLOCK
  }

  /** The bytes that the `i`-th read gets: 1024 of them, but fewer at the end. */
  function Chunk(image: seq<Byte>, i: nat): (c: seq<Byte>)
    requires i < Blocks(image)
    ensures 0 < |c| <= BLOCK
  {
    image[i * BLOCK..if (i + 1) * BLOCK < |image| then (i + 1) * BLOCK else |image|]
  }

  /** The packet buffer after the `i`-th read: a short read leaves the end of what was there before. */
  function Buffer(image: seq<Byte>, initial: Block, i: nat): Block
    requires i < Blocks(image)
  {
    var c := Chunk(image, i);
    c + (if i == 0 then initial else Buffer(image, initial, i - 1))[|c|..]
  }

  /** Byte `k` of the image is in block `k / 1024`, at its place. */
  lemma BufferHoldsImage(image: seq<Byte>, initial: Block, k: nat)
    requires k < |image|
    ensures k / BLOCK < Blocks(image)
    ensures Buffer(image, initial, k / BLOCK)[k % BLOCK] == image[k]
  {
    var i := k / BLOCK;
    assert k == i * BLOCK + k % BLOCK;
    assert i < Blocks(image);
    assert Chunk(image, i)[k % BLOCK] == image[k];
  }

  // ---- the protocol

  /** What the sender puts on the wire; numbers travel in 16 bits. */
  datatype Packet = Load(blk: nat, data: Block) | Exec

  function Number(i: nat): (blk: nat)
    ensures blk < BLK_RANGE
  {
    i % BLK_RANGE
  }

  /**
   * `next` is the block the sender is at, all before it acknowledged; `done` when it has sent the
   * start command.  Every packet ever sent may still arrive, any number of times, at any time, or
   * never: `toReceiver` and `toSender` only grow.  `memory[b]` is what lies at the place of block `b`.
   */
  datatype State = State(
    next: nat, done: bool, toReceiver: set<Packet>, toSender: set<nat>, memory: map<nat, Block>, started: bool)

  datatype Action =
    | SendLoad          // the first time or a retry
    | SendExec
    | Receive(p: Packet)
    | GetAck(blk: nat)  // an acknowledgement arrives, of this or of an earlier block

  function Initial(memory: map<nat, Block>): State {
    State(0, false, {}, {}, memory, false)
  }

  ghost predicate Enabled(n: nat, s: State, a: Action) {
    match a
    case SendLoad => s.next < n
    case SendExec => s.next == n && !s.done
    case Receive(p) => p in s.toReceiver && !s.started
    case GetAck(blk) => blk in s.toSender && s.next < n
  }

  /** What the receiver does with a packet. */
  function Received(s: State, p: Packet): State {
    match p
    case Load(blk, data) => s.(memory := s.memory[blk := data], toSender := s.toSender + {blk})
    case Exec => s.(started := true)
  }

  function After(image: seq<Byte>, initial: Block, s: State, a: Action): State
    requires a.SendLoad? ==> s.next < Blocks(image)
  {
    match a
    case SendLoad => s.(toReceiver := s.toReceiver + {Load(Number(s.next), Buffer(image, initial, s.next))})
    case SendExec => s.(toReceiver := s.toReceiver + {Exec}, done := true)
    case Receive(p) => Received(s, p)
    case GetAck(blk) => if blk == Number(s.next) then s.(next := s.next + 1) else s
  }

  ghost predicate Stored(image: seq<Byte>, initial: Block, s: State, i: nat)
    requires i < Blocks(image)
  {
    Number(i) in s.memory && s.memory[Number(i)] == Buffer(image, initial, i)
  }

  /** A load packet carries one of the blocks sent so far, under its number. */
  ghost predicate Genuine(image: seq<Byte>, initial: Block, s: State, p: Packet) {
    p.Load? ==> p.blk <= s.next && p.blk < Blocks(image) && p.data == Buffer(image, initial, p.blk)
  }

  ghost predicate Inv(image: seq<Byte>, initial: Block, s: State) {
    && s.next <= Blocks(image)
    && (forall p {:trigger Genuine(image, initial, s, p)} :: p in s.toReceiver ==> Genuine(image, initial, s, p))
    && (forall blk :: blk in s.toSender ==> blk < Blocks(image) && Stored(image, initial, s, blk))
    && (forall i: nat {:trigger Stored(image, initial, s, i)} :: i < s.next ==> Stored(image, initial, s, i))
    && (Exec in s.toReceiver ==> s.next == Blocks(image))
    && (s.started ==> Exec in s.toReceiver)
  }

  lemma NumberIsBlock(i: nat)
    requires i < BLK_RANGE
    ensures Number(i) == i
  {
  }

  lemma InvStep(image: seq<Byte>, initial: Block, s: State, a: Action)
    requires Blocks(image) <= BLK_RANGE
    requires Inv(image, initial, s) && Enabled(Blocks(image), s, a)
    ensures Inv(image, initial, After(image, initial, s, a))
  {
    hide Blocks, Buffer;
    var u := After(image, initial, s, a);
    match a {
      case SendLoad =>
        NumberIsBlock(s.next);
        forall p | p in u.toReceiver ensures Genuine(image, initial, u, p) {
          if p in s.toReceiver { assert Genuine(image, initial, s, p); }
        }
        forall i: nat | i < u.next ensures Stored(image, initial, u, i) { assert Stored(image, initial, s, i); }
      case SendExec =>
        forall p | p in u.toReceiver ensures Genuine(image, initial, u, p) {
          if p in s.toReceiver { assert Genuine(image, initial, s, p); }
        }
        forall i: nat | i < u.next ensures Stored(image, initial, u, i) { assert Stored(image, initial, s, i); }
      case Receive(p) =>
        assert Genuine(image, initial, s, p);
        ReceivedStored(image, initial, s, p);
        forall q | q in u.toReceiver ensures Genuine(image, initial, u, q) { assert Genuine(image, initial, s, q); }
      case GetAck(blk) =>
        NumberIsBlock(blk);
        if s.next < BLK_RANGE { NumberIsBlock(s.next); }
        forall p | p in u.toReceiver ensures Genuine(image, initial, u, p) { assert Genuine(image, initial, s, p); }
        forall i: nat | i < u.next ensures Stored(image, initial, u, i) {
          if i < s.next { assert Stored(image, initial, s, i); }
        }
    }
  }

  /** Receiving a genuine packet, again or out of order, stores its block and spoils no other. */
  lemma ReceivedStored(image: seq<Byte>, initial: Block, s: State, p: Packet)
    requires Blocks(image) <= BLK_RANGE
    requires Genuine(image, initial, s, p)
    ensures forall i: nat {:trigger Stored(image, initial, Received(s, p), i)} :: i < Blocks(image) ==>
              (Stored(image, initial, s, i) ==> Stored(image, initial, Received(s, p), i))
    ensures p.Load? ==> Stored(image, initial, Received(s, p), p.blk)
  {
    hide Blocks, Buffer;
    if p.Load? {
      NumberIsBlock(p.blk);
    }
    forall i: nat | i < Blocks(image) && Stored(image, initial, s, i)
      ensures Stored(image, initial, Received(s, p), i)
    {
      NumberIsBlock(i);
    }
  }

  ghost predicate Reaches(image: seq<Byte>, initial: Block, start: State, actions: seq<Action>, s: State) {
    if actions == [] then s == start
    else
      var last := |actions| - 1;
      exists before {:trigger Reaches(image, initial, start, actions[..last], before)} ::
        Reaches(image, initial, start, actions[..last], before)
        && Enabled(Blocks(image), before, actions[last]) && s == After(image, initial, before, actions[last])
  }

  lemma {:induction false} ReachableInv(image: seq<Byte>, initial: Block, memory: map<nat, Block>, actions: seq<Action>,
      s: State)
    requires Blocks(image) <= BLK_RANGE && Reaches(image, initial, Initial(memory), actions, s)
    ensures Inv(image, initial, s)
    decreases |actions|
  {
    hide Blocks, Buffer;
    if actions != [] {
      var last := |actions| - 1;
      var before :| Reaches(image, initial, Initial(memory), actions[..last], before)
                    && Enabled(Blocks(image), before, actions[last])
                      && s == After(image, initial, before, actions[last]);
      ReachableInv(image, initial, memory, actions[..last], before);
      InvStep(image, initial, before, actions[last]);
    }
  }

  /** Progress to block `next` means that every earlier block is stored. */
  lemma ProgressIsStored(image: seq<Byte>, initial: Block, memory: map<nat, Block>, actions: seq<Action>, s: State,
      i: nat)
    requires Blocks(image) <= BLK_RANGE && Reaches(image, initial, Initial(memory), actions, s)
    requires i < s.next
    ensures i < Blocks(image) && Stored(image, initial, s, i)
  {
    hide Blocks, Buffer;
    ReachableInv(image, initial, memory, actions, s);
  }

  /** Whenever the receiver has started the image, its memory holds every byte of it. */
  lemma StartedHoldsImage(image: seq<Byte>, initial: Block, memory: map<nat, Block>, actions: seq<Action>, s: State,
      k: nat)
    requires Blocks(image) <= BLK_RANGE && Reaches(image, initial, Initial(memory), actions, s)
    requires s.started && k < |image|
    ensures k / BLOCK in s.memory && s.memory[k / BLOCK][k % BLOCK] == image[k]
  {
    hide Blocks, Buffer, Inv;
    ReachableInv(image, initial, memory, actions, s);
    BufferHoldsImage(image, initial, k);
    StartedAtEnd(image, initial, s);
    ProgressIsStored(image, initial, memory, actions, s, k / BLOCK);
    NumberIsBlock(k / BLOCK);
  }

  lemma StartedAtEnd(image: seq<Byte>, initial: Block, s: State)
    requires Inv(image, initial, s) && s.started
    ensures s.next == Blocks(image)
  {
  }

  // ---- too long an image

  lemma Extend(image: seq<Byte>, initial: Block, start: State, actions: seq<Action>, before: State, a: Action)
    requires Reaches(image, initial, start, actions, before) && Enabled(Blocks(image), before, a)
    ensures Reaches(image, initial, start, actions + [a], After(image, initial, before, a))
  {
    assert (actions + [a])[..|actions|] == actions;
  }

  /** Send, receive and acknowledge one block. */
  lemma OneBlock(image: seq<Byte>, initial: Block, start: State, actions: seq<Action>, s: State)
    returns (more: seq<Action>, u: State)
    requires Reaches(image, initial, start, actions, s) && s.next < Blocks(image) && !s.started && !s.done
    ensures Reaches(image, initial, start, more, u) && u.next == s.next + 1 && !u.started && !u.done
    ensures u.memory == s.memory[Number(s.next) := Buffer(image, initial, s.next)]
  {
    hide Blocks, Buffer, Number;
    var p := Load(Number(s.next), Buffer(image, initial, s.next));
    var a := After(image, initial, s, SendLoad);
    var b := After(image, initial, a, Receive(p));
    var c := After(image, initial, b, GetAck(p.blk));
    Extend(image, initial, start, actions, s, SendLoad);
    Extend(image, initial, start, actions + [SendLoad], a, Receive(p));
    Extend(image, initial, start, actions + [SendLoad] + [Receive(p)], b, GetAck(p.blk));
    more, u := actions + [SendLoad] + [Receive(p)] + [GetAck(p.blk)], c;
  }

  /** The last block before the `k`-th whose number is `j`. */
  function LastOf(k: nat, j: nat): (i: nat)
    requires j < k && j < BLK_RANGE
    ensures i < k && Number(i) == j
  {
    (k - 1 - j) / BLK_RANGE * BLK_RANGE + j
  }

  lemma NextOf(k: nat, j: nat)
    requires j < k && j < BLK_RANGE
    ensures Number(k - 1) == j ==> LastOf(k, j) == k - 1
    ensures Number(k - 1) != j ==> j < k - 1 && LastOf(k, j) == LastOf(k - 1, j)
  {
  }

  /** What the last of the blocks with number `j` holds is at their place. */
  ghost predicate LastStored(image: seq<Byte>, initial: Block, memory: map<nat, Block>, k: nat, j: nat)
    requires k <= Blocks(image)
  {
    j < k && j < BLK_RANGE ==> j in memory && memory[j] == Buffer(image, initial, LastOf(k, j))
  }

  lemma {:induction false} FaultlessRun(image: seq<Byte>, initial: Block, memory: map<nat, Block>, k: nat)
    returns (actions: seq<Action>, s: State)
    requires k <= Blocks(image)
    ensures Reaches(image, initial, Initial(memory), actions, s) && s.next == k && !s.started && !s.done
    ensures forall j: nat :: LastStored(image, initial, s.memory, k, j)
  {
    hide Blocks, Buffer, Reaches, LastOf, LastStored;
    if k == 0 {
      actions, s := [], Initial(memory);
      Start(image, initial, memory);
      forall j: nat ensures LastStored(image, initial, s.memory, k, j) {
        StoredNone(image, initial, s.memory, j);
      }
    } else {
      actions, s := FaultlessRun(image, initial, memory, k - 1);
      ghost var before := s.memory;
      actions, s := OneBlock(image, initial, Initial(memory), actions, s);
      forall j: nat ensures LastStored(image, initial, s.memory, k, j) {
        StoredNext(image, initial, before, s.memory, k, j);
      }
    }
  }

  lemma StoredNone(image: seq<Byte>, initial: Block, memory: map<nat, Block>, j: nat)
    ensures LastStored(image, initial, memory, 0, j)
  {
  }

  lemma StoredNext(image: seq<Byte>, initial: Block, before: map<nat, Block>, memory: map<nat, Block>, k: nat, j: nat)
    requires 0 < k <= Blocks(image) && LastStored(image, initial, before, k - 1, j)
    requires memory == before[Number(k - 1) := Buffer(image, initial, k - 1)]
    ensures LastStored(image, initial, memory, k, j)
  {
    hide Blocks, Buffer, LastOf;
    if j < k && j < BLK_RANGE {
      NextOf(k, j);
    }
  }

  /** Byte `k` of the packet buffer before the `i`-th read. */
  ghost function Held(image: seq<Byte>, initial: Block, i: nat, k: nat): Byte
    requires k < BLOCK && i <= Blocks(image)
  {
    if i == 0 then initial[k] else Buffer(image, initial, i - 1)[k]
  }

  /** Byte `k` of block `i`, a short one with what the packet buffer held behind it. */
  ghost function BlockByte(image: seq<Byte>, initial: Block, i: nat, k: nat): Byte
    requires k < BLOCK && i < Blocks(image)
  {
    if i * BLOCK + k < |image| then image[i * BLOCK + k] else Held(image, initial, i, k)
  }

  /** Block `i` is byte for byte block `j`. */
  ghost predicate SameAs(image: seq<Byte>, initial: Block, i: nat, j: nat)
    requires i < Blocks(image)
  {
    && (j + 1) * BLOCK <= |image|
    && forall k: nat :: k < BLOCK ==> image[j * BLOCK + k] == BlockByte(image, initial, i, k)
  }

  lemma BufferByte(image: seq<Byte>, initial: Block, i: nat, k: nat)
    requires i < Blocks(image) && k < BLOCK
    ensures Buffer(image, initial, i)[k] == BlockByte(image, initial, i, k)
  {
  }

  lemma SameBlock(image: seq<Byte>, initial: Block, i: nat, j: nat)
    requires (j + 1) * BLOCK <= |image| && i < Blocks(image)
    ensures image[j * BLOCK..(j + 1) * BLOCK] == Buffer(image, initial, i) <==> SameAs(image, initial, i, j)
  {
    hide Buffer, BlockByte;
    var a, b := image[j * BLOCK..(j + 1) * BLOCK], Buffer(image, initial, i);
    forall k: nat | k < BLOCK ensures a[k] == image[j * BLOCK + k] && b[k] == BlockByte(image, initial, i, k) {
      BufferByte(image, initial, i, k);
    }
  }

  lemma Start(image: seq<Byte>, initial: Block, memory: map<nat, Block>)
    ensures Reaches(image, initial, Initial(memory), [], Initial(memory))
  {
  }

  /** Byte `k` of the image is in memory at its place. */
  ghost predicate ByteThere(image: seq<Byte>, memory: map<nat, Block>, k: nat)
    requires k < |image|
  {
    k / BLOCK in memory && memory[k / BLOCK][k % BLOCK] == image[k]
  }

  /** So are all from block `from` on. */
  ghost predicate Holds(image: seq<Byte>, memory: map<nat, Block>, from: nat) {
    forall k: nat :: from * BLOCK <= k < |image| ==> ByteThere(image, memory, k)
  }

  /** Places from 65536 on are out of reach. */
  ghost predicate Beyond(memory: map<nat, Block>, s: State) {
    && (forall p :: p in s.toReceiver && p.Load? ==> p.blk < BLK_RANGE)
    && (forall b: nat {:trigger b in s.memory} :: BLK_RANGE <= b ==>
         (b in s.memory <==> b in memory) && (b in memory ==> s.memory[b] == memory[b]))
  }

  lemma {:induction false} NothingBeyond(image: seq<Byte>, initial: Block, memory: map<nat, Block>,
      actions: seq<Action>, s: State)
    requires Reaches(image, initial, Initial(memory), actions, s)
    ensures Beyond(memory, s)
    decreases |actions|
  {
    hide Blocks, Buffer, Beyond, After;
    if actions != [] {
      var last := |actions| - 1;
      var before :| Reaches(image, initial, Initial(memory), actions[..last], before)
                    && Enabled(Blocks(image), before, actions[last])
                      && s == After(image, initial, before, actions[last]);
      NothingBeyond(image, initial, memory, actions[..last], before);
      BeyondStep(image, initial, memory, before, actions[last]);
    } else {
      BeyondStart(memory);
    }
  }

  lemma BeyondStart(memory: map<nat, Block>)
    ensures Beyond(memory, Initial(memory))
  {
  }

  lemma BeyondStep(image: seq<Byte>, initial: Block, memory: map<nat, Block>, s: State, a: Action)
    requires Beyond(memory, s) && Enabled(Blocks(image), s, a)
    ensures Beyond(memory, After(image, initial, s, a))
  {
    hide Blocks, Buffer;
  }

  /** Over every run, what was not in memory behind the first 65536 blocks is never put there. */
  lemma RestWasThere(image: seq<Byte>, initial: Block, memory: map<nat, Block>, actions: seq<Action>, s: State)
    requires Reaches(image, initial, Initial(memory), actions, s)
    ensures Holds(image, s.memory, BLK_RANGE) <==> Holds(image, memory, BLK_RANGE)
  {
    hide Reaches, ByteThere;
    NothingBeyond(image, initial, memory, actions, s);
    forall k: nat | BLK_RANGE * BLOCK <= k < |image|
      ensures ByteThere(image, s.memory, k) <==> ByteThere(image, memory, k)
    {
      ByteBeyond(image, memory, s, k);
    }
  }

  lemma ByteBeyond(image: seq<Byte>, memory: map<nat, Block>, s: State, k: nat)
    requires Beyond(memory, s) && BLK_RANGE * BLOCK <= k < |image|
    ensures ByteThere(image, s.memory, k) <==> ByteThere(image, memory, k)
  {
    assert BLK_RANGE <= k / BLOCK;
    assert k / BLOCK in s.memory <==> k / BLOCK in memory;
  }

  ghost predicate BlockThere(image: seq<Byte>, memory: map<nat, Block>, j: nat) {
    (j + 1) * BLOCK <= |image| && j in memory && memory[j] == image[j * BLOCK..(j + 1) * BLOCK]
  }

  lemma BlockHeld(image: seq<Byte>, memory: map<nat, Block>, j: nat)
    requires (j + 1) * BLOCK <= |image|
    requires forall k: nat :: j * BLOCK <= k < (j + 1) * BLOCK ==> ByteThere(image, memory, k)
    ensures BlockThere(image, memory, j)
  {
    assert ByteThere(image, memory, j * BLOCK);
    forall c | 0 <= c < BLOCK ensures memory[j][c] == image[j * BLOCK + c] {
      assert ByteThere(image, memory, j * BLOCK + c);
      PlaceOf(j, c);
    }
    var block := image[j * BLOCK..(j + 1) * BLOCK];
    assert forall c :: 0 <= c < BLOCK ==> block[c] == image[j * BLOCK + c];
  }

  lemma PlaceOf(j: nat, c: nat)
    requires c < BLOCK
    ensures (j * BLOCK + c) / BLOCK == j && (j * BLOCK + c) % BLOCK == c
  {
  }

  lemma HeldByBlock(image: seq<Byte>, memory: map<nat, Block>, k: nat)
    requires k < |image| && BlockThere(image, memory, k / BLOCK)
    ensures ByteThere(image, memory, k)
  {
    var j := k / BLOCK;
    assert k == j * BLOCK + k % BLOCK;
    assert image[j * BLOCK..(j + 1) * BLOCK][k % BLOCK] == image[k];
  }

  /** Block by block, for the first 65536. */
  lemma HoldsByBlock(image: seq<Byte>, memory: map<nat, Block>)
    requires Blocks(image) > BLK_RANGE
    ensures Holds(image, memory, 0) <==>
      (Holds(image, memory, BLK_RANGE) && forall j: nat :: j < BLK_RANGE ==> BlockThere(image, memory, j))
  {
    hide ByteThere, BlockThere, Blocks;
    if Holds(image, memory, BLK_RANGE) && forall j: nat :: j < BLK_RANGE ==> BlockThere(image, memory, j) {
      forall k: nat | k < |image| ensures ByteThere(image, memory, k) {
        if k < BLK_RANGE * BLOCK {
          HeldByBlock(image, memory, k);
        }
      }
    } else if Holds(image, memory, 0) {
      forall j: nat | j < BLK_RANGE ensures BlockThere(image, memory, j) {
        LongImage(image, j);
        BlockHeld(image, memory, j);
      }
    }
  }

  /** An image of more than 65536 blocks has 65536 whole ones. */
  lemma LongImage(image: seq<Byte>, j: nat)
    requires j < BLK_RANGE < Blocks(image)
    ensures (j + 1) * BLOCK <= |image|
  {
  }

  /**
   * Beyond 65536 blocks numbers repeat: a run without any fault starts an image each of whose first 65536 places
   * holds the last block that went there, and no other.  It is whole exactly if all these blocks are the same as
   * those they overwrote, and what comes behind was in memory before.
   */
  lemma TooLongIsOverwritten(image: seq<Byte>, initial: Block, memory: map<nat, Block>)
    returns (actions: seq<Action>, s: State)
    requires Blocks(image) > BLK_RANGE
    ensures Reaches(image, initial, Initial(memory), actions, s) && s.started
    ensures forall j: nat :: LastStored(image, initial, s.memory, Blocks(image), j)
    ensures LastOf(Blocks(image), 0) >= BLK_RANGE
    ensures Holds(image, s.memory, 0) <==>
      (Holds(image, memory, BLK_RANGE) &&
       forall j: nat :: j < BLK_RANGE ==> SameAs(image, initial, LastOf(Blocks(image), j), j))
  {
    hide Blocks, Buffer, Reaches, SameAs, LastStored, Holds;
    var n := Blocks(image);
    actions, s := FaultlessRun(image, initial, memory, n);
    Extend(image, initial, Initial(memory), actions, s, SendExec);
    actions, s := actions + [SendExec], After(image, initial, s, SendExec);
    Extend(image, initial, Initial(memory), actions, s, Receive(Exec));
    actions, s := actions + [Receive(Exec)], After(image, initial, s, Receive(Exec));
    RestWasThere(image, initial, memory, actions, s);
    HoldsByBlock(image, s.memory);
    forall j: nat | j < BLK_RANGE
      ensures BlockThere(image, s.memory, j) <==> SameAs(image, initial, LastOf(n, j), j)
    {
      StoredIsSame(image, initial, s.memory, j);
    }
  }

  lemma StoredIsSame(image: seq<Byte>, initial: Block, memory: map<nat, Block>, j: nat)
    requires j < BLK_RANGE < Blocks(image) && LastStored(image, initial, memory, Blocks(image), j)
    ensures BlockThere(image, memory, j) <==> SameAs(image, initial, LastOf(Blocks(image), j), j)
  {
    hide Blocks, Buffer, SameAs, LastOf;
    LongImage(image, j);
    SameBlock(image, initial, LastOf(Blocks(image), j), j);
  }

  // ---- the two programs

  datatype Reply = Silence | Ack(blk: nat) | Start

  class Receiver {
    const memory: array<Byte>
    var gotServer: bool
    var server: int
    var started: bool

    ghost predicate Valid()
      reads this
    {
      memory.Length == NETBOOT_BASE + BLK_RANGE * BLOCK
    }

    /** What lies at the place of block `blk`. */
    ghost function At(blk: nat): Block
      requires Valid() && blk < BLK_RANGE
      reads this, memory
    {
      memory[NETBOOT_BASE + blk * BLOCK..NETBOOT_BASE + blk * BLOCK + BLOCK]
    }

    constructor (memory: array<Byte>)
      requires memory.Length == NETBOOT_BASE + BLK_RANGE * BLOCK
      ensures Valid() && !started && !gotServer && this.memory == memory
    {
      this.memory, gotServer, server, started := memory, false, 0, false;
    }

    /** Handle one datagram: a block is stored and acknowledged, whether or not it came before. */
    method HandleUdp(port: nat, source: int, cmd: nat, blk: nat, data: Block) returns (r: Reply)
      requires Valid() && blk < BLK_RANGE && !started
      modifies this, memory
      ensures Valid()
      ensures port != NETBOOT_PORT || (cmd != CMD_LOAD && cmd != CMD_EXEC) ==>
        r == Silence && unchanged(this) && unchanged(memory)
      ensures port == NETBOOT_PORT && cmd == CMD_LOAD ==> r == Ack(blk) && At(blk) == data && !started
      ensures port == NETBOOT_PORT && cmd == CMD_LOAD ==> forall b :: 0 <= b < BLK_RANGE && b != blk ==>
        At(b) == old(At(b))
      ensures port == NETBOOT_PORT && cmd == CMD_LOAD ==> memory[..NETBOOT_BASE] == old(memory[..NETBOOT_BASE])
      ensures port == NETBOOT_PORT && cmd == CMD_EXEC ==> r == Start && started && unchanged(memory)
      ensures port == NETBOOT_PORT && (cmd == CMD_LOAD || cmd == CMD_EXEC) ==>
                gotServer && server == if old(gotServer) then old(server) else source
    {
      if port != NETBOOT_PORT {
        return Silence;
      }
      if cmd != CMD_LOAD && cmd != CMD_EXEC {
        return Silence;
      }
      if !gotServer {
        server := source;
        gotServer := true;
      }
      if cmd == CMD_LOAD {
        Store(blk, data);
        return Ack(blk);
      }
      started := true;
      return Start;
    }

    /** Copy 1024 bytes to the block's place. */
    method Store(blk: nat, data: Block)
      requires Valid() && blk < BLK_RANGE
      modifies memory
      ensures At(blk) == data
      ensures forall b :: 0 <= b < BLK_RANGE && b != blk ==> At(b) == old(At(b))
      ensures memory[..NETBOOT_BASE] == old(memory[..NETBOOT_BASE])
    {
      var addr := NETBOOT_BASE + blk * BLOCK;
      ghost var before := memory[..];
      var i := 0;
      while i < BLOCK
        invariant 0 <= i <= BLOCK
        invariant forall j :: 0 <= j < i ==> memory[addr + j] == data[j]
        invariant forall j {:trigger memory[j]} :: 0 <= j < memory.Length && !(addr <= j < addr + BLOCK) ==>
          memory[j] == before[j]
      {
        memory[addr + i] := data[i];
        i := i + 1;
      }
      forall b | 0 <= b < BLK_RANGE && b != blk ensures At(b) == old(At(b)) {
        Elsewhere(b, blk);
      }
    }
  }

  lemma Elsewhere(b: nat, blk: nat)
    requires b != blk
    ensures b * BLOCK + BLOCK <= blk * BLOCK || blk * BLOCK + BLOCK <= b * BLOCK
  {
  }

  class Sender {
    const image: seq<Byte>
    ghost const initial: Block
    var i: nat
    var data: Block

    /** `read` tells whether the current block is in the buffer. */
    ghost predicate Valid(read: bool)
      reads this
    {
      && i <= Blocks(image) && (read ==> i < Blocks(image))
      && data == (if read then Buffer(image, initial, i) else if i == 0 then initial else Buffer(image, initial, i - 1))
    }

    constructor (image: seq<Byte>, data: Block)
      ensures Valid(false) && i == 0 && this.image == image && initial == data
    {
      this.image, i, this.data, initial := image, 0, data, data;
    }

    /** Read the next block of the file over the buffer; false at its end. */
    method Read() returns (more: bool)
      requires Valid(false)
      modifies this`data
      ensures more <==> i < Blocks(image)
      ensures Valid(more)
    {
      if i * BLOCK >= |image| {
        return false;
      }
      var c := image[i * BLOCK..if (i + 1) * BLOCK < |image| then (i + 1) * BLOCK else |image|];
      assert i < Blocks(image) && c == Chunk(image, i);
      data := c + data[|c|..];
      return true;
    }

    /** What goes on the wire, first and at every retry. */
    method Packet() returns (cmd: nat, blk: nat, payload: Block)
      requires Valid(true)
      ensures cmd == CMD_LOAD && blk == Number(i) && payload == Buffer(image, initial, i)
    {
      return CMD_LOAD, i % BLK_RANGE, data;
    }

    /** A reply moves the sender on only if it acknowledges the current block; otherwise it retries. */
    method Reply(cmd: nat, blk: nat) returns (retry: bool)
      requires Valid(true)
      modifies this`i
      ensures Valid(retry)
      ensures retry <==> cmd != CMD_ACK || blk != Number(old(i))
      ensures i == old(i) + if cmd == CMD_ACK && blk == Number(old(i)) then 1 else 0
    {
      if cmd != CMD_ACK {
        return true;
      }
      if blk != i % BLK_RANGE {
        return true;
      }
      i := i + 1;
      return false;
    }
  }
}
