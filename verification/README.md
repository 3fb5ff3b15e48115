# OpenBLT, proved in Dafny

OpenBLT is a small microkernel operating system for the PC.  This project models
the parts of it that carry difficult state and proves what they are meant to
keep, in Dafny 4.11.  `dafny verify dfyconfig.toml` checks all of it.

| files | part of the system |
|---|---|
| Word, Wrappers, Seqs, FreeList | 32-bit arithmetic, optional values, sequences without repetition, free lists threaded through a table |
| HeapLayout, HeapMemory, HeapRep, HeapSteps, Heap | the C library's allocator: boundary tags, size-ordered bins, the block bitmap, the last remainder and top, all in one word-addressed memory |
| Probing, Primality, TableSizes, Hash | the open-addressing hash table, with the number theory that makes its probes end |
| Qsort | Bentley and McIlroy's quicksort, in place on an array |
| Sem, Qsem | kernel semaphores, and the userland semaphore on top of them as an interleaving protocol |
| Port, MessageChain | bounded message ports with slaves, their sleepers and wakeups |
| List, Sched, Resource | intrusive lists, the scheduler with its queues, timer and reaper, the table of resource numbers |
| Pages, Spans, Aspace, Areas | free pages, the search for virtual space, areas over reference-counted page groups |
| Netboot | the stop-and-wait boot protocol over a network that loses, delays, reorders and duplicates |
| Fish | the Distributed Fish Protocol between tanks |
| Grid, Terminal, Streams, Effects, Vt100 | the terminal interpreter over its grid: on values, what streams of bytes and single sequences do, and in place |

Code that changes things step by step is a class or a method over arrays, proved
against specification functions on values; the theorems about all runs are lemmas
over those functions and the invariants the methods keep.  Where the code meets
its intent only under a condition, the condition is proved to be exact:

- a request of 2^31 - 11 bytes or more gets a block too small for it (`RequestFits`), and growing
  into top is misjudged from 2^31 - 16 on (`TopGuard`) and then damages the heap (`GrowthUnsafe`);
- the hash table needs a load factor below 6/7 (`LoadBound`); from 1/19 on it grows by one size at a time
  (`GrowthBound`), below that its sizes run out where `Level` says (`LevelAtZero`, `SixthKeyRunsOut`);
- a semaphore balances only if created with a count not below zero (`BalancedFromCreation`), and while its count
  fits an int (`KeptExactly`);
- an ill-sized message, or a port that becomes a slave under a sleeping sender, can lose a wakeup
  (`SenderGivesUp`, `DepositOnEnslaved`), destroying a slave pins its master
  (`OrphansPinMaster`), and destroying a port under a woken task strands it (`StrandedExactly`);
- the span search can return a run that is too short (`UsableExactly`); an area can be resized
  only by the space it is in, alone in its group (`GrowthExactly`, `ForeignGrowthExample`), and if the group
  owns its pages (`GrowthNeedsOwnPages`); the code tests none of the three;
- a sleeper that is not due delays those behind it (`WokenExactly`, `HeldBehind`); from 2^31 - 2000 microseconds on,
  or when the timer passes 2^32, a sleeper is due at the next tick or held for almost 2^32 ticks, by where the timer is
  (`SleepExactly`, `SleepersHeld`);
- an interrupt has a listener that is gone exactly after the reaper took the task that listened (`Reap`);
- 65536 blocks is the longest image that can be booted (`StartedHoldsImage`); what a longer one leaves in memory is
  the image only if the blocks that share a number are the same and the rest was there before
  (`TooLongIsOverwritten`, `RestWasThere`);
- a frame of the tank loses fish exactly by a dead one behind one that is leaving (`LossExactly`, `LossReached`);
- a parameter is read as it is written exactly below 2^31 (`NumberRead`, `ParametersRead`); beyond, a deletion
  can reach outside its line (`DeletionInLine`) and outside the screen (`DeletionExactly`, `DeletionOffScreen`),
  unless its address wraps around (`DeletionOfNone`),
  and a scroll region must have a line on the screen (`RegionExactly`, `RegionOffScreen`).

The 26 table sizes are primes up to 566115259; TableSizes holds a certificate for each, a residue of
full order with its power worked out four binary digits at a time.

## Model

| member | source | states |
|---|---|---|
| HeapLayout.BinIndexMonotone | blt/lib/libc/malloc.c:1201-1212 | a larger chunk never belongs to a lower bin |
| HeapLayout.BinIndexExactly | blt/lib/libc/malloc.c:1122-1208 | which sizes a bin holds, by the table of spacings, with the slop where the spacing changes |
| HeapLayout.BytesAddUp | blt/lib/libc/malloc.c:1289-1394 | used bytes, free bytes and top fill the arena exactly, because chunks tile it |
| HeapLayout.Predecessor | blt/lib/libc/malloc.c:1043-1045 | every chunk but the first, and top, has a chunk that ends where it begins |
| HeapLayout.TakeKeeps | blt/lib/libc/malloc.c:1452-1458 | taking a chunk out of its bin for use keeps the tiling, the bins and the bitmap cover |
| HeapLayout.PutKeeps | blt/lib/libc/malloc.c:1421-1448 | binning a released chunk in size order keeps all of them, given that no neighbour is free |
| HeapLayout.JoinKeeps | blt/lib/libc/malloc.c:2085-2108 | joining two neighbours keeps all of them |
| HeapLayout.CutKeeps | blt/lib/libc/malloc.c:2328-2343 | cutting a chunk in two keeps all of them |
| HeapLayout.CarveKeeps | blt/lib/libc/malloc.c:1994-1998 | taking a chunk from the front of top keeps all of them |
| HeapLayout.AbsorbKeeps | blt/lib/libc/malloc.c:2062-2075 | giving the last chunk back to top keeps all of them |
| HeapLayout.StretchKeeps | blt/lib/libc/malloc.c:2225-2234 | moving the border between the last chunk and top keeps all of them |
| HeapLayout.GrowKeeps | blt/lib/libc/malloc.c:1642-1646 | extending top keeps all of them |
| HeapMemory.TagFields | blt/lib/libc/malloc.c:1027-1100 | a size field gives back the size and the use bit that were put in it |
| HeapMemory.UnlinkRing | blt/lib/libc/malloc.c:1452-1458 | the four assignments of unlink take exactly the given chunk out of its circular list |
| HeapMemory.LinkRing | blt/lib/libc/malloc.c:1429-1446 | the three assignments of frontlink put a chunk at the chosen place of the list |
| HeapRep.TakeStep | blt/lib/libc/malloc.c:1812-1813 | in memory, unlinking a chunk and marking it used represents the layout without it in the bin |
| HeapRep.PutStep | blt/lib/libc/malloc.c:1421-1448 | in memory, frontlink represents the layout with the chunk in its bin |
| HeapRep.CutStep | blt/lib/libc/malloc.c:1857-1861 | the heads and the footer written when a chunk is split represent the split layout |
| HeapRep.JoinStep | blt/lib/libc/malloc.c:2099-2112 | the head and footer written when chunks are joined represent the joined layout |
| HeapRep.CarveStep | blt/lib/libc/malloc.c:1994-1997 | the two heads written when top is used represent the carved layout |
| HeapRep.DataWriteStep | blt/lib/libc/malloc.c:2271-2299 | writing data words of a held block disturbs no tag and no list |
| HeapRep.IntactTrans | blt/lib/libc/malloc.c:2154-2347 | blocks untouched by two steps are untouched by both together |
| HeapSteps.RequestFits | blt/lib/libc/malloc.c:1012-1015 | the padded size is a legal chunk size below 2^31, wastes less than a chunk, and holds the request exactly when the request is below 2^31 - 11 |
| HeapSteps.SmallBinIndex | blt/lib/libc/malloc.c:1218 | for small sizes, dividing by eight agrees with the general bin index |
| HeapSteps.BestOfBin | blt/lib/libc/malloc.c:1913-1938 | in the first bin with a fitting chunk, the first fit from the small end is the smallest fit of all bins |
| HeapSteps.ScanIsBestFit | blt/lib/libc/malloc.c:1885-1970 | what the bitmap-guided scan stops at is the smallest binned chunk that fits |
| HeapSteps.ScanFoundNothing | blt/lib/libc/malloc.c:1885-1970 | if the scan runs out of bins, no binned chunk fits |
| HeapSteps.SmallIsBest | blt/lib/libc/malloc.c:1794-1816 | the two small bins looked at without traversal hold the best fit when either is not empty |
| HeapSteps.LargeIsBest | blt/lib/libc/malloc.c:1823-1843 | an exact fit found in a large bin is a best fit |
| HeapSteps.FirstArena | blt/lib/libc/malloc.c:1654-1676 | the alignment correction of the first extension makes the start a multiple of 8 and the end a page boundary |
| HeapSteps.TopGuard | blt/lib/libc/malloc.c:2227 | the guard of growing into top, on 32-bit longs, means what it says for every heap exactly when the padded request plus 16 is below 2^31 |
| HeapSteps.GrowthUnsafe | blt/lib/libc/malloc.c:2225-2234 | else the guard holds of a top that is too small, and growing into it leaves a top that starts behind its end |
| HeapSteps.FreeChunkChecks | blt/lib/libc/malloc.c:1309-1339 | every assertion of the free-chunk check holds of every free chunk of every heap |
| HeapSteps.LinksPaired | blt/lib/libc/malloc.c:1333-1334 | a free chunk is its neighbours' neighbour in its list |
| HeapSteps.InExactlyOneBin | blt/lib/libc/malloc.c:1421-1448 | every free chunk is in one bin, or is the last remainder, and there once |
| HeapSteps.BlocksDisjoint | blt/lib/libc/malloc.c:1289-1306 | blocks in use are 8-aligned and share no word |
| HeapSteps.WalkIsBytes | blt/lib/libc/malloc.c:1039-1045 | walking the arena by the size fields in memory visits the chunks of the layout |
| HeapSteps.CopiedStep | blt/lib/libc/malloc.c:2271 | copying downwards word by word is right even when the two places overlap |
| Heap.Heap.constructor | blt/lib/libc/malloc.c:1166-1190 | a new heap has no arena, empty bins and an empty top |
| HeapSteps.ExtentExactly | blt/lib/libc/malloc.c:1606-1676 | a later extension takes the fewest whole pages for the request and a smallest chunk; the first one starts at the first aligned address and ends at the page boundary after them |
| Heap.Heap.FrontLink | blt/lib/libc/malloc.c:1421-1448 | the chunk goes to its own bin, before the first chunk that is not larger and behind all larger ones, and its block bit is set; only list words change |
| Heap.Heap.TakeWhole | blt/lib/libc/malloc.c:1809-1816 | a fitting chunk comes into use whole, no block in use changes |
| Heap.Heap.SplitBinned | blt/lib/libc/malloc.c:1918-1928 | a larger chunk is split, its end becomes the last remainder, no block in use changes |
| Heap.Heap.ScanBin | blt/lib/libc/malloc.c:1913-1938 | the first chunk from the small end that is large enough, or none is |
| Heap.Heap.ClearBlock | blt/lib/libc/malloc.c:1944-1955 | the bit of a block is cleared exactly when its four bins are all empty |
| Heap.Heap.Scan | blt/lib/libc/malloc.c:1885-1970 | the first bin from the start index with a fitting chunk and its smallest fit, or every bin from there on is empty; on the way only bits of empty blocks are cleared, and all that were met |
| Heap.Heap.FromBins | blt/lib/libc/malloc.c:1880-1970 | allocates the best binned fit, or no free chunk fits and nothing changed but the bitmap |
| Heap.Heap.ExtendTop | blt/lib/libc/malloc.c:1606-1709 | the extended arena is page-aligned and accounted for; a grant that stays below 2^31 ends it where `ExtentExactly` says, with room for the request, and without one nothing changes |
| Heap.Heap.StallArena | blt/lib/libc/malloc.c:1640-1669 | if the second system call of the first extension fails, the base and the count are set, top stays empty and malloc fails |
| Heap.Heap.RestartArena | blt/lib/libc/malloc.c:1628-1676 | the next extension then makes a working heap, whose count of bytes is too large by exactly the addresses between the static top and the new memory |
| HeapSteps.LandsElsewhere | blt/lib/libc/malloc.c:2214-2302 | a block moves away only if neither the free space behind it nor a free chunk before it suffices |
| Heap.Heap.FromTop | blt/lib/libc/malloc.c:1973-2000 | allocates from top, and fails exactly when top has no room and the system gives none, or too much |
| Heap.Heap.Malloc | blt/lib/libc/malloc.c:1772-2001 | exactly one new block, aligned, large enough and less than a chunk too large; chosen as an exact fit, else the last remainder, else the best fit, else from top; every other block keeps its place, size and data; memory is asked for only when nothing fits and top has no room, and malloc fails exactly when besides it is refused or too much; the last remainder afterwards is what was split off, the old one if an exact-fit bin served, and none otherwise |
| Heap.Heap.JoinBack | blt/lib/libc/malloc.c:2085-2095 | a free chunk before the released one is joined to it, staying the last remainder if it was |
| Heap.Heap.JoinForward | blt/lib/libc/malloc.c:2097-2108 | a free chunk after it is joined too; then nothing free is next to it |
| Heap.Heap.Free | blt/lib/libc/malloc.c:2026-2115 | exactly the given block goes out of use, all invariants hold again, no other block changes; a last remainder that bordered the block grows to the merged chunk, or vanishes into top, and otherwise stays; free(0) does nothing |
| Heap.Heap.CopyDown | blt/lib/libc/malloc.c:2265-2299 | the data of a block shifted down over itself arrives unchanged |
| Heap.Heap.GrowBack | blt/lib/libc/malloc.c:2292-2301 | growing into the chunk before moves the data and keeps every other block |
| Heap.Heap.GrowBackIntoTop | blt/lib/libc/malloc.c:2263-2276 | the same with top behind the block |
| Heap.Heap.GrowByMalloc | blt/lib/libc/malloc.c:2304-2325 | the same by a new block, where malloc puts one, and joined if that is right behind the old one; fails exactly when malloc does, and then changes no block |
| Heap.Heap.Enlarge | blt/lib/libc/malloc.c:2214-2325 | on whichever path, the grown block holds the request and the first bytes of the old block; the path is the first that has room; it fails exactly when no neighbour makes up for the growth and malloc would fail |
| Heap.Heap.Realloc | blt/lib/libc/malloc.c:2154-2347 | unless the block borders top and the guard there cannot be trusted: the block returned holds the request and the first min(old, new) bytes of the old one; every other block is untouched; it stays in place if its chunk or the free space behind it suffices, goes back to a free chunk before it when that makes up for it, and only else goes where malloc puts a new block; realloc fails exactly when it must move and nothing fits, top has no room and memory is refused, and leaves every block as it was; memory is asked for only then |
| Heap.Heap.Store | blt/lib/libc/malloc.c:1012-1019 | a client may write any word of its block: no tag, list or other block is affected |
| Heap.Heap.BytesConserved | blt/lib/libc/malloc.c:1265-1268 | used, free and top bytes, as read from memory, add up to the bytes obtained from the system less the alignment gap at the front |
| Probing.NoZeroDivisors | blt/lib/libblt/hash.c:39-66 | modulo a prime no product of two nonzero residues is zero |
| Probing.ProbesAreDistinct | blt/lib/libblt/hash.c:81-89 | the first p probes of a key are p different slots |
| Probing.ProbesVisitEverySlot | blt/lib/libblt/hash.c:81-89 | so the probes of any key reach every slot |
| Primality.DivisorOfProduct | blt/lib/libblt/hash.c:41-64 | a divisor above 1 of a product of primes is a multiple of one of the primes |
| Primality.Lucas | blt/lib/libblt/hash.c:41-64 | a residue of order p - 1 makes p prime |
| Primality.TrialDivision | blt/lib/libblt/hash.c:51-53 | trial division up to the square root is sound |
| TableSizes.SizesArePrime | blt/lib/libblt/hash.c:72-75 | all 26 table sizes are prime |
| Hash.Placed | blt/lib/libblt/hash.c:128-134 | writing a new key at the first free slot of its probe sequence adds it to the map and keeps every other key reachable |
| Hash.Buried | blt/lib/libblt/hash.c:205 | a tombstone removes its key from the map and keeps every other key reachable |
| Hash.SearchEnds | blt/lib/libblt/hash.c:174-186 | a search for an absent key ends exactly when some slot is empty |
| Hash.LoadLeavesSlot | blt/lib/libblt/hash.c:115-116 | while the growth rule keeps the used count within the load, a slot is empty |
| Hash.LoadBound | blt/lib/libblt/hash.c:115-116 | 6/7 is exactly the load factor from which some size can fill up |
| Hash.GrowthMakesRoom | blt/lib/libblt/hash.c:115-116 | one size up, the entries and one more are within the load again |
| Hash.GrowthBound | blt/lib/libblt/hash.c:115-116 | 1/19 is exactly the load factor below which that fails |
| Hash.LevelStays | blt/lib/libblt/hash.c:115-116 | entries within the load of a size are put in without growth |
| Hash.LevelOneMore | blt/lib/libblt/hash.c:137-167 | entries within the load of the next size make it grow by one size at most, exactly when they are over the load of this one |
| Hash.LevelAtZero | blt/lib/libblt/hash.c:111-167 | below 1/19 a growing table grows again while it is refilled; at load factor 0 each entry doubles the sizes passed, as long as there are sizes |
| Hash.SixthKeyRunsOut | blt/lib/libblt/hash.c:72-75 | an instance: at load factor 0 the sixth key needs a 27th size |
| Hash.Hashtable.GrowingSuffices | blt/lib/libblt/hash.c:115-116 | from 1/19 on, growth is by one size and needs no more than the next |
| Hash.Hashtable.ShrinkingSuffices | blt/lib/libblt/hash.c:207-209 | from 1/19 on, shrinking always finds its size |
| Hash.Hashtable.constructor | blt/lib/libblt/hash.c:91-104 | a new table is the empty map |
| Hash.Hashtable.Search | blt/lib/libblt/hash.c:173-186 | finds the slot of a key exactly when the map has it, and ends |
| Hash.Hashtable.Lookup | blt/lib/libblt/hash.c:169-190 | the data and size the map holds, or NULL and 0 |
| Hash.Hashtable.FreeSlot | blt/lib/libblt/hash.c:118-127 | ends at a slot of the key's probe sequence that is empty or a tombstone, past valid slots only |
| Hash.Hashtable.Insert | blt/lib/libblt/hash.c:111-135 | the map with the new entry, through tombstone reuse and through growth, which may grow again while it refills, to the size that follows from the number of keys |
| Hash.Hashtable.Rebuild | blt/lib/libblt/hash.c:137-167 | the same map in a table without tombstones, at the size that putting its keys in one by one leads to; the recursion with insertion ends |
| Hash.Hashtable.Remove | blt/lib/libblt/hash.c:192-220 | the map without the key, and what was stored under it; the table is rebuilt smaller exactly when the removals since the last rebuild pass the limit, and tombstones are never more than those removals |
| Qsort.SinkingStep | blt/lib/libc/qsort.c:106-109 | one swap of insertion sort keeps all but the sinking element sorted |
| Qsort.InsertionSort | blt/lib/libc/qsort.c:105-111 | a sorted permutation of the piece, nothing else touched |
| Qsort.Med3IsMedian | blt/lib/libc/qsort.c:83-91 | the chosen one of three has at least two of them on each side, itself included |
| Qsort.NineCentral | blt/lib/libc/qsort.c:115-121 | the pseudo-median of nine has at least four of the nine on each side, itself included |
| Qsort.ChoosePivot | blt/lib/libc/qsort.c:112-123 | the pivot is the middle element, or one of three with two on each side, or one of nine with four on each side, by the length of the piece |
| Qsort.LeftEqual | blt/lib/libc/qsort.c:130-134 | swapping an equal element to the left end keeps the four zones |
| Qsort.Crossed | blt/lib/libc/qsort.c:147-150 | exchanging an element that is too large with one that is too small keeps the four zones |
| Qsort.ScanLeft | blt/lib/libc/qsort.c:129-136 | the left scan stops at an element larger than the pivot or has seen all |
| Qsort.ScanRight | blt/lib/libc/qsort.c:137-144 | the right scan stops at an element smaller than the pivot or has seen all |
| Qsort.Partition | blt/lib/libc/qsort.c:125-151 | equal, smaller, larger and equal elements in this order, a permutation; without a swap nothing moved |
| Qsort.FirstExchange | blt/lib/libc/qsort.c:160-162 | exchanging blocks of min length brings the equal elements behind the smaller ones |
| Qsort.SecondExchange | blt/lib/libc/qsort.c:163-164 | and those at the right end before the larger ones |
| Qsort.ThreeWayPartition | blt/lib/libc/qsort.c:160-164 | smaller, equal, larger; a permutation |
| Qsort.Round | blt/lib/libc/qsort.c:103-164 | sorted by the fallback, or three-way partitioned with at least one equal element, so both parts are shorter, around the pivot chosen |
| Qsort.OneRoundMore | blt/lib/libc/qsort.c:165-172 | sorting the smaller part settles everything up to the larger part |
| Qsort.Sort | blt/lib/libc/qsort.c:93-174 | by recursion on the left and iteration on the right: the piece sorted and permuted, the rest untouched, and it ends |
| Qsort.Qsort | blt/lib/libc/qsort.c:93-174 | sorted, and a permutation, for every array and every total preorder |
| Sem.Conservation | blt/kernel/sem.c:29-64 | over every run from a count not below zero: the queue is as long as the count is negative; passed acquisitions and the count left over make up the initial count and the releases; whoever has not passed is waiting |
| Sem.NeverOverdrawn | blt/kernel/sem.c:29-64 | acquisitions that pass never exceed the initial count plus releases, and equal it while anyone waits |
| Sem.BalancedFromCreation | blt/kernel/sem.c:9-16 | with an unbounded count, the balance of queue and count holds over all runs exactly when the semaphore is created with a count not below zero |
| Sem.KeptExactly | blt/kernel/sem.c:29-64 | with a count of 32 bits, it is kept throughout a run exactly when at no time the releases less the acquisitions take the count out of an int; then the run is the one with an unbounded count |
| Sem.FirstComeFirstServed | blt/kernel/sem.c:29-64 | those who wait are the last who called, in order |
| Sem.Semaphore.Acquire | blt/kernel/sem.c:29-45 | waits exactly when the count was not positive |
| Sem.Semaphore.Release | blt/kernel/sem.c:47-64 | lets through the one that has waited longest, if any |
| Sem.Semaphore.Destroy | blt/kernel/sem.c:18-27 | wakes all waiting tasks in order |
| Qsem.InvStep | blt/lib/libblt/qsem.c:57-77 | each atomic addition and each kernel call keeps the counting invariant |
| Qsem.ReachableInv | blt/lib/libblt/qsem.c:36-77 | it holds after every interleaving |
| Qsem.PermitsConserved | blt/lib/libblt/qsem.c:57-77 | holders, permits given back but not taken, and free permits always add up to the initial count |
| Qsem.NeverMoreHolders | blt/lib/libblt/qsem.c:57-77 | never more holders than the initial count |
| Qsem.NobodyStuck | blt/lib/libblt/qsem.c:57-77 | with no holder and no release half done, nobody sleeps in acquire and whoever is entering finds a permit |
| Qsem.NoDeadlock | blt/lib/libblt/qsem.c:57-77 | while anyone sleeps, some thread holds the semaphore or has a call to make |
| Qsem.Benaphore.AcquireAdd | blt/lib/libblt/qsem.c:63 | the addition of acquire, as a step of the protocol |
| Qsem.Benaphore.AcquireCall | blt/lib/libblt/qsem.c:64 | the kernel call of acquire, as a step |
| Qsem.Benaphore.ReleaseAdd | blt/lib/libblt/qsem.c:74 | the addition of release, as a step |
| Qsem.Benaphore.ReleaseCall | blt/lib/libblt/qsem.c:75 | the kernel call of release, as a step |
| List.Shortcut | blt/kernel/list.c:96-97 | pointing a node's neighbours at each other leaves the ring without it |
| List.Splice | blt/kernel/list.c:117-124 | pointing a node and two neighbours at each other leaves the ring with it between them |
| List.List.AttachHead | blt/kernel/list.c:108-115 | the node comes first |
| List.List.AttachTail | blt/kernel/list.c:117-124 | the node comes last |
| List.List.AddHead | blt/kernel/list.c:17-26 | a new node with the data comes first |
| List.List.AddTail | blt/kernel/list.c:28-37 | a new node with the data comes last |
| List.List.PeekHead | blt/kernel/list.c:39-46 | the first data, or none |
| List.List.PeekTail | blt/kernel/list.c:48-55 | the last data, or none |
| List.List.DetachHead | blt/kernel/list.c:126-137 | the first node leaves |
| List.List.DetachTail | blt/kernel/list.c:139-150 | the last node leaves |
| List.Find | blt/kernel/list.c:152-162 | the first node with the data, or the list itself |
| List.Detach | blt/kernel/list.c:152-165 | the first node with the data leaves, exactly when there is one; the others stay in order |
| Port.SleepersHaveNothingToDo | blt/kernel/port.c:135-188 | without lost wakeups and with nobody woken still to run, a sleeping receiver has no message and a sleeping sender no slot |
| Port.SendLosesNothing | blt/kernel/port.c:135-191 | a send loses no wakeup |
| Port.RecvLosesNothing | blt/kernel/port.c:211-242 | a receive loses no wakeup |
| Port.WokenSendLosesNothing | blt/kernel/port.c:135-191 | a woken sender with a well-sized message loses none when it runs |
| Port.WokenRecvLosesNothing | blt/kernel/port.c:211-242 | a woken receiver loses none when it runs, even if the message is gone |
| Port.SendExactly | blt/kernel/port.c:135-190 | a send sleeps last, is refused, or delivers at the end, wakes exactly the first receiver and leaves the others in order |
| Port.RecvExactly | blt/kernel/port.c:211-235 | a receive sleeps last, is refused, or takes the oldest message, wakes exactly the first sender and leaves the others in order |
| Port.NobodyGetsLost | blt/kernel/port.c:104-243 | over every run of calls on a port, of senders and of receivers: those asleep are the last that went to sleep, in order, and all before them were woken and have run again or have it before them |
| Port.SentOnExactly | blt/kernel/port.c:179-184 | on a port enslaved meanwhile only its messages or senders change, and the first receiver of its master is woken |
| Port.SenderGivesUp | blt/kernel/port.c:141-143 | a woken sender that returns for an ill-sized message loses a wakeup exactly when someone sleeps and the others woken cannot fill the free slots |
| Port.IllSizedSendLosesWakeup | blt/kernel/port.c:141-143 | an instance: one free slot, one sender left asleep |
| Port.DepositOnEnslaved | blt/kernel/port.c:179-184 | a woken sender whose port was enslaved meanwhile loses a wakeup exactly when a receiver sleeps there and the woken ones are no more than the messages |
| Port.Target | blt/kernel/port.c:123-133 | a send goes to the port, or to its master if it has one, exactly when that exists and is no slave; else the error says which |
| Port.RefCountedDestroy | blt/kernel/port.c:38-55 | destroying a port that may be destroyed keeps every count; its master counts the orphan for ever |
| Port.RefCountedEnslave | blt/kernel/port.c:69-91 | changing masters keeps every count |
| Port.MasterThere | blt/kernel/port.c:82-85 | a slave's master is always in the table, so the panic is unreachable |
| Port.OrphansPinMaster | blt/kernel/port.c:44-54 | a master can be destroyed exactly when it has no slaves and never lost one to destruction |
| Port.StrandedExactly | blt/kernel/port.c:44-50 | destroying a port leaves nobody woken without its port exactly when nobody woken there has still to run |
| Port.ReceiverStranded | blt/kernel/port.c:185-188 | an instance: a message wakes a receiver, and the port is gone before it runs |
| Port.PortTable.Create | blt/kernel/port.c:14-36 | a new port, empty, not enslaved, with one reference, no other changes |
| Port.PortTable.Destroy | blt/kernel/port.c:38-55 | succeeds exactly for a port without slaves or orphans, and wakes all its sleepers; it strands somebody exactly when somebody woken there has still to run |
| Port.PortTable.Option | blt/kernel/port.c:57-99 | succeeds exactly for the owner, on known options, with an owned master, and then sets that option; failure changes nothing |
| Port.PortTable.Enslave | blt/kernel/port.c:69-91 | the slave status and the counts of both masters change, no other port, and all counts stay right |
| Port.PortTable.Attempt | blt/kernel/port.c:135-190 | from the wait loop on: blocks, refuses, or appends the message and wakes one receiver |
| Port.PortTable.Send | blt/kernel/port.c:104-191 | in order and once: the message is appended to the target's queue, at most 16 long, or nothing changes; the result says which; no wakeup is lost |
| Port.PortTable.SendResumed | blt/kernel/port.c:135-190 | a woken sender's attempt; no wakeup is lost if the message is well-sized |
| Port.PortTable.SendResumedEnslaved | blt/kernel/port.c:179-184 | a woken sender's attempt on a port enslaved meanwhile: the message goes there, the wakeup to the master, order and counts stay right |
| Port.PortTable.Take | blt/kernel/port.c:210-242 | takes the oldest message and wakes one sender |
| Port.PortTable.Recv | blt/kernel/port.c:194-243 | delivers the oldest message, its first bytes, its sender and its code, exactly once |
| Port.PortTable.RecvResumed | blt/kernel/port.c:211-242 | the same for a woken receiver |
| MessageChain.Chain.Append | blt/kernel/port.c:167-174 | the chain grows at its end, and the count with it |
| MessageChain.Chain.RemoveFirst | blt/kernel/port.c:217-232 | the chain shrinks at its front, and the count with it |
| MessageChain.Send | blt/kernel/port.c:135-174 | with the chain for the queue and its count for the length, a send does to the chain what the port table says |
| MessageChain.Receive | blt/kernel/port.c:211-232 | and a receive takes from the chain the message the port table says |
| Sched.OnePlace | blt/kernel/resource.c:144-160 | a task is on a queue exactly when it is neither in the kernel's hands nor asleep for an interrupt, and then at one position of one queue, the one it says it waits on |
| Sched.EnqueuedSound | blt/kernel/resource.c:144-150 | enqueueing keeps everyone in one place |
| Sched.DequeuedSound | blt/kernel/resource.c:152-160 | dequeueing does too |
| Sched.WokenWhenAllDue | blt/kernel/fault.c:192-199 | a sleeper is woken at a tick exactly when it and all ahead of it are due, by a comparison of unsigned numbers |
| Sched.WokenExactly | blt/kernel/fault.c:187-199 | over many ticks, a sleeper has been woken exactly when, at a tick at which it was due, the one ahead of it had been woken |
| Sched.HeldBehind | blt/kernel/fault.c:192-199 | a sleeper that is not due holds up all behind it |
| Sched.RunWakes | blt/kernel/fault.c:187-204 | over every run of the kernel, after so many ticks the timer queue begins with those of its first sleepers that have not been woken by this rule |
| Sched.MovesUp | blt/kernel/kernel.c:196-230 | until enough switches have happened, a task has only moved up the run queue |
| Sched.RunsInTurn | blt/kernel/kernel.c:196-230 | the task at position k of the run queue runs at the (k+1)-st switch |
| Sched.HistoryExtends | blt/kernel/kernel.c:175-230 | every step of the kernel, each of which is legal, extends such a history, so that the two statements hold over every run |
| Sched.TicksExactly | blt/kernel/syscall.c:55-58 | for every argument: it is rounded to within a tick exactly below 2^31 - 2000 microseconds; exactly when the ticks are positive, none, or negative |
| Sched.FirstDue | blt/kernel/fault.c:193 | the first tick at which a sleeper is due, for every timer and every number of ticks: after its ticks, at the next one, or 2^32 less those that are negative |
| Sched.SleepExactly | blt/kernel/syscall.c:55-64 | for every timer and argument: due within a tick of the time asked for exactly when 2000 more does not overflow and the timer does not pass 2^32 before; due at the very next tick, or held for almost 2^32 ticks, exactly by where the timer is |
| Sched.HeadWoken | blt/kernel/fault.c:187-199 | the sleeper at the head is woken exactly after that delay |
| Sched.SleepersHeld | blt/kernel/syscall.c:55-64 | an instance: who sleeps for 2^31 - 1 microseconds at timer 0 is not woken for 2^32 - 715827 ticks, nor anyone behind it |
| Sched.SwitchedExactly | blt/kernel/kernel.c:196-230 | a switch gives the turn to the first of the run queue, the task before going to its end if it still runs; with nobody there it runs on and nothing changes, or the idle task runs if it does not; nobody else is touched |
| Sched.IdleLast | blt/kernel/kernel.c:201-215 | the idle task comes to run only if the run queue is empty and the task before was it, or no longer runs |
| Sched.Kernel.Swtch | blt/kernel/kernel.c:196-230 | just that, in place, and the kernel never finds nobody left |
| Sched.Kernel.Preempt | blt/kernel/kernel.c:175-194 | the given task runs, the running one goes to the end of the run queue |
| Sched.Kernel.WaitOn | blt/kernel/task.c:21-28 | the running task goes to the back of the queue, and the turn to the next |
| Sched.Kernel.Wake | blt/kernel/task.c:15-19 | the longest waiting task is at the end of the run queue |
| Sched.Kernel.Release | blt/kernel/sem.c:57-61 | the longest waiting task runs at once, and the running one goes to the end of the run queue |
| Sched.Kernel.IrqDispatch | blt/kernel/fault.c:162-170 | the task that listens runs at once, exactly when it is asleep for an interrupt, and the running one goes to the end of the run queue |
| Sched.Kernel.HandleIrq | blt/kernel/syscall.c:97-105 | only interrupts 1 to 15 can be listened to |
| Sched.Kernel.SleepIrq | blt/kernel/syscall.c:107-114 | exactly a task that listens to an interrupt sleeps for it, and the turn goes on; one that does not runs on if nobody else can |
| Sched.Kernel.Sleep | blt/kernel/syscall.c:55-64 | the task queues up last with a wake time, in 32 bits, of the timer and the ticks, and the turn goes on; without ticks it runs on if nobody else can |
| Sched.Kernel.TimerIrq | blt/kernel/fault.c:187-204 | exactly the due tasks at the head of the timer queue go to the end of the run queue, in order, and the turn goes on; with nobody due and nobody ready the running task runs on; all other sleepers sleep on until the same time; the timer wraps around |
| Sched.Kernel.Terminate | blt/kernel/syscall.c:35-53 | the dead task is last on the reaper's queue, one fewer lives, those who waited for it are at the end of the run queue, in order, then the reaper if it slept, and the turn goes on |
| Sched.Kernel.WakeTheReaper | blt/kernel/syscall.c:27-33 | the count of dead tasks to be reaped stays right, and a sleeping reaper is let run |
| Sched.Kernel.ReaperAcquire | blt/kernel/kernel.c:82-83 | the reaper passes exactly when a death is outstanding, and then no task and no queue changes |
| Sched.Kernel.Reap | blt/kernel/kernel.c:84-86 | the reaper's queue is never empty when it dequeues, it never destroys the running task, and an interrupt is left with a listener that is gone exactly if the task listened to it |
| Sched.Kernel.Spawn | blt/kernel/kernel.c:246-256 | the new task is last on the run queue, one more lives |
| Sched.Kernel.BindResource | blt/kernel/resource.c:90 | a resource begins with nobody waiting for it |
| Sched.Kernel.ReleaseResource | blt/kernel/resource.c:109-112 | all that waited are at the end of the run queue, in order |
| Resource.NumbersConserved | blt/kernel/resource.c:73-119 | free and bound numbers always add up to the size of the map less one |
| Resource.BoundCount | blt/kernel/resource.c:84-86 | different resources have different numbers, and exactly the used entries |
| FreeList.ChainPopped | blt/kernel/resource.c:77-79 | taking the first entry of a free list leaves a list of the others |
| FreeList.ChainPushed | blt/kernel/resource.c:116-118 | putting an entry back keeps the list without repetition and its end in place |
| Resource.EntryTaken | blt/kernel/resource.c:77-84 | taking the first free number leaves a chain of the others |
| Resource.EntryBack | blt/kernel/resource.c:116-118 | a number that is put back is the next to be given out |
| Resource.Table.constructor | blt/kernel/resource.c:23-42 | all numbers but 0 are free |
| Resource.Table.Find | blt/kernel/resource.c:44-51 | the resource of that kind and number, exactly when there is one |
| Resource.Table.Bind | blt/kernel/resource.c:73-96 | a new number, last on its owner's list and on the list of all; fails exactly when all numbers are taken |
| Resource.Table.Release | blt/kernel/resource.c:98-119 | off its owner's list and the list of all; its number is the next to be given out |
| Resource.Table.SetOwner | blt/kernel/resource.c:53-57 | off the old owner's list, last on the new one's |
| Resource.Table.AddOwner | blt/kernel/team.c:15 | a new team owns nothing, and all stays sound |
| Pages.FreePages.PutPage | blt/kernel/memory.c:128-135 | the page is the next to be used, the count one less |
| Pages.FreePages.GetPage | blt/kernel/memory.c:137-150 | the first free page, exactly when there is one |
| Spans.LocateSpan | blt/kernel/aspace.c:130-150 | the first free run from the start on, else the free entries at the end of the table, else 0 |
| Spans.UsableExactly | blt/kernel/aspace.c:130-150 | the result is nothing or a full run exactly when a full run exists or the last entry is used |
| Aspace.AttachedInv | blt/kernel/aspace.c:186-216 | a new area over free entries maps its group's pages and overlaps no other area |
| Aspace.PteLeads | blt/kernel/aspace.c:85-94 | the entry written for a page leads the machine to just that page, writable, for users, exactly if its number has 20 bits |
| Aspace.AreasShow | blt/kernel/aspace.c:85-94 | in order, the machine finds the pages of each area's group where the area is |
| Aspace.AreasIsolated | blt/kernel/aspace.c:202-216 | no entry of an area over its own pages leads to a page of another group, of any table, or to a free one |
| Aspace.FramesApart | blt/kernel/aspace.c:85-94 | areas with no page in common never lead to the same page |
| Aspace.DetachedInv | blt/kernel/aspace.c:357-369 | unmapping an area leaves every other mapped, and its entries free |
| Aspace.GrownInv | blt/kernel/aspace.c:425-444 | growing the only area of a group into free entries keeps all of that |
| Aspace.HeldTaken | blt/kernel/aspace.c:202-216 | pages taken from the free chain are in use once each |
| Aspace.HeldReleased | blt/kernel/aspace.c:371-387 | pages of slots that go are free, once each |
| Areas.System.AreaCreate | blt/kernel/aspace.c:153-230 | the first span long enough, its entries leading to the next free pages or to the given ones, and no other entry changed; failure exactly when there is no span |
| Areas.System.AreaClone | blt/kernel/aspace.c:294-348 | another area whose entries lead to the same pages, the count one more, no other entry changed; failure exactly for an unknown area or without a span |
| Areas.System.AreaDestroy | blt/kernel/aspace.c:350-393 | only in its own space; the last area of a group returns all pages of a group that owns them, and none of one that does not |
| Areas.System.AreaResize | blt/kernel/aspace.c:395-447 | the area and its group have the whole pages asked for, the entries behind it in the caller's space leading to the next free pages; failure exactly when those entries are no free run of that length, panic exactly when the free pages are too few, nothing at all for a size that is not larger; lists and mappings are right afterwards exactly when the area is the caller's and alone in its group |
| Areas.WholePages | blt/kernel/aspace.c:410-412 | which reach the size asked for exactly when it is a multiple of a page |
| Areas.GrowthExactly | blt/kernel/aspace.c:395-444 | over a free run, growth keeps lists and mappings right exactly when the area lies in the resizing space and has its group to itself; the code tests neither |
| Areas.ForeignGrowthExample | blt/kernel/aspace.c:395-427 | an instance: another space resizes the area, and the new page is mapped in that space, where no area covers it |
| Areas.GrowthNeedsOwnPages | blt/kernel/aspace.c:437-439 | the added pages will be returned exactly when the group owns its pages |
| Areas.System.AreaCreateUber | blt/kernel/aspace.c:232-292 | the image of memory, in no space |
| Areas.System.AspaceCreate | blt/kernel/aspace.c:55-78 | two pages for the tables, nothing mapped |
| Areas.System.AspaceDestroy | blt/kernel/aspace.c:113-127 | all areas of the space go, and the pages of its tables are free |
| Netboot.BufferHoldsImage | blt/util/netboot.c:75-77 | the packets hold every byte of the image, whatever a short last read leaves behind |
| Netboot.InvStep | blt/netboot/netboot.c:387-458 | every send, retry, receipt, repeated or late, and acknowledgement keeps the invariant |
| Netboot.ReceivedStored | blt/netboot/netboot.c:407-417 | receiving a packet again or out of order stores its block and spoils no other |
| Netboot.ProgressIsStored | blt/util/netboot.c:75-110 | when the sender is at block i, all blocks before it are stored |
| Netboot.StartedHoldsImage | blt/netboot/netboot.c:447-455 | when the receiver starts the image, its memory holds every byte of it |
| Netboot.TooLongIsOverwritten | blt/util/netboot.c:77 | beyond 65536 blocks, even a run without faults leaves at each place the last block with its number; the started image is whole exactly when all these blocks are the same as those they overwrote and everything behind was in memory before |
| Netboot.RestWasThere | blt/netboot/netboot.c:407-417 | over every run, bytes of the image behind block 65535 are in memory at the end exactly if they were before |
| Netboot.Receiver.HandleUdp | blt/netboot/netboot.c:377-461 | a block is stored at its place and acknowledged, or the image starts, or nothing happens |
| Netboot.Receiver.Store | blt/netboot/netboot.c:416 | exactly the 1024 bytes of the block change |
| Netboot.Sender.Read | blt/util/netboot.c:75 | the next block is in the buffer, exactly when there is one |
| Netboot.Sender.Reply | blt/util/netboot.c:90-109 | only an acknowledgement of the current block moves the sender on |
| Fish.AckedAlive | blt/srv/fish/fish.c:301-331 | an acknowledgement takes the first fish on offer under its name out of the tank, or none |
| Fish.SweptAlive | blt/srv/fish/fish.c:541-643 | a frame makes no fish, and loses one exactly when it unlinks a dead fish behind one that is leaving |
| Fish.LossExactly | blt/srv/fish/fish.c:541-643 | read off the list beforehand: fish are lost exactly when a dead fish comes right behind one that leaves in this frame, and any that does not leave comes before both |
| Fish.LossReached | blt/srv/fish/fish.c:541-603 | a run from empty tanks, no packet lost and every fish made inside its tank, that loses a fish in this way |
| Fish.SideExactly | blt/srv/fish/fish.c:552-590 | the side a fish leaves by: left and right before up and down, and only where a neighbour is |
| Fish.CrossedExactly | blt/srv/fish/fish.c:552-610 | a fish that leaves is offered, to come in at the other side with its speed, unless the tank is sticky or reclusive, and turns round at the sides it has reached |
| Fish.TimedOutExactly | blt/srv/fish/fish.c:547-551 | an offer is withdrawn exactly when it is late, and its link cut |
| Fish.SwumExactly | blt/srv/fish/fish.c:553-631 | a fish that stays has moved by its speed, and at a side it had passed it has turned round and moved twice |
| Fish.SweptEach | blt/srv/fish/fish.c:541-643 | with nobody dead, a frame does to each fish in its place what it does to a fish |
| Fish.SyncKeeps | blt/srv/fish/fish.c:340-354 | a SYNC that arrives carries its fish over |
| Fish.NoNewFish | blt/srv/fish/fish.c:201-362 | no packet, late, repeated or lost, and no frame adds a fish |
| Fish.FishAreCreated | blt/srv/fish/fish.c:666-697 | over every run of all tanks, the fish there are were created, each once |
| Fish.NeverDuplicated | blt/srv/fish/fish.c:301-354 | no fish is ever in two places, and there are never more than were created |
| Fish.Tank.NewFish | blt/srv/fish/fish.c:666-697 | a live fish at the head of the list |
| Fish.Tank.OnSend | blt/srv/fish/fish.c:259-293 | an offer is confirmed to where it came from, unless the tank is reclusive |
| Fish.Tank.OnAck | blt/srv/fish/fish.c:295-335 | the first fish on offer dies and is sent to whoever confirmed |
| Fish.Tank.SetTank | blt/srv/fish/fish.c:122-131 | the first link that leads to the tank is alive or not, as told, no other changes |
| Fish.Tank.OnSync | blt/srv/fish/fish.c:340-358 | the fish is at the head of the list, where and as fast as the packet says, and the link to its sender is alive |
| Fish.Tank.Frame | blt/srv/fish/fish.c:500-661 | one pass: the reset of the links every 200 ticks, expiry, timeouts, movement and offers; it loses fish exactly by `LossExactly` |
| Grid.ScrollUpRows | blt/srv/console2/vt100.c:163-176 | scrolling moves the rows of the region up one, blanks the last, and changes no other row |
| Grid.ScrollDownRows | blt/srv/console2/vt100.c:129-161 | inserting a line moves the rows below it down, blanks it, and changes no row outside |
| Terminal.RegionExactly | blt/srv/console2/vt100.c:178-186 | a region that is set lies on the screen exactly when its last line is at least 1 and its first at most the number of rows, and not the least int |
| Terminal.RenderedInByte | blt/srv/console2/vt100.c:419-458 | no sequence of graphic renditions takes the attribute out of its byte |
| Terminal.Executed | blt/srv/console2/vt100.c:322-461 | every final byte that leads to no cell and no region off the screen leaves cursor, region and attribute sound, and the parser alone |
| Terminal.Step | blt/srv/console2/vt100.c:199-463 | so does every byte, and the parser moves as the parser alone would move; numbers wrap around in 32 bits |
| Terminal.Run | blt/srv/console2/vt100.c:199-463 | so does every stream of bytes that does not lead off the screen |
| Streams.RunSplit | blt/srv/console2/vt100.c:199-463 | a stream may arrive in pieces of any size |
| Word.SignedExactly | blt/srv/console2/vt100.c:307-312 | 32 bits hold a number as it is exactly when it is an int |
| Streams.RunJoin | blt/srv/console2/vt100.c:199-463 | streams that stay on the screen one after the other make one that does |
| Streams.DigitsRead | blt/srv/console2/vt100.c:307-312 | the digits of a number are read as the int that 32 bits hold of it |
| Streams.NumberRead | blt/srv/console2/vt100.c:305-312 | the decimal digits of a number are read back as the number exactly when it is below 2^31 |
| Streams.IntsRead | blt/srv/console2/vt100.c:307-320 | parameters written out with separators are read as ints, the first 16 of them |
| Streams.ParametersRead | blt/srv/console2/vt100.c:307-320 | they are read back as they were exactly when the first 16 are all below 2^31 |
| Streams.ReadingIsQuiet | blt/srv/console2/vt100.c:307-325 | while parameters are read, only the parser changes |
| Streams.SequenceExecuted | blt/srv/console2/vt100.c:305-463 | a control sequence written out stays on the screen exactly when its parameters, as ints, are safe for its final byte; then it is executed with exactly these, the first 16, and the terminal is in text again |
| Streams.CursorAddressed | blt/srv/console2/vt100.c:364-375 | every place on the screen can be addressed, from wherever the cursor was, and nothing else changes |
| Streams.DownAndUp | blt/srv/console2/vt100.c:332-338 | going down and up by the same number leads back exactly if the cursor did not stop at an edge on the way, or comes back to that edge; numbers from 2^31 on go the other way |
| Streams.DeletionExactly | blt/srv/console2/vt100.c:110-127 | `DeletionFits` holds exactly when every cell that the loops of a deletion touch is a cell of the screen; addresses are of 32 bits |
| Streams.DeletionFromIs | blt/srv/console2/vt100.c:121 | the cell a deletion copies from, for every count: addresses wrap around |
| Streams.DeletionInLine | blt/srv/console2/vt100.c:110-127 | they are cells of the cursor's line exactly when the count is not negative and does not overflow with the column, or is so far below zero that the address wraps around |
| Streams.CharsDeletedRow | blt/srv/console2/vt100.c:110-127 | then the rest of the line moves up to the cursor by the count, or by 2^31 more if it is negative, blanks follow, no other line changes |
| Streams.DeletionOffScreen | blt/srv/console2/vt100.c:307-312 | an instance: to delete 4294967290 characters in the last line is to write behind the screen, exactly unless six cells before the cursor is below address 0 |
| Streams.DeletionOfNone | blt/srv/console2/vt100.c:110-127 | another: to delete 2147483648 characters changes nothing |
| Streams.BehindTheEnd | blt/srv/console2/vt100.c:110-127 | in the last line a negative count reaches behind the screen, exactly unless its address wraps around |
| Streams.RegionOffScreen | blt/srv/console2/vt100.c:410-418 | a region sequence leads off the screen exactly when, as ints, its first line is not after its second and they name no row |
| Streams.ModerateIsOk | blt/srv/console2/vt100.c:199-463 | a stream whose deletion counts and regions are moderate, as can be checked on its bytes alone, does not lead off the screen |
| Streams.TextShown | blt/srv/console2/vt100.c:285-301 | text is shown from the cursor on, what does not fit piles up on the last column, no other row changes |
| Effects.NewlineMoves | blt/srv/console2/vt100.c:261-270 | a newline leads to column 0 of the next row; on the last row of the region its rows move up one and a blank one comes in; below the region the row stays |
| Effects.NewlinesMove | blt/srv/console2/vt100.c:261-270 | so many newlines: down to the last row of the region, which scrolls up by the rest of them |
| Effects.LineShown | blt/srv/console2/vt100.c:261-301 | a line of text and a newline: the line stays, or goes up one with its region, above the cursor |
| Effects.ControlsMove | blt/srv/console2/vt100.c:256-284 | return, backspace, tabulator and form feed |
| Effects.EscapedExactly | blt/srv/console2/vt100.c:209-249 | the bytes after an escape: save, restore the attribute only, line down, line down to column 0, line up; scrolling where the region ends |
| Effects.CharsetSkipped | blt/srv/console2/vt100.c:199-215 | a choice of character set swallows the byte behind it and changes nothing |
| Effects.MovedExactly | blt/srv/console2/vt100.c:325-362 | by how many steps and to which side each sequence moves the cursor before it stops at an edge |
| Effects.AddressedExactly | blt/srv/console2/vt100.c:339-410 | which place each sequence names, and the nearest on the screen else |
| Effects.ScreenErasedCell | blt/srv/console2/vt100.c:52-65 | which cells are blank after erasing on the screen, and where the cursor is |
| Effects.LineErasedCell | blt/srv/console2/vt100.c:67-83 | which cells are blank after erasing in the line |
| Effects.RenditionBits | blt/srv/console2/vt100.c:419-458 | which of foreground, intensity, background and blinking each rendition sets, and that it leaves the others |
| Effects.RenderedInTurn | blt/srv/console2/vt100.c:419-458 | renditions are made one after the other |
| Effects.EditedExactly | blt/srv/console2/vt100.c:376-404 | which sequence edits how, and with which parameter |
| Effects.ConfiguredExactly | blt/srv/console2/vt100.c:405-458 | saving, the region cut to the screen, renditions |
| Effects.ExecutedExactly | blt/srv/console2/vt100.c:322-461 | which final byte is for what, and that any other does nothing |
| Effects.CellParts | blt/srv/console2/vt100.c:42-50 | a cell holds its character and its attribute |
| Streams.LinesMovedRow | blt/srv/console2/vt100.c:379-398 | inserting or deleting n lines moves each row of the region from the cursor on by n, blanks what comes in, and changes no other row |
| Streams.InsertThenDelete | blt/srv/console2/vt100.c:379-398 | deleting the inserted lines restores every row that was not pushed out of the region |
| Streams.ScrollingStaysInside | blt/srv/console2/vt100.c:129-176 | no byte that scrolls changes a row outside the region |
| Streams.OnlyBytesForIt | blt/srv/console2/vt100.c:322-461 | a control byte changes cells, cursor, region, attribute or saved position only if it is for that |
| Streams.PositionRestored | blt/srv/console2/vt100.c:405-409 | a saved position is where the cursor goes back to, whatever was sent in between, unless that saved again |
| Vt100.Screen.constructor | blt/srv/console2/vt100.c:19-40 | a blank screen |
| Vt100.Screen.ClearScreen | blt/srv/console2/vt100.c:52-65 | exactly the cells from, up to, or all around the cursor are blank |
| Vt100.Screen.ClearToEol | blt/srv/console2/vt100.c:67-83 | the same within the line |
| Vt100.Screen.Position | blt/srv/console2/vt100.c:92-108 | the cursor is where it was told, or the nearest place on the screen |
| Vt100.Screen.DeleteChars | blt/srv/console2/vt100.c:110-127 | in place, for every count, negative and wrapping ones too, whose loops stay on the screen |
| Vt100.Screen.ScrollAtCursor | blt/srv/console2/vt100.c:129-161 | a line inserted or deleted at the cursor, in place |
| Vt100.Screen.Scroll | blt/srv/console2/vt100.c:163-176 | the region scrolled up, in place |
| Vt100.Screen.ScrollLines | blt/srv/console2/vt100.c:379-398 | many lines inserted or deleted |
| Vt100.Screen.SelectRendition | blt/srv/console2/vt100.c:419-458 | the attribute is what the parameters make of it, one after the other, and stays a byte |
| Vt100.Screen.InterpretText | blt/srv/console2/vt100.c:251-303 | a byte of text, in place, is a step of the terminal |
| Vt100.Screen.InterpretEscape | blt/srv/console2/vt100.c:209-249 | a byte after an escape is a step of the terminal; restoring restores the attribute only |
| Vt100.Screen.MoveBy | blt/srv/console2/vt100.c:325-362 | cursor movements by the first parameter, 1 by default, clamped to the screen |
| Vt100.Screen.MoveTo | blt/srv/console2/vt100.c:339-410 | cursor addressing from 1, 0 counting as 1, clamped to the screen |
| Vt100.Screen.Edit | blt/srv/console2/vt100.c:376-404 | erasing, inserting and deleting, in place |
| Vt100.Screen.Collect | blt/srv/console2/vt100.c:314-320 | at most 16 parameters are kept |
| Vt100.Screen.CopyCells | blt/srv/console2/vt100.c:118-121 | a forward copy of cells that may overlap, each read after those before it were written |
| Vt100.Screen.InterpretControl | blt/srv/console2/vt100.c:305-463 | a byte of a control sequence is a step of the terminal; numbers wrap around |
| Vt100.Screen.Interpret | blt/srv/console2/vt100.c:199-463 | every byte, in place, is exactly one step of the terminal on values |
| Vt100.Screen.Feed | blt/srv/console2/vt100.c:199-463 | every stream that does not lead off the screen is exactly a run of it |

## Left out

- Heap.Heap.Realloc: requires, of a block that is to grow and borders top, a padded size plus 16 below 2^31; else the guard of growing into top is true for every top (`HeapSteps.TopGuard`) and the heap is damaged (`HeapSteps.GrowthUnsafe`).
- Heap.Heap.Enlarge: requires the same.
- Heap.Heap.ExtendTop: the two system calls of the first extension succeed or fail together (what follows when only the second fails is `Heap.Heap.StallArena` and `Heap.Heap.RestartArena`, and is not followed further), memory is obtained contiguously below 2^31, and `brk` and `granted` stand for the system's answers; foreign sbrk calls and their fenceposts are not modelled.
- Heap.Heap.Free: does not model malloc_trim of a large top.
- The block bitmap of the allocator is the set of its bit numbers; bit operations on the word are not modelled.
- memalign, valloc, calloc, mmap and the statistics of the allocator.
- Hash.Hashtable.constructor: requires a load factor below 6/7, from which on some size fills up and searches do not end (`Hash.LoadBound`); it is a fraction, rounding of float comparisons is not modelled.
- Hash.Hashtable.Insert: requires a key that is not in the table, as the source demands, and, when it grows, that the 26 sizes suffice for its keys; the source has no check for the last size.
- Hash.Hashtable.Rebuild: requires that the sizes suffice for its keys.
- Hash.Hashtable.Remove: requires, when it shrinks, that the sizes suffice for the refill, which holds from load factor 1/19 on (`ShrinkingSuffices`).
- Qsort.Qsort: elements are values of any type; the swap macros that copy an element as longs or bytes are not modelled.
- Sem.Semaphore.Acquire: the count is unbounded; it is what 32 bits hold exactly as in `Sem.KeptExactly`.
- Sem.Semaphore.Release: the same.
- Qsem.Benaphore.ReleaseAdd: release is for holders; the I386 variant, which only calls the kernel, is module Sem.
- List.Detach: list_remove and the other freeing variants do the same surgery and are not repeated.
- Port.PortTable.Send: waiting tasks are kept per port; a sender or receiver that was woken and whose port is destroyed before it runs would use freed memory, exactly as in `Port.StrandedExactly`, and is not resumed in the model.
- Port.PortTable.RecvResumed: requires the woken receiver's port to be in the table, for the same reason.
- Port.PortTable.SendResumed: requires the same; no wakeup is lost only for a well-sized message; the exact condition is `Port.SenderGivesUp`.
- Port.PortTable.SendResumedEnslaved: makes no wakeup claim; the exact condition is `Port.DepositOnEnslaved`.
- The port table works with each port's queue as a sequence; that the pointer chain does the same is `MessageChain.Send` and `MessageChain.Receive`.
- Sched.Kernel.Terminate: not for the reaper and the idle task, which never terminate.
- Sched.Kernel.IrqDispatch: an interrupt whose listener is gone (`Dangling`; Reap says exactly when one is left) does nothing in the model; the source looks at the freed task.
- Sched.Kernel.TimerIrq: reading the head of an empty timer queue, undefined in the source, is taken to find nobody.
- Sched.Kernel.Reap: what becomes of the dead task's stack, areas and team is not part of the step.
- Context switches, page faults and the pager, the kernel debugger, SMP, boot, and status words returned to woken tasks.
- Resource.Table.Find: rsrc_identify and resource names are not modelled; the queues of resources are in Sched.
- Areas.System.AreaCreate: requires that the span search can be trusted (`Spans.UsableExactly`); otherwise the source maps beyond the page table.
- Areas.System.AreaClone: requires the same.
- Areas.System.AreaResize: requires the same; that all stays in order is promised only for an area of the caller's space, alone in a group that owns its pages, since it fails otherwise (`Areas.GrowthExactly`, `Areas.GrowthNeedsOwnPages`).
- Page tables are sequences in the record of their space, and a group's chain of six-page records is one sequence.
- The kernel's virtual pages and kmalloc pools: pages the kernel takes for itself are a constant.
- Netboot.StartedHoldsImage: only the sender's packets arrive; reads other than the last are full.
- Fish.Tank.NewFish: the creator's two tank coordinates are one number; names, bitmaps and borg mode are not modelled.
- Fish.NoNewFish: each receipt and each frame is one step; the network does not double a SYNC.
- Fish.Tank.Frame: the pings it sends, and the drawing of the tank, are output and not part of the step; the answers are receipts that only call SetTank.
- Vt100.Screen.DeleteChars: requires that its loops stay on the screen, since else the source reads or writes outside it; the condition is exact (`Streams.DeletionExactly`).
- Vt100.Screen.InterpretControl: requires the same, and that a region has a line on the screen (`Terminal.RegionExactly`); so do Interpret and Feed.
- Vt100.Screen.constructor: the cells lie below the end of the 32-bit address space; the cursor starts where the screen's memory says, within the screen, since the source does not set it.
- The message capacity accounting, ELF linkers, file systems, device drivers and string helpers of the repository: input and output plumbing or easy members.
