/**
 * The userland semaphore of blt/lib/libblt/qsem.c (the `atomic_add` variant): a
 * counter in memory, and a kernel semaphore that is only called when the counter
 * says somebody has to wait or to be let through.  Threads interleave between the
 * atomic addition and the kernel call.
 */
module Qsem {
  import opened Sem

  /**
   * `holders` are through acquire and not yet in release; `entering` have done acquire's addition
   * and are about to call the kernel; `leaving` have done release's addition and are about to
   * call the kernel; those asleep in acquire are on the mutex's queue.
   */
  datatype Bench = Bench(count: int, mutex: State, holders: set<TaskId>, entering: set<TaskId>, leaving: set<TaskId>)

  /** One atomic action of one thread. */
  datatype Action =
    | AddDown(t: TaskId)     // acquire: atomic_add(-1)
    | CallAcquire(t: TaskId) // acquire: sem_acquire
    | AddUp(t: TaskId)       // release: atomic_add(1)
    | CallRelease(t: TaskId) // release: sem_release

  ghost function Asleep(b: Bench): set<TaskId> {
    set t | t in b.mutex.queue
  }

  function Created(n: int): Bench {
    Bench(n, State(0, []), {}, {}, {})
  }

  /** A thread acts only where it is: release is for holders. */
  ghost predicate Enabled(b: Bench, a: Action) {
    match a
    case AddDown(t) => t !in b.holders && t !in b.entering && t !in b.leaving && t !in b.mutex.queue
    case CallAcquire(t) => t in b.entering
    case AddUp(t) => t in b.holders
    case CallRelease(t) => t in b.leaving
  }

  function After(b: Bench, a: Action): Bench {
    match a
    case AddDown(t) =>
      if b.count <= 0 then b.(count := b.count - 1, entering := b.entering + {t})
      else b.(count := b.count - 1, holders := b.holders + {t})
    case CallAcquire(t) =>
      if b.mutex.count > 0 then b.(mutex := Acquired(b.mutex, t), entering := b.entering - {t},
        holders := b.holders + {t})
      else b.(mutex := Acquired(b.mutex, t), entering := b.entering - {t})
    case AddUp(t) =>
      if b.count < 0 then b.(count := b.count + 1, holders := b.holders - {t}, leaving := b.leaving + {t})
      else b.(count := b.count + 1, holders := b.holders - {t})
    case CallRelease(t) =>
      if b.mutex.queue == [] then b.(mutex := Released(b.mutex), leaving := b.leaving - {t})
      else b.(mutex := Released(b.mutex), leaving := b.leaving - {t}, holders := b.holders + {b.mutex.queue[0]})
  }

  /** Everyone is in one place. */
  ghost predicate Apart(b: Bench) {
    && b.holders !! b.entering && b.holders !! b.leaving && b.entering !! b.leaving
    && (forall i :: 0 <= i < |b.mutex.queue| ==>
          b.mutex.queue[i] !in b.holders && b.mutex.queue[i] !in b.entering && b.mutex.queue[i] !in b.leaving)
    && (forall i, j :: 0 <= i < j < |b.mutex.queue| ==> b.mutex.queue[i] != b.mutex.queue[j])
  }

  /** Permits given back to the kernel, or on their way there, and not yet taken. */
  ghost function Pending(b: Bench): nat {
    |b.leaving| + Max(0, b.mutex.count)
  }

  ghost predicate Inv(n: int, b: Bench) {
    && Apart(b) && Balanced(b.mutex)
       // the counter counts everyone between the two additions
    && b.count + |b.holders| + |b.entering| + |b.mutex.queue| == n
       // every thread the counter makes wait is matched by a pending permit or by the deficit
    && |b.entering| + |b.mutex.queue| == Pending(b) + Max(0, -b.count)
  }

  lemma InvInit(n: int)
    requires n >= 0
    ensures Inv(n, Created(n))
  {
  }

  lemma InvAddDown(n: int, b: Bench, t: TaskId)
    requires Inv(n, b) && Enabled(b, AddDown(t))
    ensures Inv(n, After(b, AddDown(t)))
  {
  }

  lemma InvCallAcquire(n: int, b: Bench, t: TaskId)
    requires Inv(n, b) && Enabled(b, CallAcquire(t))
    ensures Inv(n, After(b, CallAcquire(t)))
  {
  }

  lemma InvAddUp(n: int, b: Bench, t: TaskId)
    requires Inv(n, b) && Enabled(b, AddUp(t))
    ensures Inv(n, After(b, AddUp(t)))
  {
  }

  lemma InvCallRelease(n: int, b: Bench, t: TaskId)
    requires Inv(n, b) && Enabled(b, CallRelease(t))
    ensures Inv(n, After(b, CallRelease(t)))
  {
    if b.mutex.queue != [] {
      assert |b.holders + {b.mutex.queue[0]}| == |b.holders| + 1;
    }
  }

  /** Every step of every thread keeps the invariant. */
  lemma InvStep(n: int, b: Bench, a: Action)
    requires Inv(n, b) && Enabled(b, a)
    ensures Inv(n, After(b, a))
  {
    hide Inv, Enabled, After;
    match a
    case AddDown(t) => InvAddDown(n, b, t);
    case CallAcquire(t) => InvCallAcquire(n, b, t);
    case AddUp(t) => InvAddUp(n, b, t);
    case CallRelease(t) => InvCallRelease(n, b, t);
  }

  /** A run of interleaved actions, each enabled where it happens. */
  ghost predicate Reaches(n: int, actions: seq<Action>, b: Bench) {
    if actions == [] then b == Created(n)
    else
      var last := |actions| - 1;
      exists before :: Reaches(n, actions[..last], before) && Enabled(before, actions[last])
        && b == After(before, actions[last])
  }

  lemma {:induction false} ReachableInv(n: int, actions: seq<Action>, b: Bench)
    requires n >= 0 && Reaches(n, actions, b)
    ensures Inv(n, b)
    decreases |actions|
  {
    if actions == [] {
      InvInit(n);
    } else {
      var last := |actions| - 1;
      var before :| Reaches(n, actions[..last], before) && Enabled(before, actions[last])
        && b == After(before, actions[last]);
      ReachableInv(n, actions[..last], before);
      InvStep(n, before, actions[last]);
    }
  }

  /** Holders, pending permits and free permits always add up to the initial count. */
  lemma PermitsConserved(n: int, actions: seq<Action>, b: Bench)
    requires n >= 0 && Reaches(n, actions, b)
    ensures |b.holders| + Pending(b) + Max(0, b.count) == n
  {
    ReachableInv(n, actions, b);
  }

  /** Never more than `n` threads hold a semaphore created with `n`, whatever the interleaving. */
  lemma NeverMoreHolders(n: int, actions: seq<Action>, b: Bench)
    requires n >= 0 && Reaches(n, actions, b)
    ensures |b.holders| <= n
  {
    PermitsConserved(n, actions, b);
  }

  /**
   * When nobody holds it and no release is half done, nobody sleeps in acquire, and whoever is
   * entering finds the permit it needs.
   */
  lemma NobodyStuck(n: int, actions: seq<Action>, b: Bench)
    requires n >= 1 && Reaches(n, actions, b)
    requires b.holders == {} && b.leaving == {}
    ensures b.mutex.queue == []
    ensures b.entering != {} ==> b.mutex.count > 0
  {
    ReachableInv(n, actions, b);
  }

  /**
   * No interleaving leaves every thread asleep: while any thread is inside, some thread holds
   * the semaphore or has a kernel call to make.
   */
  lemma NoDeadlock(n: int, actions: seq<Action>, b: Bench)
    requires n >= 1 && Reaches(n, actions, b)
    requires b.mutex.queue != []
    ensures b.holders != {} || b.leaving != {}
  {
    ReachableInv(n, actions, b);
  }

  class Benaphore {
    var count: int
    const mutex: Semaphore

    /** Where the threads are, and the initial count. */
    ghost var holders: set<TaskId>
    ghost var entering: set<TaskId>
    ghost var leaving: set<TaskId>
    ghost const n: nat

    ghost function View(): Bench
      reads this, mutex
    {
      Bench(count, mutex.View(), holders, entering, leaving)
    }

    ghost predicate Valid()
      reads this, mutex
    {
      Inv(n, View())
    }

    constructor (n: nat)
      ensures View() == Created(n) && this.n == n && Valid()
      ensures fresh(mutex)
    {
      count := n;
      mutex := new Semaphore(0);
      holders, entering, leaving, this.n := {}, {}, {}, n;
    }

    /** The first half of acquire; `slow` asks for the second. */
    method AcquireAdd(t: TaskId) returns (slow: bool)
      requires Valid() && Enabled(View(), AddDown(t))
      modifies this
      ensures Valid() && View() == After(old(View()), AddDown(t))
      ensures slow <==> t in entering
    {
      InvStep(n, View(), AddDown(t));
      var was := count;
      count := count - 1;
      slow := was <= 0;
      if slow {
        entering := entering + {t};
      } else {
        holders := holders + {t};
      }
    }

    /** The second half of acquire: the caller holds the semaphore, or sleeps until it does. */
    method AcquireCall(t: TaskId) returns (waits: bool)
      requires Valid() && Enabled(View(), CallAcquire(t))
      modifies this, mutex
      ensures Valid() && View() == After(old(View()), CallAcquire(t))
      ensures !waits <==> t in holders
    {
      InvStep(n, View(), CallAcquire(t));
      waits := mutex.Acquire(t);
      entering := entering - {t};
      if !waits {
        holders := holders + {t};
      }
    }

    /** The first half of release. */
    method ReleaseAdd(t: TaskId) returns (slow: bool)
      requires Valid() && Enabled(View(), AddUp(t))
      modifies this
      ensures Valid() && View() == After(old(View()), AddUp(t))
      ensures slow <==> t in leaving
    {
      InvStep(n, View(), AddUp(t));
      var was := count;
      count := count + 1;
      holders := holders - {t};
      slow := was < 0;
      if slow {
        leaving := leaving + {t};
      }
    }

    /** The second half of release: the longest waiting thread, if any, becomes a holder. */
    method ReleaseCall(t: TaskId) returns (woken: seq<TaskId>)
      requires Valid() && Enabled(View(), CallRelease(t))
      modifies this, mutex
      ensures Valid() && View() == After(old(View()), CallRelease(t))
      ensures forall u :: u in woken ==> u in holders
    {
      InvStep(n, View(), CallRelease(t));
      woken := mutex.Release();
      leaving := leaving - {t};
      if woken != [] {
        holders := holders + {woken[0]};
      }
    }
  }
}
