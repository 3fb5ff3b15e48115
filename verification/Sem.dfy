/**
 * Kernel counting semaphores (blt/kernel/sem.c).  System calls run with interrupts
 * off, so each call up to the point where it waits is one step; a task that waits
 * is at the back of the semaphore's queue until a release hands it the processor
 * or the semaphore is destroyed.
 */
module Sem {
  import opened Word

  type TaskId = nat

  /** A semaphore as the kernel sees it: `count`, and the tasks waiting, first in first out. */
  datatype State = State(count: int, queue: seq<TaskId>)

  /** The calls of a run: `Acquire` names the calling task. */
  datatype Call = Acquire(task: TaskId) | Release

  function Max(x: int, y: int): int {
    if x < y then y else x
  }

  /** Acquire without waiting, or join the queue. */
  function Acquired(s: State, t: TaskId): State {
    State(s.count - 1, if s.count > 0 then s.queue else s.queue + [t])
  }

  /** Release, letting the first waiting task through. */
  function Released(s: State): State {
    State(s.count + 1, if s.queue == [] then [] else s.queue[1..])
  }

  function Step(s: State, c: Call): State {
    match c
    case Acquire(t) => Acquired(s, t)
    case Release => Released(s)
  }

  ghost function Run(s: State, calls: seq<Call>): State {
    if calls == [] then s else Step(Run(s, calls[..|calls| - 1]), calls[|calls| - 1])
  }

  /** Acquisitions that have got through, at once or by being let through. */
  ghost function Passed(s: State, calls: seq<Call>): nat {
    if calls == [] then 0 else
      var before := Run(s, calls[..|calls| - 1]);
      Passed(s, calls[..|calls| - 1]) +
      match calls[|calls| - 1] {
        case Acquire(t) => if before.count > 0 then 1 else 0
        case Release => if before.queue == [] then 0 else 1
      }
  }

  ghost function Releases(calls: seq<Call>): nat {
    if calls == [] then 0 else
      Releases(calls[..|calls| - 1]) + if calls[|calls| - 1].Release? then 1 else 0
  }

  ghost function Acquires(calls: seq<Call>): nat {
    if calls == [] then 0 else
      Acquires(calls[..|calls| - 1]) + if calls[|calls| - 1].Acquire? then 1 else 0
  }

  /** As many tasks wait as the count is below zero. */
  ghost predicate Balanced(s: State) {
    |s.queue| == Max(0, -s.count)
  }

  /**
   * Over every run from a nonnegative count: the queue is as long as the count is negative, what
   * has passed plus what is left over is the initial count plus the releases, and everyone who
   * has called and not passed is waiting.
   */
  lemma {:induction false} Conservation(s: State, calls: seq<Call>)
    requires s.queue == [] && s.count >= 0
    ensures Balanced(Run(s, calls))
    ensures Passed(s, calls) + Max(0, Run(s, calls).count) == s.count + Releases(calls)
    ensures Passed(s, calls) + |Run(s, calls).queue| == Acquires(calls)
  {
    if calls != [] {
      Conservation(s, calls[..|calls| - 1]);
    }
  }

  /** No more acquisitions pass than there were units to take. */
  lemma NeverOverdrawn(s: State, calls: seq<Call>)
    requires s.queue == [] && s.count >= 0
    ensures Passed(s, calls) <= s.count + Releases(calls)
    ensures Run(s, calls).queue != [] ==> Passed(s, calls) == s.count + Releases(calls)
  {
    Conservation(s, calls);
  }

  /** The balance is kept over every run exactly when the semaphore was created nonnegative. */
  lemma BalancedFromCreation(count: int)
    ensures count >= 0 <==> (forall calls {:trigger Run(State(count, []), calls)} :: Balanced(Run(State(count, []),
      calls)))
  {
    var s := State(count, []);
    if count >= 0 {
      forall calls ensures Balanced(Run(s, calls)) {
        Conservation(s, calls);
      }
    } else {
      assert Run(s, []) == s;
    }
  }

  /** The tasks that the calls of a run made wait or pass, in the order of their calls. */
  ghost function Callers(calls: seq<Call>): seq<TaskId> {
    if calls == [] then [] else
      Callers(calls[..|calls| - 1]) + match calls[|calls| - 1] { case Acquire(t) => [t] case Release => [] }
  }

  /** First come, first served: who still waits is the tail of those who called. */
  lemma {:induction false} FirstComeFirstServed(s: State, calls: seq<Call>)
    requires s.queue == [] && s.count >= 0
    ensures |Run(s, calls).queue| <= |Callers(calls)|
    ensures Run(s, calls).queue == Callers(calls)[|Callers(calls)| - |Run(s, calls).queue|..]
  {
    if calls != [] {
      var before := calls[..|calls| - 1];
      FirstComeFirstServed(s, before);
      Conservation(s, before);
    }
  }

  // ---- the count in 32 bits

  /** The run with a count of 32 bits. */
  ghost function Kept(s: State, calls: seq<Call>): State {
    if calls == [] then s else
      var u := Step(Kept(s, calls[..|calls| - 1]), calls[|calls| - 1]);
      u.(count := Signed(u.count))
  }

  /** At no time do the releases less the acquisitions take the count out of 32 bits. */
  ghost predicate CountFits(s: State, calls: seq<Call>) {
    && -LIMIT <= s.count + Releases(calls) - Acquires(calls) < LIMIT
    && (calls == [] || CountFits(s, calls[..|calls| - 1]))
  }

  ghost predicate AlwaysBalanced(s: State, calls: seq<Call>) {
    Balanced(Kept(s, calls)) && (calls == [] || AlwaysBalanced(s, calls[..|calls| - 1]))
  }

  lemma {:induction false} CountIs(s: State, calls: seq<Call>)
    ensures Run(s, calls).count == s.count + Releases(calls) - Acquires(calls)
  {
    if calls != [] {
      CountIs(s, calls[..|calls| - 1]);
    }
  }

  /** Exactly then the balance is kept throughout, and the run is the one with an unbounded count. */
  lemma {:induction false} KeptExactly(s: State, calls: seq<Call>)
    requires s.queue == [] && 0 <= s.count < LIMIT
    ensures AlwaysBalanced(s, calls) <==> CountFits(s, calls)
    ensures CountFits(s, calls) ==> Kept(s, calls) == Run(s, calls)
  {
    CountIs(s, calls);
    if calls != [] {
      var before := calls[..|calls| - 1];
      KeptExactly(s, before);
      CountIs(s, before);
      if CountFits(s, before) {
        Conservation(s, before);
        Conservation(s, calls);
        LeavesInt(Run(s, before), calls[|calls| - 1]);
      }
    }
  }

  lemma LeavesInt(s: State, c: Call)
    requires Balanced(s) && -LIMIT <= s.count < LIMIT
    ensures var u := Step(s, c);
            Balanced(u) && (Balanced(u.(count := Signed(u.count))) <==> -LIMIT <= u.count < LIMIT)
  {
  }

  class Semaphore {
    var count: int
    var queue: seq<TaskId>

    ghost function View(): State
      reads this
    {
      State(count, queue)
    }

    constructor (count: int)
      ensures View() == State(count, [])
    {
      this.count, queue := count, [];
    }

    /** `waits` when the caller was put to sleep on the queue. */
    method Acquire(t: TaskId) returns (waits: bool)
      modifies this
      ensures View() == Acquired(old(View()), t)
      ensures waits <==> old(count) <= 0
      ensures waits <==> |queue| > |old(queue)|
    {
      if count > 0 {
        count := count - 1;
        waits := false;
      } else {
        count := count - 1;
        queue := queue + [t];
        waits := true;
      }
    }

    /** The tasks woken: none, or the one that has waited longest, which runs next. */
    method Release() returns (woken: seq<TaskId>)
      modifies this
      ensures View() == Released(old(View()))
      ensures |woken| <= 1 && woken + queue == old(queue)
      ensures woken == [] <==> old(queue) == []
    {
      count := count + 1;
      woken := [];
      if queue != [] {
        woken, queue := [queue[0]], queue[1..];
      }
    }

    /** Destruction wakes every waiting task with an error, longest waiting first. */
    method Destroy() returns (woken: seq<TaskId>)
      modifies this
      ensures queue == [] && woken == old(queue)
    {
      woken := [];
      while queue != []
        invariant woken + queue == old(queue)
        decreases |queue|
      {
        woken, queue := woken + [queue[0]], queue[1..];
      }
    }
  }
}
