/**
 * Tasks and the queues they wait on (blt/kernel/kernel.c, task.c, resource.c,
 * syscall.c, fault.c).  The kernel runs with interrupts off, so a step is what
 * happens between two changes of the running task.
 */
module Sched {
  import opened Word
  import opened Wrappers

  type TaskId = nat

  datatype Flags = READY | RUNNING | WAITING | SLEEP_IRQ | DEAD

  /** The kernel's own queues, the queue every task has, and the queues of other resources. */
  datatype QueueId = Run | Reaper | Timer | DeathToll | Of(task: TaskId) | Rsrc(id: nat)

  datatype Task = Task(flags: Flags, waitingOn: Option<QueueId>, waitTime: nat, irq: nat)

  datatype State = State(tasks: map<TaskId, Task>, queues: map<QueueId, seq<TaskId>>)

  // ---- where a task is

  /** What being on queue `k` means for a task: it says so itself, and only the dead wait for the reaper. */
  ghost predicate Waits(s: State, t: TaskId, k: QueueId) {
    && t in s.tasks && s.tasks[t].waitingOn == Some(k)
    && s.tasks[t].flags == (if k == Reaper then DEAD else WAITING)
  }

  /** A task that is not loose is on the queue it says it waits on, or asleep until its interrupt. */
  ghost predicate HasPlace(s: State, t: TaskId, loose: set<TaskId>)
    requires t in s.tasks
  {
    var k := s.tasks[t].waitingOn;
    if t in loose || s.tasks[t].flags == SLEEP_IRQ then k == None
    else k.Some? && k.value in s.queues && t in s.queues[k.value]
  }

  ghost predicate Queued(s: State) {
    && (forall k, i {:trigger s.queues[k][i]} :: k in s.queues && 0 <= i < |s.queues[k]| ==>
      Waits(s, s.queues[k][i], k))
    && (forall k, i, j {:trigger s.queues[k][i], s.queues[k][j]} ::
          k in s.queues && 0 <= i < j < |s.queues[k]| ==> s.queues[k][i] != s.queues[k][j])
  }

  /** Every task is in one place; `loose` ones are in the kernel's hands. */
  ghost predicate Placed(s: State, loose: set<TaskId>) {
    && Queued(s)
    && (forall t {:trigger HasPlace(s, t, loose)} :: t in s.tasks ==> HasPlace(s, t, loose))
  }

  /**
   * Exactly one place: a task is on some queue exactly when it is neither loose nor asleep, and then at one
   * position of one queue.
   */
  lemma OnePlace(s: State, loose: set<TaskId>, t: TaskId)
    requires Placed(s, loose) && t in s.tasks
    ensures (exists k, i {:trigger s.queues[k][i]} :: k in s.queues && 0 <= i < |s.queues[k]| && s.queues[k][i] == t)
            <==> t !in loose && s.tasks[t].flags != SLEEP_IRQ
    ensures forall k, i, l, j {:trigger s.queues[k][i], s.queues[l][j]} ::
              (k in s.queues && 0 <= i < |s.queues[k]| && l in s.queues && 0 <= j < |s.queues[l]|
               && s.queues[k][i] == t && s.queues[l][j] == t) ==> (k == l && i == j)
  {
    assert HasPlace(s, t, loose);
    if t !in loose && s.tasks[t].flags != SLEEP_IRQ {
      var k := s.tasks[t].waitingOn.value;
      var i :| 0 <= i < |s.queues[k]| && s.queues[k][i] == t;
    }
  }

  // ---- queue operations

  function Enqueued(s: State, k: QueueId, t: TaskId, time: nat): State
    requires t in s.tasks && k in s.queues
  {
    State(s.tasks[t := s.tasks[t].(flags := if k == Reaper then DEAD
      else WAITING, waitingOn := Some(k), waitTime := time)],
          s.queues[k := s.queues[k] + [t]])
  }

  function Dequeued(s: State, k: QueueId): State
    requires k in s.queues && s.queues[k] != [] && s.queues[k][0] in s.tasks
  {
    var t := s.queues[k][0];
    State(s.tasks[t := s.tasks[t].(flags := READY, waitingOn := None)], s.queues[k := s.queues[k][1..]])
  }

  lemma EnqueuedQueued(s: State, loose: set<TaskId>, k: QueueId, t: TaskId, time: nat)
    requires Placed(s, loose) && t in s.tasks && t in loose && k in s.queues
    ensures Queued(Enqueued(s, k, t, time))
  {
    var u := Enqueued(s, k, t, time);
    assert HasPlace(s, t, loose);
    forall l, i {:trigger u.queues[l][i]} | l in u.queues && 0 <= i < |u.queues[l]|
      ensures Waits(u, u.queues[l][i], l)
    {
      if l != k || i < |s.queues[k]| {
        assert u.queues[l][i] == s.queues[l][i];
      }
    }
    forall l, i, j | l in u.queues && 0 <= i < j < |u.queues[l]| ensures u.queues[l][i] != u.queues[l][j] {
      assert u.queues[l][i] == s.queues[l][i];
      if l != k || j < |s.queues[k]| {
        assert u.queues[l][j] == s.queues[l][j];
      }
    }
  }

  /** A loose task put on a queue has its place there. */
  lemma EnqueuedPlaced(s: State, loose: set<TaskId>, k: QueueId, t: TaskId, time: nat)
    requires Placed(s, loose) && t in s.tasks && t in loose && k in s.queues
    ensures Placed(Enqueued(s, k, t, time), loose - {t})
  {
    EnqueuedQueued(s, loose, k, t, time);
    var u := Enqueued(s, k, t, time);
    forall x | x in u.tasks ensures HasPlace(u, x, loose - {t}) {
      if x == t {
        assert u.queues[k][|s.queues[k]|] == t;
      } else {
        assert HasPlace(s, x, loose);
        if x !in loose && s.tasks[x].flags != SLEEP_IRQ {
          var l := s.tasks[x].waitingOn.value;
          var i :| 0 <= i < |s.queues[l]| && s.queues[l][i] == x;
          assert u.queues[l][i] == x;
        }
      }
    }
  }

  lemma HeadWaits(s: State, loose: set<TaskId>, k: QueueId)
    requires Placed(s, loose) && k in s.queues && s.queues[k] != []
    ensures Waits(s, s.queues[k][0], k) && s.queues[k][0] !in loose
  {
    assert HasPlace(s, s.queues[k][0], loose);
  }

  lemma DequeuedQueued(s: State, k: QueueId)
    requires Queued(s) && k in s.queues && s.queues[k] != [] && s.queues[k][0] in s.tasks
    ensures Queued(Dequeued(s, k))
  {
    var u := Dequeued(s, k);
    forall l, i {:trigger u.queues[l][i]} | l in u.queues && 0 <= i < |u.queues[l]|
      ensures Waits(u, u.queues[l][i], l)
    {
      var j := if l == k then i + 1 else i;
      assert u.queues[l][i] == s.queues[l][j];
      assert s.queues[k][0] == s.queues[k][0];
      assert Waits(s, s.queues[l][j], l) && Waits(s, s.queues[k][0], k);
    }
    forall l, i, j | l in u.queues && 0 <= i < j < |u.queues[l]| ensures u.queues[l][i] != u.queues[l][j] {
      var d := if l == k then 1 else 0;
      assert u.queues[l][i] == s.queues[l][i + d] && u.queues[l][j] == s.queues[l][j + d];
    }
  }

  /** The first task of a queue taken off it is loose. */
  lemma DequeuedPlaced(s: State, loose: set<TaskId>, k: QueueId)
    requires Placed(s, loose) && k in s.queues && s.queues[k] != [] && s.queues[k][0] in s.tasks
    ensures Placed(Dequeued(s, k), loose + {s.queues[k][0]})
  {
    DequeuedQueued(s, k);
    var u := Dequeued(s, k);
    var t := s.queues[k][0];
    forall x | x in u.tasks ensures HasPlace(u, x, loose + {t}) {
      if x != t {
        assert HasPlace(s, x, loose);
        if x !in loose && s.tasks[x].flags != SLEEP_IRQ {
          var l := s.tasks[x].waitingOn.value;
          var i :| 0 <= i < |s.queues[l]| && s.queues[l][i] == x;
          assert u.queues[l][if l == k then i - 1 else i] == x;
        }
      }
    }
  }

  /** A loose task may run or sleep until its interrupt; it stays off every queue. */
  lemma FlagPlaced(s: State, loose: set<TaskId>, t: TaskId, f: Flags)
    requires Placed(s, loose) && t in s.tasks && t in loose
    ensures var u := s.(tasks := s.tasks[t := s.tasks[t].(flags := f)]);
            && Placed(u, loose)
            && (f == SLEEP_IRQ ==> Placed(u, loose - {t}))
  {
    var u := s.(tasks := s.tasks[t := s.tasks[t].(flags := f)]);
    assert HasPlace(s, t, loose);
    forall k, i {:trigger u.queues[k][i]} | k in u.queues && 0 <= i < |u.queues[k]|
      ensures Waits(u, u.queues[k][i], k)
    {
      assert Waits(s, s.queues[k][i], k);
    }
    forall x | x in u.tasks ensures HasPlace(u, x, loose) && (f == SLEEP_IRQ ==> HasPlace(u, x, loose - {t})) {
      assert HasPlace(s, x, loose);
    }
  }

  /** A task asleep until its interrupt can be taken up by the kernel. */
  lemma PickedUp(s: State, loose: set<TaskId>, t: TaskId)
    requires Placed(s, loose) && t in s.tasks && s.tasks[t].flags == SLEEP_IRQ
    ensures Placed(s, loose + {t})
  {
    assert HasPlace(s, t, loose);
    forall x | x in s.tasks ensures HasPlace(s, x, loose + {t}) {
      assert HasPlace(s, x, loose);
    }
  }

  /** A new task is in the kernel's hands, with a queue of its own. */
  lemma CreatedPlaced(s: State, loose: set<TaskId>, t: TaskId, task: Task)
    requires Placed(s, loose) && t !in s.tasks && Of(t) !in s.queues && task.waitingOn == None
    ensures Placed(State(s.tasks[t := task], s.queues[Of(t) := []]), loose + {t})
  {
    var u := State(s.tasks[t := task], s.queues[Of(t) := []]);
    forall k, i {:trigger u.queues[k][i]} | k in u.queues && 0 <= i < |u.queues[k]|
      ensures Waits(u, u.queues[k][i], k)
    {
      assert u.queues[k][i] == s.queues[k][i];
    }
    forall k, i, j | k in u.queues && 0 <= i < j < |u.queues[k]| ensures u.queues[k][i] != u.queues[k][j] {
      assert u.queues[k][i] == s.queues[k][i] && u.queues[k][j] == s.queues[k][j];
    }
    forall x | x in u.tasks ensures HasPlace(u, x, loose + {t}) {
      if x != t {
        assert HasPlace(s, x, loose);
      }
    }
  }

  /** A loose task whose own queue is empty can go, and the queue with it. */
  lemma DestroyedPlaced(s: State, loose: set<TaskId>, t: TaskId)
    requires Placed(s, loose) && t in s.tasks && t in loose && Of(t) in s.queues && s.queues[Of(t)] == []
    ensures Placed(State(s.tasks - {t}, s.queues - {Of(t)}), loose - {t})
  {
    var u := State(s.tasks - {t}, s.queues - {Of(t)});
    assert HasPlace(s, t, loose);
    forall k, i {:trigger u.queues[k][i]} | k in u.queues && 0 <= i < |u.queues[k]|
      ensures Waits(u, u.queues[k][i], k)
    {
      assert Waits(s, s.queues[k][i], k);
    }
    forall k, i, j | k in u.queues && 0 <= i < j < |u.queues[k]| ensures u.queues[k][i] != u.queues[k][j] {
      assert s.queues[k][i] != s.queues[k][j];
    }
    forall x | x in u.tasks ensures HasPlace(u, x, loose - {t}) {
      assert HasPlace(s, x, loose);
    }
  }

  /** Queues of other resources come and go empty. */
  lemma ResourcePlaced(s: State, loose: set<TaskId>, id: nat)
    requires Placed(s, loose) && (Rsrc(id) in s.queues ==> s.queues[Rsrc(id)] == [])
    ensures Placed(s.(queues := s.queues[Rsrc(id) := []]), loose)
    ensures Placed(s.(queues := s.queues - {Rsrc(id)}), loose)
  {
    var u := s.(queues := s.queues[Rsrc(id) := []]);
    var v := s.(queues := s.queues - {Rsrc(id)});
    forall k, i {:trigger u.queues[k][i]} | k in u.queues && 0 <= i < |u.queues[k]|
      ensures Waits(u, u.queues[k][i], k)
    {
      assert Waits(s, s.queues[k][i], k);
    }
    forall k, i {:trigger v.queues[k][i]} | k in v.queues && 0 <= i < |v.queues[k]|
      ensures Waits(v, v.queues[k][i], k)
    {
      assert Waits(s, s.queues[k][i], k);
    }
    forall x | x in u.tasks ensures HasPlace(u, x, loose) && HasPlace(v, x, loose) {
      assert HasPlace(s, x, loose);
    }
  }

  // ---- what the kernel knows besides

  ghost function Live(tasks: map<TaskId, Task>, idle: TaskId): set<TaskId> {
    set t | t in tasks && t != idle && tasks[t].flags != DEAD
  }

  /** Everyone in one place, the kernel's queues and every task's queue there, `live` tasks alive. */
  ghost predicate Sound(s: State, loose: set<TaskId>, idle: TaskId, live: int) {
    && Placed(s, loose)
    && Run in s.queues && Reaper in s.queues && Timer in s.queues && DeathToll in s.queues
    && (forall t :: Of(t) in s.queues <==> t in s.tasks)
    && idle in s.tasks && s.tasks[idle].flags != DEAD && s.tasks[idle].flags != SLEEP_IRQ
    && live == |Live(s.tasks, idle)|
  }

  lemma LiveSame(tasks: map<TaskId, Task>, idle: TaskId, t: TaskId, task: Task)
    requires t in tasks && (task.flags == DEAD <==> tasks[t].flags == DEAD)
    ensures Live(tasks[t := task], idle) == Live(tasks, idle)
  {
  }

  lemma EnqueuedSound(s: State, loose: set<TaskId>, idle: TaskId, live: int, k: QueueId, t: TaskId, time: nat)
    requires Sound(s, loose, idle, live)
    requires t in s.tasks && t in loose && s.tasks[t].flags != DEAD && k in s.queues && k != Reaper
    ensures Sound(Enqueued(s, k, t, time), loose - {t}, idle, live)
  {
    hide Placed, Live;
    EnqueuedPlaced(s, loose, k, t, time);
    LiveSame(s.tasks, idle, t, Enqueued(s, k, t, time).tasks[t]);
  }

  lemma BuriedSound(s: State, loose: set<TaskId>, idle: TaskId, live: int, t: TaskId)
    requires Sound(s, loose, idle, live)
    requires t in s.tasks && t in loose && t != idle && s.tasks[t].flags != DEAD
    ensures Sound(Enqueued(s, Reaper, t, 0), loose - {t}, idle, live - 1)
  {
    hide Placed;
    EnqueuedPlaced(s, loose, Reaper, t, 0);
    assert Live(Enqueued(s, Reaper, t, 0).tasks, idle) == Live(s.tasks, idle) - {t};
  }

  lemma DequeuedSound(s: State, loose: set<TaskId>, idle: TaskId, live: int, k: QueueId)
    requires Sound(s, loose, idle, live)
    requires k in s.queues && k != Reaper && s.queues[k] != []
    ensures s.queues[k][0] in s.tasks && s.queues[k][0] !in loose && s.tasks[s.queues[k][0]].flags == WAITING
    ensures Sound(Dequeued(s, k), loose + {s.queues[k][0]}, idle, live)
  {
    HeadWaits(s, loose, k);
    hide Placed, Live;
    DequeuedPlaced(s, loose, k);
    LiveSame(s.tasks, idle, s.queues[k][0], Dequeued(s, k).tasks[s.queues[k][0]]);
  }

  lemma FlagSound(s: State, loose: set<TaskId>, idle: TaskId, live: int, t: TaskId, f: Flags)
    requires Sound(s, loose, idle, live) && t in s.tasks && t in loose && s.tasks[t].flags != DEAD && f != DEAD
      && (f == SLEEP_IRQ ==> t != idle)
    ensures var u := s.(tasks := s.tasks[t := s.tasks[t].(flags := f)]);
            && Sound(u, loose, idle, live)
            && (f == SLEEP_IRQ ==> Sound(u, loose - {t}, idle, live))
  {
    hide Placed, Live;
    FlagPlaced(s, loose, t, f);
    LiveSame(s.tasks, idle, t, s.tasks[t].(flags := f));
  }

  lemma PickedUpSound(s: State, loose: set<TaskId>, idle: TaskId, live: int, t: TaskId)
    requires Sound(s, loose, idle, live) && t in s.tasks && s.tasks[t].flags == SLEEP_IRQ
    ensures Sound(s, loose + {t}, idle, live)
  {
    hide Placed, Live;
    PickedUp(s, loose, t);
  }

  lemma CreatedSound(s: State, loose: set<TaskId>, idle: TaskId, live: int, t: TaskId, task: Task)
    requires Sound(s, loose, idle, live) && t !in s.tasks && task.waitingOn == None && task.flags != DEAD
    ensures Sound(State(s.tasks[t := task], s.queues[Of(t) := []]), loose + {t}, idle, live + 1)
  {
    hide Placed;
    CreatedPlaced(s, loose, t, task);
    assert Live(s.tasks[t := task], idle) == Live(s.tasks, idle) + {t};
  }

  /** The first of the dead, taken off the reaper's queue; for the moment it does not look dead. */
  lemma ExhumedSound(s: State, loose: set<TaskId>, idle: TaskId, live: int)
    requires Sound(s, loose, idle, live) && idle in loose && s.queues[Reaper] != []
    ensures s.queues[Reaper][0] in s.tasks && s.queues[Reaper][0] !in loose
      && s.tasks[s.queues[Reaper][0]].flags == DEAD
    ensures Sound(Dequeued(s, Reaper), loose + {s.queues[Reaper][0]}, idle, live + 1)
  {
    HeadWaits(s, loose, Reaper);
    hide Placed;
    DequeuedPlaced(s, loose, Reaper);
    var t := s.queues[Reaper][0];
    assert Live(Dequeued(s, Reaper).tasks, idle) == Live(s.tasks, idle) + {t};
  }

  lemma DestroyedSound(s: State, loose: set<TaskId>, idle: TaskId, live: int, t: TaskId)
    requires Sound(s, loose, idle, live) && t in s.tasks && t in loose && t != idle && s.tasks[t].flags != DEAD
    requires s.queues[Of(t)] == []
    ensures Sound(State(s.tasks - {t}, s.queues - {Of(t)}), loose - {t}, idle, live - 1)
  {
    hide Placed;
    DestroyedPlaced(s, loose, t);
    assert Live(s.tasks - {t}, idle) == Live(s.tasks, idle) - {t};
  }

  lemma ResourceSound(s: State, loose: set<TaskId>, idle: TaskId, live: int, id: nat)
    requires Sound(s, loose, idle, live) && (Rsrc(id) in s.queues ==> s.queues[Rsrc(id)] == [])
    ensures Sound(s.(queues := s.queues[Rsrc(id) := []]), loose, idle, live)
    ensures Sound(s.(queues := s.queues - {Rsrc(id)}), loose, idle, live)
  {
    hide Placed, Live;
    ResourcePlaced(s, loose, id);
  }

  /** While some task other than the idle one is alive, there are live tasks. */
  lemma SomeoneLives(s: State, loose: set<TaskId>, idle: TaskId, live: int, t: TaskId)
    requires Sound(s, loose, idle, live) && t in s.tasks && t != idle && s.tasks[t].flags != DEAD
    ensures live > 0
  {
    assert t in Live(s.tasks, idle);
  }

  /** The first `n` tasks of queue `k` moved to the end of the run queue. */
  ghost function Moved(q: map<QueueId, seq<TaskId>>, k: QueueId, n: nat): map<QueueId, seq<TaskId>>
    requires k in q && Run in q && k != Run && n <= |q[k]|
  {
    q[k := q[k][n..]][Run := q[Run] + q[k][..n]]
  }

  lemma AllMoved(q: map<QueueId, seq<TaskId>>, k: QueueId)
    requires k in q && Run in q && k != Run
    ensures Moved(q, k, |q[k]|) == q[k := []][Run := q[Run] + q[k]]
  {
    assert q[k][..|q[k]|] == q[k] && q[k][|q[k]|..] == [];
  }

  lemma NoneMoved(q: map<QueueId, seq<TaskId>>, k: QueueId)
    requires k in q && Run in q && k != Run
    ensures Moved(q, k, 0) == q
  {
    assert q[k][0..] == q[k] && q[Run] + q[k][..0] == q[Run];
  }

  lemma OneMoved(q: map<QueueId, seq<TaskId>>, k: QueueId, n: nat)
    requires k in q && Run in q && k != Run && n < |q[k]|
    ensures var m := Moved(q, k, n);
            m[k] != [] && m[k := m[k][1..]][Run := m[Run] + [m[k][0]]] == Moved(q, k, n + 1)
  {
    assert q[k][n..][1..] == q[k][n + 1..];
    assert q[k][..n] + [q[k][n]] == q[k][..n + 1];
    assert q[Run] + q[k][..n] + [q[k][n]] == q[Run] + q[k][..n + 1];
  }

  // ---- sleepers

  /** A wake time is unsigned, and the timer is compared with it as an unsigned number. */
  predicate IsDue(waitTime: nat, timer: Int) {
    waitTime <= Unsigned(timer)
  }

  /** How many tasks at the head of the timer queue are due: the timer stops at the first that is not. */
  ghost function Due(tasks: map<TaskId, Task>, q: seq<TaskId>, now: Int): (n: nat)
    ensures n <= |q|
  {
    if q == [] || q[0] !in tasks || !IsDue(tasks[q[0]].waitTime, now) then 0 else 1 + Due(tasks, q[1..], now)
  }

  /** A sleeper is woken at a tick exactly when it and everyone ahead of it are due. */
  lemma {:induction false} WokenWhenAllDue(tasks: map<TaskId, Task>, q: seq<TaskId>, now: Int, i: nat)
    requires i < |q| && forall t :: t in q ==> t in tasks
    ensures i < Due(tasks, q, now) <==> forall j :: 0 <= j <= i ==> IsDue(tasks[q[j]].waitTime, now)
  {
    hide IsDue;
    if IsDue(tasks[q[0]].waitTime, now) && i > 0 {
      WokenWhenAllDue(tasks, q[1..], now, i - 1);
      assert forall j :: 0 < j <= i ==> q[j] == q[1..][j - 1];
    }
  }

  lemma DueStep(tasks: map<TaskId, Task>, q: seq<TaskId>, now: Int)
    requires q != [] && q[0] in tasks && IsDue(tasks[q[0]].waitTime, now)
    ensures Due(tasks, q, now) == 1 + Due(tasks, q[1..], now)
  {
  }

  /**
   * How many of the sleepers `q` have been woken `k` ticks after the timer showed `timer`; those who come later queue
   * up behind them.
   */
  ghost function Woken(tasks: map<TaskId, Task>, q: seq<TaskId>, timer: Int, k: nat): (n: nat)
    ensures n <= |q|
  {
    if k == 0 then 0
    else
      var n := Woken(tasks, q, timer, k - 1);
      n + Due(tasks, q[n..], Signed(timer + k))
  }

  /** Those who come later do not matter. */
  lemma {:induction false} DueBefore(tasks: map<TaskId, Task>, q: seq<TaskId>, more: seq<TaskId>, now: Int)
    ensures Due(tasks, q, now) == if Due(tasks, q + more, now) < |q| then Due(tasks, q + more, now) else |q|
  {
    hide IsDue;
    if q != [] {
      assert (q + more)[1..] == q[1..] + more;
      DueBefore(tasks, q[1..], more, now);
    }
  }

  /** The sleeper with this wake time is due at the `j`-th tick from `timer` on. */
  predicate DueAfter(waitTime: nat, timer: Int, j: nat) {
    IsDue(waitTime, Signed(timer + j))
  }

  /** A sleeper has been woken exactly when, at a tick at which it was due, the one ahead of it had been woken. */
  lemma {:induction false} WokenExactly(tasks: map<TaskId, Task>, q: seq<TaskId>, timer: Int, k: nat, i: nat)
    requires i < |q| && forall t :: t in q ==> t in tasks
    ensures i < Woken(tasks, q, timer, k) <==>
      exists j: nat :: 0 < j <= k && DueAfter(tasks[q[i]].waitTime, timer, j) && i <= Woken(tasks, q, timer, j)
    decreases k
  {
    hide IsDue, Due;
    if k > 0 {
      WokenExactly(tasks, q, timer, k - 1, i);
      var n := Woken(tasks, q, timer, k - 1);
      if n <= i {
        WokenNow(tasks, q, timer, k, i);
      }
    }
  }

  lemma WokenNow(tasks: map<TaskId, Task>, q: seq<TaskId>, timer: Int, k: nat, i: nat)
    requires i < |q| && forall t :: t in q ==> t in tasks
    requires 0 < k && Woken(tasks, q, timer, k - 1) <= i
    ensures i < Woken(tasks, q, timer, k) <==>
      DueAfter(tasks[q[i]].waitTime, timer, k) && i <= Woken(tasks, q, timer, k)
  {
    hide IsDue, Due;
    var n, now := Woken(tasks, q, timer, k - 1), Signed(timer + k);
    var rest := q[n..];
    assert forall t :: t in rest ==> t in q;
    WokenWhenAllDue(tasks, rest, now, i - n);
    assert rest[i - n] == q[i];
    if n < i {
      WokenWhenAllDue(tasks, rest, now, i - 1 - n);
    }
  }

  /** A sleeper that is never due holds up all behind it. */
  lemma HeldBehind(tasks: map<TaskId, Task>, q: seq<TaskId>, timer: Int, k: nat, i: nat)
    requires i < |q| && forall t :: t in q ==> t in tasks
    requires forall j: nat :: 0 < j <= k ==> !DueAfter(tasks[q[i]].waitTime, timer, j)
    ensures Woken(tasks, q, timer, k) <= i
  {
    hide Due, DueAfter;
    WokenExactly(tasks, q, timer, k, i);
  }

  ghost predicate SameTime(s: State, u: State, t: TaskId) {
    t in s.tasks && t in u.tasks && u.tasks[t].waitTime == s.tasks[t].waitTime
  }

  /** All but the first `n` sleepers still sleep, first in the queue, in order, and until the same time. */
  ghost predicate Asleep(s: State, u: State, n: nat) {
    && Timer in s.queues && Timer in u.queues && n <= |s.queues[Timer]| && s.queues[Timer][n..] <= u.queues[Timer]
    && (forall t :: t in s.queues[Timer][n..] ==> SameTime(s, u, t))
  }

  lemma AsleepStart(s: State)
    requires Timer in s.queues && forall t :: t in s.queues[Timer] ==> t in s.tasks
    ensures Asleep(s, s, 0)
  {
    assert s.queues[Timer][0..] == s.queues[Timer];
  }

  lemma AsleepTrans(s: State, u: State, v: State, n: nat)
    requires Asleep(s, u, n) && Asleep(u, v, 0)
    ensures Asleep(s, v, n)
  {
    var rest := s.queues[Timer][n..];
    assert u.queues[Timer][0..] == u.queues[Timer];
    forall t | t in rest ensures SameTime(s, v, t) {
      assert SameTime(s, u, t);
      var i :| 0 <= i < |rest| && rest[i] == t;
      assert u.queues[Timer][i] == t;
      assert SameTime(u, v, t);
    }
  }

  lemma AsleepFirst(s: State, u: State, n: nat)
    requires Asleep(s, u, n) && u.queues[Timer] == s.queues[Timer][n..] && u.queues[Timer] != []
    ensures SameTime(s, u, u.queues[Timer][0])
  {
  }

  /** One sleeper more goes. */
  lemma AsleepOneMore(s: State, u: State, v: State, n: nat)
    requires Asleep(s, u, n) && Asleep(u, v, 1) && n < |s.queues[Timer]|
    ensures Asleep(s, v, n + 1)
  {
    var rest := s.queues[Timer][n..];
    assert s.queues[Timer][n + 1..] == rest[1..];
    forall t | t in rest[1..] ensures SameTime(s, v, t) {
      var i :| 0 <= i < |rest[1..]| && rest[1..][i] == t;
      assert u.queues[Timer][1..][i] == t && t in rest;
      assert SameTime(s, u, t) && SameTime(u, v, t);
    }
  }

  /** A change of loose tasks, or of what is not a wake time, and of other queues, leaves the sleepers alone. */
  lemma AsleepStill(s: State, u: State, loose: set<TaskId>, idle: TaskId, live: int)
    requires Sound(s, loose, idle, live) && Timer in s.queues && Timer in u.queues && s.queues[Timer] <= u.queues[Timer]
    requires forall t :: t in s.tasks && t !in loose && s.tasks[t].flags == WAITING ==> SameTime(s, u, t)
    ensures Asleep(s, u, 0)
  {
    var q := s.queues[Timer];
    assert q[0..] == q;
    forall t | t in q ensures SameTime(s, u, t) {
      var i :| 0 <= i < |q| && q[i] == t;
      assert Waits(s, s.queues[Timer][i], Timer);
      assert HasPlace(s, t, loose);
    }
  }

  /** The first sleeper goes. */
  lemma AsleepLess(s: State, loose: set<TaskId>, idle: TaskId, live: int)
    requires Sound(s, loose, idle, live) && Timer in s.queues && s.queues[Timer] != []
    ensures Timer in Dequeued(s, Timer).queues && Asleep(s, Dequeued(s, Timer), 1)
  {
    var rest := s.queues[Timer][1..];
    forall t | t in rest ensures SameTime(s, Dequeued(s, Timer), t) {
      var i :| 0 <= i < |rest| && rest[i] == t;
      assert Waits(s, s.queues[Timer][i + 1], Timer);
    }
  }

  /** The state of the sleepers after a step, and whether that was a tick. */
  datatype Beat = Beat(s: State, timer: Int, tick: bool)

  ghost predicate Follows(a: Beat, b: Beat) {
    Timer in a.s.queues &&
    if b.tick then
      b.timer == Signed(a.timer + 1) && Asleep(a.s, b.s, Due(a.s.tasks, a.s.queues[Timer], b.timer))
    else b.timer == a.timer && Asleep(a.s, b.s, 0)
  }

  ghost predicate Beats(h: seq<Beat>) {
    h != [] && forall i {:trigger h[i].timer} :: 0 < i < |h| ==> Follows(h[i - 1], h[i])
  }

  ghost function TickCount(h: seq<Beat>): nat
    requires h != []
  {
    if |h| == 1 then 0 else TickCount(h[..|h| - 1]) + if h[|h| - 1].tick then 1 else 0
  }

  lemma DueSame(s: State, u: State, q: seq<TaskId>, now: Int)
    requires forall t :: t in q ==> SameTime(s, u, t)
    ensures Due(u.tasks, q, now) == Due(s.tasks, q, now)
    decreases |q|
  {
    hide IsDue;
    if q != [] {
      assert SameTime(s, u, q[0]);
      DueSame(s, u, q[1..], now);
    }
  }

  /**
   * Over every run, after so many ticks, the timer queue begins with those of its first sleepers that have not been
   * woken.
   */
  lemma {:induction false} RunWakes(h: seq<Beat>)
    requires Beats(h) && Timer in h[0].s.queues && forall t :: t in h[0].s.queues[Timer] ==> t in h[0].s.tasks
    ensures Asleep(h[0].s, h[|h| - 1].s, Woken(h[0].s.tasks, h[0].s.queues[Timer], h[0].timer, TickCount(h)))
    ensures h[|h| - 1].timer == Signed(h[0].timer + TickCount(h))
  {
    hide Asleep, Follows;
    var a := h[0];
    if |h| == 1 {
      AsleepStart(a.s);
    } else {
      var g := h[..|h| - 1];
      BeatsBefore(h);
      hide Beats;
      RunWakes(g);
      WakesNext(a, h[|h| - 2], h[|h| - 1], TickCount(g));
    }
  }

  lemma BeatsBefore(h: seq<Beat>)
    requires |h| > 1 && Beats(h)
    ensures h[..|h| - 1][0] == h[0] && Beats(h[..|h| - 1])
    ensures Follows(h[|h| - 2], h[|h| - 1])
    ensures h[..|h| - 1][|h| - 2] == h[|h| - 2]
  {
    hide Follows;
    var g := h[..|h| - 1];
    assert forall i :: 0 <= i < |g| ==> g[i] == h[i];
    assert forall i {:trigger g[i].timer} :: 0 < i < |g| ==> h[i].timer == g[i].timer && Follows(h[i - 1], h[i]);
    var l := |h| - 1;
    assert h[l].timer == h[l].timer && Follows(h[l - 1], h[l]);
  }

  lemma WakesNext(a: Beat, b: Beat, c: Beat, k: nat)
    requires Timer in a.s.queues && Follows(b, c) && b.timer == Signed(a.timer + k)
    requires Asleep(a.s, b.s, Woken(a.s.tasks, a.s.queues[Timer], a.timer, k))
    ensures var l := if c.tick then k + 1 else k;
            c.timer == Signed(a.timer + l) && Asleep(a.s, c.s, Woken(a.s.tasks, a.s.queues[Timer], a.timer, l))
  {
    hide Asleep, Due;
    var q := a.s.queues[Timer];
    var n := Woken(a.s.tasks, q, a.timer, k);
    if c.tick {
      SignedNext(a.timer, k);
      WakesDue(a.s, b.s, c.s, n, c.timer);
    } else {
      AsleepTrans(a.s, b.s, c.s, n);
    }
  }

  lemma SignedNext(timer: Int, k: nat)
    ensures Signed(Signed(timer + k) + 1) == Signed(timer + (k + 1))
  {
  }

  /** A tick takes those of the first sleepers that are due, and perhaps some that came later. */
  lemma WakesDue(s: State, u: State, v: State, n: nat, now: Int)
    requires Asleep(s, u, n) && Asleep(u, v, Due(u.tasks, u.queues[Timer], now))
    ensures n <= |s.queues[Timer]| && Asleep(s, v, n + Due(s.tasks, s.queues[Timer][n..], now))
  {
    hide Due;
    var rest, queue := s.queues[Timer][n..], u.queues[Timer];
    var more := queue[|rest|..];
    assert queue == rest + more;
    DueBefore(u.tasks, rest, more, now);
    DueSame(s, u, rest, now);
    var d := Due(s.tasks, rest, now);
    assert s.queues[Timer][n + d..] == rest[d..];
    forall t | t in rest[d..] ensures SameTime(s, v, t) {
      var i :| 0 <= i < |rest[d..]| && rest[d..][i] == t;
      assert t in rest && t == queue[d..][i];
      assert SameTime(s, u, t) && SameTime(u, v, t);
    }
  }

  // ---- the run queue is served in order

  /** What a step does to the run queue: it grows at the end, and a switch runs its first task. */
  ghost predicate InTurn(before: seq<TaskId>, after: seq<TaskId>, running: TaskId, switched: bool) {
    if switched && before != [] then before[1..] <= after && running == before[0]
    else before <= after
  }

  // ---- what a switch makes of the kernel

  function Flagged(s: State, t: TaskId, f: Flags): State
    requires t in s.tasks
  {
    s.(tasks := s.tasks[t := s.tasks[t].(flags := f)])
  }

  ghost predicate Ready(s: State, idle: TaskId) {
    idle in s.tasks && Run in s.queues && forall t :: t in s.queues[Run] ==> t in s.tasks
  }

  lemma SoundReady(s: State, loose: set<TaskId>, idle: TaskId, live: int)
    requires Sound(s, loose, idle, live)
    ensures Ready(s, idle)
  {
    hide Live;
  }

  /** The first of the run queue runs, or the idle task. */
  ghost function Dispatched(s: State, idle: TaskId): (State, TaskId)
    requires Ready(s, idle)
  {
    if s.queues[Run] == [] then (Flagged(s, idle, RUNNING), idle)
    else
      var t := s.queues[Run][0];
      (Flagged(Dequeued(s, Run), t, RUNNING), t)
  }

  ghost function Requeued(s: State, current: TaskId, idle: TaskId): (r: State)
    requires Ready(s, idle) && current in s.tasks
    ensures Ready(r, idle)
  {
    if s.tasks[current].flags == RUNNING && current != idle then Enqueued(s, Run, current, 0) else s
  }

  /** Who runs after a switch, and where everyone is. */
  ghost function Switched(s: State, current: TaskId, idle: TaskId): (State, TaskId)
    requires Ready(s, idle) && current in s.tasks
  {
    if s.queues[Run] == [] && s.tasks[current].flags == RUNNING then (s, current)
    else Dispatched(Requeued(s, current, idle), idle)
  }

  /**
   * Whose turn it is: the first of the run queue runs, and the task before goes to its end if it still runs.  With
   * nobody on the queue it runs on, or if it does not run any more, the idle task does.
   */
  ghost predicate Turned(queue: seq<TaskId>, before: TaskId, runs: bool, idle: TaskId, after: seq<TaskId>, now: TaskId)
  {
    if queue == [] then after == [] && now == if runs then before else idle
    else now == queue[0] && after == queue[1..] + if runs && before != idle then [before] else []
  }

  /** A switch gives the turn, touches nobody else, and nothing at all if the task before runs on. */
  lemma SwitchedExactly(s: State, current: TaskId, idle: TaskId)
    requires Ready(s, idle) && current in s.tasks
    ensures var (u, now) := Switched(s, current, idle);
            && Run in u.queues && now in u.tasks && u.tasks.Keys == s.tasks.Keys && u.queues.Keys == s.queues.Keys
            && Turned(s.queues[Run], current, s.tasks[current].flags == RUNNING, idle, u.queues[Run], now)
            && (s.queues[Run] == [] && s.tasks[current].flags == RUNNING ==> u == s && now == current)
            && (forall k :: k in s.queues && k != Run ==> u.queues[k] == s.queues[k])
            && (forall t :: t in s.tasks && t != now && (t != current || s.tasks[current].flags != RUNNING) ==>
                  u.tasks[t] == s.tasks[t])
            && (u != s ==> u.tasks[now].flags == RUNNING)
  {
  }

  lemma TurnedInTurn(queue: seq<TaskId>, before: TaskId, runs: bool, idle: TaskId, after: seq<TaskId>, now: TaskId)
    requires Turned(queue, before, runs, idle, after, now)
    ensures InTurn(queue, after, now, true)
  {
  }

  /** The idle task comes to run only if nobody else can. */
  lemma IdleLast(queue: seq<TaskId>, before: TaskId, runs: bool, idle: TaskId, after: seq<TaskId>)
    requires Turned(queue, before, runs, idle, after, idle) && idle !in queue
    ensures queue == [] && (before == idle || !runs)
  {
  }

  /** The run queue and the running task after a step, and whether the step was a switch. */
  datatype Moment = Moment(queue: seq<TaskId>, running: TaskId, switched: bool)

  ghost predicate History(h: seq<Moment>) {
    && h != []
    && (forall i {:trigger h[i].queue} :: 0 < i < |h| ==>
      InTurn(h[i - 1].queue, h[i].queue, h[i].running, h[i].switched))
  }

  ghost function Switches(h: seq<Moment>): nat
    requires h != []
  {
    if |h| == 1 then 0 else Switches(h[..|h| - 1]) + if h[|h| - 1].switched then 1 else 0
  }

  lemma HistoryBefore(h: seq<Moment>)
    requires |h| > 1 && History(h)
    ensures History(h[..|h| - 1]) && h[..|h| - 1][0] == h[0]
    ensures InTurn(h[|h| - 2].queue, h[|h| - 1].queue, h[|h| - 1].running, h[|h| - 1].switched)
  {
    hide InTurn;
    var g := h[..|h| - 1];
    assert forall i :: 0 <= i < |g| ==> g[i] == h[i];
    assert h[|h| - 1].queue == h[|h| - 1].queue;
  }

  /** A legal step makes a history longer, so that every run of the kernel has one. */
  lemma HistoryExtends(h: seq<Moment>, m: Moment)
    requires History(h) && InTurn(h[|h| - 1].queue, m.queue, m.running, m.switched)
    ensures History(h + [m]) && Switches(h + [m]) == Switches(h) + if m.switched then 1 else 0
  {
    hide InTurn;
    assert (h + [m])[..|h|] == h;
  }

  /** Until enough switches have happened, a task has only moved up. */
  lemma {:induction false} MovesUp(h: seq<Moment>, k: nat)
    requires h != [] && History(h) && k < |h[0].queue| && Switches(h) <= k
    ensures k - Switches(h) < |h[|h| - 1].queue| && h[|h| - 1].queue[k - Switches(h)] == h[0].queue[k]
  {
    hide History;
    if |h| > 1 {
      HistoryBefore(h);
      MovesUp(h[..|h| - 1], k);
    }
  }

  /** The task at position `k` of the run queue runs at the `k+1`-st switch. */
  lemma {:induction false} RunsInTurn(h: seq<Moment>, k: nat) returns (i: nat)
    requires h != [] && History(h) && k < |h[0].queue| && Switches(h) > k
    ensures 0 < i < |h| && h[i].switched && h[i].running == h[0].queue[k]
    ensures Switches(h[..i]) == k
  {
    hide History;
    var g := h[..|h| - 1];
    HistoryBefore(h);
    if Switches(g) > k {
      i := RunsInTurn(g, k);
      assert h[..i] == g[..i];
    } else {
      MovesUp(g, k);
      i := |h| - 1;
    }
  }

  /** Microseconds in ticks, in 32-bit arithmetic that rounds towards zero. */
  function Ticks(microseconds: Int): int {
    var n: int := Signed(microseconds + 2000);
    if n >= 0 then n / 3000 else -(-n / 3000)
  }

  /**
   * The time asked for is unsigned, and read as an int.  It is rounded to within a tick exactly when adding 2000 to
   * it does not overflow; else the ticks are negative, or none if it was almost 2^32.
   */
  lemma TicksExactly(microseconds: Int)
    ensures WithinTick(Ticks(microseconds), microseconds) <==> 0 <= microseconds < LIMIT - 2000
    ensures Ticks(microseconds) == 0 <==> -5000 < microseconds < 1000
    ensures Ticks(microseconds) > 0 <==> 1000 <= microseconds < LIMIT - 2000
    ensures -LIMIT < Ticks(microseconds) < LIMIT
  {
    var n: int := Signed(microseconds + 2000);
    assert n >= 0 ==> n / 3000 * 3000 <= n <= n / 3000 * 3000 + 2999;
  }

  /** So many ticks are the time asked for, up to the last 2 ms before or the first after. */
  predicate WithinTick(ticks: int, microseconds: Int) {
    ticks * 3000 - 2000 <= Unsigned(microseconds) <= ticks * 3000 + 999
  }

  // ---- when a sleeper is due

  /** The task `t` queues up for so many ticks. */
  function Dozing(s: State, t: TaskId, timer: Int, ticks: int): State
    requires t in s.tasks && Timer in s.queues
  {
    if ticks != 0 then Enqueued(s, Timer, t, Unsigned(timer + ticks)) else s
  }

  lemma DozingParts(s: State, t: TaskId, timer: Int, ticks: int)
    requires t in s.tasks && Timer in s.queues
    ensures var u := Dozing(s, t, timer, ticks);
            && u.tasks.Keys == s.tasks.Keys && u.queues.Keys == s.queues.Keys
            && (forall k :: k in s.queues && k != Timer ==> u.queues[k] == s.queues[k])
            && (forall x :: x in s.tasks && x != t ==> u.tasks[x] == s.tasks[x])
            && u.tasks[t].flags == (if ticks == 0 then s.tasks[t].flags else WAITING)
            && (ticks == 0 ==> u == s)
            && (ticks != 0 ==> u.queues[Timer] == s.queues[Timer] + [t] && u.tasks[t].waitingOn == Some(Timer))
            && (ticks != 0 ==> u.tasks[t].waitTime == Unsigned(timer + ticks))
  {
    hide Unsigned;
  }

  /** The first tick at which a sleeper for so many ticks is due. */
  function Delay(timer: Int, ticks: int): nat
    requires -LIMIT < ticks < LIMIT && ticks != 0
  {
    var now := Unsigned(timer);
    if ticks > 0 then (if now + ticks < WORD || now == WORD - 1 then ticks else 1)
    else (if now + ticks >= 0 && now < WORD - 1 then 1 else WORD + ticks)
  }

  lemma DueAfterExactly(waitTime: nat, timer: Int, j: nat)
    requires j <= WORD
    ensures var later := Unsigned(timer) + j;
            DueAfter(waitTime, timer, j) <==> waitTime <= if later < WORD then later else later - WORD
  {
    UnsignedSigned(timer + j);
  }

  /** It is the first. */
  lemma FirstDue(waitTime: nat, timer: Int, ticks: int)
    requires -LIMIT < ticks < LIMIT && ticks != 0 && waitTime == Unsigned(timer + ticks)
    ensures DueAfter(waitTime, timer, Delay(timer, ticks)) && Delay(timer, ticks) > 0
    ensures forall j: nat :: 0 < j < Delay(timer, ticks) ==> !DueAfter(waitTime, timer, j)
  {
    hide DueAfter;
    var now := Unsigned(timer);
    assert waitTime == (if now + ticks < 0 then now + ticks + WORD
      else if now + ticks < WORD then now + ticks else now + ticks - WORD);
    DueAfterExactly(waitTime, timer, Delay(timer, ticks));
    forall j: nat | 0 < j < Delay(timer, ticks) ensures !DueAfter(waitTime, timer, j) {
      DueAfterExactly(waitTime, timer, j);
    }
  }

  /** The sleeper asks for a time that is not rounded within a tick. */
  predicate Overlong(microseconds: Int) {
    microseconds <= -5000 || microseconds >= LIMIT - 2000
  }

  /**
   * A sleeper is due within a tick of the time it asked for exactly when adding 2000 to that does not overflow and
   * the timer does not pass 2^32 before.  Else it is due at the very next tick, or not for almost 2^32 ticks: for
   * an overlong time, the former exactly when the timer has already come as far as the ticks are negative.
   */
  lemma SleepExactly(timer: Int, microseconds: Int)
    requires Ticks(microseconds) != 0
    ensures -LIMIT < Ticks(microseconds) < LIMIT
    ensures var ticks, now := Ticks(microseconds), Unsigned(timer);
            var delay := Delay(timer, ticks);
            && (WithinTick(delay, microseconds) <==>
                 !Overlong(microseconds) && (now + ticks < WORD || now == WORD - 1))
            && (delay == 1 && !WithinTick(delay, microseconds) <==>
                 now < WORD - 1 && now + ticks >= if Overlong(microseconds) then 0 else WORD)
            && (delay == WORD + ticks <==>
                 Overlong(microseconds) && (now + ticks < 0 || now == WORD - 1))
  {
    hide Ticks;
    TicksExactly(microseconds);
    TicksBound(microseconds);
  }

  /** The sleeper at the head, which asked when the timer showed `timer`, is woken exactly after its delay. */
  lemma HeadWoken(tasks: map<TaskId, Task>, q: seq<TaskId>, timer: Int, ticks: int, k: nat)
    requires q != [] && forall t :: t in q ==> t in tasks
    requires -LIMIT < ticks < LIMIT && ticks != 0 && tasks[q[0]].waitTime == Unsigned(timer + ticks)
    ensures 0 < Woken(tasks, q, timer, k) <==> Delay(timer, ticks) <= k
  {
    hide Due, DueAfter, Delay, Unsigned;
    FirstDue(tasks[q[0]].waitTime, timer, ticks);
    WokenExactly(tasks, q, timer, k, 0);
  }

  /**
   * An instance: who sleeps for 2^31 - 1 microseconds when the timer shows 0 is not woken for 2^32 - 715827 ticks,
   * and neither is anyone behind it.
   */
  lemma SleepersHeld(tasks: map<TaskId, Task>, q: seq<TaskId>, k: nat)
    requires q != [] && forall t :: t in q ==> t in tasks
    requires tasks[q[0]].waitTime == Unsigned(0 + Ticks(0x7fff_ffff)) && k < WORD - 715827
    ensures Ticks(0x7fff_ffff) == -715827 && Woken(tasks, q, 0, k) == 0
  {
    HeadWoken(tasks, q, 0, -715827, k);
  }

  lemma TicksBound(microseconds: Int)
    ensures -716_000 < Ticks(microseconds) < 716_000
  {
  }

  class Kernel {
    var tasks: map<TaskId, Task>
    var queues: map<QueueId, seq<TaskId>>
    var current: TaskId
    var liveTasks: int
    var timer: Int
    var semCount: int // of the semaphore "death toll"
    var irqTasks: map<nat, TaskId>
    const idle: TaskId
    const reaper: TaskId

    /** The reaper is through the semaphore and has yet to take a dead task off its queue. */
    ghost var granted: bool

    ghost function View(): State
      reads this
    {
      State(tasks, queues)
    }

    ghost predicate Ok(loose: set<TaskId>, exhumed: int := 0)
      reads this
    {
      Sound(View(), loose, idle, liveTasks + exhumed)
    }

    /** The dead that nobody has been told of, or only the reaper that has yet to act. */
    ghost predicate Toll()
      reads this
      requires Reaper in queues && DeathToll in queues
    {
      && |queues[Reaper]| == (if semCount > 0 then semCount else 0) + (if granted then 1 else 0)
      && -1 <= semCount && (granted ==> 0 <= semCount)
      && queues[DeathToll] == (if semCount < 0 then [reaper] else [])
    }

    ghost predicate ReaperLives()
      reads this
    {
      reaper in tasks && reaper != idle && tasks[reaper].flags != DEAD
    }

    /** Between two steps: the running task and the idle one are on no queue, everyone else has his place. */
    ghost predicate Valid()
      reads this
    {
      && Ok({current, idle}) && current in tasks && tasks[current].flags == RUNNING
      && Reaper in queues && DeathToll in queues && Toll() && ReaperLives()
    }

    /** The interrupt's listener is gone: the source would look at its flags in freed memory. */
    ghost predicate Dangling(number: nat)
      reads this
    {
      number in irqTasks && irqTasks[number] !in tasks
    }

    /** Nothing but tasks' places and flags changes: the dead stay dead, and the reaper's queues stay. */
    twostate predicate Rearranged()
      reads this
    {
      && Reaper in queues && DeathToll in queues && Reaper in old(queues) && DeathToll in old(queues)
      && queues[Reaper] == old(queues[Reaper]) && queues[DeathToll] == old(queues[DeathToll])
      && queues.Keys == old(queues.Keys) && tasks.Keys == old(tasks.Keys)
      && (forall t {:trigger tasks[t]} :: t in tasks ==> (tasks[t].flags == DEAD <==> old(tasks)[t].flags == DEAD))
      && semCount == old(semCount) && granted == old(granted) && liveTasks == old(liveTasks)
    }

    /** A step that is legal in a history of the run queue. */
    twostate predicate Legal(switched: bool)
      reads this
    {
      Run in queues && Run in old(queues) && InTurn(old(queues)[Run], queues[Run], current, switched)
    }

    /** Only the reaper and the idle task, the reaper running. */
    constructor (idle: TaskId, reaper: TaskId)
      requires idle != reaper
      ensures Valid() && liveTasks == 1 && !granted && this.idle == idle && this.reaper == reaper
    {
      this.idle, this.reaper, current := idle, reaper, reaper;
      tasks := map[idle := Task(READY, None, 0, 0), reaper := Task(RUNNING, None, 0, 0)];
      queues := map[Run := [], Reaper := [], Timer := [], DeathToll := [], Of(idle) := [], Of(reaper) := []];
      liveTasks, timer, semCount, granted := 1, 0, 0, false;
      irqTasks := map[];
      new;
      assert Live(tasks, idle) == {reaper};
    }

    lemma KernelQueues(loose: set<TaskId>, exhumed: int := 0)
      requires Ok(loose, exhumed)
      ensures Run in queues && Reaper in queues && Timer in queues && DeathToll in queues
      ensures idle in tasks && tasks[idle].flags != DEAD && tasks[idle].flags != SLEEP_IRQ
    {
      hide Placed, Live;
    }

    method Enqueue(k: QueueId, t: TaskId, time: nat, ghost loose: set<TaskId>, ghost exhumed: int := 0)
      requires Ok(loose, exhumed) && t in loose && t in tasks && tasks[t].flags != DEAD && k in queues && k != Reaper
      modifies this`tasks, this`queues
      ensures View() == Enqueued(old(View()), k, t, time) && Ok(loose - {t}, exhumed)
      ensures Asleep(old(View()), View(), 0)
    {
      hide Sound, Asleep;
      KernelQueues(loose, exhumed);
      EnqueuedSound(View(), loose, idle, liveTasks + exhumed, k, t, time);
      tasks := tasks[t := tasks[t].(waitTime := time, flags := WAITING, waitingOn := Some(k))];
      queues := queues[k := queues[k] + [t]];
      AsleepStill(old(View()), View(), loose, idle, liveTasks + exhumed);
    }

    method Dequeue(k: QueueId, ghost loose: set<TaskId>, ghost exhumed: int := 0) returns (t: Option<TaskId>)
      requires Ok(loose, exhumed) && k in queues && k != Reaper
      modifies this`tasks, this`queues
      ensures t == None <==> old(queues[k]) == []
      ensures t == None ==> unchanged(this)
      ensures t.Some? ==>
        && t.value == old(queues[k][0]) && t.value in old(tasks) && t.value !in loose
        && View() == Dequeued(old(View()), k)
      ensures t.Some? ==> Ok(loose + {t.value}, exhumed) && old(tasks)[t.value].flags == WAITING
      ensures k != Timer ==> Asleep(old(View()), View(), 0)
      ensures t.Some? && k == Timer ==> Asleep(old(View()), View(), 1)
    {
      hide Sound, Asleep;
      KernelQueues(loose, exhumed);
      if queues[k] == [] {
        AsleepStill(View(), View(), loose, idle, liveTasks + exhumed);
        return None;
      }
      DequeuedSound(View(), loose, idle, liveTasks + exhumed, k);
      t := Some(queues[k][0]);
      tasks := tasks[t.value := tasks[t.value].(waitingOn := None, flags := READY)];
      queues := queues[k := queues[k][1..]];
      if k == Timer {
        AsleepLess(old(View()), loose, idle, liveTasks + exhumed);
      } else {
        AsleepStill(old(View()), View(), loose, idle, liveTasks + exhumed);
      }
    }

    /** The processor goes to `t`. */
    method Resume(t: TaskId)
      requires Ok({t, idle}) && t in tasks && tasks[t].flags != DEAD
      modifies this`tasks, this`current
      ensures Ok({current, idle}) && current == t && t in tasks
      ensures tasks == old(tasks)[t := old(tasks)[t].(flags := RUNNING)]
      ensures Asleep(old(View()), View(), 0)
    {
      hide Sound, Asleep;
      KernelQueues({t, idle});
      FlagSound(View(), {t, idle}, idle, liveTasks, t, RUNNING);
      current := t;
      tasks := tasks[t := tasks[t].(flags := RUNNING)];
      AsleepStill(old(View()), View(), {t, idle}, idle, liveTasks);
    }

    /** The running task, if it still runs and is not the idle one, goes to the end of the run queue. */
    method Requeue()
      requires current in tasks
      requires Ok(if tasks[current].flags == RUNNING then {current, idle} else {idle}) && Run in queues
      modifies this`tasks, this`queues
      ensures Ok({idle}) && tasks.Keys == old(tasks.Keys)
      ensures Ready(old(View()), idle) && View() == Requeued(old(View()), current, idle)
      ensures Asleep(old(View()), View(), 0)
    {
      hide Sound, Asleep;
      SoundReady(View(), if tasks[current].flags == RUNNING then {current, idle} else {idle}, idle, liveTasks);
      KernelQueues(if tasks[current].flags == RUNNING then {current, idle} else {idle});
      AsleepStill(View(), View(), if tasks[current].flags == RUNNING then {current, idle} else {idle}, idle, liveTasks);
      if tasks[current].flags == RUNNING {
        if current != idle {
          Enqueue(Run, current, 0, {current, idle});
          assert {current, idle} - {current} == {idle};
        } else {
          assert {current, idle} == {idle};
        }
      }
    }

    /** Run the first task of the run queue, or the idle task. */
    method Dispatch()
      requires Ok({idle}) && ReaperLives() && Run in queues
      modifies this`tasks, this`queues, this`current
      ensures Ok({current, idle}) && current in tasks && tasks[current].flags == RUNNING
      ensures Rearranged()
      ensures Run in queues
      ensures Ready(old(View()), idle) && (View(), current) == Dispatched(old(View()), idle)
      ensures Asleep(old(View()), View(), 0)
    {
      hide Sound, Asleep;
      SoundReady(View(), {idle}, idle, liveTasks);
      KernelQueues({idle});
      var next := Dequeue(Run, {idle});
      ghost var between := View();
      if next == None {
        SomeoneLives(View(), {idle}, idle, liveTasks, reaper);
        assert liveTasks != 0;
        assert {idle, idle} == {idle};
        Resume(idle);
      } else {
        assert {idle} + {next.value} == {next.value, idle};
        Resume(next.value);
      }
      AsleepTrans(old(View()), between, View(), 0);
    }

    /** Put the running task back if it still runs, and run the first of the run queue, or the idle task. */
    method Swtch()
      requires current in tasks && ReaperLives()
      requires Ok(if tasks[current].flags == RUNNING then {current, idle} else {idle})
      modifies this`tasks, this`queues, this`current
      ensures Ok({current, idle}) && current in tasks && tasks[current].flags == RUNNING
      ensures Rearranged()
      ensures Legal(true)
      ensures forall k {:trigger queues[k]} :: k in queues && k != Run ==> queues[k] == old(queues)[k]
      ensures Ready(old(View()), idle) && (View(), current) == Switched(old(View()), old(current), idle)
      ensures Asleep(old(View()), View(), 0)
      ensures Run in queues && Run in old(queues) &&
        Turned(old(queues)[Run], old(current), old(tasks)[old(current)].flags == RUNNING, idle, queues[Run], current)
      ensures old(queues)[Run] == [] && old(tasks)[old(current)].flags == RUNNING ==>
        View() == old(View()) && current == old(current)
      ensures forall t {:trigger tasks[t]} ::
        (t in tasks && t != current && (t != old(current) || old(tasks)[t].flags != RUNNING)) ==>
          tasks[t] == old(tasks)[t]
    {
      hide Sound, InTurn, Asleep, Turned, Switched;
      SoundReady(View(), if tasks[current].flags == RUNNING then {current, idle} else {idle}, idle, liveTasks);
      KernelQueues(if tasks[current].flags == RUNNING then {current, idle} else {idle});
      SwitchedExactly(View(), current, idle);
      if queues[Run] == [] && tasks[current].flags == RUNNING {
        AsleepStill(View(), View(), {current, idle}, idle, liveTasks);
      } else {
        Exchange();
      }
      TurnedInTurn(old(queues)[Run], old(current), old(tasks)[old(current)].flags == RUNNING, idle, queues[Run],
                   current);
    }

    /** The slow path: the running task goes to the end of the run queue, if it still runs, and the first one runs. */
    method Exchange()
      requires current in tasks && ReaperLives() && Run in queues
      requires Ok(if tasks[current].flags == RUNNING then {current, idle} else {idle})
      requires queues[Run] != [] || tasks[current].flags != RUNNING
      modifies this`tasks, this`queues, this`current
      ensures Ok({current, idle}) && current in tasks && tasks[current].flags == RUNNING
      ensures Rearranged()
      ensures Ready(old(View()), idle) && (View(), current) == Switched(old(View()), old(current), idle)
      ensures Asleep(old(View()), View(), 0)
    {
      hide Sound, Asleep;
      Requeue();
      ghost var between := View();
      Dispatch();
      AsleepTrans(old(View()), between, View(), 0);
    }

    /** Let the first task that waits on `k`, if any, run when its turn comes. */
    method WakeHead(k: QueueId, ghost loose: set<TaskId>, ghost exhumed: int) returns (woke: bool)
      requires Ok(loose, exhumed) && k in queues && (k.Rsrc? || k.Of? || k == Timer)
      modifies this`tasks, this`queues
      ensures Ok(loose, exhumed) && Rearranged()
      ensures woke <==> old(queues[k]) != []
      ensures !woke ==> unchanged(this)
      ensures Run in old(queues)
      ensures woke ==> queues == old(queues)[k := old(queues[k])[1..]][Run := old(queues)[Run] + [old(queues[k])[0]]]
      ensures forall t {:trigger tasks[t]} :: t in loose && t in tasks ==> tasks[t] == old(tasks)[t]
      ensures woke ==> forall t {:trigger tasks[t]} :: t in tasks && t != old(queues[k])[0] ==>
        tasks[t] == old(tasks)[t]
      ensures k != Timer ==> Asleep(old(View()), View(), 0)
      ensures woke && k == Timer ==> Asleep(old(View()), View(), 1)
    {
      hide Sound, Asleep;
      KernelQueues(loose, exhumed);
      var t := Dequeue(k, loose, exhumed);
      woke := t.Some?;
      if woke {
        ghost var between := View();
        Enqueue(Run, t.value, 0, loose + {t.value}, exhumed);
        AsleepTrans(old(View()), between, View(), if k == Timer then 1 else 0);
        assert loose + {t.value} - {t.value} == loose;
      }
    }

    /** The same as a step of its own. */
    method Wake(k: QueueId)
      requires Valid() && k in queues && (k.Rsrc? || k.Of?)
      modifies this`tasks, this`queues
      ensures Valid() && Rearranged()
      ensures Legal(false)
      ensures if old(queues[k]) == [] then unchanged(this)
              else queues == old(queues)[k := old(queues[k])[1..]][Run := old(queues)[Run] + [old(queues[k])[0]]]
      ensures Asleep(old(View()), View(), 0)
    {
      hide Sound, Asleep;
      KernelQueues({current, idle});
      var woke := WakeHead(k, {current, idle}, 0);
    }

    /** Let every task that waits on `k` run when its turn comes, longest waiting first. */
    method WakeAll(k: QueueId, ghost loose: set<TaskId>, ghost exhumed: int)
      requires Ok(loose, exhumed) && k in queues && (k.Rsrc? || k.Of?)
      modifies this`tasks, this`queues
      ensures Ok(loose, exhumed) && Rearranged()
      ensures Run in old(queues) && queues == old(queues)[k := []][Run := old(queues)[Run] + old(queues[k])]
      ensures forall t {:trigger tasks[t]} :: t in loose && t in tasks ==> tasks[t] == old(tasks)[t]
      ensures Asleep(old(View()), View(), 0)
    {
      hide Sound, Asleep, Moved, Queued;
      KernelQueues(loose, exhumed);
      ghost var n := 0;
      ghost var before := queues;
      NoneMoved(before, k);
      AsleepStill(View(), View(), loose, idle, liveTasks + exhumed);
      while queues[k] != []
        invariant Ok(loose, exhumed) && Rearranged() && k in queues
        invariant 0 <= n <= |before[k]| && queues[k] == before[k][n..]
        invariant queues == Moved(before, k, n) && Asleep(old(View()), View(), 0)
        invariant forall t {:trigger tasks[t]} :: t in loose && t in tasks ==> tasks[t] == old(tasks)[t]
        decreases |before[k]| - n
      {
        OneMoved(before, k, n);
        ghost var between := View();
        var woke := WakeHead(k, loose, exhumed);
        AsleepTrans(old(View()), between, View(), 0);
        n := n + 1;
        MovedAt(before, k, n);
      }
      AllMoved(before, k);
    }

    /** A switch by a task that has left the processor and the run queue: it does not run next, and stays as it is. */
    method GiveUp(ghost s: State)
      requires current in tasks && ReaperLives() && current != idle && Ok({idle}) && Asleep(s, View(), 0)
      requires tasks[current].flags != RUNNING && tasks[current].waitingOn != Some(Run)
      modifies this`tasks, this`queues, this`current
      ensures Ok({current, idle}) && current in tasks && tasks[current].flags == RUNNING && Rearranged() && Legal(true)
      ensures forall k {:trigger queues[k]} :: k in queues && k != Run ==> queues[k] == old(queues)[k]
      ensures Ready(old(View()), idle) && (View(), current) == Switched(old(View()), old(current), idle)
      ensures Run in queues && Run in old(queues)
        && Turned(old(queues)[Run], old(current), false, idle, queues[Run], current)
      ensures old(current) in tasks && old(current) != current && tasks[old(current)] == old(tasks)[old(current)]
      ensures Asleep(s, View(), 0)
    {
      hide Sound, InTurn, Asleep, Switched, Ready;
      KernelQueues({idle});
      NotOnRun(View(), {idle}, idle, liveTasks, current);
      ghost var u := View();
      Swtch();
      AsleepTrans(s, u, View(), 0);
    }

    /** Wait for a resource. */
    method WaitOn(k: QueueId)
      requires Valid() && current != idle && k in queues && (k.Rsrc? || k.Of?)
      modifies this`tasks, this`queues, this`current
      ensures Valid() && Rearranged()
      ensures var s := Enqueued(old(View()), k, old(current), 0);
              Ready(s, idle) && (View(), current) == Switched(s, old(current), idle)
      ensures Legal(true)
      ensures Asleep(old(View()), View(), 0)
      ensures Run in queues && Run in old(queues) &&
        Turned(old(queues)[Run], old(current), false, idle, queues[Run], current)
      ensures k in queues && queues[k] == old(queues)[k] + [old(current)]
      ensures forall l :: l in queues && l != Run && l != k ==> queues[l] == old(queues)[l]
    {
      hide Sound, InTurn, Switched, Ready, Asleep, Turned;
      KernelQueues({current, idle});
      Enqueue(k, current, 0, {current, idle});
      assert {current, idle} - {current} == {idle};
      GiveUp(old(View()));
    }

    /** Control goes straight to `t`, which the kernel has in hand; the running task queues up. */
    method Preempt(t: TaskId)
      requires Ok({current, idle, t}) && t in tasks && tasks[t].flags != DEAD && t != current && t != idle
      requires current in tasks && tasks[current].flags == RUNNING
      modifies this`tasks, this`queues, this`current
      ensures Ok({current, idle}) && current == t && t in tasks && tasks[t].flags == RUNNING
      ensures Rearranged()
      ensures Run in old(queues)
      ensures queues == old(queues)[Run := old(queues)[Run] + if old(current) != idle then [old(current)] else []]
      ensures Asleep(old(View()), View(), 0)
    {
      hide Sound, Asleep;
      KernelQueues({current, idle, t});
      if current != idle {
        assert {current, idle, t} - {current} == {t, idle};
        Enqueue(Run, current, 0, {current, idle, t});
      } else {
        assert {current, idle, t} == {t, idle};
        AsleepStill(View(), View(), {current, idle, t}, idle, liveTasks);
        assert queues[Run] + [] == queues[Run];
      }
      ghost var between := View();
      Resume(t);
      AsleepTrans(old(View()), between, View(), 0);
    }

    /** Releasing a semaphore: the longest waiting task runs at once. */
    method Release(k: QueueId)
      requires Valid() && k in queues && (k.Rsrc? || k.Of?)
      modifies this`tasks, this`queues, this`current
      ensures Valid()
      ensures old(queues[k]) == [] ==> unchanged(this)
      ensures Run in old(queues)
      ensures old(queues[k]) != [] ==>
        && current == old(queues[k])[0]
        && queues == old(queues)[k := old(queues[k])[1..]][Run := old(queues)[Run] + if old(current) != idle
          then [old(current)] else []]
      ensures Legal(false)
      ensures Asleep(old(View()), View(), 0)
    {
      hide Sound, Asleep;
      KernelQueues({current, idle});
      var t := Dequeue(k, {current, idle});
      if t.Some? {
        assert {current, idle} + {t.value} == {current, idle, t.value};
        ghost var between := View();
        Preempt(t.value);
        AsleepTrans(old(View()), between, View(), 0);
      }
    }

    /** An interrupt: a task asleep until just that interrupt runs at once.  A listener that is gone is let be. */
    method IrqDispatch(number: nat)
      requires Valid()
      modifies this`tasks, this`queues, this`current
      ensures Valid() && Rearranged()
      ensures if number in irqTasks && irqTasks[number] in old(tasks) && old(tasks)[irqTasks[number]].flags == SLEEP_IRQ
              then
                && current == irqTasks[number] && Run in old(queues)
                && queues == old(queues)[Run := old(queues)[Run] + if old(current) != idle then [old(current)] else []]
              else unchanged(this)
      ensures Legal(false)
      ensures Asleep(old(View()), View(), 0)
    {
      hide Sound, Asleep;
      KernelQueues({current, idle});
      AsleepStill(View(), View(), {current, idle}, idle, liveTasks);
      if number in irqTasks && irqTasks[number] in tasks {
        var t := irqTasks[number];
        if tasks[t].flags == SLEEP_IRQ {
          PickedUpSound(View(), {current, idle}, idle, liveTasks, t);
          assert {current, idle} + {t} == {current, idle, t};
          Preempt(t);
        }
      }
    }

    /** Listening to interrupts 1 to 15. */
    method HandleIrq(number: nat)
      requires Valid()
      modifies this`tasks, this`irqTasks
      ensures Valid()
      ensures 0 < number < 16 ==> irqTasks == old(irqTasks)[number := current] && tasks[current].irq == number
      ensures !(0 < number < 16) ==> unchanged(this)
      ensures Legal(false)
      ensures Asleep(old(View()), View(), 0)
    {
      hide Sound, Asleep;
      KernelQueues({current, idle});
      if 0 < number < 16 {
        IrqSound(View(), {current, idle}, idle, liveTasks, current, number);
        tasks := tasks[current := tasks[current].(irq := number)];
        irqTasks := irqTasks[number := current];
      }
      AsleepStill(old(View()), View(), {current, idle}, idle, liveTasks);
    }

    /** Sleep until the interrupt the task listens to; without one, only yield. */
    method SleepIrq()
      requires Valid() && current != idle
      modifies this`tasks, this`queues, this`current
      ensures Valid() && Rearranged()
      ensures var s := if old(tasks[current].irq) != 0 then Flagged(old(View()), old(current), SLEEP_IRQ)
        else old(View());
              Ready(s, idle) && (View(), current) == Switched(s, old(current), idle)
      ensures Legal(true)
      ensures Asleep(old(View()), View(), 0)
      ensures Run in queues && Run in old(queues) &&
        Turned(old(queues)[Run], old(current), old(tasks[current].irq) == 0, idle, queues[Run], current)
      ensures old(tasks[current].irq) == 0 && old(queues)[Run] == [] ==>
        View() == old(View()) && current == old(current)
      ensures old(tasks[current].irq) != 0 ==> old(current) in tasks && tasks[old(current)].flags == SLEEP_IRQ
      ensures forall k :: k in queues && k != Run ==> queues[k] == old(queues)[k]
    {
      hide Sound, InTurn, Switched, Ready, Asleep, Turned;
      KernelQueues({current, idle});
      AsleepStill(View(), View(), {current, idle}, idle, liveTasks);
      if tasks[current].irq == 0 {
        Swtch();
        return;
      }
      Drowse();
      GiveUp(old(View()));
    }

    /** The running task sleeps until its interrupt. */
    method Drowse()
      requires Valid() && current != idle
      modifies this`tasks
      ensures Ok({idle}) && current in tasks && View() == Flagged(old(View()), current, SLEEP_IRQ)
      ensures tasks[current].waitingOn == None && Asleep(old(View()), View(), 0)
    {
      hide Sound, Asleep;
      KernelQueues({current, idle});
      FlagSound(View(), {current, idle}, idle, liveTasks, current, SLEEP_IRQ);
      InHand(View(), {current, idle}, idle, liveTasks, current);
      assert {current, idle} - {current} == {idle};
      tasks := tasks[current := tasks[current].(flags := SLEEP_IRQ)];
      AsleepStill(old(View()), View(), {current, idle}, idle, liveTasks);
    }

    /** Sleep for a time given in microseconds, in ticks of 3 ms; short times only yield. */
    method Sleep(microseconds: Int)
      requires Valid() && current != idle
      modifies this`tasks, this`queues, this`current
      ensures Valid() && Rearranged()
      ensures Timer in old(queues)
      ensures var ticks := Ticks(microseconds);
              var s := Dozing(old(View()), old(current), timer, ticks);
              Ready(s, idle) && (View(), current) == Switched(s, old(current), idle)
      ensures Legal(true)
      ensures Asleep(old(View()), View(), 0)
      ensures Run in queues && Run in old(queues) &&
        Turned(old(queues)[Run], old(current), Ticks(microseconds) == 0, idle, queues[Run], current)
      ensures Ticks(microseconds) == 0 && old(queues)[Run] == [] ==> View() == old(View()) && current == old(current)
      ensures Ticks(microseconds) != 0 ==>
        (Timer in queues && queues[Timer] == old(queues)[Timer] + [old(current)]
         && old(current) in tasks && tasks[old(current)].flags == WAITING
         && tasks[old(current)].waitTime == Unsigned(timer + Ticks(microseconds)))
      ensures forall k :: k in queues && k != Run && k != Timer ==> queues[k] == old(queues)[k]
      ensures Ticks(microseconds) == 0 ==> queues[Timer] == old(queues)[Timer]
    {
      hide Sound, InTurn, Switched, Ready, Ticks, Unsigned, Asleep, Dozing, Turned;
      KernelQueues({current, idle});
      AsleepStill(View(), View(), {current, idle}, idle, liveTasks);
      DozingParts(View(), current, timer, Ticks(microseconds));
      if Ticks(microseconds) == 0 {
        Swtch();
      } else {
        SleepFor(Ticks(microseconds));
      }
    }

    /** Queue up with the other sleepers, and switch. */
    method SleepFor(ticks: int)
      requires Valid() && current != idle && Timer in queues && ticks != 0
      modifies this`tasks, this`queues, this`current
      ensures Valid() && Rearranged() && Legal(true)
      ensures var s := Dozing(old(View()), old(current), timer, ticks);
              Ready(s, idle) && (View(), current) == Switched(s, old(current), idle)
      ensures Run in queues && Run in old(queues)
        && Turned(old(queues)[Run], old(current), false, idle, queues[Run], current)
      ensures Timer in queues && queues[Timer] == old(queues)[Timer] + [old(current)]
      ensures old(current) in tasks && tasks[old(current)].flags == WAITING
      ensures tasks[old(current)].waitTime == Unsigned(timer + ticks)
      ensures forall k :: k in queues && k != Run && k != Timer ==> queues[k] == old(queues)[k]
      ensures Asleep(old(View()), View(), 0)
    {
      hide Sound, InTurn, Switched, Ready, Unsigned, Asleep, Dozing, Turned;
      KernelQueues({current, idle});
      DozingParts(View(), current, timer, ticks);
      Doze(ticks);
      GiveUp(old(View()));
    }

    /** Queue up with the other sleepers for so many ticks, if there are any. */
    method Doze(ticks: int)
      requires Ok({current, idle}) && current in tasks && tasks[current].flags == RUNNING && current != idle
      requires Timer in queues
      modifies this`tasks, this`queues
      ensures View() == Dozing(old(View()), current, timer, ticks)
      ensures current in tasks && Ok(if tasks[current].flags == RUNNING then {current, idle} else {idle})
      ensures Asleep(old(View()), View(), 0)
    {
      hide Sound, Unsigned, Asleep;
      KernelQueues({current, idle});
      AsleepStill(View(), View(), {current, idle}, idle, liveTasks);
      if ticks != 0 {
        Enqueue(Timer, current, Unsigned(timer + ticks), {current, idle});
        assert {current, idle} - {current} == {idle};
      }
    }

    /** Let the first sleeper run; the others are untouched. */
    method WakeSleeper()
      requires Ok({current, idle}) && Timer in queues && queues[Timer] != [] && current in tasks
      modifies this`tasks, this`queues
      ensures Ok({current, idle}) && Rearranged() && tasks[current] == old(tasks)[current]
      ensures Run in old(queues)
      ensures queues == old(queues)[Timer := old(queues[Timer])[1..]][Run := old(queues)[Run] + [old(queues[Timer])[0]]]
      ensures Asleep(old(View()), View(), 1)
    {
      hide Sound, Asleep;
      var woke := WakeHead(Timer, {current, idle}, 0);
    }

    /** Let the sleeper run that is next after the first `n` of `s`. */
    method WakeDue(ghost s: State, ghost n: nat)
      requires Ok({current, idle}) && current in tasks && Timer in queues && queues[Timer] != []
      requires Run in s.queues && Timer in s.queues && n <= |s.queues[Timer]| && queues[Timer] == s.queues[Timer][n..]
      requires queues == Moved(s.queues, Timer, n) && Asleep(s, View(), n)
      modifies this`tasks, this`queues
      ensures Ok({current, idle}) && Rearranged() && tasks[current] == old(tasks)[current]
      ensures n < |s.queues[Timer]| && queues == Moved(s.queues, Timer, n + 1) && Asleep(s, View(), n + 1)
      ensures Timer in queues && queues[Timer] == s.queues[Timer][n + 1..]
    {
      hide Sound, Moved, Asleep, Waits;
      OneMoved(s.queues, Timer, n);
      ghost var between := View();
      WakeSleeper();
      AsleepOneMore(s, between, View(), n);
      MovedAt(s.queues, Timer, n + 1);
    }

    /** Take the due tasks at the head of the timer queue. */
    method WakeSleepers()
      requires Valid()
      modifies this`tasks, this`queues
      ensures Valid() && Rearranged()
      ensures Run in old(queues) && Timer in old(queues)
      ensures queues == Moved(old(queues), Timer, Due(old(tasks), old(queues)[Timer], timer))
      ensures Asleep(old(View()), View(), Due(old(tasks), old(queues)[Timer], timer))
      ensures Due(old(tasks), old(queues)[Timer], timer) == 0 ==> View() == old(View())
      ensures current in tasks && tasks[current] == old(tasks)[current]
    {
      hide Sound, Due, Moved, Asleep, Waits, IsDue, HasPlace, Placed;
      KernelQueues({current, idle});
      ghost var before, tasks0 := queues, tasks;
      NoneMoved(before, Timer);
      assert before[Timer][0..] == before[Timer];
      AsleepStill(View(), View(), {current, idle}, idle, liveTasks);
      ghost var n := 0;
      while queues[Timer] != []
        invariant Ok({current, idle}) && Rearranged() && current in tasks && tasks[current] == tasks0[current]
        invariant n <= |before[Timer]| && queues == Moved(before, Timer, n) && Asleep(old(View()), View(), n)
        invariant Timer in queues && queues[Timer] == before[Timer][n..]
        invariant n == 0 ==> queues == before && tasks == tasks0
        invariant Due(tasks0, before[Timer], timer) == n + Due(tasks0, queues[Timer], timer)
        decreases |before[Timer]| - n
      {
        AsleepFirst(old(View()), View(), n);
        if !IsDue(tasks[queues[Timer][0]].waitTime, timer) {
          DueStop(tasks0, queues[Timer], timer);
          return;
        }
        DueStep(tasks0, queues[Timer], timer);
        WakeDue(old(View()), n);
        n := n + 1;
      }
      DueStop(tasks0, queues[Timer], timer);
    }

    /** The timer interrupt. */
    method TimerIrq()
      requires Valid()
      modifies this`tasks, this`queues, this`current, this`timer
      ensures Valid() && timer == Signed(old(timer) + 1)
      ensures Timer in old(queues) && Timer in queues
      ensures queues[Timer] == old(queues)[Timer][Due(old(tasks), old(queues)[Timer], timer)..]
      ensures var due := old(queues)[Timer][..Due(old(tasks), old(queues)[Timer], timer)];
              Legal(true) && InTurn(old(queues)[Run] + due, queues[Run], current, true)
      ensures Asleep(old(View()), View(), Due(old(tasks), old(queues)[Timer], timer))
      ensures var due := old(queues)[Timer][..Due(old(tasks), old(queues)[Timer], timer)];
              Run in queues && Run in old(queues)
              && Turned(old(queues)[Run] + due, old(current), true, idle, queues[Run], current)
              && (due == [] && old(queues)[Run] == [] ==> View() == old(View()) && current == old(current))
    {
      hide Sound, InTurn, Due, Switched, Ready, Asleep, Turned, Moved;
      timer := Signed(timer + 1);
      WakeSleepers();
      ghost var n := Due(old(tasks), old(queues)[Timer], timer);
      MovedAt(old(queues), Timer, n);
      ghost var between, woken := queues, View();
      Swtch();
      TurnLonger(old(queues)[Run], between[Run], queues[Run], current);
      AsleepTrans(old(View()), woken, View(), n);
    }

    /** The running task dies: the reaper is told, and those waiting for the task are let run. */
    method Terminate()
      requires Valid() && current != idle && current != reaper
      modifies this`tasks, this`queues, this`current, this`liveTasks, this`semCount, this`granted
      ensures Valid() && liveTasks == old(liveTasks) - 1
      ensures old(current) in tasks && tasks[old(current)].flags == DEAD && current != old(current)
      ensures Reaper in queues && Reaper in old(queues) && queues[Reaper] == old(queues)[Reaper] + [old(current)]
      ensures Of(old(current)) in queues && Of(old(current)) in old(queues) && queues[Of(old(current))] == []
      ensures Legal(true) && InTurn(old(queues)[Run] + old(queues)[Of(old(current))], queues[Run], current, true)
      ensures Asleep(old(View()), View(), 0)
      ensures Run in queues && Run in old(queues) &&
        Turned(old(queues)[Run] + old(queues)[Of(old(current))] + if old(semCount) < 0 then [reaper] else [],
               old(current), false, idle, queues[Run], current)
    {
      hide Sound, InTurn, Switched, Ready, Asleep, Turned;
      KernelQueues({current, idle});
      var t := current;
      OwnQueue(View(), {current, idle}, idle, liveTasks, t);
      liveTasks := liveTasks - 1;
      Die(t);
      ghost var longer, told := queues[Run], View();
      Swtch();
      AsleepTrans(old(View()), told, View(), 0);
      TurnLonger(old(queues)[Run] + old(queues)[Of(t)], longer, queues[Run], current);
      TurnLonger(old(queues)[Run], longer, queues[Run], current);
    }

    /** The dying task joins the reaper's queue, those who wait for it are let run, and the reaper is told. */
    method Die(t: TaskId)
      requires t in tasks && t != idle && t != reaper && tasks[t].flags != DEAD && Ok({t, idle}, 1)
      requires ReaperLives() && Reaper in queues && DeathToll in queues && Toll()
      modifies this`tasks, this`queues, this`semCount, this`granted
      ensures Ok({idle}) && ReaperLives() && Reaper in queues && DeathToll in queues && Toll()
      ensures t in tasks && tasks[t].flags == DEAD
      ensures queues[Reaper] == old(queues)[Reaper] + [t]
      ensures Of(t) in queues && Of(t) in old(queues) && queues[Of(t)] == []
      ensures Run in queues && Run in old(queues) && queues[Run] ==
        old(queues)[Run] + old(queues)[Of(t)] + if old(semCount) < 0 then [reaper] else []
      ensures Asleep(old(View()), View(), 0)
    {
      hide Sound, Asleep;
      KernelQueues({t, idle}, 1);
      BuryAndWake(t);
      ghost var buried := View();
      WakeTheReaper();
      AsleepTrans(old(View()), buried, View(), 0);
    }

    /** The dying task joins the reaper's queue. */
    method Bury(t: TaskId)
      requires t in tasks && t != idle && tasks[t].flags != DEAD && Ok({t, idle}, 1)
      modifies this`tasks, this`queues
      ensures Ok({idle}) && t in tasks && tasks[t].flags == DEAD
      ensures View() == Enqueued(old(View()), Reaper, t, 0)
      ensures Asleep(old(View()), View(), 0)
    {
      hide Sound, Asleep;
      KernelQueues({t, idle}, 1);
      BuriedSound(View(), {t, idle}, idle, liveTasks + 1, t);
      assert {t, idle} - {t} == {idle};
      tasks := tasks[t := tasks[t].(waitTime := 0, flags := WAITING, waitingOn := Some(Reaper))];
      queues := queues[Reaper := queues[Reaper] + [t]];
      tasks := tasks[t := tasks[t].(flags := DEAD)];
      assert View() == Enqueued(old(View()), Reaper, t, 0);
      AsleepStill(old(View()), View(), {t, idle}, idle, liveTasks + 1);
    }

    /** The same, and those who wait for the task are let run. */
    method BuryAndWake(t: TaskId)
      requires t in tasks && t != idle && tasks[t].flags != DEAD && Ok({t, idle}, 1)
      requires ReaperLives() && t != reaper
      modifies this`tasks, this`queues
      ensures Ok({idle}) && ReaperLives() && t in tasks && tasks[t].flags == DEAD
      ensures tasks.Keys == old(tasks.Keys)
      ensures Reaper in queues && Reaper in old(queues) && queues[Reaper] == old(queues)[Reaper] + [t]
      ensures DeathToll in queues && DeathToll in old(queues) && queues[DeathToll] == old(queues)[DeathToll]
      ensures Of(t) in queues && Of(t) in old(queues) && queues[Of(t)] == []
      ensures Run in queues && Run in old(queues) && queues[Run] == old(queues)[Run] + old(queues)[Of(t)]
      ensures Asleep(old(View()), View(), 0)
    {
      hide Sound, Asleep;
      KernelQueues({t, idle}, 1);
      OwnQueue(View(), {t, idle}, idle, liveTasks + 1, t);
      Bury(t);
      OwnQueue(View(), {idle}, idle, liveTasks, t);
      ghost var between := View();
      WakeAll(Of(t), {idle}, 0);
      AsleepTrans(old(View()), between, View(), 0);
    }

    /** Release the semaphore without giving up the processor. */
    method WakeTheReaper()
      requires Ok({idle}) && ReaperLives() && Reaper in queues && DeathToll in queues
      requires -1 <= semCount && queues[DeathToll] == (if semCount < 0 then [reaper] else [])
        && (granted ==> 0 <= semCount)
      requires |queues[Reaper]| == (if semCount > 0 then semCount else 0) + (if granted then 1 else 0) + 1
      modifies this`tasks, this`queues, this`semCount, this`granted
      ensures Ok({idle}) && ReaperLives() && Reaper in queues && DeathToll in queues && Toll()
      ensures queues[Reaper] == old(queues[Reaper]) && tasks.Keys == old(tasks.Keys)
      ensures Run in old(queues) && queues == if old(semCount) >= 0 then old(queues)
                else old(queues)[DeathToll := []][Run := old(queues)[Run] + [reaper]]
      ensures forall t :: t in tasks && t != reaper ==> tasks[t] == old(tasks)[t]
      ensures Asleep(old(View()), View(), 0)
    {
      hide Sound, Asleep;
      KernelQueues({idle});
      semCount := semCount + 1;
      var task := Dequeue(DeathToll, {idle});
      ghost var between := View();
      if task != None {
        Enqueue(Run, task.value, 0, {idle} + {task.value});
        assert {idle} + {task.value} - {task.value} == {idle};
        AsleepTrans(old(View()), between, View(), 0);
        granted := true;
      }
    }

    /** The reaper acquires the semaphore, or waits for the next death. */
    method ReaperAcquire()
      requires Valid() && current == reaper && !granted
      modifies this`tasks, this`queues, this`current, this`semCount, this`granted
      ensures Valid() && (granted <==> old(semCount) > 0)
      ensures granted ==> current == reaper && tasks == old(tasks) && queues == old(queues)
      ensures Legal(!granted)
      ensures Asleep(old(View()), View(), 0)
      ensures !granted ==>
        (Run in queues && Run in old(queues)
         && Turned(old(queues)[Run], old(current), false, idle, queues[Run], current))
    {
      hide Sound, InTurn, Switched, Ready, Asleep, Turned;
      KernelQueues({current, idle});
      if queues[DeathToll] != [] {
        HeadElsewhere(View(), {current, idle}, idle, liveTasks, DeathToll);
      }
      if semCount > 0 {
        semCount := semCount - 1;
        AsleepStill(View(), View(), {current, idle}, idle, liveTasks);
        TurnStays(queues[Run], current);
        granted := true;
      } else {
        semCount := semCount - 1;
        Enqueue(DeathToll, current, 0, {current, idle});
        assert {current, idle} - {current} == {idle};
        ghost var between := View();
        Swtch();
        AsleepTrans(old(View()), between, View(), 0);
      }
    }

    /**
     * The reaper, through the semaphore, takes one dead task and destroys it: there is one, and it
     * is not the reaper itself.
     */
    method Reap() returns (task: TaskId)
      requires Valid() && current == reaper && granted
      modifies this`tasks, this`queues, this`granted
      ensures Valid() && current == reaper && !granted
      ensures Reaper in old(queues) && old(queues)[Reaper] != [] && task == old(queues)[Reaper][0]
      ensures task in old(tasks) && old(tasks)[task].flags == DEAD && task != current
      ensures tasks.Keys == old(tasks.Keys) - {task}
      ensures forall n :: Dangling(n) <==> old(Dangling(n)) || (n in irqTasks && irqTasks[n] == task)
      ensures Reaper in queues && queues[Reaper] == old(queues)[Reaper][1..]
      ensures Legal(false)
      ensures Asleep(old(View()), View(), 0)
    {
      hide Sound, Waits, Asleep;
      KernelQueues({current, idle});
      task := Unearth();
      ghost var woken := View();
      Discard(task);
      AsleepTrans(old(View()), woken, View(), 0);
      granted := false;
    }

    /** Take the first of the dead off the reaper's queue, and let those run who wait for it. */
    method Unearth() returns (task: TaskId)
      requires Valid() && current == reaper && Reaper in queues && queues[Reaper] != []
      modifies this`tasks, this`queues
      ensures task == old(queues[Reaper])[0] && task in old(tasks) && old(tasks)[task].flags == DEAD
      ensures Ok({current, idle} + {task}, 1) && task != current && task != idle
      ensures tasks.Keys == old(tasks.Keys) && task in tasks && tasks[task].flags != DEAD
      ensures current in tasks && tasks[current] == old(tasks)[current]
      ensures Of(task) in queues && queues[Of(task)] == []
      ensures Reaper in queues && queues[Reaper] == old(queues[Reaper])[1..]
      ensures DeathToll in queues && DeathToll in old(queues) && queues[DeathToll] == old(queues)[DeathToll]
      ensures Run in queues && Run in old(queues) && old(queues)[Run] <= queues[Run]
      ensures Asleep(old(View()), View(), 0)
    {
      hide Sound, Waits, Asleep;
      KernelQueues({current, idle});
      task := Exhume();
      ghost var loose := {current, idle} + {task};
      OwnQueue(View(), loose, idle, liveTasks + 1, task);
      ghost var exhumed := View();
      WakeAll(Of(task), loose, 1);
      AsleepTrans(old(View()), exhumed, View(), 0);
    }

    /** A task that nobody waits for any more is gone, and its queue with it. */
    method Discard(task: TaskId)
      requires Ok({current, idle} + {task}, 1) && task in tasks && task != current && task != idle
      requires tasks[task].flags != DEAD && Of(task) in queues && queues[Of(task)] == []
      modifies this`tasks, this`queues
      ensures Ok({current, idle}) && tasks == old(tasks) - {task} && queues == old(queues) - {Of(task)}
      ensures Asleep(old(View()), View(), 0)
    {
      hide Sound, Asleep;
      KernelQueues({current, idle} + {task}, 1);
      ghost var loose := {current, idle} + {task};
      DestroyedSound(View(), loose, idle, liveTasks + 1, task);
      assert loose - {task} == {current, idle};
      tasks := tasks - {task};
      queues := queues - {Of(task)};
      AsleepStill(old(View()), View(), loose, idle, liveTasks + 1);
    }

    /** Take the first of the dead off the reaper's queue. */
    method Exhume() returns (task: TaskId)
      requires Valid() && current == reaper && Reaper in queues && queues[Reaper] != []
      modifies this`tasks, this`queues
      ensures task == old(queues[Reaper])[0] && task in old(tasks) && old(tasks)[task].flags == DEAD
      ensures task != current && task != idle
      ensures Ok({current, idle} + {task}, 1)
      ensures queues == old(queues)[Reaper := old(queues[Reaper])[1..]]
      ensures task in tasks && tasks == old(tasks)[task := old(tasks)[task].(waitingOn := None, flags := READY)]
      ensures Asleep(old(View()), View(), 0)
    {
      hide Sound, Asleep;
      KernelQueues({current, idle});
      ExhumedSound(View(), {current, idle}, idle, liveTasks);
      task := queues[Reaper][0];
      tasks := tasks[task := tasks[task].(waitingOn := None, flags := READY)];
      queues := queues[Reaper := queues[Reaper][1..]];
      AsleepStill(old(View()), View(), {current, idle}, idle, liveTasks);
    }

    /** A new task, ready to run. */
    method Spawn(t: TaskId)
      requires Valid() && t !in tasks
      modifies this`tasks, this`queues, this`liveTasks
      ensures Valid() && liveTasks == old(liveTasks) + 1
      ensures tasks.Keys == old(tasks.Keys) + {t}
      ensures Legal(false) && queues[Run] == old(queues)[Run] + [t]
      ensures Asleep(old(View()), View(), 0)
    {
      hide Sound, Asleep;
      KernelQueues({current, idle});
      CreatedSound(View(), {current, idle}, idle, liveTasks, t, Task(READY, None, 0, 0));
      tasks := tasks[t := Task(READY, None, 0, 0)];
      queues := queues[Of(t) := []];
      liveTasks := liveTasks + 1;
      AsleepStill(old(View()), View(), {current, idle}, idle, old(liveTasks));
      ghost var created := View();
      Enqueue(Run, t, 0, {current, idle} + {t});
      assert {current, idle} + {t} - {t} == {current, idle};
      AsleepTrans(old(View()), created, View(), 0);
    }

    /** Releasing a resource wakes everyone who waits for it. */
    method ReleaseResource(id: nat)
      requires Valid() && Rsrc(id) in queues
      modifies this`tasks, this`queues
      ensures Valid() && Rsrc(id) !in queues
      ensures Legal(false) && queues[Run] == old(queues)[Run] + old(queues[Rsrc(id)])
      ensures Asleep(old(View()), View(), 0)
    {
      hide Sound, Asleep;
      KernelQueues({current, idle});
      WakeAll(Rsrc(id), {current, idle}, 0);
      ResourceSound(View(), {current, idle}, idle, liveTasks, id);
      ghost var woken := View();
      queues := queues - {Rsrc(id)};
      AsleepStill(woken, View(), {current, idle}, idle, liveTasks);
      AsleepTrans(old(View()), woken, View(), 0);
    }

    /** A resource that can be waited for. */
    method BindResource(id: nat)
      requires Valid() && Rsrc(id) !in queues
      modifies this`queues
      ensures Valid() && queues == old(queues)[Rsrc(id) := []]
      ensures Legal(false)
      ensures Asleep(old(View()), View(), 0)
    {
      hide Sound, Asleep;
      KernelQueues({current, idle});
      ResourceSound(View(), {current, idle}, idle, liveTasks, id);
      queues := queues[Rsrc(id) := []];
      AsleepStill(old(View()), View(), {current, idle}, idle, liveTasks);
    }
  }

  lemma InHand(s: State, loose: set<TaskId>, idle: TaskId, live: int, t: TaskId)
    requires Sound(s, loose, idle, live) && t in s.tasks && t in loose
    ensures s.tasks[t].waitingOn == None
  {
    assert HasPlace(s, t, loose);
  }

  lemma NotOnRun(s: State, loose: set<TaskId>, idle: TaskId, live: int, t: TaskId)
    requires Sound(s, loose, idle, live) && t in s.tasks && s.tasks[t].waitingOn != Some(Run)
    ensures Run in s.queues && t !in s.queues[Run]
  {
    forall i | 0 <= i < |s.queues[Run]| ensures s.queues[Run][i] != t {
      assert Waits(s, s.queues[Run][i], Run);
    }
  }

  lemma HeadElsewhere(s: State, loose: set<TaskId>, idle: TaskId, live: int, k: QueueId)
    requires Sound(s, loose, idle, live) && k in s.queues && s.queues[k] != []
    ensures s.queues[k][0] !in loose
  {
    HeadWaits(s, loose, k);
  }

  lemma OwnQueue(s: State, loose: set<TaskId>, idle: TaskId, live: int, t: TaskId)
    requires Sound(s, loose, idle, live) && t in s.tasks
    ensures Of(t) in s.queues
  {
  }

  lemma TurnLonger(before: seq<TaskId>, longer: seq<TaskId>, after: seq<TaskId>, running: TaskId)
    requires before <= longer && InTurn(longer, after, running, true)
    ensures InTurn(before, after, running, true)
  {
  }

  lemma MovedAt(q: map<QueueId, seq<TaskId>>, k: QueueId, n: nat)
    requires k in q && Run in q && k != Run && n <= |q[k]|
    ensures k in Moved(q, k, n) && Run in Moved(q, k, n)
    ensures Moved(q, k, n)[k] == q[k][n..] && Moved(q, k, n)[Run] == q[Run] + q[k][..n]
  {
  }

  lemma DueStop(tasks: map<TaskId, Task>, q: seq<TaskId>, now: Int)
    requires q == [] || (q[0] in tasks && !IsDue(tasks[q[0]].waitTime, now))
    ensures Due(tasks, q, now) == 0
  {
  }

  lemma IrqSound(s: State, loose: set<TaskId>, idle: TaskId, live: int, t: TaskId, irq: nat)
    requires Sound(s, loose, idle, live) && t in s.tasks && t in loose
    ensures Sound(s.(tasks := s.tasks[t := s.tasks[t].(irq := irq)]), loose, idle, live)
  {
    var u := s.(tasks := s.tasks[t := s.tasks[t].(irq := irq)]);
    LiveSame(s.tasks, idle, t, u.tasks[t]);
    forall k, i {:trigger u.queues[k][i]} | k in u.queues && 0 <= i < |u.queues[k]|
      ensures Waits(u, u.queues[k][i], k)
    {
      assert Waits(s, s.queues[k][i], k);
    }
    forall x | x in u.tasks ensures HasPlace(u, x, loose) {
      assert HasPlace(s, x, loose);
    }
  }

  lemma TurnStays(queue: seq<TaskId>, running: TaskId)
    ensures InTurn(queue, queue, running, false)
  {
  }
}
