/**
 * Message ports (blt/kernel/port.c).  A system call runs until it returns or goes to
 * sleep; a sleeping send or receive that is woken tests its loop again when it next
 * runs, and by then others may have been there before it.
 */
module Port {
  type PortId = nat
  type TaskId = nat
  type TeamId = nat

  const MAX_MSGCOUNT := 16

  const ERR_NONE := 0
  const ERR_PERMISSION := -1
  const ERR_RESOURCE := -2
  const ERR_MEMORY := -3
  const ERR_SENDPORT := -4
  const ERR_RECVPORT := -5
  const ERR_WOULD_BLOCK := -6

  const PORT_OPT_NOWAIT := 1
  const PORT_OPT_SETRESTRICT := 2
  const PORT_OPT_SLAVE := 4

  /** Messages live below this address, and are at most this long. */
  const USER_LIMIT := 0x400000
  const MAX_SIZE := 4096

  datatype Message = Message(fromPort: PortId, toPort: PortId, code: int, data: seq<bv8>)

  /**
   * `msgs` are the waiting messages, oldest first.  `receivers` and `senders` sleep on the port's
   * two queues; `wokenReceivers` and `wokenSenders` were taken off them by a message or by a free
   * slot and have not run since.
   */
  datatype Port = Port(
    owner: TeamId,
    msgs: seq<Message>,
    slaved: PortId,
    refcount: int,
    nowait: int,
    restrict: int,
    receivers: seq<TaskId>,
    senders: seq<TaskId>,
    wokenReceivers: multiset<TaskId>,
    wokenSenders: multiset<TaskId>)

  /** A call returns, or its task went to sleep. */
  datatype Outcome = Returned(status: int) | Asleep

  // ---- one port

  function WakeReceiver(p: Port): Port {
    if p.receivers == [] then p
    else p.(receivers := p.receivers[1..], wokenReceivers := p.wokenReceivers + multiset{p.receivers[0]})
  }

  /** Append a message and wake the first sleeping receiver. */
  function Deposit(p: Port, m: Message): Port {
    WakeReceiver(p.(msgs := p.msgs + [m]))
  }

  /** Remove the oldest message and wake the first sleeping sender. */
  function Withdraw(p: Port): Port
    requires p.msgs != []
  {
    var q := if p.senders != [] && |p.msgs| <= MAX_MSGCOUNT
             then p.(senders := p.senders[1..], wokenSenders := p.wokenSenders + multiset{p.senders[0]})
             else p;
    q.(msgs := p.msgs[1..])
  }

  /** Nobody sleeps on the port while there is something for him that nobody woken will take. */
  ghost predicate NoLostWakeup(p: Port) {
    && (p.receivers != [] ==> |p.msgs| <= |p.wokenReceivers|)
    && (p.senders != [] ==> MAX_MSGCOUNT - |p.msgs| <= |p.wokenSenders|)
  }

  /** What it is for: with no woken task still to run, sleepers have nothing to do. */
  lemma SleepersHaveNothingToDo(p: Port)
    requires NoLostWakeup(p)
    ensures p.wokenReceivers == multiset{} && p.receivers != [] ==> p.msgs == []
    ensures p.wokenSenders == multiset{} && p.senders != [] ==> |p.msgs| >= MAX_MSGCOUNT
  {
  }

  lemma DepositWakes(p: Port, m: Message)
    requires NoLostWakeup(p)
    ensures NoLostWakeup(Deposit(p, m))
  {
  }

  lemma WithdrawWakes(p: Port)
    requires NoLostWakeup(p) && p.msgs != [] && |p.msgs| <= MAX_MSGCOUNT
    ensures NoLostWakeup(Withdraw(p))
  {
  }

  /** A woken receiver runs and takes a message. */
  lemma ReceiverRuns(p: Port, t: TaskId)
    requires NoLostWakeup(p) && t in p.wokenReceivers
    requires p.msgs != [] && |p.msgs| <= MAX_MSGCOUNT
    ensures NoLostWakeup(Withdraw(p.(wokenReceivers := p.wokenReceivers - multiset{t})))
  {
  }

  /** A woken sender runs and sends. */
  lemma SenderRuns(p: Port, t: TaskId, m: Message)
    requires NoLostWakeup(p) && t in p.wokenSenders
    ensures NoLostWakeup(Deposit(p.(wokenSenders := p.wokenSenders - multiset{t}), m))
  {
  }

  /**
   * A woken sender whose message turns out to be ill-sized returns without sending: that loses a
   * wakeup exactly when the others woken cannot fill the free slots.
   */
  lemma SenderGivesUp(p: Port, t: TaskId)
    requires NoLostWakeup(p) && t in p.wokenSenders
    ensures NoLostWakeup(p.(wokenSenders := p.wokenSenders - multiset{t}))
            <==> (p.senders == [] || MAX_MSGCOUNT - |p.msgs| < |p.wokenSenders|)
  {
  }

  /** One free slot, one sender asleep, one woken with an ill-sized message: the sleeper stays asleep. */
  lemma IllSizedSendLosesWakeup(m: Message)
    ensures var p := Port(0, seq(15, i => m), 0, 1, 0, 0, [], [2], multiset{}, multiset{1});
            NoLostWakeup(p) && !NoLostWakeup(p.(wokenSenders := p.wokenSenders - multiset{1}))
  {
    SenderGivesUp(Port(0, seq(15, i => m), 0, 1, 0, 0, [], [2], multiset{}, multiset{1}), 1);
  }

  /**
   * A woken sender that finds its port enslaved meanwhile deposits there but wakes nobody there:
   * that loses a wakeup exactly when someone sleeps and the woken receivers are no more than the messages.
   */
  lemma DepositOnEnslaved(p: Port, t: TaskId, m: Message)
    requires NoLostWakeup(p) && t in p.wokenSenders
    ensures NoLostWakeup(p.(wokenSenders := p.wokenSenders - multiset{t}, msgs := p.msgs + [m]))
            <==> (p.receivers == [] || |p.msgs| < |p.wokenReceivers|)
  {
  }

  /** A send to a port that is not enslaved, from its wait loop on; `fits` when the message is well-sized. */
  function SendTo(p: Port, t: TaskId, m: Message, fits: bool): Port {
    if |p.msgs| >= MAX_MSGCOUNT then
      if p.nowait != 0 then p else p.(senders := p.senders + [t])
    else if !fits then p
    else Deposit(p, m)
  }

  /** A receive, from its wait loop on. */
  function RecvFrom(p: Port, t: TaskId): Port {
    if p.msgs == [] then
      if p.nowait != 0 then p else p.(receivers := p.receivers + [t])
    else Withdraw(p)
  }

  function SenderAwake(p: Port, t: TaskId): Port {
    p.(wokenSenders := p.wokenSenders - multiset{t})
  }

  function ReceiverAwake(p: Port, t: TaskId): Port {
    p.(wokenReceivers := p.wokenReceivers - multiset{t})
  }

  /** Calls lose no wakeup... */
  lemma SendLosesNothing(p: Port, t: TaskId, m: Message, fits: bool)
    requires NoLostWakeup(p)
    ensures NoLostWakeup(SendTo(p, t, m, fits))
  {
    DepositWakes(p, m);
  }

  lemma RecvLosesNothing(p: Port, t: TaskId)
    requires NoLostWakeup(p) && |p.msgs| <= MAX_MSGCOUNT
    ensures NoLostWakeup(RecvFrom(p, t))
  {
    if p.msgs != [] { WithdrawWakes(p); }
  }

  /** ...and neither do woken tasks that run, if what they send is well-sized. */
  lemma WokenSendLosesNothing(p: Port, t: TaskId, m: Message)
    requires NoLostWakeup(p) && t in p.wokenSenders
    ensures NoLostWakeup(SendTo(SenderAwake(p, t), t, m, true))
  {
    if |p.msgs| < MAX_MSGCOUNT { SenderRuns(p, t, m); }
  }

  lemma WokenRecvLosesNothing(p: Port, t: TaskId)
    requires NoLostWakeup(p) && |p.msgs| <= MAX_MSGCOUNT && t in p.wokenReceivers
    ensures NoLostWakeup(RecvFrom(ReceiverAwake(p, t), t))
  {
    if p.msgs != [] { ReceiverRuns(p, t); }
  }

  // ---- who is woken, and who sleeps on

  /** The first to sleep is woken, and the others sleep on in their order. */
  ghost predicate FirstWoken(before: seq<TaskId>, woken: multiset<TaskId>, after: seq<TaskId>, now: multiset<TaskId>) {
    if before == [] then after == [] && now == woken
    else [before[0]] + after == before && now == woken + multiset{before[0]}
  }

  /** The port's own record and its senders are as they were. */
  ghost predicate SameSenders(p: Port, q: Port) {
    q.owner == p.owner && q.slaved == p.slaved && q.refcount == p.refcount && q.nowait == p.nowait
    && q.restrict == p.restrict && q.senders == p.senders && q.wokenSenders == p.wokenSenders
  }

  ghost predicate SameReceivers(p: Port, q: Port) {
    q.owner == p.owner && q.slaved == p.slaved && q.refcount == p.refcount && q.nowait == p.nowait
    && q.restrict == p.restrict && q.receivers == p.receivers && q.wokenReceivers == p.wokenReceivers
  }

  /** What a send does, case by case: it sleeps, is refused, or delivers and wakes the first receiver. */
  lemma SendExactly(p: Port, t: TaskId, m: Message, fits: bool)
    ensures var q := SendTo(p, t, m, fits);
            if |p.msgs| >= MAX_MSGCOUNT && p.nowait == 0 then
              && SameReceivers(p, q) && q.msgs == p.msgs
              && q.wokenSenders == p.wokenSenders && q.senders == p.senders + [t]
            else if |p.msgs| >= MAX_MSGCOUNT || !fits then q == p
            else
              && SameSenders(p, q) && q.msgs == p.msgs + [m]
              && FirstWoken(p.receivers, p.wokenReceivers, q.receivers, q.wokenReceivers)
  {
  }

  /** What a receive does: it sleeps, is refused, or takes the oldest message and wakes the first sender. */
  lemma RecvExactly(p: Port, t: TaskId)
    requires |p.msgs| <= MAX_MSGCOUNT
    ensures var q := RecvFrom(p, t);
            if p.msgs == [] && p.nowait == 0 then
              && SameSenders(p, q) && q.msgs == []
              && q.wokenReceivers == p.wokenReceivers && q.receivers == p.receivers + [t]
            else if p.msgs == [] then q == p
            else
              && SameReceivers(p, q) && [p.msgs[0]] + q.msgs == p.msgs
              && FirstWoken(p.senders, p.wokenSenders, q.senders, q.wokenSenders)
  {
  }

  /** What a call does on a port, from where it comes in, or is woken, until it returns or sleeps. */
  datatype Call =
    | Sends(t: TaskId, m: Message, fits: bool)
    | Receives(t: TaskId)
    | SenderRuns(t: TaskId, m: Message, fits: bool)
    | ReceiverRuns(t: TaskId)

  ghost predicate Enabled(p: Port, c: Call) {
    && (c.SenderRuns? ==> c.t in p.wokenSenders)
    && (c.ReceiverRuns? ==> c.t in p.wokenReceivers)
  }

  ghost function Called(p: Port, c: Call): Port {
    match c
    case Sends(t, m, fits) => SendTo(p, t, m, fits)
    case Receives(t) => RecvFrom(p, t)
    case SenderRuns(t, m, fits) => SendTo(SenderAwake(p, t), t, m, fits)
    case ReceiverRuns(t) => RecvFrom(ReceiverAwake(p, t), t)
  }

  /** Those who went to sleep as receivers, in order: callers who found no message, on a port that waits. */
  ghost predicate SleepsReceiving(p: Port, c: Call) {
    (c.Receives? || c.ReceiverRuns?) && p.msgs == [] && p.nowait == 0
  }

  ghost predicate SleepsSending(p: Port, c: Call) {
    (c.Sends? || c.SenderRuns?) && |p.msgs| >= MAX_MSGCOUNT && p.nowait == 0
  }

  /** What has happened so far: who went to sleep, in order, and who has run again. */
  datatype Ledger = Ledger(receivers: seq<TaskId>, receiversRan: multiset<TaskId>, senders: seq<TaskId>,
    sendersRan: multiset<TaskId>)

  ghost function Noted(l: Ledger, p: Port, c: Call): Ledger {
    Ledger(
      if SleepsReceiving(p, c) then l.receivers + [c.t] else l.receivers,
      if c.ReceiverRuns? then l.receiversRan + multiset{c.t} else l.receiversRan,
      if SleepsSending(p, c) then l.senders + [c.t] else l.senders,
      if c.SenderRuns? then l.sendersRan + multiset{c.t} else l.sendersRan)
  }

  /** The ledger of a run. */
  ghost predicate Ledgered(p: Port, calls: seq<Call>, q: Port, l: Ledger) {
    if calls == [] then q == p && l == Ledger([], multiset{}, [], multiset{})
    else
      var n := |calls| - 1;
      exists u, k {:trigger Ledgered(p, calls[..n], u, k)} ::
        Ledgered(p, calls[..n], u, k) && Enabled(u, calls[n]) && q == Called(u, calls[n])
        && l == Noted(k, u, calls[n])
  }

  /** Those asleep are the last who went to sleep, in order; all before them were woken, and run or have run again. */
  ghost predicate InOrderOfSleep(slept: seq<TaskId>, asleep: seq<TaskId>, woken: multiset<TaskId>,
      ran: multiset<TaskId>) {
    |asleep| <= |slept| && asleep == slept[|slept| - |asleep|..]
    && woken + ran == multiset(slept[..|slept| - |asleep|])
  }

  ghost predicate Accounted(q: Port, l: Ledger) {
    && InOrderOfSleep(l.receivers, q.receivers, q.wokenReceivers, l.receiversRan)
    && InOrderOfSleep(l.senders, q.senders, q.wokenSenders, l.sendersRan)
  }

  lemma SleepsLast(slept: seq<TaskId>, asleep: seq<TaskId>, woken: multiset<TaskId>, ran: multiset<TaskId>, t: TaskId)
    requires InOrderOfSleep(slept, asleep, woken, ran)
    ensures InOrderOfSleep(slept + [t], asleep + [t], woken, ran)
  {
    var n := |slept| - |asleep|;
    assert (slept + [t])[n..] == slept[n..] + [t] && (slept + [t])[..n] == slept[..n];
  }

  lemma WokenFirst(slept: seq<TaskId>, asleep: seq<TaskId>, woken: multiset<TaskId>, ran: multiset<TaskId>,
      after: seq<TaskId>, now: multiset<TaskId>)
    requires InOrderOfSleep(slept, asleep, woken, ran) && FirstWoken(asleep, woken, after, now)
    ensures InOrderOfSleep(slept, after, now, ran)
  {
    if asleep != [] {
      var n := |slept| - |asleep|;
      assert after == asleep[1..] by { assert ([asleep[0]] + after)[1..] == after; }
      assert slept[..n + 1] == slept[..n] + [asleep[0]];
      assert after == slept[n + 1..];
    }
  }

  lemma RunsAgain(slept: seq<TaskId>, asleep: seq<TaskId>, woken: multiset<TaskId>, ran: multiset<TaskId>, t: TaskId)
    requires InOrderOfSleep(slept, asleep, woken, ran) && t in woken
    ensures InOrderOfSleep(slept, asleep, woken - multiset{t}, ran + multiset{t})
  {
    assert woken - multiset{t} + (ran + multiset{t}) == woken + ran;
  }

  lemma AccountedSend(q: Port, l: Ledger, t: TaskId, m: Message, fits: bool)
    requires Accounted(q, l) && |q.msgs| <= MAX_MSGCOUNT
    ensures Accounted(SendTo(q, t, m, fits), Noted(l, q, Sends(t, m, fits)))
    ensures |SendTo(q, t, m, fits).msgs| <= MAX_MSGCOUNT
  {
    hide SendTo, InOrderOfSleep, FirstWoken;
    SendExactly(q, t, m, fits);
    var u := SendTo(q, t, m, fits);
    if |q.msgs| >= MAX_MSGCOUNT && q.nowait == 0 {
      SleepsLast(l.senders, q.senders, q.wokenSenders, l.sendersRan, t);
    } else if |q.msgs| < MAX_MSGCOUNT && fits {
      WokenFirst(l.receivers, q.receivers, q.wokenReceivers, l.receiversRan, u.receivers, u.wokenReceivers);
    }
  }

  lemma AccountedRecv(q: Port, l: Ledger, t: TaskId)
    requires Accounted(q, l) && |q.msgs| <= MAX_MSGCOUNT
    ensures Accounted(RecvFrom(q, t), Noted(l, q, Receives(t)))
    ensures |RecvFrom(q, t).msgs| <= MAX_MSGCOUNT
  {
    hide RecvFrom, InOrderOfSleep, FirstWoken;
    RecvExactly(q, t);
    var u := RecvFrom(q, t);
    if q.msgs == [] && q.nowait == 0 {
      SleepsLast(l.receivers, q.receivers, q.wokenReceivers, l.receiversRan, t);
    } else if q.msgs != [] {
      assert |[q.msgs[0]] + u.msgs| == |u.msgs| + 1;
      WokenFirst(l.senders, q.senders, q.wokenSenders, l.sendersRan, u.senders, u.wokenSenders);
    }
  }

  lemma AccountedStep(q: Port, l: Ledger, c: Call)
    requires Accounted(q, l) && |q.msgs| <= MAX_MSGCOUNT && Enabled(q, c)
    ensures Accounted(Called(q, c), Noted(l, q, c)) && |Called(q, c).msgs| <= MAX_MSGCOUNT
  {
    hide SendTo, RecvFrom, InOrderOfSleep, SleepsSending, SleepsReceiving;
    match c {
      case Sends(t, m, fits) =>
        AccountedSend(q, l, t, m, fits);
        SameNote(q, q, Sends(t, m, fits), c);
      case Receives(t) =>
        AccountedRecv(q, l, t);
        SameNote(q, q, Receives(t), c);
      case SenderRuns(t, m, fits) =>
        RunsAgain(l.senders, q.senders, q.wokenSenders, l.sendersRan, t);
        AccountedSend(SenderAwake(q, t), l.(sendersRan := l.sendersRan + multiset{t}), t, m, fits);
        SameNote(SenderAwake(q, t), q, Sends(t, m, fits), c);
      case ReceiverRuns(t) =>
        RunsAgain(l.receivers, q.receivers, q.wokenReceivers, l.receiversRan, t);
        AccountedRecv(ReceiverAwake(q, t), l.(receiversRan := l.receiversRan + multiset{t}), t);
        SameNote(ReceiverAwake(q, t), q, Receives(t), c);
    }
  }

  /** Whether a call sleeps does not depend on where it came from. */
  lemma SameNote(p: Port, q: Port, b: Call, c: Call)
    requires p.msgs == q.msgs && p.nowait == q.nowait
    requires ((b.Sends? || b.SenderRuns?) <==> (c.Sends? || c.SenderRuns?)) && b.t == c.t
    ensures SleepsSending(p, b) == SleepsSending(q, c) && SleepsReceiving(p, b) == SleepsReceiving(q, c)
  {
  }

  /**
   * Over every run of calls on a port: first asleep, first woken, and nobody gets lost.  Whoever went to sleep is
   * still asleep, in the order of going to sleep, or was woken, and then has run again or has it before it.
   */
  lemma {:induction false} NobodyGetsLost(p: Port, calls: seq<Call>, q: Port, l: Ledger)
    requires p.receivers == [] && p.senders == [] && p.wokenReceivers == multiset{} && p.wokenSenders == multiset{}
    requires |p.msgs| <= MAX_MSGCOUNT && Ledgered(p, calls, q, l)
    ensures Accounted(q, l) && |q.msgs| <= MAX_MSGCOUNT
    decreases |calls|
  {
    hide Called, Noted, Enabled;
    if calls == [] {
      assert l.receivers[..0] == [];
    } else {
      hide Accounted;
      var n := |calls| - 1;
      var u, k :| Ledgered(p, calls[..n], u, k) && Enabled(u, calls[n]) && q == Called(u, calls[n])
        && l == Noted(k, u, calls[n]);
      NobodyGetsLost(p, calls[..n], u, k);
      AccountedStep(u, k, calls[n]);
    }
  }

  // ---- the table of ports

  /** The port that messages for `dst` go to: itself, or its master, which must not be a slave. */
  function Target(ports: map<PortId, Port>, dst: PortId): (r: (int, PortId))
    ensures r.0 == ERR_NONE ==> r.1 in ports && ports[r.1].slaved == 0
    ensures r.0 == ERR_NONE <==> dst in ports && (ports[dst].slaved != 0 ==>
                                  ports[dst].slaved in ports && ports[ports[dst].slaved].slaved == 0)
    ensures r.0 == ERR_NONE ==> r.1 == if ports[dst].slaved == 0 then dst else ports[dst].slaved
    ensures r.0 == ERR_RECVPORT <==> dst !in ports
    ensures r.0 == ERR_NONE || r.0 == ERR_RECVPORT || r.0 == ERR_RESOURCE
  {
    if dst !in ports then (ERR_RECVPORT, 0)
    else if ports[dst].slaved == 0 then (ERR_NONE, dst)
    else if ports[dst].slaved !in ports then (ERR_RESOURCE, 0)
    else if ports[ports[dst].slaved].slaved != 0 then (ERR_RESOURCE, 0)
    else (ERR_NONE, ports[dst].slaved)
  }

  ghost function Slaves(ports: map<PortId, Port>, master: PortId): set<PortId> {
    set q | q in ports && ports[q].slaved == master
  }

  /**
   * Every reference count is one for the owner, one for each slave, and one for each slave that
   * was destroyed while enslaved, since destruction does not tell the master.
   */
  ghost predicate RefCounted(ports: map<PortId, Port>, orphans: map<PortId, nat>) {
    && 0 !in ports && orphans.Keys == ports.Keys
    && (forall p :: p in ports ==> ports[p].refcount == 1 + |Slaves(ports, p)| + orphans[p])
    && (forall p :: p in ports && ports[p].slaved != 0 ==> ports[p].slaved in ports)
  }

  /** Everything that was sent to a port was received, in that order, or is still waiting. */
  ghost predicate InOrder(ports: map<PortId, Port>, sent: map<PortId, seq<Message>>,
      received: map<PortId, seq<Message>>) {
    && sent.Keys == ports.Keys && received.Keys == ports.Keys
    && (forall p :: p in ports ==> sent[p] == received[p] + ports[p].msgs)
  }

  ghost predicate Bounded(ports: map<PortId, Port>) {
    forall p :: p in ports ==> |ports[p].msgs| <= MAX_MSGCOUNT
  }

  /** A task that was woken on port `p` can run again: the port it looks at is still there. */
  ghost predicate Resumable(ports: map<PortId, Port>, p: PortId, t: TaskId) {
    p in ports && (t in ports[p].wokenReceivers || t in ports[p].wokenSenders)
  }

  /** Whoever could run again still can. */
  ghost predicate NobodyStranded(a: map<PortId, Port>, b: map<PortId, Port>) {
    forall p, t :: Resumable(a, p, t) ==> Resumable(b, p, t)
  }

  /**
   * Destroying a port strands nobody exactly when nobody who was woken there has still to run; else that task would
   * look at freed memory.
   */
  lemma StrandedExactly(ports: map<PortId, Port>, id: PortId)
    requires id in ports
    ensures NobodyStranded(ports, ports - {id}) <==>
      ports[id].wokenReceivers == multiset{} && ports[id].wokenSenders == multiset{}
  {
    var q := ports[id];
    if q.wokenReceivers != multiset{} {
      var t :| t in q.wokenReceivers;
      assert Resumable(ports, id, t) && !Resumable(ports - {id}, id, t);
    } else if q.wokenSenders != multiset{} {
      var t :| t in q.wokenSenders;
      assert Resumable(ports, id, t) && !Resumable(ports - {id}, id, t);
    } else {
      forall p, t | Resumable(ports, p, t) ensures Resumable(ports - {id}, p, t) {
        assert p != id;
      }
    }
  }

  lemma NobodyLeaves(ports: map<PortId, Port>)
    ensures NobodyStranded(ports, ports)
  {
  }

  /** An instance: a message wakes the only receiver, and the port is destroyed before that runs. */
  lemma ReceiverStranded(m: Message)
    ensures var q := Deposit(Port(0, [], 0, 1, 0, 0, [7], [], multiset{}, multiset{}), m);
            Resumable(map[3 := q], 3, 7) && !NobodyStranded(map[3 := q], map[])
  {
    var q := Deposit(Port(0, [], 0, 1, 0, 0, [7], [], multiset{}, multiset{}), m);
    assert Resumable(map[3 := q], 3, 7) && !Resumable(map[], 3, 7);
  }

  ghost predicate AllAwake(ports: map<PortId, Port>) {
    forall p :: p in ports ==> NoLostWakeup(ports[p])
  }

  /** Same messages, same sleepers. */
  ghost predicate SameTraffic(a: map<PortId, Port>, b: map<PortId, Port>) {
    && a.Keys == b.Keys
    && (forall p {:trigger b[p]} :: p in b ==>
          && b[p].msgs == a[p].msgs && b[p].receivers == a[p].receivers && b[p].senders == a[p].senders
          && b[p].wokenReceivers == a[p].wokenReceivers && b[p].wokenSenders == a[p].wokenSenders)
  }

  lemma TrafficKept(a: map<PortId, Port>, b: map<PortId, Port>, sent: map<PortId, seq<Message>>,
      received: map<PortId, seq<Message>>)
    requires SameTraffic(a, b) && InOrder(a, sent, received) && Bounded(a)
    ensures InOrder(b, sent, received) && Bounded(b)
    ensures AllAwake(a) ==> AllAwake(b)
  {
    if AllAwake(a) {
      forall p | p in b ensures NoLostWakeup(b[p]) {
        assert NoLostWakeup(a[p]);
      }
    }
  }

  lemma TrafficOfNew(a: map<PortId, Port>, p: PortId, q: Port, sent: map<PortId, seq<Message>>,
      received: map<PortId, seq<Message>>)
    requires InOrder(a, sent, received) && Bounded(a)
    requires q.msgs == [] && q.receivers == [] && q.senders == []
    ensures InOrder(a[p := q], sent[p := []], received[p := []]) && Bounded(a[p := q])
    ensures AllAwake(a) ==> AllAwake(a[p := q])
  {
    if AllAwake(a) {
      assert NoLostWakeup(q);
    }
  }

  /** Storing a port whose traffic changed. */
  lemma TrafficStored(ports: map<PortId, Port>, orphans: map<PortId, nat>, p: PortId, q: Port,
                      sent: map<PortId, seq<Message>>, received: map<PortId, seq<Message>>, out: seq<Message>,
                        into: seq<Message>)
    requires RefCounted(ports, orphans) && InOrder(ports, sent, received) && Bounded(ports)
    requires p in ports && q.slaved == ports[p].slaved && q.refcount == ports[p].refcount
    requires out == into + q.msgs && |q.msgs| <= MAX_MSGCOUNT
    ensures RefCounted(ports[p := q], orphans)
    ensures InOrder(ports[p := q], sent[p := out], received[p := into]) && Bounded(ports[p := q])
    ensures AllAwake(ports) && NoLostWakeup(q) ==> AllAwake(ports[p := q])
  {
    hide RefCounted;
    RefCountedSame(ports, orphans, p, q);
  }

  lemma AwakeStored(ports: map<PortId, Port>, p: PortId, q: Port)
    requires AllAwake(ports) ==> NoLostWakeup(q)
    ensures AllAwake(ports) ==> AllAwake(ports[p := q])
  {
  }

  lemma TrafficOf(ports: map<PortId, Port>, p: PortId, sent: map<PortId, seq<Message>>,
      received: map<PortId, seq<Message>>)
    requires InOrder(ports, sent, received) && Bounded(ports) && p in ports
    ensures sent.Keys == received.Keys == ports.Keys
    ensures sent[p] == received[p] + ports[p].msgs && |ports[p].msgs| <= MAX_MSGCOUNT
    ensures sent[p := sent[p]] == sent && received[p := received[p]] == received && ports[p := ports[p]] == ports
    ensures AllAwake(ports) ==> NoLostWakeup(ports[p])
  {
  }

  // ---- how the reference counts follow changes of the table

  lemma SlavesSame(ports: map<PortId, Port>, p: PortId, q: Port, m: PortId)
    requires p in ports && q.slaved == ports[p].slaved
    ensures Slaves(ports[p := q], m) == Slaves(ports, m)
  {
  }

  /** Changing anything but a slave status and a count. */
  lemma RefCountedSame(ports: map<PortId, Port>, orphans: map<PortId, nat>, p: PortId, q: Port)
    requires RefCounted(ports, orphans) && p in ports
    requires q.slaved == ports[p].slaved && q.refcount == ports[p].refcount
    ensures RefCounted(ports[p := q], orphans)
  {
    hide Slaves;
    forall m | m in ports ensures Slaves(ports[p := q], m) == Slaves(ports, m) {
      SlavesSame(ports, p, q, m);
    }
  }

  lemma SlavesAdd(ports: map<PortId, Port>, p: PortId, q: Port, m: PortId)
    requires p !in ports
    ensures Slaves(ports[p := q], m) == Slaves(ports, m) + if q.slaved == m then {p} else {}
    ensures p !in Slaves(ports, m)
  {
  }

  lemma SlavesRemove(ports: map<PortId, Port>, p: PortId, m: PortId)
    requires p in ports
    ensures Slaves(ports - {p}, m) == Slaves(ports, m) - {p}
    ensures p in Slaves(ports, m) <==> ports[p].slaved == m
  {
  }

  lemma NoSlavesOf(ports: map<PortId, Port>, orphans: map<PortId, nat>, m: PortId)
    requires RefCounted(ports, orphans) && m !in ports && m != 0
    ensures Slaves(ports, m) == {}
  {
  }

  lemma RefCountedCreate(ports: map<PortId, Port>, orphans: map<PortId, nat>, p: PortId, q: Port)
    requires RefCounted(ports, orphans) && p !in ports && p != 0
    requires q.slaved == 0 && q.refcount == 1
    ensures RefCounted(ports[p := q], orphans[p := 0])
  {
    hide Slaves;
    NoSlavesOf(ports, orphans, p);
    forall m | m in ports[p := q] ensures Slaves(ports[p := q], m) == Slaves(ports, m) {
      SlavesAdd(ports, p, q, m);
    }
  }

  /** A port that can be destroyed has no slaves, so no master is ever missing. */
  lemma RefCountedDestroy(ports: map<PortId, Port>, orphans: map<PortId, nat>, p: PortId)
    requires RefCounted(ports, orphans) && p in ports && ports[p].refcount == 1
    ensures var m := ports[p].slaved;
            RefCounted(ports - {p}, (if m != 0 then orphans[m := orphans[m] + 1] else orphans) - {p})
  {
    hide Slaves;
    var m := ports[p].slaved;
    var after := (if m != 0 then orphans[m := orphans[m] + 1] else orphans) - {p};
    NoSlaves(ports, orphans, p);
    forall n | n in ports - {p} ensures (ports - {p})[n].refcount == 1 + |Slaves(ports - {p}, n)| + after[n] {
      SlavesRemove(ports, p, n);
    }
    forall n | n in ports - {p} && ports[n].slaved != 0 ensures ports[n].slaved in ports - {p} {
      IsSlave(ports, n);
    }
  }

  lemma IsSlave(ports: map<PortId, Port>, p: PortId)
    requires p in ports
    ensures p in Slaves(ports, ports[p].slaved)
  {
  }

  lemma NoSlaves(ports: map<PortId, Port>, orphans: map<PortId, nat>, p: PortId)
    requires RefCounted(ports, orphans) && p in ports && ports[p].refcount == 1
    ensures Slaves(ports, p) == {} && orphans[p] == 0
  {
    hide Slaves;
  }

  lemma NotThere(ports: map<PortId, Port>, orphans: map<PortId, nat>, p: PortId)
    requires RefCounted(ports, orphans)
    ensures 0 !in ports && orphans.Keys == ports.Keys
  {
  }

  /** The master of a slave is always found. */
  lemma MasterThere(ports: map<PortId, Port>, orphans: map<PortId, nat>, p: PortId)
    requires RefCounted(ports, orphans) && p in ports
    ensures orphans.Keys == ports.Keys
    ensures ports[p].slaved != 0 ==> ports[p].slaved in ports && ports[ports[p].slaved].refcount > 1
  {
    IsSlave(ports, p);
  }

  /** One reference more, or less, to `m`. */
  function Referenced(ports: map<PortId, Port>, m: PortId, d: int): (r: map<PortId, Port>)
    requires m in ports
    ensures r.Keys == ports.Keys
    ensures forall q {:trigger r[q]} :: q in ports ==>
      r[q] == ports[q].(refcount := ports[q].refcount + if q == m then d else 0)
  {
    ports[m := ports[m].(refcount := ports[m].refcount + d)]
  }

  lemma SlavesMove(ports: map<PortId, Port>, after: map<PortId, Port>, p: PortId, m: PortId)
    requires p in ports && after.Keys == ports.Keys
    requires forall q :: q in ports && q != p ==> after[q].slaved == ports[q].slaved
    ensures Slaves(after, m) == Slaves(ports, m) - {p} + if after[p].slaved == m then {p} else {}
    ensures p in Slaves(ports, m) <==> ports[p].slaved == m
  {
  }

  /** Changing masters: the new one counts one more, the old one one less. */
  lemma RefCountedEnslave(ports: map<PortId, Port>, orphans: map<PortId, nat>, p: PortId, arg: PortId,
      after: map<PortId, Port>)
    requires RefCounted(ports, orphans) && p in ports && after.Keys == ports.Keys
    requires arg != 0 ==> arg in ports
    requires forall q :: q in ports ==> after[q].slaved == if q == p then arg else ports[q].slaved
    requires forall q {:trigger after[q].refcount} :: q in ports ==>
               (after[q].refcount == ports[q].refcount +
                 (if q == arg then 1 else 0) - (if q == ports[p].slaved then 1 else 0))
    ensures RefCounted(after, orphans)
  {
    hide Slaves;
    forall m | m in after ensures after[m].refcount == 1 + |Slaves(after, m)| + orphans[m] {
      SlavesMove(ports, after, p, m);
    }
  }

  /** `id` becomes a slave of `arg`, or nobody's when `arg` is 0. */
  ghost function Enslaved(ports: map<PortId, Port>, id: PortId, arg: PortId): map<PortId, Port>
    requires id in ports && (arg != 0 ==> arg in ports)
    requires ports[id].slaved != 0 ==> ports[id].slaved in ports
  {
    var a := if arg != 0 then Referenced(ports, arg, 1) else ports;
    var b := if a[id].slaved != 0 then Referenced(a, a[id].slaved, -1) else a;
    b[id := b[id].(slaved := arg)]
  }

  lemma EnslavedPointwise(ports: map<PortId, Port>, id: PortId, arg: PortId)
    requires id in ports && (arg != 0 ==> arg in ports) && 0 !in ports
    requires ports[id].slaved != 0 ==> ports[id].slaved in ports
    ensures var after := Enslaved(ports, id, arg);
            && after.Keys == ports.Keys
            && (forall q {:trigger after[q]} :: q in ports ==>
                  (after[q] == ports[q].(
                      refcount := ports[q].refcount +
                        (if q == arg then 1 else 0) - (if q == ports[id].slaved then 1 else 0),
                      slaved := if q == id then arg else ports[q].slaved)))
  {
    hide Referenced;
  }

  lemma EnslavedKeeps(ports: map<PortId, Port>, orphans: map<PortId, nat>, id: PortId, arg: PortId)
    requires id in ports && (arg != 0 ==> arg in ports)
    requires RefCounted(ports, orphans)
    ensures ports[id].slaved != 0 ==> ports[id].slaved in ports
    ensures var after := Enslaved(ports, id, arg);
            && RefCounted(after, orphans) && SameTraffic(ports, after)
            && (forall p :: p in ports ==> after[p].slaved == if p == id then arg else ports[p].slaved)
  {
    hide Slaves, Enslaved;
    EnslavedPointwise(ports, id, arg);
    var after := Enslaved(ports, id, arg);
    RefCountedEnslave(ports, orphans, id, arg, after);
  }

  /** A master that lost a slave to destruction keeps a count above one, so it can never be destroyed. */
  lemma OrphansPinMaster(ports: map<PortId, Port>, orphans: map<PortId, nat>, m: PortId)
    requires RefCounted(ports, orphans) && m in ports
    ensures ports[m].refcount == 1 <==> Slaves(ports, m) == {} && orphans[m] == 0
  {
  }

  /** What a send makes of a port that is a slave: its message goes there, the wakeup to its master. */
  function SentOn(ports: map<PortId, Port>, p: PortId, t: TaskId, m: Message, fits: bool): map<PortId, Port>
    requires p in ports && ports[p].slaved in ports
  {
    var q := ports[p];
    if |q.msgs| >= MAX_MSGCOUNT then (if q.nowait != 0 then ports else ports[p := q.(senders := q.senders + [t])])
    else if !fits then ports
    else
      var mid := ports[p := q.(msgs := q.msgs + [m])];
      mid[q.slaved := WakeReceiver(mid[q.slaved])]
  }

  /** Case by case: only the slave's messages and senders change, and its master's receivers. */
  lemma SentOnExactly(ports: map<PortId, Port>, p: PortId, t: TaskId, m: Message, fits: bool)
    requires p in ports && ports[p].slaved in ports && ports[p].slaved != p
    ensures var after, q, s := SentOn(ports, p, t, m, fits), ports[p], ports[p].slaved;
            && after.Keys == ports.Keys
            && (forall x {:trigger after[x]} :: x in ports && x != p && x != s ==> after[x] == ports[x])
            && if |q.msgs| >= MAX_MSGCOUNT && q.nowait == 0 then
                 && after[s] == ports[s] && after[p] == q.(senders := after[p].senders)
                 && after[p].senders == q.senders + [t]
               else if |q.msgs| >= MAX_MSGCOUNT || !fits then after == ports
               else
                 && after[p] == q.(msgs := after[p].msgs) && after[p].msgs == q.msgs + [m]
                 && SameSenders(ports[s], after[s]) && after[s].msgs == ports[s].msgs
                 && FirstWoken(ports[s].receivers, ports[s].wokenReceivers, after[s].receivers, after[s].wokenReceivers)
  {
  }

  /** The port table, and the calls on it. */
  class PortTable {
    var ports: map<PortId, Port>

    /** Slaves destroyed while enslaved, and everything ever sent to and received from each port. */
    ghost var orphans: map<PortId, nat>
    ghost var sent: map<PortId, seq<Message>>
    ghost var received: map<PortId, seq<Message>>

    ghost predicate Valid()
      reads this
    {
      && RefCounted(ports, orphans)
      && InOrder(ports, sent, received)
      && Bounded(ports)
    }

    constructor ()
      ensures Valid() && ports == map[] && AllAwake(ports)
    {
      ports, orphans, sent, received := map[], map[], map[], map[];
    }

    /** A new port under the unused number `id`. */
    method Create(id: PortId, owner: TeamId, restrict: int)
      requires Valid() && id != 0 && id !in ports
      modifies this
      ensures Valid() && (old(AllAwake(ports)) ==> AllAwake(ports))
      ensures ports.Keys == old(ports.Keys) + {id}
      ensures forall p :: p in old(ports) ==> ports[p] == old(ports[p])
      ensures ports[id] == Port(owner, [], 0, 1, 0, restrict, [], [], multiset{}, multiset{})
    {
      hide RefCounted, InOrder, Bounded, AllAwake;
      var p := Port(owner, [], 0, 1, 0, restrict, [], [], multiset{}, multiset{});
      NotThere(ports, orphans, id);
      RefCountedCreate(ports, orphans, id, p);
      TrafficOfNew(ports, id, p, sent, received);
      ports, orphans := ports[id := p], orphans[id := 0];
      sent, received := sent[id := []], received[id := []];
    }

    /** Destroy a port that is nobody's master, waking all its sleepers with an error. */
    method Destroy(id: PortId) returns (status: int, woken: seq<TaskId>)
      requires Valid()
      modifies this
      ensures Valid() && (old(AllAwake(ports)) ==> AllAwake(ports))
      ensures status == ERR_NONE <==> id in old(ports) && Slaves(old(ports), id) == {} && old(orphans)[id] == 0
      ensures status == ERR_NONE || (status == ERR_RESOURCE && ports == old(ports) && woken == [])
      ensures status == ERR_NONE ==> ports == old(ports) - {id} && woken == old(ports[id].receivers + ports[id].senders)
      ensures NobodyStranded(old(ports), ports) <==>
        status != ERR_NONE || (old(ports)[id].wokenReceivers == multiset{} && old(ports)[id].wokenSenders == multiset{})
    {
      hide RefCounted, Slaves, NobodyStranded;
      woken := [];
      NobodyLeaves(ports);
      if id !in ports {
        return ERR_RESOURCE, [];
      }
      OrphansPinMaster(ports, orphans, id);
      if ports[id].refcount == 1 {
        RefCountedDestroy(ports, orphans, id);
        StrandedExactly(ports, id);
        MasterThere(ports, orphans, id);
        woken := ports[id].receivers + ports[id].senders;
        var m := ports[id].slaved;
        if m != 0 {
          orphans := orphans[m := orphans[m] + 1];
        }
        ports, orphans := ports - {id}, orphans - {id};
        sent, received := sent - {id}, received - {id};
        return ERR_NONE, woken;
      }
      return ERR_RESOURCE, [];
    }

    /** Options are for the owner's team; `arg` is the master to be, or 0, for the slave option. */
    method Option(team: TeamId, id: PortId, opt: int, arg: nat) returns (status: int)
      requires Valid()
      modifies this
      ensures Valid() && (old(AllAwake(ports)) ==> AllAwake(ports))
      ensures status != ERR_NONE ==> ports == old(ports)
      ensures status == ERR_NONE <==>
        && id in old(ports) && old(ports)[id].owner == team
        && (opt == PORT_OPT_SETRESTRICT || opt == PORT_OPT_NOWAIT ||
            (opt == PORT_OPT_SLAVE && (arg == 0 || (arg in old(ports) && old(ports)[arg].owner == team))))
      ensures id !in old(ports) ==> status == ERR_RESOURCE
      ensures id in old(ports) && old(ports)[id].owner != team ==> status == ERR_PERMISSION
      ensures status == ERR_NONE ==>
        ports == if opt == PORT_OPT_SLAVE then Enslaved(old(ports), id, arg)
                 else if opt == PORT_OPT_NOWAIT then old(ports)[id := old(ports)[id].(nowait := arg)]
                 else old(ports)[id := old(ports)[id].(restrict := arg)]
      ensures status == ERR_NONE ==> sent == old(sent) && received == old(received) && orphans == old(orphans)
    {
      hide RefCounted, InOrder, Bounded, AllAwake;
      if id !in ports { return ERR_RESOURCE; }
      if ports[id].owner != team { return ERR_PERMISSION; }
      if opt == PORT_OPT_SETRESTRICT {
        RefCountedSame(ports, orphans, id, ports[id].(restrict := arg));
        TrafficKept(ports, ports[id := ports[id].(restrict := arg)], sent, received);
        ports := ports[id := ports[id].(restrict := arg)];
        return ERR_NONE;
      }
      if opt == PORT_OPT_SLAVE {
        status := Enslave(team, id, arg);
        return;
      }
      if opt == PORT_OPT_NOWAIT {
        RefCountedSame(ports, orphans, id, ports[id].(nowait := arg));
        TrafficKept(ports, ports[id := ports[id].(nowait := arg)], sent, received);
        ports := ports[id := ports[id].(nowait := arg)];
        return ERR_NONE;
      }
      return ERR_PERMISSION;
    }

    /** The slave option.  That the old master is found is proved, not tested. */
    method Enslave(team: TeamId, id: PortId, arg: PortId) returns (status: int)
      requires Valid() && id in ports && ports[id].owner == team
      modifies this
      ensures Valid() && (old(AllAwake(ports)) ==> AllAwake(ports))
      ensures status == ERR_NONE <==> arg == 0 || (arg in old(ports) && old(ports)[arg].owner == team)
      ensures status == ERR_NONE ==> ports == Enslaved(old(ports), id, arg)
      ensures status != ERR_NONE ==>
        ports == old(ports) && status == if arg in old(ports) then ERR_PERMISSION else ERR_RESOURCE
      ensures sent == old(sent) && received == old(received) && orphans == old(orphans)
    {
      hide RefCounted, InOrder, Bounded, AllAwake, Referenced, SameTraffic;
      ghost var before := ports;
      if arg != 0 {
        if arg !in ports { return ERR_RESOURCE; }
        if ports[arg].owner != team { return ERR_PERMISSION; }
        EnslavedKeeps(before, orphans, id, arg);
        ports := Referenced(ports, arg, 1);
      }
      EnslavedKeeps(before, orphans, id, arg);
      if ports[id].slaved != 0 {
        ports := Referenced(ports, ports[id].slaved, -1);
      }
      ports := ports[id := ports[id].(slaved := arg)];
      assert ports == Enslaved(before, id, arg);
      TrafficKept(before, ports, sent, received);
      return ERR_NONE;
    }

    /** The part of a send that runs between sleeps, on a port that is not enslaved. */
    method Attempt(t: TaskId, p: PortId, m: Message, addr: nat) returns (o: Outcome)
      requires Valid() && p in ports && ports[p].slaved == 0
      modifies this
      ensures Valid() && orphans == old(orphans) && received == old(received)
      ensures ports == old(ports)[p := SendTo(old(ports)[p], t, m, addr <= USER_LIMIT && |m.data| <= MAX_SIZE)]
      ensures o == if |old(ports)[p].msgs| >= MAX_MSGCOUNT
                   then (if old(ports)[p].nowait != 0 then Returned(ERR_WOULD_BLOCK) else Asleep)
                   else if addr <= USER_LIMIT && |m.data| <= MAX_SIZE then Returned(|m.data|) else Returned(ERR_MEMORY)
      ensures p in sent && sent == if o == Returned(|m.data|) then old(sent)[p := old(sent)[p] + [m]] else old(sent)
    {
      hide RefCounted, InOrder, Bounded;
      TrafficOf(ports, p, sent, received);
      if |ports[p].msgs| >= MAX_MSGCOUNT {
        if ports[p].nowait != 0 {
          return Returned(ERR_WOULD_BLOCK);
        }
        var q := ports[p].(senders := ports[p].senders + [t]);
        TrafficStored(ports, orphans, p, q, sent, received, sent[p], received[p]);
        ports := ports[p := q];
        return Asleep;
      }
      if addr > USER_LIMIT || |m.data| > MAX_SIZE {
        return Returned(ERR_MEMORY);
      }
      var q := Deposit(ports[p], m);
      TrafficStored(ports, orphans, p, q, sent, received, sent[p] + [m], received[p]);
      ports := ports[p := q];
      sent := sent[p := sent[p] + [m]];
      return Returned(|m.data|);
    }

    /** Send `data` from `src` to `dst`, or to its master. */
    method Send(t: TaskId, src: PortId, dst: PortId, addr: nat, data: seq<bv8>, code: int) returns (o: Outcome)
      requires Valid()
      modifies this
      ensures Valid() && (old(AllAwake(ports)) ==> AllAwake(ports))
      ensures src !in old(ports) ==> o == Returned(ERR_SENDPORT) && unchanged(this)
      ensures var (e, p) := Target(old(ports), dst);
              src in old(ports) ==>
                if e != ERR_NONE then o == Returned(e) && unchanged(this)
                else
                  && ports == old(ports)[p := SendTo(old(ports)[p], t, Message(src, dst, code, data), addr <= USER_LIMIT
                    && |data| <= MAX_SIZE)]
                  && o == (if |old(ports)[p].msgs| >= MAX_MSGCOUNT
                           then (if old(ports)[p].nowait != 0 then Returned(ERR_WOULD_BLOCK) else Asleep)
                           else if addr <= USER_LIMIT && |data| <= MAX_SIZE then Returned(|data|)
                           else Returned(ERR_MEMORY))
                  && (o == Returned(|data|) ==> ports[p].msgs == old(ports)[p].msgs + [Message(src, dst, code, data)])
      ensures received == old(received)
    {
      hide RefCounted, InOrder, Bounded;
      if src !in ports { return Returned(ERR_SENDPORT); }
      var (e, p) := Target(ports, dst);
      if e != ERR_NONE { return Returned(e); }
      ghost var before := ports;
      TrafficOf(before, p, sent, received);
      var m := Message(src, dst, code, data);
      if AllAwake(before) { SendLosesNothing(before[p], t, m, addr <= USER_LIMIT && |data| <= MAX_SIZE); }
      o := Attempt(t, p, m, addr);
      AwakeStored(before, p, ports[p]);
    }

    /** The woken task `t` is no longer waiting for the processor. */
    method Woken(p: PortId, q: Port)
      requires Valid() && p in ports
      requires q == ports[p].(wokenSenders := q.wokenSenders, wokenReceivers := q.wokenReceivers)
      modifies this`ports
      ensures Valid() && ports == old(ports)[p := q]
    {
      hide RefCounted, InOrder, Bounded;
      TrafficOf(ports, p, sent, received);
      TrafficStored(ports, orphans, p, q, sent, received, sent[p], received[p]);
      ports := ports[p := q];
    }

    /** A sender that was woken on port `p` runs again. */
    method SendResumed(t: TaskId, p: PortId, m: Message, addr: nat) returns (o: Outcome)
      requires Valid() && p in ports && t in ports[p].wokenSenders
      requires ports[p].slaved == 0
      modifies this
      ensures Valid() && received == old(received)
      ensures old(AllAwake(ports)) && addr <= USER_LIMIT && |m.data| <= MAX_SIZE ==> AllAwake(ports)
      ensures ports == old(ports)[p := SendTo(SenderAwake(old(ports)[p], t), t, m, addr <= USER_LIMIT
        && |m.data| <= MAX_SIZE)]
      ensures p in sent && sent == if o == Returned(|m.data|) then old(sent)[p := old(sent)[p] + [m]] else old(sent)
      ensures o == if |old(ports)[p].msgs| >= MAX_MSGCOUNT
                   then (if old(ports)[p].nowait != 0 then Returned(ERR_WOULD_BLOCK) else Asleep)
                   else if addr <= USER_LIMIT && |m.data| <= MAX_SIZE then Returned(|m.data|) else Returned(ERR_MEMORY)
    {
      hide RefCounted, InOrder, Bounded, SendTo, NoLostWakeup;
      ghost var before := ports;
      if AllAwake(before) { WokenSendLosesNothing(before[p], t, m); }
      Woken(p, SenderAwake(ports[p], t));
      o := Attempt(t, p, m, addr);
      if addr <= USER_LIMIT && |m.data| <= MAX_SIZE { AwakeStored(before, p, ports[p]); }
    }

    /**
     * If `p` was enslaved while the sender slept, the message still goes there, but it is a
     * receiver of the new master that is woken.
     */
    method SendResumedEnslaved(t: TaskId, p: PortId, m: Message, addr: nat) returns (o: Outcome)
      requires Valid() && p in ports && t in ports[p].wokenSenders
      requires ports[p].slaved != 0
      modifies this
      ensures Valid() && received == old(received)
      ensures old(ports)[p].slaved in old(ports)
      ensures ports == SentOn(old(ports)[p := SenderAwake(old(ports)[p], t)], p, t, m, addr <= USER_LIMIT
        && |m.data| <= MAX_SIZE)
      ensures p in sent && sent == if o == Returned(|m.data|) then old(sent)[p := old(sent)[p] + [m]] else old(sent)
      ensures o == if |old(ports)[p].msgs| >= MAX_MSGCOUNT
                   then (if old(ports)[p].nowait != 0 then Returned(ERR_WOULD_BLOCK) else Asleep)
                   else if addr <= USER_LIMIT && |m.data| <= MAX_SIZE then Returned(|m.data|) else Returned(ERR_MEMORY)
    {
      hide RefCounted, InOrder, Bounded, SentOn;
      MasterThere(ports, orphans, p);
      Woken(p, SenderAwake(ports[p], t));
      o := AttemptEnslaved(t, p, m, addr);
    }

    /** The same on a port that has become a slave. */
    method AttemptEnslaved(t: TaskId, p: PortId, m: Message, addr: nat) returns (o: Outcome)
      requires Valid() && p in ports && ports[p].slaved != 0
      modifies this
      ensures Valid() && orphans == old(orphans) && received == old(received)
      ensures old(ports)[p].slaved in old(ports)
      ensures ports == SentOn(old(ports), p, t, m, addr <= USER_LIMIT && |m.data| <= MAX_SIZE)
      ensures o == if |old(ports)[p].msgs| >= MAX_MSGCOUNT
                   then (if old(ports)[p].nowait != 0 then Returned(ERR_WOULD_BLOCK) else Asleep)
                   else if addr <= USER_LIMIT && |m.data| <= MAX_SIZE then Returned(|m.data|) else Returned(ERR_MEMORY)
      ensures p in sent && sent == if o == Returned(|m.data|) then old(sent)[p := old(sent)[p] + [m]] else old(sent)
    {
      hide RefCounted, InOrder, Bounded;
      MasterThere(ports, orphans, p);
      TrafficOf(ports, p, sent, received);
      if |ports[p].msgs| >= MAX_MSGCOUNT {
        if ports[p].nowait != 0 {
          return Returned(ERR_WOULD_BLOCK);
        }
        var q := ports[p].(senders := ports[p].senders + [t]);
        TrafficStored(ports, orphans, p, q, sent, received, sent[p], received[p]);
        ports := ports[p := q];
        return Asleep;
      }
      if addr > USER_LIMIT || |m.data| > MAX_SIZE {
        return Returned(ERR_MEMORY);
      }
      var q := ports[p].(msgs := ports[p].msgs + [m]);
      TrafficStored(ports, orphans, p, q, sent, received, sent[p] + [m], received[p]);
      ports := ports[p := q];
      sent := sent[p := sent[p] + [m]];
      MasterThere(ports, orphans, p);
      var p0 := q.slaved;
      TrafficOf(ports, p0, sent, received);
      TrafficStored(ports, orphans, p0, WakeReceiver(ports[p0]), sent, received, sent[p0], received[p0]);
      ports := ports[p0 := WakeReceiver(ports[p0])];
      return Returned(|m.data|);
    }

    /** The part of a receive that runs between sleeps; `taken` is the message received, if any. */
    method Take(t: TaskId, p: PortId) returns (o: Outcome, taken: seq<Message>)
      requires Valid() && p in ports
      modifies this
      ensures Valid() && orphans == old(orphans) && sent == old(sent)
      ensures ports == old(ports)[p := RecvFrom(old(ports)[p], t)]
      ensures taken == if old(ports)[p].msgs == [] then [] else [old(ports)[p].msgs[0]]
      ensures p in received && received == old(received)[p := old(received)[p] + taken]
      ensures taken == [] ==> o == if old(ports)[p].nowait != 0 then Returned(ERR_WOULD_BLOCK) else Asleep
      ensures taken != [] ==> o == Returned(|taken[0].data|)
    {
      hide RefCounted, InOrder, Bounded;
      TrafficOf(ports, p, sent, received);
      if ports[p].msgs == [] {
        assert received[p] + [] == received[p];
        if ports[p].nowait != 0 {
          return Returned(ERR_WOULD_BLOCK), [];
        }
        var q := ports[p].(receivers := ports[p].receivers + [t]);
        TrafficStored(ports, orphans, p, q, sent, received, sent[p], received[p]);
        ports := ports[p := q];
        return Asleep, [];
      }
      taken := [ports[p].msgs[0]];
      var q := Withdraw(ports[p]);
      assert ports[p].msgs == taken + q.msgs;
      TrafficStored(ports, orphans, p, q, sent, received, sent[p], received[p] + taken);
      ports := ports[p := q];
      received := received[p := received[p] + taken];
      return Returned(|taken[0].data|), taken;
    }

    /** Receive the oldest message of `dst`: at most `size` bytes of it are copied. */
    method Recv(t: TaskId, kernelTeam: bool, dst: PortId, addr: nat, size: nat)
      returns (o: Outcome, src: PortId, code: int, data: seq<bv8>)
      requires Valid()
      modifies this
      ensures Valid() && (old(AllAwake(ports)) ==> AllAwake(ports))
      ensures dst !in old(ports) ==> o == Returned(ERR_RECVPORT) && unchanged(this)
      ensures dst in old(ports) && !kernelTeam && addr > USER_LIMIT ==> o == Returned(ERR_MEMORY) && unchanged(this)
      ensures dst in old(ports) && (kernelTeam || addr <= USER_LIMIT) ==>
        && ports == old(ports)[dst := RecvFrom(old(ports)[dst], t)]
        && dst in received && dst in old(received)
        && if old(ports)[dst].msgs == [] then
             o == (if old(ports)[dst].nowait != 0 then Returned(ERR_WOULD_BLOCK) else Asleep)
               && received == old(received)
           else
             var m := old(ports)[dst].msgs[0];
             && received == old(received)[dst := old(received)[dst] + [m]]
             && src == m.fromPort && code == m.code && data <= m.data
             && |data| == (if size < |m.data| then size else |m.data|) && o == Returned(|data|)
    {
      hide RefCounted, InOrder, Bounded;
      src, code, data := 0, 0, [];
      if dst !in ports { return Returned(ERR_RECVPORT), src, code, data; }
      if !kernelTeam && addr > USER_LIMIT { return Returned(ERR_MEMORY), src, code, data; }
      ghost var before := ports;
      TrafficOf(before, dst, sent, received);
      if AllAwake(before) { RecvLosesNothing(before[dst], t); }
      var taken;
      o, taken := Take(t, dst);
      AwakeStored(before, dst, ports[dst]);
      if taken == [] {
        assert old(received)[dst] + [] == old(received)[dst];
        return;
      }
      o, src, code, data := Copied(taken[0], size);
    }

    /** What a receive copies out of a message. */
    method Copied(m: Message, size: nat) returns (o: Outcome, src: PortId, code: int, data: seq<bv8>)
      ensures src == m.fromPort && code == m.code && data <= m.data
      ensures |data| == (if size < |m.data| then size else |m.data|) && o == Returned(|data|)
    {
      data := [];
      while |data| < |m.data| && |data| < size
        invariant data <= m.data && |data| <= size
      {
        data := data + [m.data[|data|]];
      }
      return Returned(if size < |m.data| then size else |m.data|), m.fromPort, m.code, data;
    }

    /** A receiver that was woken on `dst` runs again. */
    method RecvResumed(t: TaskId, dst: PortId, size: nat) returns (o: Outcome, src: PortId, code: int, data: seq<bv8>)
      requires Valid() && dst in ports && t in ports[dst].wokenReceivers
      modifies this
      ensures Valid() && (old(AllAwake(ports)) ==> AllAwake(ports))
      ensures ports == old(ports)[dst := RecvFrom(ReceiverAwake(old(ports)[dst], t), t)]
      ensures old(ports)[dst].msgs == [] ==>
        o == if old(ports)[dst].nowait != 0 then Returned(ERR_WOULD_BLOCK) else Asleep
      ensures old(ports)[dst].msgs != [] ==>
        var m := old(ports)[dst].msgs[0];
        && src == m.fromPort && code == m.code && data <= m.data
        && |data| == (if size < |m.data| then size else |m.data|) && o == Returned(|data|)
      ensures dst in received && dst in old(received)
      ensures received[dst] == old(received)[dst] +
        (if old(ports)[dst].msgs == [] then [] else [old(ports)[dst].msgs[0]])
    {
      hide RefCounted, InOrder, Bounded, RecvFrom, NoLostWakeup;
      src, code, data := 0, 0, [];
      ghost var before := ports;
      TrafficOf(before, dst, sent, received);
      if AllAwake(before) { WokenRecvLosesNothing(before[dst], t); }
      Woken(dst, ReceiverAwake(ports[dst], t));
      var taken;
      o, taken := Take(t, dst);
      AwakeStored(before, dst, ports[dst]);
      if taken == [] {
        return;
      }
      o, src, code, data := Copied(taken[0], size);
    }
  }
}
