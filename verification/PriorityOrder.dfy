/**
 Which process runs, over whole runs: when the best of the processes that could run does, and when it does not. Two
 orders matter, that of priorities and the stronger one that counts KCD and CRT at HIGHEST as above all others.
 */
module PriorityOrder {
  import opened Constants
  import opened Integers
  import opened Sequences
  import opened PriorityQueues
  import opened MessageQueues
  import opened KernelState
  import opened Scheduling
  import opened KernelCalls
  import opened MessageHistory
  import opened Boot
  import opened KernelRuns
  import opened Timers

  /** Nobody ready has a better priority than the running process. */
  ghost predicate InOrder(s: System) {
    Shape(s.k) && s.k.running != PID_NONE && Safe(s.k)
  }

  /** Nobody ready is more urgent than the running process. */
  ghost predicate InStrongOrder(s: System) {
    Shape(s.k) && s.k.running != PID_NONE && StronglySafe(s.k)
  }

  // ----- When an order is lost -----

  /** A message for `p` in the delayed queue has expired when the clock reads `now`. */
  ghost predicate HasDue(delayed: seq<int>, hdr: seq<Header>, p: int, now: int)
    requires Within(delayed, |hdr|)
  {
    exists i :: 0 <= i < |delayed| && hdr[delayed[i]].receiver == p && hdr[delayed[i]].expiry <= Wrapped(now)
  }

  /** The processes that the deliveries of tick `now` take out of their wait for mail. */
  ghost function DueReceivers(k: State, now: int): set<int>
    requires Shape(k)
  {
    set p | 0 <= p < NUM_PROCS && k.proc[p].state == BLOCKED_ON_RECEIVE && HasDue(k.delayed, k.hdr, p, now)
  }

  /** KCD or CRT runs at HIGHEST, and the best of `others` are as important as it but neither KCD nor CRT. */
  ghost predicate HandsToEqual(proc: seq<Pcb>, running: int, others: set<int>)
    requires 0 <= running < |proc| && forall p :: p in others ==> 0 <= p < |proc|
  {
    && Jumps(running) && proc[running].priority == HIGHEST
    && (exists p :: p in others && proc[p].priority == HIGHEST)
    && (forall p :: p in others && proc[p].priority == HIGHEST ==> !Jumps(p))
  }

  ghost predicate SomeBetter(proc: seq<Pcb>, running: int, others: set<int>)
    requires 0 <= running < |proc| && forall p :: p in others ==> 0 <= p < |proc|
  {
    exists p :: p in others && proc[p].priority < proc[running].priority
  }

  ghost predicate SomeMoreUrgent(proc: seq<Pcb>, running: int, others: set<int>)
    requires 0 <= running < |proc| && forall p :: p in others ==> 0 <= p < |proc|
  {
    exists p :: p in others && Urgency(proc, p) < Urgency(proc, running)
  }

  /** A tick without a check, when a message for somebody of better priority is due. */
  ghost predicate TickLosesOrder(k: State, check: TickCheck)
    requires Shape(k) && 0 <= k.running < NUM_PROCS
  {
    check.Skipped? && SomeBetter(k.proc, k.running, DueReceivers(k, k.now + 1))
  }

  /** So for somebody more urgent; or an eager check that takes the processor from KCD or CRT for an equal. */
  ghost predicate TickLosesStrongOrder(k: State, check: TickCheck)
    requires Shape(k) && 0 <= k.running < NUM_PROCS
  {
    match check
    case Plain => false
    case Eager => HandsToEqual(k.proc, k.running, ReadySet(k.proc) + DueReceivers(k, k.now + 1))
    case Skipped => SomeMoreUrgent(k.proc, k.running, DueReceivers(k, k.now + 1))
  }

  ghost predicate LosesOrder(s: System, ev: Event)
    requires Bounds(s)
  {
    ev.TimerTick? && TickLosesOrder(s.k, ev.check)
  }

  ghost predicate LosesStrongOrder(s: System, ev: Event)
    requires Bounds(s)
  {
    match ev
    case Release => HandsToEqual(s.k.proc, s.k.running, ReadySet(s.k.proc))
    case TimerTick(check) => TickLosesStrongOrder(s.k, check)
    case _ => false
  }

  // ----- One step -----

  /** With a process to switch to or not, the eager check is the wake-up and a k_release_processor. */
  lemma EagerCheckIsRelease(k: State)
    requires Inv(k)
    ensures Inv(WakeForMemory(k)) && CheckPreemption(k, true) == ReleaseProcessor(WakeForMemory(k))
  {
    WakeForMemoryKeepsInvariant(k);
    var k1 := WakeForMemory(k);
    var at := PeekServesMostUrgent(k1.ready, ReadySet(k1.proc), k1.proc);
    ReleaseDispatches(k1);
  }

  /** The same processes run and wait as before, or the most urgent one runs. */
  ghost predicate SameOrSettled(k: State, k': State)
    requires Shape(k')
  {
    || (k'.proc == k.proc && k'.running == k.running)
    || (k'.running != PID_NONE && Safe(k') && StronglySafe(k'))
  }

  lemma CheckSettles(k: State, k': State)
    requires Inv(k) && k' == CheckPreemption(k, false)
    ensures Inv(k') && Safe(k') && StronglySafe(k')
  {
    CheckKeepsInvariant(k, false, k');
  }

  lemma SendSettles(k: State, p: int, e: int)
    requires Inv(k) && (e == NULL || 0 <= e < NUM_ENVELOPES)
    ensures SameOrSettled(k, SendMessage(k, p, e).0)
  {
    if ValidMessage(p, e) {
      SendHelperKeepsInv(k, k.running, p, e);
      CheckSettles(SendHelper(k, k.running, p, e), CheckPreemption(SendHelper(k, k.running, p, e), false));
    }
  }

  lemma SetPrioritySettles(k: State, pid: int, priority: int)
    requires Inv(k)
    ensures SameOrSettled(k, SetProcessPriority(k, pid, priority).0)
  {
    if 1 <= pid < NUM_PROCS && 0 <= priority < NULL_PRIO && k.proc[pid].priority != priority {
      PriorityChangeKeepsInvariant(k, pid, priority);
      CheckSettles(Reprioritised(k, pid, priority), CheckPreemption(Reprioritised(k, pid, priority), false));
    }
  }

  lemma ReleaseBlockSettles(k: State, b: int)
    requires Inv(k)
    ensures SameOrSettled(k, ReleaseMemoryBlock(k, b).0)
  {
    if ReleaseValid(k, b) {
      CheckSettles(k.(heap := k.heap + [b]), CheckPreemption(k.(heap := k.heap + [b]), false));
    }
  }

  lemma ReceiveSettles(k: State)
    requires Inv(k) && k.running != PID_NULL && forall e :: e in k.mail[k.running] ==> 0 <= e < NUM_ENVELOPES
    ensures SameOrSettled(k, ReceiveMessage(k).0)
  {
    if k.mail[k.running] == [] {
      PollCall(k, BLOCKED_ON_RECEIVE);
    }
  }

  lemma RequestSettles(k: State)
    requires Inv(k) && k.running != PID_NULL
    ensures SameOrSettled(k, RequestMemoryBlock(k).0)
  {
    if k.heap == [] {
      PollCall(k, BLOCKED_ON_RESOURCE);
    }
  }

  lemma UartSettles(k: State, notify: bool, p: int, e: int, k': State)
    requires Inv(k) && (notify ==> 0 <= p < NUM_PROCS && 0 <= e < NUM_ENVELOPES)
    requires k' == UartInterrupt(k, notify, p, e)
    ensures Inv(k') && Safe(k') && StronglySafe(k')
  {
    if notify {
      SendHelperKeepsInv(k, PID_UART_IPROC, p, e);
      CheckSettles(SendHelper(k, PID_UART_IPROC, p, e), k');
    } else {
      CheckSettles(k, k');
    }
  }

  lemma CallSettles(s: System, ev: Event, s': System)
    requires SystemInv(s) && Bounds(s) && Enabled(s, ev) && s' == Step(s, ev) && Bounds(s')
    requires ev.SetPriority? || ev.Send? || ev.SendDelayed? || ev.Receive? || ev.Request? || ev.ReleaseBlock?
    ensures SameOrSettled(s.k, s'.k)
  {
    match ev
    case SetPriority(pid, priority) => SetPrioritySettles(s.k, pid, priority);
    case Send(p, e) => SendSettles(s.k, p, e);
    case SendDelayed(p, e, delay) => SendSettles(s.k, p, e);
    case Receive => ReceiveSettles(s.k);
    case Request => RequestSettles(s.k);
    case ReleaseBlock(b) => ReleaseBlockSettles(s.k, b);
  }

  lemma StepSettles(s: System, ev: Event, s': System)
    requires SystemInv(s) && Bounds(s) && Enabled(s, ev) && s' == Step(s, ev) && Bounds(s')
    requires !ev.Release? && !ev.TimerTick?
    ensures SameOrSettled(s.k, s'.k)
  {
    match ev
    case Write(e, h) =>
    case GiveBack(e) =>
    case UartNotify(p, e) => UartSettles(s.k, true, p, e, s'.k);
    case UartQuiet => UartSettles(s.k, false, 0, 0, s'.k);
    case _ => CallSettles(s, ev, s');
  }

  // ----- A tick -----

  /** The kernel after the deliveries of the next tick. */
  function NextDeliveries(k: State): (k': State)
    requires Shape(k)
    ensures Shape(k') && k'.running == k.running
  {
    DeliverDue(k.(now := k.now + 1))
  }

  /** No priority changes, and exactly `woken` become ready. */
  ghost predicate Wakes(k: State, woken: set<int>, k': State)
    requires Shape(k) && Shape(k')
  {
    && (forall p :: 0 <= p < NUM_PROCS ==> k'.proc[p].priority == k.proc[p].priority)
    && ReadySet(k'.proc) == ReadySet(k.proc) + woken
  }

  /** With nothing due at the front of an ascending queue, nothing is due at all. */
  lemma NobodyDue(k: State)
    requires Shape(k) && Ascending(Expiries(k.hdr, k.delayed))
    requires k.delayed == [] || k.hdr[k.delayed[0]].expiry > Wrapped(k.now)
    ensures DueReceivers(k, k.now) == {}
  {
    var keys := Expiries(k.hdr, k.delayed);
    assert forall i :: 0 <= i < |k.delayed| ==> keys[0] <= keys[i] == k.hdr[k.delayed[i]].expiry;
  }

  /** Delivering the front message: the rest of the queue is as it was. */
  lemma FrontDelivered(k: State, e: int, k1: State)
    requires Shape(k) && Ascending(Expiries(k.hdr, k.delayed)) && k.delayed != [] && e == k.delayed[0]
    requires k1 == SendHelper(k.(delayed := k.delayed[1..]), k.hdr[e].sender, k.hdr[e].receiver, e)
    ensures Shape(k1) && Ascending(Expiries(k1.hdr, k1.delayed))
    ensures forall i :: 0 <= i < |k1.delayed| ==> k1.delayed[i] == k.delayed[i + 1]
    ensures forall i :: 0 <= i < NUM_ENVELOPES ==>
              k1.hdr[i].receiver == k.hdr[i].receiver && k1.hdr[i].expiry == k.hdr[i].expiry
    ensures Wakes(k, ReceiveSet(k.proc) * {k.hdr[e].receiver}, k1)
    ensures ReceiveSet(k1.proc) == ReceiveSet(k.proc) - {k.hdr[e].receiver}
  {
    var keys, keys1 := Expiries(k.hdr, k.delayed), Expiries(k1.hdr, k1.delayed);
    assert forall i :: 0 <= i < |keys1| ==> keys1[i] == keys[i + 1];
  }

  lemma DueShrinks(k: State, e: int, k1: State)
    requires Shape(k) && k.delayed != [] && e == k.delayed[0] && k.hdr[e].expiry <= Wrapped(k.now)
    requires Shape(k1) && k1.now == k.now && |k1.delayed| == |k.delayed| - 1
    requires forall i :: 0 <= i < |k1.delayed| ==> k1.delayed[i] == k.delayed[i + 1]
    requires forall i :: 0 <= i < NUM_ENVELOPES ==>
              k1.hdr[i].receiver == k.hdr[i].receiver && k1.hdr[i].expiry == k.hdr[i].expiry
    requires ReceiveSet(k1.proc) == ReceiveSet(k.proc) - {k.hdr[e].receiver}
    ensures DueReceivers(k, k.now) ==
            DueReceivers(k1, k.now) + (ReceiveSet(k.proc) * {k.hdr[e].receiver})
  {
    forall p ensures p != k.hdr[e].receiver ==>
        (HasDue(k.delayed, k.hdr, p, k.now) <==> HasDue(k1.delayed, k1.hdr, p, k.now)) {
      if i :| 0 <= i < |k.delayed| && k.hdr[k.delayed[i]].receiver == p && k.hdr[k.delayed[i]].expiry <= Wrapped(k.now)
      {
        if i > 0 {
          assert k1.delayed[i - 1] == k.delayed[i];
        }
      }
    }
    forall p ensures p in DueReceivers(k, k.now) <==>
        p in DueReceivers(k1, k.now) || (p == k.hdr[e].receiver && p in ReceiveSet(k.proc)) {
      assert p in ReceiveSet(k1.proc) <==> p in ReceiveSet(k.proc) && p != k.hdr[e].receiver;
    }
  }

  lemma WakesMore(k: State, first: set<int>, k1: State, second: set<int>, k2: State)
    requires Shape(k) && Shape(k1) && Shape(k2) && Wakes(k, first, k1) && Wakes(k1, second, k2)
    ensures Wakes(k, second + first, k2)
  {
  }

  /** The deliveries wake exactly those who wait for mail and have a message due. */
  lemma {:induction false} DeliveriesWake(k: State)
    requires Shape(k) && Ascending(Expiries(k.hdr, k.delayed))
    ensures Wakes(k, DueReceivers(k, k.now), DeliverDue(k))
    decreases |k.delayed|
  {
    if k.delayed == [] || k.hdr[k.delayed[0]].expiry > Wrapped(k.now) {
      NobodyDue(k);
    } else {
      var e := k.delayed[0];
      var k1 := SendHelper(k.(delayed := k.delayed[1..]), k.hdr[e].sender, k.hdr[e].receiver, e);
      FrontDelivered(k, e, k1);
      DueShrinks(k, e, k1);
      DeliveriesWake(k1);
      WakesMore(k, ReceiveSet(k.proc) * {k.hdr[e].receiver}, k1, DueReceivers(k1, k.now), DeliverDue(k1));
    }
  }

  lemma DelayedAscends(s: System)
    requires SystemInv(s)
    ensures Shape(s.k) && Ascending(Expiries(s.k.hdr, s.k.delayed))
  {
    var keys := Expiries(s.k.hdr, s.k.delayed);
    forall i, j | 0 <= i < j < |keys| ensures keys[i] <= keys[j] {
      assert Carries(s.k.delayed[i], s.k.hdr, s.sent[s.pending[i]]);
      assert Carries(s.k.delayed[j], s.k.hdr, s.sent[s.pending[j]]);
      assert Earlier(s.sent, s.pending[i], s.pending[j]);
    }
  }

  /** `k1` is the kernel when the clock has moved, `d` after the deliveries. */
  lemma DeliveriesKeepInv(k1: State, d: State, receiving: set<int>, requesting: set<int>)
    requires Quiescent(k1, receiving, requesting) && d == DeliverDue(k1)
    ensures Inv(d) && MemoryServed(d)
  {
    DeliverDueKeeps(k1, receiving);
  }

  lemma NextTickWakes(k: State, k1: State, d: State)
    requires Shape(k) && k1 == k.(now := k.now + 1) && Shape(k1) && d == DeliverDue(k1)
    requires Ascending(Expiries(k.hdr, k.delayed))
    ensures Wakes(k, DueReceivers(k, k.now + 1), d)
  {
    DeliveriesWake(k1);
    assert DueReceivers(k1, k1.now) == DueReceivers(k, k.now + 1);
  }

  lemma NextIsDelivery(k: State, k1: State, d: State)
    requires Shape(k) && k1 == k.(now := k.now + 1) && d == NextDeliveries(k)
    ensures Shape(k1) && d == DeliverDue(k1)
  {
  }

  lemma TickWakes(s: System, k: State, d: State)
    requires SystemInv(s) && s.k == k && Shape(k) && d == NextDeliveries(k)
    ensures Inv(d) && MemoryServed(d) && Wakes(k, DueReceivers(k, k.now + 1), d)
  {
    var k1 := k.(now := k.now + 1);
    DelayedAscends(s);
    NextIsDelivery(k, k1, d);
    ClockMoves(k, k1, s.receiving, s.requesting);
    DeliveriesKeepInv(k1, d, s.receiving, s.requesting);
    NextTickWakes(k, k1, d);
  }

  /** From a state in order, order is lost exactly if `lost`; the same for the strong order. */
  ghost predicate KeepsOrders(k: State, k': State, lost: bool, lostStrong: bool)
    requires Shape(k) && k.running != PID_NONE && Shape(k') && k'.running != PID_NONE
  {
    (Safe(k) ==> (Safe(k') <==> !lost)) && (StronglySafe(k) ==> (StronglySafe(k') <==> !lostStrong))
  }

  /** A tick without a check leaves the order as it was but for those it wakes. */
  lemma SkippedTick(k: State, woken: set<int>, d: State)
    requires Shape(k) && Shape(d) && 0 <= k.running < NUM_PROCS && d.running == k.running && Wakes(k, woken, d)
    requires woken == DueReceivers(k, k.now + 1)
    ensures KeepsOrders(k, d, TickLosesOrder(k, Skipped), TickLosesStrongOrder(k, Skipped))
  {
    assert forall p :: 0 <= p < NUM_PROCS ==> Urgency(d.proc, p) == Urgency(k.proc, p);
  }

  /** In terms of the queue: the first in line is just as important, and neither KCD nor CRT. */
  lemma EqualIsFirst(k: State)
    requires Inv(k)
    ensures HandsToEqual(k.proc, k.running, ReadySet(k.proc)) <==>
            Jumps(k.running) && k.proc[k.running].priority == HIGHEST && Peek(k.ready, k.proc).1 == HIGHEST
  {
    var at := PeekServesMostUrgent(k.ready, ReadySet(k.proc), k.proc);
    assert forall p :: p in ReadySet(k.proc) ==> 0 <= k.proc[p].priority;
  }

  lemma ReleaseSettles(k: State, k': State)
    requires Inv(k) && k' == ReleaseProcessor(k)
    ensures Inv(k') && Safe(k')
    ensures StronglySafe(k') <==> !HandsToEqual(k.proc, k.running, ReadySet(k.proc))
  {
    ReleaseKeepsInvariant(k, k');
    StrongOrderAfterRelease(k);
    EqualIsFirst(k);
  }

  /** While a block is free nobody waits for one, so the check wakes nobody. */
  lemma NobodyWaitsForMemory(d: State, k1: State)
    requires Inv(d) && MemoryServed(d) && k1 == WakeForMemory(d)
    ensures k1.proc == d.proc && k1.running == d.running
  {
    if d.heap != [] {
      forall p | 0 <= p < NUM_PROCS ensures k1.proc[p] == d.proc[p] {
        assert p !in BlockedSet(d.proc);
      }
    }
  }

  lemma EagerSettles(d: State, k1: State, k': State)
    requires Inv(d) && MemoryServed(d) && k1 == WakeForMemory(d) && k' == CheckPreemption(d, true)
    ensures Inv(k') && Safe(k')
    ensures StronglySafe(k') <==> !HandsToEqual(d.proc, d.running, ReadySet(d.proc))
  {
    EagerCheckIsRelease(d);
    ReleaseSettles(k1, k');
    NobodyWaitsForMemory(d, k1);
  }

  lemma SamePrioritiesHand(k: State, woken: set<int>, d: State)
    requires Shape(k) && Shape(d) && 0 <= k.running < NUM_PROCS && d.running == k.running && Wakes(k, woken, d)
    requires forall p :: p in woken ==> 0 <= p < NUM_PROCS
    ensures HandsToEqual(d.proc, d.running, ReadySet(d.proc)) <==>
            HandsToEqual(k.proc, k.running, ReadySet(k.proc) + woken)
  {
  }

  lemma EagerLeaves(k: State, woken: set<int>, d: State, k': State)
    requires Shape(k) && 0 <= k.running < NUM_PROCS && Inv(d) && MemoryServed(d) && d.running == k.running
    requires Wakes(k, woken, d) && forall p :: p in woken ==> 0 <= p < NUM_PROCS
    requires k' == CheckPreemption(d, true)
    ensures Inv(k') && Safe(k')
    ensures StronglySafe(k') <==> !HandsToEqual(k.proc, k.running, ReadySet(k.proc) + woken)
  {
    EagerSettles(d, WakeForMemory(d), k');
    SamePrioritiesHand(k, woken, d);
  }

  lemma EagerOrders(k: State, k': State)
    requires Shape(k) && 0 <= k.running < NUM_PROCS && Shape(k') && k'.running != PID_NONE && Safe(k')
    requires StronglySafe(k') <==>
             !HandsToEqual(k.proc, k.running, ReadySet(k.proc) + DueReceivers(k, k.now + 1))
    ensures KeepsOrders(k, k', TickLosesOrder(k, Eager), TickLosesStrongOrder(k, Eager))
  {
  }

  lemma EagerTick(k: State, d: State, k': State)
    requires Shape(k) && 0 <= k.running < NUM_PROCS && Inv(d) && MemoryServed(d) && d.running == k.running
    requires Wakes(k, DueReceivers(k, k.now + 1), d) && k' == CheckPreemption(d, true)
    ensures k'.running != PID_NONE && KeepsOrders(k, k', TickLosesOrder(k, Eager), TickLosesStrongOrder(k, Eager))
  {
    EagerLeaves(k, DueReceivers(k, k.now + 1), d, k');
    EagerOrders(k, k');
  }

  lemma PlainTick(k: State, d: State, k': State)
    requires Shape(k) && 0 <= k.running < NUM_PROCS && Inv(d) && k' == CheckPreemption(d, false)
    ensures Inv(k') && KeepsOrders(k, k', TickLosesOrder(k, Plain), TickLosesStrongOrder(k, Plain))
  {
    CheckSettles(d, k');
  }

  lemma TickOrder(k: State, check: TickCheck, d: State, k': State)
    requires Shape(k) && 0 <= k.running < NUM_PROCS && Inv(d) && MemoryServed(d) && d.running == k.running
    requires Wakes(k, DueReceivers(k, k.now + 1), d)
    requires k' == AfterTick(d, check) && k'.running != PID_NONE
    ensures KeepsOrders(k, k', TickLosesOrder(k, check), TickLosesStrongOrder(k, check))
  {
    if check.Plain? {
      PlainTick(k, d, k');
    } else if check.Eager? {
      EagerTick(k, d, k');
    } else {
      SkippedTick(k, DueReceivers(k, k.now + 1), d);
    }
  }

  lemma TickIs(s: System, check: TickCheck, s': System)
    requires Bounds(s) && s' == Step(s, TimerTick(check))
    ensures s'.k == AfterTick(NextDeliveries(s.k), check)
  {
  }

  lemma TickStepOrder(s: System, k: State, check: TickCheck, d: State, k': State)
    requires SystemInv(s) && s.k == k && Shape(k) && 0 <= k.running < NUM_PROCS
    requires d == NextDeliveries(k) && k' == AfterTick(d, check) && k'.running != PID_NONE
    ensures KeepsOrders(k, k', TickLosesOrder(k, check), TickLosesStrongOrder(k, check))
  {
    TickWakes(s, k, d);
    TickOrder(k, check, d, k');
  }

  lemma ReleaseOrder(s: System, s': System)
    requires SystemInv(s) && Bounds(s) && s'.k == ReleaseProcessor(s.k) && Bounds(s')
    ensures InOrder(s')
    ensures InStrongOrder(s') <==> !HandsToEqual(s.k.proc, s.k.running, ReadySet(s.k.proc))
  {
    ReleaseSettles(s.k, s'.k);
  }

  /** From a state in order, a step leads out of it exactly if it is one of the steps named above. */
  lemma StepOrder(s: System, ev: Event, s': System)
    requires SystemInv(s) && Bounds(s) && Enabled(s, ev) && s' == Step(s, ev) && Bounds(s')
    ensures InOrder(s) ==> (InOrder(s') <==> !LosesOrder(s, ev))
    ensures InStrongOrder(s) ==> (InStrongOrder(s') <==> !LosesStrongOrder(s, ev))
  {
    match ev
    case Release => ReleaseOrder(s, s');
    case TimerTick(check) =>
      TickIs(s, check, s');
      TickStepOrder(s, s.k, check, NextDeliveries(s.k), s'.k);
    case _ => StepSettles(s, ev, s');
  }

  // ----- Whole runs -----

  lemma BootedInOrder()
    ensures InOrder(Booted()) && InStrongOrder(Booted())
  {
    BootEstablishesInvariant();
    BootedInvariant();
    InvariantGivesBounds(Booted());
    var k := Booted().k;
    forall p | p in ReadySet(k.proc) ensures k.proc[k.running].priority <= k.proc[p].priority {
      UrgencyAndPriority(k.proc, k.proc, k.running, p);
    }
  }

  lemma RunStep(run: seq<System>, events: seq<Event>, i: nat)
    requires IsRun(run, events) && i < |events|
    ensures SystemInv(run[i]) && Bounds(run[i]) && Bounds(run[i + 1])
    ensures InOrder(run[i]) ==> (InOrder(run[i + 1]) <==> !LosesOrder(run[i], events[i]))
    ensures InStrongOrder(run[i]) ==> (InStrongOrder(run[i + 1]) <==> !LosesStrongOrder(run[i], events[i]))
  {
    RunsKeepInvariant(run, events, i);
    RunsKeepInvariant(run, events, i + 1);
    InvariantGivesBounds(run[i + 1]);
    StepOrder(run[i], events[i], run[i + 1]);
  }

  lemma OrderChain(run: seq<System>, events: seq<Event>, n: nat, well: seq<bool>, bad: seq<bool>)
    requires IsRun(run, events) && n < |run| && |well| == n + 1 && |bad| == n
    requires forall i :: 0 <= i <= n ==> well[i] == InOrder(run[i])
    requires forall i :: 0 <= i < n ==> bad[i] == LosesOrder(run[i], events[i])
    ensures (forall i :: 0 <= i <= n ==> well[i]) <==> (forall i :: 0 <= i < n ==> !bad[i])
  {
    BootedInOrder();
    forall i | 0 <= i < n ensures well[i] ==> (well[i + 1] <==> !bad[i]) {
      RunStep(run, events, i);
    }
    NoBadLink(well, bad, n);
  }

  /**
   The best priority runs: in all states up to `n` of a run nobody ready has a better priority than the running process
   if and only if no tick before it goes without the check while the delayed queue holds, due on that tick, a message
   for a process of better priority that waits for mail.
   */
  lemma BestPriorityRuns(run: seq<System>, events: seq<Event>, n: nat)
    requires IsRun(run, events) && n < |run|
    ensures (forall i :: 0 <= i <= n ==> InOrder(run[i])) <==>
            (forall i :: 0 <= i < n ==> !LosesOrder(run[i], events[i]))
  {
    var well := seq(n + 1, i requires 0 <= i <= n => InOrder(run[i]));
    var bad := seq(n, i requires 0 <= i < n => LosesOrder(run[i], events[i]));
    OrderChain(run, events, n, well, bad);
    assert forall i :: 0 <= i <= n ==> well[i] == InOrder(run[i]);
    assert forall i :: 0 <= i < n ==> bad[i] == LosesOrder(run[i], events[i]);
  }

  lemma StrongOrderChain(run: seq<System>, events: seq<Event>, n: nat, well: seq<bool>, bad: seq<bool>)
    requires IsRun(run, events) && n < |run| && |well| == n + 1 && |bad| == n
    requires forall i :: 0 <= i <= n ==> well[i] == InStrongOrder(run[i])
    requires forall i :: 0 <= i < n ==> bad[i] == LosesStrongOrder(run[i], events[i])
    ensures (forall i :: 0 <= i <= n ==> well[i]) <==> (forall i :: 0 <= i < n ==> !bad[i])
  {
    BootedInOrder();
    forall i | 0 <= i < n ensures well[i] ==> (well[i + 1] <==> !bad[i]) {
      RunStep(run, events, i);
    }
    NoBadLink(well, bad, n);
  }

  /**
   The most urgent process runs: in all states up to `n` of a run nobody ready is more urgent than the running process
   if and only if none of these steps comes before it: a release_processor by KCD or CRT at HIGHEST while somebody ready
   has that priority but neither of the two does; an eager check in the same situation, where those with a message due
   on that tick count as ready; a tick without a check when a message for somebody more urgent is due.
   */
  lemma MostUrgentRuns(run: seq<System>, events: seq<Event>, n: nat)
    requires IsRun(run, events) && n < |run|
    ensures (forall i :: 0 <= i <= n ==> InStrongOrder(run[i])) <==>
            (forall i :: 0 <= i < n ==> !LosesStrongOrder(run[i], events[i]))
  {
    var well := seq(n + 1, i requires 0 <= i <= n => InStrongOrder(run[i]));
    var bad := seq(n, i requires 0 <= i < n => LosesStrongOrder(run[i], events[i]));
    StrongOrderChain(run, events, n, well, bad);
    assert forall i :: 0 <= i <= n ==> well[i] == InStrongOrder(run[i]);
    assert forall i :: 0 <= i < n ==> bad[i] == LosesStrongOrder(run[i], events[i]);
  }

  /**
   Scheduling over whole runs: one process is RUN; unless ticks went without a check, it has the best priority of all
   that could run; and, unless there were eager checks or KCD or CRT released the processor, it is the most urgent.
   Memory waiters exist only while no block is free, and a process that comes back from the wait in k_receive_message
   has mail.
   */
  lemma SchedulingIsSafe(run: seq<System>, events: seq<Event>, i: nat)
    requires IsRun(run, events) && i < |run|
    ensures Bounds(run[i])
    ensures var s := run[i];
            && (forall p :: 0 <= p < NUM_PROCS ==> (s.k.proc[p].state == RUN <==> p == s.k.running))
            && ((forall j :: 0 <= j < i ==> events[j] != TimerTick(Skipped)) ==> InOrder(s))
            && ((forall j :: 0 <= j < i ==>
                   && (events[j].TimerTick? ==> events[j].check.Plain?)
                   && (events[j].Release? ==> !Jumps(run[j].k.running))) ==> InStrongOrder(s))
            && (forall p :: 0 <= p < NUM_PROCS && s.k.proc[p].state == BLOCKED_ON_RESOURCE ==>
                  s.k.heap == [] && p in s.requesting)
            && (forall p :: 0 <= p < NUM_PROCS && s.k.proc[p].state == BLOCKED_ON_RECEIVE ==> s.k.mail[p] == [])
            && (s.k.running in s.receiving ==> s.k.mail[s.k.running] != [])
            && (s.k.running == PID_NULL || PID_NULL in s.k.ready[NULL_PRIO])
  {
    ProcessesWaitForAReason(run, events, i);
    BestPriorityRuns(run, events, i);
    MostUrgentRuns(run, events, i);
  }

  // ----- The two builds -----

  /** Every tick of the run ends as it does in the build with or without time slicing. */
  ghost predicate OfBuild(run: seq<System>, events: seq<Event>, timeslicing: bool)
    requires |run| > |events|
  {
    forall i :: 0 <= i < |events| && events[i].TimerTick? ==> events[i].check == CheckOf(timeslicing, run[i].k.now + 1)
  }

  /**
   The build without time slicing: on every run the best priority runs in all states, and unless KCD or CRT released the
   processor, so does the most urgent process.
   */
  lemma MostUrgentWithoutSlicing(run: seq<System>, events: seq<Event>, i: nat)
    requires IsRun(run, events) && OfBuild(run, events, false) && i < |run|
    ensures Bounds(run[i]) && InOrder(run[i])
    ensures (forall j :: 0 <= j < i && events[j].Release? ==> !Jumps(run[j].k.running)) ==> InStrongOrder(run[i])
  {
    SchedulingIsSafe(run, events, i);
  }

  lemma EagerTickRestores(s: System, d: State, s': System)
    requires SystemInv(s) && Bounds(s) && d == NextDeliveries(s.k) && s'.k == AfterTick(d, Eager) && Bounds(s')
    ensures InOrder(s')
  {
    TickWakes(s, s.k, d);
    EagerSettles(d, WakeForMemory(d), s'.k);
  }

  /**
   The build with time slicing: whatever happened before, after every hundredth tick since start-up the best priority
   runs; and ticks in between make no other process run.
   */
  lemma SlicingRestoresOrder(run: seq<System>, events: seq<Event>, i: nat)
    requires IsRun(run, events) && OfBuild(run, events, true) && i < |events| && events[i].TimerTick?
    ensures run[i + 1].k.now == run[i].k.now + 1
    ensures run[i + 1].k.now % 100 == 0 ==> InOrder(run[i + 1])
    ensures run[i + 1].k.now % 100 != 0 ==> run[i + 1].k.running == run[i].k.running
  {
    RunStep(run, events, i);
    StepHistory(run[i], events[i]);
    var d := NextDeliveries(run[i].k);
    TickIs(run[i], events[i].check, run[i + 1]);
    if run[i + 1].k.now % 100 == 0 {
      EagerTickRestores(run[i], d, run[i + 1]);
    }
  }
}
