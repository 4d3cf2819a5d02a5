/**
 Every kernel call and interrupt keeps the scheduling invariant, serves memory waiters, and never wakes a receiver
 for nothing.
 */
module KernelCalls {
  import opened Constants
  import opened Integers
  import opened PriorityQueues
  import opened MessageQueues
  import opened KernelState
  import opened Scheduling

  function ReceiveSet(proc: seq<Pcb>): set<int> {
    set p | 0 <= p < |proc| && proc[p].state == BLOCKED_ON_RECEIVE
  }

  /**
   Of the processes inside k_receive_message, exactly those with an empty mailbox are blocked; nobody else is. So a
   process that comes back from k_poll there finds mail.
   */
  ghost predicate Waiters(k: State, receiving: set<int>)
    requires Shape(k)
  {
    forall p :: p in ReceiveSet(k.proc) <==> p in receiving && 0 <= p < NUM_PROCS && k.mail[p] == []
  }

  /** All that holds whenever the kernel is left. `receiving` and `requesting` are the processes inside those loops. */
  ghost predicate Quiescent(k: State, receiving: set<int>, requesting: set<int>) {
    && Inv(k) && MemoryServed(k)
    && Waiters(k, receiving)
    && BlockedSet(k.proc) <= requesting
  }

  // ----- Effects on the waiting processes -----

  lemma ReleaseSets(k: State)
    requires Handover(k)
    ensures ReceiveSet(ReleaseProcessor(k).proc) == ReceiveSet(k.proc)
    ensures BlockedSet(ReleaseProcessor(k).proc) == BlockedSet(k.proc)
  {
    ReleaseDispatches(k);
    ReleaseKeepsInvariant(k, ReleaseProcessor(k));
  }

  lemma SwitchSets(k: State, eager: bool)
    requires Inv(k)
    ensures ReceiveSet(SwitchIfDue(k, eager).proc) == ReceiveSet(k.proc)
    ensures BlockedSet(SwitchIfDue(k, eager).proc) == BlockedSet(k.proc)
  {
    ReleaseSets(k);
  }

  lemma WakeSets(k: State)
    requires Inv(k)
    ensures ReceiveSet(WakeForMemory(k).proc) == ReceiveSet(k.proc)
    ensures BlockedSet(WakeForMemory(k).proc) <= BlockedSet(k.proc)
  {
  }

  lemma CheckSets(k: State, eager: bool)
    requires Inv(k)
    ensures ReceiveSet(CheckPreemption(k, eager).proc) == ReceiveSet(k.proc)
    ensures BlockedSet(CheckPreemption(k, eager).proc) <= BlockedSet(k.proc)
  {
    WakeSets(k);
    WakeForMemoryKeepsInvariant(k);
    SwitchSets(WakeForMemory(k), eager);
  }

  /** From any state with the invariant the check restores everything else. */
  lemma CheckRestores(k: State, eager: bool, receiving: set<int>, requesting: set<int>)
    requires Inv(k) && Waiters(k, receiving) && BlockedSet(k.proc) <= requesting
    ensures Quiescent(CheckPreemption(k, eager), receiving, requesting)
    ensures !eager ==> StronglySafe(CheckPreemption(k, eager))
  {
    CheckKeepsInvariant(k, eager, CheckPreemption(k, eager));
    CheckSets(k, eager);
  }

  // ----- Calls -----

  lemma ReleaseCall(k: State, receiving: set<int>, requesting: set<int>)
    requires Quiescent(k, receiving, requesting)
    ensures Quiescent(ReleaseProcessor(k), receiving, requesting)
  {
    ReleaseKeepsInvariant(k, ReleaseProcessor(k));
    ReleaseSets(k);
  }

  /** Marking the running process blocked is what k_poll hands to k_release_processor. */
  lemma PollStart(k: State, which: ProcState)
    requires Inv(k) && k.running != PID_NULL && IsBlocked(which)
    ensures var k1 := WithState(k, k.running, which);
            && Handover(k1)
            && ReceiveSet(k1.proc) == ReceiveSet(k.proc) + (if which == BLOCKED_ON_RECEIVE then {k.running} else {})
            && BlockedSet(k1.proc) == BlockedSet(k.proc) + (if which == BLOCKED_ON_RESOURCE then {k.running} else {})
  {
    var k1 := WithState(k, k.running, which);
    assert ReadySet(k1.proc) == ReadySet(k.proc);
    assert BlockedSet(k1.proc) - {k.running} == BlockedSet(k.proc) - {k.running};
    SamePriorities(k.ready, ReadySet(k.proc), k.proc, k1.proc);
    SamePriorities(k.blocked, BlockedSet(k.proc) - {k.running}, k.proc, k1.proc);
  }

  lemma PollCall(k: State, which: ProcState)
    requires Inv(k) && k.running != PID_NULL && IsBlocked(which)
    ensures var k' := Poll(k, which);
            && Inv(k') && StronglySafe(k') && Safe(k')
            && ReceiveSet(k'.proc) == ReceiveSet(k.proc) + (if which == BLOCKED_ON_RECEIVE then {k.running} else {})
            && BlockedSet(k'.proc) == BlockedSet(k.proc) + (if which == BLOCKED_ON_RESOURCE then {k.running} else {})
  {
    PollStart(k, which);
    var k1 := WithState(k, k.running, which);
    ReleaseKeepsInvariant(k1, ReleaseProcessor(k1));
    BlockingLeavesMostUrgent(k1, ReleaseProcessor(k1));
    ReleaseSets(k1);
  }

  lemma RequestCall(k: State, receiving: set<int>, requesting: set<int>)
    requires Quiescent(k, receiving, requesting) && k.running != PID_NULL
    ensures var (k', a) := RequestMemoryBlock(k);
            Quiescent(k', receiving, if a.Suspended? then requesting + {k.running} else requesting - {k.running})
  {
    if k.heap == [] {
      PollCall(k, BLOCKED_ON_RESOURCE);
    }
  }

  lemma ReceiveCall(k: State, receiving: set<int>, requesting: set<int>)
    requires Quiescent(k, receiving, requesting) && k.running != PID_NULL
    requires forall e :: e in k.mail[k.running] ==> 0 <= e < NUM_ENVELOPES
    ensures var (k', a) := ReceiveMessage(k);
            Quiescent(k', if a.Suspended? then receiving + {k.running} else receiving - {k.running}, requesting)
  {
    if k.mail[k.running] == [] {
      PollCall(k, BLOCKED_ON_RECEIVE);
    }
  }

  lemma ReleaseBlockCall(k: State, block: int, receiving: set<int>, requesting: set<int>)
    requires Quiescent(k, receiving, requesting)
    ensures Quiescent(ReleaseMemoryBlock(k, block).0, receiving, requesting)
    ensures var (k', result) := ReleaseMemoryBlock(k, block);
            if 0 <= block < NUM_MEM_BLOCKS && block !in k.heap then result == RTX_OK && k'.heap == k.heap + [block]
            else result == RTX_ERR && k' == k
  {
    if ReleaseValid(k, block) {
      CheckRestores(k.(heap := k.heap + [block]), false, receiving, requesting);
    }
  }

  lemma CoherentPids(q: seq<seq<int>>, members: set<int>, proc: seq<Pcb>)
    requires Coherent(q, members, proc)
    ensures ValidPids(q)
  {
    forall i, p | 0 <= i < |q| && p in q[i] ensures 0 <= p < NUM_PROCS {
      assert p in members;
    }
  }

  lemma PriorityChangeKeepsInvariant(k: State, pid: int, priority: int)
    requires Inv(k) && 1 <= pid < NUM_PROCS && 0 <= priority < NULL_PRIO && k.proc[pid].priority != priority
    ensures var k' := Reprioritised(k, pid, priority);
            && Inv(k') && BlockedSet(k'.proc) == BlockedSet(k.proc) && ReceiveSet(k'.proc) == ReceiveSet(k.proc)
    ensures |k.ready[priority]| < NUM_PROCS && |k.blocked[priority]| < NUM_PROCS
  {
    var k' := Reprioritised(k, pid, priority);
    ChangeCoherent(k.ready, ReadySet(k.proc), k.proc, pid, priority);
    ChangeCoherent(k.blocked, BlockedSet(k.proc) - {k.running}, k.proc, pid, priority);
    CoherentPids(k'.ready, ReadySet(k.proc), k'.proc);
    CoherentPids(k'.blocked, BlockedSet(k.proc) - {k.running}, k'.proc);
    assert ReadySet(k'.proc) == ReadySet(k.proc);
    assert BlockedSet(k'.proc) == BlockedSet(k.proc);
  }

  /** Which priorities may be given to whom. */
  predicate AllowedPriority(pid: int, priority: int) {
    (pid == PID_NULL && priority == NULL_PRIO) || (1 <= pid < NUM_PROCS && HIGHEST <= priority <= LOWEST)
  }

  lemma SetPriorityCall(k: State, pid: int, priority: int, receiving: set<int>, requesting: set<int>)
    requires Quiescent(k, receiving, requesting)
    ensures Quiescent(SetProcessPriority(k, pid, priority).0, receiving, requesting)
    ensures var (k', result) := SetProcessPriority(k, pid, priority);
            if AllowedPriority(pid, priority)
            then
              && result == RTX_OK
              && forall p :: 0 <= p < NUM_PROCS ==>
                               k'.proc[p].priority == if p == pid then priority else k.proc[p].priority
            else result == RTX_ERR && k' == k
  {
    if 1 <= pid < NUM_PROCS && 0 <= priority < NULL_PRIO && k.proc[pid].priority != priority {
      PriorityChangeKeepsInvariant(k, pid, priority);
      CheckRestores(Reprioritised(k, pid, priority), false, receiving, requesting);
      CheckKeepsPriorities(Reprioritised(k, pid, priority), false);
    }
  }

  lemma SendHelperKeepsInv(k: State, sender: int, receiver: int, e: int)
    requires Inv(k) && 0 <= receiver < NUM_PROCS && 0 <= e < NUM_ENVELOPES
    ensures var k' := SendHelper(k, sender, receiver, e);
            Inv(k') && BlockedSet(k'.proc) == BlockedSet(k.proc)
  {
    var k' := SendHelper(k, sender, receiver, e);
    assert BlockedSet(k'.proc) == BlockedSet(k.proc);
    SamePriorities(k.blocked, BlockedSet(k.proc) - {k.running}, k.proc, k'.proc);
    if k.proc[receiver].state == BLOCKED_ON_RECEIVE {
      PushCoherent(k.ready, ReadySet(k.proc), k.proc, receiver);
      SamePriorities(k'.ready, ReadySet(k.proc) + {receiver}, k.proc, k'.proc);
      assert ReadySet(k'.proc) == ReadySet(k.proc) + {receiver};
    }
  }

  lemma SendHelperKeeps(k: State, sender: int, receiver: int, e: int, receiving: set<int>)
    requires Inv(k) && Waiters(k, receiving)
    requires 0 <= receiver < NUM_PROCS && 0 <= e < NUM_ENVELOPES
    ensures var k' := SendHelper(k, sender, receiver, e);
            Inv(k') && Waiters(k', receiving) && BlockedSet(k'.proc) == BlockedSet(k.proc)
  {
    SendHelperKeepsInv(k, sender, receiver, e);
  }

  lemma SendCall(k: State, receiver: int, e: int, receiving: set<int>, requesting: set<int>)
    requires Quiescent(k, receiving, requesting) && (e == NULL || 0 <= e < NUM_ENVELOPES)
    ensures Quiescent(SendMessage(k, receiver, e).0, receiving, requesting)
    ensures var (k', result) := SendMessage(k, receiver, e);
            if e != NULL && 0 <= receiver < NUM_PROCS
            then
              && result == RTX_OK && k'.mail == k.mail[receiver := k.mail[receiver] + [e]]
              && k'.hdr[e].sender == k.running && k'.hdr[e].receiver == receiver
            else result == RTX_ERR && k' == k
  {
    if ValidMessage(receiver, e) {
      SendHelperKeeps(k, k.running, receiver, e, receiving);
      CheckRestores(SendHelper(k, k.running, receiver, e), false, receiving, requesting);
    }
  }

  lemma DelayedSendCall(k: State, receiver: int, e: int, delay: int32, receiving: set<int>, requesting: set<int>)
    requires Quiescent(k, receiving, requesting) && (e == NULL || 0 <= e < NUM_ENVELOPES)
    ensures Quiescent(DelayedSend(k, receiver, e, delay).0, receiving, requesting)
    ensures var (k', result) := DelayedSend(k, receiver, e, delay);
            if e == NULL || !(0 <= receiver < NUM_PROCS) then result == RTX_ERR && k' == k
            else result == RTX_OK && (delay != 0 ==> k'.mail == k.mail && e in k'.delayed)
  {
    SendCall(k, receiver, e, receiving, requesting);
  }

  /** An accepted send with a delay: who sent what to whom is noted, and the envelope queued by the wrapped expiry. */
  lemma DelayedSendQueues(k: State, receiver: int, e: int, delay: int32)
    requires Shape(k) && k.running != PID_NONE && ValidMessage(receiver, e) && 0 <= e < NUM_ENVELOPES && delay != 0
    requires e !in k.delayed && Ascending(Expiries(k.hdr, k.delayed))
    ensures QueuedByExpiry(k, DelayedSend(k, receiver, e, delay).0, receiver, e, Wrapped(k.now + delay))
  {
    QueuedInOrder(k, DelayedSend(k, receiver, e, delay).0, receiver, e, Wrapped(k.now + delay));
  }

  lemma QueuedInOrder(k: State, k': State, receiver: int, e: int, expiry: int)
    requires Shape(k) && Shape(k') && 0 <= e < NUM_ENVELOPES && e !in k.delayed && Ascending(Expiries(k.hdr, k.delayed))
    requires k'.mail == k.mail && k'.hdr == k.hdr[e := Header(k.running, receiver, expiry)]
    requires k'.delayed == Enqueued(k'.hdr, k.delayed, e)
    ensures QueuedByExpiry(k, k', receiver, e, expiry)
  {
    var keys := Expiries(k'.hdr, k.delayed);
    assert keys == Expiries(k.hdr, k.delayed);
    InsertionIsSortedAndStable(keys, expiry);
    assert forall i :: 0 <= i < |k.delayed| ==> keys[i] == k'.hdr[k.delayed[i]].expiry;
    var at := Position(keys, expiry);
    assert k'.delayed == InsertAt(k.delayed, at, e);
  }

  /**
   The envelope carries its data and is in the delayed queue behind all that expire no later and before all others; no
   mailbox changes.
   */
  ghost predicate QueuedByExpiry(k: State, k': State, receiver: int, e: int, expiry: int)
    requires Shape(k) && Shape(k') && 0 <= e < NUM_ENVELOPES
  {
    && k'.mail == k.mail && k'.hdr == k.hdr[e := Header(k.running, receiver, expiry)]
    && exists at: nat :: at <= |k.delayed| && k'.delayed == InsertAt(k.delayed, at, e)
                         && forall i :: 0 <= i < |k.delayed| ==> (i < at <==> k'.hdr[k.delayed[i]].expiry <= expiry)
  }

  lemma {:induction false} DeliverDueKeeps(k: State, receiving: set<int>)
    requires Inv(k) && Waiters(k, receiving)
    ensures var k' := DeliverDue(k);
            Inv(k') && Waiters(k', receiving) && BlockedSet(k'.proc) == BlockedSet(k.proc)
    decreases |k.delayed|
  {
    if !(k.delayed == [] || k.hdr[k.delayed[0]].expiry > Wrapped(k.now)) {
      var e := k.delayed[0];
      var k1 := k.(delayed := k.delayed[1..]);
      SendHelperKeeps(k1, k.hdr[e].sender, k.hdr[e].receiver, e, receiving);
      DeliverDueKeeps(SendHelper(k1, k.hdr[e].sender, k.hdr[e].receiver, e), receiving);
    }
  }

  lemma ClockMoves(k: State, k1: State, receiving: set<int>, requesting: set<int>)
    requires Quiescent(k, receiving, requesting) && k1 == k.(now := k.now + 1)
    ensures Quiescent(k1, receiving, requesting)
  {
  }

  lemma TimerCall(k: State, check: TickCheck, receiving: set<int>, requesting: set<int>, k': State)
    requires Quiescent(k, receiving, requesting) && k' == TimerInterrupt(k, check)
    ensures Quiescent(k', receiving, requesting)
  {
    var k1 := k.(now := k.now + 1);
    ClockMoves(k, k1, receiving, requesting);
    AfterDelivery(k1, DeliverDue(k1), check, receiving, requesting, k');
  }

  lemma AfterDelivery(k: State, d: State, check: TickCheck, receiving: set<int>, requesting: set<int>, k': State)
    requires Quiescent(k, receiving, requesting) && d == DeliverDue(k) && k' == AfterTick(d, check)
    ensures Quiescent(k', receiving, requesting)
  {
    DeliverDueKeeps(k, receiving);
    CheckRestores(d, check.Eager?, receiving, requesting);
  }

  lemma UartCall(k: State, notify: bool, receiver: int, notification: int, receiving: set<int>, requesting: set<int>)
    requires Quiescent(k, receiving, requesting)
    requires notify ==> 0 <= receiver < NUM_PROCS && 0 <= notification < NUM_ENVELOPES
    ensures Quiescent(UartInterrupt(k, notify, receiver, notification), receiving, requesting)
  {
    if notify {
      SendHelperKeeps(k, PID_UART_IPROC, receiver, notification, receiving);
      CheckRestores(SendHelper(k, PID_UART_IPROC, receiver, notification), false, receiving, requesting);
    } else {
      CheckRestores(k, false, receiving, requesting);
    }
  }
}
