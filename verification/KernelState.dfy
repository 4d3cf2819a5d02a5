/**
 The kernel as a function from state to state: what each call of k_process.c and k_memory.c, and each interrupt,
 does to the globals. A call that blocks is split at k_poll: it says that the caller was suspended, and the caller
 makes the same attempt again when it next runs, which is what the loop around k_poll does.
 */
module KernelState {
  import opened Constants
  import opened Integers
  import opened Sequences
  import opened PriorityQueues
  import opened MessageQueues

  datatype State = State(
    proc: seq<Pcb>,            // process[], indexed by pid
    running: int,
    ready: seq<seq<int>>,      // g_ready_queue
    blocked: seq<seq<int>>,    // g_blocked_on_resource_queue
    mail: seq<seq<int>>,       // g_message_queues, indexed by pid
    delayed: seq<int>,         // g_delayed_msg_queue, front first
    heap: seq<int>,            // g_heap, the free blocks
    hdr: seq<Header>,          // the kernel's part of every envelope
    now: int)                  // ticks since start-up; g_timer_count holds the last 32 bits

  /**
   What proc_timer_i does after the deliveries: the plain preemption check; with HAS_TIMESLICING the eager one on every
   hundredth tick and none on the others.
   */
  datatype TickCheck = Plain | Eager | Skipped

  datatype Attempt = Suspended | Done(envelope: int, sender: int)

  ghost predicate ValidPids(q: seq<seq<int>>) {
    forall i, p :: 0 <= i < |q| && p in q[i] ==> 0 <= p < NUM_PROCS
  }

  /** Array bounds: what the C declarations and the range checks guarantee. */
  ghost predicate Shape(k: State) {
    && |k.proc| == NUM_PROCS && |k.mail| == NUM_PROCS && |k.hdr| == NUM_ENVELOPES
    && |k.ready| == NUM_PRIORITIES && |k.blocked| == NUM_PRIORITIES
    && (forall p :: 0 <= p < NUM_PROCS ==> 0 <= k.proc[p].priority < NUM_PRIORITIES)
    && (k.running == PID_NONE || 0 <= k.running < NUM_PROCS)
    && ValidPids(k.ready) && ValidPids(k.blocked)
    && Within(k.delayed, NUM_ENVELOPES)
    && (forall e :: e in k.delayed ==> 0 <= k.hdr[e].receiver < NUM_PROCS)
  }

  /** Mailboxes, envelopes, the free list and the clock are as before. */
  predicate SameMessages(k: State, k': State) {
    k'.mail == k.mail && k'.delayed == k.delayed && k'.heap == k.heap && k'.hdr == k.hdr && k'.now == k.now
  }

  predicate IsBlocked(s: ProcState) {
    s == BLOCKED_ON_RESOURCE || s == BLOCKED_ON_RECEIVE
  }

  function WithState(k: State, pid: int, s: ProcState): (k': State)
    requires Shape(k) && 0 <= pid < NUM_PROCS
    ensures Shape(k') && SameMessages(k, k')
  {
    k.(proc := k.proc[pid := k.proc[pid].(state := s)])
  }

  // ----- Scheduling -----

  function Scheduler(k: State): (k': State)
    requires Shape(k)
    ensures Shape(k') && SameMessages(k, k') && k'.proc == k.proc && k'.running != PID_NONE
  {
    var (pid, prio) := Peek(k.ready, k.proc);
    if k.running != PID_NONE && prio > k.proc[k.running].priority && !IsBlocked(k.proc[k.running].state) then k
    else
      var k1 := k.(ready := PopFirst(k.ready, k.proc));
      PopKeepsValid(k.ready, k.proc);
      k1.(running := if pid == PID_NONE then PID_NULL else pid)
  }

  lemma PopKeepsValid(q: seq<seq<int>>, proc: seq<Pcb>)
    requires |q| == NUM_PRIORITIES && ValidPids(q)
    ensures ValidPids(PopFirst(q, proc))
  {
    var (pid, prio) := Peek(q, proc);
    forall i | 0 <= i < |q| ensures forall p :: p in PopFirst(q, proc)[i] ==> p in q[i] {
      WithoutMembers(q[i], pid);
    }
  }

  /** Where the outgoing process goes: the switch statement of k_release_processor. */
  function Requeue(k: State, prev: int): (k': State)
    requires Shape(k) && (prev == PID_NONE || 0 <= prev < NUM_PROCS)
    ensures Shape(k') && SameMessages(k, k') && k'.running == k.running
  {
    if prev == PID_NONE then k
    else
      match k.proc[prev].state
      case BLOCKED_ON_RESOURCE => k.(blocked := Push(k.blocked, prev, k.proc[prev].priority))
      case RUN => WithState(k, prev, RDY).(ready := Push(k.ready, prev, k.proc[prev].priority))
      case RDY => k.(ready := Push(k.ready, prev, k.proc[prev].priority))
      case _ => k
  }

  /** process_switch: make `running` RUN, or go back to `prev` if it is neither NEW nor RDY. */
  function ProcessSwitch(k: State, prev: int): (k': State)
    requires Shape(k) && k.running != PID_NONE && (prev == PID_NONE || 0 <= prev < NUM_PROCS)
    ensures Shape(k') && SameMessages(k, k')
  {
    if k.proc[k.running].state == NEW then WithState(k, k.running, RUN)
    else if k.running == prev then k
    else if k.proc[k.running].state == RDY then WithState(k, k.running, RUN)
    else k.(running := prev)
  }

  function ReleaseProcessor(k: State): (k': State)
    requires Shape(k)
    ensures Shape(k') && SameMessages(k, k')
  {
    var k1 := Scheduler(k);
    if k1.running == k.running then k1 else ProcessSwitch(Requeue(k1, k.running), k.running)
  }

  function Poll(k: State, which: ProcState): (k': State)
    requires Shape(k) && k.running != PID_NONE
    ensures Shape(k') && SameMessages(k, k')
  {
    ReleaseProcessor(WithState(k, k.running, which))
  }

  function Empty(): (q: seq<seq<int>>)
    ensures |q| == NUM_PRIORITIES
    ensures forall i :: 0 <= i < |q| ==> q[i] == []
  {
    seq(NUM_PRIORITIES, _ => [])
  }

  function Woken(proc: seq<Pcb>): (proc': seq<Pcb>)
    ensures |proc'| == |proc|
    ensures forall p :: 0 <= p < |proc| ==> proc'[p].priority == proc[p].priority
  {
    seq(|proc|, p requires 0 <= p < |proc| =>
      if proc[p].priority < NULL_PRIO && proc[p].state == BLOCKED_ON_RESOURCE then proc[p].(state := RDY) else proc[p])
  }

  /** First half of k_check_preemption_impl: with a block free, everybody waiting for memory becomes ready. */
  function WakeForMemory(k: State): (k': State)
    requires Shape(k)
    ensures Shape(k') && SameMessages(k, k') && k'.running == k.running
  {
    if |k.heap| > 0 then k.(ready := Append(k.ready, k.blocked), blocked := Empty(), proc := Woken(k.proc)) else k
  }

  /** Second half of k_check_preemption_impl: the processor changes hands if the first in line is urgent enough. */
  function SwitchIfDue(k: State, eager: bool): (k': State)
    requires Shape(k) && k.running != PID_NONE
    ensures Shape(k') && SameMessages(k, k')
  {
    var (pid, prio) := Peek(k.ready, k.proc);
    if pid == PID_NONE then k
    else
      var delta := k.proc[k.running].priority - prio;
      if (if eager then delta >= 0 else delta > 0) then ReleaseProcessor(k) else k
  }

  function CheckPreemption(k: State, eager: bool): (k': State)
    requires Shape(k) && k.running != PID_NONE
    ensures Shape(k') && SameMessages(k, k')
  {
    SwitchIfDue(WakeForMemory(k), eager)
  }

  /** The queues and the PCB after a change of priority, before the preemption check. */
  function Reprioritised(k: State, pid: int, priority: int): (k': State)
    requires Shape(k) && 0 <= pid < NUM_PROCS && 0 <= priority < NUM_PRIORITIES
    ensures Shape(k') && SameMessages(k, k') && k'.running == k.running
  {
    var from := k.proc[pid].priority;
    WithoutMembers(k.ready[from], pid);
    WithoutMembers(k.blocked[from], pid);
    k.(ready := ChangePriority(k.ready, pid, from, priority),
       blocked := ChangePriority(k.blocked, pid, from, priority),
       proc := k.proc[pid := k.proc[pid].(priority := priority)])
  }

  function SetProcessPriority(k: State, pid: int, priority: int): (r: (State, int))
    requires Shape(k) && k.running != PID_NONE
    ensures Shape(r.0) && SameMessages(k, r.0)
  {
    if pid == PID_NULL && priority == NULL_PRIO then (k, RTX_OK)
    else if pid < 1 || pid >= NUM_PROCS || priority < 0 || priority >= NULL_PRIO then (k, RTX_ERR)
    else if k.proc[pid].priority == priority then (k, RTX_OK)
    else (CheckPreemption(Reprioritised(k, pid, priority), false), RTX_OK)
  }

  // ----- Memory -----

  function RequestMemoryBlock(k: State): (r: (State, Attempt))
    requires Shape(k) && k.running != PID_NONE
    ensures Shape(r.0) && r.0.now == k.now
  {
    if k.heap == [] then (Poll(k, BLOCKED_ON_RESOURCE), Suspended)
    else (k.(heap := k.heap[1..]), Done(k.heap[0], PID_NONE))
  }

  /**
   The pool block at a 32-bit address when the pool starts at `base`; NULL for the null pointer and for any address
   outside the pool or inside a block, as computed with unsigned wrap-around by k_release_memory_block_valid.
   */
  function BlockAt(base: int, address: int): int {
    if address == 0 then NULL
    else
      var offset := (address - base) % 0x1_0000_0000;
      if offset >= NUM_MEM_BLOCKS * MEM_BLOCK_SIZE || offset % MEM_BLOCK_SIZE != 0 then NULL
      else offset / MEM_BLOCK_SIZE
  }

  /** Exactly the first bytes of the pool's blocks pass the address checks. */
  lemma OnlyBlockAddressesPass(base: int, address: int, block: int)
    requires 0 < base && base + NUM_MEM_BLOCKS * MEM_BLOCK_SIZE <= 0x1_0000_0000 && 0 <= address < 0x1_0000_0000
    ensures BlockAt(base, address) == NULL || 0 <= BlockAt(base, address) < NUM_MEM_BLOCKS
    ensures 0 <= block < NUM_MEM_BLOCKS ==>
              (BlockAt(base, address) == block <==> address == base + block * MEM_BLOCK_SIZE)
  {
    var offset := (address - base) % 0x1_0000_0000;
    assert offset == if address >= base then address - base else address - base + 0x1_0000_0000;
  }

  predicate ReleaseValid(k: State, block: int) {
    0 <= block < NUM_MEM_BLOCKS && block !in k.heap
  }

  function ReleaseMemoryBlock(k: State, block: int): (r: (State, int))
    requires Shape(k) && k.running != PID_NONE
    ensures Shape(r.0) && r.0.now == k.now
  {
    if ReleaseValid(k, block) then (CheckPreemption(k.(heap := k.heap + [block]), false), RTX_OK)
    else (k, RTX_ERR)
  }

  // ----- Messages -----

  /** k_send_message_helper: deliver, and make a receiver that was waiting for mail ready. */
  function SendHelper(k: State, sender: int, receiver: int, e: int): (k': State)
    requires Shape(k) && 0 <= receiver < NUM_PROCS && 0 <= e < NUM_ENVELOPES
    ensures Shape(k') && k'.running == k.running
    ensures k'.delayed == k.delayed && k'.heap == k.heap && k'.now == k.now
  {
    var k1 := k.(hdr := k.hdr[e := k.hdr[e].(sender := sender, receiver := receiver)],
                 mail := k.mail[receiver := k.mail[receiver] + [e]]);
    if k.proc[receiver].state == BLOCKED_ON_RECEIVE
    then WithState(k1, receiver, RDY).(ready := Push(k.ready, receiver, k.proc[receiver].priority))
    else k1
  }

  predicate ValidMessage(receiver: int, e: int) {
    e != NULL && 0 <= receiver < NUM_PROCS
  }

  function SendMessage(k: State, receiver: int, e: int): (r: (State, int))
    requires Shape(k) && k.running != PID_NONE && (e == NULL || 0 <= e < NUM_ENVELOPES)
    ensures Shape(r.0) && r.0.now == k.now
  {
    if ValidMessage(receiver, e)
    then (CheckPreemption(SendHelper(k, k.running, receiver, e), false), RTX_OK)
    else (k, RTX_ERR)
  }

  function ReceiveMessage(k: State): (r: (State, Attempt))
    requires Shape(k) && k.running != PID_NONE
    requires forall e :: e in k.mail[k.running] ==> 0 <= e < NUM_ENVELOPES
    ensures Shape(r.0) && r.0.now == k.now
  {
    var box := k.mail[k.running];
    if box == [] then (Poll(k, BLOCKED_ON_RECEIVE), Suspended)
    else assert box[0] in box; (k.(mail := k.mail[k.running := box[1..]]), Done(box[0], k.hdr[box[0]].sender))
  }

  /** Address an envelope and put it into the delayed queue; the sum of clock and delay is a 32-bit one. */
  function QueueDelayed(k: State, sender: int, receiver: int, e: int, delay: int32): State
    requires |k.hdr| == NUM_ENVELOPES && Within(k.delayed, NUM_ENVELOPES) && 0 <= e < NUM_ENVELOPES
  {
    var hdr := k.hdr[e := Header(sender, receiver, Wrapped(k.now + delay))];
    k.(hdr := hdr, delayed := Enqueued(hdr, k.delayed, e))
  }

  function DelayedSend(k: State, receiver: int, e: int, delay: int32): (r: (State, int))
    requires Shape(k) && k.running != PID_NONE && (e == NULL || 0 <= e < NUM_ENVELOPES)
    ensures Shape(r.0) && r.0.now == k.now
  {
    if !ValidMessage(receiver, e) then (k, RTX_ERR)
    else if delay == 0 then SendMessage(k, receiver, e)
    else
      (QueueDelayed(k, k.running, receiver, e, delay), RTX_OK)
  }

  /** k_check_delayed_messages: deliver from the front while the front is due. */
  function DeliverDue(k: State): (k': State)
    requires Shape(k)
    ensures Shape(k') && k'.running == k.running && k'.heap == k.heap && k'.now == k.now
    decreases |k.delayed|
  {
    if k.delayed == [] || k.hdr[k.delayed[0]].expiry > Wrapped(k.now) then k
    else
      var e := k.delayed[0];
      DeliverDue(SendHelper(k.(delayed := k.delayed[1..]), k.hdr[e].sender, k.hdr[e].receiver, e))
  }

  // ----- Interrupts -----

  function AfterTick(k: State, check: TickCheck): (k': State)
    requires Shape(k) && k.running != PID_NONE
    ensures Shape(k') && SameMessages(k, k')
  {
    if check.Skipped? then k else CheckPreemption(k, check.Eager?)
  }

  function TimerInterrupt(k: State, check: TickCheck): (k': State)
    requires Shape(k) && k.running != PID_NONE
    ensures Shape(k') && k'.now == k.now + 1
  {
    AfterTick(DeliverDue(k.(now := k.now + 1)), check)
  }

  /** A UART interrupt as the kernel sees it: it may hand a notification to a process, then checks preemption. */
  function UartInterrupt(k: State, notify: bool, receiver: int, notification: int): (k': State)
    requires Shape(k) && k.running != PID_NONE
    requires notify ==> 0 <= receiver < NUM_PROCS && 0 <= notification < NUM_ENVELOPES
    ensures Shape(k') && k'.now == k.now
  {
    CheckPreemption(if notify then SendHelper(k, PID_UART_IPROC, receiver, notification) else k, false)
  }
}
