/**
 The invariant that ties process states, priorities and queue membership together, and what scheduling does under
 it: who is dispatched, why the most urgent process always runs, and how long an equal waits for its turn.
 */
module Scheduling {
  import opened Constants
  import opened PriorityQueues
  import opened KernelState

  predicate IsIproc(pid: int) {
    pid == PID_TIMER_IPROC || pid == PID_UART_IPROC
  }

  /** Processes that wait for the processor; interrupt processes stay NEW and never do. */
  function ReadySet(proc: seq<Pcb>): set<int> {
    set p | 0 <= p < |proc| && (proc[p].state == RDY || (proc[p].state == NEW && !IsIproc(p)))
  }

  function BlockedSet(proc: seq<Pcb>): set<int> {
    set p | 0 <= p < |proc| && proc[p].state == BLOCKED_ON_RESOURCE
  }

  /** The null process never blocks and keeps its priority, interrupt processes are never scheduled. */
  ghost predicate Roles(proc: seq<Pcb>) {
    && |proc| == NUM_PROCS
    && proc[PID_NULL].priority == NULL_PRIO && !IsBlocked(proc[PID_NULL].state)
    && (forall p :: 0 < p < NUM_PROCS && !IsIproc(p) ==> proc[p].priority < NULL_PRIO)
    && (forall p :: 0 <= p < NUM_PROCS && IsIproc(p) ==> proc[p].state == NEW)
  }

  /** Coherence of states and queues, but for where the running process itself belongs. */
  ghost predicate Coherence(k: State) {
    && Shape(k) && Roles(k.proc)
    && 0 <= k.running < NUM_PROCS
    && (forall p :: 0 <= p < NUM_PROCS && k.proc[p].state == RUN ==> p == k.running)
    && Coherent(k.ready, ReadySet(k.proc), k.proc)
    && Coherent(k.blocked, BlockedSet(k.proc) - {k.running}, k.proc)
  }

  /**
   Holds whenever the kernel is left: exactly one process is RUN and it is `running`; the ready lists hold exactly
   the RDY and not yet started processes, the blocked lists exactly those waiting for memory, each process once, in
   the list of its current priority.
   */
  ghost predicate Inv(k: State) {
    Coherence(k) && k.proc[k.running].state == RUN
  }

  /** What k_release_processor finds: the running process may just have been marked blocked. */
  ghost predicate Handover(k: State) {
    Coherence(k) && (k.proc[k.running].state == RUN || IsBlocked(k.proc[k.running].state))
  }

  /** No ready process has a better priority than the running one. */
  ghost predicate Safe(k: State)
    requires Shape(k) && k.running != PID_NONE
  {
    forall p :: p in ReadySet(k.proc) ==> k.proc[k.running].priority <= k.proc[p].priority
  }

  /** No ready process is more urgent than the running one, counting KCD and CRT at HIGHEST as above all others. */
  ghost predicate StronglySafe(k: State)
    requires Shape(k) && k.running != PID_NONE
  {
    forall p :: p in ReadySet(k.proc) ==> Urgency(k.proc, k.running) <= Urgency(k.proc, p)
  }

  /** While a block is free, nobody waits for memory. */
  ghost predicate MemoryServed(k: State) {
    k.heap != [] ==> BlockedSet(k.proc) == {}
  }

  // ----- Dispatching -----

  /** k_release_processor keeps the running process only if it can run on and everybody ready is less urgent. */
  predicate KeepsRunning(k: State)
    requires Shape(k) && k.running != PID_NONE
  {
    !IsBlocked(k.proc[k.running].state) && Peek(k.ready, k.proc).1 > k.proc[k.running].priority
  }

  /** The state after `next` took over from the running process, which went where its state says. */
  function Dispatched(k: State, next: int): State
    requires Shape(k) && k.running != PID_NONE && 0 <= next < NUM_PROCS
  {
    var prev := k.running;
    var popped := PopFirst(k.ready, k.proc);
    var prio := k.proc[prev].priority;
    var runs := k.proc[next].(state := RUN);
    match k.proc[prev].state
    case BLOCKED_ON_RESOURCE =>
      k.(running := next, proc := k.proc[next := runs], ready := popped, blocked := Push(k.blocked, prev, prio))
    case BLOCKED_ON_RECEIVE => k.(running := next, proc := k.proc[next := runs], ready := popped)
    case _ =>
      k.(running := next, proc := k.proc[prev := k.proc[prev].(state := RDY)][next := runs],
         ready := Push(popped, prev, prio))
  }

  /**
   k_release_processor either changes nothing, or hands over to the most urgent ready process. That process exists
   (the null process is ready whenever it does not run), differs from the old one and is NEW or RDY, so neither the
   scheduler's empty-queue branch nor the failure branches of k_release_processor and process_switch are taken.
   */
  lemma ReleaseDispatches(k: State)
    requires Handover(k)
    ensures !KeepsRunning(k) ==>
              var next := Peek(k.ready, k.proc).0;
              next in ReadySet(k.proc) && next != k.running && k.proc[next].state in {NEW, RDY}
    ensures ReleaseProcessor(k) == if KeepsRunning(k) then k else Dispatched(k, Peek(k.ready, k.proc).0)
  {
    NullOrReady(k);
    var at := PeekServesMostUrgent(k.ready, ReadySet(k.proc), k.proc);
  }

  /** The null process runs or is ready. */
  lemma NullOrReady(k: State)
    requires Handover(k)
    ensures k.running == PID_NULL || PID_NULL in ReadySet(k.proc)
  {
    assert k.proc[PID_NULL].state in {NEW, RDY, RUN};
  }

  /** Process states when a running process gives way. */
  lemma SwitchStates(proc: seq<Pcb>, prev: int, next: int)
    requires Roles(proc) && next in ReadySet(proc) && 0 <= prev < NUM_PROCS
    requires proc[prev].state == RUN || IsBlocked(proc[prev].state)
    requires forall p :: 0 <= p < NUM_PROCS && proc[p].state == RUN ==> p == prev
    ensures var proc' := (if proc[prev].state == RUN then proc[prev := proc[prev].(state := RDY)] else proc)
                         [next := proc[next].(state := RUN)];
            && Roles(proc') && proc'[next].state == RUN
            && (forall p :: 0 <= p < NUM_PROCS && proc'[p].state == RUN ==> p == next)
            && (forall p :: 0 <= p < NUM_PROCS ==> proc'[p].priority == proc[p].priority)
            && ReadySet(proc') == ReadySet(proc) - {next} + (if proc[prev].state == RUN then {prev} else {})
            && BlockedSet(proc') == BlockedSet(proc) && next !in BlockedSet(proc)
  {
  }

  /** The queues when a running process gives way. */
  lemma SwitchFromRun(k: State)
    requires Inv(k) && !KeepsRunning(k)
    ensures var next := Peek(k.ready, k.proc).0;
            && next in ReadySet(k.proc)
            && Coherent(Dispatched(k, next).ready, ReadySet(k.proc) - {next} + {k.running}, k.proc)
            && Coherent(Dispatched(k, next).blocked, BlockedSet(k.proc), k.proc)
  {
    ReleaseDispatches(k);
    var prev, R, B := k.running, ReadySet(k.proc), BlockedSet(k.proc);
    PopTakesThePeeked(k.ready, R, k.proc);
    PushCoherent(PopFirst(k.ready, k.proc), R - {Peek(k.ready, k.proc).0}, k.proc, prev);
    assert B - {prev} == B;
  }

  lemma SwitchReady(k: State)
    requires Handover(k) && IsBlocked(k.proc[k.running].state)
    ensures var next := Peek(k.ready, k.proc).0;
            && next in ReadySet(k.proc)
            && Coherent(Dispatched(k, next).ready, ReadySet(k.proc) - {next}, k.proc)
  {
    ReleaseDispatches(k);
    PopTakesThePeeked(k.ready, ReadySet(k.proc), k.proc);
  }

  lemma SwitchBlocked(k: State, next: int)
    requires Handover(k) && IsBlocked(k.proc[k.running].state) && 0 <= next < NUM_PROCS
    ensures Coherent(Dispatched(k, next).blocked, BlockedSet(k.proc), k.proc)
  {
    var prev, B := k.running, BlockedSet(k.proc);
    if k.proc[prev].state == BLOCKED_ON_RESOURCE {
      PushCoherent(k.blocked, B - {prev}, k.proc, prev);
      assert B - {prev} + {prev} == B;
    } else {
      assert B - {prev} == B;
    }
  }

  lemma SwitchQueues(k: State)
    requires Handover(k) && !KeepsRunning(k)
    ensures var next := Peek(k.ready, k.proc).0;
            && next in ReadySet(k.proc)
            && var k' := Dispatched(k, next);
            && Coherent(k'.ready, ReadySet(k.proc) - {next} +
               (if k.proc[k.running].state == RUN then {k.running} else {}), k.proc)
            && Coherent(k'.blocked, BlockedSet(k.proc), k.proc)
  {
    if k.proc[k.running].state == RUN {
      SwitchFromRun(k);
    } else {
      SwitchReady(k);
      SwitchBlocked(k, Peek(k.ready, k.proc).0);
      var rest := ReadySet(k.proc) - {Peek(k.ready, k.proc).0};
      assert rest + {} == rest;
    }
  }

  lemma DispatchKeepsInvariant(k: State)
    requires Handover(k) && !KeepsRunning(k)
    ensures var k' := ReleaseProcessor(k);
            && Inv(k') && k'.running in ReadySet(k.proc)
            && ReadySet(k'.proc) == ReadySet(k.proc) - {k'.running} +
               (if k.proc[k.running].state == RUN then {k.running} else {})
            && BlockedSet(k'.proc) == BlockedSet(k.proc)
            && (forall p :: 0 <= p < NUM_PROCS ==> k'.proc[p].priority == k.proc[p].priority)
  {
    ReleaseDispatches(k);
    SwitchQueues(k);
    var k', prev, R, B := ReleaseProcessor(k), k.running, ReadySet(k.proc), BlockedSet(k.proc);
    var next := k'.running;
    SwitchStates(k.proc, prev, next);
    SamePriorities(k'.ready, R - {next} + (if k.proc[prev].state == RUN then {prev} else {}), k.proc, k'.proc);
    assert B - {next} == B;
    SamePriorities(k'.blocked, B, k.proc, k'.proc);
  }

  /** Being at least as urgent means having at least as good a priority; and only priorities decide urgency. */
  lemma UrgencyAndPriority(proc: seq<Pcb>, proc': seq<Pcb>, a: int, b: int)
    requires |proc| == |proc'| && 0 <= a < |proc| && 0 <= b < |proc|
    requires forall p :: 0 <= p < |proc| ==> proc'[p].priority == proc[p].priority && 0 <= proc[p].priority
    ensures Urgency(proc', a) == Urgency(proc, a) <= proc[a].priority
    ensures Urgency(proc, a) <= Urgency(proc, b) ==> proc[a].priority <= proc[b].priority
  {
  }

  /** When the running process stays, every ready process is less urgent than it. */
  lemma KeepIsSafe(k: State)
    requires Inv(k) && Peek(k.ready, k.proc).1 >= k.proc[k.running].priority
    ensures Safe(k) && StronglySafe(k)
  {
    var at := PeekServesMostUrgent(k.ready, ReadySet(k.proc), k.proc);
    forall p | p in ReadySet(k.proc)
      ensures k.proc[k.running].priority <= k.proc[p].priority && Urgency(k.proc, k.running) <= Urgency(k.proc, p)
    {
      UrgencyAndPriority(k.proc, k.proc, k.running, p);
      UrgencyAndPriority(k.proc, k.proc, p, k.running);
    }
  }

  lemma DispatchIsSafe(k: State)
    requires Handover(k) && !KeepsRunning(k)
    ensures Inv(ReleaseProcessor(k)) && Safe(ReleaseProcessor(k))
  {
    DispatchKeepsInvariant(k);
    DispatchOrder(k);
  }

  lemma DispatchIsStronglySafe(k: State)
    requires Handover(k) && !KeepsRunning(k)
    requires IsBlocked(k.proc[k.running].state) || Peek(k.ready, k.proc).1 < k.proc[k.running].priority
    ensures Inv(ReleaseProcessor(k)) && StronglySafe(ReleaseProcessor(k))
  {
    DispatchKeepsInvariant(k);
    DispatchOrder(k);
  }

  lemma DispatchOrder(k: State)
    requires Handover(k) && !KeepsRunning(k)
    ensures var k', R, prev := ReleaseProcessor(k), ReadySet(k.proc), k.running;
            && 0 <= k'.running < NUM_PROCS
            && (forall p :: 0 <= p < NUM_PROCS && (p in R || (p == prev && k.proc[p].state == RUN)) ==>
                              k'.proc[k'.running].priority <= k'.proc[p].priority)
            && (forall p :: 0 <= p < NUM_PROCS
                            && (p in R || (p == prev && Peek(k.ready, k.proc).1 < k.proc[prev].priority)) ==>
                              Urgency(k'.proc, k'.running) <= Urgency(k'.proc, p))
  {
    ReleaseDispatches(k);
    var at := PeekServesMostUrgent(k.ready, ReadySet(k.proc), k.proc);
    var k' := ReleaseProcessor(k);
    forall p | 0 <= p < NUM_PROCS
      ensures Urgency(k.proc, k'.running) <= Urgency(k.proc, p) ==>
                && k'.proc[k'.running].priority <= k'.proc[p].priority
                && Urgency(k'.proc, k'.running) <= Urgency(k'.proc, p)
    {
      UrgencyAndPriority(k.proc, k'.proc, k'.running, p);
      UrgencyAndPriority(k.proc, k'.proc, p, k'.running);
    }
  }

  /** Every call of k_release_processor keeps the invariant and leaves a process of best priority running. */
  lemma ReleaseKeepsInvariant(k: State, k': State)
    requires Handover(k) && k' == ReleaseProcessor(k)
    ensures Inv(k') && Safe(k') && BlockedSet(k'.proc) == BlockedSet(k.proc)
  {
    ReleaseDispatches(k);
    if KeepsRunning(k) {
      KeepIsSafe(k);
    } else {
      DispatchKeepsInvariant(k);
      DispatchIsSafe(k);
    }
  }

  /** A process that blocked itself leaves the most urgent one running. */
  lemma BlockingLeavesMostUrgent(k: State, k': State)
    requires Handover(k) && IsBlocked(k.proc[k.running].state) && k' == ReleaseProcessor(k)
    ensures Inv(k') && StronglySafe(k')
  {
    ReleaseDispatches(k);
    DispatchIsStronglySafe(k);
  }

  /**
   The strong order does not survive every plain k_release_processor: it does if and only if it is not KCD or CRT that
   gives way, at HIGHEST, to another process at HIGHEST.
   */
  lemma StrongOrderAfterRelease(k: State)
    requires Inv(k)
    ensures Shape(ReleaseProcessor(k)) && ReleaseProcessor(k).running != PID_NONE
    ensures StronglySafe(ReleaseProcessor(k)) <==>
            !(Jumps(k.running) && k.proc[k.running].priority == HIGHEST && Peek(k.ready, k.proc).1 == HIGHEST)
  {
    ReleaseDispatches(k);
    if KeepsRunning(k) {
      KeepIsSafe(k);
    } else {
      var at := PeekServesMostUrgent(k.ready, ReadySet(k.proc), k.proc);
      DispatchKeepsInvariant(k);
      UrgenciesStay(k);
    }
  }

  lemma UrgenciesStay(k: State)
    requires Handover(k) && !KeepsRunning(k)
    ensures forall p :: 0 <= p < NUM_PROCS ==> Urgency(ReleaseProcessor(k).proc, p) == Urgency(k.proc, p)
  {
    DispatchKeepsInvariant(k);
    forall p | 0 <= p < NUM_PROCS ensures Urgency(ReleaseProcessor(k).proc, p) == Urgency(k.proc, p) {
      UrgencyAndPriority(k.proc, ReleaseProcessor(k).proc, p, p);
    }
  }

  // ----- The preemption check -----

  lemma WakeForMemoryKeepsInvariant(k: State)
    requires Inv(k)
    ensures Inv(WakeForMemory(k)) && MemoryServed(WakeForMemory(k))
  {
    var k', R, B := WakeForMemory(k), ReadySet(k.proc), BlockedSet(k.proc);
    if |k.heap| > 0 {
      assert B - {k.running} == B;
      AppendCoherent(k.ready, R, k.blocked, B, k.proc);
      SamePriorities(k'.ready, R + B, k.proc, k'.proc);
      assert ReadySet(k'.proc) == R + B;
      assert BlockedSet(k'.proc) == {};
    }
  }

  lemma SwitchKeepsInvariant(k: State, eager: bool, k': State)
    requires Inv(k) && k' == SwitchIfDue(k, eager)
    ensures Inv(k') && Safe(k') && BlockedSet(k'.proc) == BlockedSet(k.proc) && SameMessages(k, k')
    ensures !eager ==> StronglySafe(k')
  {
    var (pid, prio) := Peek(k.ready, k.proc);
    var at := PeekServesMostUrgent(k.ready, ReadySet(k.proc), k.proc);
    var delta := k.proc[k.running].priority - prio;
    if pid == PID_NONE {
      assert ReadySet(k.proc) == {};
    } else if (if eager then delta >= 0 else delta > 0) {
      assert !KeepsRunning(k);
      DispatchKeepsInvariant(k);
      DispatchIsSafe(k);
      if !eager {
        DispatchIsStronglySafe(k);
      }
    } else {
      KeepIsSafe(k);
    }
  }

  /**
   The preemption check keeps the invariant and leaves the most urgent process running: in the strong sense for the
   plain check; the eager one, which also lets equals take turns, in the weak sense. With a block free it leaves
   nobody waiting for memory.
   */
  lemma CheckKeepsInvariant(k: State, eager: bool, k': State)
    requires Inv(k) && k' == CheckPreemption(k, eager)
    ensures Inv(k') && Safe(k') && MemoryServed(k')
    ensures !eager ==> StronglySafe(k')
  {
    WakeForMemoryKeepsInvariant(k);
    SwitchKeepsInvariant(WakeForMemory(k), eager, k');
  }

  /** Nothing about priorities changes in a preemption check. */
  lemma CheckKeepsPriorities(k: State, eager: bool)
    requires Inv(k)
    ensures var k' := CheckPreemption(k, eager);
            forall p :: 0 <= p < NUM_PROCS ==> k'.proc[p].priority == k.proc[p].priority
  {
    WakeForMemoryKeepsInvariant(k);
    var k1 := WakeForMemory(k);
    ReleaseDispatches(k1);
    if !KeepsRunning(k1) {
      DispatchKeepsInvariant(k1);
    }
  }

  /**
   The check takes the processor away exactly when it must, and gives it to the most urgent process: the plain one if
   and only if somebody ready is more urgent than the running one's priority, the eager one also for somebody just as
   urgent. Processes that the check itself wakes up count as ready.
   */
  lemma CheckPreemptsExactlyWhenDue(k: State, eager: bool)
    requires Inv(k)
    ensures var proc, k' := WakeForMemory(k).proc, CheckPreemption(k, eager);
            && (k'.running != k.running <==>
                  exists p :: p in ReadySet(proc) &&
                        Urgency(proc, p) < k.proc[k.running].priority + (if eager then 1 else 0))
            && (k'.running != k.running ==>
                  k'.running in ReadySet(proc) &&
                        forall p :: p in ReadySet(proc) ==> Urgency(proc, k'.running) <= Urgency(proc, p))
  {
    WakeForMemoryKeepsInvariant(k);
    var k1 := WakeForMemory(k);
    var at := PeekServesMostUrgent(k1.ready, ReadySet(k1.proc), k1.proc);
    ReleaseDispatches(k1);
  }
}
