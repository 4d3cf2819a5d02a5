/**
 The kernel on its real data: process table, ring-buffer queues and mailboxes, linked delayed queue, free list. Each
 method is a call of k_process.c or k_memory.c and does to the globals exactly what its function in KernelState says;
 the asserts of the C code are asserts here, and no push finds its list full.
 */
module Kernels {
  import opened Constants
  import opened Integers
  import opened Sequences
  import opened LinearLists
  import opened PriorityQueues
  import opened MessageQueues
  import opened KernelState
  import opened Scheduling
  import opened KernelCalls
  import opened MessageHistory
  import opened Boot
  import opened Timers

  class Kernel {
    const process: array<Pcb>
    var running: int
    const ready: ListArray<int>
    const blocked: ListArray<int>
    const mail: ListArray<int>
    const delayed: MessageQueue
    const heap: LinearList<int>
    const timer: Timer
    const milli: MilliCounter
    const timeslicing: bool  // HAS_TIMESLICING
    const memBlocks: int   // address of the block pool
    ghost var view: State  // what all of this stands for

    ghost function Footprint(): set<object> {
      {process, heap, heap.values, delayed, delayed.mem} + ready.Repr + blocked.Repr + mail.Repr
    }

    /** The buffers of an array of lists are none of the kernel's other objects. */
    ghost predicate Separate(r: set<object>) {
      this !in r && timer !in r && milli !in r && process !in r && heap !in r && heap.values !in r && delayed !in r &&
            delayed.mem !in r
    }

    ghost predicate Valid()
      reads this, timer, ready, blocked, mail, Footprint()
    {
      && ready.Valid() && blocked.Valid() && mail.Valid() && delayed.Valid() && heap.Valid() && timer.Valid()
      && |ready.lists| == NUM_PRIORITIES && ready.capacity == NUM_PROCS
      && |blocked.lists| == NUM_PRIORITIES && blocked.capacity == NUM_PROCS
      && |mail.lists| == NUM_PROCS && mail.capacity == NUM_MEM_BLOCKS + 2
      && heap.values.Length == NUM_MEM_BLOCKS && delayed.mem.Length == NUM_ENVELOPES && process.Length == NUM_PROCS
      && Separate(ready.Repr) && Separate(blocked.Repr) && Separate(mail.Repr)
      && ready.Repr !! blocked.Repr && ready.Repr !! mail.Repr && blocked.Repr !! mail.Repr
      && view == State(process[..], running, ready.Contents(), blocked.Contents(), mail.Contents(), delayed.Nodes,
                       heap.Contents(), Headers(delayed.mem[..]), timer.ticks)
    }

    /** With time slicing the ticks since the last eager check are counted; otherwise that counter is not used. */
    ghost predicate Counting()
      reads this, timer, milli
    {
      milli.millis == if timeslicing then timer.ticks % 100 else 0
    }

    // ----- Single writes: one global changes, the rest of the view does not -----

    method SetRunning(pid: int)
      requires Valid()
      modifies this
      ensures Valid() && view == old(view).(running := pid)
    {
      running := pid;
      view := view.(running := pid);
    }

    method SetPcb(pid: int, pcb: Pcb)
      requires Valid() && 0 <= pid < NUM_PROCS
      modifies this, process
      ensures Valid() && view == old(view).(proc := old(view.proc)[pid := pcb])
    {
      process[pid] := pcb;
      view := view.(proc := view.proc[pid := pcb]);
    }

    method PushReady(pid: int, prio: int)
      requires Valid() && 0 <= prio < NUM_PRIORITIES && |view.ready[prio]| < NUM_PROCS
      modifies this, ready.Repr
      ensures Valid() && view == old(view).(ready := Push(old(view.ready), pid, prio))
    {
      PushProcess(ready, pid, prio);
      view := view.(ready := Push(view.ready, pid, prio));
    }

    method PushBlocked(pid: int, prio: int)
      requires Valid() && 0 <= prio < NUM_PRIORITIES && |view.blocked[prio]| < NUM_PROCS
      modifies this, blocked.Repr
      ensures Valid() && view == old(view).(blocked := Push(old(view.blocked), pid, prio))
    {
      PushProcess(blocked, pid, prio);
      view := view.(blocked := Push(view.blocked, pid, prio));
    }

    method PopReady() returns (pid: int)
      requires Valid()
      modifies this, ready.Repr
      ensures Valid() && pid == Peek(old(view.ready), old(view.proc)).0
      ensures view == old(view).(ready := PopFirst(old(view.ready), old(view.proc)))
    {
      pid := PopFirstProcess(ready, process);
      view := view.(ready := PopFirst(view.ready, view.proc));
    }

    method ChangeReady(pid: int, from: int, to: int)
      requires Valid() && 0 <= from < NUM_PRIORITIES && 0 <= to < NUM_PRIORITIES && from != to
      requires |view.ready[to]| < NUM_PROCS
      modifies this, ready.Repr
      ensures Valid() && view == old(view).(ready := ChangePriority(old(view.ready), pid, from, to))
    {
      var _ := ChangeProcessPriority(ready, pid, from, to);
      view := view.(ready := ChangePriority(view.ready, pid, from, to));
    }

    method ChangeBlocked(pid: int, from: int, to: int)
      requires Valid() && 0 <= from < NUM_PRIORITIES && 0 <= to < NUM_PRIORITIES && from != to
      requires |view.blocked[to]| < NUM_PROCS
      modifies this, blocked.Repr
      ensures Valid() && view == old(view).(blocked := ChangePriority(old(view.blocked), pid, from, to))
    {
      var _ := ChangeProcessPriority(blocked, pid, from, to);
      view := view.(blocked := ChangePriority(view.blocked, pid, from, to));
    }

    method ReadyTheBlocked()
      requires Valid() && forall i :: 0 <= i < NUM_PRIORITIES ==> |view.ready[i]| + |view.blocked[i]| <= NUM_PROCS
      modifies this, ready.Repr, blocked.Repr
      ensures Valid() && view == old(view).(ready := Append(old(view.ready), old(view.blocked)), blocked := Empty())
    {
      CopyQueue(blocked, ready);
      view := view.(ready := Append(view.ready, view.blocked), blocked := Empty());
      assert blocked.Contents() == Empty();
    }

    method PushMail(pid: int, e: int)
      requires Valid() && 0 <= pid < NUM_PROCS && |view.mail[pid]| < NUM_MEM_BLOCKS + 2
      modifies this, mail.Repr
      ensures Valid() && view == old(view).(mail := old(view.mail)[pid := old(view.mail[pid]) + [e]])
    {
      mail.PushBack(pid, e);
      view := view.(mail := view.mail[pid := view.mail[pid] + [e]]);
    }

    method PopMail(pid: int) returns (e: int)
      requires Valid() && 0 <= pid < NUM_PROCS && view.mail[pid] != []
      modifies this, mail.Repr
      ensures Valid() && e == old(view.mail[pid][0])
      ensures view == old(view).(mail := old(view.mail)[pid := old(view.mail[pid])[1..]])
    {
      e := mail.PopFront(pid);
      view := view.(mail := view.mail[pid := view.mail[pid][1..]]);
    }

    method PushHeap(block: int)
      requires Valid() && |view.heap| < NUM_MEM_BLOCKS
      modifies this, heap, heap.values
      ensures Valid() && view == old(view).(heap := old(view.heap) + [block])
    {
      heap.PushBack(block);
      view := view.(heap := view.heap + [block]);
    }

    method PopHeap() returns (block: int)
      requires Valid() && view.heap != []
      modifies this, heap
      ensures Valid() && block == old(view.heap[0]) && view == old(view).(heap := old(view.heap)[1..])
    {
      block := heap.PopFront();
      assert heap.Contents() == view.heap[1..];
      view := view.(heap := view.heap[1..]);
    }

    method SetHeader(e: int, h: Header)
      requires Valid() && 0 <= e < NUM_ENVELOPES
      modifies this, delayed.mem
      ensures Valid() && view == old(view).(hdr := old(view.hdr)[e := h])
    {
      LinkedFrame(delayed.mem[..], delayed.head, delayed.Nodes, e, delayed.mem[e].(hdr := h));
      delayed.mem[e] := delayed.mem[e].(hdr := h);
      view := view.(hdr := view.hdr[e := h]);
    }

    method EnqueueDelayed(e: int)
      requires Valid() && 0 <= e < NUM_ENVELOPES && e !in view.delayed
      modifies this, delayed, delayed.mem
      ensures Valid() && view == old(view).(delayed := Enqueued(old(view.hdr), old(view.delayed), e))
    {
      delayed.Enqueue(e);
      view := view.(delayed := delayed.Nodes);
    }

    method DequeueDue() returns (e: int)
      requires Valid() && Within(view.delayed, |view.hdr|)
      modifies this, delayed, delayed.mem
      ensures Valid()
      ensures e == NULL <==> old(view.delayed) == [] || old(view.hdr[view.delayed[0]].expiry > Wrapped(view.now))
      ensures e == NULL ==> view == old(view)
      ensures e != NULL ==> e == old(view.delayed[0]) && view == old(view).(delayed := old(view.delayed)[1..])
    {
      ghost var was := view.delayed;
      var now := timer.Now();
      e := delayed.Dequeue(now);
      if e != NULL {
        FrontAndRest(e, delayed.Nodes, was);
        view := view.(delayed := delayed.Nodes);
      }
    }

    method Tick()
      requires Valid()
      modifies this, timer
      ensures Valid() && view == old(view).(now := old(view.now) + 1)
    {
      timer.Tick();
      view := view.(now := view.now + 1);
    }

    // ----- Start-up -----

    /** What the lists of a kernel have to be. */
    static ghost predicate Sized(ready: ListArray<int>, blocked: ListArray<int>, mail: ListArray<int>)
      reads ready, blocked, mail, ready.Repr, blocked.Repr, mail.Repr
    {
      && ready.Valid() && |ready.lists| == NUM_PRIORITIES && ready.capacity == NUM_PROCS
      && blocked.Valid() && |blocked.lists| == NUM_PRIORITIES && blocked.capacity == NUM_PROCS
      && mail.Valid() && |mail.lists| == NUM_PROCS && mail.capacity == NUM_MEM_BLOCKS + 2
      && ready.Repr !! blocked.Repr && ready.Repr !! mail.Repr && blocked.Repr !! mail.Repr
    }

    /** What the other globals are before start-up. */
    static ghost predicate Zeroed(process: array<Pcb>, delayed: MessageQueue, heap: LinearList<int>, timer: Timer)
      reads process, delayed, delayed.mem, heap, heap.values, timer
    {
      && process[..] == ZeroState().proc && timer.Valid() && timer.ticks == ZeroState().now
      && delayed.Valid() && delayed.Nodes == ZeroState().delayed && Headers(delayed.mem[..]) == ZeroState().hdr
      && heap.Valid() && heap.values.Length == NUM_MEM_BLOCKS && heap.Contents() == ZeroState().heap
    }

    /** The zeroed globals, on statically allocated lists. */
    constructor (poolAddress: int, timeslicing: bool, process: array<Pcb>, delayed: MessageQueue, heap: LinearList<int>,
                 timer: Timer, milli: MilliCounter, ready: ListArray<int>, blocked: ListArray<int>,
                 mail: ListArray<int>)
      requires Sized(ready, blocked, mail) && Zeroed(process, delayed, heap, timer) && milli.millis == 0
      requires ready.Contents() == ZeroState().ready && blocked.Contents() == ZeroState().blocked
      requires mail.Contents() == ZeroState().mail
      requires {process, delayed, delayed.mem, heap, heap.values, timer, milli} !! ready.Repr + blocked.Repr + mail.Repr
      ensures Valid() && Counting() && view == ZeroState()
      ensures memBlocks == poolAddress && this.timeslicing == timeslicing
    {
      memBlocks, this.timeslicing := poolAddress, timeslicing;
      this.process, this.delayed, this.heap, this.timer, this.milli := process, delayed, heap, timer, milli;
      this.ready, this.blocked, this.mail := ready, blocked, mail;
      running := PID_NONE;
      view := ZeroState();
    }

    static method NewLists() returns (ready: ListArray<int>, blocked: ListArray<int>, mail: ListArray<int>)
      ensures Sized(ready, blocked, mail) && fresh(ready.Repr + blocked.Repr + mail.Repr)
      ensures ready.Contents() == ZeroState().ready && blocked.Contents() == ZeroState().blocked
      ensures mail.Contents() == ZeroState().mail
    {
      ready := new ListArray<int>(NUM_PRIORITIES, NUM_PROCS, 0);
      blocked := new ListArray<int>(NUM_PRIORITIES, NUM_PROCS, 0);
      mail := new ListArray<int>(NUM_PROCS, NUM_MEM_BLOCKS + 2, 0);
    }

    static method PowerOn(poolAddress: int, timeslicing: bool) returns (k: Kernel)
      ensures k.Valid() && k.Counting() && k.view == ZeroState()
      ensures k.memBlocks == poolAddress && k.timeslicing == timeslicing
    {
      var process := new Pcb[NUM_PROCS](_ => Pcb(NEW, 0));
      var mem := new MsgBuf[NUM_ENVELOPES](_ => MsgBuf(NULL, Header(0, 0, 0)));
      var delayed := new MessageQueue(mem);
      var heap := new LinearList<int>(NUM_MEM_BLOCKS, 0);
      var timer := new Timer();
      var milli := new MilliCounter();
      assert process[..] == ZeroState().proc && Headers(mem[..]) == ZeroState().hdr;
      assert Zeroed(process, delayed, heap, timer);
      var ready, blocked, mail := NewLists();
      k := new Kernel(poolAddress, timeslicing, process, delayed, heap, timer, milli, ready, blocked, mail);
    }

    method PushHeapFront(block: int)
      requires Valid() && |view.heap| < NUM_MEM_BLOCKS
      modifies this, heap, heap.values
      ensures Valid() && view == old(view).(heap := [block] + old(view.heap))
    {
      heap.PushFront(block);
      view := view.(heap := [block] + view.heap);
    }

    /** memory_init. */
    method InitMemory()
      requires Valid() && view.heap == []
      modifies this, heap, heap.values
      ensures Valid() && view == old(view).(heap := FreshHeap())
    {
      for i := 0 to NUM_MEM_BLOCKS
        invariant Valid() && view == old(view).(heap := PushedBlocks(i))
      {
        PushHeapFront(i);
        PushedNext(i);
      }
    }

    /** One entry of the process table; `done` are the entries before it. */
    method InitializeProcess(t: ProcInit, ghost done: seq<ProcInit>)
      requires Valid() && TableOk(done + [t]) && TableOk(done)
      requires view.proc == Initialized(done).0 && view.ready == Initialized(done).1
      modifies this, process, ready.Repr
      ensures Valid()
      ensures view == old(view).(proc := Initialized(done + [t]).0, ready := Initialized(done + [t]).1)
    {
      var table := done + [t];
      assert table[|done|] == t && table[..|done|] == done;
      PidsOfLast(done, t);
      InitializedCoherent(done);
      CapacityLeft(view.ready, Pids(done), view.proc, t.pid);
      SetPcb(t.pid, Pcb(NEW, t.priority));
      PushReady(t.pid, t.priority);
    }

    /** initialize_processes. */
    method InitializeProcesses(table: seq<ProcInit>)
      requires Valid() && TableOk(table)
      requires view.proc == Initialized([]).0 && view.ready == Initialized([]).1
      modifies this, process, ready.Repr
      ensures Valid() && view == old(view).(proc := Initialized(table).0, ready := Initialized(table).1)
    {
      ghost var done: seq<ProcInit> := [];
      for i := 0 to |table|
        invariant done == table[..i] && TableOk(done) && Valid()
        invariant view == old(view).(proc := Initialized(done).0, ready := Initialized(done).1)
      {
        TablePrefix(table, i);
        InitializeProcess(table[i], done);
        done := done + [table[i]];
      }
      assert done == table;
    }

    /** process_init: whatever pid the table leaves out becomes an interrupt process. */
    method ProcessInit()
      requires Valid() && view.proc == Initialized([]).0 && view.ready == Initialized([]).1
      modifies this, process, ready.Repr
      ensures TableOk(ProcTable()) && Valid()
      ensures view == old(view).(proc := WithIprocs(Initialized(ProcTable()).0, Pids(ProcTable())),
                                 ready := Initialized(ProcTable()).1)
    {
      ProcTableOk();
      InitializeProcesses(ProcTable());
      ghost var was := view.proc;
      for i := 0 to NUM_PROCS
        invariant Valid() && view == old(view).(proc := view.proc, ready := Initialized(ProcTable()).1)
        invariant |view.proc| == NUM_PROCS
        invariant forall j :: 0 <= j < NUM_PROCS ==>
                                view.proc[j] ==
                                  if j < i && j !in Pids(ProcTable()) then Pcb(NEW, IPROC_PRIO) else was[j]
      {
        if i !in Pids(ProcTable()) {
          SetPcb(i, Pcb(NEW, IPROC_PRIO));
        }
      }
      assert view.proc == WithIprocs(was, Pids(ProcTable()));
    }

    /** k_rtx_init: from power-on to the first running process. */
    method RtxInit()
      requires Valid() && view == ZeroState()
      modifies this, Footprint()
      ensures Valid() && Shape(InitialState()) && view == KernelState.ReleaseProcessor(InitialState())
      ensures Inv(view)
    {
      InitMemory();
      ProcessInit();
      BootEstablishesInvariant();
      assert view == InitialState();
      RunScheduler();
      var _ := SwitchProcess(PID_NONE);
    }

    // ----- Scheduling -----

    method RunScheduler()
      requires Valid() && Shape(view)
      modifies this, Footprint()
      ensures Valid() && view == Scheduler(old(view))
    {
      var peekPid, peekPriority := PeekFront(ready, process);
      if running != PID_NONE && peekPriority > process[running].priority &&
         process[running].state != BLOCKED_ON_RESOURCE && process[running].state != BLOCKED_ON_RECEIVE {
        return;
      }
      var pid := PopReady();
      SetRunning(if pid == PID_NONE then PID_NULL else pid);
    }

    method SwitchProcess(oldPid: int) returns (result: int)
      requires Valid() && Shape(view) && running != PID_NONE && (oldPid == PID_NONE || 0 <= oldPid < NUM_PROCS)
      modifies this, Footprint()
      ensures Valid() && view == ProcessSwitch(old(view), oldPid)
      ensures result == if old(running != oldPid && process[running].state !in {NEW, RDY}) then RTX_ERR else RTX_OK
    {
      var pcb := process[running];
      if pcb.state == NEW {
        SetPcb(running, pcb.(state := RUN));
        return RTX_OK;
      }
      if running != oldPid {
        if pcb.state == RDY {
          SetPcb(running, pcb.(state := RUN));
        } else {
          SetRunning(oldPid);
          return RTX_ERR;
        }
      }
      return RTX_OK;
    }

    /** k_release_processor. */
    method ReleaseProcessor() returns (result: int)
      requires Valid() && Handover(view)
      modifies this, Footprint()
      ensures Valid() && view == KernelState.ReleaseProcessor(old(view)) && result == RTX_OK
    {
      ghost var was := view;
      ReleaseDispatches(was);
      var oldPid := running;
      RunScheduler();
      if running == oldPid {
        return RTX_OK;
      }
      RoomForOutgoing(was);
      var pcb := process[oldPid];
      match pcb.state {
        case BLOCKED_ON_RESOURCE => PushBlocked(oldPid, pcb.priority);
        case BLOCKED_ON_RECEIVE =>
        case RUN =>
          SetPcb(oldPid, pcb.(state := RDY));
          PushReady(oldPid, pcb.priority);
        case RDY => assert false;
        case NEW => assert false;
      }
      assert view == Requeue(Scheduler(was), oldPid);
      // the assertions of process_switch
      assert view.proc[running].state in {NEW, RDY} && running != oldPid && view.proc[oldPid].state != NEW;
      var _ := SwitchProcess(oldPid);
      result := RTX_OK;
    }

    /** k_poll. */
    method Poll(which: ProcState)
      requires Valid() && Inv(view) && running != PID_NULL && IsBlocked(which)
      modifies this, Footprint()
      ensures Valid() && view == KernelState.Poll(old(view), which)
    {
      PollStart(view, which);
      SetPcb(running, process[running].(state := which));
      var _ := ReleaseProcessor();
    }

    /** The loop of k_check_preemption_impl that marks memory waiters ready. */
    method MarkWoken()
      requires Valid()
      modifies this, process
      ensures Valid() && view == old(view).(proc := Woken(old(view.proc)))
    {
      ghost var was := view;
      for i := 0 to NUM_PROCS
        invariant Valid() && view == was.(proc := view.proc) && |view.proc| == |was.proc| == NUM_PROCS
        invariant forall j :: 0 <= j < NUM_PROCS ==> view.proc[j] == if j < i then Woken(was.proc)[j] else was.proc[j]
      {
        var pcb := process[i];
        if pcb.priority < NULL_PRIO && pcb.state == BLOCKED_ON_RESOURCE {
          SetPcb(i, pcb.(state := RDY));
        }
      }
      assert view.proc == Woken(was.proc);
    }

    /** First half of k_check_preemption_impl. */
    method WakeMemoryWaiters()
      requires Valid() && Inv(view)
      modifies this, Footprint()
      ensures Valid() && view == WakeForMemory(old(view))
    {
      if heap.size > 0 {
        RoomForWoken(view);
        ReadyTheBlocked();
        MarkWoken();
      }
    }

    /** Second half of k_check_preemption_impl. */
    method SwitchIfDue(isEager: bool)
      requires Valid() && Inv(view)
      modifies this, Footprint()
      ensures Valid() && view == KernelState.SwitchIfDue(old(view), isEager)
    {
      var next, readyPrio := PeekFront(ready, process);
      if next != PID_NONE {
        var delta := process[running].priority - readyPrio;
        if (if isEager then delta >= 0 else delta > 0) {
          var _ := ReleaseProcessor();
        }
      }
    }

    /** k_check_preemption_impl. */
    method CheckPreemption(isEager: bool)
      requires Valid() && Inv(view)
      modifies this, Footprint()
      ensures Valid() && view == KernelState.CheckPreemption(old(view), isEager)
    {
      WakeForMemoryKeepsInvariant(view);
      WakeMemoryWaiters();
      SwitchIfDue(isEager);
    }

    /** k_check_preemption_eager: every hundredth time. */
    method CheckPreemptionEager()
      requires Valid() && Inv(view)
      modifies this, milli, Footprint()
      ensures Valid() && milli.millis == (old(milli.millis) + 1) % 100
      ensures milli.millis == 0 ==> view == KernelState.CheckPreemption(old(view), true)
      ensures milli.millis != 0 ==> view == old(view)
    {
      var due := milli.Count();
      if due {
        CheckPreemption(true);
      }
    }

    /** k_set_process_priority. */
    method SetProcessPriority(pid: int, priority: int) returns (result: int)
      requires Valid() && Inv(view)
      modifies this, Footprint()
      ensures Valid() && (view, result) == KernelState.SetProcessPriority(old(view), pid, priority)
    {
      if pid == PID_NULL && priority == NULL_PRIO {
        return RTX_OK;
      }
      if pid < 1 || pid >= NUM_PROCS || priority < 0 || priority >= NULL_PRIO {
        return RTX_ERR;
      }
      var pcb := process[pid];
      if pcb.priority == priority {
        return RTX_OK;
      }
      PriorityChangeKeepsInvariant(view, pid, priority);
      ChangeReady(pid, pcb.priority, priority);
      ChangeBlocked(pid, pcb.priority, priority);
      SetPcb(pid, pcb.(priority := priority));
      CheckPreemption(false);
      result := RTX_OK;
    }

    // ----- Memory -----

    /** One round of k_request_memory_block: a block, or NULL if the caller was suspended and has to try again. */
    method RequestMemoryBlock(ghost place: seq<Place>) returns (block: int)
      requires Valid() && Inv(view) && Ledger(view, place) && running != PID_NULL
      modifies this, Footprint()
      ensures Valid() && view == KernelState.RequestMemoryBlock(old(view)).0
      ensures KernelState.RequestMemoryBlock(old(view)).1 == if block == NULL then Suspended else Done(block, PID_NONE)
    {
      if heap.size == 0 {
        Poll(BLOCKED_ON_RESOURCE);
        return NULL;
      }
      block := PopHeap();
      assert block in old(view.heap);
    }

    method ReleaseMemoryBlockValid(address: int) returns (result: int)
      requires Valid()
      ensures result == if ReleaseValid(view, BlockAt(memBlocks, address)) then RTX_OK else RTX_ERR
    {
      if address == 0 {
        return RTX_ERR;
      }
      var offset := (address - memBlocks) % 0x1_0000_0000;
      if offset >= NUM_MEM_BLOCKS * MEM_BLOCK_SIZE {
        return RTX_ERR;
      }
      if offset % MEM_BLOCK_SIZE != 0 {
        return RTX_ERR;
      }
      var block := offset / MEM_BLOCK_SIZE;
      var k := 0;
      while k != heap.size
        invariant 0 <= k <= heap.size && block !in heap.Contents()[..k]
        decreases heap.size - k
      {
        var blk := heap.At(k);
        if blk == block {
          return RTX_ERR;
        }
        k := k + 1;
      }
      assert heap.Contents()[..k] == heap.Contents();
      result := RTX_OK;
    }

    /** k_release_memory_block; the pool holds each block once, so its list has room for the one that comes back. */
    method ReleaseMemoryBlock(address: int, ghost place: seq<Place>) returns (result: int)
      requires Valid() && Inv(view) && Ledger(view, place)
      modifies this, Footprint()
      ensures Valid() && (view, result) == KernelState.ReleaseMemoryBlock(old(view), BlockAt(memBlocks, address))
    {
      var valid := ReleaseMemoryBlockValid(address);
      if valid != RTX_OK {
        return RTX_ERR;
      }
      var block := BlockAt(memBlocks, address);
      FreeListBound(view.heap, place, block);
      PushHeap(block);
      CheckPreemption(false);
      result := RTX_OK;
    }

    // ----- Messages -----

    /** k_send_message_helper; the envelope is in no mailbox, so the receiver's has room for it. */
    method SendMessageHelper(sender: int, receiver: int, e: int, ghost place: seq<Place>)
      requires Valid() && Inv(view) && Ledger(view, place)
      requires 0 <= receiver < NUM_PROCS && 0 <= e < NUM_ENVELOPES && place[e].Held?
      modifies this, Footprint()
      ensures Valid() && view == SendHelper(old(view), sender, receiver, e)
    {
      MailboxRoom(view, place, receiver, e);
      RoomForReady(view, receiver);
      SetHeader(e, delayed.mem[e].hdr.(sender := sender, receiver := receiver));
      PushMail(receiver, e);
      var pcb := process[receiver];
      if pcb.state == BLOCKED_ON_RECEIVE {
        SetPcb(receiver, pcb.(state := RDY));
        PushReady(receiver, pcb.priority);
      }
    }

    /** k_send_message. */
    method SendMessage(receiver: int, e: int, ghost place: seq<Place>) returns (result: int)
      requires Valid() && Inv(view) && Ledger(view, place)
      requires e == NULL || (0 <= e < NUM_ENVELOPES && place[e].Held?)
      modifies this, Footprint()
      ensures Valid() && (view, result) == KernelState.SendMessage(old(view), receiver, e)
    {
      if e == NULL || receiver < 0 || receiver >= NUM_PROCS {
        return RTX_ERR;
      }
      SendHelperKeepsInv(view, running, receiver, e);
      SendMessageHelper(running, receiver, e, place);
      CheckPreemption(false);
      result := RTX_OK;
    }

    /** One round of k_receive_message: an envelope and its sender, or NULL if the caller was suspended. */
    method ReceiveMessage(ghost place: seq<Place>) returns (e: int, sender: int)
      requires Valid() && Inv(view) && Ledger(view, place) && running != PID_NULL
      requires forall x :: x in view.mail[view.running] ==> 0 <= x < NUM_ENVELOPES
      modifies this, Footprint()
      ensures Valid() && view == KernelState.ReceiveMessage(old(view)).0
      ensures KernelState.ReceiveMessage(old(view)).1 == if e == NULL then Suspended else Done(e, sender)
    {
      if mail.lists[running].size == 0 {
        Poll(BLOCKED_ON_RECEIVE);
        return NULL, PID_NONE;
      }
      assert view.mail[running][0] in view.mail[running];
      e := PopMail(running);
      sender := delayed.mem[e].hdr.sender;
    }

    /** k_delayed_send. */
    method DelayedSend(receiver: int, e: int, delay: int32, ghost place: seq<Place>) returns (result: int)
      requires Valid() && Inv(view) && Ledger(view, place)
      requires e == NULL || (0 <= e < NUM_ENVELOPES && place[e].Held?)
      modifies this, Footprint()
      ensures Valid() && (view, result) == KernelState.DelayedSend(old(view), receiver, e, delay)
    {
      if e == NULL || receiver < 0 || receiver >= NUM_PROCS {
        return RTX_ERR;
      }
      if delay == 0 {
        result := SendMessage(receiver, e, place);
        return;
      }
      SendLater(receiver, e, delay);
      DelayedSendIs(old(view), view, receiver, e, delay);
      result := RTX_OK;
    }

    /** The rest of k_delayed_send. */
    method SendLater(receiver: int, e: int, delay: int32)
      requires Valid() && Shape(view) && 0 <= e < NUM_ENVELOPES && e !in view.delayed
      modifies this, delayed, delayed.mem
      ensures Valid() && view == QueueDelayed(old(view), old(view.running), receiver, e, delay)
    {
      var h := Header(running, receiver, timer.After(delay));
      QueuedIs(view, receiver, e, delay, h);
      StampAndQueue(e, h, QueueDelayed(view, view.running, receiver, e, delay));
    }

    /** Header and queue entry of a delayed message, which make the state `k'`. */
    method StampAndQueue(e: int, h: Header, ghost k': State)
      requires Valid() && Shape(view) && 0 <= e < NUM_ENVELOPES && e !in view.delayed
      requires StampedAndQueued(view, e, h, k')
      modifies this, delayed, delayed.mem
      ensures Valid() && view == k'
    {
      SetHeader(e, h);
      EnqueueDelayed(e);
    }

    /** k_check_delayed_messages. */
    method CheckDelayedMessages(ghost place: seq<Place>)
      requires Valid() && Inv(view) && Ledger(view, place)
      modifies this, Footprint()
      ensures Valid() && Inv(view) && view == DeliverDue(old(view))
    {
      ghost var places := place;
      while true
        invariant Valid() && Inv(view) && Ledger(view, places)
        invariant DeliverDue(view) == DeliverDue(old(view))
        decreases |view.delayed|
      {
        ghost var was := view;
        var e := DequeueDue();
        if e == NULL {
          break;
        }
        DueLeavesQueue(was, places);
        places := places[e := Held(PID_TIMER_IPROC)];
        var h := delayed.mem[e].hdr;
        SendHelperKeepsInv(view, h.sender, h.receiver, e);
        DeliveryKeepsLedger(view, places, h.sender, h.receiver, e);
        SendMessageHelper(h.sender, h.receiver, e, places);
        places := places[e := Mailbox(h.receiver)];
      }
    }

    // ----- Interrupts -----

    /**
     c_TIMER0_IRQHandler. Without time slicing it leaves the most urgent process running; with it every hundredth tick
     since start-up does the eager check, and the others do nothing but deliver.
     */
    method TimerIrq(ghost place: seq<Place>)
      requires Valid() && Counting() && Inv(view) && Ledger(view, place)
      modifies this, timer, milli, Footprint()
      ensures Valid() && Counting() && Inv(view) && view.now == old(view.now) + 1
      ensures view == TimerInterrupt(old(view), CheckOf(timeslicing, view.now))
      ensures !timeslicing ==> Safe(view) && StronglySafe(view) && MemoryServed(view)
      ensures timeslicing && view.now % 100 == 0 ==> Safe(view) && MemoryServed(view)
      ensures timeslicing && view.now % 100 != 0 ==> view == DeliverDue(old(view).(now := old(view.now) + 1))
    {
      ghost var was := view;
      NextOfHundred(timer.ticks);
      ghost var ticked, delivered := RunTick(place);
      TickIs(was, ticked, delivered, timeslicing, milli.millis, view);
    }

    method RunTick(ghost place: seq<Place>) returns (ghost ticked: State, ghost delivered: State)
      requires Valid() && Inv(view) && Ledger(view, place)
      modifies this, timer, milli, Footprint()
      ensures Valid() && timer.ticks == old(timer.ticks) + 1
      ensures ticked == old(view).(now := old(view.now) + 1) && Shape(ticked)
      ensures delivered == DeliverDue(ticked) && Inv(delivered)
      ensures view == AfterTick(delivered, CheckAt(timeslicing, milli.millis))
      ensures milli.millis == if timeslicing then (old(milli.millis) + 1) % 100 else old(milli.millis)
    {
      ticked := TickAndDeliver(place);
      delivered := view;
      EndTick();
    }

    /** The tick is counted, and what is due by then delivered. */
    method TickAndDeliver(ghost place: seq<Place>) returns (ghost ticked: State)
      requires Valid() && Inv(view) && Ledger(view, place)
      modifies this, timer, Footprint()
      ensures Valid() && Inv(view) && timer.ticks == old(timer.ticks) + 1
      ensures ticked == old(view).(now := old(view.now) + 1) && Shape(ticked) && view == DeliverDue(ticked)
    {
      ghost var was := view;
      Tick();
      ticked := view;
      TickKeepsInvariant(was, ticked, place);
      CheckDelayedMessages(place);
    }

    /** The check at the end of a tick, as the build has it. */
    method EndTick()
      requires Valid() && Inv(view)
      modifies this, milli, Footprint()
      ensures Valid() && view == AfterTick(old(view), CheckAt(timeslicing, milli.millis))
      ensures milli.millis == if timeslicing then (old(milli.millis) + 1) % 100 else old(milli.millis)
    {
      if timeslicing {
        CheckPreemptionEager();
      } else {
        CheckPreemption(false);
      }
    }

    /** c_UART0_IRQHandler as far as the kernel goes. */
    method UartIrq(notify: bool, receiver: int, notification: int, ghost place: seq<Place>)
      requires Valid() && Inv(view) && Ledger(view, place)
      requires notify ==> 0 <= receiver < NUM_PROCS && 0 <= notification < NUM_ENVELOPES && place[notification].Held?
      modifies this, Footprint()
      ensures Valid() && view == UartInterrupt(old(view), notify, receiver, notification)
    {
      if notify {
        SendHelperKeepsInv(view, PID_UART_IPROC, receiver, notification);
        SendMessageHelper(PID_UART_IPROC, receiver, notification, place);
      }
      CheckPreemption(false);
    }
  }

  lemma TickKeepsInvariant(k: State, k': State, place: seq<Place>)
    requires Inv(k) && Ledger(k, place) && k' == k.(now := k.now + 1)
    ensures Inv(k') && Ledger(k', place)
  {
  }

  lemma NextOfHundred(n: int)
    ensures (n % 100 + 1) % 100 == (n + 1) % 100
  {
  }

  /** How a tick ends when the counter of the eager check is `millis` after it. */
  function CheckAt(timeslicing: bool, millis: nat): TickCheck {
    if !timeslicing then Plain else if millis == 0 then Eager else Skipped
  }

  /** What a tick leaves, when `d` is the kernel after its deliveries. */
  lemma TickEnding(d: State, check: TickCheck, k': State)
    requires Inv(d) && k' == AfterTick(d, check)
    ensures Inv(k') && k'.now == d.now
    ensures check.Plain? ==> Safe(k') && StronglySafe(k') && MemoryServed(k')
    ensures check.Eager? ==> Safe(k') && MemoryServed(k')
    ensures check.Skipped? ==> k' == d
  {
    if !check.Skipped? {
      CheckKeepsInvariant(d, check.Eager?, k');
    }
  }

  lemma TickIs(k: State, ticked: State, d: State, timeslicing: bool, millis: nat, k': State)
    requires Inv(k) && ticked == k.(now := k.now + 1) && Shape(ticked) && d == DeliverDue(ticked) && Inv(d)
    requires (timeslicing ==> millis == (k.now + 1) % 100) && k' == AfterTick(d, CheckAt(timeslicing, millis))
    ensures k' == TimerInterrupt(k, CheckOf(timeslicing, k'.now)) && Inv(k') && k'.now == k.now + 1
    ensures !timeslicing ==> Safe(k') && StronglySafe(k') && MemoryServed(k')
    ensures timeslicing && k'.now % 100 == 0 ==> Safe(k') && MemoryServed(k')
    ensures timeslicing && k'.now % 100 != 0 ==> k' == DeliverDue(k.(now := k.now + 1))
  {
    var check := CheckAt(timeslicing, millis);
    assert check == CheckOf(timeslicing, k.now + 1);
    TickEnding(d, check, k');
    TimerIs(k, ticked, d, check, k');
  }

  lemma TimerIs(k: State, ticked: State, d: State, check: TickCheck, k': State)
    requires Shape(k) && k.running != PID_NONE && ticked == k.(now := k.now + 1)
    requires d == DeliverDue(ticked) && k' == AfterTick(d, check)
    ensures k' == TimerInterrupt(k, check)
  {
  }

  lemma FrontAndRest(e: int, rest: seq<int>, all: seq<int>)
    requires [e] + rest == all
    ensures all != [] && e == all[0] && rest == all[1..]
  {
  }

  ghost predicate StampedAndQueued(k: State, e: int, h: Header, k': State)
    requires Shape(k) && 0 <= e < NUM_ENVELOPES
  {
    var hdr := k.hdr[e := h];
    k' == k.(hdr := hdr, delayed := Enqueued(hdr, k.delayed, e))
  }

  lemma QueuedIs(k: State, receiver: int, e: int, delay: int32, h: Header)
    requires Shape(k) && 0 <= e < NUM_ENVELOPES && h == Header(k.running, receiver, Wrapped(k.now + delay))
    ensures StampedAndQueued(k, e, h, QueueDelayed(k, k.running, receiver, e, delay))
  {
  }

  lemma DelayedSendIs(k: State, k': State, receiver: int, e: int, delay: int32)
    requires Shape(k) && k.running != PID_NONE && ValidMessage(receiver, e) && 0 <= e < NUM_ENVELOPES && delay != 0
    requires k' == QueueDelayed(k, k.running, receiver, e, delay)
    ensures KernelState.DelayedSend(k, receiver, e, delay) == (k', RTX_OK)
  {
  }

  // ----- Why there is always room -----

  lemma RoomForOutgoing(k: State)
    requires Handover(k) && !KeepsRunning(k)
    ensures 0 <= k.proc[k.running].priority < NUM_PRIORITIES
    ensures k.proc[k.running].state == RUN ==> |PopFirst(k.ready, k.proc)[k.proc[k.running].priority]| < NUM_PROCS
    ensures k.proc[k.running].state == BLOCKED_ON_RESOURCE ==> |k.blocked[k.proc[k.running].priority]| < NUM_PROCS
  {
    ReleaseDispatches(k);
    PopTakesThePeeked(k.ready, ReadySet(k.proc), k.proc);
    if k.proc[k.running].state == RUN {
      CapacityLeft(PopFirst(k.ready, k.proc), ReadySet(k.proc) - {Peek(k.ready, k.proc).0}, k.proc, k.running);
    } else {
      CapacityLeft(k.blocked, BlockedSet(k.proc) - {k.running}, k.proc, k.running);
    }
  }

  lemma RoomForWoken(k: State)
    requires Inv(k)
    ensures forall i :: 0 <= i < NUM_PRIORITIES ==> |k.ready[i]| + |k.blocked[i]| <= NUM_PROCS
  {
    assert BlockedSet(k.proc) - {k.running} == BlockedSet(k.proc);
    AppendCoherent(k.ready, ReadySet(k.proc), k.blocked, BlockedSet(k.proc), k.proc);
  }

  lemma RoomForReady(k: State, pid: int)
    requires Inv(k) && 0 <= pid < NUM_PROCS
    ensures k.proc[pid].state == BLOCKED_ON_RECEIVE ==> |k.ready[k.proc[pid].priority]| < NUM_PROCS
  {
    if k.proc[pid].state == BLOCKED_ON_RECEIVE {
      CapacityLeft(k.ready, ReadySet(k.proc), k.proc, pid);
    }
  }

  lemma MailboxRoom(k: State, place: seq<Place>, receiver: int, e: int)
    requires Ledger(k, place) && 0 <= receiver < NUM_PROCS && 0 <= e < NUM_ENVELOPES && place[e].Held?
    ensures |k.mail[receiver]| < NUM_MEM_BLOCKS + 2
  {
    assert ListsExactly(k.mail[receiver], place, Mailbox(receiver));
    Pigeonhole(k.mail[receiver], NUM_ENVELOPES, e);
  }

}
