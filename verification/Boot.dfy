/** Start-up: the process table, the block pool and the first dispatch (k_process.c, k_memory.c, k_rtx_init.c). */
module Boot {
  import opened Constants
  import opened PriorityQueues
  import opened MessageQueues
  import opened KernelState
  import opened Scheduling
  import opened KernelCalls

  datatype ProcInit = ProcInit(pid: int, priority: int)

  /** g_proc_table followed by g_test_procs. */
  function ProcTable(): seq<ProcInit> {
    [ProcInit(PID_NULL, NULL_PRIO), ProcInit(PID_CLOCK, HIGHEST), ProcInit(PID_KCD, HIGHEST),
     ProcInit(PID_CRT, HIGHEST), ProcInit(PID_SET_PRIO, HIGHEST)] + seq(9, i => ProcInit(i + 1, LOWEST))
  }

  function Pids(table: seq<ProcInit>): set<int> {
    set t | t in table :: t.pid
  }

  ghost predicate TableOk(table: seq<ProcInit>) {
    && (forall i :: 0 <= i < |table| ==> 0 <= table[i].pid < NUM_PROCS && 0 <= table[i].priority < NUM_PRIORITIES)
    && (forall i, j :: 0 <= i < j < |table| ==> table[i].pid != table[j].pid)
  }

  /** initialize_processes on zeroed globals: process[] and g_ready_queue after the entries of `table`. */
  function Initialized(table: seq<ProcInit>): (r: (seq<Pcb>, seq<seq<int>>))
    requires TableOk(table)
    ensures |r.0| == NUM_PROCS && |r.1| == NUM_PRIORITIES
  {
    if table == [] then (seq(NUM_PROCS, _ => Pcb(NEW, 0)), Empty())
    else
      var (proc, ready) := Initialized(table[..|table| - 1]);
      var t := table[|table| - 1];
      (proc[t.pid := Pcb(NEW, t.priority)], Push(ready, t.pid, t.priority))
  }

  /** process_init: pids that the table leaves out become interrupt processes. */
  function WithIprocs(proc: seq<Pcb>, pids: set<int>): (proc': seq<Pcb>)
    ensures |proc'| == |proc|
  {
    seq(|proc|, i requires 0 <= i < |proc| => if i in pids then proc[i] else Pcb(NEW, IPROC_PRIO))
  }

  lemma NewPriorityCoherent(q: seq<seq<int>>, members: set<int>, proc: seq<Pcb>, t: ProcInit)
    requires Coherent(q, members, proc) && 0 <= t.pid < NUM_PROCS && 0 <= t.priority < NUM_PRIORITIES
    requires t.pid !in members
    ensures Coherent(Push(q, t.pid, t.priority), members + {t.pid}, proc[t.pid := Pcb(NEW, t.priority)])
  {
    var proc' := proc[t.pid := Pcb(NEW, t.priority)];
    RestrictedCoherent(q, members, proc, proc');
    PushCoherent(q, members, proc', t.pid);
  }

  /** The table entries' PCBs after initialisation. */
  lemma {:induction false} InitializedPcbs(table: seq<ProcInit>)
    requires TableOk(table)
    ensures forall i :: 0 <= i < |table| ==> Initialized(table).0[table[i].pid] == Pcb(NEW, table[i].priority)
  {
    if table != [] {
      InitializedPcbs(table[..|table| - 1]);
    }
  }

  lemma {:induction false} InitializedCoherent(table: seq<ProcInit>)
    requires TableOk(table)
    ensures Coherent(Initialized(table).1, Pids(table), Initialized(table).0)
  {
    if table == [] {
      NobodyCoherent(seq(NUM_PROCS, _ => Pcb(NEW, 0)));
      assert Pids(table) == {};
    } else {
      var front, t := table[..|table| - 1], table[|table| - 1];
      InitializedCoherent(front);
      PidsOfLast(front, t);
      assert table == front + [t];
      var r := Initialized(front);
      NewPriorityCoherent(r.1, Pids(front), r.0, t);
    }
  }

  lemma NobodyCoherent(proc: seq<Pcb>)
    requires |proc| == NUM_PROCS
    ensures Coherent(Empty(), {}, proc)
  {
  }

  lemma TablePrefix(table: seq<ProcInit>, i: nat)
    requires TableOk(table) && i < |table|
    ensures TableOk(table[..i]) && TableOk(table[..i] + [table[i]]) && table[..i + 1] == table[..i] + [table[i]]
  {
  }

  lemma PidsOfLast(front: seq<ProcInit>, t: ProcInit)
    requires TableOk(front + [t])
    ensures Pids(front + [t]) == Pids(front) + {t.pid} && t.pid !in Pids(front)
  {
    var table := front + [t];
    forall i | 0 <= i < |front| ensures table[i] == front[i] && front[i].pid != t.pid {
      assert table[i].pid != table[|front|].pid;
    }
    assert t in table;
    assert forall x :: x in table <==> x in front || x == t;
  }

  /** All globals zero, all lists empty. */
  function ZeroState(): State {
    State(seq(NUM_PROCS, _ => Pcb(NEW, 0)), PID_NONE, Empty(), Empty(), seq(NUM_PROCS, _ => []), [], [],
          seq(NUM_ENVELOPES, _ => Header(0, 0, 0)), 0)
  }

  /** Every block is free; memory_init pushes them to the front one after the other. */
  function FreshHeap(): seq<int> {
    PushedBlocks(NUM_MEM_BLOCKS)
  }

  /** Blocks 0 to n-1, each pushed to the front. */
  function PushedBlocks(n: nat): (s: seq<int>)
    ensures |s| == n
  {
    seq(n, i => n - 1 - i)
  }

  lemma PushedNext(n: nat)
    ensures [n] + PushedBlocks(n) == PushedBlocks(n + 1)
  {
  }

  /** The globals when the first process is about to be chosen. */
  function InitialState(): (k: State)
    ensures k.running == PID_NONE
    ensures |k.ready| == NUM_PRIORITIES
  {
    ProcTableOk();
    var (proc, ready) := Initialized(ProcTable());
    ZeroState().(heap := FreshHeap(), proc := WithIprocs(proc, Pids(ProcTable())), ready := ready)
  }

  lemma ProcTableOk()
    ensures TableOk(ProcTable())
    ensures forall p :: p in Pids(ProcTable()) <==> 0 <= p < NUM_PROCS && !IsIproc(p)
  {
    var table := ProcTable();
    forall p | 0 <= p < NUM_PROCS && !IsIproc(p) ensures p in Pids(table) {
      var i := if p == 0 then 0 else if p < PID_SET_PRIO then p + 4 else if p == PID_SET_PRIO then 4 else p - 10;
      assert table[i].pid == p && table[i] in table;
    }
  }

  lemma InitialProcesses()
    ensures var proc := InitialState().proc;
            && Roles(proc) && ReadySet(proc) == Pids(ProcTable())
            && (forall p :: 0 <= p < NUM_PROCS ==> proc[p].state == NEW && 0 <= proc[p].priority < NUM_PRIORITIES)
            && (forall p :: p in ReadySet(proc) ==> proc[p] == Initialized(ProcTable()).0[p])
            && proc[PID_KCD].priority == HIGHEST
  {
    var table := ProcTable();
    ProcTableOk();
    InitializedPcbs(table);
    var proc := Initialized(table).0;
    forall p | p in Pids(table)
      ensures proc[p].state == NEW && 0 <= proc[p].priority < NUM_PRIORITIES &&
                (p != 0 ==> proc[p].priority < NULL_PRIO)
    {
      var i :| 0 <= i < |table| && table[i].pid == p;
      assert proc[table[i].pid] == Pcb(NEW, table[i].priority);
    }
    assert proc[table[0].pid] == Pcb(NEW, NULL_PRIO);
    assert proc[table[2].pid] == Pcb(NEW, HIGHEST);
  }

  lemma InitialCoherent()
    ensures var k := InitialState(); Shape(k) && Roles(k.proc) && Coherent(k.ready, ReadySet(k.proc), k.proc)
  {
    var k, table := InitialState(), ProcTable();
    ProcTableOk();
    InitialProcesses();
    InitializedCoherent(table);
    CoherentPids(k.ready, Pids(table), Initialized(table).0);
    RestrictedCoherent(k.ready, Pids(table), Initialized(table).0, k.proc);
  }

  lemma RestrictedCoherent(q: seq<seq<int>>, members: set<int>, proc: seq<Pcb>, proc': seq<Pcb>)
    requires Coherent(q, members, proc) && |proc'| == |proc| && forall p :: p in members ==> proc'[p] == proc[p]
    ensures Coherent(q, members, proc')
  {
  }

  /** Choosing the first process, when none runs yet. */
  lemma FirstDispatch(k: State)
    requires Shape(k) && k.running == PID_NONE && Coherent(k.ready, ReadySet(k.proc), k.proc)
    requires PID_NULL in ReadySet(k.proc) && forall p :: 0 <= p < NUM_PROCS ==> k.proc[p].state == NEW
    ensures var next := Peek(k.ready, k.proc).0;
            && next in ReadySet(k.proc)
            && (forall p :: p in ReadySet(k.proc) ==> Urgency(k.proc, next) <= Urgency(k.proc, p))
            && Coherent(PopFirst(k.ready, k.proc), ReadySet(k.proc) - {next}, k.proc)
            && ReleaseProcessor(k) ==
               k.(running := next, ready := PopFirst(k.ready, k.proc),
                     proc := k.proc[next := k.proc[next].(state := RUN)])
  {
    var at := PeekServesMostUrgent(k.ready, ReadySet(k.proc), k.proc);
    PopTakesThePeeked(k.ready, ReadySet(k.proc), k.proc);
  }

  lemma FirstDispatchInvariant(k: State)
    requires Shape(k) && Roles(k.proc) && k.running == PID_NONE && Coherent(k.ready, ReadySet(k.proc), k.proc)
    requires (forall p :: 0 <= p < NUM_PROCS ==> k.proc[p].state == NEW) && k.blocked == Empty()
    ensures var k' := ReleaseProcessor(k);
            && Inv(k') && k'.running in ReadySet(k.proc)
            && ReadySet(k'.proc) == ReadySet(k.proc) - {k'.running}
            && BlockedSet(k'.proc) == {} && ReceiveSet(k'.proc) == {}
            && (forall p :: 0 <= p < NUM_PROCS ==> k'.proc[p].priority == k.proc[p].priority)
            && (forall p :: p in ReadySet(k.proc) ==> Urgency(k.proc, k'.running) <= Urgency(k.proc, p))
  {
    FirstDispatch(k);
    var next, k' := Peek(k.ready, k.proc).0, ReleaseProcessor(k);
    assert ReadySet(k'.proc) == ReadySet(k.proc) - {next};
    SamePriorities(k'.ready, ReadySet(k.proc) - {next}, k.proc, k'.proc);
    assert BlockedSet(k'.proc) == {} && {} - {next} == {};
    NobodyCoherent(k'.proc);
  }

  /** The first k_release_processor puts the invariant in force, and starts KCD or CRT. */
  lemma BootEstablishesInvariant()
    ensures Shape(InitialState())
    ensures var k := ReleaseProcessor(InitialState());
            Quiescent(k, {}, {}) && StronglySafe(k) && Jumps(k.running) && SameMessages(InitialState(), k)
  {
    InitialCoherent();
    InitialProcesses();
    ProcTableOk();
    var k := InitialState();
    FirstDispatchInvariant(k);
    var k' := ReleaseProcessor(k);
    assert Urgency(k.proc, k'.running) <= Urgency(k.proc, PID_KCD);
    forall p | p in ReadySet(k'.proc)
      ensures k'.proc[k'.running].priority <= k'.proc[p].priority
      ensures Urgency(k'.proc, k'.running) <= Urgency(k'.proc, p)
    {
      UrgencyAndPriority(k.proc, k'.proc, k'.running, p);
      UrgencyAndPriority(k.proc, k'.proc, p, k'.running);
    }
  }
}
