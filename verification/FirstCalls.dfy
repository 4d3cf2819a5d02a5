/**
 What the system processes do first: from start-up, KCD and CRT wait for mail, CLOCK and SET_PRIO register their
 commands with KCD and wait too, and a test process gets the processor.
 */
module FirstCalls {
  import opened Constants
  import opened PriorityQueues
  import opened KernelState
  import opened Scheduling
  import opened Turns
  import opened RoundRobin
  import opened KernelCalls
  import opened MessageHistory
  import opened Boot
  import opened KernelRuns
  import opened PriorityOrder

  // ----- Runs given by their events -----

  /** `s'` is what event `ev` makes of `s`. */
  ghost predicate Next(s: System, ev: Event, s': System) {
    Bounds(s) && Enabled(s, ev) && s' == Step(s, ev)
  }

  /** Each state of `run` is what the event before it makes of the one before. */
  ghost predicate IsPath(run: seq<System>, events: seq<Event>) {
    |run| == |events| + 1 && forall i :: 0 <= i < |events| ==> Next(run[i], events[i], run[i + 1])
  }

  /** `s'` is what `events`, one after the other, make of `s`. */
  ghost predicate Leads(s: System, events: seq<Event>, s': System) {
    exists run :: IsPath(run, events) && run[0] == s && run[|events|] == s'
  }

  lemma PathIsRun(run: seq<System>, events: seq<Event>)
    requires IsPath(run, events) && run[0] == Booted()
    ensures IsRun(run, events)
  {
    forall i | 0 <= i < |events|
      ensures Bounds(run[i]) && Enabled(run[i], events[i]) && run[i + 1] == Step(run[i], events[i])
    {
      assert Next(run[i], events[i], run[i + 1]);
    }
  }

  lemma RunGoesOn(run: seq<System>, events: seq<Event>, ev: Event, s': System)
    requires IsPath(run, events) && run[0] == Booted() && Next(run[|events|], ev, s')
    ensures IsPath(run + [s'], events + [ev]) && IsRun(run + [s'], events + [ev])
  {
    var last := [run[|events|], s'];
    assert IsPath(last, [ev]) && last[1..] == [s'];
    PathsJoin(run, events, last, [ev]);
    PathIsRun(run + [s'], events + [ev]);
  }

  /** A run with its last two states given. */
  lemma RunTo(events: seq<Event>, s: System, ev: Event, s': System) returns (run: seq<System>)
    requires Leads(Booted(), events, s) && Next(s, ev, s')
    ensures IsPath(run, events + [ev]) && IsRun(run, events + [ev]) && run[|events|] == s && run[|events| + 1] == s'
  {
    var front :| IsPath(front, events) && front[0] == Booted() && front[|events|] == s;
    RunGoesOn(front, events, ev, s');
    run := front + [s'];
  }

  lemma LeadsByOne(s: System, ev: Event, s': System)
    requires Next(s, ev, s')
    ensures Leads(s, [ev], s')
  {
    assert IsPath([s, s'], [ev]);
  }

  /** One event more. */
  lemma LeadsNext(s: System, events: seq<Event>, m: System, ev: Event, s': System)
    requires Leads(s, events, m) && Next(m, ev, s')
    ensures Leads(s, events + [ev], s')
  {
    LeadsByOne(m, ev, s');
    LeadsOn(s, events, m, [ev], s');
  }

  lemma LeadsIsNext(s: System, ev: Event, s': System)
    requires Leads(s, [ev], s')
    ensures Next(s, ev, s')
  {
    var run :| IsPath(run, [ev]) && run[0] == s && run[1] == s';
    assert Next(run[0], [ev][0], run[0 + 1]);
  }

  /** Two lists joined where the last of the one is the first of the other. */
  lemma JoinedAt<S, E>(first: seq<S>, a: seq<E>, second: seq<S>, b: seq<E>, i: nat)
    requires |first| == |a| + 1 && |second| == |b| + 1 && first[|a|] == second[0] && i < |a| + |b|
    ensures var run, events := first + second[1..], a + b;
            && |run| == |events| + 1
            && (i < |a| ==> run[i] == first[i] && run[i + 1] == first[i + 1] && events[i] == a[i])
            && (i >= |a| ==> run[i] == second[i - |a|] && run[i + 1] == second[i - |a| + 1] && events[i] == b[i - |a|])
  {
  }

  lemma PathsJoin(first: seq<System>, a: seq<Event>, second: seq<System>, b: seq<Event>)
    requires IsPath(first, a) && IsPath(second, b) && first[|a|] == second[0]
    ensures IsPath(first + second[1..], a + b)
  {
    var run, events := first + second[1..], a + b;
    forall i | 0 <= i < |events| ensures Next(run[i], events[i], run[i + 1]) {
      JoinedAt(first, a, second, b, i);
      if i < |a| {
        assert Next(first[i], a[i], first[i + 1]);
      } else {
        assert Next(second[i - |a|], b[i - |a|], second[i - |a| + 1]);
      }
    }
  }

  lemma LeadsOn(s: System, a: seq<Event>, m: System, b: seq<Event>, s': System)
    requires Leads(s, a, m) && Leads(m, b, s')
    ensures Leads(s, a + b, s')
  {
    var first :| IsPath(first, a) && first[0] == s && first[|a|] == m;
    var second :| IsPath(second, b) && second[0] == m && second[|b|] == s';
    PathsJoin(first, a, second, b);
  }

  lemma StepKeeps(s: System, ev: Event, s': System)
    requires SystemInv(s) && Next(s, ev, s')
    ensures SystemInv(s') && Bounds(s')
  {
    StepKeepsInvariant(s, ev);
    InvariantGivesBounds(s');
  }

  // ----- Giving up the processor -----

  lemma BlockedIsMarked(k: State, which: ProcState, k1: State)
    requires Inv(k) && k.running != PID_NULL && IsBlocked(which) && k1 == WithState(k, k.running, which)
    ensures Handover(k1) && IsBlocked(k1.proc[k1.running].state) && ReadySet(k1.proc) == ReadySet(k.proc)
    ensures forall p :: 0 <= p < NUM_PROCS ==> k1.proc[p].priority == k.proc[p].priority
  {
    PollStart(k, which);
  }

  lemma PollPriorities(k: State, k': State)
    requires Inv(k) && k.running != PID_NULL && k' == Poll(k, BLOCKED_ON_RECEIVE)
    ensures forall p :: 0 <= p < NUM_PROCS ==> k'.proc[p].priority == k.proc[p].priority
    ensures k'.running in ReadySet(k.proc) && ReadySet(k'.proc) == ReadySet(k.proc) - {k'.running}
  {
    var k1 := WithState(k, k.running, BLOCKED_ON_RECEIVE);
    BlockedIsMarked(k, BLOCKED_ON_RECEIVE, k1);
    DispatchKeepsInvariant(k1);
  }

  /** Waiting for mail hands the processor to the one served. */
  lemma PollServes(k: State, a: seq<int>, next: int, b: seq<int>, k': State)
    requires Inv(k) && k.running != PID_NULL && k' == Poll(k, BLOCKED_ON_RECEIVE)
    requires k.ready[HIGHEST] == a + [next] + b && IsServed(a, next, b)
    ensures k'.running == next && k'.ready[HIGHEST] == a + b
  {
    var k1 := WithState(k, k.running, BLOCKED_ON_RECEIVE);
    BlockedIsMarked(k, BLOCKED_ON_RECEIVE, k1);
    HandsOver(k1, a, next, b, k');
    assert a + b + [] == a + b;
  }

  /** With nobody left at HIGHEST, it goes to a process of another priority. */
  lemma PollLeavesHighest(k: State, k': State)
    requires Inv(k) && k.running != PID_NULL && k' == Poll(k, BLOCKED_ON_RECEIVE) && k.ready[HIGHEST] == []
    ensures k'.ready[HIGHEST] == [] && 0 <= k'.running < NUM_PROCS && k.proc[k'.running].priority != HIGHEST
    ensures k'.running in ReadySet(k.proc)
  {
    var k1 := WithState(k, k.running, BLOCKED_ON_RECEIVE);
    BlockedIsMarked(k, BLOCKED_ON_RECEIVE, k1);
    ReleaseDispatches(k1);
  }

  /** While a block is free nobody waits for one, so the check wakes nobody and moves nobody. */
  lemma NobodyWoken(k: State, w: State)
    requires Inv(k) && BlockedSet(k.proc) == {} && w == WakeForMemory(k)
    ensures w.proc == k.proc && w.ready == k.ready && w.running == k.running && Inv(w)
  {
    WakeForMemoryKeepsInvariant(k);
    assert forall p :: 0 <= p < NUM_PROCS ==> p !in BlockedSet(k.proc);
    NobodyBlocked(k);
    assert forall i :: 0 <= i < NUM_PRIORITIES ==> k.ready[i] + [] == k.ready[i];
    assert w.ready == k.ready;
  }

  lemma NobodyBlocked(k: State)
    requires Inv(k) && BlockedSet(k.proc) == {}
    ensures forall i :: 0 <= i < NUM_PRIORITIES ==> k.blocked[i] == []
  {
    forall i | 0 <= i < NUM_PRIORITIES ensures k.blocked[i] == [] {
      if k.blocked[i] != [] {
        SomebodyBlocked(k, i);
      }
    }
  }

  lemma SomebodyBlocked(k: State, i: nat)
    requires Inv(k) && i < NUM_PRIORITIES && k.blocked[i] != []
    ensures BlockedSet(k.proc) != {}
  {
    assert k.blocked[i][0] in k.blocked[i];
    assert k.blocked[i][0] in BlockedSet(k.proc);
  }

  /** A receiver that waits for mail at HIGHEST goes to the end of the line. */
  lemma MailWakes(k: State, r: int, to: int, e: int, line: seq<int>, k1: State)
    requires Inv(k) && k.running == r && BlockedSet(k.proc) == {} && k.ready[HIGHEST] == line
    requires 0 <= to < NUM_PROCS && k.proc[to] == Pcb(BLOCKED_ON_RECEIVE, HIGHEST) && 0 <= e < NUM_ENVELOPES
    requires k1 == SendHelper(k, r, to, e)
    ensures Inv(k1) && k1.running == r && BlockedSet(k1.proc) == {} && k1.ready[HIGHEST] == line + [to]
    ensures k1.proc[r].priority == k.proc[r].priority
  {
    SendHelperKeepsInv(k, r, to, e);
  }

  lemma SwitchIsDue(k: State)
    requires Inv(k) && Peek(k.ready, k.proc).0 != PID_NONE && Peek(k.ready, k.proc).1 < k.proc[k.running].priority
    ensures SwitchIfDue(k, false) == ReleaseProcessor(k)
  {
  }

  lemma JumperIsServed(k: State, to: int, line: seq<int>)
    requires Inv(k) && k.ready[HIGHEST] == line + [to] && Jumps(to) && forall x :: x in line ==> !Jumps(x)
    ensures Peek(k.ready, k.proc) == (to, -1) && k.ready[HIGHEST] == line + [to] + [] && IsServed(line, to, [])
  {
    assert line + [to] + [] == line + [to];
    assert (line + [to])[|line|] == to;
    InLine(k, to);
    Served(k.ready, k.proc, line, to, []);
  }

  /** The check then gives KCD or CRT the processor, at the expense of anybody else of that priority. */
  lemma JumperPreempts(k: State, r: int, to: int, line: seq<int>, w: State, k': State)
    requires Inv(k) && k.running == r && BlockedSet(k.proc) == {} && k.ready[HIGHEST] == line + [to]
    requires k.proc[r].priority == HIGHEST && Jumps(to) && forall x :: x in line ==> !Jumps(x)
    requires w == WakeForMemory(k) && k' == CheckPreemption(k, false)
    ensures k'.running == to && k'.ready[HIGHEST] == line + [r]
  {
    NobodyWoken(k, w);
    JumperIsServed(w, to, line);
    SwitchIsDue(w);
    HandsOver(w, line, to, [], k');
    assert line + [] + [r] == line + [r];
  }

  lemma MailPreempts(k: State, r: int, to: int, e: int, line: seq<int>, k1: State, k': State)
    requires Inv(k) && k.running == r && BlockedSet(k.proc) == {} && k.ready[HIGHEST] == line
    requires k.proc[r].priority == HIGHEST && forall x :: x in line ==> !Jumps(x)
    requires Jumps(to) && k.proc[to] == Pcb(BLOCKED_ON_RECEIVE, HIGHEST) && 0 <= e < NUM_ENVELOPES
    requires k1 == SendHelper(k, r, to, e) && k' == CheckPreemption(k1, false)
    ensures k'.running == to && k'.ready[HIGHEST] == line + [r]
    ensures forall p :: 0 <= p < NUM_PROCS ==> k'.proc[p].priority == k.proc[p].priority
  {
    MailWakes(k, r, to, e, line, k1);
    JumperPreempts(k1, r, to, line, WakeForMemory(k1), k');
    CheckKeepsPriorities(k1, false);
  }

  // ----- The system processes -----

  /** The system processes that start at HIGHEST. */
  function Important(): set<int> {
    {PID_KCD, PID_CRT, PID_CLOCK, PID_SET_PRIO}
  }

  /** The processes at HIGHEST are those in `high`. */
  ghost predicate HighAre(proc: seq<Pcb>, high: set<int>) {
    && |proc| == NUM_PROCS
    && forall p :: 0 <= p < NUM_PROCS && !IsIproc(p) ==> (proc[p].priority == HIGHEST <==> p in high)
  }

  /**
   Before the first tick: `line` waits for the processor at HIGHEST, `waiting` are inside k_receive_message, nobody
   waits for memory, `box` is KCD's mailbox, the only one not empty, and `blocks` blocks are free.
   */
  ghost predicate Outline(s: System, line: seq<int>, waiting: set<int>, box: seq<int>, blocks: nat) {
    && |s.k.ready| == NUM_PRIORITIES && |s.k.mail| == NUM_PROCS
    && s.k.ready[HIGHEST] == line && HighAre(s.k.proc, Important())
    && s.receiving == waiting && s.requesting == {}
    && s.k.now == 0 && s.k.delayed == [] && |s.k.heap| == blocks
    && forall p :: 0 <= p < NUM_PROCS ==> s.k.mail[p] == if p == PID_KCD then box else []
  }

  ghost predicate Starting(s: System, line: seq<int>, waiting: set<int>, box: seq<int>, blocks: nat) {
    SystemInv(s) && Bounds(s) && Outline(s, line, waiting, box, blocks)
  }

  lemma PriorityAtStart(p: int)
    requires TableOk(ProcTable()) && p in Pids(ProcTable())
    ensures Initialized(ProcTable()).0[p].priority == HIGHEST <==> p in Important()
  {
    var table := ProcTable();
    InitializedPcbs(table);
    var i :| 0 <= i < |table| && table[i].pid == p;
    assert Initialized(table).0[table[i].pid] == Pcb(NEW, table[i].priority);
  }

  lemma HighAtStart(k: State)
    requires k == InitialState()
    ensures HighAre(k.proc, Important()) && ReadySet(k.proc) == Pids(ProcTable())
  {
    ProcTableOk();
    InitialProcesses();
    forall p | p in Pids(ProcTable()) ensures k.proc[p].priority == HIGHEST <==> p in Important() {
      PriorityAtStart(p);
    }
  }

  /** The pids of one priority in the table, in order. */
  function PidsAt(table: seq<ProcInit>, priority: int): seq<int> {
    if table == [] then []
    else
      var t := table[|table| - 1];
      PidsAt(table[..|table| - 1], priority) + (if t.priority == priority then [t.pid] else [])
  }

  lemma {:induction false} InitializedLine(table: seq<ProcInit>, priority: nat)
    requires TableOk(table) && priority < NUM_PRIORITIES
    ensures Initialized(table).1[priority] == PidsAt(table, priority)
  {
    if table != [] {
      InitializedLine(table[..|table| - 1], priority);
    }
  }

  /** The system processes' part of the table. */
  function SystemPart(): seq<ProcInit> {
    [ProcInit(PID_NULL, NULL_PRIO), ProcInit(PID_CLOCK, HIGHEST), ProcInit(PID_KCD, HIGHEST),
     ProcInit(PID_CRT, HIGHEST), ProcInit(PID_SET_PRIO, HIGHEST)]
  }

  lemma PidsOneMore(a: seq<ProcInit>, t: ProcInit, priority: int)
    ensures PidsAt(a + [t], priority) == PidsAt(a, priority) + (if t.priority == priority then [t.pid] else [])
  {
    assert (a + [t])[..|a|] == a;
  }

  lemma SystemLines(priority: int)
    ensures PidsAt(SystemPart(), priority) ==
            if priority == HIGHEST then [PID_CLOCK, PID_KCD, PID_CRT, PID_SET_PRIO]
            else if priority == NULL_PRIO then [PID_NULL]
            else []
  {
    var idle, clock, kcd := ProcInit(PID_NULL, NULL_PRIO), ProcInit(PID_CLOCK, HIGHEST), ProcInit(PID_KCD, HIGHEST);
    var crt, setPrio := ProcInit(PID_CRT, HIGHEST), ProcInit(PID_SET_PRIO, HIGHEST);
    PidsOneMore([], idle, priority);
    PidsOneMore([] + [idle], clock, priority);
    PidsOneMore([] + [idle] + [clock], kcd, priority);
    PidsOneMore([] + [idle] + [clock] + [kcd], crt, priority);
    PidsOneMore([] + [idle] + [clock] + [kcd] + [crt], setPrio, priority);
    assert SystemPart() == [] + [idle] + [clock] + [kcd] + [crt] + [setPrio];
  }

  lemma {:induction false} PidsConcat(a: seq<ProcInit>, b: seq<ProcInit>, priority: int)
    ensures PidsAt(a + b, priority) == PidsAt(a, priority) + PidsAt(b, priority)
  {
    if b == [] {
      assert a + b == a;
    } else {
      assert (a + b)[..|a + b| - 1] == a + b[..|b| - 1];
      PidsConcat(a, b[..|b| - 1], priority);
    }
  }

  /** The test processes' part. */
  function TestPart(n: nat): seq<ProcInit> {
    seq(n, i => ProcInit(i + 1, LOWEST))
  }

  lemma {:induction false} TestLine(n: nat, priority: int)
    ensures PidsAt(TestPart(n), priority) == if priority == LOWEST then seq(n, i => i + 1) else []
  {
    if n > 0 {
      TestLine(n - 1, priority);
      assert TestPart(n)[..n - 1] == TestPart(n - 1);
      assert seq(n, i => i + 1) == seq(n - 1, i => i + 1) + [n];
    }
  }

  /** The pids of each level, in the order of the table. */
  lemma TableLines(priority: int)
    ensures PidsAt(ProcTable(), priority) ==
            if priority == HIGHEST then [PID_CLOCK, PID_KCD, PID_CRT, PID_SET_PRIO]
            else if priority == LOWEST then seq(9, i => i + 1)
            else if priority == NULL_PRIO then [PID_NULL]
            else []
  {
    assert ProcTable() == SystemPart() + TestPart(9);
    PidsConcat(SystemPart(), TestPart(9), priority);
    SystemLines(priority);
    TestLine(9, priority);
  }

  /** The priorities with which processes start. */
  function StartPriority(p: int): int {
    if p == PID_NULL then NULL_PRIO
    else if p < PID_SET_PRIO then LOWEST
    else if p <= PID_CRT then HIGHEST
    else IPROC_PRIO
  }

  lemma StartPcb(p: int)
    requires 0 <= p < NUM_PROCS
    ensures InitialState().proc[p] == Pcb(NEW, StartPriority(p))
  {
    var table := ProcTable();
    ProcTableOk();
    InitializedPcbs(table);
    if !IsIproc(p) {
      var i := if p == 0 then 0 else if p < PID_SET_PRIO then p + 4 else if p == PID_SET_PRIO then 4 else p - 10;
      assert Initialized(table).0[table[i].pid] == Pcb(NEW, table[i].priority);
    }
  }

  /**
   What start-up leaves before the first dispatch: every process NEW with its priority, in the order of the table in the
   ready list of its level; no mail; all blocks free, the last one first.
   */
  lemma StartUp(k: State, p: int, level: nat, i: nat)
    requires k == InitialState() && 0 <= p < NUM_PROCS && level < NUM_PRIORITIES && i < NUM_MEM_BLOCKS
    ensures k.proc[p] == Pcb(NEW, StartPriority(p)) && k.mail[p] == []
    ensures k.blocked[level] == [] && k.ready[level] ==
              if level == HIGHEST then [PID_CLOCK, PID_KCD, PID_CRT, PID_SET_PRIO]
              else if level == LOWEST then seq(9, n => n + 1)
              else if level == NULL_PRIO then [PID_NULL]
              else []
    ensures |k.heap| == NUM_MEM_BLOCKS && k.heap[i] == NUM_MEM_BLOCKS - 1 - i && k.delayed == [] && k.now == 0
  {
    StartPcb(p);
    ProcTableOk();
    InitializedLine(ProcTable(), level);
    TableLines(level);
  }

  lemma InitialLine(k: State)
    requires k == InitialState()
    ensures k.ready[HIGHEST] == [PID_CLOCK] + [PID_KCD] + [PID_CRT, PID_SET_PRIO]
  {
    ProcTableOk();
    InitializedLine(ProcTable(), HIGHEST);
    TableLines(HIGHEST);
  }

  lemma FirstOneServed(k: State, a: seq<int>, b: seq<int>, k': State)
    requires Shape(k) && Roles(k.proc) && k.running == PID_NONE && Coherent(k.ready, ReadySet(k.proc), k.proc)
    requires PID_NULL in ReadySet(k.proc) && forall p :: 0 <= p < NUM_PROCS ==> k.proc[p].state == NEW
    requires k.ready[HIGHEST] == a + [PID_KCD] + b && IsServed(a, PID_KCD, b) && k' == ReleaseProcessor(k)
    ensures k'.running == PID_KCD && k'.ready[HIGHEST] == a + b
    ensures forall p :: 0 <= p < NUM_PROCS ==> k'.proc[p].priority == k.proc[p].priority
  {
    assert (a + [PID_KCD] + b)[|a|] == PID_KCD;
    Served(k.ready, k.proc, a, PID_KCD, b);
    FirstDispatch(k);
  }

  lemma KcdIsFirst(k: State, k': State)
    requires k == InitialState() && Shape(k) && k' == ReleaseProcessor(k)
    ensures k'.running == PID_KCD && k'.ready[HIGHEST] == [PID_CLOCK, PID_CRT, PID_SET_PRIO]
    ensures HighAre(k'.proc, Important())
  {
    ProcTableOk();
    InitialProcesses();
    InitialCoherent();
    HighAtStart(k);
    InitialLine(k);
    FirstOneServed(k, [PID_CLOCK], [PID_CRT, PID_SET_PRIO], k');
  }

  lemma KcdStarts() returns (s: System)
    ensures s == Booted() && Starting(s, [PID_CLOCK, PID_CRT, PID_SET_PRIO], {}, [], NUM_MEM_BLOCKS)
    ensures s.k.running == PID_KCD
  {
    s := Booted();
    BootedInvariant();
    InvariantGivesBounds(s);
    BootEstablishesInvariant();
    KcdIsFirst(InitialState(), s.k);
  }

  // ----- Their calls -----

  lemma WaitingBlocks(s: System, s': System)
    requires Next(s, Receive, s') && s.k.mail[s.k.running] == []
    ensures s' == s.(k := Poll(s.k, BLOCKED_ON_RECEIVE), receiving := s.receiving + {s.k.running})
  {
  }

  lemma FirstOfTwo(next: int, r: int)
    requires !Jumps(next) && !Jumps(r)
    ensures IsServed([], next, [r]) && [next, r] == [] + [next] + [r] && [r] == [] + [r]
  {
  }

  /** The running process waits for mail, and `next` runs. */
  lemma Waits(s: System, a: seq<int>, next: int, b: seq<int>, waiting: set<int>, blocks: nat,
        line: seq<int>, line': seq<int>, waiting': set<int>) returns (s': System)
    requires Starting(s, line, waiting, [], blocks) && s.k.running != PID_NULL && IsServed(a, next, b)
    requires line == a + [next] + b && line' == a + b && waiting' == waiting + {s.k.running}
    ensures Leads(s, [Receive], s') && Starting(s', line', waiting', [], blocks) && s'.k.running == next
  {
    s' := Step(s, Receive);
    StepKeeps(s, Receive, s');
    LeadsByOne(s, Receive, s');
    WaitingBlocks(s, s');
    PollServes(s.k, a, next, b, s'.k);
    PollPriorities(s.k, s'.k);
  }

  lemma LastWaits(s: System, waiting: set<int>, blocks: nat, waiting': set<int>) returns (s': System)
    requires Starting(s, [], waiting, [], blocks) && s.k.running != PID_NULL && waiting' == waiting + {s.k.running}
    ensures Next(s, Receive, s') && Starting(s', [], waiting', [], blocks)
    ensures 0 <= s'.k.running < NUM_PROCS && s'.k.proc[s'.k.running].priority != HIGHEST
  {
    s' := Step(s, Receive);
    StepKeeps(s, Receive, s');
    WaitingBlocks(s, s');
    PollLeavesHighest(s.k, s'.k);
    PollPriorities(s.k, s'.k);
  }

  lemma RequestIs(s: System, s': System)
    requires Next(s, Request, s') && s.k.heap != [] && 0 <= s.k.heap[0] < NUM_ENVELOPES
    ensures s' == s.(k := s.k.(heap := s.k.heap[1..]), place := s.place[s.k.heap[0] := Held(s.k.running)],
                     requesting := s.requesting - {s.k.running})
  {
  }

  lemma FreeBlock(s: System)
    requires SystemInv(s) && s.k.heap != []
    ensures 0 <= s.k.heap[0] < NUM_MEM_BLOCKS
  {
    assert s.k.heap[0] in s.k.heap;
  }

  /** The running process takes a free block. */
  lemma Takes(s: System, line: seq<int>, waiting: set<int>, blocks: nat) returns (s': System, b: int)
    requires Starting(s, line, waiting, [], blocks) && blocks > 0
    requires s.k.running != PID_NULL && s.k.running !in waiting
    ensures Leads(s, [Request], s') && Starting(s', line, waiting, [], blocks - 1) && s'.k.running == s.k.running
    ensures 0 <= b < NUM_MEM_BLOCKS && s'.place[b] == Held(s.k.running)
  {
    b := s.k.heap[0];
    s' := Step(s, Request);
    FreeBlock(s);
    StepKeeps(s, Request, s');
    LeadsByOne(s, Request, s');
    RequestIs(s, s');
  }

  lemma KcdIsBlocked(s: System)
    requires SystemInv(s) && PID_KCD in s.receiving && s.k.mail[PID_KCD] == [] && HighAre(s.k.proc, Important())
    requires s.requesting == {}
    ensures s.k.proc[PID_KCD] == Pcb(BLOCKED_ON_RECEIVE, HIGHEST) && BlockedSet(s.k.proc) == {}
  {
    assert PID_KCD in ReceiveSet(s.k.proc);
  }

  lemma SendIs(s: System, to: int, b: int, s': System)
    requires Next(s, Send(to, b), s') && 0 <= to < NUM_PROCS && 0 <= b < NUM_MEM_BLOCKS
    ensures s'.k == CheckPreemption(SendHelper(s.k, s.k.running, to, b), false)
    ensures s'.receiving == s.receiving && s'.requesting == s.requesting
    ensures s'.k.delayed == s.k.delayed && s'.k.heap == s.k.heap && s'.k.now == s.k.now
    ensures s'.k.mail == s.k.mail[to := s.k.mail[to] + [b]]
  {
  }

  lemma SendPreempts(k: State, r: int, line: seq<int>, b: int, k': State)
    requires Inv(k) && BlockedSet(k.proc) == {} && HighAre(k.proc, Important()) && k.ready[HIGHEST] == line
    requires k.running == r && r in {PID_CLOCK, PID_SET_PRIO} && k.proc[PID_KCD] == Pcb(BLOCKED_ON_RECEIVE, HIGHEST)
    requires (forall x :: x in line ==> !Jumps(x)) && 0 <= b < NUM_MEM_BLOCKS
    requires k' == CheckPreemption(SendHelper(k, r, PID_KCD, b), false)
    ensures k'.running == PID_KCD && k'.ready[HIGHEST] == line + [r] && HighAre(k'.proc, Important())
  {
    MailPreempts(k, r, PID_KCD, b, line, SendHelper(k, r, PID_KCD, b), k');
  }

  lemma SendOutline(s: System, r: int, line: seq<int>, line': seq<int>, waiting: set<int>, blocks: nat, b: int,
                    s': System)
    requires Starting(s, line, waiting, [], blocks) && s.k.running == r && r in {PID_CLOCK, PID_SET_PRIO}
    requires PID_KCD in waiting && forall x :: x in line ==> !Jumps(x)
    requires 0 <= b < NUM_MEM_BLOCKS && line' == line + [r] && Next(s, Send(PID_KCD, b), s')
    ensures Outline(s', line', waiting, [b], blocks) && s'.k.running == PID_KCD
  {
    SendIs(s, PID_KCD, b, s');
    KcdIsBlocked(s);
    SendPreempts(s.k, r, line, b, s'.k);
  }

  /** CLOCK or SET_PRIO sends KCD a registration, which takes the processor from it. */
  lemma Sends(s: System, r: int, line: seq<int>, line': seq<int>, waiting: set<int>, blocks: nat, b: int)
    returns (s': System)
    requires Starting(s, line, waiting, [], blocks) && s.k.running == r && r in {PID_CLOCK, PID_SET_PRIO}
    requires r !in waiting && PID_KCD in waiting && forall x :: x in line ==> !Jumps(x)
    requires 0 <= b < NUM_MEM_BLOCKS && s.place[b] == Held(r) && line' == line + [r]
    ensures Next(s, Send(PID_KCD, b), s') && Starting(s', line', waiting, [b], blocks)
    ensures s'.k.running == PID_KCD
  {
    s' := Step(s, Send(PID_KCD, b));
    StepKeeps(s, Send(PID_KCD, b), s');
    SendOutline(s, r, line, line', waiting, blocks, b, s');
  }

  lemma ReceiveIs(s: System, s': System)
    requires Next(s, Receive, s') && s.k.mail[s.k.running] != []
    ensures s'.k == s.k.(mail := s.k.mail[s.k.running := s.k.mail[s.k.running][1..]])
    ensures s'.receiving == s.receiving - {s.k.running} && s'.requesting == s.requesting
  {
  }

  lemma GetOutline(s: System, line: seq<int>, blocks: nat, b: int, s': System)
    requires Outline(s, line, {PID_KCD, PID_CRT}, [b], blocks) && s.k.running == PID_KCD
    requires s'.k == s.k.(mail := s.k.mail[PID_KCD := s.k.mail[PID_KCD][1..]])
    requires s'.receiving == s.receiving - {PID_KCD} && s'.requesting == s.requesting
    ensures Outline(s', line, {PID_CRT}, [], blocks) && s'.k.running == PID_KCD
  {
    OneLess(s.k.mail, s'.k.mail, b);
    assert {PID_KCD, PID_CRT} - {PID_KCD} == {PID_CRT};
  }

  lemma OneLess(mail: seq<seq<int>>, mail': seq<seq<int>>, b: int)
    requires |mail| == NUM_PROCS && mail[PID_KCD] == [b] && mail' == mail[PID_KCD := mail[PID_KCD][1..]]
    requires forall p :: 0 <= p < NUM_PROCS && p != PID_KCD ==> mail[p] == []
    ensures forall p :: 0 <= p < NUM_PROCS ==> mail'[p] == []
  {
  }

  /** KCD takes the message. */
  lemma Gets(s: System, line: seq<int>, blocks: nat, b: int) returns (s': System)
    requires Starting(s, line, {PID_KCD, PID_CRT}, [b], blocks) && s.k.running == PID_KCD
    ensures Leads(s, [Receive], s') && Starting(s', line, {PID_CRT}, [], blocks) && s'.k.running == PID_KCD
  {
    s' := Step(s, Receive);
    StepKeeps(s, Receive, s');
    LeadsByOne(s, Receive, s');
    ReceiveIs(s, s');
    GetOutline(s, line, blocks, b, s');
  }

  /** A process takes a block and sends it to KCD, which receives it and waits for the next. */
  function Registration(b: int): seq<Event> {
    [Request] + [Send(PID_KCD, b)] + ([Receive] + [Receive])
  }

  /** Having taken a block by `taking`, the process sends it. */
  lemma Informs(s0: System, taking: seq<Event>, s: System, r: int, next: int, blocks: nat, b: int)
    returns (s': System)
    requires Leads(s0, taking, s) && Starting(s, [next], {PID_KCD, PID_CRT}, [], blocks) && s.k.running == r
    requires {r, next} == {PID_CLOCK, PID_SET_PRIO} && 0 <= b < NUM_MEM_BLOCKS && s.place[b] == Held(r)
    ensures Leads(s0, taking + [Send(PID_KCD, b)], s')
    ensures Starting(s', [next, r], {PID_KCD, PID_CRT}, [b], blocks) && s'.k.running == PID_KCD
  {
    s' := Sends(s, r, [next], [next, r], {PID_KCD, PID_CRT}, blocks, b);
    LeadsByOne(s, Send(PID_KCD, b), s');
    LeadsOn(s0, taking, s, [Send(PID_KCD, b)], s');
  }

  lemma KcdComesBack()
    ensures {PID_KCD, PID_CRT} == {PID_CRT} + {PID_KCD}
  {
  }

  /** Having received the block by `getting`, KCD waits for the next. */
  lemma KcdWaitsAgain(s0: System, getting: seq<Event>, s: System, r: int, next: int, blocks: nat)
    returns (s': System)
    requires Leads(s0, getting, s) && Starting(s, [next, r], {PID_CRT}, [], blocks) && s.k.running == PID_KCD
    requires {r, next} == {PID_CLOCK, PID_SET_PRIO}
    ensures Leads(s0, getting + [Receive], s') && Starting(s', [r], {PID_KCD, PID_CRT}, [], blocks)
    ensures s'.k.running == next
  {
    FirstOfTwo(next, r);
    KcdComesBack();
    s' := Waits(s, [], next, [r], {PID_CRT}, blocks, [next, r], [r], {PID_KCD, PID_CRT});
    LeadsOn(s0, getting, s, [Receive], s');
  }

  lemma KcdServes(s: System, r: int, next: int, blocks: nat, b: int) returns (s': System)
    requires Starting(s, [next, r], {PID_KCD, PID_CRT}, [b], blocks) && s.k.running == PID_KCD
    requires {r, next} == {PID_CLOCK, PID_SET_PRIO}
    ensures Leads(s, [Receive] + [Receive], s') && Starting(s', [r], {PID_KCD, PID_CRT}, [], blocks)
    ensures s'.k.running == next
  {
    var s1 := Gets(s, [next, r], blocks, b);
    s' := KcdWaitsAgain(s, [Receive], s1, r, next, blocks);
  }

  lemma Registers(s: System, r: int, next: int, blocks: nat) returns (s': System, b: int)
    requires Starting(s, [next], {PID_KCD, PID_CRT}, [], blocks) && s.k.running == r && blocks > 0
    requires {r, next} == {PID_CLOCK, PID_SET_PRIO}
    ensures Leads(s, Registration(b), s') && Starting(s', [r], {PID_KCD, PID_CRT}, [], blocks - 1)
    ensures s'.k.running == next
  {
    var s1;
    s1, b := Takes(s, [next], {PID_KCD, PID_CRT}, blocks);
    var s2 := Informs(s, [Request], s1, r, next, blocks - 1, b);
    s' := KcdServes(s2, r, next, blocks - 1, b);
    LeadsOn(s, [Request] + [Send(PID_KCD, b)], s2, [Receive] + [Receive], s');
  }

  /** KCD and CRT wait; CLOCK registers its command with KCD, so does SET_PRIO; both wait. */
  function Startup(b: int, c: int): (events: seq<Event>)
    ensures |events| == 12
  {
    ([Receive] + [Receive]) + (Registration(b) + Registration(c)) + ([Receive] + [Receive])
  }

  lemma CrtIsServed()
    ensures IsServed([PID_CLOCK], PID_CRT, [PID_SET_PRIO]) && {PID_KCD} == {} + {PID_KCD}
    ensures [PID_CLOCK, PID_CRT, PID_SET_PRIO] == [PID_CLOCK] + [PID_CRT] + [PID_SET_PRIO]
    ensures [PID_CLOCK, PID_SET_PRIO] == [PID_CLOCK] + [PID_SET_PRIO]
  {
  }

  lemma KcdWaits(s: System) returns (s': System)
    requires s.k.running == PID_KCD && Starting(s, [PID_CLOCK, PID_CRT, PID_SET_PRIO], {}, [], NUM_MEM_BLOCKS)
    ensures Leads(s, [Receive], s')
    ensures s'.k.running == PID_CRT && Starting(s', [PID_CLOCK, PID_SET_PRIO], {PID_KCD}, [], NUM_MEM_BLOCKS)
  {
    CrtIsServed();
    s' := Waits(s, [PID_CLOCK], PID_CRT, [PID_SET_PRIO], {}, NUM_MEM_BLOCKS, [PID_CLOCK, PID_CRT, PID_SET_PRIO],
      [PID_CLOCK, PID_SET_PRIO], {PID_KCD});
  }

  lemma JumpersTogether()
    ensures {PID_KCD, PID_CRT} == {PID_KCD} + {PID_CRT}
  {
  }

  lemma CrtWaits(s: System) returns (s': System)
    requires s.k.running == PID_CRT && Starting(s, [PID_CLOCK, PID_SET_PRIO], {PID_KCD}, [], NUM_MEM_BLOCKS)
    ensures Leads(s, [Receive], s')
    ensures s'.k.running == PID_CLOCK && Starting(s', [PID_SET_PRIO], {PID_KCD, PID_CRT}, [], NUM_MEM_BLOCKS)
  {
    FirstOfTwo(PID_CLOCK, PID_SET_PRIO);
    JumpersTogether();
    s' := Waits(s, [], PID_CLOCK, [PID_SET_PRIO], {PID_KCD}, NUM_MEM_BLOCKS, [PID_CLOCK, PID_SET_PRIO], [PID_SET_PRIO],
      {PID_KCD, PID_CRT});
  }

  lemma JumpersWait(s: System) returns (s': System)
    requires s.k.running == PID_KCD && Starting(s, [PID_CLOCK, PID_CRT, PID_SET_PRIO], {}, [], NUM_MEM_BLOCKS)
    ensures Leads(s, [Receive] + [Receive], s')
    ensures s'.k.running == PID_CLOCK && Starting(s', [PID_SET_PRIO], {PID_KCD, PID_CRT}, [], NUM_MEM_BLOCKS)
  {
    var s1 := KcdWaits(s);
    s' := CrtWaits(s1);
    LeadsOn(s, [Receive], s1, [Receive], s');
  }

  lemma OnlyOne(x: int)
    ensures IsServed([], x, []) && [x] == [] + [x] + []
    ensures var none: seq<int> := []; none == none + none
  {
  }

  lemma ClockJoins()
    ensures {PID_KCD, PID_CRT, PID_CLOCK} == {PID_KCD, PID_CRT} + {PID_CLOCK}
  {
  }

  lemma ClockWaits(s: System, blocks: nat) returns (s': System)
    requires s.k.running == PID_CLOCK && Starting(s, [PID_SET_PRIO], {PID_KCD, PID_CRT}, [], blocks)
    ensures Leads(s, [Receive], s')
    ensures s'.k.running == PID_SET_PRIO && Starting(s', [], {PID_KCD, PID_CRT, PID_CLOCK}, [], blocks)
  {
    OnlyOne(PID_SET_PRIO);
    ClockJoins();
    s' := Waits(s, [], PID_SET_PRIO, [], {PID_KCD, PID_CRT}, blocks, [PID_SET_PRIO], [], {PID_KCD, PID_CRT, PID_CLOCK});
  }

  lemma SetPrioWaits(s: System, blocks: nat) returns (s': System)
    requires s.k.running == PID_SET_PRIO && Starting(s, [], {PID_KCD, PID_CRT, PID_CLOCK}, [], blocks)
    ensures Leads(s, [Receive], s') && Settled(s', blocks) && InOrder(s')
  {
    s' := LastWaits(s, {PID_KCD, PID_CRT, PID_CLOCK}, blocks, Important());
    PollKeepsOrder(s, s');
    LeadsByOne(s, Receive, s');
    TestProcessRuns(s');
  }

  lemma OthersWait(s: System, blocks: nat) returns (s': System)
    requires s.k.running == PID_CLOCK && Starting(s, [PID_SET_PRIO], {PID_KCD, PID_CRT}, [], blocks)
    ensures Leads(s, [Receive] + [Receive], s') && Settled(s', blocks) && InOrder(s')
  {
    var s1 := ClockWaits(s, blocks);
    s' := SetPrioWaits(s1, blocks);
    LeadsOn(s, [Receive], s1, [Receive], s');
  }

  /** All system processes wait for mail, and a process that is none of them runs. */
  ghost predicate Settled(s: System, blocks: nat) {
    && Starting(s, [], Important(), [], blocks)
    && s.k.running != PID_NULL && s.k.running !in Important() && !IsIproc(s.k.running)
  }

  /** With all system processes waiting for mail and none there, a test process runs. */
  lemma TestProcessRuns(s: System)
    requires SystemInv(s) && Bounds(s) && InOrder(s) && s.receiving == Important() && s.requesting == {}
    requires forall p :: 0 <= p < NUM_PROCS ==> s.k.mail[p] == []
    ensures s.k.running != PID_NULL && s.k.running !in Important() && !IsIproc(s.k.running)
  {
    NoIprocRuns(s.k);
    assert forall p :: p in Important() ==> p in ReceiveSet(s.k.proc);
    assert 1 !in ReceiveSet(s.k.proc) && 1 !in BlockedSet(s.k.proc);
    assert 1 in ReadySet(s.k.proc) || s.k.running == 1;
  }

  lemma PollKeepsOrder(s: System, s': System)
    requires SystemInv(s) && s.k.running != PID_NULL && Next(s, Receive, s') && s.k.mail[s.k.running] == []
    ensures InOrder(s')
  {
    PollCall(s.k, BLOCKED_ON_RECEIVE);
  }

  /** CLOCK having registered by `first`, SET_PRIO does. */
  lemma SecondRegisters(s0: System, first: seq<Event>, s: System) returns (s': System, c: int)
    requires Leads(s0, first, s) && s.k.running == PID_SET_PRIO
    requires Starting(s, [PID_CLOCK], {PID_KCD, PID_CRT}, [], NUM_MEM_BLOCKS - 1)
    ensures Leads(s0, first + Registration(c), s') && s'.k.running == PID_CLOCK
    ensures Starting(s', [PID_SET_PRIO], {PID_KCD, PID_CRT}, [], NUM_MEM_BLOCKS - 2)
  {
    s', c := Registers(s, PID_SET_PRIO, PID_CLOCK, NUM_MEM_BLOCKS - 1);
    LeadsOn(s0, first, s, Registration(c), s');
  }

  lemma BothRegister(s: System) returns (b: int, c: int, s': System)
    requires s.k.running == PID_CLOCK && Starting(s, [PID_SET_PRIO], {PID_KCD, PID_CRT}, [], NUM_MEM_BLOCKS)
    ensures Leads(s, Registration(b) + Registration(c), s')
    ensures s'.k.running == PID_CLOCK && Starting(s', [PID_SET_PRIO], {PID_KCD, PID_CRT}, [], NUM_MEM_BLOCKS - 2)
  {
    var s1;
    s1, b := Registers(s, PID_CLOCK, PID_SET_PRIO, NUM_MEM_BLOCKS);
    s', c := SecondRegisters(s, Registration(b), s1);
  }

  /** The first calls of the system processes, from start-up on. */
  lemma SystemProcessesSettle() returns (b: int, c: int, s: System)
    ensures Leads(Booted(), Startup(b, c), s) && Settled(s, NUM_MEM_BLOCKS - 2) && InOrder(s)
  {
    var s0 := KcdStarts();
    var s1 := JumpersWait(s0);
    var s2;
    b, c, s2 := BothRegister(s1);
    s := OthersWait(s2, NUM_MEM_BLOCKS - 2);
    LeadsOn(s0, ([Receive] + [Receive]), s1, Registration(b) + Registration(c), s2);
    LeadsOn(s0, ([Receive] + [Receive]) + (Registration(b) + Registration(c)), s2, ([Receive] + [Receive]), s);
  }
}
