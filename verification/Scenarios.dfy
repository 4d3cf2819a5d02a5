/** Runs from start-up that show what can go wrong where the theorems on whole runs name a condition. */
module Scenarios {
  import opened Constants
  import opened Integers
  import opened PriorityQueues
  import opened MessageQueues
  import opened KernelState
  import opened Scheduling
  import opened RoundRobin
  import opened KernelCalls
  import opened MessageHistory
  import opened KernelRuns
  import opened PriorityOrder
  import opened FirstCalls
  import opened Timers

  lemma StepFacts(s: System, ev: Event, s': System)
    requires SystemInv(s) && Next(s, ev, s')
    ensures SystemInv(s') && Bounds(s')
    ensures InOrder(s) ==> (InOrder(s') <==> !LosesOrder(s, ev))
    ensures InStrongOrder(s) ==> (InStrongOrder(s') <==> !LosesStrongOrder(s, ev))
  {
    StepKeepsInvariant(s, ev);
    InvariantGivesBounds(s');
    StepOrder(s, ev, s');
  }

  // ----- KCD or CRT ready at HIGHEST while another process of that priority runs -----

  /** The first `n` ticks with time slicing, each with the check that the tick counter calls for. */
  function Ticks(n: nat): seq<Event> {
    seq(n, i requires 0 <= i => TimerTick(CheckOf(true, i + 1)))
  }

  lemma OneMoreTick(n: nat)
    requires n < 99
    ensures Ticks(n + 1) == Ticks(n) + [TimerTick(Skipped)]
  {
  }

  /** With nothing in the delayed queue a tick without a check only moves the clock. */
  lemma IdleTick(s: System, s': System)
    requires SystemInv(s) && Next(s, TimerTick(Skipped), s') && s.k.delayed == []
    ensures s' == s.(k := s.k.(now := s.k.now + 1))
  {
  }

  lemma IdleStep(s: System) returns (s': System)
    requires SystemInv(s) && Bounds(s) && s.k.delayed == []
    ensures Leads(s, [TimerTick(Skipped)], s') && SystemInv(s') && Bounds(s')
    ensures s' == s.(k := s.k.(now := s.k.now + 1))
  {
    s' := Step(s, TimerTick(Skipped));
    IdleTick(s, s');
    StepKeeps(s, TimerTick(Skipped), s');
    LeadsByOne(s, TimerTick(Skipped), s');
  }

  lemma {:induction false} Idle(s: System, n: nat) returns (s': System)
    requires SystemInv(s) && Bounds(s) && s.k.delayed == [] && n <= 99
    ensures Leads(s, Ticks(n), s') && SystemInv(s') && Bounds(s') && s' == s.(k := s.k.(now := s.k.now + n))
  {
    if n == 0 {
      s' := s;
      assert IsPath([s], Ticks(0));
    } else {
      var s1 := Idle(s, n - 1);
      s' := IdleStep(s1);
      LeadsOn(s, Ticks(n - 1), s1, [TimerTick(Skipped)], s');
      OneMoreTick(n - 1);
    }
  }

  /** CRT runs, KCD waits for mail, and CLOCK and SET_PRIO wait for the processor. */
  lemma EqualsWait(k: State)
    requires Inv(k) && k.running == PID_CRT && k.proc[PID_CRT].priority == HIGHEST && k.delayed == []
    requires k.ready[HIGHEST] == [PID_CLOCK, PID_SET_PRIO]
    ensures TickLosesStrongOrder(k, Eager)
  {
    var others := ReadySet(k.proc) + DueReceivers(k, k.now + 1);
    InLine(k, PID_CLOCK);
    assert PID_CLOCK in others;
    assert forall p :: p in ReadySet(k.proc) && k.proc[p].priority == HIGHEST ==> p in k.ready[HIGHEST];
  }

  lemma KcdHasWaited() returns (s: System)
    ensures Leads(Booted(), [Receive], s) && InStrongOrder(s) && InOrder(s) && s.k.running == PID_CRT
    ensures Starting(s, [PID_CLOCK, PID_SET_PRIO], {PID_KCD}, [], NUM_MEM_BLOCKS)
  {
    var s0 := KcdStarts();
    s := KcdWaits(s0);
    LeadsIsNext(s0, Receive, s);
    KeepsBothOrders(s0, s);
  }

  lemma KeepsBothOrders(s0: System, s: System)
    requires s0 == Booted() && SystemInv(s0) && Next(s0, Receive, s)
    ensures InStrongOrder(s) && InOrder(s)
  {
    BootedInOrder();
    StepFacts(s0, Receive, s);
  }

  lemma HundredTicks()
    ensures [Receive] + Ticks(99) + [TimerTick(Eager)] == [Receive] + Ticks(100)
  {
  }

  /**
   The strong order can be lost, with time slicing: KCD waits for mail, CRT runs, and the eager check of the hundredth
   tick hands over to a process that is only as important while CRT is ready.
   */
  lemma StrongOrderCanBeLost() returns (run: seq<System>)
    ensures IsRun(run, [Receive] + Ticks(100))
    ensures InStrongOrder(run[100]) && !InStrongOrder(run[101]) && InOrder(run[101])
  {
    var s0 := KcdHasWaited();
    var s1 := Idle(s0, 99);
    LeadsOn(Booted(), [Receive], s0, Ticks(99), s1);
    var s2 := EagerLoses(s1);
    run := RunTo([Receive] + Ticks(99), s1, TimerTick(Eager), s2);
    HundredTicks();
  }

  lemma EagerLoses(s: System) returns (s': System)
    requires SystemInv(s) && Bounds(s) && InOrder(s) && InStrongOrder(s) && s.k.running == PID_CRT
    requires s.k.proc[PID_CRT].priority == HIGHEST && s.k.delayed == []
    requires s.k.ready[HIGHEST] == [PID_CLOCK, PID_SET_PRIO]
    ensures Next(s, TimerTick(Eager), s') && !InStrongOrder(s') && InOrder(s')
  {
    s' := Step(s, TimerTick(Eager));
    EqualsWait(s.k);
    StepFacts(s, TimerTick(Eager), s');
  }

  // ----- The longest delay -----

  /** The first tick only moves the clock and, perhaps, the processor. */
  lemma FirstTick(s: System, s': System)
    requires SystemInv(s) && Next(s, TimerTick(Plain), s') && s.k.now == 0 && s.k.delayed == []
    ensures s' == s.(k := s'.k) && s'.k.now == 1 && SameMessages(s.k.(now := 1), s'.k)
  {
    var k1 := s.k.(now := 1);
    assert Inv(k1) && DeliverDue(k1) == k1;
  }

  lemma TickFirst(s0: System, blocks: nat) returns (s1: System)
    requires Settled(s0, blocks) && InOrder(s0) && blocks > 0
    ensures Next(s0, TimerTick(Plain), s1) && SystemInv(s1) && Bounds(s1) && s1.k.now == 1
    ensures Enabled(s1, Request) && s1.k.running !in s1.receiving && s1.k.heap != []
  {
    s1 := Step(s0, TimerTick(Plain));
    FirstTick(s0, s1);
    StepFacts(s0, TimerTick(Plain), s1);
    TestProcessRuns(s1);
  }

  lemma TakeBlock(s1: System) returns (s2: System, d: int)
    requires SystemInv(s1) && Bounds(s1) && Enabled(s1, Request) && s1.k.running !in s1.receiving && s1.k.heap != []
    ensures Next(s1, Request, s2) && SystemInv(s2) && Bounds(s2) && s2.k.now == s1.k.now
    ensures 0 <= d < NUM_MEM_BLOCKS && Enabled(s2, SendDelayed(PID_CRT, d, INT_MAX))
  {
    s2 := Step(s1, Request);
    d := s1.k.heap[0];
    RequestTakesAFreeBlock(s1);
    StepKeeps(s1, Request, s2);
  }

  /** A message sent with the longest delay at tick 1 is delivered one tick later. */
  lemma SendAndTick(s2: System, d: int) returns (s3: System, s4: System)
    requires SystemInv(s2) && Bounds(s2) && s2.k.now == 1 && Enabled(s2, SendDelayed(PID_CRT, d, INT_MAX))
    requires 0 <= d < NUM_MEM_BLOCKS
    ensures Next(s2, SendDelayed(PID_CRT, d, INT_MAX), s3) && Next(s3, TimerTick(Plain), s4)
    ensures Bounds(s4) && s4.k.now == 2 && |s2.sent| in s4.delivered[PID_CRT]
  {
    var send, tick := SendDelayed(PID_CRT, d, INT_MAX), TimerTick(Plain);
    s3 := Step(s2, send);
    StepKeeps(s2, send, s3);
    s4 := Step(s3, tick);
    StepKeeps(s3, tick, s4);
    StepHistory(s3, tick);
    SentIsRecorded(s2, d, s3);
    DueIsDelivered(s4, |s2.sent|);
  }

  lemma SentIsRecorded(s: System, d: int, s': System)
    requires Next(s, SendDelayed(PID_CRT, d, INT_MAX), s') && 0 <= d < NUM_MEM_BLOCKS && s.k.now == 1
    ensures s'.k.now == 1 && |s'.sent| == |s.sent| + 1
    ensures var m := s'.sent[|s.sent|]; m.receiver == PID_CRT && Due(m) == 2
  {
    DelayIsKeptInRange(s'.sent[|s.sent|]);
  }

  lemma DueIsDelivered(s: System, id: int)
    requires SystemInv(s) && 0 <= id < |s.sent| && Due(s.sent[id]) <= s.k.now && 0 <= s.sent[id].receiver < NUM_PROCS
    ensures id in s.delivered[s.sent[id].receiver]
  {
    assert AccountedAt(s.sent, s.pending, s.delivered[s.sent[id].receiver], s.sent[id].receiver, {});
  }

  lemma TickAndTake(s0: System, blocks: nat) returns (s2: System, d: int)
    requires Settled(s0, blocks) && InOrder(s0) && blocks > 0
    ensures Leads(s0, [TimerTick(Plain)] + [Request], s2) && SystemInv(s2) && Bounds(s2) && s2.k.now == 1
    ensures 0 <= d < NUM_MEM_BLOCKS && Enabled(s2, SendDelayed(PID_CRT, d, INT_MAX))
  {
    var s1 := TickFirst(s0, blocks);
    s2, d := TakeBlock(s1);
    LeadsByOne(s0, TimerTick(Plain), s1);
    LeadsNext(s0, [TimerTick(Plain)], s1, Request, s2);
  }

  /**
   A delay of INT_MAX, given by a test process at tick 1, ends at tick 2, because its sum with the clock overflows.
   */
  lemma LongestDelayEndsAtOnce() returns (run: seq<System>, b: int, c: int, d: int)
    ensures IsRun(run, Startup(b, c) + ([TimerTick(Plain)] + [Request]) + [SendDelayed(PID_CRT, d, INT_MAX)] +
                       [TimerTick(Plain)])
    ensures run[14].k.now == 1 && run[16].k.now == 2
    ensures Bounds(run[16]) && |run[14].sent| in run[16].delivered[PID_CRT]
  {
    var s0, s2, s3, s4;
    b, c, s0 := SystemProcessesSettle();
    s2, d := TickAndTake(s0, NUM_MEM_BLOCKS - 2);
    s3, s4 := SendAndTick(s2, d);
    LeadsOn(Booted(), Startup(b, c), s0, [TimerTick(Plain)] + [Request], s2);
    var events := Startup(b, c) + ([TimerTick(Plain)] + [Request]);
    var front := RunTo(events, s2, SendDelayed(PID_CRT, d, INT_MAX), s3);
    RunGoesOn(front, events + [SendDelayed(PID_CRT, d, INT_MAX)], TimerTick(Plain), s4);
    run := front + [s4];
  }

  // ----- A better process ready after a tick without a check -----

  /** A process `j` runs at HIGHEST, beside the system processes, which all wait for mail. */
  ghost predicate AloneAtTop(s: System, j: int) {
    && SystemInv(s) && Bounds(s) && s.k.running == j && j != PID_NULL && j !in Important()
    && HighAre(s.k.proc, Important() + {j}) && s.receiving == Important() && s.requesting == {}
    && s.k.now == 0 && forall p :: 0 <= p < NUM_PROCS ==> s.k.mail[p] == []
  }

  /** Raising its own priority leaves a process running when neither KCD nor CRT is ready. */
  lemma RaisesItself(k: State, j: int, k1: State, k': State)
    requires Inv(k) && k.running == j && HighAre(k.proc, Important()) && BlockedSet(k.proc) == {}
    requires j != PID_NULL && j !in Important() && !IsIproc(j) && Important() <= ReceiveSet(k.proc)
    requires k1 == Reprioritised(k, j, HIGHEST) && k' == CheckPreemption(k1, false)
    ensures k'.running == j && HighAre(k'.proc, Important() + {j})
  {
    PriorityChangeKeepsInvariant(k, j, HIGHEST);
    NobodyWoken(k1, WakeForMemory(k1));
    CheckPreemptsExactlyWhenDue(k1, false);
    CheckKeepsPriorities(k1, false);
    NoJumperReady(k1);
  }

  lemma NoJumperReady(k: State)
    requires Inv(k) && Important() <= ReceiveSet(k.proc)
    ensures forall p :: p in ReadySet(k.proc) ==> Urgency(k.proc, p) >= HIGHEST
  {
  }

  lemma SystemProcessesBlocked(s: System)
    requires SystemInv(s) && Bounds(s) && s.receiving == Important() && s.requesting == {}
    requires forall p :: 0 <= p < NUM_PROCS ==> s.k.mail[p] == []
    ensures Important() <= ReceiveSet(s.k.proc) && BlockedSet(s.k.proc) == {}
  {
    assert forall p :: p in Important() ==> p in ReceiveSet(s.k.proc);
  }

  lemma SetPriorityIs(s: System, j: int, s': System)
    requires Next(s, SetPriority(j, HIGHEST), s') && s.k.running == j && 1 <= j < NUM_PROCS
    requires s.k.proc[j].priority != HIGHEST
    ensures s' == s.(k := CheckPreemption(Reprioritised(s.k, j, HIGHEST), false)) && SameMessages(s.k, s'.k)
  {
  }

  lemma Raise(s: System, j: int, blocks: nat) returns (s': System)
    requires Starting(s, [], Important(), [], blocks) && s.k.running == j
    requires j != PID_NULL && j !in Important() && !IsIproc(j)
    ensures Next(s, SetPriority(j, HIGHEST), s') && AloneAtTop(s', j) && s'.place == s.place && s'.k.delayed == []
  {
    s' := Step(s, SetPriority(j, HIGHEST));
    StepKeeps(s, SetPriority(j, HIGHEST), s');
    SystemProcessesBlocked(s);
    SetPriorityIs(s, j, s');
    RaisesItself(s.k, j, Reprioritised(s.k, j, HIGHEST), s'.k);
  }

  lemma DelayedSendIs(s: System, j: int, b: int, s': System)
    requires Next(s, SendDelayed(j, b, 1), s') && s.k.running == j && 0 <= b < NUM_MEM_BLOCKS
    requires s.k.now == 0 && s.k.delayed == []
    ensures s'.k.proc == s.k.proc && s'.k.running == j && s'.k.mail == s.k.mail && s'.k.now == 0
    ensures s'.receiving == s.receiving && s'.requesting == s.requesting
    ensures s'.k.delayed == [b] && s'.k.hdr[b] == Header(j, j, 1)
  {
  }

  /** The process sends a block to itself with a delay of one tick. */
  lemma ToItself(s: System, j: int, b: int) returns (s': System)
    requires AloneAtTop(s, j) && s.k.delayed == [] && 0 <= b < NUM_MEM_BLOCKS && s.place[b] == Held(j)
    ensures Next(s, SendDelayed(j, b, 1), s') && AloneAtTop(s', j)
    ensures s'.k.delayed == [b] && s'.k.hdr[b] == Header(j, j, 1)
  {
    s' := Step(s, SendDelayed(j, b, 1));
    StepKeeps(s, SendDelayed(j, b, 1), s');
    DelayedSendIs(s, j, b, s');
  }

  /** It waits for the message. */
  lemma WaitFor(s: System, j: int) returns (s': System)
    requires AloneAtTop(s, j)
    ensures Next(s, Receive, s') && SystemInv(s') && Bounds(s') && InOrder(s') && HighAre(s'.k.proc, Important() + {j})
    ensures SameMessages(s.k, s'.k) && s'.receiving == Important() + {j}
  {
    s' := Step(s, Receive);
    StepKeeps(s, Receive, s');
    WaitingBlocks(s, s');
    PollKeepsOrder(s, s');
    PollPriorities(s.k, s'.k);
  }

  /** The message is due on the next tick, for `j`, while a process of lower priority runs. */
  lemma BetterIsDue(s: System, j: int, b: int)
    requires SystemInv(s) && Bounds(s) && HighAre(s.k.proc, Important() + {j}) && s.receiving == Important() + {j}
    requires 0 <= j < NUM_PROCS && !IsIproc(j) && s.k.now == 0 && forall p :: 0 <= p < NUM_PROCS ==> s.k.mail[p] == []
    requires s.k.delayed == [b] && 0 <= b < NUM_ENVELOPES && s.k.hdr[b] == Header(j, j, 1)
    ensures LosesOrder(s, TimerTick(Skipped))
  {
    assert forall p :: p in Important() + {j} ==> p in ReceiveSet(s.k.proc);
    NoIprocRuns(s.k);
    assert s.k.delayed[0] == b;
    assert HasDue(s.k.delayed, s.k.hdr, j, 1);
    assert j in DueReceivers(s.k, 1);
  }

  /** A process takes a block, raises its own priority, sends the block to itself with a delay, and waits for it. */
  function Sleeping(j: int, d: int): (events: seq<Event>)
    ensures |events| == 4
  {
    [Request] + [SetPriority(j, HIGHEST)] + ([SendDelayed(j, d, 1)] + [Receive])
  }

  lemma TakesAndRaises(s: System, j: int, blocks: nat) returns (s': System, d: int)
    requires Settled(s, blocks) && s.k.running == j && blocks > 0
    ensures Leads(s, [Request] + [SetPriority(j, HIGHEST)], s') && AloneAtTop(s', j) && s'.k.delayed == []
    ensures 0 <= d < NUM_MEM_BLOCKS && s'.place[d] == Held(j)
  {
    var s1;
    s1, d := Takes(s, [], Important(), blocks);
    s' := Raise(s1, j, blocks - 1);
    LeadsNext(s, [Request], s1, SetPriority(j, HIGHEST), s');
  }

  lemma SleepsATick(s: System, j: int, d: int) returns (s': System)
    requires AloneAtTop(s, j) && s.k.delayed == [] && 0 <= d < NUM_MEM_BLOCKS && s.place[d] == Held(j)
    ensures Leads(s, [SendDelayed(j, d, 1)] + [Receive], s') && SystemInv(s') && Bounds(s') && InOrder(s')
    ensures LosesOrder(s', TimerTick(Skipped))
  {
    var s1 := ToItself(s, j, d);
    s' := WaitFor(s1, j);
    NoIprocRuns(s.k);
    BetterIsDue(s', j, d);
    LeadsByOne(s, SendDelayed(j, d, 1), s1);
    LeadsNext(s, [SendDelayed(j, d, 1)], s1, Receive, s');
  }

  lemma Sleeps(s: System, j: int, blocks: nat) returns (s': System, d: int)
    requires Settled(s, blocks) && s.k.running == j && blocks > 0
    ensures Leads(s, Sleeping(j, d), s') && SystemInv(s') && Bounds(s') && InOrder(s')
    ensures LosesOrder(s', TimerTick(Skipped))
  {
    var s1;
    s1, d := TakesAndRaises(s, j, blocks);
    s' := SleepsATick(s1, j, d);
    LeadsOn(s, [Request] + [SetPriority(j, HIGHEST)], s1, [SendDelayed(j, d, 1)] + [Receive], s');
  }

  /**
   The order of priorities can be lost in the build with time slicing: the first tick, which goes without a check, wakes
   a process of better priority than the running one, and does not switch to it.
   */
  lemma OrderCanBeLost() returns (run: seq<System>, b: int, c: int, j: int, d: int)
    ensures IsRun(run, Startup(b, c) + Sleeping(j, d) + [TimerTick(CheckOf(true, 1))])
    ensures InOrder(run[16]) && !InOrder(run[17])
  {
    run, b, c, j, d := FirstTickLoses();
    assert TimerTick(CheckOf(true, 1)) == TimerTick(Skipped);
  }

  lemma FirstTickLoses() returns (run: seq<System>, b: int, c: int, j: int, d: int)
    ensures IsRun(run, Startup(b, c) + Sleeping(j, d) + [TimerTick(Skipped)])
    ensures InOrder(run[16]) && !InOrder(run[17])
  {
    var s0, s1, s2;
    b, c, s0 := SystemProcessesSettle();
    j := s0.k.running;
    s1, d := Sleeps(s0, j, NUM_MEM_BLOCKS - 2);
    LeadsOn(Booted(), Startup(b, c), s0, Sleeping(j, d), s1);
    s2 := TickLoses(s1);
    run := RunTo(Startup(b, c) + Sleeping(j, d), s1, TimerTick(Skipped), s2);
  }

  lemma TickLoses(s: System) returns (s': System)
    requires SystemInv(s) && Bounds(s) && InOrder(s) && LosesOrder(s, TimerTick(Skipped))
    ensures Next(s, TimerTick(Skipped), s') && !InOrder(s')
  {
    s' := Step(s, TimerTick(Skipped));
    StepFacts(s, TimerTick(Skipped), s');
  }
}
