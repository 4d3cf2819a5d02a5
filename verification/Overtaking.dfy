/**
 No process overtakes another in a queue: who stays in a ready list, or in a list of those who wait for memory, keeps
 its place before everybody who stands behind it there or comes later; and those who get memory together become ready in
 the order in which they waited.
 */
module Overtaking {
  import opened Constants
  import opened Integers
  import opened Sequences
  import opened PriorityQueues
  import opened MessageQueues
  import opened KernelState
  import opened Scheduling
  import opened KernelCalls
  import opened MessageHistory
  import opened KernelRuns
  import opened PriorityOrder

  /** `p` is in the list, and `r` does not stand before it. */
  ghost predicate Ahead(list: seq<int>, p: int, r: int) {
    exists i :: 0 <= i < |list| && list[i] == p && r !in list[..i]
  }

  /** Who is still in the list is still ahead of all it was ahead of. */
  ghost predicate OrderKept(list: seq<int>, list': seq<int>) {
    forall p, r :: Ahead(list, p, r) && p in list' ==> Ahead(list', p, r)
  }

  // ----- Lists -----

  lemma AheadIn(list: seq<int>, p: int, r: int)
    requires Ahead(list, p, r)
    ensures p in list
  {
  }

  lemma AheadWhenLonger(list: seq<int>, list': seq<int>, p: int, r: int)
    requires Ahead(list, p, r) && list <= list'
    ensures Ahead(list', p, r)
  {
    var i :| 0 <= i < |list| && list[i] == p && r !in list[..i];
    assert list'[..i] == list[..i];
  }

  lemma LongerKeepsOrder(list: seq<int>, list': seq<int>)
    requires list <= list'
    ensures OrderKept(list, list')
  {
    forall p, r | Ahead(list, p, r) && p in list' ensures Ahead(list', p, r) {
      AheadWhenLonger(list, list', p, r);
    }
  }

  lemma AheadIs(a: seq<int>, p: int, b: seq<int>, r: int)
    requires r !in a
    ensures Ahead(a + [p] + b, p, r)
  {
    var list := a + [p] + b;
    assert list[|a|] == p && list[..|a|] == a;
  }

  lemma WithoutAround(a: seq<int>, p: int, b: seq<int>, x: int)
    requires p != x
    ensures Without(a + [p] + b, x) == Without(a, x) + [p] + Without(b, x)
  {
    WithoutConcat(a + [p], b, x);
    WithoutConcat(a, [p], x);
    assert [p][..0] == [];
  }

  lemma AheadWithout(list: seq<int>, x: int, p: int, r: int)
    requires Ahead(list, p, r) && p != x
    ensures Ahead(Without(list, x), p, r)
  {
    var i :| 0 <= i < |list| && list[i] == p && r !in list[..i];
    var a, b := list[..i], list[i + 1..];
    assert list == a + [p] + b;
    WithoutAround(a, p, b, x);
    WithoutMembers(a, x);
    AheadIs(Without(a, x), p, Without(b, x), r);
  }

  /** Taking one out and adding another at the end. */
  lemma LeaveAndJoin(list: seq<int>, x: int, back: seq<int>, list': seq<int>)
    requires list' == Without(list, x) + back && x !in back
    ensures OrderKept(list, list')
  {
    WithoutMembers(list, x);
    forall p, r | Ahead(list, p, r) && p in list' ensures Ahead(list', p, r) {
      AheadWithout(list, x, p, r);
      AheadWhenLonger(Without(list, x), list', p, r);
    }
  }

  /** Two changes, when nobody leaves in the first and comes back in the second. */
  lemma OrderKeptTwice(a: seq<int>, b: seq<int>, c: seq<int>)
    requires OrderKept(a, b) && OrderKept(b, c) && forall p :: p in a && p in c ==> p in b
    ensures OrderKept(a, c)
  {
    forall p, r | Ahead(a, p, r) && p in c ensures Ahead(c, p, r) {
      AheadIn(a, p, r);
    }
  }

  lemma {:induction false} StaysAhead(lists: seq<seq<int>>, i: nat, j: nat, p: int, r: int)
    requires i <= j < |lists| && Ahead(lists[i], p, r)
    requires forall m: nat :: i <= m < j ==> OrderKept(lists[m], lists[m + 1])
    requires forall m: nat :: i <= m <= j ==> p in lists[m]
    ensures Ahead(lists[j], p, r)
    decreases j
  {
    if i < j {
      StaysAhead(lists, i, j - 1, p, r);
      assert OrderKept(lists[j - 1], lists[j - 1 + 1]);
    }
  }

  /** In the list of those who come, behind a list where neither is. */
  lemma AheadAmongThoseWhoCome(list: seq<int>, coming: seq<int>, p: int, r: int)
    requires Ahead(coming, p, r) && r !in list
    ensures Ahead(list + coming, p, r)
  {
    var i :| 0 <= i < |coming| && coming[i] == p && r !in coming[..i];
    assert (list + coming)[..|list| + i] == list + coming[..i];
    assert (list + coming)[|list| + i] == p;
  }

  // ----- The kernel's queues -----

  /** All ready lists and all lists of memory waiters keep their order. */
  ghost predicate QueuesKept(k: State, k': State)
    requires Shape(k) && Shape(k')
  {
    forall q :: 0 <= q < NUM_PRIORITIES ==> OrderKept(k.ready[q], k'.ready[q]) && OrderKept(k.blocked[q], k'.blocked[q])
  }

  /** Memory waiters that become ready stand in their ready list in the order in which they waited. */
  ghost predicate WaitersInOrder(k: State, k': State)
    requires Shape(k) && Shape(k')
  {
    forall q, p, r :: 0 <= q < NUM_PRIORITIES && Ahead(k.blocked[q], p, r) && r in k.blocked[q] && p in k'.ready[q] ==>
                        Ahead(k'.ready[q], p, r)
  }

  ghost predicate Orderly(k: State, k': State)
    requires Shape(k) && Shape(k')
  {
    QueuesKept(k, k') && WaitersInOrder(k, k')
  }

  /** Ready lists only get longer, and nobody waits for memory that did not. */
  ghost predicate OnlyJoin(k: State, k': State)
    requires Shape(k) && Shape(k')
  {
    k'.blocked == k.blocked && forall q :: 0 <= q < NUM_PRIORITIES ==> k.ready[q] <= k'.ready[q]
  }

  lemma WaitersAreNotReady(k: State)
    requires Inv(k)
    ensures forall q, p :: 0 <= q < NUM_PRIORITIES && p in k.blocked[q] ==> p !in k.ready[q]
  {
    forall q, p | 0 <= q < NUM_PRIORITIES && p in k.blocked[q] ensures p !in k.ready[q] {
      assert p in BlockedSet(k.proc) - {k.running};
      assert p !in ReadySet(k.proc);
    }
  }

  /** While waiting goes on nobody who waits is ready. */
  lemma WaitingGoesOn(k: State, k': State)
    requires Shape(k) && Inv(k') && forall q :: 0 <= q < NUM_PRIORITIES ==> k.blocked[q] <= k'.blocked[q]
    ensures WaitersInOrder(k, k')
  {
    WaitersAreNotReady(k');
    assert forall q, p :: 0 <= q < NUM_PRIORITIES && p in k.blocked[q] ==> p in k'.blocked[q];
    forall q, p, r | 0 <= q < NUM_PRIORITIES && Ahead(k.blocked[q], p, r) ensures p in k.blocked[q] {
      AheadIn(k.blocked[q], p, r);
    }
  }

  lemma JoiningIsOrderly(k: State, k': State)
    requires Shape(k) && Inv(k') && OnlyJoin(k, k')
    ensures Orderly(k, k')
  {
    forall q | 0 <= q < NUM_PRIORITIES ensures OrderKept(k.ready[q], k'.ready[q]) {
      LongerKeepsOrder(k.ready[q], k'.ready[q]);
    }
    forall q | 0 <= q < NUM_PRIORITIES ensures OrderKept(k.blocked[q], k'.blocked[q]) {
      LongerKeepsOrder(k.blocked[q], k'.blocked[q]);
    }
    WaitingGoesOn(k, k');
  }

  // ----- The preemption check -----

  /** Those who get memory stand behind the ready ones, in the order in which they waited. */
  lemma WakingIsOrderly(k: State, w: State)
    requires Inv(k) && w == WakeForMemory(k)
    ensures Inv(w) && Orderly(k, w) && forall q :: 0 <= q < NUM_PRIORITIES ==> k.ready[q] <= w.ready[q]
    ensures if k.heap == [] then w == k
            else forall q :: 0 <= q < NUM_PRIORITIES ==> w.ready[q] == k.ready[q] + k.blocked[q] && w.blocked[q] == []
  {
    WakeForMemoryKeepsInvariant(k);
    if k.heap == [] {
      JoiningIsOrderly(k, k);
    } else {
      forall q | 0 <= q < NUM_PRIORITIES ensures OrderKept(k.ready[q], w.ready[q]) {
        LongerKeepsOrder(k.ready[q], w.ready[q]);
      }
      WaitersAreNotReady(k);
      forall q, p, r | 0 <= q < NUM_PRIORITIES && Ahead(k.blocked[q], p, r) && r in k.blocked[q]
        ensures Ahead(w.ready[q], p, r)
      {
        AheadAmongThoseWhoCome(k.ready[q], k.blocked[q], p, r);
      }
    }
  }

  // ----- Handing over -----

  lemma ReadyWithoutNext(k: State, next: int, q: int)
    requires Handover(k) && !KeepsRunning(k) && next == Peek(k.ready, k.proc).0 && 0 <= q < NUM_PRIORITIES
    ensures PopFirst(k.ready, k.proc)[q] == Without(k.ready[q], next)
  {
    ReleaseDispatches(k);
    PopTakesThePeeked(k.ready, ReadySet(k.proc), k.proc);
    if k.proc[next].priority == q {
      var a, b :| k.ready[q] == a + [next] + b && PopFirst(k.ready, k.proc)[q] == a + b;
      NotTwice(a, next, b);
      WithoutOnce(a, next, b);
    } else {
      assert next !in k.ready[q];
      WithoutAbsent(k.ready[q], next);
    }
  }

  /** A hand-over takes the next one out and puts its predecessor at the end of its list. */
  lemma HandingOverQueues(k: State, k': State, next: int, q: int)
    requires Handover(k) && k' == ReleaseProcessor(k) && 0 <= q < NUM_PRIORITIES && !KeepsRunning(k)
    requires next == Peek(k.ready, k.proc).0
    ensures var prev := k.proc[k.running];
            && next != k.running
            && k'.ready[q] == Without(k.ready[q], next) +
               (if prev.state == RUN && prev.priority == q then [k.running] else [])
            && k'.blocked[q] == k.blocked[q] +
               (if prev.state == BLOCKED_ON_RESOURCE && prev.priority == q then [k.running] else [])
  {
    ReleaseDispatches(k);
    ReadyWithoutNext(k, next, q);
    assert Without(k.ready[q], next) + [] == Without(k.ready[q], next) && k.blocked[q] + [] == k.blocked[q];
  }

  lemma HandingOverKeeps(k: State, k': State, next: int, q: int)
    requires Handover(k) && k' == ReleaseProcessor(k) && 0 <= q < NUM_PRIORITIES && !KeepsRunning(k)
    requires next == Peek(k.ready, k.proc).0
    ensures OrderKept(k.ready[q], k'.ready[q]) && k.blocked[q] <= k'.blocked[q]
  {
    HandingOverQueues(k, k', next, q);
    var back := if k.proc[k.running].state == RUN && k.proc[k.running].priority == q then [k.running] else [];
    LeaveAndJoin(k.ready[q], next, back, k'.ready[q]);
  }

  lemma HandingOverIsOrderly(k: State, k': State)
    requires Handover(k) && k' == ReleaseProcessor(k)
    ensures Inv(k') && Orderly(k, k')
  {
    ReleaseKeepsInvariant(k, k');
    ReleaseDispatches(k);
    forall q | 0 <= q < NUM_PRIORITIES
      ensures OrderKept(k.ready[q], k'.ready[q]) && k.blocked[q] <= k'.blocked[q]
      ensures OrderKept(k.blocked[q], k'.blocked[q])
    {
      if KeepsRunning(k) {
        LongerKeepsOrder(k.ready[q], k'.ready[q]);
      } else {
        HandingOverKeeps(k, k', Peek(k.ready, k.proc).0, q);
      }
      LongerKeepsOrder(k.blocked[q], k'.blocked[q]);
    }
    WaitingGoesOn(k, k');
  }

  lemma SwitchIsOrderly(w: State, eager: bool, k': State)
    requires Inv(w) && k' == SwitchIfDue(w, eager)
    ensures Inv(k') && Orderly(w, k') && k'.blocked == w.blocked
  {
    if k' == w {
      JoiningIsOrderly(w, w);
    } else {
      HandingOverIsOrderly(w, k');
      ReleaseDispatches(w);
    }
  }

  // ----- One change after the other -----

  lemma OrderlyTwice(a: State, b: State, c: State)
    requires Shape(a) && Shape(b) && Shape(c) && Orderly(a, b) && Orderly(b, c)
    requires forall q, p :: 0 <= q < NUM_PRIORITIES && p in a.ready[q] && p in c.ready[q] ==> p in b.ready[q]
    requires forall q, p :: 0 <= q < NUM_PRIORITIES && p in a.blocked[q] && p in c.blocked[q] ==> p in b.blocked[q]
    requires b.blocked == a.blocked ||
             forall q, p :: 0 <= q < NUM_PRIORITIES && p in a.blocked[q] && p in c.ready[q] ==> p in b.ready[q]
    ensures Orderly(a, c)
  {
    forall q | 0 <= q < NUM_PRIORITIES ensures OrderKept(a.ready[q], c.ready[q]) {
      OrderKeptTwice(a.ready[q], b.ready[q], c.ready[q]);
    }
    forall q | 0 <= q < NUM_PRIORITIES ensures OrderKept(a.blocked[q], c.blocked[q]) {
      OrderKeptTwice(a.blocked[q], b.blocked[q], c.blocked[q]);
    }
    WaitersTwice(a, b, c);
  }

  lemma WaitersTwice(a: State, b: State, c: State)
    requires Shape(a) && Shape(b) && Shape(c) && WaitersInOrder(a, b) && Orderly(b, c)
    requires b.blocked == a.blocked ||
             forall q, p :: 0 <= q < NUM_PRIORITIES && p in a.blocked[q] && p in c.ready[q] ==> p in b.ready[q]
    ensures WaitersInOrder(a, c)
  {
    if b.blocked != a.blocked {
      forall q, p, r | 0 <= q < NUM_PRIORITIES && Ahead(a.blocked[q], p, r) && r in a.blocked[q] && p in c.ready[q]
        ensures Ahead(c.ready[q], p, r)
      {
        AheadIn(a.blocked[q], p, r);
        assert Ahead(b.ready[q], p, r);
      }
    }
  }

  /** The check, after some have become ready. */
  lemma CheckIsOrderly(k: State, k1: State, w: State, eager: bool, k': State)
    requires Shape(k) && Inv(k1) && OnlyJoin(k, k1) && w == WakeForMemory(k1) && k' == SwitchIfDue(w, eager)
    ensures Inv(k') && Orderly(k, k')
  {
    JoiningIsOrderly(k, k1);
    WakingIsOrderly(k1, w);
    SwitchIsOrderly(w, eager, k');
    OrderlyTwice(k, k1, w);
    OrderlyTwice(k, w, k');
  }

  lemma JoinThenCheck(k: State, k1: State, eager: bool, k': State)
    requires Shape(k) && Inv(k1) && OnlyJoin(k, k1) && k' == CheckPreemption(k1, eager)
    ensures Inv(k') && Orderly(k, k')
  {
    CheckIsOrderly(k, k1, WakeForMemory(k1), eager, k');
  }

  // ----- A change of priority -----

  lemma AbsentIsBehind(list: seq<int>, p: int, r: int)
    requires p in list && r !in list
    ensures Ahead(list, p, r)
  {
    var i :| 0 <= i < |list| && list[i] == p;
    assert forall x :: x in list[..i] ==> x in list;
  }

  /** A queue when `pid` changes from level `from` to `to`: it leaves its list and goes to the end of the other. */
  lemma ChangedQueue(queue: seq<seq<int>>, pid: int, from: int, to: int, queue': seq<seq<int>>, q: int)
    requires 0 <= from < |queue| && 0 <= to < |queue| && from != to && 0 <= q < |queue|
    requires queue' == ChangePriority(queue, pid, from, to) && (q == to ==> pid !in queue[q])
    ensures OrderKept(queue[q], queue'[q])
    ensures forall p :: p != pid ==> (p in queue'[q] <==> p in queue[q])
  {
    WithoutMembers(queue[from], pid);
    if pid in queue[from] && q == from {
      assert queue'[q] == Without(queue[q], pid) + [];
      LeaveAndJoin(queue[q], pid, [], queue'[q]);
    } else {
      LongerKeepsOrder(queue[q], queue'[q]);
    }
  }

  lemma LevelsAreRight(k: State)
    requires Inv(k)
    ensures forall q, p :: 0 <= q < NUM_PRIORITIES && (p in k.ready[q] || p in k.blocked[q]) ==>
                             0 <= p < NUM_PROCS && k.proc[p].priority == q
  {
  }

  lemma ReprioritisedKeeps(k: State, pid: int, priority: int, r: State)
    requires Inv(k) && 1 <= pid < NUM_PROCS && 0 <= priority < NULL_PRIO && k.proc[pid].priority != priority
    requires r == Reprioritised(k, pid, priority)
    ensures Inv(r) && QueuesKept(k, r)
    ensures forall q, p :: 0 <= q < NUM_PRIORITIES && p != pid ==>
              (p in r.ready[q] <==> p in k.ready[q]) && (p in r.blocked[q] <==> p in k.blocked[q])
  {
    PriorityChangeKeepsInvariant(k, pid, priority);
    LevelsAreRight(k);
    var from := k.proc[pid].priority;
    forall q | 0 <= q < NUM_PRIORITIES
      ensures OrderKept(k.ready[q], r.ready[q]) && OrderKept(k.blocked[q], r.blocked[q])
      ensures forall p :: p != pid ==> (p in r.ready[q] <==> p in k.ready[q])
      ensures forall p :: p != pid ==> (p in r.blocked[q] <==> p in k.blocked[q])
    {
      ChangedQueue(k.ready, pid, from, priority, r.ready, q);
      ChangedQueue(k.blocked, pid, from, priority, r.blocked, q);
    }
  }

  /** With `pid` at a level of its own now, nobody comes back to where it was. */
  lemma PriorityIsOrderly(k: State, pid: int, priority: int, r: State, k': State)
    requires Inv(k) && 1 <= pid < NUM_PROCS && 0 <= priority < NULL_PRIO && k.proc[pid].priority != priority
    requires r == Reprioritised(k, pid, priority) && k' == CheckPreemption(r, false)
    ensures Inv(k') && Orderly(k, k')
  {
    ReprioritisedKeeps(k, pid, priority, r);
    JoinThenCheck(r, r, false, k');
    CheckKeepsPriorities(r, false);
    LevelsAreRight(k);
    LevelsAreRight(k');
    forall q | 0 <= q < NUM_PRIORITIES ensures OrderKept(k.ready[q], k'.ready[q]) {
      OrderKeptTwice(k.ready[q], r.ready[q], k'.ready[q]);
    }
    forall q | 0 <= q < NUM_PRIORITIES ensures OrderKept(k.blocked[q], k'.blocked[q]) {
      OrderKeptTwice(k.blocked[q], r.blocked[q], k'.blocked[q]);
    }
    WaitersBesideChange(k, pid, r, k');
  }

  lemma WaitersBesideChange(k: State, pid: int, r: State, k': State)
    requires Inv(k) && Inv(k') && Shape(r) && QueuesKept(k, r) && WaitersInOrder(r, k')
    requires 0 <= pid < NUM_PROCS && k.proc[pid].priority != k'.proc[pid].priority
    requires forall q, p :: 0 <= q < NUM_PRIORITIES && p != pid ==> (p in r.blocked[q] <==> p in k.blocked[q])
    ensures WaitersInOrder(k, k')
  {
    LevelsAreRight(k);
    LevelsAreRight(k');
    forall q, p, x | 0 <= q < NUM_PRIORITIES && Ahead(k.blocked[q], p, x) && x in k.blocked[q] && p in k'.ready[q]
      ensures Ahead(k'.ready[q], p, x)
    {
      AheadIn(k.blocked[q], p, x);
      if x == pid {
        AbsentIsBehind(k'.ready[q], p, x);
      }
    }
  }

  // ----- Deliveries -----

  lemma DeliveryJoins(k: State, sender: int, receiver: int, e: int)
    requires Inv(k) && 0 <= receiver < NUM_PROCS && 0 <= e < NUM_ENVELOPES
    ensures var k' := SendHelper(k, sender, receiver, e); Inv(k') && OnlyJoin(k, k')
  {
    SendHelperKeepsInv(k, sender, receiver, e);
  }

  lemma {:induction false} DeliveriesJoin(k: State)
    requires Inv(k)
    ensures Inv(DeliverDue(k)) && OnlyJoin(k, DeliverDue(k))
    decreases |k.delayed|
  {
    if !(k.delayed == [] || k.hdr[k.delayed[0]].expiry > Wrapped(k.now)) {
      var e := k.delayed[0];
      var k1 := k.(delayed := k.delayed[1..]);
      var k2 := SendHelper(k1, k.hdr[e].sender, k.hdr[e].receiver, e);
      DeliveryJoins(k1, k.hdr[e].sender, k.hdr[e].receiver, e);
      DeliveriesJoin(k2);
      assert forall q :: 0 <= q < NUM_PRIORITIES ==> k.ready[q] <= k2.ready[q] <= DeliverDue(k2).ready[q];
    }
  }

  lemma TickIsOrderly(k: State, ticked: State, d: State, check: TickCheck, k': State)
    requires Inv(k) && ticked == k.(now := k.now + 1) && Shape(ticked) && d == DeliverDue(ticked)
    requires k' == AfterTick(d, check)
    ensures Orderly(k, k')
  {
    DeliveriesJoin(ticked);
    if check.Skipped? {
      JoiningIsOrderly(k, d);
    } else {
      JoinThenCheck(k, d, check.Eager?, k');
    }
  }

  // ----- One step -----

  lemma PollIsOrderly(k: State, which: ProcState, k': State)
    requires Inv(k) && k.running != PID_NULL && IsBlocked(which) && k' == Poll(k, which)
    ensures Orderly(k, k')
  {
    PollStart(k, which);
    HandingOverIsOrderly(WithState(k, k.running, which), k');
  }

  lemma SendIsOrderly(k: State, to: int, e: int, k': State)
    requires Inv(k) && (e == NULL || 0 <= e < NUM_ENVELOPES) && k' == SendMessage(k, to, e).0
    ensures Orderly(k, k')
  {
    if ValidMessage(to, e) {
      DeliveryJoins(k, k.running, to, e);
      JoinThenCheck(k, SendHelper(k, k.running, to, e), false, k');
    } else {
      JoiningIsOrderly(k, k);
    }
  }

  lemma SetPriorityIsOrderly(k: State, pid: int, priority: int, k': State)
    requires Inv(k) && k' == SetProcessPriority(k, pid, priority).0
    ensures Orderly(k, k')
  {
    if 1 <= pid < NUM_PROCS && 0 <= priority < NULL_PRIO && k.proc[pid].priority != priority {
      PriorityIsOrderly(k, pid, priority, Reprioritised(k, pid, priority), k');
    } else {
      JoiningIsOrderly(k, k);
    }
  }

  /** With the same queues. */
  lemma SameQueues(k: State, k': State)
    requires Inv(k) && Shape(k') && k'.ready == k.ready && k'.blocked == k.blocked
    ensures Orderly(k, k')
  {
    JoiningIsOrderly(k', k);
    JoiningIsOrderly(k, k);
  }

  lemma RequestIsOrderly(k: State, k': State)
    requires Inv(k) && k.running != PID_NULL && k' == RequestMemoryBlock(k).0
    ensures Orderly(k, k')
  {
    if k.heap == [] {
      PollIsOrderly(k, BLOCKED_ON_RESOURCE, k');
    } else {
      SameQueues(k, k');
    }
  }

  lemma ReceiveIsOrderly(k: State, k': State)
    requires Inv(k) && k.running != PID_NULL && forall e :: e in k.mail[k.running] ==> 0 <= e < NUM_ENVELOPES
    requires k' == ReceiveMessage(k).0
    ensures Orderly(k, k')
  {
    if k.mail[k.running] == [] {
      PollIsOrderly(k, BLOCKED_ON_RECEIVE, k');
    } else {
      SameQueues(k, k');
    }
  }

  lemma ReleaseBlockIsOrderly(k: State, b: int, k': State)
    requires Inv(k) && k' == ReleaseMemoryBlock(k, b).0
    ensures Orderly(k, k')
  {
    if ReleaseValid(k, b) {
      JoinThenCheck(k, k.(heap := k.heap + [b]), false, k');
    } else {
      SameQueues(k, k');
    }
  }

  lemma UartIsOrderly(k: State, notify: bool, p: int, e: int, k': State)
    requires Inv(k) && (notify ==> 0 <= p < NUM_PROCS && 0 <= e < NUM_ENVELOPES)
    requires k' == UartInterrupt(k, notify, p, e)
    ensures Orderly(k, k')
  {
    if notify {
      DeliveryJoins(k, PID_UART_IPROC, p, e);
      JoinThenCheck(k, SendHelper(k, PID_UART_IPROC, p, e), false, k');
    } else {
      JoinThenCheck(k, k, false, k');
    }
  }

  lemma DelayedSendIsOrderly(k: State, to: int, e: int, delay: int32, k': State)
    requires Inv(k) && (e == NULL || 0 <= e < NUM_ENVELOPES) && k' == DelayedSend(k, to, e, delay).0
    ensures Orderly(k, k')
  {
    if delay == 0 {
      SendIsOrderly(k, to, e, k');
    } else {
      SameQueues(k, k');
    }
  }

  lemma TickStepIsOrderly(s: System, check: TickCheck, ticked: State, d: State, s': System)
    requires Inv(s.k) && Bounds(s) && s' == Step(s, TimerTick(check))
    requires ticked == s.k.(now := s.k.now + 1) && d == NextDeliveries(s.k)
    ensures Shape(s'.k) && Orderly(s.k, s'.k)
  {
    TickIs(s, check, s');
    NextIsDelivery(s.k, ticked, d);
    TickIsOrderly(s.k, ticked, d, check, s'.k);
  }

  lemma ReceiveStepIsOrderly(s: System, s': System)
    requires SystemInv(s) && Bounds(s) && Enabled(s, Receive) && s' == Step(s, Receive)
    ensures Shape(s'.k) && Orderly(s.k, s'.k)
  {
    assert forall e :: e in s.k.mail[s.k.running] ==> 0 <= e < NUM_ENVELOPES;
    ReceiveIsOrderly(s.k, s'.k);
  }

  lemma RequestStepIsOrderly(s: System, s': System)
    requires SystemInv(s) && Bounds(s) && Enabled(s, Request) && s' == Step(s, Request)
    ensures Shape(s'.k) && Orderly(s.k, s'.k)
  {
    assert s.k.heap != [] ==> s.k.heap[0] in s.k.heap;
    RequestIsOrderly(s.k, s'.k);
  }

  lemma DelayedStepIsOrderly(s: System, to: int, e: int, delay: int32, s': System)
    requires SystemInv(s) && Bounds(s) && Enabled(s, SendDelayed(to, e, delay))
    requires s' == Step(s, SendDelayed(to, e, delay))
    ensures Shape(s'.k) && Orderly(s.k, s'.k)
  {
    DelayedSendIsOrderly(s.k, to, e, delay, s'.k);
  }

  lemma CallIsOrderly(s: System, ev: Event, s': System)
    requires SystemInv(s) && Bounds(s) && Enabled(s, ev) && s' == Step(s, ev)
    requires ev.Release? || ev.SetPriority? || ev.Send? || ev.SendDelayed? || ev.Request? || ev.ReleaseBlock?
    ensures Shape(s'.k) && Orderly(s.k, s'.k)
  {
    match ev
    case Release => HandingOverIsOrderly(s.k, s'.k);
    case SetPriority(pid, priority) => SetPriorityIsOrderly(s.k, pid, priority, s'.k);
    case Send(p, e) => SendIsOrderly(s.k, p, e, s'.k);
    case SendDelayed(p, e, delay) => DelayedStepIsOrderly(s, p, e, delay, s');
    case Request => RequestStepIsOrderly(s, s');
    case ReleaseBlock(b) => ReleaseBlockIsOrderly(s.k, b, s'.k);
  }

  lemma StepIsOrderly(s: System, ev: Event, s': System)
    requires SystemInv(s) && Bounds(s) && Enabled(s, ev) && s' == Step(s, ev)
    ensures Shape(s'.k) && Orderly(s.k, s'.k)
  {
    match ev
    case Receive => ReceiveStepIsOrderly(s, s');
    case Write(e, h) => SameQueues(s.k, s'.k);
    case GiveBack(e) => SameQueues(s.k, s'.k);
    case TimerTick(check) =>
      TickStepIsOrderly(s, check, s.k.(now := s.k.now + 1), NextDeliveries(s.k), s');
    case UartNotify(p, e) => UartIsOrderly(s.k, true, p, e, s'.k);
    case UartQuiet => UartIsOrderly(s.k, false, 0, 0, s'.k);
    case _ => CallIsOrderly(s, ev, s');
  }

  // ----- Whole runs -----

  /** The list of those at level `q` who are ready, or else of those who wait for memory. */
  function Queue(k: State, waiting: bool, q: nat): seq<int> {
    if waiting then (if q < |k.blocked| then k.blocked[q] else []) else if q < |k.ready| then k.ready[q] else []
  }

  lemma RunIsOrderly(run: seq<System>, events: seq<Event>, i: nat, waiting: bool, q: nat)
    requires IsRun(run, events) && i < |events| && q < NUM_PRIORITIES
    ensures OrderKept(Queue(run[i].k, waiting, q), Queue(run[i + 1].k, waiting, q))
  {
    RunsKeepInvariant(run, events, i);
    StepIsOrderly(run[i], events[i], run[i + 1]);
  }

  /** In all states from `i` to `j` the process is in the list. */
  ghost predicate Stays(run: seq<System>, i: nat, j: nat, waiting: bool, q: nat, p: int) {
    i <= j < |run| && forall m :: i <= m <= j ==> p in Queue(run[m].k, waiting, q)
  }

  /**
   Nobody is overtaken. On every run a process that stays in a ready list, or in a list of memory waiters, from state
   `i` to state `j` stays ahead of all who stood behind it in state `i` or were not in that list then.
   */
  lemma NeverOvertaken(run: seq<System>, events: seq<Event>, i: nat, j: nat, waiting: bool, q: nat, p: int, r: int)
    requires IsRun(run, events) && q < NUM_PRIORITIES && Stays(run, i, j, waiting, q, p)
    requires Ahead(Queue(run[i].k, waiting, q), p, r)
    ensures Ahead(Queue(run[j].k, waiting, q), p, r)
  {
    var lists := seq(|run|, m requires 0 <= m < |run| => Queue(run[m].k, waiting, q));
    forall m: nat | i <= m < j ensures OrderKept(lists[m], lists[m + 1]) {
      RunIsOrderly(run, events, m, waiting, q);
    }
    StaysAhead(lists, i, j, p, r);
  }

  /** Whoever comes to a list goes behind those who were there: after any event, such as a change of its priority. */
  lemma NewcomersGoLast(run: seq<System>, events: seq<Event>, i: nat, waiting: bool, q: nat, p: int, r: int)
    requires IsRun(run, events) && i < |events| && q < NUM_PRIORITIES
    requires p in Queue(run[i].k, waiting, q) && r !in Queue(run[i].k, waiting, q)
    requires p in Queue(run[i + 1].k, waiting, q)
    ensures Ahead(Queue(run[i + 1].k, waiting, q), p, r)
  {
    AbsentIsBehind(Queue(run[i].k, waiting, q), p, r);
    RunIsOrderly(run, events, i, waiting, q);
  }

  /** Those who become ready because memory is free become so in the order in which they waited. */
  lemma MemoryInOrder(run: seq<System>, events: seq<Event>, i: nat, q: nat, p: int, r: int)
    requires IsRun(run, events) && i < |events| && q < NUM_PRIORITIES
    requires Ahead(Queue(run[i].k, true, q), p, r) && r in Queue(run[i].k, true, q)
    requires p in Queue(run[i + 1].k, false, q)
    ensures Ahead(Queue(run[i + 1].k, false, q), p, r)
  {
    RunsKeepInvariant(run, events, i);
    StepIsOrderly(run[i], events[i], run[i + 1]);
  }
}
