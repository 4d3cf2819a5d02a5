/**
 Process queues by priority (priority_queue.c): one list of pids per priority level. The functions say what each
 operation does to the lists, the methods do it on ring buffers, and the lemmas say why that is right when every
 queued pid sits in the list its PCB's priority names.
 */
module PriorityQueues {
  import opened Constants
  import opened Sequences
  import opened LinearLists

  datatype ProcState = NEW | RDY | RUN | BLOCKED_ON_RESOURCE | BLOCKED_ON_RECEIVE
  datatype Pcb = Pcb(state: ProcState, priority: int)

  /** KCD and CRT are served before everybody else in the HIGHEST list. */
  predicate Jumps(pid: int) {
    pid == PID_KCD || pid == PID_CRT
  }

  /** k_internal_get_process_priority. */
  function PriorityOf(proc: seq<Pcb>, pid: int): int {
    if 0 <= pid < |proc| then proc[pid].priority else NUM_PRIORITIES
  }

  /** The urgency by which processes are really served; smaller goes first. */
  function Urgency(proc: seq<Pcb>, pid: int): int {
    if Jumps(pid) && PriorityOf(proc, pid) == HIGHEST then -1 else PriorityOf(proc, pid)
  }

  function FirstJumper(s: seq<int>): (pid: int)
    ensures pid == PID_NONE || pid in s
  {
    if s == [] then PID_NONE else if Jumps(s[0]) then s[0] else FirstJumper(s[1..])
  }

  function FirstNonEmpty(q: seq<seq<int>>, from: nat): (i: nat)
    requires from <= |q|
    ensures from <= i <= |q|
    ensures i < |q| ==> q[i] != []
    ensures forall j :: from <= j < i ==> q[j] == []
    decreases |q| - from
  {
    if from == |q| || q[from] != [] then from else FirstNonEmpty(q, from + 1)
  }

  /** The pid to serve next, and the priority reported for it; (PID_NONE, NUM_PRIORITIES) if nobody is queued. */
  function Peek(q: seq<seq<int>>, proc: seq<Pcb>): (r: (int, int))
    requires |q| == NUM_PRIORITIES
    ensures r.0 == PID_NONE || exists i :: 0 <= i < |q| && r.0 in q[i]
  {
    var jumper := FirstJumper(q[HIGHEST]);
    if jumper != PID_NONE then (jumper, -1)
    else
      var i := FirstNonEmpty(q, 0);
      if i < |q| then (q[i][0], PriorityOf(proc, q[i][0])) else (PID_NONE, NUM_PRIORITIES)
  }

  /** The lists after the served pid is deleted from the list its reported priority names. */
  function PopFirst(q: seq<seq<int>>, proc: seq<Pcb>): (q': seq<seq<int>>)
    requires |q| == NUM_PRIORITIES
    ensures |q'| == |q|
  {
    var (pid, prio) := Peek(q, proc);
    var list := if prio == -1 then HIGHEST else prio;
    if pid != PID_NONE && 0 <= list < NUM_PRIORITIES then q[list := Without(q[list], pid)] else q
  }

  function Push(q: seq<seq<int>>, pid: int, priority: int): (q': seq<seq<int>>)
    requires 0 <= priority < |q|
    ensures |q'| == |q|
  {
    q[priority := q[priority] + [pid]]
  }

  function ChangePriority(q: seq<seq<int>>, pid: int, from: int, to: int): (q': seq<seq<int>>)
    requires 0 <= from < |q| && 0 <= to < |q|
    ensures |q'| == |q|
  {
    if pid in q[from] then Push(q[from := Without(q[from], pid)], pid, to) else q
  }

  /** Every list of `to` with the same list of `from` behind it. */
  function Append(to: seq<seq<int>>, from: seq<seq<int>>): (q: seq<seq<int>>)
    requires |to| == |from|
    ensures |q| == |to|
  {
    seq(|to|, i requires 0 <= i < |to| => to[i] + from[i])
  }

  // ----- The operations on ring buffers -----

  method PushProcess(pq: ListArray<int>, pid: int, priority: int)
    requires pq.Valid() && 0 <= priority < |pq.lists| && |pq.Contents()[priority]| < pq.capacity
    modifies pq.Repr
    ensures pq.Valid() && pq.Contents() == Push(old(pq.Contents()), pid, priority)
  {
    pq.PushBack(priority, pid);
  }

  method PeekFront(pq: ListArray<int>, process: array<Pcb>) returns (pid: int, prio: int)
    requires pq.Valid() && |pq.lists| == NUM_PRIORITIES
    ensures (pid, prio) == Peek(pq.Contents(), process[..])
  {
    var top := pq.lists[HIGHEST];
    var k := 0;
    while k != top.size
      invariant 0 <= k <= top.size
      invariant FirstJumper(top.Contents()) == FirstJumper(top.Contents()[k..])
      decreases top.size - k
    {
      var hiprio := top.At(k);
      if Jumps(hiprio) {
        return hiprio, -1;
      }
      k := k + 1;
    }
    for i := 0 to NUM_PRIORITIES
      invariant FirstJumper(top.Contents()) == PID_NONE
      invariant FirstNonEmpty(pq.Contents(), 0) == FirstNonEmpty(pq.Contents(), i)
    {
      if pq.lists[i].size > 0 {
        pid := pq.lists[i].Front();
        prio := if 0 <= pid < process.Length then process[pid].priority else NUM_PRIORITIES;
        return;
      }
    }
    return PID_NONE, NUM_PRIORITIES;
  }

  method PopFirstProcess(pq: ListArray<int>, process: array<Pcb>) returns (pid: int)
    requires pq.Valid() && |pq.lists| == NUM_PRIORITIES && process !in pq.Repr
    modifies pq.Repr
    ensures pq.Valid() && pid == Peek(old(pq.Contents()), process[..]).0
    ensures pq.Contents() == PopFirst(old(pq.Contents()), process[..])
  {
    var prio;
    pid, prio := PeekFront(pq, process);
    if prio == -1 {
      prio := HIGHEST;
    }
    if pid != PID_NONE && 0 <= prio < NUM_PRIORITIES {
      pq.Remove(prio, pid);
    }
  }

  method ChangeProcessPriority(pq: ListArray<int>, pid: int, from: int, to: int) returns (moved: bool)
    requires pq.Valid() && 0 <= from < |pq.lists| && 0 <= to < |pq.lists|
    requires from != to && |pq.Contents()[to]| < pq.capacity
    modifies pq.Repr
    ensures pq.Valid() && pq.Contents() == ChangePriority(old(pq.Contents()), pid, from, to)
    ensures moved <==> pid in old(pq.Contents())[from]
    ensures moved ==> pq.Contents()[to] == old(pq.Contents())[to] + [pid]
    ensures moved ==> pq.Contents()[from] == Without(old(pq.Contents())[from], pid)
    ensures forall i :: 0 <= i < |pq.lists| && (!moved || (i != from && i != to)) ==>
              pq.Contents()[i] == old(pq.Contents())[i]
  {
    var origSize := pq.lists[from].size;
    WithoutMembers(pq.Contents()[from], pid);
    WithoutAbsentIff(pq.Contents()[from], pid);
    pq.Remove(from, pid);
    if pq.lists[from].size == origSize {
      return false;
    }
    pq.PushBack(to, pid);
    return true;
  }

  lemma WithoutAbsentIff(s: seq<int>, v: int)
    ensures v !in s ==> Without(s, v) == s
  {
    if v !in s {
      WithoutAbsent(s, v);
    }
  }

  /** clear_queue. */
  method ClearQueue(pq: ListArray<int>)
    requires pq.Valid()
    modifies pq.Repr
    ensures pq.Valid() && |pq.Contents()| == |old(pq.Contents())|
    ensures forall i :: 0 <= i < |pq.Contents()| ==> pq.Contents()[i] == []
  {
    for i := 0 to |pq.lists|
      invariant pq.Valid()
      invariant forall j :: 0 <= j < i ==> pq.Contents()[j] == []
    {
      pq.Clear(i);
    }
  }

  /** The inner loop of copy_queue. */
  method CopyList(from: ListArray<int>, to: ListArray<int>, i: nat)
    requires from.Valid() && to.Valid() && from.Repr !! to.Repr
    requires i < |from.lists| == |to.lists|
    requires |to.Contents()[i]| + |from.Contents()[i]| <= to.capacity
    modifies to.Repr
    ensures to.Valid() && to.Contents() == old(to.Contents())[i := old(to.Contents())[i] + from.Contents()[i]]
  {
    ghost var source := from.lists[i].Contents();
    var k := 0;
    while k != from.lists[i].size
      invariant 0 <= k <= |source| && from.Valid() && to.Valid()
      invariant forall j :: 0 <= j < |to.lists| ==>
                              to.Contents()[j] == if j == i
                                    then old(to.Contents())[i] + source[..k] else old(to.Contents())[j]
      decreases |source| - k
    {
      var elt := from.lists[i].At(k);
      to.PushBack(i, elt);
      k := k + 1;
    }
    assert source[..k] == source;
  }

  /** copy_queue: everything in `from` goes behind what `to` holds, list by list, and `from` is emptied. */
  method CopyQueue(from: ListArray<int>, to: ListArray<int>)
    requires from.Valid() && to.Valid() && from.Repr !! to.Repr
    requires |from.lists| == |to.lists|
    requires forall i :: 0 <= i < |to.lists| ==> |to.Contents()[i]| + |from.Contents()[i]| <= to.capacity
    modifies from.Repr, to.Repr
    ensures from.Valid() && to.Valid()
    ensures to.Contents() == Append(old(to.Contents()), old(from.Contents()))
    ensures forall i :: 0 <= i < |to.lists| ==> to.Contents()[i] == old(to.Contents())[i] + old(from.Contents())[i]
    ensures forall i :: 0 <= i < |from.lists| ==> from.Contents()[i] == []
  {
    ghost var F, T := from.Contents(), to.Contents();
    for i := 0 to |from.lists|
      invariant from.Valid() && to.Valid() && from.Contents() == F
      invariant forall j :: 0 <= j < |F| ==> to.Contents()[j] == if j < i then T[j] + F[j] else T[j]
    {
      CopyList(from, to, i);
    }
    ClearQueue(from);
  }

  // ----- Why they are right -----

  /** Exactly the processes in `members` are queued, each once, in the list its current priority names. */
  ghost predicate Coherent(q: seq<seq<int>>, members: set<int>, proc: seq<Pcb>) {
    && |q| == NUM_PRIORITIES && |proc| == NUM_PROCS
    && (forall p :: p in members ==> 0 <= p < NUM_PROCS && 0 <= proc[p].priority < NUM_PRIORITIES)
    && (forall i, p :: 0 <= i < |q| ==> (p in q[i] <==> p in members && proc[p].priority == i))
    && (forall i :: 0 <= i < |q| ==> NoDup(q[i]))
  }

  lemma CapacityLeft(q: seq<seq<int>>, members: set<int>, proc: seq<Pcb>, absent: int)
    requires Coherent(q, members, proc)
    requires 0 <= absent < NUM_PROCS && absent !in members
    ensures forall i :: 0 <= i < |q| ==> |q[i]| < NUM_PROCS
  {
    forall i | 0 <= i < |q| ensures |q[i]| < NUM_PROCS {
      assert forall x :: x in q[i] ==> x in members;
      Pigeonhole(q[i], NUM_PROCS, absent);
    }
  }

  lemma PushCoherent(q: seq<seq<int>>, members: set<int>, proc: seq<Pcb>, pid: int)
    requires Coherent(q, members, proc)
    requires 0 <= pid < NUM_PROCS && pid !in members && 0 <= proc[pid].priority < NUM_PRIORITIES
    ensures Coherent(Push(q, pid, proc[pid].priority), members + {pid}, proc)
    ensures |q[proc[pid].priority]| < NUM_PROCS
  {
    CapacityLeft(q, members, proc, pid);
  }

  /** Only priorities matter: the state part of a PCB may change under a coherent queue. */
  lemma SamePriorities(q: seq<seq<int>>, members: set<int>, proc: seq<Pcb>, proc': seq<Pcb>)
    requires Coherent(q, members, proc) && |proc'| == |proc|
    requires forall p :: 0 <= p < |proc| ==> proc'[p].priority == proc[p].priority
    ensures Coherent(q, members, proc')
  {
  }

  lemma ChangeCoherent(q: seq<seq<int>>, members: set<int>, proc: seq<Pcb>, pid: int, priority: int)
    requires Coherent(q, members, proc)
    requires 0 <= pid < NUM_PROCS && 0 <= proc[pid].priority < NUM_PRIORITIES
    requires 0 <= priority < NUM_PRIORITIES && priority != proc[pid].priority
    ensures Coherent(ChangePriority(q, pid, proc[pid].priority, priority), members,
              proc[pid := proc[pid].(priority := priority)])
    ensures |q[priority]| < NUM_PROCS
  {
    var from := proc[pid].priority;
    WithoutMembers(q[from], pid);
    WithoutNoDup(q[from], pid);
    assert forall x :: x in q[priority] ==> x in members;
    Pigeonhole(q[priority], NUM_PROCS, pid);
  }

  lemma AppendCoherent(to: seq<seq<int>>, mto: set<int>, from: seq<seq<int>>, mfrom: set<int>, proc: seq<Pcb>)
    requires Coherent(to, mto, proc) && Coherent(from, mfrom, proc) && mto !! mfrom
    ensures Coherent(Append(to, from), mto + mfrom, proc)
    ensures forall i :: 0 <= i < |to| ==> |to[i]| + |from[i]| <= NUM_PROCS
  {
    var q := Append(to, from);
    forall i | 0 <= i < |to| ensures NoDup(q[i]) && |q[i]| <= NUM_PROCS {
      assert forall x :: x in to[i] ==> x in mto;
      assert forall x :: x in from[i] ==> x in mfrom;
      NoDupConcat(to[i], from[i]);
      NoDupBound(q[i], Below(NUM_PROCS));
    }
    assert forall i :: 0 <= i < |to| ==> |q[i]| == |to[i]| + |from[i]|;
  }

  lemma {:induction false} FirstJumperFacts(s: seq<int>)
    ensures FirstJumper(s) == PID_NONE <==> forall x :: x in s ==> !Jumps(x)
    ensures FirstJumper(s) != PID_NONE ==>
              exists k :: 0 <= k < |s| && s[k] == FirstJumper(s) && forall j :: 0 <= j < k ==> !Jumps(s[j])
    ensures FirstJumper(s) != PID_NONE ==> Jumps(FirstJumper(s))
  {
    if s != [] {
      FirstJumperFacts(s[1..]);
      assert s == [s[0]] + s[1..];
      if !Jumps(s[0]) && FirstJumper(s) != PID_NONE {
        var k :| 0 <= k < |s[1..]| && s[1..][k] == FirstJumper(s[1..]) && forall j :: 0 <= j < k ==> !Jumps(s[1..][j]);
        assert s[k + 1] == FirstJumper(s);
        assert forall j :: 0 < j < k + 1 ==> s[j] == s[1..][j - 1];
      }
    }
  }

  /**
   peek_front serves a queued process of least urgency value, and reports that value. In its list at position `k`
   it has only less urgent processes before it.
   */
  lemma PeekServesMostUrgent(q: seq<seq<int>>, members: set<int>, proc: seq<Pcb>) returns (k: nat)
    requires Coherent(q, members, proc)
    ensures members == {} ==> Peek(q, proc) == (PID_NONE, NUM_PRIORITIES)
    ensures members != {} ==>
              var (pid, prio) := Peek(q, proc);
              && pid in members && prio == Urgency(proc, pid)
              && (forall r :: r in members ==> prio <= Urgency(proc, r))
              && var list := q[proc[pid].priority];
              && k < |list| && list[k] == pid
              && (forall j :: 0 <= j < k ==> prio < Urgency(proc, list[j]))
  {
    k := 0;
    var top := q[HIGHEST];
    FirstJumperFacts(top);
    if FirstJumper(top) != PID_NONE {
      k :| 0 <= k < |top| && top[k] == FirstJumper(top) && forall j :: 0 <= j < k ==> !Jumps(top[j]);
      forall j | 0 <= j < k ensures -1 < Urgency(proc, top[j]) {
        assert top[j] in top;
      }
    } else {
      var i := FirstNonEmpty(q, 0);
      forall r | r in members ensures i <= proc[r].priority && Urgency(proc, r) == proc[r].priority {
        assert r in q[proc[r].priority];
      }
      if i < |q| {
        assert q[i][0] in q[i];
      } else {
        assert forall r :: r !in members;
      }
    }
  }

  /** pop_first_process takes out exactly the pid peek_front reports; every other element stays in order. */
  lemma PopTakesThePeeked(q: seq<seq<int>>, members: set<int>, proc: seq<Pcb>)
    requires Coherent(q, members, proc) && members != {}
    ensures var pid, q' := Peek(q, proc).0, PopFirst(q, proc);
            && pid in members
            && Coherent(q', members - {pid}, proc)
            && (forall i :: 0 <= i < |q| && i != proc[pid].priority ==> q'[i] == q[i])
            && exists a, b :: q[proc[pid].priority] == a + [pid] + b && q'[proc[pid].priority] == a + b
  {
    var k := PeekServesMostUrgent(q, members, proc);
    var pid := Peek(q, proc).0;
    var level := proc[pid].priority;
    var a, b := q[level][..k], q[level][k + 1..];
    assert q[level] == a + [pid] + b;
    PopIsWithout(q, members, proc, pid);
    NotTwice(a, pid, b);
    WithoutOnce(a, pid, b);
    DeleteCoherent(q, members, proc, pid);
  }

  lemma PopIsWithout(q: seq<seq<int>>, members: set<int>, proc: seq<Pcb>, pid: int)
    requires Coherent(q, members, proc) && pid in members && pid == Peek(q, proc).0
    ensures PopFirst(q, proc) == q[proc[pid].priority := Without(q[proc[pid].priority], pid)]
  {
    var k := PeekServesMostUrgent(q, members, proc);
  }

  lemma DeleteCoherent(q: seq<seq<int>>, members: set<int>, proc: seq<Pcb>, pid: int)
    requires Coherent(q, members, proc) && pid in members
    ensures Coherent(q[proc[pid].priority := Without(q[proc[pid].priority], pid)], members - {pid}, proc)
  {
    WithoutMembers(q[proc[pid].priority], pid);
    WithoutNoDup(q[proc[pid].priority], pid);
  }
}
