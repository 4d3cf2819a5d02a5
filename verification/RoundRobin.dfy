/** How processes of equal priority take turns: in FIFO order, but for KCD and CRT at HIGHEST. */
module RoundRobin {
  import opened Constants
  import opened Sequences
  import opened PriorityQueues
  import opened KernelState
  import opened Scheduling
  import opened Turns

  /** KCD and CRT, at HIGHEST, neither run nor are ready; they would jump the queue. */
  ghost predicate NoJumper(k: State) {
    forall p :: 0 <= p < |k.proc| && Jumps(p) && k.proc[p].priority == HIGHEST ==>
      p != k.running && p !in ReadySet(k.proc)
  }

  /** The running process followed by the ready ones of its priority, first in line first. */
  function Ring(k: State): seq<int>
    requires Shape(k) && k.running != PID_NONE
  {
    [k.running] + k.ready[k.proc[k.running].priority]
  }

  /** The state after `n` successive calls of release_processor, whoever makes them. */
  function Releases(k: State, n: nat): (k': State)
    requires Shape(k)
    ensures Shape(k')
  {
    if n == 0 then k else ReleaseProcessor(Releases(k, n - 1))
  }

  ghost predicate TakingTurns(k: State) {
    Inv(k) && Safe(k) && NoJumper(k)
  }

  lemma WithoutOnceAtFront(s: seq<int>)
    requires NoDup(s) && s != []
    ensures Without(s, s[0]) == s[1..]
  {
    assert s == [] + [s[0]] + s[1..];
    WithoutOnce([], s[0], s[1..]);
    assert [] + s[1..] == s[1..];
  }

  /** Without KCD and CRT in the way, the first of the best non-empty list is served. */
  lemma PeekAtLevel(k: State, level: int)
    requires TakingTurns(k) && level == k.proc[k.running].priority && k.ready[level] != []
    ensures Peek(k.ready, k.proc) == (k.ready[level][0], level)
  {
    FirstJumperFacts(k.ready[HIGHEST]);
    forall x | x in k.ready[HIGHEST] ensures !Jumps(x) {
      assert x in ReadySet(k.proc);
    }
    var best := FirstNonEmpty(k.ready, 0);
    assert k.ready[best][0] in k.ready[best];
    assert k.ready[best][0] in ReadySet(k.proc);
    assert k.ready[level][0] in k.ready[level];
  }

  lemma AloneKeeps(k: State)
    requires TakingTurns(k) && k.ready[k.proc[k.running].priority] == []
    ensures ReleaseProcessor(k) == k
  {
    var R, level := ReadySet(k.proc), k.proc[k.running].priority;
    var at := PeekServesMostUrgent(k.ready, R, k.proc);
    ReleaseDispatches(k);
    if R != {} {
      var p := Peek(k.ready, k.proc).0;
      assert p in k.ready[k.proc[p].priority];
      assert Urgency(k.proc, p) == k.proc[p].priority;
    }
  }

  lemma NextInLine(k: State, level: int)
    requires TakingTurns(k) && level == k.proc[k.running].priority && k.ready[level] != []
    ensures var first := k.ready[level][0];
            && 0 <= first < NUM_PROCS && first in ReadySet(k.proc) && k.proc[first].priority == level
            && !KeepsRunning(k) && ReleaseProcessor(k) == Dispatched(k, first)
            && Dispatched(k, first).ready[level] == k.ready[level][1..] + [k.running]
  {
    var first := k.ready[level][0];
    assert first in k.ready[level];
    PeekAtLevel(k, level);
    ReleaseDispatches(k);
    WithoutOnceAtFront(k.ready[level]);
  }

  lemma NoJumperStays(k: State, k': State)
    requires NoJumper(k) && |k'.proc| == |k.proc| && k'.running in ReadySet(k.proc)
    requires forall p :: 0 <= p < |k.proc| ==> k'.proc[p].priority == k.proc[p].priority
    requires ReadySet(k'.proc) <= ReadySet(k.proc) + {k.running}
    ensures NoJumper(k')
  {
  }

  /** One call moves the head of the line onto the processor and its predecessor to the end. */
  lemma ReleaseRotates(k: State)
    requires TakingTurns(k)
    ensures var k' := ReleaseProcessor(k); TakingTurns(k') && Ring(k') == Ring(k)[1..] + [k.running]
  {
    var level := k.proc[k.running].priority;
    if k.ready[level] == [] {
      AloneKeeps(k);
    } else {
      NextInLine(k, level);
      ReleaseKeepsInvariant(k, ReleaseProcessor(k));
      DispatchKeepsInvariant(k);
      NoJumperStays(k, ReleaseProcessor(k));
    }
  }

  /** Any number of calls up to a full round rotates the line by that many places. */
  lemma {:induction false} ReleasesRotate(k: State, n: nat)
    requires TakingTurns(k) && n <= |Ring(k)|
    ensures TakingTurns(Releases(k, n))
    ensures Ring(Releases(k, n)) == Ring(k)[n..] + Ring(k)[..n]
  {
    if n > 0 {
      ReleasesRotate(k, n - 1);
      ReleaseRotates(Releases(k, n - 1));
      RotateOnce(Ring(k), n);
    }
  }

  lemma RotateOnce(s: seq<int>, n: nat)
    requires 0 < n <= |s|
    ensures var r := s[n - 1..] + s[..n - 1]; r[1..] + [r[0]] == s[n..] + s[..n]
  {
    assert s[..n] == s[..n - 1] + [s[n - 1]];
  }

  /** After a full round the same process runs and the line is the same. */
  lemma FullRound(k: State)
    requires TakingTurns(k)
    ensures TakingTurns(Releases(k, |Ring(k)|)) && Ring(Releases(k, |Ring(k)|)) == Ring(k)
  {
    ReleasesRotate(k, |Ring(k)|);
    RotateFully(Ring(k));
  }

  lemma RotateFully(s: seq<int>)
    ensures s[|s|..] + s[..|s|] == s
  {
  }

  lemma TurnAt(k: State, n: nat)
    requires TakingTurns(k) && n < |Ring(k)|
    ensures Releases(k, n).running == Ring(k)[n]
  {
    ReleasesRotate(k, n);
    assert Ring(Releases(k, n))[0] == Ring(k)[n];
  }

  lemma RingNoDup(k: State)
    requires Inv(k)
    ensures NoDup(Ring(k))
  {
    assert k.running !in ReadySet(k.proc);
    NoDupConcat([k.running], k.ready[k.proc[k.running].priority]);
  }

  lemma RingPositions(k: State, i: nat, j: nat)
    requires Inv(k) && i < |Ring(k)| && j < |Ring(k)|
    ensures Ring(k)[i] == Ring(k)[j] <==> i == j
  {
    RingNoDup(k);
  }

  /**
   Bounded waiting: the process at index `i` of the ready list at running's priority runs after exactly i+1 calls of
   release_processor, and not after any smaller number `n` of them.
   */
  lemma BoundedWaiting(k: State, i: nat, n: nat)
    requires TakingTurns(k) && i < |k.ready[k.proc[k.running].priority]| && n <= i + 1
    ensures Releases(k, n).running == k.ready[k.proc[k.running].priority][i] <==> n == i + 1
  {
    TurnAt(k, n);
    RingPositions(k, n, i + 1);
  }

  // ----- Turns at HIGHEST, with KCD and CRT among those who take them -----

  lemma Served(q: seq<seq<int>>, proc: seq<Pcb>, a: seq<int>, next: int, b: seq<int>)
    requires |q| == NUM_PRIORITIES && q[HIGHEST] == a + [next] + b && IsServed(a, next, b)
    requires NoDup(q[HIGHEST]) && PriorityOf(proc, next) == HIGHEST
    ensures Peek(q, proc) == (next, if Jumps(next) then -1 else HIGHEST)
    ensures PopFirst(q, proc)[HIGHEST] == a + b
  {
    FirstIsAt(q[HIGHEST]);
    if Jumps(next) {
      JumperIs(a, next, b);
    } else {
      FirstJumperFacts(q[HIGHEST]);
    }
    NotTwice(a, next, b);
    WithoutOnce(a, next, b);
  }

  lemma InLine(k: State, x: int)
    requires Coherence(k) && x in k.ready[HIGHEST]
    ensures PriorityOf(k.proc, x) == HIGHEST && x in ReadySet(k.proc)
  {
  }

  /** k_release_processor hands over to the one served. */
  lemma HandsOver(k: State, a: seq<int>, next: int, b: seq<int>, k': State)
    requires Handover(k) && k.ready[HIGHEST] == a + [next] + b && IsServed(a, next, b) && k' == ReleaseProcessor(k)
    ensures k'.running == next && !KeepsRunning(k)
    ensures k'.ready[HIGHEST] == a + b +
            (if !IsBlocked(k.proc[k.running].state) && k.proc[k.running].priority == HIGHEST then [k.running] else [])
  {
    assert (a + [next] + b)[|a|] == next;
    InLine(k, next);
    Served(k.ready, k.proc, a, next, b);
    ReleaseDispatches(k);
    assert a + b + [] == a + b;
  }

  /** The best possible process runs, at HIGHEST. */
  ghost predicate AtTop(k: State) {
    Inv(k) && Safe(k) && k.proc[k.running].priority == HIGHEST
  }

  lemma LastAtTop(k: State)
    requires AtTop(k) && k.ready[HIGHEST] == []
    ensures ReleaseProcessor(k) == k
  {
    var at := PeekServesMostUrgent(k.ready, ReadySet(k.proc), k.proc);
    ReleaseDispatches(k);
    if ReadySet(k.proc) != {} {
      var p := Peek(k.ready, k.proc).0;
      assert p in k.ready[k.proc[p].priority];
    }
  }

  /** One call turns the ring. */
  lemma ReleaseAtTop(k: State)
    requires AtTop(k)
    ensures AtTop(ReleaseProcessor(k)) && Ring(ReleaseProcessor(k)) == NextRing(Ring(k))
  {
    var line, k' := k.ready[HIGHEST], ReleaseProcessor(k);
    assert Ring(k)[1..] == line;
    if line == [] {
      LastAtTop(k);
    } else {
      var at := ServedAt(line);
      SplitLine(line, at, line[..at], line[at + 1..]);
      HandsOver(k, line[..at], line[at], line[at + 1..], k');
      ReleaseKeepsInvariant(k, k');
      DispatchKeepsInvariant(k);
      assert line[at] in line;
    }
  }

  ghost predicate CallsAt(ks: seq<State>, n: nat) {
    n + 1 < |ks| && Shape(ks[n]) && ks[n + 1] == ReleaseProcessor(ks[n])
  }

  /** Each state is what release_processor makes of the one before. */
  ghost predicate Calling(ks: seq<State>) {
    forall n: nat :: n + 1 < |ks| ==> CallsAt(ks, n)
  }

  lemma {:induction false} StaysAtTop(ks: seq<State>, n: nat)
    requires Calling(ks) && n < |ks| && AtTop(ks[0])
    ensures AtTop(ks[n])
  {
    if n > 0 {
      StaysAtTop(ks, n - 1);
      assert CallsAt(ks, n - 1);
      ReleaseAtTop(ks[n - 1]);
    }
  }

  lemma FrontRuns(k: State)
    requires Shape(k) && k.running != PID_NONE
    ensures |Ring(k)| > 0 && Ring(k)[0] == k.running
  {
  }

  lemma RingsTurn(ks: seq<State>, rings: seq<seq<int>>)
    requires Calling(ks) && |rings| == |ks| && forall n: nat :: n < |ks| ==> AtTop(ks[n]) && rings[n] == Ring(ks[n])
    ensures Turning(rings)
  {
    forall n: nat | n + 1 < |rings| ensures TurnsAt(rings, n) {
      assert CallsAt(ks, n) && AtTop(ks[n]);
      ReleaseAtTop(ks[n]);
    }
  }

  lemma RingsOf(ks: seq<State>) returns (rings: seq<seq<int>>)
    requires Calling(ks) && ks != [] && AtTop(ks[0])
    ensures |rings| == |ks| && Turning(rings) && rings[0] == Ring(ks[0])
    ensures forall n: nat :: n < |ks| ==> |rings[n]| > 0 && rings[n][0] == ks[n].running
  {
    forall n: nat | n < |ks| ensures AtTop(ks[n]) {
      StaysAtTop(ks, n);
    }
    rings := seq(|ks|, n requires 0 <= n < |ks| => Ring(ks[n]));
    RingsTurn(ks, rings);
    forall n: nat | n < |ks| ensures |rings[n]| > 0 && rings[n][0] == ks[n].running {
      FrontRuns(ks[n]);
    }
  }

  lemma TurnsCome(ks: seq<State>, line: seq<int>, i: nat, n: nat)
    requires Calling(ks) && 0 < n < |ks| && AtTop(ks[0]) && line == ks[0].ready[HIGHEST] && i < |line|
    requires n == CallsUntil(ks[0].running, line, i) && !NoneJumps(Ring(ks[0]))
    ensures forall c: nat :: c <= n ==> (ks[c].running == line[i] <==> c == n)
  {
    var rings := RingsOf(ks);
    RingNoDup(ks[0]);
    CallsAreRight(rings, ks[0].running, line, i, n);
    assert forall c: nat :: c <= n ==> (rings[c][0] == line[i] <==> c == n);
  }

  lemma TurnNeverComes(ks: seq<State>, line: seq<int>, i: nat, n: nat)
    requires Calling(ks) && n < |ks| && AtTop(ks[0]) && line == ks[0].ready[HIGHEST] && i < |line|
    requires CallsUntil(ks[0].running, line, i) == 0
    ensures ks[n].running != line[i]
  {
    var rings := RingsOf(ks);
    RingNoDup(ks[0]);
    BothAreThere(ks[0].running, line, i);
    FrontNoDup(ks[0].running, line);
    assert line[i] in line;
    TwoJumpers(rings, n);
    assert rings[n][0] == ks[n].running;
  }

  // ----- How long a process waits for its turn -----

  /** Of successive calls of release_processor it is the `n`th that first gives `p` the processor. */
  ghost predicate RunsFirstAfter(k: State, p: int, n: nat)
    requires Shape(k)
  {
    Releases(k, n).running == p && forall c: nat :: c < n ==> Releases(k, c).running != p
  }

  ghost predicate NeverRuns(k: State, p: int)
    requires Shape(k)
  {
    forall c: nat :: Releases(k, c).running != p
  }

  lemma NextRelease(k: State, n: nat)
    requires Shape(k)
    ensures Releases(k, n + 1) == ReleaseProcessor(Releases(k, n))
  {
  }

  /** The states of `n` calls. */
  lemma StatesOf(k: State, n: nat) returns (ks: seq<State>)
    requires Shape(k)
    ensures |ks| == n + 1 && ks[0] == k && Calling(ks)
    ensures forall c: nat :: c <= n ==> ks[c] == Releases(k, c)
  {
    ks := seq(n + 1, c requires 0 <= c <= n => Releases(k, c));
    forall c: nat | c + 1 < |ks| ensures CallsAt(ks, c) {
      NextRelease(k, c);
    }
  }

  lemma WithoutJumpers(k: State, i: nat)
    requires Inv(k) && Safe(k) && NoJumper(k) && i < |k.ready[k.proc[k.running].priority]|
    ensures RunsFirstAfter(k, k.ready[k.proc[k.running].priority][i], i + 1)
  {
    forall n: nat | n <= i + 1
      ensures Releases(k, n).running == k.ready[k.proc[k.running].priority][i] <==> n == i + 1
    {
      BoundedWaiting(k, i, n);
    }
  }

  lemma NobodyJumps(k: State)
    requires Inv(k) && Safe(k) && (k.proc[k.running].priority == HIGHEST ==> NoneJumps(Ring(k)))
    ensures NoJumper(k)
  {
    if k.proc[k.running].priority == HIGHEST {
      assert k.running in Ring(k);
      assert forall p :: p in k.ready[HIGHEST] ==> p in Ring(k);
    }
  }

  lemma TurnsComeAtTop(k: State, line: seq<int>, i: nat)
    requires AtTop(k) && line == k.ready[HIGHEST] && i < |line| && !NoneJumps(Ring(k))
    ensures var n := CallsUntil(k.running, line, i);
            if n > 0 then RunsFirstAfter(k, line[i], n) else NeverRuns(k, line[i])
  {
    var n := CallsUntil(k.running, line, i);
    if n > 0 {
      var ks := StatesOf(k, n);
      TurnsCome(ks, line, i, n);
    } else {
      forall c: nat ensures Releases(k, c).running != line[i] {
        var ks := StatesOf(k, c);
        TurnNeverComes(ks, line, i, c);
      }
    }
  }

  /**
   How long a process waits, in all cases: of the processes ready at running's priority, the one at index `i` first runs
   after the (i+1)st call of release_processor; at HIGHEST after that many calls as `CallsUntil` counts, or never.
   */
  lemma WaitingTime(k: State, i: nat)
    requires Inv(k) && Safe(k) && i < |k.ready[k.proc[k.running].priority]|
    ensures var level := k.proc[k.running].priority;
            var p := k.ready[level][i];
            var n := if level == HIGHEST then CallsUntil(k.running, k.ready[level], i) else i + 1;
            if n > 0 then RunsFirstAfter(k, p, n) else NeverRuns(k, p)
  {
    var level := k.proc[k.running].priority;
    if level == HIGHEST && !NoneJumps(Ring(k)) {
      TurnsComeAtTop(k, k.ready[level], i);
    } else {
      NobodyJumps(k);
      WithoutJumpers(k, i);
      if level == HIGHEST {
        JumperFound(k.ready[level]);
        assert k.running in Ring(k);
        assert forall p :: p in k.ready[level] ==> p in Ring(k);
      }
    }
  }

  /** FIFO order, exactly: the process at index `i` first runs after the (i+1)st call if and only if it is `InTurn`. */
  lemma FifoExactly(k: State, i: nat)
    requires Inv(k) && Safe(k) && i < |k.ready[k.proc[k.running].priority]|
    ensures var level := k.proc[k.running].priority;
            RunsFirstAfter(k, k.ready[level][i], i + 1) <==>
            level != HIGHEST || InTurn(k.running, k.ready[level], i)
  {
    WaitingTime(k, i);
    RingNoDup(k);
    InTurnCalls(k.running, k.ready[k.proc[k.running].priority], i);
  }
}
