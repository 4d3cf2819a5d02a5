/**
 Turns in the HIGHEST list, as far as they are a matter of lists of pids: how the processes of that priority follow each
 other when each calls release_processor, and when the turn of one of them comes.
 */
module Turns {
  import opened Constants
  import opened Sequences
  import opened PriorityQueues

  // ----- Who is served -----

  /** Where the first of KCD and CRT stands in `s`; past the end if neither does. */
  function JumperAt(s: seq<int>): (m: nat)
    ensures m <= |s|
  {
    if s == [] || Jumps(s[0]) then 0 else 1 + JumperAt(s[1..])
  }

  ghost predicate NoneJumps(s: seq<int>) {
    forall x :: x in s ==> !Jumps(x)
  }

  lemma {:induction false} JumperFound(s: seq<int>)
    ensures NoneJumps(s[..JumperAt(s)]) && forall x :: 0 <= x < JumperAt(s) ==> !Jumps(s[x])
    ensures JumperAt(s) < |s| ==> Jumps(s[JumperAt(s)])
    ensures NoneJumps(s) <==> JumperAt(s) == |s|
  {
    if s != [] {
      assert s == [s[0]] + s[1..];
      JumperFound(s[1..]);
      assert !Jumps(s[0]) ==> s[..JumperAt(s)] == [s[0]] + s[1..][..JumperAt(s[1..])];
      assert forall x :: 0 < x < JumperAt(s) ==> s[x] == s[1..][x - 1];
    }
  }

  /** The one that peek_front finds. */
  lemma {:induction false} FirstIsAt(s: seq<int>)
    ensures FirstJumper(s) == if JumperAt(s) < |s| then s[JumperAt(s)] else PID_NONE
  {
    if s != [] {
      FirstIsAt(s[1..]);
    }
  }

  lemma {:induction false} JumperIs(a: seq<int>, j: int, b: seq<int>)
    requires NoneJumps(a) && Jumps(j)
    ensures JumperAt(a + [j] + b) == |a|
  {
    if a != [] {
      assert (a + [j] + b)[1..] == a[1..] + [j] + b;
      JumperIs(a[1..], j, b);
    }
  }

  /** peek_front serves `next` from the HIGHEST list `a + [next] + b`. */
  ghost predicate IsServed(a: seq<int>, next: int, b: seq<int>) {
    NoneJumps(a) && (Jumps(next) || (a == [] && NoneJumps(b)))
  }

  /** Whom the next call serves from `line`. */
  function ServedAt(line: seq<int>): (at: nat)
    requires line != []
    ensures at < |line|
  {
    if JumperAt(line) < |line| then JumperAt(line) else 0
  }

  lemma SplitLine(line: seq<int>, at: nat, a: seq<int>, b: seq<int>)
    requires line != [] && at == ServedAt(line) && a == line[..at] && b == line[at + 1..]
    ensures line == a + [line[at]] + b && IsServed(a, line[at], b)
  {
    JumperFound(line);
    assert forall x :: x in b ==> x in line;
  }

  // ----- One turn -----

  /** The running process and those in line behind it, after one call. */
  function NextRing(ring: seq<int>): (ring': seq<int>)
    ensures |ring'| == |ring|
  {
    if |ring| <= 1 then ring
    else
      var line := ring[1..];
      var at := ServedAt(line);
      [line[at]] + (line[..at] + line[at + 1..] + [ring[0]])
  }

  /** The one jumper runs: the first in line gets the processor for one call. */
  lemma JumperYields(j: int, line: seq<int>)
    requires NoneJumps(line) && line != []
    ensures NextRing([j] + line) == [line[0]] + (line[1..] + [j])
  {
    assert ([j] + line)[1..] == line;
    JumperFound(line);
    assert line[..0] + line[1..] == line[1..];
  }

  lemma JumperReturns(x: int, line: seq<int>, j: int)
    requires NoneJumps(line) && Jumps(j)
    ensures NextRing([x] + (line + [j])) == [j] + (line + [x])
  {
    var rest := line + [j];
    assert ([x] + rest)[1..] == rest && rest == line + [j] + [];
    JumperIs(line, j, []);
    assert rest[..|line|] + rest[|line| + 1..] == line;
  }

  lemma RotateLine(line: seq<int>, n: nat)
    requires n < |line|
    ensures var r := line[n..] + line[..n];
            && r != [] && r[0] == line[n] && r[1..] + [r[0]] == line[n + 1..] + line[..n + 1]
            && forall x :: x in r <==> x in line
  {
    var r := line[n..] + line[..n];
    assert line[..n + 1] == line[..n] + [line[n]];
    assert r[1..] == line[n + 1..] + line[..n];
    assert line == line[..n] + line[n..];
  }

  lemma NextRingMembers(ring: seq<int>, ring': seq<int>)
    requires ring' == NextRing(ring)
    ensures forall x :: x in ring' <==> x in ring
  {
    if |ring| > 1 {
      var line, at := ring[1..], ServedAt(ring[1..]);
      assert ring == [ring[0]] + line;
      assert line == line[..at] + [line[at]] + line[at + 1..];
    }
  }

  // ----- Successive turns -----

  /** Ring number `n + 1` is what one call makes of ring number `n`. */
  ghost predicate TurnsAt(rings: seq<seq<int>>, n: nat) {
    n + 1 < |rings| && rings[n + 1] == NextRing(rings[n])
  }

  ghost predicate Turning(rings: seq<seq<int>>) {
    forall n: nat :: n + 1 < |rings| ==> TurnsAt(rings, n)
  }

  lemma YieldsAt(rings: seq<seq<int>>, m: nat, j: int, line: seq<int>)
    requires Turning(rings) && m + 1 < |rings| && rings[m] == [j] + line && NoneJumps(line) && line != []
    ensures rings[m + 1] == [line[0]] + (line[1..] + [j])
  {
    assert TurnsAt(rings, m);
    JumperYields(j, line);
  }

  lemma ReturnsAt(rings: seq<seq<int>>, m: nat, x: int, line: seq<int>, j: int)
    requires Turning(rings) && m + 1 < |rings| && rings[m] == [x] + (line + [j]) && NoneJumps(line) && Jumps(j)
    ensures rings[m + 1] == [j] + (line + [x])
  {
    assert TurnsAt(rings, m);
    JumperReturns(x, line, j);
  }

  lemma PairAt(rings: seq<seq<int>>, m: nat, j: int, line: seq<int>)
    requires Turning(rings) && m + 2 < |rings| && rings[m] == [j] + line
    requires Jumps(j) && NoneJumps(line) && line != []
    ensures rings[m + 2] == [j] + (line[1..] + [line[0]])
  {
    YieldsAt(rings, m, j, line);
    ReturnsAt(rings, m + 1, line[0], line[1..], j);
  }

  /** From a turn on which the one jumper runs, it runs on every second, and the others in between, in order. */
  lemma {:induction false} OneJumper(rings: seq<seq<int>>, start: nat, j: int, line: seq<int>, n: nat)
    requires Turning(rings) && start + 2 * n < |rings| && rings[start] == [j] + line
    requires Jumps(j) && NoneJumps(line) && n <= |line|
    ensures rings[start + 2 * n] == [j] + (line[n..] + line[..n])
  {
    if n > 0 {
      OneJumper(rings, start, j, line, n - 1);
      RotateLine(line, n - 1);
      PairAt(rings, start + 2 * n - 2, j, line[n - 1..] + line[..n - 1]);
    } else {
      assert line[0..] + line[..0] == line;
    }
  }

  /** The first jumper in line is served next, and the running process goes to the end. */
  lemma FirstTurn(rings: seq<seq<int>>, n: nat, run: int, a: seq<int>, j: int, b: seq<int>)
    requires Turning(rings) && n + 1 < |rings| && rings[n] == [run] + (a + [j] + b) && NoneJumps(a) && Jumps(j)
    ensures rings[n + 1] == [j] + (a + b + [run])
  {
    var line := a + [j] + b;
    assert TurnsAt(rings, n);
    assert ([run] + line)[1..] == line && line[..|a|] == a && line[|a| + 1..] == b;
    JumperIs(a, j, b);
  }

  /** With both, only these two ever run again. */
  lemma {:induction false} TwoJumpers(rings: seq<seq<int>>, n: nat)
    requires Turning(rings) && n < |rings| && PID_KCD in rings[0] && PID_CRT in rings[0]
    ensures PID_KCD in rings[n] && PID_CRT in rings[n] && (n > 0 ==> Jumps(rings[n][0]))
  {
    if n > 0 {
      TwoJumpers(rings, n - 1);
      assert TurnsAt(rings, n - 1);
      TwoJumpersStay(rings[n - 1], rings[n]);
    }
  }

  lemma TwoJumpersStay(ring: seq<int>, ring': seq<int>)
    requires PID_KCD in ring && PID_CRT in ring && ring' == NextRing(ring)
    ensures PID_KCD in ring' && PID_CRT in ring' && Jumps(ring'[0])
  {
    NextRingMembers(ring, ring');
    assert ring == [ring[0]] + ring[1..];
    JumperFound(ring[1..]);
  }

  // ----- How long a process waits for its turn -----

  /** Of the rings up to number `n`, the last is the only one with `p` in front. */
  ghost predicate InFrontFirst(rings: seq<seq<int>>, p: int, n: nat) {
    n < |rings| && forall c: nat :: c <= n ==> |rings[c]| > 0 && (rings[c][0] == p <==> c == n)
  }

  /** From turn `start` on the one jumper runs on every second. */
  lemma JumperAlternates(rings: seq<seq<int>>, start: nat, j: int, line: seq<int>, i: nat)
    requires Turning(rings) && start + 2 * i + 1 < |rings| && rings[start] == [j] + line
    requires Jumps(j) && NoneJumps(line) && i < |line| && NoDup(line)
    requires forall c: nat :: c < start ==> |rings[c]| > 0 && rings[c][0] != line[i]
    ensures InFrontFirst(rings, line[i], start + 2 * i + 1)
  {
    forall c: nat | c <= start + 2 * i + 1
      ensures |rings[c]| > 0 && (rings[c][0] == line[i] <==> c == start + 2 * i + 1)
    {
      if start <= c {
        TurnOf(rings, start, j, line, i, (c - start) / 2, c);
      }
    }
  }

  lemma TurnOf(rings: seq<seq<int>>, start: nat, j: int, line: seq<int>, i: nat, half: nat, c: nat)
    requires Turning(rings) && c < |rings| && start < |rings| && rings[start] == [j] + line
    requires Jumps(j) && NoneJumps(line) && i < |line| && NoDup(line)
    requires (c == start + 2 * half || c == start + 2 * half + 1) && c <= start + 2 * i + 1
    ensures |rings[c]| > 0 && (rings[c][0] == line[i] <==> c == start + 2 * i + 1)
  {
    assert line[i] in line;
    OneJumper(rings, start, j, line, half);
    RotateLine(line, half);
    if c == start + 2 * half + 1 {
      YieldsAt(rings, start + 2 * half, j, line[half..] + line[..half]);
    }
  }

  lemma OthersNoDup(run: int, a: seq<int>, j: int, b: seq<int>)
    requires NoDup([run] + (a + [j] + b))
    ensures NoDup(a + b + [run])
  {
    var line := a + [j] + b;
    FrontNoDup(run, line);
    NotTwice(a, j, b);
    WithoutOnce(a, j, b);
    WithoutNoDup(line, j);
    WithoutMembers(line, j);
    assert forall x :: x in a + b ==> x in line && x != run;
    NoDupConcat(a + b, [run]);
  }

  /** The one jumper is ready: it runs next, and from then on takes every second turn. */
  lemma JumperWaits(rings: seq<seq<int>>, run: int, a: seq<int>, j: int, b: seq<int>, i: nat, n: nat)
    requires n == (if i < |a| then 2 * i + 2 else 2 * i) && n < |rings|
    requires Turning(rings) && rings[0] == [run] + (a + [j] + b) && NoDup(rings[0])
    requires Jumps(j) && NoneJumps(a) && NoneJumps(b) && !Jumps(run) && i <= |a| + |b| && i != |a|
    ensures InFrontFirst(rings, (a + [j] + b)[i], n)
  {
    var line, later := a + [j] + b, a + b + [run];
    var i' := if i < |a| then i else i - 1;
    FirstTurn(rings, 0, run, a, j, b);
    OthersNoDup(run, a, j, b);
    FrontNoDup(run, line);
    assert later[i'] == line[i] && line[i] in line;
    JumperAlternates(rings, 1, j, later, i');
  }

  /** The first jumper in line runs next. */
  lemma JumperIsNext(rings: seq<seq<int>>, run: int, a: seq<int>, j: int, b: seq<int>)
    requires Turning(rings) && 1 < |rings| && rings[0] == [run] + (a + [j] + b)
    requires run != j && NoneJumps(a) && Jumps(j)
    ensures InFrontFirst(rings, j, 1)
  {
    FirstTurn(rings, 0, run, a, j, b);
  }

  /** The second one runs after that. */
  lemma SecondIsNext(rings: seq<seq<int>>, run: int, a: seq<int>, j: int, b: seq<int>, l: int, c: seq<int>)
    requires Turning(rings) && 2 < |rings| && rings[0] == [run] + (a + [j] + (b + [l] + c)) && run != l && j != l
    requires Jumps(j) && NoneJumps(a) && NoneJumps(b) && Jumps(l)
    ensures InFrontFirst(rings, l, 2)
  {
    var rest := b + [l] + c;
    FirstTurn(rings, 0, run, a, j, rest);
    assert a + rest + [run] == (a + b) + [l] + (c + [run]);
    FirstTurn(rings, 1, j, a + b, l, c + [run]);
  }

  /**
   With `run` running and `line` ready at HIGHEST, the number of calls after which `line[i]` first runs; 0 if it never
   does. Without KCD and CRT that is i+1. One of them takes every second turn; both take all.
   */
  function CallsUntil(run: int, line: seq<int>, i: nat): nat
    requires i < |line|
  {
    var m := JumperAt(line);
    if m == |line| then (if Jumps(run) then 2 * i + 1 else i + 1)
    else if i == m then 1
    else if Jumps(run) || JumperAt(line[m + 1..]) < |line| - m - 1 then (if Jumps(line[i]) then 2 else 0)
    else if i < m then 2 * i + 2 else 2 * i
  }

  lemma Elsewhere(line: seq<int>, m: nat, i: nat)
    requires NoDup(line) && m < |line| && i < |line| && i != m
    ensures line[i] != line[m] && (i < m ==> line[i] in line[..m]) && (i > m ==> line[i] in line[m + 1..])
    ensures line == line[..m] + [line[m]] + line[m + 1..]
  {
    assert i > m ==> line[i] == line[m + 1..][i - m - 1];
    assert i < m ==> line[i] == line[..m][i];
  }

  lemma AtFirstJumper(line: seq<int>, i: nat) returns (a: seq<int>, j: int, b: seq<int>)
    requires i < |line| && Jumps(line[i])
    ensures line == a + [j] + b && NoneJumps(a) && Jumps(j)
    ensures if i == JumperAt(line) then line[i] == j else line[i] in b
  {
    JumperFound(line);
    assert line[i] in line;
    var m := JumperAt(line);
    a, j, b := line[..m], line[m], line[m + 1..];
    assert i > m ==> line[i] == b[i - m - 1];
  }

  /** A jumper that is not the first in line is the second. */
  lemma SecondJumper(line: seq<int>, i: nat) returns (a: seq<int>, j: int, b: seq<int>, c: seq<int>)
    requires NoDup(line) && i < |line| && Jumps(line[i]) && i != JumperAt(line)
    ensures line == a + [j] + (b + [line[i]] + c) && j != line[i]
    ensures NoneJumps(a) && NoneJumps(b) && Jumps(j)
  {
    var rest, l;
    a, j, rest := AtFirstJumper(line, i);
    NotTwice(a, j, rest);
    var i' :| 0 <= i' < |rest| && rest[i'] == line[i];
    b, l, c := AtFirstJumper(rest, i');
    assert l in rest;
  }

  lemma TheSecond(rings: seq<seq<int>>, run: int, line: seq<int>, i: nat)
    requires Turning(rings) && 2 < |rings| && rings[0] == [run] + line && NoDup(line) && run !in line
    requires i < |line| && i != JumperAt(line) && Jumps(line[i])
    ensures InFrontFirst(rings, line[i], 2)
  {
    var a, j, b, c := SecondJumper(line, i);
    assert line[i] in line;
    SecondIsNext(rings, run, a, j, b, line[i], c);
  }

  /** Counting the turns is right, whenever KCD or CRT is there. */
  lemma CallsAreRight(rings: seq<seq<int>>, run: int, line: seq<int>, i: nat, n: nat)
    requires Turning(rings) && i < |line| && rings != [] && rings[0] == [run] + line && NoDup(rings[0])
    requires n == CallsUntil(run, line, i) && 0 < n < |rings| && !NoneJumps(rings[0])
    ensures InFrontFirst(rings, line[i], n)
  {
    var m := JumperAt(line);
    JumperFound(line);
    FrontNoDup(run, line);
    assert line[i] in line;
    if m == |line| {
      JumperAlternates(rings, 0, run, line, i);
    } else if i == m {
      assert line == line[..m] + [line[m]] + line[m + 1..];
      JumperIsNext(rings, run, line[..m], line[m], line[m + 1..]);
    } else if Jumps(line[i]) {
      OnlyTwo(run, line, m, i);
      TheSecond(rings, run, line, i);
    } else {
      Elsewhere(line, m, i);
      JumperFound(line[m + 1..]);
      JumperWaits(rings, run, line[..m], line[m], line[m + 1..], i, n);
    }
  }

  /** There are no more than two jumpers. */
  lemma OnlyTwo(run: int, line: seq<int>, m: nat, i: nat)
    requires NoDup(line) && run !in line && m == JumperAt(line) < |line| && i < |line| && i != m && Jumps(line[i])
    ensures !Jumps(run) && CallsUntil(run, line, i) == 2
  {
    JumperFound(line);
    Elsewhere(line, m, i);
    JumperFound(line[m + 1..]);
  }

  lemma BothAreThere(run: int, line: seq<int>, i: nat)
    requires i < |line| && NoDup([run] + line) && CallsUntil(run, line, i) == 0
    ensures PID_KCD in [run] + line && PID_CRT in [run] + line && !Jumps(line[i])
  {
    var m := JumperAt(line);
    var rest := line[m + 1..];
    FrontNoDup(run, line);
    JumperFound(line);
    JumperFound(rest);
    Elsewhere(line, m, i);
    var other := if Jumps(run) then run else rest[JumperAt(rest)];
    assert Jumps(other) && other != line[m] by {
      assert !Jumps(run) ==> rest[JumperAt(rest)] == line[m + 1 + JumperAt(rest)];
    }
    assert other in [run] + line && line[m] in [run] + line;
  }

  /** The turn of `line[i]` comes as the line stands: KCD and CRT are not there, or are where they are served anyway. */
  ghost predicate InTurn(run: int, line: seq<int>, i: nat)
    requires i < |line|
  {
    || NoneJumps([run] + line)
    || (i == 0 && (Jumps(line[0]) || NoneJumps(line)))
    || (i == 1 && Jumps(line[0]) && (Jumps(line[1]) || NoneJumps(line[2..] + [run])))
  }

  lemma InTurnCalls(run: int, line: seq<int>, i: nat)
    requires i < |line| && NoDup([run] + line)
    ensures InTurn(run, line, i) <==> CallsUntil(run, line, i) == i + 1
  {
    var m := JumperAt(line);
    FrontNoDup(run, line);
    JumperFound(line);
    assert NoneJumps([run] + line) <==> NoneJumps(line) && !Jumps(run);
    if m < |line| {
      JumperFound(line[m + 1..]);
      if i != m {
        Elsewhere(line, m, i);
      }
      if i == 1 && m == 0 {
        InTurnSecond(run, line);
      }
    }
  }

  lemma InTurnSecond(run: int, line: seq<int>)
    requires |line| > 1 && NoDup(line) && run !in line && Jumps(line[0])
    ensures NoneJumps(line[1..]) && !Jumps(run) <==> !Jumps(line[1]) && NoneJumps(line[2..] + [run])
    ensures Jumps(line[1]) ==> !Jumps(run)
  {
    assert line[1..] == [line[1]] + line[2..];
    assert line[0] in line && line[1] in line;
  }
}
