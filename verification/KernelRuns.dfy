/**
 Whole runs of the kernel: processes make calls, interrupts happen in between. Calls and interrupts are atomic, the
 null process calls nothing, and a process sends, releases or writes only envelopes it holds.
 */
module KernelRuns {
  import opened Constants
  import opened Integers
  import opened Sequences
  import opened PriorityQueues
  import opened MessageQueues
  import opened KernelState
  import opened Scheduling
  import opened KernelCalls
  import opened MessageHistory
  import opened Boot

  datatype Event =
    // calls of the running process
    | Release
    | SetPriority(pid: int, priority: int)
    | Send(to: int, msg: int)
    | SendDelayed(to: int, msg: int, delay: int32)
    | Receive                            // also the next round of the loop of k_receive_message
    | Request                            // also the next round of the loop of k_request_memory_block
    | ReleaseBlock(block: int)
    | Write(msg: int, header: Header)    // the holder of an envelope overwrites the kernel's part of it
    | GiveBack(msg: int)                 // KCD or CRT has dealt with a UART notification
    // interrupts
    | TimerTick(check: TickCheck)        // Plain throughout in the build without time slicing
    | UartNotify(to: int, msg: int)
    | UartQuiet

  ghost predicate HoldsOrNull(s: System, pid: int, e: int)
    requires |s.place| == NUM_ENVELOPES
  {
    e == NULL || (0 <= e < NUM_ENVELOPES && s.place[e] == Held(pid))
  }

  ghost predicate Enabled(s: System, ev: Event)
    requires |s.place| == NUM_ENVELOPES
  {
    var r := s.k.running;
    var inUserCode := r != PID_NULL && r !in s.receiving && r !in s.requesting;
    match ev
    case Release => inUserCode
    case SetPriority(_, _) => inUserCode
    case Send(_, e) => inUserCode && HoldsOrNull(s, r, e)
    case SendDelayed(_, e, _) => inUserCode && HoldsOrNull(s, r, e)
    case Receive => r != PID_NULL && r !in s.requesting
    case Request => r != PID_NULL && r !in s.receiving
    case ReleaseBlock(b) => inUserCode && (0 <= b < NUM_MEM_BLOCKS ==> s.place[b] == Held(r) || s.place[b] == Free)
    case Write(e, _) => inUserCode && e != NULL && HoldsOrNull(s, r, e)
    case GiveBack(e) => inUserCode && e in {NOTIF_IN, NOTIF_OUT} && s.place[e] == Held(r)
    case TimerTick(_) => true
    case UartNotify(p, e) => 0 <= p < NUM_PROCS && ((e == NOTIF_IN && s.notifIn) || (e == NOTIF_OUT && !s.notifOutSent))
    case UartQuiet => true
  }

  /** Array bounds; every state that satisfies the invariant is within them (lemma InvariantGivesBounds). */
  ghost predicate Bounds(s: System) {
    && Ready(s) && 0 <= s.k.running < NUM_PROCS && |s.received| == NUM_PROCS
    && forall p :: 0 <= p < NUM_PROCS ==> Within(s.k.mail[p], NUM_ENVELOPES)
  }

  function NextTick(s: System): System {
    s.(k := s.k.(now := s.k.now + 1))
  }

  function WithKernel(s: System, k': State): System {
    s.(k := k')
  }

  function Ticked(s: System, check: TickCheck): System
    requires Ready(s) && s.k.running != PID_NONE
  {
    WithKernel(Deliveries(NextTick(s)), TimerInterrupt(s.k, check))
  }

  ghost function Step(s: System, ev: Event): System
    requires Bounds(s) && Enabled(s, ev)
  {
    var r := s.k.running;
    match ev
    case Release => s.(k := ReleaseProcessor(s.k))
    case SetPriority(pid, priority) => s.(k := SetProcessPriority(s.k, pid, priority).0)
    case Send(p, e) =>
      if ValidMessage(p, e) then Immediate(s, r, p, e).(k := SendMessage(s.k, p, e).0) else s
    case SendDelayed(p, e, delay) =>
      if !ValidMessage(p, e) then s
      else if delay == 0 then Immediate(s, r, p, e).(k := DelayedSend(s.k, p, e, 0).0)
      else Later(s, r, p, e, delay).(k := DelayedSend(s.k, p, e, delay).0)
    case Receive =>
      var (k', a) := ReceiveMessage(s.k);
      if a.Suspended? then s.(k := k', receiving := s.receiving + {r})
      else s.(k := k', receiving := s.receiving - {r},
              place := s.place[a.envelope := Held(r)],
              received := s.received[r := s.received[r] + [Receipt(a.envelope, a.sender)]])
    case Request =>
      var (k', a) := RequestMemoryBlock(s.k);
      if a.Suspended? then s.(k := k', requesting := s.requesting + {r})
      else if 0 <= a.envelope < NUM_ENVELOPES
      then s.(k := k', requesting := s.requesting - {r}, place := s.place[a.envelope := Held(r)])
      else s
    case ReleaseBlock(b) =>
      var (k', result) := ReleaseMemoryBlock(s.k, b);
      s.(k := k', place := if result == RTX_OK then s.place[b := Free] else s.place)
    case Write(e, h) => s.(k := s.k.(hdr := s.k.hdr[e := h]))
    case GiveBack(e) =>
      s.(place := s.place[e := Held(PID_UART_IPROC)],
         notifIn := s.notifIn || e == NOTIF_IN, notifOutSent := s.notifOutSent && e != NOTIF_OUT)
    case TimerTick(check) => Ticked(s, check)
    case UartNotify(p, e) =>
      Immediate(s, PID_UART_IPROC, p, e).(k := UartInterrupt(s.k, true, p, e),
        notifIn := s.notifIn && e != NOTIF_IN, notifOutSent := s.notifOutSent || e == NOTIF_OUT)
    case UartQuiet => s.(k := UartInterrupt(s.k, false, 0, 0))
  }

  /** All blocks free, the UART process holding its two notifications, the first process just started. */
  function Booted(): System
  {
    BootEstablishesInvariant();
    System(ReleaseProcessor(InitialState()), {}, {},
           seq(NUM_ENVELOPES, e => if e < NUM_MEM_BLOCKS then Free else Held(PID_UART_IPROC)),
           [], [], seq(NUM_PROCS, _ => []), seq(NUM_PROCS, _ => []), true, false)
  }

  ghost predicate IsRun(run: seq<System>, events: seq<Event>) {
    && |run| == |events| + 1 && run[0] == Booted()
    && forall i :: 0 <= i < |events| ==>
                     Bounds(run[i]) && Enabled(run[i], events[i]) && run[i + 1] == Step(run[i], events[i])
  }

  // ----- Each step keeps the invariant -----

  lemma InvariantGivesBounds(s: System)
    requires SystemInv(s)
    ensures Bounds(s)
  {
    forall p | 0 <= p < NUM_PROCS ensures Within(s.k.mail[p], NUM_ENVELOPES) {
      assert ListsExactly(s.k.mail[p], s.place, Mailbox(p));
      assert forall i :: 0 <= i < |s.k.mail[p]| ==> s.k.mail[p][i] in s.k.mail[p];
    }
  }

  /** Scheduling alone: neither mail nor blocks change. */
  lemma KernelStep(s: System, k': State)
    requires SystemInv(s) && Quiescent(k', s.receiving, s.requesting) && SameMessages(s.k, k')
    ensures SystemInv(s.(k := k'))
  {
    LedgerKernel(s.k, k', s.place);
    TrafficKernel(s, k');
  }

  /** Ledger and history as updated by `s1`, with a kernel that has the same lists. */
  lemma HistoryStep(s1: System, k': State)
    requires Ledger(s1.k, s1.place) && Traffic(s1, {}) && OnTime(s1.sent, s1.pending, s1.k.now)
    requires Quiescent(k', s1.receiving, s1.requesting) && SameMessages(s1.k, k')
    requires NotificationFlags(s1.place, s1.notifIn, s1.notifOutSent)
    ensures SystemInv(s1.(k := k'))
  {
    LedgerKernel(s1.k, k', s1.place);
    TrafficKernel(s1, k');
  }

  /** The flags are right as long as no notification goes to or from the UART process. */
  lemma FlagsStay(s: System, e: int, to: Place)
    requires NotificationFlags(s.place, s.notifIn, s.notifOutSent) && 0 <= e < NUM_ENVELOPES
    requires s.place[e] != Held(PID_UART_IPROC) && to != Held(PID_UART_IPROC)
    ensures NotificationFlags(s.place[e := to], s.notifIn, s.notifOutSent)
  {
  }

  /** Interrupt processes are never dispatched. */
  lemma NoIprocRuns(k: State)
    requires Inv(k)
    ensures !IsIproc(k.running)
  {
  }

  lemma SendStep(s: System, p: int, e: int)
    requires SystemInv(s) && Bounds(s) && Enabled(s, Send(p, e))
    ensures SystemInv(Step(s, Send(p, e)))
  {
    SendCall(s.k, p, e, s.receiving, s.requesting);
    if ValidMessage(p, e) {
      ImmediateKeeps(s, s.k.running, p, e);
      NoIprocRuns(s.k);
      FlagsStay(s, e, Mailbox(p));
      HistoryStep(Immediate(s, s.k.running, p, e), SendMessage(s.k, p, e).0);
    }
  }

  lemma ZeroDelayStep(s: System, p: int, e: int)
    requires SystemInv(s) && Bounds(s) && Enabled(s, SendDelayed(p, e, 0))
    ensures SystemInv(Step(s, SendDelayed(p, e, 0)))
  {
    SendCall(s.k, p, e, s.receiving, s.requesting);
    if ValidMessage(p, e) {
      ImmediateKeeps(s, s.k.running, p, e);
      NoIprocRuns(s.k);
      FlagsStay(s, e, Mailbox(p));
      HistoryStep(Immediate(s, s.k.running, p, e), SendMessage(s.k, p, e).0);
    }
  }

  lemma SendDelayedStep(s: System, p: int, e: int, delay: int32)
    requires SystemInv(s) && Bounds(s) && Enabled(s, SendDelayed(p, e, delay)) && delay != 0 && ValidMessage(p, e)
    ensures SystemInv(Step(s, SendDelayed(p, e, delay)))
  {
    var s1 := Later(s, s.k.running, p, e, delay);
    LaterKeepsLedger(s, s.k.running, p, e, delay);
    LaterKeepsTraffic(s, s.k.running, p, e, delay);
    DelayedSendCall(s.k, p, e, delay, s.receiving, s.requesting);
    NoIprocRuns(s.k);
    FlagsStay(s, e, InDelay);
    assert Step(s, SendDelayed(p, e, delay)) == s1;
  }

  lemma TimerHistory(s: System, check: TickCheck, s1: System, k': State)
    requires SystemInv(s) && Bounds(s)
    requires s1 == Deliveries(NextTick(s)) && k' == TimerInterrupt(s.k, check)
    ensures Ledger(s1.k, s1.place) && Traffic(s1, {}) && OnTime(s1.sent, s1.pending, s1.k.now) && SameMessages(s1.k, k')
    ensures s1.receiving == s.receiving && s1.requesting == s.requesting
    ensures NotificationFlags(s1.place, s1.notifIn, s1.notifOutSent)
  {
    TickStarts(s);
    DeliveriesKeep(NextTick(s));
  }

  lemma TimerStep(s: System, check: TickCheck, s1: System, k': State, s': System)
    requires SystemInv(s) && Bounds(s)
    requires s1 == Deliveries(NextTick(s)) && k' == TimerInterrupt(s.k, check) && s' == s1.(k := k')
    ensures SystemInv(s')
  {
    TimerHistory(s, check, s1, k');
    TimerCall(s.k, check, s.receiving, s.requesting, k');
    HistoryStep(s1, k');
  }

  lemma TickParts(s: System, s0: System, check: TickCheck, s1: System, k': State, s': System)
    requires Ready(s) && s.k.running != PID_NONE && s' == Ticked(s, check) && s0 == NextTick(s) && Ready(s0)
    requires s1 == Deliveries(s0) && k' == TimerInterrupt(s.k, check)
    ensures s' == WithKernel(s1, k')
  {
  }

  lemma TickStep(s: System, check: TickCheck, s': System)
    requires SystemInv(s) && Bounds(s) && s' == Ticked(s, check)
    ensures SystemInv(s')
  {
    var s1, k' := Deliveries(NextTick(s)), TimerInterrupt(s.k, check);
    TickParts(s, NextTick(s), check, s1, k', s');
    TimerStep(s, check, s1, k', s');
  }

  lemma TickStarts(s: System)
    requires SystemInv(s) && Bounds(s)
    ensures var s1 := NextTick(s);
            Ready(s1) && Ledger(s1.k, s1.place) && Traffic(s1, {}) && MidTick(s1.sent, s1.pending, s1.k.now)
  {
    forall b | b in s.pending ensures 0 <= b < |s.sent| && s.sent[b].sentAt < s.k.now + 1 <= Due(s.sent[b]) {
      var i :| 0 <= i < |s.pending| && s.pending[i] == b;
    }
  }

  lemma UartQuietStep(s: System, k': State)
    requires SystemInv(s) && Bounds(s) && k' == UartInterrupt(s.k, false, 0, 0)
    ensures SystemInv(Step(s, UartQuiet))
  {
    UartQuietCall(s, k');
    KernelStep(s, k');
  }

  lemma UartQuietCall(s: System, k': State)
    requires SystemInv(s) && k' == UartInterrupt(s.k, false, 0, 0)
    ensures Quiescent(k', s.receiving, s.requesting) && SameMessages(s.k, k')
  {
    UartCall(s.k, false, 0, 0, s.receiving, s.requesting);
  }

  lemma UartNotifyStep(s: System, p: int, e: int)
    requires SystemInv(s) && Bounds(s) && Enabled(s, UartNotify(p, e))
    ensures SystemInv(Step(s, UartNotify(p, e)))
  {
    UartCall(s.k, true, p, e, s.receiving, s.requesting);
    ImmediateKeeps(s, PID_UART_IPROC, p, e);
    var s1 := Immediate(s, PID_UART_IPROC, p, e).(notifIn := s.notifIn && e != NOTIF_IN,
                                                   notifOutSent := s.notifOutSent || e == NOTIF_OUT);
    HistoryStep(s1, UartInterrupt(s.k, true, p, e));
  }

  lemma ListsPop(list: seq<int>, place: seq<Place>, where: Place, to: Place)
    requires ListsExactly(list, place, where) && list != [] && to != where
    ensures 0 <= list[0] < |place| && ListsExactly(list[1..], place[list[0] := to], where)
  {
    var rest := list[1..];
    assert list == [list[0]] + rest;
    assert list[0] in list && list[0] !in rest;
    assert forall e :: e in list <==> e == list[0] || e in rest;
  }

  lemma ReceiveStep(s: System)
    requires SystemInv(s) && Bounds(s) && Enabled(s, Receive)
    ensures SystemInv(Step(s, Receive))
  {
    var r := s.k.running;
    var box := s.k.mail[r];
    ReceiveCall(s.k, s.receiving, s.requesting);
    var k' := ReceiveMessage(s.k).0;
    if box == [] {
      var s1 := s.(receiving := s.receiving + {r});
      HistoryStep(s1, k');
    } else {
      ReceiveKeepsLedger(s);
      ReceiveKeepsTraffic(s);
      NoIprocRuns(s.k);
      assert ListsExactly(s.k.mail[r], s.place, Mailbox(r));
      assert box[0] in box;
      FlagsStay(s, box[0], Held(r));
    }
  }

  lemma ReceiveKeepsLedger(s: System)
    requires SystemInv(s) && Bounds(s) && s.k.mail[s.k.running] != []
    ensures var r, e := s.k.running, s.k.mail[s.k.running][0]; Ledger(ReceiveMessage(s.k).0, s.place[e := Held(r)])
  {
    var r := s.k.running;
    var e, k' := s.k.mail[r][0], ReceiveMessage(s.k).0;
    assert ListsExactly(s.k.mail[r], s.place, Mailbox(r));
    assert e in s.k.mail[r];
    ListsMove(s.k.heap, s.place, Free, e, Held(r));
    ListsMove(s.k.delayed, s.place, InDelay, e, Held(r));
    forall p | 0 <= p < NUM_PROCS ensures ListsExactly(k'.mail[p], s.place[e := Held(r)], Mailbox(p)) {
      if p == r {
        ListsPop(s.k.mail[r], s.place, Mailbox(r), Held(r));
      } else {
        ListsMove(s.k.mail[p], s.place, Mailbox(p), e, Held(r));
      }
    }
  }

  lemma ReceiveKeepsTraffic(s: System)
    requires SystemInv(s) && Bounds(s) && Enabled(s, Receive) && s.k.mail[s.k.running] != []
    ensures Traffic(Step(s, Receive), {})
  {
    var r, s' := s.k.running, Step(s, Receive);
    MailboxMoves(s.received[r], s.k.mail[r], s.delivered[r], s.k.hdr, s.sent);
  }

  lemma MailboxMoves(got: seq<Receipt>, box: seq<int>, ids: seq<int>, hdr: seq<Header>, sent: seq<Message>)
    requires MailboxOk(got, box, ids, hdr, sent) && box != []
    ensures MailboxOk(got + [Receipt(box[0], hdr[box[0]].sender)], box[1..], ids, hdr, sent)
  {
    assert Receipt(box[0], hdr[box[0]].sender) == ReceiptFor(sent[ids[|got| + 0]]);
    forall j | 0 <= j < |box[1..]|
      ensures Receipt(box[1..][j], hdr[box[1..][j]].sender) == ReceiptFor(sent[ids[|got| + 1 + j]])
    {
      assert Receipt(box[j + 1], hdr[box[j + 1]].sender) == ReceiptFor(sent[ids[|got| + (j + 1)]]);
    }
  }

  lemma RequestStep(s: System)
    requires SystemInv(s) && Bounds(s) && Enabled(s, Request)
    ensures SystemInv(Step(s, Request))
  {
    var r := s.k.running;
    RequestCall(s.k, s.receiving, s.requesting);
    var k' := RequestMemoryBlock(s.k).0;
    if s.k.heap == [] {
      HistoryStep(s.(requesting := s.requesting + {r}), k');
    } else {
      var e := s.k.heap[0];
      ListsPop(s.k.heap, s.place, Free, Held(r));
      assert e in s.k.heap;
      NoIprocRuns(s.k);
      FlagsStay(s, e, Held(r));
      ListsMove(s.k.delayed, s.place, InDelay, e, Held(r));
      forall p | 0 <= p < NUM_PROCS ensures ListsExactly(k'.mail[p], s.place[e := Held(r)], Mailbox(p)) {
        ListsMove(s.k.mail[p], s.place, Mailbox(p), e, Held(r));
      }
    }
  }

  lemma ReleaseBlockStep(s: System, b: int)
    requires SystemInv(s) && Bounds(s) && Enabled(s, ReleaseBlock(b))
    ensures SystemInv(Step(s, ReleaseBlock(b)))
  {
    ReleaseBlockCall(s.k, b, s.receiving, s.requesting);
    if ReleaseValid(s.k, b) {
      var k1, place := s.k.(heap := s.k.heap + [b]), s.place[b := Free];
      ListsMove(s.k.heap, s.place, Free, b, Free);
      ListsMove(s.k.delayed, s.place, InDelay, b, Free);
      forall p | 0 <= p < NUM_PROCS ensures ListsExactly(k1.mail[p], place, Mailbox(p)) {
        ListsMove(s.k.mail[p], s.place, Mailbox(p), b, Free);
      }
      HistoryStep(s.(k := k1, place := place), ReleaseMemoryBlock(s.k, b).0);
    }
  }

  lemma WriteStep(s: System, e: int, h: Header)
    requires SystemInv(s) && Bounds(s) && Enabled(s, Write(e, h))
    ensures SystemInv(Step(s, Write(e, h)))
  {
    DelayedFrame(s.pending, s.k.delayed, s.k.hdr, s.sent, e, h);
    forall p | 0 <= p < NUM_PROCS
      ensures MailboxOk(s.received[p], s.k.mail[p], s.delivered[p], s.k.hdr[e := h], s.sent)
    {
      assert ListsExactly(s.k.mail[p], s.place, Mailbox(p));
      HeaderFrame(s.received[p], s.k.mail[p], s.delivered[p], s.k.hdr, s.sent, e, h);
    }
  }

  lemma GiveBackStep(s: System, e: int)
    requires SystemInv(s) && Bounds(s) && Enabled(s, GiveBack(e))
    ensures SystemInv(Step(s, GiveBack(e)))
  {
    var to := Held(PID_UART_IPROC);
    ListsMove(s.k.heap, s.place, Free, e, to);
    ListsMove(s.k.delayed, s.place, InDelay, e, to);
    forall p | 0 <= p < NUM_PROCS ensures ListsExactly(s.k.mail[p], s.place[e := to], Mailbox(p)) {
      ListsMove(s.k.mail[p], s.place, Mailbox(p), e, to);
    }
  }

  lemma StepKeepsInvariant(s: System, ev: Event)
    requires SystemInv(s) && Bounds(s) && Enabled(s, ev)
    ensures SystemInv(Step(s, ev))
  {
    match ev
    case Release =>
      ReleaseCall(s.k, s.receiving, s.requesting);
      KernelStep(s, ReleaseProcessor(s.k));
    case SetPriority(pid, priority) =>
      SetPriorityCall(s.k, pid, priority, s.receiving, s.requesting);
      KernelStep(s, SetProcessPriority(s.k, pid, priority).0);
    case Send(p, e) => SendStep(s, p, e);
    case SendDelayed(p, e, delay) =>
      if delay == 0 {
        ZeroDelayStep(s, p, e);
      } else if ValidMessage(p, e) {
        SendDelayedStep(s, p, e, delay);
      }
    case Receive => ReceiveStep(s);
    case Request => RequestStep(s);
    case ReleaseBlock(b) => ReleaseBlockStep(s, b);
    case Write(e, h) => WriteStep(s, e, h);
    case GiveBack(e) => GiveBackStep(s, e);
    case TimerTick(check) => TickStep(s, check, Step(s, ev));
    case UartNotify(p, e) => UartNotifyStep(s, p, e);
    case UartQuiet => UartQuietStep(s, UartInterrupt(s.k, false, 0, 0));
  }

  lemma FreshHeapIsFree(place: seq<Place>)
    requires |place| == NUM_ENVELOPES && forall e :: 0 <= e < NUM_ENVELOPES ==>
              (place[e] == Free <==> e < NUM_MEM_BLOCKS)
    ensures ListsExactly(FreshHeap(), place, Free)
  {
    var heap := FreshHeap();
    forall e | 0 <= e < NUM_MEM_BLOCKS ensures e in heap {
      assert heap[NUM_MEM_BLOCKS - 1 - e] == e;
    }
  }

  lemma BootedLists(s: System)
    requires s == Booted()
    ensures |s.place| == NUM_ENVELOPES && s.k.heap == FreshHeap() && s.k.delayed == []
    ensures |s.k.mail| == NUM_PROCS && forall p :: 0 <= p < NUM_PROCS ==> s.k.mail[p] == []
    ensures forall e :: 0 <= e < NUM_ENVELOPES ==>
              s.place[e] == if e < NUM_MEM_BLOCKS then Free else Held(PID_UART_IPROC)
  {
    BootEstablishesInvariant();
  }

  lemma BootedLedger(s: System)
    requires s == Booted()
    ensures Ledger(s.k, s.place)
  {
    BootedLists(s);
    FreshHeapIsFree(s.place);
  }

  lemma BootedInvariant()
    ensures SystemInv(Booted())
  {
    BootEstablishesInvariant();
    BootedLedger(Booted());
    var s := Booted();
    assert s.k.mail == seq(NUM_PROCS, _ => []) && s.k.delayed == [];
    forall p | 0 <= p < NUM_PROCS
      ensures MailboxOk(s.received[p], s.k.mail[p], s.delivered[p], s.k.hdr, s.sent)
      ensures AccountedAt(s.sent, s.pending, s.delivered[p], p, {})
    {
    }
  }

  // ----- Whole runs -----

  /** Whatever the processes do and whenever interrupts come, every state of every run satisfies the invariant. */
  lemma {:induction false} RunsKeepInvariant(run: seq<System>, events: seq<Event>, i: nat)
    requires IsRun(run, events) && i < |run|
    ensures SystemInv(run[i])
  {
    if i == 0 {
      BootedInvariant();
    } else {
      RunsKeepInvariant(run, events, i - 1);
      StepKeepsInvariant(run[i - 1], events[i - 1]);
    }
  }

  lemma StepHistory(s: System, ev: Event)
    requires Bounds(s) && Enabled(s, ev)
    ensures s.sent <= Step(s, ev).sent
    ensures Step(s, ev).k.now == s.k.now + (if ev.TimerTick? then 1 else 0)
  {
  }

  lemma {:induction false} HistoryOnlyGrows(run: seq<System>, i: nat, j: nat)
    requires i <= j < |run|
    requires forall n :: 0 <= n < |run| - 1 ==> HistoryGrows(run[n], run[n + 1])
    ensures HistoryGrows(run[i], run[j])
    decreases j
  {
    if i < j {
      HistoryOnlyGrows(run, i, j - 1);
      assert HistoryGrows(run[j - 1], run[j - 1 + 1]);
    }
  }

  predicate HistoryGrows(s: System, s': System) {
    s.sent <= s'.sent && s.k.now <= s'.k.now
  }

  lemma RunHistory(run: seq<System>, events: seq<Event>, i: nat, j: nat)
    requires IsRun(run, events) && i <= j < |run|
    ensures HistoryGrows(run[i], run[j])
  {
    forall n | 0 <= n < |run| - 1 ensures HistoryGrows(run[n], run[n + 1]) {
      StepHistory(run[n], events[n]);
    }
    HistoryOnlyGrows(run, i, j);
  }

  /**
   Exact delayed delivery. A message sent with a delay at event `i` of a run is in its receiver's mailbox history in
   state `j` if and only if the clock has reached its due tick; till then it is in the delayed queue. It is in nobody
   else's mailbox history, and there only once. The due tick is the sending tick plus the delay if and only if their sum
   does not overflow (or the clock itself is about to); otherwise a positive delay ends on the very next tick, as does
   every negative one in the clock's first 2^31 ticks.
   */
  lemma DelayedMessageArrivesOnTime(run: seq<System>, events: seq<Event>, i: nat, j: nat)
    requires IsRun(run, events) && i < j < |run|
    requires events[i].SendDelayed? && events[i].delay != 0 && ValidMessage(events[i].to, events[i].msg)
    ensures Bounds(run[i]) && Bounds(run[j])
    ensures var ev, id, now, sentAt := events[i], |run[i].sent|, run[j].k.now, run[i].k.now;
            var m := Message(ev.msg, run[i].k.running, ev.to, sentAt, ev.delay);
            var kept := Wrapped(sentAt) + ev.delay <= INT_MAX || Wrapped(sentAt) == INT_MAX;
            && id < |run[j].sent| && run[j].sent[id] == m
            && (id in run[j].delivered[ev.to] <==> Due(m) <= now)
            && (id in run[j].pending <==> now < Due(m))
            && (ev.delay > 0 ==> (Due(m) == sentAt + ev.delay <==> kept) && (!kept ==> Due(m) == sentAt + 1))
            && (ev.delay < 0 && 0 <= sentAt < INT_MAX ==> Due(m) == sentAt + 1)
            && NoDup(run[j].delivered[ev.to]) && NoDup(run[j].pending)
            && forall p :: 0 <= p < NUM_PROCS && p != ev.to ==> id !in run[j].delivered[p]
  {
    var ev, id := events[i], |run[i].sent|;
    RunHistory(run, events, i + 1, j);
    RunsKeepInvariant(run, events, j);
    InvariantGivesBounds(run[j]);
    var s := run[j];
    forall p | 0 <= p < NUM_PROCS ensures id in s.delivered[p] <==> p == ev.to && id !in s.pending {
      assert AccountedAt(s.sent, s.pending, s.delivered[p], p, {});
    }
    WithoutRepeats(s.sent, s.pending);
    DeliveredOnce(s, ev.to);
    DueTick(s.sent[id]);
  }

  lemma DueTick(m: Message)
    ensures m.delay > 0 ==> (Due(m) == m.sentAt + m.delay <==> InRange(m)) && (!InRange(m) ==> Due(m) == m.sentAt + 1)
    ensures m.delay < 0 && 0 <= m.sentAt < INT_MAX ==> Due(m) == m.sentAt + 1
  {
    if m.delay > 0 {
      DelayIsKeptInRange(m);
    } else if m.delay < 0 && 0 <= m.sentAt < INT_MAX {
      NegativeDelayIsNextTick(m);
    }
  }

  lemma DeliveredOnce(s: System, p: int)
    requires SystemInv(s) && 0 <= p < NUM_PROCS
    ensures NoDup(s.delivered[p])
  {
    var ids := s.delivered[p];
    assert MailboxOk(s.received[p], s.k.mail[p], ids, s.k.hdr, s.sent);
    forall a, b | 0 <= a < b < |ids| ensures ids[a] != ids[b] {
      assert Precedes(s.sent, ids[a], ids[b]);
    }
  }

  /**
   Mailboxes are complete and in order. In every state of every run, what a process received followed by what is in
   its mailbox is the list of all messages sent to it and due by now, each once and with its true sender, by due tick;
   at one tick first the timer's deliveries by expiry, then immediate sends; ties in the order of sending.
   */
  lemma MailIsExactlyWhatWasSent(run: seq<System>, events: seq<Event>, i: nat, p: int)
    requires IsRun(run, events) && i < |run| && 0 <= p < NUM_PROCS
    ensures Bounds(run[i])
    ensures var s := run[i];
            var ids := s.delivered[p];
            && (forall id :: id in ids <==>
                              && 0 <= id < |s.sent| && s.sent[id].receiver == p && Due(s.sent[id]) <= s.k.now)
            && (forall a, b :: 0 <= a < b < |ids| ==> Precedes(s.sent, ids[a], ids[b]))
            && MailboxOk(s.received[p], s.k.mail[p], ids, s.k.hdr, s.sent)
  {
    RunsKeepInvariant(run, events, i);
    InvariantGivesBounds(run[i]);
    var s := run[i];
    assert AccountedAt(s.sent, s.pending, s.delivered[p], p, {});
    assert MailboxOk(s.received[p], s.k.mail[p], s.delivered[p], s.k.hdr, s.sent);
  }

  /**
   Envelopes are conserved: each is in exactly one of the free list, the mailboxes, the delayed queue and the hands of
   the processes, and only once there. So no mailbox and not the free list can be full while somebody holds an
   envelope to put there.
   */
  lemma EnvelopesAreConserved(run: seq<System>, events: seq<Event>, i: nat, e: int)
    requires IsRun(run, events) && i < |run| && 0 <= e < NUM_ENVELOPES
    ensures Bounds(run[i])
    ensures var s := run[i];
            && (e in s.k.heap <==> s.place[e] == Free)
            && (e in s.k.delayed <==> s.place[e] == InDelay)
            && (forall p :: 0 <= p < NUM_PROCS ==> (e in s.k.mail[p] <==> s.place[e] == Mailbox(p)))
            && NoDup(s.k.heap) && NoDup(s.k.delayed) && (forall p :: 0 <= p < NUM_PROCS ==> NoDup(s.k.mail[p]))
            && (s.place[e].Held? ==>
                  && (forall p :: 0 <= p < NUM_PROCS ==> |s.k.mail[p]| < NUM_MEM_BLOCKS + 2)
                  && (e < NUM_MEM_BLOCKS ==> |s.k.heap| < NUM_MEM_BLOCKS))
  {
    RunsKeepInvariant(run, events, i);
    InvariantGivesBounds(run[i]);
    var s := run[i];
    forall p | 0 <= p < NUM_PROCS
      ensures NoDup(s.k.mail[p]) && (e in s.k.mail[p] <==> s.place[e] == Mailbox(p))
      ensures s.place[e].Held? ==> |s.k.mail[p]| < NUM_ENVELOPES
    {
      assert ListsExactly(s.k.mail[p], s.place, Mailbox(p));
      if s.place[e].Held? {
        Pigeonhole(s.k.mail[p], NUM_ENVELOPES, e);
      }
    }
    if s.place[e].Held? && e < NUM_MEM_BLOCKS {
      FreeListBound(s.k.heap, s.place, e);
    }
  }

  /**
   A request for memory, in any state a run reaches, either ends with a block that was free and now belongs to the
   caller alone, which runs on; or the caller is blocked, another process runs, and no block has changed hands.
   */
  lemma RequestTakesAFreeBlock(s: System)
    requires SystemInv(s) && Bounds(s) && Enabled(s, Request)
    ensures Bounds(Step(s, Request))
    ensures var s', r := Step(s, Request), s.k.running;
            if s.k.heap != [] then
              var b := s.k.heap[0];
              && 0 <= b < NUM_MEM_BLOCKS && s.place[b] == Free && s'.place == s.place[b := Held(r)] && b !in s'.k.heap
              && s'.k.running == r && r !in s'.requesting
            else s'.place == s.place && s'.k.running != r && s'.k.proc[r].state == BLOCKED_ON_RESOURCE &&
                  r in s'.requesting
  {
    RequestStep(s);
    InvariantGivesBounds(Step(s, Request));
    if s.k.heap != [] {
      assert s.k.heap[0] in s.k.heap;
    } else {
      BlockedCaller(s.k);
    }
  }

  lemma BlockedCaller(k: State)
    requires Inv(k) && k.running != PID_NULL
    ensures var k' := Poll(k, BLOCKED_ON_RESOURCE);
            k'.running != k.running && 0 <= k.running < NUM_PROCS && k'.proc[k.running].state == BLOCKED_ON_RESOURCE
  {
    PollStart(k, BLOCKED_ON_RESOURCE);
    ReleaseDispatches(WithState(k, k.running, BLOCKED_ON_RESOURCE));
  }

  /**
   Who is RUN, blocked and ready: one process is RUN, memory waiters exist only while no block is free, a process that
   comes back from the wait in k_receive_message has mail, and the null process runs or is ready.
   */
  lemma ProcessesWaitForAReason(run: seq<System>, events: seq<Event>, i: nat)
    requires IsRun(run, events) && i < |run|
    ensures Bounds(run[i])
    ensures var s := run[i];
            && (forall p :: 0 <= p < NUM_PROCS ==> (s.k.proc[p].state == RUN <==> p == s.k.running))
            && (forall p :: 0 <= p < NUM_PROCS && s.k.proc[p].state == BLOCKED_ON_RESOURCE ==>
                  s.k.heap == [] && p in s.requesting)
            && (forall p :: 0 <= p < NUM_PROCS && s.k.proc[p].state == BLOCKED_ON_RECEIVE ==> s.k.mail[p] == [])
            && (s.k.running in s.receiving ==> s.k.mail[s.k.running] != [])
            && (s.k.running == PID_NULL || PID_NULL in s.k.ready[NULL_PRIO])
  {
    RunsKeepInvariant(run, events, i);
    InvariantGivesBounds(run[i]);
    var s := run[i];
    NullOrReady(s.k);
    assert forall p :: 0 <= p < NUM_PROCS && s.k.proc[p].state == BLOCKED_ON_RESOURCE ==> p in BlockedSet(s.k.proc);
    assert forall p :: 0 <= p < NUM_PROCS && s.k.proc[p].state == BLOCKED_ON_RECEIVE ==> p in ReceiveSet(s.k.proc);
    assert s.k.running !in ReceiveSet(s.k.proc);
  }

  /**
   The flags the UART interrupt goes by are right: the notifications it may send are exactly those it holds.
   */
  lemma UartHoldsWhatItMaySend(run: seq<System>, events: seq<Event>, i: nat)
    requires IsRun(run, events) && i < |run|
    ensures Bounds(run[i])
    ensures var s := run[i];
            && (s.notifIn <==> s.place[NOTIF_IN] == Held(PID_UART_IPROC))
            && (!s.notifOutSent <==> s.place[NOTIF_OUT] == Held(PID_UART_IPROC))
  {
    RunsKeepInvariant(run, events, i);
    InvariantGivesBounds(run[i]);
  }

  /**
   Process states and queues agree on whole runs: in ready list `q` are, once each, exactly the processes of priority
   `q` that are RDY or not yet started and no interrupt processes; in blocked list `q` those of priority `q` that are
   BLOCKED_ON_RESOURCE. So the running process and those waiting for mail are in neither.
   */
  lemma QueuesMatchStates(run: seq<System>, events: seq<Event>, i: nat, q: nat)
    requires IsRun(run, events) && i < |run| && q < NUM_PRIORITIES
    ensures Bounds(run[i])
    ensures var k := run[i].k;
            && NoDup(k.ready[q]) && NoDup(k.blocked[q])
            && (forall p :: p in k.ready[q] <==>
                              && 0 <= p < NUM_PROCS && k.proc[p].priority == q
                              && (k.proc[p].state == RDY || (k.proc[p].state == NEW && !IsIproc(p))))
            && (forall p :: p in k.blocked[q] <==>
                              0 <= p < NUM_PROCS && k.proc[p].priority == q && k.proc[p].state == BLOCKED_ON_RESOURCE)
  {
    RunsKeepInvariant(run, events, i);
    InvariantGivesBounds(run[i]);
    QueuesOf(run[i].k, q);
  }

  lemma QueuesOf(k: State, q: nat)
    requires Inv(k) && q < NUM_PRIORITIES
    ensures NoDup(k.ready[q]) && NoDup(k.blocked[q])
    ensures forall p :: p in k.ready[q] <==> p in ReadySet(k.proc) && k.proc[p].priority == q
    ensures forall p :: p in k.blocked[q] <==> p in BlockedSet(k.proc) && k.proc[p].priority == q
  {
    assert k.running !in BlockedSet(k.proc);
  }
}
