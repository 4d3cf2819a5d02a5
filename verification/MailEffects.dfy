/**
 What one step of the kernel does to the mail of a process, to the flags by which the UART process goes, and to the
 places of its two notifications.
 */
module MailEffects {
  import opened Constants
  import opened Integers
  import opened MessageQueues
  import opened KernelState
  import opened MessageHistory
  import K = KernelRuns

  // ----- What a kernel step does to the mail of one process -----

  /** The running process `p` takes a message out of its mailbox. */
  predicate Gets(s: System, ev: K.Event, p: int) {
    ev.Receive? && s.k.running == p && 0 <= p < |s.k.mail| && s.k.mail[p] != []
  }

  function Since(before: seq<int>, after: seq<int>): seq<int> {
    if |before| <= |after| then after[|before|..] else []
  }

  /** Messages are only added; what is new in the mailbox of `p` was pending or has just been sent. */
  ghost predicate MailGrows(s: System, s': System, p: int) {
    && s.sent <= s'.sent && |s'.sent| <= |s.sent| + 1
    && 0 <= p < |s.delivered| && p < |s'.delivered| && s.delivered[p] <= s'.delivered[p]
    && forall id :: id in Since(s.delivered[p], s'.delivered[p]) ==> id in s.pending || |s.sent| == id < |s'.sent|
  }

  ghost predicate ReceivedMoves(s: System, ev: K.Event, s': System, p: int) {
    && 0 <= p < |s.received| && p < |s'.received| && p < |s.delivered| && p < |s'.delivered|
    && (if Gets(s, ev, p) then |s'.received[p]| == |s.received[p]| + 1 && s'.delivered[p] == s.delivered[p]
        else s'.received[p] == s.received[p])
  }

  ghost predicate SenderIs(s: System, ev: K.Event, s': System) {
    |s'.sent| > |s.sent| ==>
      var m := s'.sent[|s.sent|];
      && (ev.Send? || ev.SendDelayed? || ev.UartNotify?) && (ev.Send? ==> m.receiver == ev.to)
      && m.sender == (if ev.UartNotify? then PID_UART_IPROC else s.k.running)
      && (ev.UartNotify? ==> m.delay == 0)
      && (m.envelope in {NOTIF_IN, NOTIF_OUT} ==>
            ev.UartNotify? || ((ev.Send? || ev.SendDelayed?) && ev.msg == m.envelope))
  }

  ghost predicate FlagsMove(s: System, ev: K.Event, s': System) {
    && s'.notifIn == (if ev == K.GiveBack(NOTIF_IN) then true else s.notifIn && !(ev.UartNotify? && ev.msg == NOTIF_IN))
    && s'.notifOutSent ==
       (if ev == K.GiveBack(NOTIF_OUT) then false else s.notifOutSent || (ev.UartNotify? && ev.msg == NOTIF_OUT))
  }

  ghost predicate StepEffects(s: System, ev: K.Event, s': System, p: int) {
    MailGrows(s, s', p) && ReceivedMoves(s, ev, s', p) && SenderIs(s, ev, s') && FlagsMove(s, ev, s')
  }

  lemma {:induction false} DeliveriesMail(s: System, p: int)
    requires Ready(s) && 0 <= p < NUM_PROCS
    ensures MailGrows(s, Deliveries(s), p)
    decreases |s.pending|
  {
    if !(s.pending == [] || s.k.hdr[s.k.delayed[0]].expiry > Wrapped(s.k.now)) {
      var s1 := Post(TakeDue(s), s.pending[0]);
      DeliveriesMail(s1, p);
      MailGoesOn(s, s1, Deliveries(s1), p);
    }
  }

  lemma MailGoesOn(s: System, s1: System, s2: System, p: int)
    requires Ready(s) && 0 <= p < NUM_PROCS && s.pending != [] && s1 == Post(TakeDue(s), s.pending[0])
    requires MailGrows(s1, s2, p) && s2.sent == s.sent
    ensures MailGrows(s, s2, p)
  {
    assert s.pending == [s.pending[0]] + s.pending[1..];
    forall id | id in Since(s.delivered[p], s2.delivered[p]) ensures id in s.pending {
      if id !in Since(s1.delivered[p], s2.delivered[p]) {
        assert id == s.pending[0];
      }
    }
  }

  lemma TickEffects(s: System, check: TickCheck, s': System, p: int)
    requires K.Bounds(s) && s' == K.Step(s, K.TimerTick(check)) && 0 <= p < NUM_PROCS
    ensures StepEffects(s, K.TimerTick(check), s', p)
  {
    DeliveriesMail(K.NextTick(s), p);
  }

  lemma NothingNew(ids: seq<int>)
    ensures Since(ids, ids) == []
  {
  }

  lemma OneNew(ids: seq<int>, id: int)
    ensures Since(ids, ids + [id]) == [id]
  {
  }

  lemma SendEffects(s: System, to: int, e: int, s': System, p: int)
    requires K.Bounds(s) && K.Enabled(s, K.Send(to, e)) && s' == K.Step(s, K.Send(to, e)) && 0 <= p < NUM_PROCS
    ensures StepEffects(s, K.Send(to, e), s', p)
  {
    NothingNew(s.delivered[p]);
    OneNew(s.delivered[p], |s.sent|);
  }

  lemma SendLaterEffects(s: System, to: int, e: int, delay: int32, s': System, p: int)
    requires K.Bounds(s) && K.Enabled(s, K.SendDelayed(to, e, delay)) && delay != 0
    requires s' == K.Step(s, K.SendDelayed(to, e, delay)) && 0 <= p < NUM_PROCS
    ensures StepEffects(s, K.SendDelayed(to, e, delay), s', p)
  {
    NothingNew(s.delivered[p]);
  }

  lemma SendAtOnceEffects(s: System, to: int, e: int, s': System, p: int)
    requires K.Bounds(s) && K.Enabled(s, K.SendDelayed(to, e, 0)) && s' == K.Step(s, K.SendDelayed(to, e, 0))
    requires 0 <= p < NUM_PROCS
    ensures StepEffects(s, K.SendDelayed(to, e, 0), s', p)
  {
    NothingNew(s.delivered[p]);
    OneNew(s.delivered[p], |s.sent|);
  }

  lemma UartNotifyEffects(s: System, to: int, e: int, s': System, p: int)
    requires K.Bounds(s) && K.Enabled(s, K.UartNotify(to, e)) && s' == K.Step(s, K.UartNotify(to, e))
    requires 0 <= p < NUM_PROCS
    ensures StepEffects(s, K.UartNotify(to, e), s', p)
  {
    NothingNew(s.delivered[p]);
    OneNew(s.delivered[p], |s.sent|);
  }

  lemma ReceiveEffects(s: System, s': System, p: int)
    requires K.Bounds(s) && K.Enabled(s, K.Receive) && s' == K.Step(s, K.Receive) && 0 <= p < NUM_PROCS
    ensures StepEffects(s, K.Receive, s', p) && s'.sent == s.sent && s'.delivered == s.delivered
  {
    NothingNew(s.delivered[p]);
  }

  lemma CallEffects(s: System, ev: K.Event, s': System, p: int)
    requires K.Bounds(s) && K.Enabled(s, ev) && s' == K.Step(s, ev) && 0 <= p < NUM_PROCS
    requires !ev.Send? && !ev.SendDelayed? && !ev.UartNotify? && !ev.TimerTick? && !ev.Receive?
    ensures StepEffects(s, ev, s', p) && s'.sent == s.sent && s'.delivered == s.delivered
  {
    NothingNew(s.delivered[p]);
  }

  lemma Effects(s: System, ev: K.Event, s': System, p: int)
    requires K.Bounds(s) && K.Enabled(s, ev) && s' == K.Step(s, ev) && 0 <= p < NUM_PROCS
    ensures StepEffects(s, ev, s', p)
  {
    if ev.TimerTick? {
      TickEffects(s, ev.check, s', p);
    } else if ev.Send? {
      SendEffects(s, ev.to, ev.msg, s', p);
    } else if ev.SendDelayed? {
      if ev.delay == 0 {
        SendAtOnceEffects(s, ev.to, ev.msg, s', p);
      } else {
        SendLaterEffects(s, ev.to, ev.msg, ev.delay, s', p);
      }
    } else if ev.UartNotify? {
      UartNotifyEffects(s, ev.to, ev.msg, s', p);
    } else if ev.Receive? {
      ReceiveEffects(s, s', p);
    } else {
      CallEffects(s, ev, s', p);
    }
  }

  /** A notification is new to its receiver only. */
  lemma NotifyEffects(s: System, to: int, e: int, s': System, p: int)
    requires K.Bounds(s) && K.Enabled(s, K.UartNotify(to, e)) && s' == K.Step(s, K.UartNotify(to, e))
    requires 0 <= p < NUM_PROCS
    ensures |s'.sent| == |s.sent| + 1 && |s'.delivered| == NUM_PROCS
    ensures s'.delivered[p] == s.delivered[p] + (if p == to then [|s.sent|] else [])
  {
  }

  /** The mailbox and its letters have one length. */
  ghost predicate BoxOk(s: System, p: int) {
    && 0 <= p < |s.delivered| && p < |s.received| && p < |s.k.mail|
    && |s.delivered[p]| == |s.received[p]| + |s.k.mail[p]| && Within(s.delivered[p], |s.sent|)
  }

  lemma MailboxIsBox(s: System, p: int)
    requires SystemInv(s) && 0 <= p < NUM_PROCS
    ensures BoxOk(s, p)
  {
    assert MailboxOk(s.received[p], s.k.mail[p], s.delivered[p], s.k.hdr, s.sent);
  }

  /** A kernel event that moves no mail. */
  lemma NoMail(s: System, ev: K.Event, s': System)
    requires K.Bounds(s) && K.Enabled(s, ev) && s' == K.Step(s, ev) && (ev.GiveBack? || ev.UartQuiet?)
    ensures s'.sent == s.sent && s'.delivered == s.delivered && s'.received == s.received
  {
  }

  // ----- Where the notifications are -----

  /** A notification is with the UART process, in its receiver's mailbox, or with its receiver. */
  ghost predicate Custody(place: seq<Place>) {
    && |place| == NUM_ENVELOPES
    && place[NOTIF_OUT] in {Held(PID_UART_IPROC), Mailbox(PID_CRT), Held(PID_CRT)}
    && place[NOTIF_IN] in {Held(PID_UART_IPROC), Mailbox(PID_KCD), Held(PID_KCD)}
  }

  lemma TickPlaces(s: System, s1: System)
    requires SystemInv(s) && K.Bounds(s) && s1 == Deliveries(K.NextTick(s))
    ensures OnlyDeliveries(s.place, s1.place)
  {
    K.TickStarts(s);
    DeliveriesKeep(K.NextTick(s));
  }

  lemma DeliveriesCustody(place: seq<Place>, place': seq<Place>)
    requires Custody(place) && OnlyDeliveries(place, place')
    ensures Custody(place')
  {
  }

  lemma TickedPlaces(s: System, check: TickCheck, s1: System, s': System)
    requires K.Bounds(s) && s' == K.Step(s, K.TimerTick(check)) && s1 == Deliveries(K.NextTick(s))
    ensures s'.place == s1.place
  {
  }

  lemma TickCustody(s: System, check: TickCheck, s1: System, s': System)
    requires SystemInv(s) && K.Bounds(s) && Custody(s.place)
    requires s' == K.Step(s, K.TimerTick(check)) && s1 == Deliveries(K.NextTick(s))
    ensures Custody(s'.place)
  {
    TickPlaces(s, s1);
    DeliveriesCustody(s.place, s1.place);
    TickedPlaces(s, check, s1, s');
  }

  lemma ReceiveCustody(s: System, s': System)
    requires SystemInv(s) && K.Bounds(s) && K.Enabled(s, K.Receive) && s' == K.Step(s, K.Receive) && Custody(s.place)
    ensures Custody(s'.place)
  {
    var box := s.k.mail[s.k.running];
    assert ListsExactly(box, s.place, Mailbox(s.k.running));
    assert box != [] ==> box[0] in box;
  }

  lemma RequestCustody(s: System, s': System)
    requires SystemInv(s) && K.Bounds(s) && K.Enabled(s, K.Request) && s' == K.Step(s, K.Request) && Custody(s.place)
    ensures Custody(s'.place)
  {
    assert s.k.heap != [] ==> s.k.heap[0] in s.k.heap;
  }

  predicate KeepsCustody(ev: K.Event) {
    && (ev.Send? || ev.SendDelayed? ==> ev.msg !in {NOTIF_IN, NOTIF_OUT})
    && (ev.UartNotify? ==> (ev.to == PID_CRT && ev.msg == NOTIF_OUT) || (ev.to == PID_KCD && ev.msg == NOTIF_IN))
  }

  lemma SendCustody(s: System, ev: K.Event, s': System)
    requires K.Bounds(s) && K.Enabled(s, ev) && s' == K.Step(s, ev) && Custody(s.place)
    requires KeepsCustody(ev) && (ev.Send? || ev.SendDelayed?)
    ensures Custody(s'.place)
  {
  }

  lemma OtherCustody(s: System, ev: K.Event, s': System)
    requires K.Bounds(s) && K.Enabled(s, ev) && s' == K.Step(s, ev) && Custody(s.place)
    requires KeepsCustody(ev) && !ev.TimerTick? && !ev.Receive? && !ev.Request? && !ev.Send? && !ev.SendDelayed?
    ensures Custody(s'.place)
  {
  }

  lemma CustodyStep(s: System, ev: K.Event, s': System)
    requires SystemInv(s) && K.Bounds(s) && K.Enabled(s, ev) && s' == K.Step(s, ev) && Custody(s.place)
    requires KeepsCustody(ev)
    ensures Custody(s'.place)
  {
    match ev
    case TimerTick(check) => TickCustody(s, check, Deliveries(K.NextTick(s)), s');
    case Receive => ReceiveCustody(s, s');
    case Request => RequestCustody(s, s');
    case Send(_, _) => SendCustody(s, ev, s');
    case SendDelayed(_, _, _) => SendCustody(s, ev, s');
    case _ => OtherCustody(s, ev, s');
  }

  lemma WaitingEnvelope(got: seq<Receipt>, box: seq<int>, ids: seq<int>, hdr: seq<Header>, sent: seq<Message>, j: nat)
    requires MailboxOk(got, box, ids, hdr, sent) && j < |box|
    ensures |got| + j < |ids| && 0 <= ids[|got| + j] < |sent| && sent[ids[|got| + j]].envelope == box[j]
  {
    assert Receipt(box[j], hdr[box[j]].sender) == ReceiptFor(sent[ids[|got| + j]]);
  }

  // ----- All of it -----

  /** `s'` comes from `s` by the kernel event `ev`, which keeps all that is the kernel's own. */
  ghost predicate KernelMoves(s: System, ev: K.Event, s': System) {
    && SystemInv(s') && Custody(s'.place)
    && StepEffects(s, ev, s', PID_CRT) && StepEffects(s, ev, s', PID_KCD)
    && BoxOk(s', PID_CRT) && BoxOk(s', PID_KCD)
  }

  lemma KernelStepMoves(s: System, ev: K.Event, s': System)
    requires SystemInv(s) && K.Bounds(s) && K.Enabled(s, ev) && s' == K.Step(s, ev) && Custody(s.place)
    requires KeepsCustody(ev)
    ensures KernelMoves(s, ev, s')
  {
    K.StepKeepsInvariant(s, ev);
    CustodyStep(s, ev, s');
    Effects(s, ev, s', PID_CRT);
    Effects(s, ev, s', PID_KCD);
    MailboxIsBox(s', PID_CRT);
    MailboxIsBox(s', PID_KCD);
  }
}
