/**
 Where every envelope is and what became of every message: beside the kernel's own state, a ledger of places and a
 history of what was sent, delivered and received, with the invariants that tie them to the kernel's lists.
 */
module MessageHistory {
  import opened Constants
  import opened Integers
  import opened Sequences
  import opened MessageQueues
  import opened KernelState
  import opened KernelCalls

  /** Where an envelope is: free, in a mailbox, in the delayed queue, or in the hands of a process. */
  datatype Place = Free | Mailbox(pid: int) | InDelay | Held(pid: int)

  /** An accepted send: what was sent, by and to whom, when, and after which delay it should arrive (0: at once). */
  datatype Message = Message(envelope: int, sender: int, receiver: int, sentAt: int, delay: int32)

  /** What k_receive_message reported. */
  datatype Receipt = Receipt(envelope: int, sender: int)

  datatype System = System(
    k: State,
    receiving: set<int>,           // processes inside the loop of k_receive_message
    requesting: set<int>,          // processes inside the loop of k_request_memory_block
    place: seq<Place>,
    sent: seq<Message>,            // every message; its index is its number
    pending: seq<int>,             // numbers of the messages in the delayed queue
    delivered: seq<seq<int>>,      // for each process, numbers of the messages put in its mailbox so far
    received: seq<seq<Receipt>>,   // for each process, what it received so far
    notifIn: bool,                 // uart_iproc_notif_in: the UART process is ready to notify KCD
    notifOutSent: bool)            // first byte of notif_out_msg's body: CRT has not yet answered its notification

  /** The 32-bit sum of clock and delay, by which delayed messages are queued. */
  function Expiry(m: Message): int32 {
    Wrapped(m.sentAt + m.delay)
  }

  /** The first tick, from tick `from` on, at which the clock as an int has reached `expiry` (lemma FirstReading). */
  function ReachedAt(from: int, expiry: int32): (tick: int)
    ensures from <= tick
  {
    if expiry <= Wrapped(from) then from else from + (expiry - Wrapped(from))
  }

  lemma FirstReading(from: int, expiry: int32, tick: int)
    requires from <= tick <= ReachedAt(from, expiry)
    ensures expiry <= Wrapped(tick) <==> tick == ReachedAt(from, expiry)
  {
    if from < tick {
      WrappedAdd(from, tick - from);
    }
  }

  /**
   The tick at which a message should reach its receiver's mailbox: at once, or when its expiry is first seen reached.
   */
  function Due(m: Message): int {
    if m.delay == 0 then m.sentAt else ReachedAt(m.sentAt + 1, Expiry(m))
  }

  /** The sum of clock and delay does not overflow, or the clock itself is about to. */
  predicate InRange(m: Message) {
    Wrapped(m.sentAt) + m.delay <= INT_MAX || Wrapped(m.sentAt) == INT_MAX
  }

  /** A positive delay is kept exactly if it is in range; if not, the message is due on the very next tick. */
  lemma DelayIsKeptInRange(m: Message)
    requires m.delay > 0
    ensures Due(m) == m.sentAt + m.delay <==> InRange(m)
    ensures !InRange(m) ==> Due(m) == m.sentAt + 1
  {
    WrappedAdd(m.sentAt, m.delay);
    WrappedAdd(m.sentAt, 1);
  }

  /** A negative delay means the next tick, in the clock's first 2^31 ticks. */
  lemma NegativeDelayIsNextTick(m: Message)
    requires m.delay < 0 && 0 <= m.sentAt < INT_MAX
    ensures Due(m) == m.sentAt + 1
  {
  }

  /** The longest delay, given at tick 1, overflows: the message arrives at tick 2, ahead of all others due then. */
  lemma LongestDelayArrivesAtOnce(m: Message, sent: seq<Message>, id: int, other: int)
    requires m.sentAt == 1 && m.delay == INT_MAX
    requires 0 <= id < |sent| && 0 <= other < |sent| && sent[id] == m && id < other
    requires sent[other].delay != 0 && Due(sent[other]) == 2
    ensures Due(m) == 2 && Precedes(sent, id, other)
  {
    DelayIsKeptInRange(m);
    assert Expiry(m) == Wrapped(INT_MAX + 1) == INT_MIN;
  }

  /** Order in the delayed queue: by expiry, equal expiries in the order they were sent. */
  predicate Earlier(sent: seq<Message>, a: int, b: int)
  {
    && 0 <= a < |sent| && 0 <= b < |sent|
    && (Expiry(sent[a]) < Expiry(sent[b]) || (Expiry(sent[a]) == Expiry(sent[b]) && a < b))
  }

  /** Order of delivery: by due tick; at one tick the timer's deliveries come before that tick's immediate sends. */
  predicate Precedes(sent: seq<Message>, a: int, b: int)
  {
    && 0 <= a < |sent| && 0 <= b < |sent|
    && var x, y := sent[a], sent[b];
    || Due(x) < Due(y)
    || (Due(x) == Due(y) && x.delay != 0 && y.delay == 0)
    || (Due(x) == Due(y) && (x.delay == 0 <==> y.delay == 0) && Earlier(sent, a, b))
  }

  // ----- Invariants of ledger and history -----

  /** `list` names exactly the envelopes at `where`, each once. */
  ghost predicate ListsExactly(list: seq<int>, place: seq<Place>, where: Place) {
    NoDup(list) && forall e :: e in list <==> 0 <= e < |place| && place[e] == where
  }

  /** Every envelope is in exactly one place, and the kernel's lists say so too. */
  ghost predicate Ledger(k: State, place: seq<Place>) {
    && |place| == NUM_ENVELOPES && |k.mail| == NUM_PROCS
    && ListsExactly(k.heap, place, Free)
    && ListsExactly(k.delayed, place, InDelay)
    && (forall p :: 0 <= p < NUM_PROCS ==> ListsExactly(k.mail[p], place, Mailbox(p)))
    && place[NOTIF_IN] != Free && place[NOTIF_OUT] != Free
  }

  ghost predicate WellFormed(sent: seq<Message>, now: int) {
    forall id :: 0 <= id < |sent| ==>
                   && 0 <= sent[id].envelope < NUM_ENVELOPES && 0 <= sent[id].receiver < NUM_PROCS
                   && sent[id].sentAt <= now
  }

  /** The delayed queue holds exactly the pending messages, in order, and their envelopes carry their data. */
  ghost predicate DelayedQueue(pending: seq<int>, delayed: seq<int>, hdr: seq<Header>, sent: seq<Message>) {
    && |pending| == |delayed| && |hdr| == NUM_ENVELOPES
    && Within(pending, |sent|)
    && (forall i :: 0 <= i < |pending| ==> Carries(delayed[i], hdr, sent[pending[i]]))
    && (forall i, j :: 0 <= i < j < |pending| ==> Earlier(sent, pending[i], pending[j]))
  }

  ghost predicate Carries(e: int, hdr: seq<Header>, m: Message) {
    m.delay != 0 && m.envelope == e && 0 <= e < |hdr| && hdr[e] == Header(m.sender, m.receiver, Expiry(m))
  }

  function ReceiptFor(m: Message): Receipt {
    Receipt(m.envelope, m.sender)
  }

  /**
   What a process received (`got`) followed by what is in its mailbox (`box`) is what was delivered to it (`ids`),
   message by message, with the true sender in each case.
   */
  ghost predicate MailboxOk(got: seq<Receipt>, box: seq<int>, ids: seq<int>, hdr: seq<Header>, sent: seq<Message>) {
    && |ids| == |got| + |box| && Within(ids, |sent|) && Within(box, |hdr|)
    && (forall i :: 0 <= i < |got| ==> got[i] == ReceiptFor(sent[ids[i]]))
    && (forall j :: 0 <= j < |box| ==> Receipt(box[j], hdr[box[j]].sender) == ReceiptFor(sent[ids[|got| + j]]))
    && (forall i, j :: 0 <= i < j < |ids| ==> Precedes(sent, ids[i], ids[j]))
  }

  /** Each message is pending, in transit (`transit`), or delivered to its receiver and nobody else. */
  ghost predicate Accounted(sent: seq<Message>, pending: seq<int>, delivered: seq<seq<int>>, transit: set<int>) {
    forall p :: 0 <= p < |delivered| ==> AccountedAt(sent, pending, delivered[p], p, transit)
  }

  ghost predicate AccountedAt(sent: seq<Message>, pending: seq<int>, ids: seq<int>, p: int, transit: set<int>) {
    forall id :: id in ids <==> 0 <= id < |sent| && sent[id].receiver == p && id !in pending && id !in transit
  }

  ghost predicate Traffic(s: System, transit: set<int>) {
    && |s.k.mail| == NUM_PROCS && |s.k.hdr| == NUM_ENVELOPES
    && |s.delivered| == NUM_PROCS && |s.received| == NUM_PROCS
    && WellFormed(s.sent, s.k.now)
    && DelayedQueue(s.pending, s.k.delayed, s.k.hdr, s.sent)
    && Accounted(s.sent, s.pending, s.delivered, transit)
    && forall p :: 0 <= p < NUM_PROCS ==> MailboxOk(s.received[p], s.k.mail[p], s.delivered[p], s.k.hdr, s.sent)
  }

  /** A message is in the delayed queue exactly until its due tick. */
  ghost predicate OnTime(sent: seq<Message>, pending: seq<int>, now: int) {
    forall id :: 0 <= id < |sent| ==> (id in pending <==> now < Due(sent[id]))
  }

  ghost predicate SystemInv(s: System) {
    && Quiescent(s.k, s.receiving, s.requesting)
    && Ledger(s.k, s.place)
    && Traffic(s, {}) && OnTime(s.sent, s.pending, s.k.now)
    && NotificationFlags(s.place, s.notifIn, s.notifOutSent)
  }

  /** The two flags by which the UART process goes say whether it has its notifications. */
  ghost predicate NotificationFlags(place: seq<Place>, notifIn: bool, notifOutSent: bool) {
    && |place| == NUM_ENVELOPES
    && (notifIn <==> place[NOTIF_IN] == Held(PID_UART_IPROC))
    && (!notifOutSent <==> place[NOTIF_OUT] == Held(PID_UART_IPROC))
  }

  lemma FreeListBound(heap: seq<int>, place: seq<Place>, e: int)
    requires |place| == NUM_ENVELOPES && ListsExactly(heap, place, Free) && 0 <= e < NUM_MEM_BLOCKS && place[e] != Free
    requires place[NOTIF_IN] != Free && place[NOTIF_OUT] != Free
    ensures |heap| < NUM_MEM_BLOCKS
  {
    Pigeonhole(heap, NUM_MEM_BLOCKS, e);
  }

  // ----- Delivery -----

  /** Put message number `id` into its receiver's mailbox. */
  function Post(s: System, id: int): (s': System)
    requires Shape(s.k) && |s.place| == NUM_ENVELOPES && |s.delivered| == NUM_PROCS
    requires 0 <= id < |s.sent| && WellFormed(s.sent, s.k.now)
    ensures s' == s.(k := s'.k, place := s'.place, delivered := s'.delivered)
  {
    var m := s.sent[id];
    s.(k := SendHelper(s.k, m.sender, m.receiver, m.envelope),
       place := s.place[m.envelope := Mailbox(m.receiver)],
       delivered := s.delivered[m.receiver := s.delivered[m.receiver] + [id]])
  }

  lemma LedgerKernel(k: State, k': State, place: seq<Place>)
    requires Ledger(k, place) && SameMessages(k, k')
    ensures Ledger(k', place)
  {
  }

  lemma TrafficKernel(s: System, k': State)
    requires Traffic(s, {}) && SameMessages(s.k, k')
    ensures Traffic(s.(k := k'), {})
  {
  }

  lemma ListsMove(list: seq<int>, place: seq<Place>, where: Place, e: int, to: Place)
    requires ListsExactly(list, place, where) && 0 <= e < |place| && place[e] != where
    ensures to != where ==> ListsExactly(list, place[e := to], where)
    ensures to == where ==> ListsExactly(list + [e], place[e := to], where)
  {
    var grown := list + [e];
    assert forall x :: x in grown <==> x in list || x == e;
  }

  lemma DeliveryKeepsLedger(k: State, place: seq<Place>, sender: int, receiver: int, e: int)
    requires Shape(k) && Ledger(k, place) && 0 <= receiver < NUM_PROCS && 0 <= e < NUM_ENVELOPES && place[e].Held?
    ensures Ledger(SendHelper(k, sender, receiver, e), place[e := Mailbox(receiver)])
  {
    var k' := SendHelper(k, sender, receiver, e);
    ListsMove(k.heap, place, Free, e, Mailbox(receiver));
    ListsMove(k.delayed, place, InDelay, e, Mailbox(receiver));
    forall p | 0 <= p < NUM_PROCS ensures ListsExactly(k'.mail[p], place[e := Mailbox(receiver)], Mailbox(p)) {
      ListsMove(k.mail[p], place, Mailbox(p), e, Mailbox(receiver));
    }
  }

  lemma PostKeepsLedger(s: System, id: int)
    requires Shape(s.k) && Ledger(s.k, s.place) && |s.delivered| == NUM_PROCS
    requires 0 <= id < |s.sent| && WellFormed(s.sent, s.k.now)
    requires s.place[s.sent[id].envelope].Held?
    ensures Ledger(Post(s, id).k, Post(s, id).place)
  {
    var m := s.sent[id];
    DeliveryKeepsLedger(s.k, s.place, m.sender, m.receiver, m.envelope);
  }

  /** Rewriting the header of an envelope in nobody's mailbox or the delayed queue disturbs no message. */
  lemma HeaderFrame(got: seq<Receipt>, box: seq<int>, ids: seq<int>, hdr: seq<Header>, sent: seq<Message>,
                e: int, h: Header)
    requires MailboxOk(got, box, ids, hdr, sent) && 0 <= e < |hdr| && e !in box
    ensures MailboxOk(got, box, ids, hdr[e := h], sent)
  {
  }

  lemma DelayedFrame(pending: seq<int>, delayed: seq<int>, hdr: seq<Header>, sent: seq<Message>, e: int, h: Header)
    requires DelayedQueue(pending, delayed, hdr, sent) && 0 <= e < |hdr| && e !in delayed
    ensures DelayedQueue(pending, delayed, hdr[e := h], sent)
  {
  }

  lemma MailboxGrows(got: seq<Receipt>, box: seq<int>, ids: seq<int>, hdr: seq<Header>, sent: seq<Message>, id: int)
    requires MailboxOk(got, box, ids, hdr, sent) && 0 <= id < |sent| && 0 <= sent[id].envelope < |hdr|
    requires hdr[sent[id].envelope].sender == sent[id].sender
    requires forall x :: x in ids ==> Precedes(sent, x, id)
    ensures MailboxOk(got, box + [sent[id].envelope], ids + [id], hdr, sent)
  {
    forall i | 0 <= i < |ids| ensures Precedes(sent, ids[i], id) {
      assert ids[i] in ids;
    }
  }

  lemma PostKeepsTraffic(s: System, id: int)
    requires Shape(s.k) && Ledger(s.k, s.place) && Traffic(s, {id}) && 0 <= id < |s.sent| && id !in s.pending
    requires s.place[s.sent[id].envelope].Held?
    requires forall x :: x in s.delivered[s.sent[id].receiver] ==> Precedes(s.sent, x, id)
    ensures Traffic(Post(s, id), {})
  {
    var m, s' := s.sent[id], Post(s, id);
    DelayedFrame(s.pending, s.k.delayed, s.k.hdr, s.sent, m.envelope, s'.k.hdr[m.envelope]);
    forall p | 0 <= p < NUM_PROCS
      ensures MailboxOk(s'.received[p], s'.k.mail[p], s'.delivered[p], s'.k.hdr, s'.sent)
      ensures AccountedAt(s'.sent, s'.pending, s'.delivered[p], p, {})
    {
      assert ListsExactly(s.k.mail[p], s.place, Mailbox(p));
      HeaderFrame(s.received[p], s.k.mail[p], s.delivered[p], s.k.hdr, s.sent, m.envelope, s'.k.hdr[m.envelope]);
      if p == m.receiver {
        MailboxGrows(s.received[p], s.k.mail[p], s.delivered[p], s'.k.hdr, s.sent, id);
      }
      assert AccountedAt(s.sent, s.pending, s.delivered[p], p, {id});
    }
  }

  // ----- New messages -----

  lemma WithoutRepeats(sent: seq<Message>, pending: seq<int>)
    requires forall i, j :: 0 <= i < j < |pending| ==> Earlier(sent, pending[i], pending[j])
    ensures NoDup(pending)
  {
    forall i, j | 0 <= i < j < |pending| ensures pending[i] != pending[j] {
      assert Earlier(sent, pending[i], pending[j]);
    }
  }

  lemma SentGrows(s: System, m: Message)
    requires Traffic(s, {}) && OnTime(s.sent, s.pending, s.k.now)
    requires 0 <= m.envelope < NUM_ENVELOPES && 0 <= m.receiver < NUM_PROCS && m.sentAt <= s.k.now
    ensures Traffic(s.(sent := s.sent + [m]), {|s.sent|})
    ensures |s.sent| !in s.pending
  {
    var s' := s.(sent := s.sent + [m]);
    var id := |s.sent|;
    assert id !in s.pending;
    assert forall x, y :: 0 <= x < id && 0 <= y < id ==> Earlier(s'.sent, x, y) == Earlier(s.sent, x, y);
    forall p | 0 <= p < NUM_PROCS
      ensures MailboxOk(s'.received[p], s'.k.mail[p], s'.delivered[p], s'.k.hdr, s'.sent)
      ensures AccountedAt(s'.sent, s'.pending, s'.delivered[p], p, {id})
    {
      assert AccountedAt(s.sent, s.pending, s.delivered[p], p, {});
      MailboxExtends(s.received[p], s.k.mail[p], s.delivered[p], s.k.hdr, s.sent, m);
    }
  }

  lemma MailboxExtends(got: seq<Receipt>, box: seq<int>, ids: seq<int>, hdr: seq<Header>, sent: seq<Message>,
                m: Message)
    requires MailboxOk(got, box, ids, hdr, sent)
    ensures MailboxOk(got, box, ids, hdr, sent + [m])
  {
    forall i, j | 0 <= i < j < |ids| ensures Precedes(sent + [m], ids[i], ids[j]) {
      assert Precedes(sent, ids[i], ids[j]);
    }
  }

  /** An immediate send: recorded, and delivered on the spot. */
  function Immediate(s: System, sender: int, receiver: int, e: int): System
    requires Shape(s.k) && |s.place| == NUM_ENVELOPES && |s.delivered| == NUM_PROCS && WellFormed(s.sent, s.k.now)
    requires 0 <= receiver < NUM_PROCS && 0 <= e < NUM_ENVELOPES
  {
    Post(s.(sent := s.sent + [Message(e, sender, receiver, s.k.now, 0)]), |s.sent|)
  }

  lemma ImmediateKeeps(s: System, sender: int, receiver: int, e: int)
    requires Shape(s.k) && Ledger(s.k, s.place) && Traffic(s, {}) && OnTime(s.sent, s.pending, s.k.now)
    requires 0 <= receiver < NUM_PROCS && 0 <= e < NUM_ENVELOPES && s.place[e].Held?
    ensures var s' := Immediate(s, sender, receiver, e);
            Ledger(s'.k, s'.place) && Traffic(s', {}) && OnTime(s'.sent, s'.pending, s'.k.now)
  {
    var m, id := Message(e, sender, receiver, s.k.now, 0), |s.sent|;
    var s1 := s.(sent := s.sent + [m]);
    SentGrows(s, m);
    forall x | x in s1.delivered[receiver] ensures Precedes(s1.sent, x, id) {
      assert AccountedAt(s.sent, s.pending, s.delivered[receiver], receiver, {});
      assert s1.sent[x] == s.sent[x] && Due(s.sent[x]) <= s.k.now;
    }
    PostKeepsLedger(s1, id);
    PostKeepsTraffic(s1, id);
  }

  /** A delayed send: recorded, and queued by expiry. */
  function Later(s: System, sender: int, receiver: int, e: int, delay: int32): System
    requires |s.place| == NUM_ENVELOPES == |s.k.hdr| && Within(s.k.delayed, NUM_ENVELOPES) &&
              |s.pending| == |s.k.delayed|
    requires 0 <= e < NUM_ENVELOPES
  {
    var hdr := s.k.hdr[e := Header(sender, receiver, Wrapped(s.k.now + delay))];
    var at := Position(Expiries(hdr, s.k.delayed), Wrapped(s.k.now + delay));
    s.(k := QueueDelayed(s.k, sender, receiver, e, delay),
       place := s.place[e := InDelay],
       sent := s.sent + [Message(e, sender, receiver, s.k.now, delay)],
       pending := InsertAt(s.pending, at, |s.sent|))
  }

  lemma InsertListed(list: seq<int>, place: seq<Place>, where: Place, e: int, at: nat)
    requires ListsExactly(list, place, where) && 0 <= e < |place| && place[e] != where && at <= |list|
    ensures ListsExactly(InsertAt(list, at, e), place[e := where], where)
  {
    assert forall i :: 0 <= i < |list| ==> list[i] in list;
    InsertAtFacts(list, |place|, at, e);
    var list' := InsertAt(list, at, e);
    InsertAtMembers(list, at, e);
  }

  /** Where a new message goes among the pending ones: behind those that are earlier, before those that are later. */
  lemma PositionIsByOrder(pending: seq<int>, delayed: seq<int>, hdr: seq<Header>, sent: seq<Message>, id: int)
    requires DelayedQueue(pending, delayed, hdr, sent) && 0 <= id < |sent| && forall x :: x in pending ==> x < id
    ensures Within(delayed, |hdr|)
    ensures var at := Position(Expiries(hdr, delayed), Expiry(sent[id]));
            forall i :: 0 <= i < |pending| ==>
                  if i < at then Earlier(sent, pending[i], id) else Earlier(sent, id, pending[i])
  {
    forall i | 0 <= i < |delayed| ensures 0 <= delayed[i] < |hdr| &&
          hdr[delayed[i]].expiry == Expiry(sent[pending[i]]) {
      assert Carries(delayed[i], hdr, sent[pending[i]]);
    }
    var keys := Expiries(hdr, delayed);
    assert Ascending(keys) by {
      forall i, j | 0 <= i < j < |keys| ensures keys[i] <= keys[j] {
        assert Earlier(sent, pending[i], pending[j]);
      }
    }
    InsertionIsSortedAndStable(keys, Expiry(sent[id]));
    forall i | 0 <= i < |pending| ensures pending[i] < id && keys[i] == Expiry(sent[pending[i]]) {
      assert pending[i] in pending;
    }
  }

  lemma DelayedQueueGrows(pending: seq<int>, delayed: seq<int>, hdr: seq<Header>, sent: seq<Message>, id: int)
    requires DelayedQueue(pending, delayed, hdr, sent)
    requires 0 <= id < |sent| && Carries(sent[id].envelope, hdr, sent[id])
    requires forall x :: x in pending ==> x < id
    ensures Within(delayed, |hdr|)
    ensures var at := Position(Expiries(hdr, delayed), Expiry(sent[id]));
            DelayedQueue(InsertAt(pending, at, id), InsertAt(delayed, at, sent[id].envelope), hdr, sent)
  {
    PositionIsByOrder(pending, delayed, hdr, sent, id);
    InsertionOrdered(pending, sent, Position(Expiries(hdr, delayed), Expiry(sent[id])), id);
  }

  lemma InsertionOrdered(pending: seq<int>, sent: seq<Message>, at: nat, id: int)
    requires at <= |pending|
    requires forall i, j :: 0 <= i < j < |pending| ==> Earlier(sent, pending[i], pending[j])
    requires forall i :: 0 <= i < |pending| ==>
              if i < at then Earlier(sent, pending[i], id) else Earlier(sent, id, pending[i])
    ensures var p := InsertAt(pending, at, id); forall i, j :: 0 <= i < j < |p| ==> Earlier(sent, p[i], p[j])
  {
  }

  lemma LaterKeepsLedger(s: System, sender: int, receiver: int, e: int, delay: int32)
    requires Shape(s.k) && Ledger(s.k, s.place) && |s.pending| == |s.k.delayed|
    requires 0 <= e < NUM_ENVELOPES && s.place[e].Held?
    ensures var s' := Later(s, sender, receiver, e, delay); Ledger(s'.k, s'.place)
  {
    var s' := Later(s, sender, receiver, e, delay);
    InsertListed(s.k.delayed, s.place, InDelay, e, Position(Expiries(s'.k.hdr, s.k.delayed), Wrapped(s.k.now + delay)));
    ListsMove(s.k.heap, s.place, Free, e, InDelay);
    forall p | 0 <= p < NUM_PROCS ensures ListsExactly(s'.k.mail[p], s'.place, Mailbox(p)) {
      ListsMove(s.k.mail[p], s.place, Mailbox(p), e, InDelay);
    }
  }

  lemma InsertAtMembers<T>(s: seq<T>, at: nat, x: T)
    requires at <= |s|
    ensures forall y :: y in InsertAt(s, at, x) <==> y in s || y == x
  {
    assert s == s[..at] + s[at..];
  }

  lemma QueueTakesMessage(pending: seq<int>, delayed: seq<int>, hdr: seq<Header>, sent: seq<Message>, m: Message,
                          hdr': seq<Header>, at: nat)
    requires DelayedQueue(pending, delayed, hdr, sent)
    requires 0 <= m.envelope < |hdr| && m.envelope !in delayed && m.delay != 0
    requires hdr' == hdr[m.envelope := Header(m.sender, m.receiver, Expiry(m))]
    requires Within(delayed, |hdr'|) && at == Position(Expiries(hdr', delayed), Expiry(m))
    ensures DelayedQueue(InsertAt(pending, at, |sent|), InsertAt(delayed, at, m.envelope), hdr', sent + [m])
  {
    var sent' := sent + [m];
    assert forall i, j :: 0 <= i < j < |pending| ==> Earlier(sent', pending[i], pending[j]) by {
      forall i, j | 0 <= i < j < |pending| ensures Earlier(sent', pending[i], pending[j]) {
        assert Earlier(sent, pending[i], pending[j]);
      }
    }
    DelayedFrame(pending, delayed, hdr, sent', m.envelope, hdr'[m.envelope]);
    DelayedQueueGrows(pending, delayed, hdr', sent', |sent|);
  }

  lemma LaterKeepsQueue(s: System, sender: int, receiver: int, e: int, delay: int32, s': System)
    requires Shape(s.k) && |s.place| == NUM_ENVELOPES && DelayedQueue(s.pending, s.k.delayed, s.k.hdr, s.sent)
    requires 0 <= e < NUM_ENVELOPES && e !in s.k.delayed && delay != 0 && s' == Later(s, sender, receiver, e, delay)
    ensures DelayedQueue(s'.pending, s'.k.delayed, s'.k.hdr, s'.sent)
  {
    var m := Message(e, sender, receiver, s.k.now, delay);
    var at := Position(Expiries(s'.k.hdr, s.k.delayed), Wrapped(s.k.now + delay));
    assert s'.pending == InsertAt(s.pending, at, |s.sent|) && s'.k.delayed == InsertAt(s.k.delayed, at, e);
    assert s'.sent == s.sent + [m];
    QueueTakesMessage(s.pending, s.k.delayed, s.k.hdr, s.sent, m, s'.k.hdr, at);
  }

  lemma LaterOnTime(s: System, sender: int, receiver: int, e: int, delay: int32)
    requires Shape(s.k) && |s.place| == NUM_ENVELOPES && |s.pending| == |s.k.delayed| && Within(s.pending, |s.sent|)
    requires OnTime(s.sent, s.pending, s.k.now) && 0 <= e < NUM_ENVELOPES && delay != 0
    ensures var s' := Later(s, sender, receiver, e, delay);
            && OnTime(s'.sent, s'.pending, s'.k.now)
            && forall x :: x in s'.pending <==> x in s.pending || x == |s.sent|
  {
    var hdr := s.k.hdr[e := Header(sender, receiver, Wrapped(s.k.now + delay))];
    InsertAtMembers(s.pending, Position(Expiries(hdr, s.k.delayed), Wrapped(s.k.now + delay)), |s.sent|);
  }

  lemma LaterKeepsTraffic(s: System, sender: int, receiver: int, e: int, delay: int32)
    requires Shape(s.k) && Ledger(s.k, s.place) && Traffic(s, {}) && OnTime(s.sent, s.pending, s.k.now)
    requires 0 <= receiver < NUM_PROCS && 0 <= e < NUM_ENVELOPES && s.place[e].Held? && delay != 0
    ensures var s' := Later(s, sender, receiver, e, delay);
            Traffic(s', {}) && OnTime(s'.sent, s'.pending, s'.k.now)
  {
    var m, id := Message(e, sender, receiver, s.k.now, delay), |s.sent|;
    var s' := Later(s, sender, receiver, e, delay);
    LaterKeepsQueue(s, sender, receiver, e, delay, s');
    LaterOnTime(s, sender, receiver, e, delay);
    forall p | 0 <= p < NUM_PROCS
      ensures MailboxOk(s'.received[p], s'.k.mail[p], s'.delivered[p], s'.k.hdr, s'.sent)
      ensures AccountedAt(s'.sent, s'.pending, s'.delivered[p], p, {})
    {
      assert ListsExactly(s.k.mail[p], s.place, Mailbox(p));
      HeaderFrame(s.received[p], s.k.mail[p], s.delivered[p], s.k.hdr, s.sent, e, s'.k.hdr[e]);
      MailboxExtends(s.received[p], s.k.mail[p], s.delivered[p], s'.k.hdr, s.sent, m);
      assert AccountedAt(s.sent, s.pending, s.delivered[p], p, {});
    }
  }

  // ----- The timer -----

  /** The message at the front of the delayed queue is taken out; the timer process holds its envelope. */
  function TakeDue(s: System): System
    requires |s.place| == NUM_ENVELOPES && |s.pending| == |s.k.delayed| > 0 && Within(s.k.delayed, NUM_ENVELOPES)
  {
    s.(k := s.k.(delayed := s.k.delayed[1..]),
       place := s.place[s.k.delayed[0] := Held(PID_TIMER_IPROC)],
       pending := s.pending[1..])
  }

  /** What the history needs for a tick to be processed. */
  ghost predicate Ready(s: System) {
    && Shape(s.k) && |s.place| == NUM_ENVELOPES && |s.delivered| == NUM_PROCS && WellFormed(s.sent, s.k.now)
    && |s.pending| == |s.k.delayed| && Within(s.pending, |s.sent|)
  }

  /** The ledger and history after the timer delivered everything that is due. */
  function Deliveries(s: System): (s': System)
    requires Ready(s)
    ensures s' == s.(k := s'.k, place := s'.place, pending := s'.pending, delivered := s'.delivered)
    decreases |s.pending|
  {
    if s.pending == [] || s.k.hdr[s.k.delayed[0]].expiry > Wrapped(s.k.now) then s
    else Deliveries(Post(TakeDue(s), s.pending[0]))
  }

  /**
   In the middle of a tick: what is pending is not overdue, and what was delivered in this tick came before everything
   still pending.
   */
  ghost predicate MidTick(sent: seq<Message>, pending: seq<int>, now: int) {
    && (forall b :: b in pending ==> 0 <= b < |sent| && sent[b].sentAt < now <= Due(sent[b]))
    && (forall a :: 0 <= a < |sent| && a !in pending ==> Due(sent[a]) <= now)
    && (forall a, b :: 0 <= a < |sent| && a !in pending && Due(sent[a]) == now && b in pending ==>
                         sent[a].delay != 0 && Earlier(sent, a, b))
  }

  lemma DueLeavesQueue(k: State, place: seq<Place>)
    requires Shape(k) && Ledger(k, place) && k.delayed != []
    ensures Ledger(k.(delayed := k.delayed[1..]), place[k.delayed[0] := Held(PID_TIMER_IPROC)])
  {
    var e, tail, to := k.delayed[0], k.delayed[1..], Held(PID_TIMER_IPROC);
    assert k.delayed == [e] + tail;
    assert e in k.delayed;
    ListsMove(k.heap, place, Free, e, to);
    assert ListsExactly(tail, place[e := to], InDelay);
    forall p | 0 <= p < NUM_PROCS ensures ListsExactly(k.mail[p], place[e := to], Mailbox(p)) {
      ListsMove(k.mail[p], place, Mailbox(p), e, to);
    }
  }

  lemma DelayedQueueTail(pending: seq<int>, delayed: seq<int>, hdr: seq<Header>, sent: seq<Message>)
    requires DelayedQueue(pending, delayed, hdr, sent) && pending != []
    ensures DelayedQueue(pending[1..], delayed[1..], hdr, sent)
    ensures Carries(delayed[0], hdr, sent[pending[0]]) && pending[0] !in pending[1..]
    ensures forall x :: x in pending <==> x in pending[1..] || x == pending[0]
  {
    WithoutRepeats(sent, pending);
    assert pending == [pending[0]] + pending[1..];
    forall i | 0 <= i < |pending[1..]| ensures Carries(delayed[1..][i], hdr, sent[pending[1..][i]]) {
      assert Carries(delayed[i + 1], hdr, sent[pending[i + 1]]);
    }
  }

  lemma TakeDueKeepsTraffic(s: System)
    requires Ready(s) && Traffic(s, {}) && s.pending != []
    ensures Traffic(TakeDue(s), {s.pending[0]})
  {
    var s1, id := TakeDue(s), s.pending[0];
    DelayedQueueTail(s.pending, s.k.delayed, s.k.hdr, s.sent);
    forall p | 0 <= p < NUM_PROCS ensures AccountedAt(s1.sent, s1.pending, s1.delivered[p], p, {id}) {
      assert AccountedAt(s.sent, s.pending, s.delivered[p], p, {});
    }
  }

  /** Envelopes move from the delayed queue to mailboxes, and nowhere else. */
  ghost predicate OnlyDeliveries(place: seq<Place>, place': seq<Place>) {
    && |place'| == |place|
    && forall e :: 0 <= e < |place| ==> place'[e] == place[e] || (place[e] == InDelay && place'[e].Mailbox?)
  }

  /** One round of the loop of k_check_delayed_messages. */
  lemma DeliverNext(s: System)
    requires Ready(s) && Ledger(s.k, s.place) && Traffic(s, {}) && MidTick(s.sent, s.pending, s.k.now)
    requires s.pending != [] && s.k.hdr[s.k.delayed[0]].expiry <= Wrapped(s.k.now)
    ensures var e, s2 := s.k.delayed[0], Post(TakeDue(s), s.pending[0]);
            && Ready(s2) && Ledger(s2.k, s2.place) && Traffic(s2, {}) && MidTick(s2.sent, s2.pending, s2.k.now)
            && s2.k == SendHelper(s.k.(delayed := s.k.delayed[1..]), s.k.hdr[e].sender, s.k.hdr[e].receiver, e)
            && OnlyDeliveries(s.place, s2.place)
  {
    var s1, id := TakeDue(s), s.pending[0];
    DueLeavesQueue(s.k, s.place);
    TakeDueKeepsTraffic(s);
    DelayedQueueTail(s.pending, s.k.delayed, s.k.hdr, s.sent);
    assert id in s.pending;
    DueIsNow(s.sent[id], s.k.now);
    MidTickNext(s.sent, s.pending, s.k.now);
    var r := s.sent[id].receiver;
    forall x | x in s1.delivered[r] ensures Precedes(s.sent, x, id) {
      assert AccountedAt(s.sent, s.pending, s.delivered[r], r, {});
      assert id in s.pending;
    }
    PostKeepsLedger(s1, id);
    PostKeepsTraffic(s1, id);
  }

  lemma {:induction false} DeliveriesKeep(s: System)
    requires Ready(s) && Ledger(s.k, s.place) && Traffic(s, {}) && MidTick(s.sent, s.pending, s.k.now)
    ensures var s' := Deliveries(s);
            && s'.k == DeliverDue(s.k)
            && Ledger(s'.k, s'.place) && Traffic(s', {}) && OnTime(s'.sent, s'.pending, s'.k.now)
            && OnlyDeliveries(s.place, s'.place)
    decreases |s.pending|
  {
    if s.pending == [] || s.k.hdr[s.k.delayed[0]].expiry > Wrapped(s.k.now) {
      AllDelivered(s);
    } else {
      DeliverNext(s);
      DeliveriesKeep(Post(TakeDue(s), s.pending[0]));
    }
  }

  /** Not overdue and with its expiry reached, a message is due now. */
  lemma DueIsNow(m: Message, now: int)
    requires m.delay != 0 && m.sentAt < now <= Due(m)
    ensures Expiry(m) <= Wrapped(now) <==> Due(m) == now
  {
    FirstReading(m.sentAt + 1, Expiry(m), now);
  }

  lemma MidTickNext(sent: seq<Message>, pending: seq<int>, now: int)
    requires MidTick(sent, pending, now) && pending != [] && Within(pending, |sent|)
    requires Due(sent[pending[0]]) == now && sent[pending[0]].delay != 0
    requires forall i, j :: 0 <= i < j < |pending| ==> Earlier(sent, pending[i], pending[j])
    ensures MidTick(sent, pending[1..], now)
  {
    assert pending == [pending[0]] + pending[1..];
    forall b | b in pending[1..] ensures Earlier(sent, pending[0], b) {
    }
  }

  /** When the front of the queue is not due, nothing is. */
  lemma AllDelivered(s: System)
    requires Ready(s) && Traffic(s, {}) && MidTick(s.sent, s.pending, s.k.now)
    requires s.pending == [] || s.k.hdr[s.k.delayed[0]].expiry > Wrapped(s.k.now)
    ensures OnTime(s.sent, s.pending, s.k.now)
  {
    forall b | b in s.pending ensures s.k.now < Due(s.sent[b]) {
      var i :| 0 <= i < |s.pending| && s.pending[i] == b;
      assert Carries(s.k.delayed[0], s.k.hdr, s.sent[s.pending[0]]);
      assert Carries(s.k.delayed[i], s.k.hdr, s.sent[b]);
      if i > 0 {
        assert Earlier(s.sent, s.pending[0], s.pending[i]);
      }
      DueIsNow(s.sent[b], s.k.now);
    }
  }
}
