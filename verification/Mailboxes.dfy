/**
 The kernel's mailboxes of CRT and KCD as these two read them: each message with what it says, as a list of letters, and
 how that list follows the kernel's steps and theirs.
 */
module Mailboxes {
  import opened Constants
  import opened Sequences
  import opened MessageQueues
  import opened MessageHistory
  import opened MailEffects
  import K = KernelRuns
  import U = UartOutputs
  import I = UartInputs

  // ----- Messages as their receivers see them -----

  /** What a message says: CRT_DISPLAY with a text, KCD_REG with a prefix, a command line, or anything else. */
  datatype Body = Display(text: U.Text) | Registration(prefix: seq<char>) | Command(line: seq<char>) | Other

  /** A message with what it says. */
  datatype Letter = Letter(m: Message, body: Body)

  /** The distinctions that proc_crt makes. */
  function ForCrt(l: Letter): U.CrtMessage {
    if l.body.Display? then U.Display(l.body.text)
    else if l.m.sender == PID_UART_IPROC then U.Notification
    else U.Junk
  }

  /** The distinctions that proc_kcd makes. */
  function ForKcd(l: Letter): I.KcdMessage {
    if l.body.Registration? && 0 <= l.m.sender < NUM_PROCS then I.Register(I.Entry(l.m.sender, l.body.prefix))
    else if l.m.sender == PID_UART_IPROC then I.LineNotification
    else I.Junk
  }

  function CrtMail(letters: seq<Letter>): (mail: seq<U.CrtMessage>)
    ensures |mail| == |letters|
  {
    seq(|letters|, i requires 0 <= i < |letters| => ForCrt(letters[i]))
  }

  function KcdMail(letters: seq<Letter>): (mail: seq<I.KcdMessage>)
    ensures |mail| == |letters|
  {
    seq(|letters|, i requires 0 <= i < |letters| => ForKcd(letters[i]))
  }

  function LetterAt(sent: seq<Message>, bodies: seq<Body>, id: int): Letter {
    if 0 <= id < |sent| && id < |bodies| then Letter(sent[id], bodies[id]) else Letter(Message(0, 0, 0, 0, 0), Other)
  }

  /** The messages with these numbers. */
  function Letters(sent: seq<Message>, bodies: seq<Body>, ids: seq<int>): (letters: seq<Letter>)
    ensures |letters| == |ids|
  {
    seq(|ids|, i requires 0 <= i < |ids| => LetterAt(sent, bodies, ids[i]))
  }

  /** What was put into the mailbox of `p` in a step. */
  function NewLetters(s: System, s': System, bodies: seq<Body>, p: int): seq<Letter> {
    if 0 <= p < |s.delivered| && p < |s'.delivered|
    then Letters(s'.sent, bodies, Since(s.delivered[p], s'.delivered[p])) else []
  }

  /** The contents of the messages, when a step may have sent one more. */
  function BodiesAfter(bodies: seq<Body>, s': System, body: Body): seq<Body> {
    if |s'.sent| > |bodies| then bodies + [body] else bodies
  }

  // ----- The mailboxes as lists of letters -----

  /** All that was put into the mailbox of `p`. */
  function All(s: System, bodies: seq<Body>, p: int): seq<Letter>
    requires 0 <= p < |s.delivered|
  {
    Letters(s.sent, bodies, s.delivered[p])
  }

  /** What `p` took out. */
  function Taken(s: System, bodies: seq<Body>, p: int): seq<Letter>
    requires 0 <= p < |s.delivered| && p < |s.received| && |s.received[p]| <= |s.delivered[p]|
  {
    All(s, bodies, p)[..|s.received[p]|]
  }

  /** What is still in it. */
  function Box(s: System, bodies: seq<Body>, p: int): seq<Letter>
    requires 0 <= p < |s.delivered| && p < |s.received| && |s.received[p]| <= |s.delivered[p]|
  {
    All(s, bodies, p)[|s.received[p]|..]
  }

  lemma LettersGrow(s: System, s': System, bodies: seq<Body>, bodies': seq<Body>, p: int)
    requires MailGrows(s, s', p) && Within(s.delivered[p], |s.sent|) && |bodies| == |s.sent| && bodies <= bodies'
    ensures All(s', bodies', p) == All(s, bodies, p) + NewLetters(s, s', bodies', p)
  {
    var before, after := s.delivered[p], s'.delivered[p];
    assert forall i :: 0 <= i < |before| ==>
                         && after[i] == before[i]
                         && LetterAt(s'.sent, bodies', after[i]) == LetterAt(s.sent, bodies, before[i]);
    assert after[..|before|] == before;
  }

  lemma BoxMoves(s: System, ev: K.Event, s': System, bodies: seq<Body>, bodies': seq<Body>, p: int)
    requires BoxOk(s, p) && MailGrows(s, s', p) && ReceivedMoves(s, ev, s', p)
    requires |bodies| == |s.sent| && bodies <= bodies'
    ensures |s'.received[p]| <= |s'.delivered[p]|
    ensures Gets(s, ev, p) ==> Box(s, bodies, p) != [] && Box(s', bodies', p) == Box(s, bodies, p)[1..]
    ensures Gets(s, ev, p) ==> Taken(s', bodies', p) == Taken(s, bodies, p) + [Box(s, bodies, p)[0]]
    ensures Gets(s, ev, p) ==> All(s', bodies', p) == All(s, bodies, p)
    ensures !Gets(s, ev, p) ==> Box(s', bodies', p) == Box(s, bodies, p) + NewLetters(s, s', bodies', p)
    ensures !Gets(s, ev, p) ==> Taken(s', bodies', p) == Taken(s, bodies, p)
  {
    LettersGrow(s, s', bodies, bodies', p);
    if Gets(s, ev, p) {
      NothingNew(s.delivered[p]);
      assert All(s', bodies', p) == All(s, bodies, p);
    }
  }

  /** Senders are processes; what the UART process sends is sent at once, and only says that it is a notification. */
  ghost predicate FromUart(sent: seq<Message>, bodies: seq<Body>) {
    && |bodies| == |sent|
    && forall id :: 0 <= id < |sent| ==>
                      && (sent[id].sender == PID_UART_IPROC ==> sent[id].delay == 0 && bodies[id] == Other)
                      && (sent[id].envelope in {NOTIF_IN, NOTIF_OUT} ==> sent[id].sender == PID_UART_IPROC)
                      && 0 <= sent[id].sender < NUM_PROCS
  }

  lemma FromUartGrows(s: System, ev: K.Event, s': System, bodies: seq<Body>, body: Body, bodies': seq<Body>)
    requires FromUart(s.sent, bodies) && s.sent <= s'.sent && |s'.sent| <= |s.sent| + 1 && SenderIs(s, ev, s')
    requires bodies' == BodiesAfter(bodies, s', body)
    requires 0 <= s.k.running < NUM_PROCS && s.k.running != PID_UART_IPROC
    requires ev.UartNotify? ==> body == Other
    requires ev.Send? || ev.SendDelayed? ==> ev.msg !in {NOTIF_IN, NOTIF_OUT}
    ensures FromUart(s'.sent, bodies') && bodies <= bodies'
  {
  }

  ghost predicate NoneFromUart(letters: seq<Letter>) {
    forall i :: 0 <= i < |letters| ==> letters[i].m.sender != PID_UART_IPROC
  }

  lemma PendingAreDelayed(s: System, id: int)
    requires SystemInv(s) && id in s.pending
    ensures 0 <= id < |s.sent| && s.sent[id].delay != 0
  {
    var i :| 0 <= i < |s.pending| && s.pending[i] == id;
    assert Carries(s.k.delayed[i], s.k.hdr, s.sent[s.pending[i]]);
  }

  /** What a call or a tick puts into a mailbox is not from the UART process. */
  lemma NewAreNotUarts(s: System, ev: K.Event, s': System, bodies: seq<Body>, bodies': seq<Body>, p: int)
    requires SystemInv(s) && StepEffects(s, ev, s', p) && !ev.UartNotify? && FromUart(s.sent, bodies)
    requires bodies <= bodies'
    ensures NoneFromUart(NewLetters(s, s', bodies', p))
  {
    K.NoIprocRuns(s.k);
    var ids := Since(s.delivered[p], s'.delivered[p]);
    forall i | 0 <= i < |ids| ensures LetterAt(s'.sent, bodies', ids[i]).m.sender != PID_UART_IPROC {
      assert ids[i] in ids;
      if ids[i] in s.pending {
        PendingAreDelayed(s, ids[i]);
      }
    }
  }

  /** A notification is one more letter. */
  lemma NotificationArrives(s: System, s': System, bodies: seq<Body>, bodies': seq<Body>, p: int, l: Letter)
    requires BoxOk(s, p) && MailGrows(s, s', p) && BoxOk(s', p) && |s'.sent| == |s.sent| + 1
    requires s'.delivered[p] == s.delivered[p] + [|s.sent|] && s'.received[p] == s.received[p]
    requires |bodies| == |s.sent| && bodies' == bodies + [Other] && l == Letter(s'.sent[|s.sent|], Other)
    ensures All(s', bodies', p) == All(s, bodies, p) + [l] && Box(s', bodies', p) == Box(s, bodies, p) + [l]
    ensures Taken(s', bodies', p) == Taken(s, bodies, p)
  {
    LettersGrow(s, s', bodies, bodies', p);
    OneNew(s.delivered[p], |s.sent|);
    assert NewLetters(s, s', bodies', p) == [l];
    assert Box(s', bodies', p) == Box(s, bodies, p) + [l];
    assert Taken(s', bodies', p) == Taken(s, bodies, p);
  }

  /** A notification in a mailbox is a letter there that says so. */
  lemma NotificationInBox(s: System, bodies: seq<Body>, p: int, e: int) returns (j: nat)
    requires BoxOk(s, p) && ListsExactly(s.k.mail[p], s.place, Mailbox(p)) && e in {NOTIF_IN, NOTIF_OUT}
    requires MailboxOk(s.received[p], s.k.mail[p], s.delivered[p], s.k.hdr, s.sent)
    requires FromUart(s.sent, bodies) && |s.place| == NUM_ENVELOPES && s.place[e] == Mailbox(p)
    ensures j < |Box(s, bodies, p)| && Box(s, bodies, p)[j].m.sender == PID_UART_IPROC
    ensures Box(s, bodies, p)[j].body == Other
  {
    j :| 0 <= j < |s.k.mail[p]| && s.k.mail[p][j] == e;
    WaitingEnvelope(s.received[p], s.k.mail[p], s.delivered[p], s.k.hdr, s.sent, j);
    var id := s.delivered[p][|s.received[p]| + j];
    assert Box(s, bodies, p)[j] == Letter(s.sent[id], bodies[id]);
  }

  // ----- CRT's mailbox -----

  function Arrivals(c: U.Console, mail: seq<U.CrtMessage>): U.Console {
    c.(mailbox := c.mailbox + mail, arrived := c.arrived + U.Displays(mail))
  }

  /** CRT answers its notification. */
  predicate CrtAnswers(c: U.Console) {
    c.pc == U.Clearing
  }

  predicate NotifiesCrt(c: U.Console) {
    U.ThreInterrupt(c.u).1
  }

  lemma CrtMailConcat(a: seq<Letter>, b: seq<Letter>)
    ensures CrtMail(a + b) == CrtMail(a) + CrtMail(b)
  {
  }

  lemma CrtMailRest(letters: seq<Letter>)
    requires letters != []
    ensures CrtMail(letters) != [] && CrtMail(letters[1..]) == CrtMail(letters)[1..]
  {
  }

  lemma CrtMailNotified(a: seq<Letter>, l: Letter)
    requires l.body == Other && l.m.sender == PID_UART_IPROC
    ensures CrtMail(a + [l]) == CrtMail(a) + [U.Notification]
    ensures U.Displays(CrtMail(a + [l])) == U.Displays(CrtMail(a))
  {
    CrtMailConcat(a, [l]);
    assert CrtMail([l]) == [U.Notification];
    U.DisplaysConcat(CrtMail(a), [U.Notification]);
    U.DisplaysOne(U.Notification);
  }

  lemma NoNotification(letters: seq<Letter>)
    requires NoneFromUart(letters)
    ensures U.Notification !in CrtMail(letters)
  {
  }

  ghost predicate CrtInv(c: U.Console) {
    U.Protocol(c) && U.Stream(c) && U.InOrder(c)
  }

  lemma ArrivalIsStep(c: U.Console, mail: seq<U.CrtMessage>, m: U.CrtMessage, c1: U.Console)
    requires m != U.Notification && c1 == Arrivals(c, mail)
    ensures Arrivals(c, mail + [m]) == U.Step(c1, U.Arrive(m))
  {
    assert c.mailbox + (mail + [m]) == c1.mailbox + [m];
    U.DisplaysConcat(mail, [m]);
    U.DisplaysOne(m);
    assert c.arrived + (U.Displays(mail) + U.Displays([m])) == c1.arrived + U.Displays([m]);
    assert c1.arrived + [] == c1.arrived;
  }

  lemma ArrivalKeeps(c: U.Console, mail: seq<U.CrtMessage>, m: U.CrtMessage)
    requires CrtInv(Arrivals(c, mail)) && m != U.Notification
    ensures CrtInv(Arrivals(c, mail + [m]))
  {
    ArrivalIsStep(c, mail, m, Arrivals(c, mail));
    CrtStepKeeps(Arrivals(c, mail), U.Arrive(m), Arrivals(c, mail + [m]));
  }

  lemma CrtStepKeeps(c: U.Console, ev: U.Event, c': U.Console)
    requires CrtInv(c) && U.Enabled(c, ev) && c' == U.Step(c, ev)
    ensures CrtInv(c')
  {
    U.StepKeepsProtocol(c, ev);
    U.StepKeepsStream(c, ev, c');
    U.StepKeepsOrder(c, ev);
  }

  lemma {:induction false} ArrivalsKeep(c: U.Console, mail: seq<U.CrtMessage>)
    requires CrtInv(c) && U.Notification !in mail
    ensures CrtInv(Arrivals(c, mail))
  {
    if mail == [] {
      assert Arrivals(c, mail) == c;
    } else {
      var front, last := mail[..|mail| - 1], mail[|mail| - 1];
      assert mail == front + [last];
      assert last in mail;
      ArrivalsKeep(c, front);
      ArrivalKeeps(c, front, last);
    }
  }

  lemma ReceiveFacts(c: U.Console, c': U.Console)
    requires c.mailbox != [] && c' == U.Receive(c)
    ensures c'.mailbox == c.mailbox[1..] && c'.arrived == c.arrived && c'.u == c.u
  {
  }

  lemma ThreFacts(c: U.Console, c': U.Console)
    requires c' == U.Step(c, U.Thre)
    ensures c'.mailbox == c.mailbox + (if NotifiesCrt(c) then [U.Notification] else []) && c'.arrived == c.arrived
    ensures c'.u.outstanding == (c.u.outstanding || NotifiesCrt(c))
  {
    assert c.mailbox + [] == c.mailbox;
  }

  lemma TurnFacts(c: U.Console, c': U.Console)
    requires c.pc != U.Waiting && c' == U.Turn(c)
    ensures c'.mailbox == c.mailbox && c'.arrived == c.arrived
    ensures c'.u.outstanding == (c.u.outstanding && !CrtAnswers(c))
  {
  }

  lemma EchoFacts(c: U.Console, ch: char, c': U.Console)
    requires c' == U.Step(c, U.EchoInput(ch))
    ensures c'.mailbox == c.mailbox && c'.arrived == c.arrived && c'.u.outstanding == c.u.outstanding
  {
  }

  /** CRT's mailbox is the kernel's; all that arrived is all that was delivered; the notification is out or not. */
  ghost predicate CrtJoined(s: System, c: U.Console, bodies: seq<Body>) {
    && BoxOk(s, PID_CRT) && CrtInv(c) && s.notifOutSent == c.u.outstanding
    && c.mailbox == CrtMail(Box(s, bodies, PID_CRT)) && c.arrived == U.Displays(CrtMail(All(s, bodies, PID_CRT)))
  }

  lemma CrtArrives(s: System, ev: K.Event, s': System, bodies: seq<Body>, bodies': seq<Body>, c: U.Console)
    requires CrtJoined(s, c, bodies) && MailGrows(s, s', PID_CRT) && ReceivedMoves(s, ev, s', PID_CRT)
    requires BoxOk(s', PID_CRT) && s'.notifOutSent == s.notifOutSent && !Gets(s, ev, PID_CRT)
    requires |bodies| == |s.sent| && bodies <= bodies' && NoneFromUart(NewLetters(s, s', bodies', PID_CRT))
    ensures CrtJoined(s', Arrivals(c, CrtMail(NewLetters(s, s', bodies', PID_CRT))), bodies')
  {
    var arriving := NewLetters(s, s', bodies', PID_CRT);
    BoxMoves(s, ev, s', bodies, bodies', PID_CRT);
    LettersGrow(s, s', bodies, bodies', PID_CRT);
    CrtMailConcat(Box(s, bodies, PID_CRT), arriving);
    CrtMailConcat(All(s, bodies, PID_CRT), arriving);
    U.DisplaysConcat(CrtMail(All(s, bodies, PID_CRT)), CrtMail(arriving));
    NoNotification(arriving);
    ArrivalsKeep(c, CrtMail(arriving));
  }

  lemma CrtReceives(s: System, ev: K.Event, s': System, bodies: seq<Body>, bodies': seq<Body>, c: U.Console)
    requires CrtJoined(s, c, bodies) && MailGrows(s, s', PID_CRT) && ReceivedMoves(s, ev, s', PID_CRT)
    requires BoxOk(s', PID_CRT) && s'.notifOutSent == s.notifOutSent && Gets(s, ev, PID_CRT) && c.pc == U.Waiting
    requires |bodies| == |s.sent| && bodies <= bodies'
    ensures c.mailbox != [] && CrtJoined(s', U.Receive(c), bodies')
  {
    BoxMoves(s, ev, s', bodies, bodies', PID_CRT);
    CrtMailRest(Box(s, bodies, PID_CRT));
    var c' := U.Receive(c);
    ReceiveFacts(c, c');
    CrtReceiveKeeps(c, c');
  }

  lemma CrtReceiveKeeps(c: U.Console, c': U.Console)
    requires CrtInv(c) && c.mailbox != [] && c.pc == U.Waiting && c' == U.Receive(c)
    ensures CrtInv(c')
  {
    CrtStepKeeps(c, U.CrtReceive, c');
  }

  lemma CrtFrame(s: System, s': System, bodies: seq<Body>, bodies': seq<Body>, c: U.Console, c': U.Console)
    requires CrtJoined(s, c, bodies) && MailGrows(s, s', PID_CRT) && BoxOk(s', PID_CRT)
    requires s'.delivered[PID_CRT] == s.delivered[PID_CRT] && s'.received[PID_CRT] == s.received[PID_CRT]
    requires |bodies| == |s.sent| && bodies <= bodies'
    requires CrtInv(c') && s'.notifOutSent == c'.u.outstanding && c'.mailbox == c.mailbox && c'.arrived == c.arrived
    ensures CrtJoined(s', c', bodies')
  {
    LettersGrow(s, s', bodies, bodies', PID_CRT);
    NothingNew(s.delivered[PID_CRT]);
    assert All(s', bodies', PID_CRT) == All(s, bodies, PID_CRT);
  }

  lemma CrtNotified(s: System, s': System, bodies: seq<Body>, bodies': seq<Body>, c: U.Console, c': U.Console)
    requires CrtJoined(s, c, bodies) && MailGrows(s, s', PID_CRT) && BoxOk(s', PID_CRT)
    requires |s'.sent| == |s.sent| + 1 && s'.sent[|s.sent|].sender == PID_UART_IPROC
    requires s'.delivered[PID_CRT] == s.delivered[PID_CRT] + [|s.sent|] && s'.received[PID_CRT] == s.received[PID_CRT]
    requires |bodies| == |s.sent| && bodies' == bodies + [Other] && s'.notifOutSent
    requires NotifiesCrt(c) && c' == U.Step(c, U.Thre)
    ensures CrtJoined(s', c', bodies')
  {
    var l := Letter(s'.sent[|s.sent|], Other);
    CrtStepKeeps(c, U.Thre, c');
    ThreFacts(c, c');
    NotificationArrives(s, s', bodies, bodies', PID_CRT, l);
    CrtMailNotified(Box(s, bodies, PID_CRT), l);
    CrtMailNotified(All(s, bodies, PID_CRT), l);
  }

  lemma CrtMailHasIt(s: System, bodies: seq<Body>)
    requires SystemInv(s) && FromUart(s.sent, bodies) && BoxOk(s, PID_CRT) && s.place[NOTIF_OUT] == Mailbox(PID_CRT)
    ensures U.Notification in CrtMail(Box(s, bodies, PID_CRT))
  {
    assert ListsExactly(s.k.mail[PID_CRT], s.place, Mailbox(PID_CRT));
    var j := NotificationInBox(s, bodies, PID_CRT, NOTIF_OUT);
    assert CrtMail(Box(s, bodies, PID_CRT))[j] == U.Notification;
  }

  /** CRT holds its notification when it answers it. */
  lemma CrtHoldsIt(s: System, c: U.Console, bodies: seq<Body>)
    requires SystemInv(s) && FromUart(s.sent, bodies) && Custody(s.place) && CrtJoined(s, c, bodies) && CrtAnswers(c)
    ensures s.place[NOTIF_OUT] == Held(PID_CRT)
  {
    if s.place[NOTIF_OUT] == Mailbox(PID_CRT) {
      CrtMailHasIt(s, bodies);
    }
  }

  // ----- KCD's mailbox -----

  /** KCD asks for the next one. */
  predicate KcdAsks(b: I.Keyboard) {
    b.draining && b.inbuf == []
  }

  predicate NotifiesKcd(b: I.Keyboard, ch: char) {
    I.PassesFilter(ch, b.hotkeys) && b.notifIn && ch == '\r' && |b.inbuf| != I.BUFFER_SIZE
  }

  lemma KcdMailConcat(a: seq<Letter>, b: seq<Letter>)
    ensures KcdMail(a + b) == KcdMail(a) + KcdMail(b)
  {
  }

  lemma KcdMailRest(letters: seq<Letter>)
    requires letters != []
    ensures KcdMail(letters) != [] && KcdMail(letters)[0] == ForKcd(letters[0])
    ensures KcdMail(letters[1..]) == KcdMail(letters)[1..]
  {
  }

  lemma KcdMailNotified(a: seq<Letter>, l: Letter)
    requires l.body == Other && l.m.sender == PID_UART_IPROC
    ensures KcdMail(a + [l]) == KcdMail(a) + [I.LineNotification]
  {
    KcdMailConcat(a, [l]);
    assert KcdMail([l]) == [I.LineNotification];
  }

  lemma NoLineNotification(letters: seq<Letter>)
    requires NoneFromUart(letters)
    ensures I.LineNotification !in KcdMail(letters)
  {
  }

  /** The registrations in a mailbox. */
  function Registrations(mail: seq<I.KcdMessage>): seq<I.Entry> {
    if mail == [] then []
    else
      var m := mail[|mail| - 1];
      Registrations(mail[..|mail| - 1]) + (if m.Register? then [m.entry] else [])
  }

  lemma OneMoreRegistration(mail: seq<I.KcdMessage>, m: I.KcdMessage)
    ensures Registrations(mail + [m]) == Registrations(mail) + (if m.Register? then [m.entry] else [])
  {
    assert (mail + [m])[..|mail|] == mail;
  }

  lemma RegistrationTaken(taken: seq<Letter>, first: Letter)
    ensures Registrations(KcdMail(taken + [first])) ==
            Registrations(KcdMail(taken)) + (if ForKcd(first).Register? then [ForKcd(first).entry] else [])
  {
    KcdMailConcat(taken, [first]);
    assert KcdMail([first]) == [ForKcd(first)];
    OneMoreRegistration(KcdMail(taken), ForKcd(first));
  }

  ghost predicate KcdInv(b: I.Keyboard) {
    I.Protocol(b) && I.Assembly(b)
  }

  lemma {:induction false} CountAbsent<T>(s: seq<T>, mail: seq<T>, v: T)
    requires v !in mail
    ensures Count(s + mail, v) == Count(s, v)
  {
    if mail == [] {
      assert s + mail == s;
    } else {
      var front, last := mail[..|mail| - 1], mail[|mail| - 1];
      assert s + mail == (s + front) + [last];
      assert last in mail;
      CountAbsent(s, front, v);
      CountPush(s + front, last, v);
    }
  }

  lemma KcdArrivalsKeep(b: I.Keyboard, mail: seq<I.KcdMessage>)
    requires KcdInv(b) && I.LineNotification !in mail
    ensures KcdInv(b.(mailbox := b.mailbox + mail))
  {
    CountAbsent(b.mailbox, mail, I.LineNotification);
    I.AssemblyFrame(b, b.(mailbox := b.mailbox + mail));
  }

  lemma KcdStepKeeps(b: I.Keyboard, ev: I.Event, b': I.Keyboard)
    requires KcdInv(b) && I.Enabled(b, ev) && b' == I.Step(b, ev)
    ensures KcdInv(b')
  {
    I.StepKeepsInvariants(b, ev, b');
  }

  lemma KcdReceiveFacts(b: I.Keyboard, b': I.Keyboard)
    requires !b.draining && b.mailbox != [] && b' == I.Step(b, I.KcdReceive)
    ensures b'.mailbox == b.mailbox[1..] && b'.notifIn == b.notifIn
    ensures b'.entries == b.entries + (if b.mailbox[0].Register? then [b.mailbox[0].entry] else [])
  {
  }

  lemma RxFacts(b: I.Keyboard, ch: char, b': I.Keyboard)
    requires b' == I.Step(b, I.Rx(ch))
    ensures b'.mailbox == b.mailbox + (if NotifiesKcd(b, ch) then [I.LineNotification] else [])
    ensures b'.entries == b.entries && b'.notifIn == (b.notifIn && !NotifiesKcd(b, ch))
  {
    assert b.mailbox + [] == b.mailbox;
  }

  lemma GetcFacts(b: I.Keyboard, b': I.Keyboard)
    requires b.draining && b' == I.Step(b, I.KcdGetc)
    ensures b'.mailbox == b.mailbox && b'.entries == b.entries && b'.notifIn == (b.notifIn || KcdAsks(b))
  {
  }

  /** KCD's mailbox is the kernel's, and its entries are the registrations it received. */
  ghost predicate KcdJoined(s: System, b: I.Keyboard, bodies: seq<Body>) {
    && BoxOk(s, PID_KCD) && KcdInv(b) && s.notifIn == b.notifIn
    && b.mailbox == KcdMail(Box(s, bodies, PID_KCD))
    && b.entries == Registrations(KcdMail(Taken(s, bodies, PID_KCD)))
  }

  lemma KcdArrives(s: System, ev: K.Event, s': System, bodies: seq<Body>, bodies': seq<Body>, b: I.Keyboard)
    requires KcdJoined(s, b, bodies) && MailGrows(s, s', PID_KCD) && ReceivedMoves(s, ev, s', PID_KCD)
    requires BoxOk(s', PID_KCD) && s'.notifIn == s.notifIn && !Gets(s, ev, PID_KCD)
    requires |bodies| == |s.sent| && bodies <= bodies' && NoneFromUart(NewLetters(s, s', bodies', PID_KCD))
    ensures KcdJoined(s', b.(mailbox := b.mailbox + KcdMail(NewLetters(s, s', bodies', PID_KCD))), bodies')
  {
    var arriving := NewLetters(s, s', bodies', PID_KCD);
    BoxMoves(s, ev, s', bodies, bodies', PID_KCD);
    KcdMailConcat(Box(s, bodies, PID_KCD), arriving);
    NoLineNotification(arriving);
    KcdArrivalsKeep(b, KcdMail(arriving));
  }

  lemma KcdReceives(s: System, ev: K.Event, s': System, bodies: seq<Body>, bodies': seq<Body>, b: I.Keyboard)
    requires KcdJoined(s, b, bodies) && MailGrows(s, s', PID_KCD) && ReceivedMoves(s, ev, s', PID_KCD)
    requires BoxOk(s', PID_KCD) && s'.notifIn == s.notifIn && Gets(s, ev, PID_KCD) && !b.draining
    requires |bodies| == |s.sent| && bodies <= bodies'
    ensures I.Enabled(b, I.KcdReceive) && KcdJoined(s', I.Step(b, I.KcdReceive), bodies')
  {
    BoxMoves(s, ev, s', bodies, bodies', PID_KCD);
    KcdMailRest(Box(s, bodies, PID_KCD));
    RegistrationTaken(Taken(s, bodies, PID_KCD), Box(s, bodies, PID_KCD)[0]);
    var b' := I.Step(b, I.KcdReceive);
    KcdReceiveFacts(b, b');
    KcdStepKeeps(b, I.KcdReceive, b');
  }

  lemma KcdFrame(s: System, s': System, bodies: seq<Body>, bodies': seq<Body>, b: I.Keyboard, b': I.Keyboard)
    requires KcdJoined(s, b, bodies) && MailGrows(s, s', PID_KCD) && BoxOk(s', PID_KCD)
    requires s'.delivered[PID_KCD] == s.delivered[PID_KCD] && s'.received[PID_KCD] == s.received[PID_KCD]
    requires |bodies| == |s.sent| && bodies <= bodies'
    requires KcdInv(b') && s'.notifIn == b'.notifIn && b'.mailbox == b.mailbox && b'.entries == b.entries
    ensures KcdJoined(s', b', bodies')
  {
    LettersGrow(s, s', bodies, bodies', PID_KCD);
    NothingNew(s.delivered[PID_KCD]);
    assert All(s', bodies', PID_KCD) == All(s, bodies, PID_KCD);
  }

  lemma KcdNotified(s: System, s': System, bodies: seq<Body>, bodies': seq<Body>, b: I.Keyboard, ch: char,
                    b': I.Keyboard)
    requires KcdJoined(s, b, bodies) && MailGrows(s, s', PID_KCD) && BoxOk(s', PID_KCD)
    requires |s'.sent| == |s.sent| + 1 && s'.sent[|s.sent|].sender == PID_UART_IPROC
    requires s'.delivered[PID_KCD] == s.delivered[PID_KCD] + [|s.sent|] && s'.received[PID_KCD] == s.received[PID_KCD]
    requires |bodies| == |s.sent| && bodies' == bodies + [Other] && !s'.notifIn
    requires NotifiesKcd(b, ch) && b' == I.Step(b, I.Rx(ch))
    ensures KcdJoined(s', b', bodies')
  {
    var l := Letter(s'.sent[|s.sent|], Other);
    KcdStepKeeps(b, I.Rx(ch), b');
    RxFacts(b, ch, b');
    NotificationArrives(s, s', bodies, bodies', PID_KCD, l);
    KcdMailNotified(Box(s, bodies, PID_KCD), l);
  }

  lemma KcdMailHasIt(s: System, bodies: seq<Body>)
    requires SystemInv(s) && FromUart(s.sent, bodies) && BoxOk(s, PID_KCD) && s.place[NOTIF_IN] == Mailbox(PID_KCD)
    ensures I.LineNotification in KcdMail(Box(s, bodies, PID_KCD))
  {
    assert ListsExactly(s.k.mail[PID_KCD], s.place, Mailbox(PID_KCD));
    var j := NotificationInBox(s, bodies, PID_KCD, NOTIF_IN);
    assert KcdMail(Box(s, bodies, PID_KCD))[j] == I.LineNotification;
  }

  /** So does KCD when it asks for the next one. */
  lemma KcdHoldsIt(s: System, b: I.Keyboard, bodies: seq<Body>)
    requires SystemInv(s) && FromUart(s.sent, bodies) && Custody(s.place) && KcdJoined(s, b, bodies) && KcdAsks(b)
    ensures s.place[NOTIF_IN] == Held(PID_KCD)
  {
    if s.place[NOTIF_IN] == Mailbox(PID_KCD) {
      KcdMailHasIt(s, bodies);
    }
  }

  // ----- What letters say, without the distinctions of their readers -----

  /** The texts to be displayed. */
  function TextsIn(letters: seq<Letter>): seq<U.Text> {
    if letters == [] then []
    else
      var l := letters[|letters| - 1];
      TextsIn(letters[..|letters| - 1]) + (if l.body.Display? then [l.body.text] else [])
  }

  lemma {:induction false} CrtReadsTexts(letters: seq<Letter>)
    ensures U.Displays(CrtMail(letters)) == TextsIn(letters)
  {
    if letters != [] {
      var front, l := letters[..|letters| - 1], letters[|letters| - 1];
      CrtReadsTexts(front);
      assert letters == front + [l];
      CrtMailConcat(front, [l]);
      U.DisplaysConcat(CrtMail(front), CrtMail([l]));
      U.DisplaysOne(ForCrt(l));
      assert CrtMail([l]) == [ForCrt(l)];
    }
  }

  /** The registrations, as pairs of sender and prefix. */
  function RegistrationsIn(letters: seq<Letter>): seq<(int, seq<char>)> {
    if letters == [] then []
    else
      var l := letters[|letters| - 1];
      RegistrationsIn(letters[..|letters| - 1]) + (if l.body.Registration? then [(l.m.sender, l.body.prefix)] else [])
  }

  function Pairs(entries: seq<I.Entry>): seq<(int, seq<char>)> {
    seq(|entries|, i requires 0 <= i < |entries| => (entries[i].pid, entries[i].prefix))
  }

  lemma PairsOne(entries: seq<I.Entry>, e: I.Entry)
    ensures Pairs(entries + [e]) == Pairs(entries) + [(e.pid as int, e.prefix)]
  {
  }

  lemma {:induction false} KcdReadsRegistrations(letters: seq<Letter>)
    requires forall i :: 0 <= i < |letters| ==> 0 <= letters[i].m.sender < NUM_PROCS
    ensures Pairs(Registrations(KcdMail(letters))) == RegistrationsIn(letters)
  {
    if letters != [] {
      var front, l := letters[..|letters| - 1], letters[|letters| - 1];
      KcdReadsRegistrations(front);
      assert letters == front + [l];
      RegistrationTaken(front, l);
      if l.body.Registration? {
        PairsOne(Registrations(KcdMail(front)), ForKcd(l).entry);
      }
    }
  }

  lemma SendersAreProcesses(sent: seq<Message>, bodies: seq<Body>, ids: seq<int>)
    requires FromUart(sent, bodies) && Within(ids, |sent|)
    ensures forall i :: 0 <= i < |ids| ==> 0 <= Letters(sent, bodies, ids)[i].m.sender < NUM_PROCS
  {
  }
}
