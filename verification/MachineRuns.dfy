/**
 Whole runs of kernel, UART, KCD and CRT together: from what processes send to what is on the wire, and from what is
 typed to the processes that registered for it.
 */
module MachineRuns {
  import opened Constants
  import opened Sequences
  import opened MessageQueues
  import opened KernelState
  import opened MessageHistory
  import opened MailEffects
  import opened Mailboxes
  import opened Machines
  import K = KernelRuns
  import U = UartOutputs
  import I = UartInputs

  /** `ids` are the messages sent to `p` and due by now, each once, in the order of their delivery. */
  ghost predicate DueFor(s: System, p: int, ids: seq<int>) {
    && (forall id :: id in ids <==> 0 <= id < |s.sent| && s.sent[id].receiver == p && Due(s.sent[id]) <= s.k.now)
    && (forall a, b :: 0 <= a < b < |ids| ==> Precedes(s.sent, ids[a], ids[b]))
  }

  lemma DeliveredAreDue(s: System, p: int)
    requires SystemInv(s) && 0 <= p < NUM_PROCS
    ensures BoxOk(s, p) && DueFor(s, p, s.delivered[p])
  {
    MailboxIsBox(s, p);
    assert AccountedAt(s.sent, s.pending, s.delivered[p], p, {});
    assert MailboxOk(s.received[p], s.k.mail[p], s.delivered[p], s.k.hdr, s.sent);
  }

  /**
   From the senders to the wire. On every run of the whole machine CRT's characters on the wire are a beginning of the
   texts of all display messages that any process sent to CRT and that are due, in the order of their delivery, with
   line ends expanded; and all of that when CRT's mailbox and display list and the transmit ring are empty.
   */
  lemma WireShowsWhatWasSent(run: seq<Machine>, events: seq<Event>, i: nat)
    requires IsRun(run, events) && i < |run|
    ensures BoxOk(run[i].s, PID_CRT) && |run[i].bodies| == |run[i].s.sent|
    ensures var x := run[i];
            var shown := U.Expand(U.ShownAll(TextsIn(Letters(x.s.sent, x.bodies, x.s.delivered[PID_CRT]))));
            && DueFor(x.s, PID_CRT, x.s.delivered[PID_CRT])
            && U.FromCrt(x.c.u.wire) <= shown
            && (x.s.k.mail[PID_CRT] == [] && x.c.output == [] && x.c.u.outbuf == [] ==> U.FromCrt(x.c.u.wire) == shown)
  {
    RunsKeepJoined(run, events, i);
    var x := run[i];
    DeliveredAreDue(x.s, PID_CRT);
    CrtReadsTexts(Letters(x.s.sent, x.bodies, x.s.delivered[PID_CRT]));
    U.WireIsPrefix(x.c);
  }

  /**
   KCD's registrations, by which it dispatches commands, are those that were sent to it and that it received, in order,
   each with its true sender.
   */
  lemma EntriesAreRegistrations(run: seq<Machine>, events: seq<Event>, i: nat)
    requires IsRun(run, events) && i < |run|
    ensures BoxOk(run[i].s, PID_KCD) && |run[i].bodies| == |run[i].s.sent|
    ensures var x := run[i];
            var letters := Letters(x.s.sent, x.bodies, x.s.delivered[PID_KCD]);
            && DueFor(x.s, PID_KCD, x.s.delivered[PID_KCD])
            && Pairs(x.b.entries) == RegistrationsIn(letters[..|x.s.received[PID_KCD]|])
  {
    RunsKeepJoined(run, events, i);
    DeliveredAreDue(run[i].s, PID_KCD);
    EntriesOf(run[i].s, run[i].b, run[i].bodies);
  }

  lemma EntriesOf(s: System, b: I.Keyboard, bodies: seq<Body>)
    requires KcdJoined(s, b, bodies) && FromUart(s.sent, bodies)
    ensures Pairs(b.entries) ==
            RegistrationsIn(Letters(s.sent, bodies, s.delivered[PID_KCD])[..|s.received[PID_KCD]|])
  {
    SendersAreProcesses(s.sent, bodies, s.delivered[PID_KCD]);
    KcdReadsRegistrations(Taken(s, bodies, PID_KCD));
  }

  // ----- Contents -----

  lemma BodiesGrow(x: Machine, ev: Event, x': Machine)
    requires CanStep(x, ev) && x' == Step(x, ev)
    ensures x.bodies <= x'.bodies
    ensures ev.Kernel? && |x'.s.sent| > |x.bodies| ==> x'.bodies == x.bodies + [ev.body]
  {
  }

  lemma NextBodies(run: seq<Machine>, events: seq<Event>, i: nat)
    requires IsRun(run, events) && i < |events|
    ensures run[i].bodies <= run[i + 1].bodies
    ensures events[i].Kernel? && |run[i + 1].s.sent| > |run[i].bodies| ==>
              run[i + 1].bodies == run[i].bodies + [events[i].body]
  {
    assert StateAt(run, events, i + 1);
    BodiesGrow(run[i], events[i], run[i + 1]);
  }

  lemma {:induction false} OnlyLonger<T>(lists: seq<seq<T>>, i: nat, j: nat)
    requires i <= j < |lists| && forall m: nat :: m + 1 < |lists| ==> lists[m] <= lists[m + 1]
    ensures lists[i] <= lists[j]
    decreases j
  {
    if i < j {
      OnlyLonger(lists, i, j - 1);
      assert lists[j - 1] <= lists[j - 1 + 1];
    }
  }

  lemma BodyCount(run: seq<Machine>, events: seq<Event>, i: nat)
    requires IsRun(run, events) && i < |run|
    ensures |run[i].bodies| == |run[i].s.sent|
  {
    RunsKeepJoined(run, events, i);
  }

  /** What a message says is what its sender gave it, for ever. */
  lemma BodiesAreWhatWasSent(run: seq<Machine>, events: seq<Event>, i: nat, j: nat)
    requires IsRun(run, events) && i < j < |run| && events[i].Kernel? && |run[i + 1].s.sent| > |run[i].s.sent|
    ensures |run[i].s.sent| < |run[j].bodies| && run[j].bodies[|run[i].s.sent|] == events[i].body
  {
    var lists := seq(|run|, m requires 0 <= m < |run| => run[m].bodies);
    forall m: nat | m + 1 < |lists| ensures lists[m] <= lists[m + 1] {
      NextBodies(run, events, m);
    }
    OnlyLonger(lists, i + 1, j);
    BodyCount(run, events, i);
    NextBodies(run, events, i);
    assert run[i + 1].bodies <= run[j].bodies;
  }

  // ----- What is typed is read -----

  /** The characters received in the first `i` events, in order, without those that found the buffer full. */
  function Typed(run: seq<Machine>, events: seq<Event>, i: nat): seq<char>
    requires i <= |events| && i <= |run|
  {
    if i == 0 then []
    else
      var b, ev := run[i - 1].b, events[i - 1];
      Typed(run, events, i - 1) +
        (if ev.Rx? && I.Ordinary(ev.ch, b.hotkeys) && |b.inbuf| < I.BUFFER_SIZE then [ev.ch] else [])
  }

  lemma OtherStepsAcceptNothing(x: Machine, ev: Event, x': Machine)
    requires CanStep(x, ev) && x' == Step(x, ev) && !ev.Rx?
    ensures x'.b.accepted == x.b.accepted
  {
  }

  lemma RxAccepts(b: I.Keyboard, ch: char, b': I.Keyboard)
    requires I.Protocol(b) && b' == I.Step(b, I.Rx(ch))
    ensures b'.accepted ==
            b.accepted + (if I.Ordinary(ch, b.hotkeys) && |b.inbuf| < I.BUFFER_SIZE then [ch] else [])
  {
    I.StepAccepts(b, I.Rx(ch), b');
  }

  lemma StepAccepts(x: Machine, ev: Event, x': Machine)
    requires I.Protocol(x.b) && CanStep(x, ev) && x' == Step(x, ev)
    ensures x'.b.accepted ==
            x.b.accepted +
              (if ev.Rx? && I.Ordinary(ev.ch, x.b.hotkeys) && |x.b.inbuf| < I.BUFFER_SIZE then [ev.ch] else [])
  {
    if ev.Rx? {
      RxAccepts(x.b, ev.ch, x'.b);
    } else {
      OtherStepsAcceptNothing(x, ev, x');
      assert x.b.accepted + [] == x.b.accepted;
    }
  }

  lemma NextAccepts(run: seq<Machine>, events: seq<Event>, i: nat)
    requires IsRun(run, events) && i < |events|
    ensures run[i + 1].b.accepted ==
            run[i].b.accepted +
              (if events[i].Rx? && I.Ordinary(events[i].ch, run[i].b.hotkeys) && |run[i].b.inbuf| < I.BUFFER_SIZE
               then [events[i].ch] else [])
  {
    RunsKeepJoined(run, events, i);
    assert StateAt(run, events, i + 1);
    StepAccepts(run[i], events[i], run[i + 1]);
  }

  lemma NothingAccepted(run: seq<Machine>, events: seq<Event>)
    requires IsRun(run, events)
    ensures run[0].b.accepted == []
  {
    assert StateAt(run, events, 0);
  }

  lemma {:induction false} AcceptedIsTyped(run: seq<Machine>, events: seq<Event>, i: nat)
    requires IsRun(run, events) && i < |run|
    ensures run[i].b.accepted == Typed(run, events, i)
  {
    if i > 0 {
      AcceptedIsTyped(run, events, i - 1);
      NextAccepts(run, events, i - 1);
    } else {
      NothingAccepted(run, events);
    }
  }

  /**
   From the keyboard to the commands: on every run of the whole machine the commands are the lines of the characters KCD
   has read, which, with those still buffered, are all ordinary characters typed, in order, but for those that came
   while 200 were buffered.
   */
  lemma CommandsAreTyped(run: seq<Machine>, events: seq<Event>, i: nat)
    requires IsRun(run, events) && i < |run|
    ensures var b := run[i].b;
            I.Texts(b.commands) == I.Lines(I.ReadSoFar(b)) && I.ReadSoFar(b) + b.inbuf == Typed(run, events, i)
  {
    RunsKeepJoined(run, events, i);
    AcceptedIsTyped(run, events, i);
  }

  // ----- Commands reach those who registered for them -----

  function LineOf(body: Body): seq<char> {
    if body.Command? then body.line else []
  }

  /** What KCD has sent, in order. */
  function SentByKcd(sent: seq<Message>, bodies: seq<Body>): seq<Dispatch>
    requires |bodies| == |sent|
    decreases |sent|
  {
    if sent == [] then []
    else
      var n := |sent| - 1;
      SentByKcd(sent[..n], bodies[..n]) +
        (if sent[n].sender == PID_KCD then [Dispatch(sent[n].receiver, LineOf(bodies[n]))] else [])
  }

  /** What it should send: each command to all its recipients. */
  function AllDispatches(commands: seq<I.Command>): seq<Dispatch> {
    if commands == [] then []
    else AllDispatches(commands[..|commands| - 1]) + DispatchesOf(commands[|commands| - 1])
  }

  ghost predicate Pids(todo: seq<Dispatch>) {
    forall j :: 0 <= j < |todo| ==> 0 <= todo[j].pid < NUM_PROCS
  }

  /** What KCD has sent and still has to send is what it should. */
  ghost predicate Dispatched(x: Machine) {
    && |x.bodies| == |x.s.sent| && Pids(x.todo)
    && SentByKcd(x.s.sent, x.bodies) + x.todo == AllDispatches(x.b.commands)
  }

  lemma SentGoesOn(sent: seq<Message>, bodies: seq<Body>, m: Message, body: Body)
    requires |bodies| == |sent|
    ensures SentByKcd(sent + [m], bodies + [body]) ==
            SentByKcd(sent, bodies) + (if m.sender == PID_KCD then [Dispatch(m.receiver, LineOf(body))] else [])
  {
    assert (sent + [m])[..|sent|] == sent && (bodies + [body])[..|bodies|] == bodies;
  }

  lemma OneMore<T>(s: seq<T>, s': seq<T>)
    requires s <= s' && |s'| == |s| + 1
    ensures s' == s + [s'[|s|]]
  {
  }

  /** Nobody but KCD sends for KCD. */
  lemma OthersSend(sent: seq<Message>, bodies: seq<Body>, sent': seq<Message>, bodies': seq<Body>)
    requires |bodies| == |sent| && sent <= sent' && bodies <= bodies' && |bodies'| == |sent'| == |sent| + 1
    requires sent'[|sent|].sender != PID_KCD
    ensures SentByKcd(sent', bodies') == SentByKcd(sent, bodies)
  {
    OneMore(sent, sent');
    OneMore(bodies, bodies');
    SentGoesOn(sent, bodies, sent'[|sent|], bodies'[|bodies|]);
  }

  lemma SendIsAccepted(s: System, to: int, e: int, s': System)
    requires K.Bounds(s) && K.Enabled(s, K.Send(to, e)) && s' == K.Step(s, K.Send(to, e)) && ValidMessage(to, e)
    ensures s'.sent == s.sent + [Message(e, s.k.running, to, s.k.now, 0)]
  {
  }

  lemma FirstIsSent(before: seq<Dispatch>, todo: seq<Dispatch>, d: Dispatch)
    requires todo != [] && todo[0] == d
    ensures before + [d] + todo[1..] == before + todo
  {
  }

  lemma KcdSends(x: Machine, to: int, e: int, body: Body, s': System, bodies': seq<Body>)
    requires Dispatched(x) && K.Bounds(x.s) && K.Enabled(x.s, K.Send(to, e)) && s' == K.Step(x.s, K.Send(to, e))
    requires x.s.k.running == PID_KCD && IsNext(x.todo, to, e, body) && bodies' == BodiesAfter(x.bodies, s', body)
    ensures |bodies'| == |s'.sent| && SentByKcd(s'.sent, bodies') + x.todo[1..] == AllDispatches(x.b.commands)
  {
    SendIsAccepted(x.s, to, e, s');
    SentGoesOn(x.s.sent, x.bodies, Message(e, PID_KCD, to, x.s.k.now, 0), body);
    FirstIsSent(SentByKcd(x.s.sent, x.bodies), x.todo, Dispatch(to, body.line));
  }

  lemma RecipientsArePids(entries: seq<I.Entry>, text: seq<char>)
    ensures Pids(DispatchesOf(I.Command(text, I.Recipients(entries, text))))
  {
    I.RecipientsAreTheMatching(entries, text);
    var recipients := I.Recipients(entries, text);
    forall j | 0 <= j < |recipients| ensures 0 <= recipients[j] < NUM_PROCS {
      assert recipients[j] in recipients;
    }
  }

  /** A step of KCD's own adds a command or none. */
  lemma GetcCommands(b: I.Keyboard, b': I.Keyboard)
    requires b.draining && b' == I.Step(b, I.KcdGetc)
    ensures b'.commands == b.commands ||
            b'.commands == b.commands + [I.Command(b.line, I.Recipients(b.entries, b.line))]
  {
  }

  lemma KcdTurnDispatches(x: Machine, b': I.Keyboard)
    requires Dispatched(x) && x.todo == [] && x.b.draining && b' == I.Step(x.b, I.KcdGetc)
    ensures SentByKcd(x.s.sent, x.bodies) + NewDispatches(x.b, b') == AllDispatches(b'.commands)
    ensures Pids(NewDispatches(x.b, b'))
  {
    GetcCommands(x.b, b');
    if b'.commands != x.b.commands {
      var c := I.Command(x.b.line, I.Recipients(x.b.entries, x.b.line));
      RecipientsArePids(x.b.entries, x.b.line);
      assert (x.b.commands + [c])[..|x.b.commands|] == x.b.commands;
    }
  }

  lemma BodiesFollow(s: System, ev: K.Event, s': System, bodies: seq<Body>, body: Body, bodies': seq<Body>)
    requires |bodies| == |s.sent| && MailGrows(s, s', PID_KCD) && bodies' == BodiesAfter(bodies, s', body)
    ensures bodies <= bodies' && |bodies'| == |s'.sent|
    ensures |s'.sent| == |s.sent| ==> s'.sent == s.sent && bodies' == bodies
  {
  }

  /** Somebody else's calls, ticks and interrupts: nothing changes for KCD. */
  lemma OthersKeepDispatched(x: Machine, ev: K.Event, body: Body, x': Machine)
    requires Dispatched(x) && StepEffects(x.s, ev, x'.s, PID_KCD) && x'.bodies == BodiesAfter(x.bodies, x'.s, body)
    requires |x'.s.sent| > |x.s.sent| ==> x'.s.sent[|x.s.sent|].sender != PID_KCD
    requires x'.todo == x.todo && x'.b.commands == x.b.commands
    ensures Dispatched(x')
  {
    BodiesFollow(x.s, ev, x'.s, x.bodies, body, x'.bodies);
    if |x'.s.sent| > |x.s.sent| {
      OthersSend(x.s.sent, x.bodies, x'.s.sent, x'.bodies);
    }
  }

  /** Getting mail changes no command. */
  lemma MailKeepsCommands(x: Machine, ev: K.Event, s': System, bodies: seq<Body>)
    ensures KeyboardAfter(x, ev, s', bodies).commands == x.b.commands
  {
  }

  lemma CallKeepsDispatched(x: Machine, ev: K.Event, body: Body, s': System, x': Machine)
    requires Dispatched(x) && CanStep(x, Kernel(ev, body)) && s' == K.Step(x.s, ev) && x' == Step(x, Kernel(ev, body))
    ensures Dispatched(x')
  {
    Effects(x.s, ev, s', PID_KCD);
    MailKeepsCommands(x, ev, s', x'.bodies);
    if ev.Send? && x.s.k.running == PID_KCD {
      KcdSends(x, ev.to, ev.msg, body, s', x'.bodies);
    } else {
      OthersKeepDispatched(x, ev, body, x');
    }
  }

  lemma StepKeepsDispatched(x: Machine, ev: Event, x': Machine)
    requires Dispatched(x) && CanStep(x, ev) && x' == Step(x, ev)
    ensures Dispatched(x')
  {
    match ev
    case Kernel(call, body) => CallKeepsDispatched(x, call, body, x'.s, x');
    case CrtTurn => CrtTurnKeepsDispatched(x, x');
    case KcdTurn => KcdTurnKeepsDispatched(x, x');
    case Thre => ThreKeepsDispatched(x, x');
    case Rx(ch) => RxKeepsDispatched(x, ch, x');
  }

  lemma CrtTurnKeepsDispatched(x: Machine, x': Machine)
    requires Dispatched(x) && CanStep(x, CrtTurn) && x' == Step(x, CrtTurn)
    ensures Dispatched(x')
  {
    if CrtAnswers(x.c) {
      NoMail(x.s, K.GiveBack(NOTIF_OUT), x'.s);
    }
  }

  lemma KcdTurnKeepsDispatched(x: Machine, x': Machine)
    requires Dispatched(x) && CanStep(x, KcdTurn) && x' == Step(x, KcdTurn)
    ensures Dispatched(x')
  {
    KcdTurnDispatches(x, x'.b);
    if KcdAsks(x.b) {
      NoMail(x.s, K.GiveBack(NOTIF_IN), x'.s);
    }
  }

  lemma UartKeepsDispatched(x: Machine, ev: K.Event, x': Machine)
    requires Dispatched(x) && K.Bounds(x.s) && K.Enabled(x.s, ev) && x'.s == K.Step(x.s, ev)
    requires ev.UartNotify? || ev.UartQuiet?
    requires x'.bodies == BodiesAfter(x.bodies, x'.s, Other) && x'.todo == x.todo
    requires x'.b.commands == x.b.commands
    ensures Dispatched(x')
  {
    Effects(x.s, ev, x'.s, PID_KCD);
    OthersKeepDispatched(x, ev, Other, x');
  }

  lemma ThreKeepsDispatched(x: Machine, x': Machine)
    requires Dispatched(x) && CanStep(x, Thre) && x' == Step(x, Thre)
    ensures Dispatched(x')
  {
    UartKeepsDispatched(x, PartOf(x, Thre).ev, x');
  }

  lemma RxKeepsCommands(b: I.Keyboard, ch: char, b': I.Keyboard)
    requires b' == I.Step(b, I.Rx(ch))
    ensures b'.commands == b.commands
  {
  }

  lemma RxKeepsDispatched(x: Machine, ch: char, x': Machine)
    requires Dispatched(x) && CanStep(x, Rx(ch)) && x' == Step(x, Rx(ch))
    ensures Dispatched(x')
  {
    RxKeepsCommands(x.b, ch, x'.b);
    UartKeepsDispatched(x, PartOf(x, Rx(ch)).ev, x');
  }

  /**
   Commands reach their recipients. On every run of the whole machine what KCD has sent, followed by what it is about to
   send, is each command it recognised, in order, once to each of its recipients.
   */
  lemma {:induction false} CommandsAreSent(run: seq<Machine>, events: seq<Event>, i: nat)
    requires IsRun(run, events) && i < |run|
    ensures Dispatched(run[i])
  {
    if i > 0 {
      CommandsAreSent(run, events, i - 1);
    }
    NextDispatched(run, events, i);
  }

  lemma NextDispatched(run: seq<Machine>, events: seq<Event>, i: nat)
    requires IsRun(run, events) && i < |run| && (i > 0 ==> Dispatched(run[i - 1]))
    ensures Dispatched(run[i])
  {
    assert StateAt(run, events, i);
    if i > 0 {
      StepKeepsDispatched(run[i - 1], events[i - 1], run[i]);
    }
  }

  lemma StepCommands(x: Machine, ev: Event, x': Machine)
    requires CanStep(x, ev) && x' == Step(x, ev)
    ensures x'.b.commands == x.b.commands ||
            (ev == KcdTurn &&
             x'.b.commands == x.b.commands + [I.Command(x.b.line, I.Recipients(x.b.entries, x.b.line))])
  {
    match ev
    case Kernel(call, body) => MailKeepsCommands(x, call, x'.s, x'.bodies);
    case CrtTurn =>
    case KcdTurn => GetcCommands(x.b, x'.b);
    case Thre =>
    case Rx(ch) => RxKeepsCommands(x.b, ch, x'.b);
  }

  /** Command number `j` was recognised in the step after state `m`, for the registrations KCD had received by then. */
  ghost predicate RecognisedAt(run: seq<Machine>, events: seq<Event>, m: nat, j: nat, c: I.Command) {
    && m < |events| && m < |run| && events[m] == KcdTurn && |run[m].b.commands| == j
    && c == I.Command(run[m].b.line, I.Recipients(run[m].b.entries, run[m].b.line))
  }

  /**
   The recipients of each command are the processes with a matching registration among those that KCD had received when
   it recognised the command.
   */
  lemma {:induction false} CommandsByRegistrations(run: seq<Machine>, events: seq<Event>, i: nat, j: nat)
    requires IsRun(run, events) && i < |run| && j < |run[i].b.commands|
    ensures exists m: nat :: m < i && RecognisedAt(run, events, m, j, run[i].b.commands[j])
  {
    assert StateAt(run, events, i);
    if i > 0 {
      StepCommands(run[i - 1], events[i - 1], run[i]);
      if j < |run[i - 1].b.commands| {
        CommandsByRegistrations(run, events, i - 1, j);
        var c := run[i - 1].b.commands[j];
        var m: nat :| m < i - 1 && RecognisedAt(run, events, m, j, c);
        assert run[i].b.commands[j] == c;
      } else {
        assert RecognisedAt(run, events, i - 1, j, run[i].b.commands[j]);
      }
    }
  }

  // ----- Each recipient gets each of its commands once -----

  /** How many commands with this line are for `pid`. */
  function CommandsFor(commands: seq<I.Command>, pid: int, line: seq<char>): nat {
    if commands == [] then 0
    else
      var c := commands[|commands| - 1];
      CommandsFor(commands[..|commands| - 1], pid, line) + (if c.text == line && pid in c.recipients then 1 else 0)
  }

  lemma CountConcat<T>(a: seq<T>, b: seq<T>, v: T)
    ensures Count(a + b, v) == Count(a, v) + Count(b, v)
  {
  }

  lemma {:induction false} CountOnce<T>(s: seq<T>, v: T)
    requires NoDup(s)
    ensures Count(s, v) == if v in s then 1 else 0
  {
    if s != [] {
      var front, last := s[..|s| - 1], s[|s| - 1];
      assert s == front + [last];
      assert last !in front;
      CountOnce(front, v);
      CountPush(front, last, v);
    }
  }

  lemma DispatchesOnce(c: I.Command, pid: int, line: seq<char>)
    requires NoDup(c.recipients)
    ensures Count(DispatchesOf(c), Dispatch(pid, line)) == if c.text == line && pid in c.recipients then 1 else 0
  {
    var d := DispatchesOf(c);
    assert forall i, j :: 0 <= i < j < |d| ==> d[i].pid != d[j].pid;
    CountOnce(d, Dispatch(pid, line));
    if c.text == line && pid in c.recipients {
      var k :| 0 <= k < |c.recipients| && c.recipients[k] == pid;
      assert d[k] == Dispatch(pid, line);
    }
  }

  lemma {:induction false} DispatchCounts(commands: seq<I.Command>, pid: int, line: seq<char>)
    requires forall j :: 0 <= j < |commands| ==> NoDup(commands[j].recipients)
    ensures Count(AllDispatches(commands), Dispatch(pid, line)) == CommandsFor(commands, pid, line)
  {
    if commands != [] {
      var front, c := commands[..|commands| - 1], commands[|commands| - 1];
      DispatchCounts(front, pid, line);
      DispatchesOnce(c, pid, line);
      CountConcat(AllDispatches(front), DispatchesOf(c), Dispatch(pid, line));
    }
  }

  /**
   On every run of the whole machine the messages that KCD has sent to a process with a certain line, and those it is
   about to send, are as many as the commands with that line of which the process is a recipient.
   */
  lemma EachRecipientOnce(run: seq<Machine>, events: seq<Event>, i: nat, pid: int, line: seq<char>)
    requires IsRun(run, events) && i < |run|
    ensures var x := run[i];
            && |x.bodies| == |x.s.sent|
            && Count(SentByKcd(x.s.sent, x.bodies) + x.todo, Dispatch(pid, line)) ==
               CommandsFor(x.b.commands, pid, line)
  {
    CommandsAreSent(run, events, i);
    var commands := run[i].b.commands;
    forall j | 0 <= j < |commands| ensures NoDup(commands[j].recipients) {
      CommandsByRegistrations(run, events, i, j);
      var m: nat :| m < i && RecognisedAt(run, events, m, j, commands[j]);
      I.RecipientsAreTheMatching(run[m].b.entries, run[m].b.line);
    }
    DispatchCounts(commands, pid, line);
  }
}
