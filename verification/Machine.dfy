/**
 The kernel together with the UART, KCD and CRT: the mailboxes that KCD and CRT read are the kernel's, the notifications
 they get are messages, and what they do is done by the running process. So what is shown and which commands are
 recognised follows from what the processes send.
 */
module Machines {
  import opened Constants
  import opened Sequences
  import opened MessageQueues
  import opened KernelState
  import opened MessageHistory
  import opened MailEffects
  import opened Mailboxes
  import K = KernelRuns
  import U = UartOutputs
  import I = UartInputs

  // ----- The machine and its steps -----

  /** A command on its way to a process that registered for it. */
  datatype Dispatch = Dispatch(pid: int, line: seq<char>)

  datatype Machine = Machine(
    s: System,
    c: U.Console,         // CRT and the transmitter
    b: I.Keyboard,        // KCD and the receiver
    todo: seq<Dispatch>,  // what KCD has still to send
    bodies: seq<Body>)    // what each message says, by its number

  datatype Event =
    | Kernel(ev: K.Event, body: Body)   // a call of the running process, which may send `body`; or a tick
    | CrtTurn | KcdTurn                 // CRT or KCD takes a step outside receive_message
    | Thre | Rx(ch: char)               // UART interrupts

  /**
   All calls and ticks, except that CRT and KCD call receive_message where their loops do and give back notifications in
   the steps that say so, KCD sends what it has to and nothing else, and nobody sends a notification on.
   */
  predicate MayHappen(x: Machine, ev: K.Event, body: Body) {
    && !ev.UartNotify? && !ev.UartQuiet? && !ev.GiveBack?
    && (ev.Receive? && x.s.k.running == PID_CRT ==> x.c.pc == U.Waiting)
    && (ev.Receive? && x.s.k.running == PID_KCD ==> !x.b.draining)
    && (ev.Send? || ev.SendDelayed? ==> ev.msg !in {NOTIF_IN, NOTIF_OUT})
    && (ev.SendDelayed? ==> x.s.k.running != PID_KCD)
    && (ev.Send? && x.s.k.running == PID_KCD ==> IsNext(x.todo, ev.to, ev.msg, body))
  }

  /** Sending `body` to `to` is what comes next. */
  predicate IsNext(todo: seq<Dispatch>, to: int, e: int, body: Body) {
    e != NULL && body.Command? && todo != [] && todo[0] == Dispatch(to, body.line)
  }

  ghost predicate RunsUserCode(s: System, p: int) {
    s.k.running == p && p !in s.receiving && p !in s.requesting
  }

  /** What the kernel does in a step, if anything. */
  datatype KernelPart = Nothing | Something(ev: K.Event)

  function PartOf(x: Machine, ev: Event): KernelPart {
    match ev
    case Kernel(call, _) => Something(call)
    case CrtTurn => if CrtAnswers(x.c) then Something(K.GiveBack(NOTIF_OUT)) else Nothing
    case KcdTurn => if KcdAsks(x.b) then Something(K.GiveBack(NOTIF_IN)) else Nothing
    case Thre => Something(if NotifiesCrt(x.c) then K.UartNotify(PID_CRT, NOTIF_OUT) else K.UartQuiet)
    case Rx(ch) => Something(if NotifiesKcd(x.b, ch) then K.UartNotify(PID_KCD, NOTIF_IN) else K.UartQuiet)
  }

  /** Who may do what when; that the kernel then always can do its part is lemma KernelDoesItsPart. */
  ghost predicate Enabled(x: Machine, ev: Event)
    requires |x.s.place| == NUM_ENVELOPES
  {
    match ev
    case Kernel(call, body) => K.Enabled(x.s, call) && MayHappen(x, call, body)
    case CrtTurn => RunsUserCode(x.s, PID_CRT) && x.c.pc != U.Waiting
    case KcdTurn => RunsUserCode(x.s, PID_KCD) && x.b.draining && x.todo == []
    case Thre => true
    case Rx(_) => true
  }

  ghost predicate CanStep(x: Machine, ev: Event) {
    && K.Bounds(x.s) && Enabled(x, ev)
    && (PartOf(x, ev).Something? ==> K.Enabled(x.s, PartOf(x, ev).ev))
  }

  ghost function KernelAfter(x: Machine, ev: Event): System
    requires CanStep(x, ev)
  {
    match PartOf(x, ev)
    case Nothing => x.s
    case Something(part) => K.Step(x.s, part)
  }

  function ConsoleAfter(x: Machine, ev: K.Event, s': System, bodies: seq<Body>): U.Console {
    if Gets(x.s, ev, PID_CRT) then (if x.c.mailbox == [] then x.c else U.Receive(x.c))
    else Arrivals(x.c, CrtMail(NewLetters(x.s, s', bodies, PID_CRT)))
  }

  function KeyboardAfter(x: Machine, ev: K.Event, s': System, bodies: seq<Body>): I.Keyboard {
    if Gets(x.s, ev, PID_KCD) then (if I.Enabled(x.b, I.KcdReceive) then I.Step(x.b, I.KcdReceive) else x.b)
    else x.b.(mailbox := x.b.mailbox + KcdMail(NewLetters(x.s, s', bodies, PID_KCD)))
  }

  function DispatchesOf(c: I.Command): seq<Dispatch> {
    seq(|c.recipients|, i requires 0 <= i < |c.recipients| => Dispatch(c.recipients[i], c.text))
  }

  /** What KCD has to send after a step of its own: a command just recognised goes to all its recipients. */
  function NewDispatches(b: I.Keyboard, b': I.Keyboard): seq<Dispatch> {
    if |b'.commands| > |b.commands| then DispatchesOf(b'.commands[|b'.commands| - 1]) else []
  }

  /** What remains of it after a call. */
  function TodoAfter(x: Machine, ev: K.Event): seq<Dispatch> {
    if ev.Send? && x.s.k.running == PID_KCD && x.todo != [] then x.todo[1..] else x.todo
  }

  ghost function Step(x: Machine, ev: Event): Machine
    requires CanStep(x, ev)
  {
    var s' := KernelAfter(x, ev);
    match ev
    case Kernel(call, body) =>
      var bodies := BodiesAfter(x.bodies, s', body);
      Machine(s', ConsoleAfter(x, call, s', bodies), KeyboardAfter(x, call, s', bodies),
              TodoAfter(x, call), bodies)
    case CrtTurn => x.(s := s', c := U.Turn(x.c))
    case KcdTurn =>
      var b' := I.Step(x.b, I.KcdGetc);
      x.(s := s', b := b', todo := NewDispatches(x.b, b'))
    case Thre => Machine(s', U.Step(x.c, U.Thre), x.b, x.todo, BodiesAfter(x.bodies, s', Other))
    case Rx(ch) =>
      Machine(s', if I.PassesFilter(ch, x.b.hotkeys) then U.Step(x.c, U.EchoInput(ch)) else x.c,
              I.Step(x.b, I.Rx(ch)), x.todo, BodiesAfter(x.bodies, s', Other))
  }

  function Booted(hotkeys: bool): Machine {
    Machine(K.Booted(), U.Start(), I.Start(hotkeys), [], [])
  }

  /** State number `i` is that after start-up, or follows from the one before. */
  ghost predicate StateAt(run: seq<Machine>, events: seq<Event>, i: nat) {
    && i < |run| && i <= |events|
    && if i == 0 then run[0] == Booted(run[0].b.hotkeys)
       else CanStep(run[i - 1], events[i - 1]) && run[i] == Step(run[i - 1], events[i - 1])
  }

  ghost predicate IsRun(run: seq<Machine>, events: seq<Event>) {
    |run| == |events| + 1 && forall i: nat :: i < |run| ==> StateAt(run, events, i)
  }

  // ----- What ties them together -----

  ghost predicate Joined(x: Machine) {
    && SystemInv(x.s) && FromUart(x.s.sent, x.bodies) && Custody(x.s.place)
    && CrtJoined(x.s, x.c, x.bodies) && KcdJoined(x.s, x.b, x.bodies)
  }

  lemma TurnsArePossible(x: Machine, ev: Event)
    requires Joined(x) && K.Bounds(x.s) && Enabled(x, ev) && (ev.CrtTurn? || ev.KcdTurn?)
    ensures CanStep(x, ev)
  {
    if ev.CrtTurn? && CrtAnswers(x.c) {
      CrtHoldsIt(x.s, x.c, x.bodies);
    } else if ev.KcdTurn? && KcdAsks(x.b) {
      KcdHoldsIt(x.s, x.b, x.bodies);
    }
  }

  /** The UART notifies only when it has the notification. */
  lemma NotificationIsThere(s: System, c: U.Console, b: I.Keyboard, bodies: seq<Body>)
    requires CrtJoined(s, c, bodies) && KcdJoined(s, b, bodies)
    ensures NotifiesCrt(c) ==> !s.notifOutSent
    ensures forall ch :: NotifiesKcd(b, ch) ==> s.notifIn
  {
  }

  lemma InterruptsArePossible(x: Machine, ev: Event)
    requires K.Bounds(x.s) && (ev.Thre? || ev.Rx?)
    requires NotifiesCrt(x.c) ==> !x.s.notifOutSent
    requires forall ch :: NotifiesKcd(x.b, ch) ==> x.s.notifIn
    ensures CanStep(x, ev)
  {
  }

  /** Whatever KCD, CRT and the UART do, the kernel can do its part: the notification it needs is where it should be. */
  lemma KernelDoesItsPart(x: Machine, ev: Event)
    requires Joined(x) && Enabled(x, ev)
    ensures CanStep(x, ev)
  {
    K.InvariantGivesBounds(x.s);
    if ev.CrtTurn? || ev.KcdTurn? {
      TurnsArePossible(x, ev);
    } else if ev.Thre? || ev.Rx? {
      NotificationIsThere(x.s, x.c, x.b, x.bodies);
      InterruptsArePossible(x, ev);
    }
  }

  // ----- Each step keeps it so -----

  lemma CrtCallKeeps(x: Machine, ev: K.Event, body: Body, s': System, bodies': seq<Body>)
    requires Joined(x) && KernelMoves(x.s, ev, s') && |x.bodies| == |x.s.sent| && x.bodies <= bodies'
    requires MayHappen(x, ev, body)
    ensures CrtJoined(s', ConsoleAfter(x, ev, s', bodies'), bodies')
  {
    if Gets(x.s, ev, PID_CRT) {
      CrtReceives(x.s, ev, s', x.bodies, bodies', x.c);
    } else {
      NewAreNotUarts(x.s, ev, s', x.bodies, bodies', PID_CRT);
      CrtArrives(x.s, ev, s', x.bodies, bodies', x.c);
    }
  }

  lemma KcdCallKeeps(x: Machine, ev: K.Event, body: Body, s': System, bodies': seq<Body>)
    requires Joined(x) && KernelMoves(x.s, ev, s') && |x.bodies| == |x.s.sent| && x.bodies <= bodies'
    requires MayHappen(x, ev, body)
    ensures KcdJoined(s', KeyboardAfter(x, ev, s', bodies'), bodies')
  {
    if Gets(x.s, ev, PID_KCD) {
      KcdReceives(x.s, ev, s', x.bodies, bodies', x.b);
    } else {
      NewAreNotUarts(x.s, ev, s', x.bodies, bodies', PID_KCD);
      KcdArrives(x.s, ev, s', x.bodies, bodies', x.b);
    }
  }

  lemma CallMoves(x: Machine, ev: K.Event, body: Body, s': System, bodies': seq<Body>)
    requires Joined(x) && K.Bounds(x.s) && K.Enabled(x.s, ev) && MayHappen(x, ev, body) && s' == K.Step(x.s, ev)
    requires bodies' == BodiesAfter(x.bodies, s', body)
    ensures KernelMoves(x.s, ev, s') && FromUart(s'.sent, bodies') && x.bodies <= bodies'
  {
    KernelStepMoves(x.s, ev, s');
    K.NoIprocRuns(x.s.k);
    FromUartGrows(x.s, ev, s', x.bodies, body, bodies');
  }

  lemma CallIs(x: Machine, ev: K.Event, body: Body, s': System, bodies': seq<Body>, x': Machine)
    requires CanStep(x, Kernel(ev, body)) && s' == K.Step(x.s, ev) && bodies' == BodiesAfter(x.bodies, s', body)
    requires x' == Step(x, Kernel(ev, body))
    ensures x'.s == s' && x'.bodies == bodies' && MayHappen(x, ev, body)
    ensures x'.c == ConsoleAfter(x, ev, s', bodies') && x'.b == KeyboardAfter(x, ev, s', bodies')
  {
  }

  lemma CallKeeps(x: Machine, ev: K.Event, body: Body, s': System, bodies': seq<Body>, x': Machine)
    requires Joined(x) && CanStep(x, Kernel(ev, body)) && s' == K.Step(x.s, ev) && x' == Step(x, Kernel(ev, body))
    requires bodies' == BodiesAfter(x.bodies, s', body)
    ensures Joined(x')
  {
    CallIs(x, ev, body, s', bodies', x');
    CallMoves(x, ev, body, s', bodies');
    CrtCallKeeps(x, ev, body, s', bodies');
    KcdCallKeeps(x, ev, body, s', bodies');
  }

  lemma SilentKeeps(x: Machine, ev: K.Event, s': System, c': U.Console, b': I.Keyboard, x': Machine)
    requires Joined(x) && KernelMoves(x.s, ev, s') && x' == Machine(s', c', b', x'.todo, x.bodies)
    requires s'.sent == x.s.sent && s'.delivered == x.s.delivered && s'.received == x.s.received
    requires CrtInv(c') && c'.mailbox == x.c.mailbox && c'.arrived == x.c.arrived && s'.notifOutSent == c'.u.outstanding
    requires KcdInv(b') && b'.mailbox == x.b.mailbox && b'.entries == x.b.entries && s'.notifIn == b'.notifIn
    ensures Joined(x')
  {
    CrtFrame(x.s, s', x.bodies, x.bodies, x.c, c');
    KcdFrame(x.s, s', x.bodies, x.bodies, x.b, b');
  }

  lemma CrtTurnKeeps(x: Machine, x': Machine)
    requires Joined(x) && CanStep(x, CrtTurn) && x' == Step(x, CrtTurn)
    ensures Joined(x')
  {
    CrtStepKeeps(x.c, U.CrtStep, x'.c);
    TurnFacts(x.c, x'.c);
    if CrtAnswers(x.c) {
      KernelStepMoves(x.s, K.GiveBack(NOTIF_OUT), x'.s);
      NoMail(x.s, K.GiveBack(NOTIF_OUT), x'.s);
      SilentKeeps(x, K.GiveBack(NOTIF_OUT), x'.s, x'.c, x.b, x');
    }
  }

  lemma KcdTurnKeeps(x: Machine, x': Machine)
    requires Joined(x) && CanStep(x, KcdTurn) && x' == Step(x, KcdTurn)
    ensures Joined(x')
  {
    KcdStepKeeps(x.b, I.KcdGetc, x'.b);
    GetcFacts(x.b, x'.b);
    if KcdAsks(x.b) {
      KernelStepMoves(x.s, K.GiveBack(NOTIF_IN), x'.s);
      NoMail(x.s, K.GiveBack(NOTIF_IN), x'.s);
      SilentKeeps(x, K.GiveBack(NOTIF_IN), x'.s, x.c, x'.b, x');
    }
  }

  lemma NotifyingKeeps(x: Machine, to: int, e: int, s': System)
    requires Joined(x) && K.Bounds(x.s) && K.Enabled(x.s, K.UartNotify(to, e)) && KeepsCustody(K.UartNotify(to, e))
    requires s' == K.Step(x.s, K.UartNotify(to, e))
    ensures KernelMoves(x.s, K.UartNotify(to, e), s') && |s'.sent| == |x.s.sent| + 1
    ensures FromUart(s'.sent, x.bodies + [Other]) && x.bodies + [Other] == BodiesAfter(x.bodies, s', Other)
    ensures forall p :: p in {PID_CRT, PID_KCD} ==>
                          s'.delivered[p] == x.s.delivered[p] + (if p == to then [|x.s.sent|] else [])
  {
    KernelStepMoves(x.s, K.UartNotify(to, e), s');
    K.NoIprocRuns(x.s.k);
    NotifyEffects(x.s, to, e, s', PID_CRT);
    NotifyEffects(x.s, to, e, s', PID_KCD);
    FromUartGrows(x.s, K.UartNotify(to, e), s', x.bodies, Other, x.bodies + [Other]);
  }

  lemma ThreNotifies(x: Machine, s': System, c': U.Console, x': Machine)
    requires Joined(x) && K.Bounds(x.s) && K.Enabled(x.s, K.UartNotify(PID_CRT, NOTIF_OUT)) && NotifiesCrt(x.c)
    requires s' == K.Step(x.s, K.UartNotify(PID_CRT, NOTIF_OUT)) && c' == U.Step(x.c, U.Thre)
    requires x' == Machine(s', c', x.b, x.todo, BodiesAfter(x.bodies, s', Other))
    ensures Joined(x')
  {
    NotifyingKeeps(x, PID_CRT, NOTIF_OUT, s');
    CrtNotified(x.s, s', x.bodies, x'.bodies, x.c, c');
    KcdFrame(x.s, s', x.bodies, x'.bodies, x.b, x.b);
  }

  lemma QuietKeeps(x: Machine, s': System, c': U.Console, b': I.Keyboard, x': Machine)
    requires Joined(x) && K.Bounds(x.s) && s' == K.Step(x.s, K.UartQuiet) && x' == Machine(s', c', b', x.todo, x.bodies)
    requires CrtInv(c') && c'.mailbox == x.c.mailbox && c'.arrived == x.c.arrived
    requires c'.u.outstanding == x.c.u.outstanding
    requires KcdInv(b') && b'.mailbox == x.b.mailbox && b'.entries == x.b.entries && b'.notifIn == x.b.notifIn
    ensures Joined(x') && s'.sent == x.s.sent
  {
    KernelStepMoves(x.s, K.UartQuiet, s');
    NoMail(x.s, K.UartQuiet, s');
    SilentKeeps(x, K.UartQuiet, s', c', b', x');
  }

  lemma ThreQuiet(x: Machine, s': System, c': U.Console, x': Machine)
    requires Joined(x) && K.Bounds(x.s) && !NotifiesCrt(x.c) && s' == K.Step(x.s, K.UartQuiet)
    requires c' == U.Step(x.c, U.Thre) && x' == Machine(s', c', x.b, x.todo, BodiesAfter(x.bodies, s', Other))
    ensures Joined(x')
  {
    CrtStepKeeps(x.c, U.Thre, c');
    ThreFacts(x.c, c');
    QuietKeeps(x, s', c', x.b, Machine(s', c', x.b, x.todo, x.bodies));
  }

  lemma ThreIs(x: Machine, x': Machine)
    requires CanStep(x, Thre) && x' == Step(x, Thre)
    ensures K.Bounds(x.s) && x' == Machine(x'.s, U.Step(x.c, U.Thre), x.b, x.todo, BodiesAfter(x.bodies, x'.s, Other))
    ensures NotifiesCrt(x.c) ==>
              && K.Enabled(x.s, K.UartNotify(PID_CRT, NOTIF_OUT))
              && x'.s == K.Step(x.s, K.UartNotify(PID_CRT, NOTIF_OUT))
    ensures !NotifiesCrt(x.c) ==> x'.s == K.Step(x.s, K.UartQuiet)
  {
  }

  lemma ThreKeeps(x: Machine, x': Machine)
    requires Joined(x) && CanStep(x, Thre) && x' == Step(x, Thre)
    ensures Joined(x')
  {
    ThreIs(x, x');
    if NotifiesCrt(x.c) {
      ThreNotifies(x, x'.s, x'.c, x');
    } else {
      ThreQuiet(x, x'.s, x'.c, x');
    }
  }

  lemma RxConsole(x: Machine, ch: char, c': U.Console)
    requires CrtInv(x.c) && c' == if I.PassesFilter(ch, x.b.hotkeys) then U.Step(x.c, U.EchoInput(ch)) else x.c
    ensures CrtInv(c') && c'.mailbox == x.c.mailbox && c'.arrived == x.c.arrived &&
              c'.u.outstanding == x.c.u.outstanding
  {
    if I.PassesFilter(ch, x.b.hotkeys) {
      CrtStepKeeps(x.c, U.EchoInput(ch), c');
      EchoFacts(x.c, ch, c');
    }
  }

  lemma RxNotifies(x: Machine, ch: char, s': System, c': U.Console, b': I.Keyboard, x': Machine)
    requires Joined(x) && K.Bounds(x.s) && K.Enabled(x.s, K.UartNotify(PID_KCD, NOTIF_IN)) && NotifiesKcd(x.b, ch)
    requires s' == K.Step(x.s, K.UartNotify(PID_KCD, NOTIF_IN)) && b' == I.Step(x.b, I.Rx(ch))
    requires c' == if I.PassesFilter(ch, x.b.hotkeys) then U.Step(x.c, U.EchoInput(ch)) else x.c
    requires x' == Machine(s', c', b', x.todo, BodiesAfter(x.bodies, s', Other))
    ensures Joined(x')
  {
    RxConsole(x, ch, c');
    NotifyingKeeps(x, PID_KCD, NOTIF_IN, s');
    KcdNotified(x.s, s', x.bodies, x'.bodies, x.b, ch, b');
    CrtFrame(x.s, s', x.bodies, x'.bodies, x.c, c');
  }

  lemma RxQuiet(x: Machine, ch: char, s': System, c': U.Console, b': I.Keyboard, x': Machine)
    requires Joined(x) && K.Bounds(x.s) && !NotifiesKcd(x.b, ch)
    requires s' == K.Step(x.s, K.UartQuiet) && b' == I.Step(x.b, I.Rx(ch))
    requires c' == if I.PassesFilter(ch, x.b.hotkeys) then U.Step(x.c, U.EchoInput(ch)) else x.c
    requires x' == Machine(s', c', b', x.todo, BodiesAfter(x.bodies, s', Other))
    ensures Joined(x')
  {
    RxConsole(x, ch, c');
    KcdStepKeeps(x.b, I.Rx(ch), b');
    RxFacts(x.b, ch, b');
    QuietKeeps(x, s', c', b', Machine(s', c', b', x.todo, x.bodies));
  }

  lemma RxIs(x: Machine, ch: char, x': Machine)
    requires CanStep(x, Rx(ch)) && x' == Step(x, Rx(ch))
    ensures K.Bounds(x.s) && x'.bodies == BodiesAfter(x.bodies, x'.s, Other) && x'.b == I.Step(x.b, I.Rx(ch))
    ensures x'.c == if I.PassesFilter(ch, x.b.hotkeys) then U.Step(x.c, U.EchoInput(ch)) else x.c
    ensures NotifiesKcd(x.b, ch) ==>
              && K.Enabled(x.s, K.UartNotify(PID_KCD, NOTIF_IN))
              && x'.s == K.Step(x.s, K.UartNotify(PID_KCD, NOTIF_IN))
    ensures !NotifiesKcd(x.b, ch) ==> x'.s == K.Step(x.s, K.UartQuiet)
  {
  }

  lemma RxKeeps(x: Machine, ch: char, x': Machine)
    requires Joined(x) && CanStep(x, Rx(ch)) && x' == Step(x, Rx(ch))
    ensures Joined(x')
  {
    RxIs(x, ch, x');
    if NotifiesKcd(x.b, ch) {
      RxNotifies(x, ch, x'.s, x'.c, x'.b, x');
    } else {
      RxQuiet(x, ch, x'.s, x'.c, x'.b, x');
    }
  }

  /** Each step keeps the mailboxes that KCD and CRT read and those of the kernel the same. */
  lemma StepKeepsJoined(x: Machine, ev: Event, x': Machine)
    requires Joined(x) && CanStep(x, ev) && x' == Step(x, ev)
    ensures Joined(x')
  {
    match ev
    case Kernel(call, body) => CallKeeps(x, call, body, x'.s, x'.bodies, x');
    case CrtTurn => CrtTurnKeeps(x, x');
    case KcdTurn => KcdTurnKeeps(x, x');
    case Thre => ThreKeeps(x, x');
    case Rx(ch) => RxKeeps(x, ch, x');
  }

  // ----- Whole runs -----

  lemma BootedMail(s: System)
    requires s == K.Booted()
    ensures s.sent == [] && |s.delivered| == NUM_PROCS && |s.received| == NUM_PROCS && Custody(s.place)
    ensures forall p :: 0 <= p < NUM_PROCS ==> s.delivered[p] == [] && s.received[p] == []
    ensures s.notifIn && !s.notifOutSent
  {
  }

  lemma CrtStarts(s: System)
    requires BoxOk(s, PID_CRT) && s.delivered[PID_CRT] == [] && s.received[PID_CRT] == [] && !s.notifOutSent
    ensures CrtJoined(s, U.Start(), [])
  {
  }

  lemma KcdStarts(s: System, hotkeys: bool)
    requires BoxOk(s, PID_KCD) && s.delivered[PID_KCD] == [] && s.received[PID_KCD] == [] && s.notifIn
    ensures KcdJoined(s, I.Start(hotkeys), [])
  {
    I.StartInvariants(hotkeys);
    assert All(s, [], PID_KCD) == [] && KcdMail([]) == [];
  }

  lemma KernelStarts(s: System)
    requires s == K.Booted()
    ensures SystemInv(s) && BoxOk(s, PID_CRT) && BoxOk(s, PID_KCD)
  {
    K.BootedInvariant();
    MailboxIsBox(s, PID_CRT);
    MailboxIsBox(s, PID_KCD);
  }

  lemma BootedParts(s: System, hotkeys: bool)
    requires s == K.Booted()
    ensures SystemInv(s) && s.sent == [] && Custody(s.place)
    ensures CrtJoined(s, U.Start(), []) && KcdJoined(s, I.Start(hotkeys), [])
  {
    KernelStarts(s);
    BootedMail(s);
    CrtStarts(s);
    KcdStarts(s, hotkeys);
  }

  lemma PartsJoined(s: System, hotkeys: bool, x: Machine)
    requires SystemInv(s) && s.sent == [] && Custody(s.place)
    requires CrtJoined(s, U.Start(), []) && KcdJoined(s, I.Start(hotkeys), [])
    requires x == Machine(s, U.Start(), I.Start(hotkeys), [], [])
    ensures Joined(x)
  {
  }

  lemma StartJoined(s: System, hotkeys: bool, x: Machine)
    requires s == K.Booted() && x == Machine(s, U.Start(), I.Start(hotkeys), [], [])
    ensures Joined(x)
  {
    BootedParts(s, hotkeys);
    PartsJoined(s, hotkeys, x);
  }

  lemma FirstJoined(run: seq<Machine>, events: seq<Event>)
    requires IsRun(run, events)
    ensures |run| > 0 && Joined(run[0])
  {
    assert StateAt(run, events, 0);
    StartJoined(K.Booted(), run[0].b.hotkeys, run[0]);
  }

  lemma NextJoined(run: seq<Machine>, events: seq<Event>, i: nat)
    requires IsRun(run, events) && i + 1 < |run| && Joined(run[i])
    ensures Joined(run[i + 1])
  {
    assert StateAt(run, events, i + 1);
    StepKeepsJoined(run[i], events[i], run[i + 1]);
  }

  lemma JoinedChain(run: seq<Machine>, events: seq<Event>, joined: seq<bool>, i: nat)
    requires IsRun(run, events) && i < |run| && |joined| == |run|
    requires forall n :: 0 <= n < |run| ==> joined[n] == Joined(run[n])
    ensures joined[i]
  {
    FirstJoined(run, events);
    forall n: nat | n + 1 < |run| && joined[n] ensures joined[n + 1] {
      NextJoined(run, events, n);
    }
    Chain(joined, i);
  }

  /** In every state of every run the mailboxes that KCD and CRT read are those of the kernel. */
  lemma RunsKeepJoined(run: seq<Machine>, events: seq<Event>, i: nat)
    requires IsRun(run, events) && i < |run|
    ensures Joined(run[i])
  {
    var joined := seq(|run|, n requires 0 <= n < |run| => Joined(run[n]));
    JoinedChain(run, events, joined, i);
  }
}
