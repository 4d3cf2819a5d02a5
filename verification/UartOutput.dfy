/**
 Output to the UART (uart_irq.c, crt.c): a ring buffer between processes and the transmitter, an interrupt that drains
 it, and the CRT process that prints messages and sleeps while the buffer is above its threshold. Between any two
 steps of CRT, interrupts and new messages may come in any order.
 */
module UartOutputs {
  import opened Constants
  import opened Sequences

  const BUFFER_SIZE: nat := 200
  const OUTBUF_THRESHOLD: nat := 100

  /** A character on its way out; `crt` tells CRT's from echoed input. The tag is for the proof only. */
  datatype Char = Char(c: char, crt: bool)

  datatype Output = Output(
    outbuf: seq<Char>,
    thre: bool,            // uart_thre: the transmitter is busy and will interrupt
    notifOut: bool,        // uart_iproc_notif_out: CRT wants to be told when outbuf is empty
    outstanding: bool,     // notif_out_msg.mtext[0]: the notification is under way
    wire: seq<Char>)       // everything written to the transmit register

  /** uart_putc_nonblocking. */
  function PutNonblocking(u: Output, ch: Char): Output {
    var outbuf := if |u.outbuf| != BUFFER_SIZE then u.outbuf + [ch] else u.outbuf;
    if u.thre then u.(outbuf := outbuf)
    else u.(outbuf := outbuf[1..], thre := true, wire := u.wire + [outbuf[0]])
  }

  /** uart_iproc_putc, called by CRT only. */
  function Putc(u: Output, c: char): (Output, bool) {
    if |u.outbuf| > OUTBUF_THRESHOLD then (if u.outstanding then u else u.(notifOut := true), false)
    else
      var u1 := if c == '\n' then PutNonblocking(u, Char('\r', true)) else u;
      (PutNonblocking(u1, Char(c, true)), true)
  }

  /** The THRE branch of the interrupt with uart_pop_output_char; the flag says whether CRT is sent the notification. */
  function ThreInterrupt(u: Output): (Output, bool) {
    if u.outbuf != [] then (u.(outbuf := u.outbuf[1..], wire := u.wire + [u.outbuf[0]]), false)
    else if u.notifOut then (u.(notifOut := false, outstanding := true, thre := false), true)
    else (u.(thre := false), false)
  }

  /** Echo of an accepted input character. */
  function Echo(u: Output, c: char): Output {
    var u1 := PutNonblocking(u, Char(c, false));
    if c == '\r' then PutNonblocking(u1, Char('\n', false)) else u1
  }

  // ----- CRT -----

  /** The bytes of a message body. */
  type Text = t: seq<char> | |t| == MTEXT_MAXLEN + 1 witness seq(MTEXT_MAXLEN + 1, _ => '\0')

  datatype CrtMessage = Display(text: Text) | Notification | Junk
  datatype CrtPc = Waiting | Clearing | Printing

  datatype Console = Console(
    u: Output,
    mailbox: seq<CrtMessage>,
    pc: CrtPc,
    output: seq<Text>,       // messages being displayed, a FIFO
    offset: nat,             // next character of the first of them
    printed: seq<Text>,      // messages displayed completely
    arrived: seq<Text>)      // every display message sent to CRT

  datatype Event =
    | CrtReceive | CrtStep            // CRT runs
    | Thre | EchoInput(c: char)       // interrupts
    | Arrive(m: CrtMessage)           // somebody sends CRT a message

  predicate Enabled(s: Console, ev: Event) {
    match ev
    case CrtReceive => s.pc == Waiting && s.mailbox != []
    case CrtStep => s.pc != Waiting
    case Arrive(m) => m != Notification
    case _ => true
  }

  function Receive(s: Console): Console
    requires s.mailbox != []
  {
    var s1 := s.(mailbox := s.mailbox[1..]);
    match s.mailbox[0]
    case Display(t) => s1.(output := s.output + [t], pc := Printing)
    case Notification => s1.(pc := Clearing)
    case Junk => s1
  }

  /** One turn of CRT outside receive_message: clear the notification, or one round of the printing loop. */
  function Turn(s: Console): Console {
    if s.pc == Clearing then s.(u := s.u.(outstanding := false), pc := Printing)
    else if s.output == [] then s.(pc := Waiting)
    else if s.offset <= MTEXT_MAXLEN && s.output[0][s.offset] != '\0' then
      var (u, accepted) := Putc(s.u, s.output[0][s.offset]);
      if accepted then s.(u := u, offset := s.offset + 1) else s.(u := u, pc := Waiting)
    else s.(output := s.output[1..], offset := 0, printed := s.printed + [s.output[0]])
  }

  function Step(s: Console, ev: Event): Console
    requires Enabled(s, ev)
  {
    match ev
    case CrtReceive => Receive(s)
    case CrtStep => Turn(s)
    case Thre =>
      var (u, notify) := ThreInterrupt(s.u);
      s.(u := u, mailbox := if notify then s.mailbox + [Notification] else s.mailbox)
    case EchoInput(c) => s.(u := Echo(s.u, c))
    case Arrive(m) =>
      s.(mailbox := s.mailbox + [m], arrived := if m.Display? then s.arrived + [m.text] else s.arrived)
  }

  /** CRT's printing loop when no interrupt comes in between. */
  function PrintingDone(s: Console): Console
    requires s.pc == Printing
    decreases |s.output|, MTEXT_MAXLEN + 1 - s.offset
  {
    var s1 := Turn(s);
    if s1.pc == Waiting then s1 else PrintingDone(s1)
  }

  /** One round of the loop comes closer to its end. */
  lemma PrintingGoesOn(s: Console)
    requires s.pc == Printing && s.output != []
    ensures var s' := Turn(s);
            && PrintingDone(s) == (if s'.pc == Waiting then s' else PrintingDone(s'))
            && (s'.pc == Waiting || s'.pc == Printing)
            && (s'.pc == Printing ==> |s'.output| < |s.output| ||
                                      (|s'.output| == |s.output| && s.offset < s'.offset <= MTEXT_MAXLEN + 1))
  {
  }

  lemma PrintingOver(s: Console)
    requires s.pc == Printing && s.output == []
    ensures PrintingDone(s) == s.(pc := Waiting)
  {
  }

  /** Printing moves messages from the display list to those displayed, in order. */
  lemma {:induction false} PrintingConserves(s: Console)
    requires s.pc == Printing
    ensures var s' := PrintingDone(s); s'.printed + s'.output == s.printed + s.output && s.printed <= s'.printed
    decreases |s.output|, MTEXT_MAXLEN + 1 - s.offset
  {
    var s1 := Turn(s);
    assert s1.printed + s1.output == s.printed + s.output;
    if s1.pc != Waiting {
      PrintingConserves(s1);
    }
  }

  /** The loop ends with everything displayed, or with the buffer above its threshold and CRT sure to be woken. */
  lemma {:induction false} PrintingEnds(s: Console)
    requires s.pc == Printing && Protocol(s)
    ensures var s' := PrintingDone(s);
            && Protocol(s') && s'.pc == Waiting && s'.mailbox == s.mailbox
            && (s'.output == [] || (|s'.u.outbuf| > OUTBUF_THRESHOLD && (s'.u.notifOut || Notification in s'.mailbox)))
    decreases |s.output|, MTEXT_MAXLEN + 1 - s.offset
  {
    StepKeepsProtocol(s, CrtStep);
    if Turn(s).pc != Waiting {
      PrintingEnds(Turn(s));
    }
  }

  function Start(): Console {
    Console(Output([], false, false, false, []), [], Waiting, [], 0, [], [])
  }

  // ----- What is displayed -----

  /** A message shows up to its first NUL. */
  function Shown(t: seq<char>): (r: seq<char>)
    ensures r <= t && '\0' !in r
    ensures |r| < |t| ==> t[|r|] == '\0'
  {
    if t == [] || t[0] == '\0' then [] else [t[0]] + Shown(t[1..])
  }

  function ShownAll(ts: seq<Text>): seq<char> {
    if ts == [] then [] else ShownAll(ts[..|ts| - 1]) + Shown(ts[|ts| - 1])
  }

  /** Line ends go out as CR LF. */
  function Expand(s: seq<char>): seq<char> {
    if s == [] then []
    else Expand(s[..|s| - 1]) + (if s[|s| - 1] == '\n' then ['\r', '\n'] else [s[|s| - 1]])
  }

  /** CRT's characters among those on their way or sent. */
  function FromCrt(s: seq<Char>): seq<char> {
    if s == [] then [] else FromCrt(s[..|s| - 1]) + (if s[|s| - 1].crt then [s[|s| - 1].c] else [])
  }

  /** All that CRT has handed over: the messages it has finished and the beginning of the current one. */
  function HandedOver(s: Console): seq<char> {
    ShownAll(s.printed) + (if s.output != [] && s.offset <= |s.output[0]| then s.output[0][..s.offset] else [])
  }

  /** The display messages in a mailbox. */
  function Displays(mailbox: seq<CrtMessage>): seq<Text> {
    if mailbox == [] then []
    else Displays(mailbox[..|mailbox| - 1]) +
         (if mailbox[|mailbox| - 1].Display? then [mailbox[|mailbox| - 1].text] else [])
  }

  // ----- Invariants -----

  ghost predicate Protocol(s: Console) {
    && |s.u.outbuf| <= BUFFER_SIZE
    && (s.u.outbuf != [] ==> s.u.thre)
    && (s.u.notifOut ==> s.u.thre && !s.u.outstanding)
    && Count(s.mailbox, Notification) + (if s.pc == Clearing then 1 else 0) == (if s.u.outstanding then 1 else 0)
    && (s.pc == Waiting && s.output != [] ==> s.u.notifOut || Notification in s.mailbox)
  }

  ghost predicate Stream(s: Console) {
    && (s.output == [] ==> s.offset == 0)
    && (s.output != [] ==> s.offset <= |Shown(s.output[0])|)
    && FromCrt(s.u.wire + s.u.outbuf) == Expand(HandedOver(s))
  }

  /** No display message is lost, doubled or overtaken on its way through the mailbox and the display list. */
  ghost predicate InOrder(s: Console) {
    s.arrived == s.printed + s.output + Displays(s.mailbox)
  }

  lemma ReceiveKeepsProtocol(s: Console)
    requires Protocol(s) && s.pc == Waiting && s.mailbox != []
    ensures Protocol(Receive(s))
  {
    CountPop(s.mailbox, Notification);
    assert s.mailbox == [s.mailbox[0]] + s.mailbox[1..];
  }

  lemma TurnKeepsProtocol(s: Console)
    requires Protocol(s) && s.pc != Waiting
    ensures Protocol(Turn(s))
  {
  }

  lemma InterruptKeepsProtocol(s: Console)
    requires Protocol(s)
    ensures Protocol(Step(s, Thre))
  {
    CountPush(s.mailbox, Notification, Notification);
  }

  lemma StepKeepsProtocol(s: Console, ev: Event)
    requires Protocol(s) && Enabled(s, ev)
    ensures Protocol(Step(s, ev))
  {
    match ev
    case CrtReceive => ReceiveKeepsProtocol(s);
    case CrtStep => TurnKeepsProtocol(s);
    case Thre => InterruptKeepsProtocol(s);
    case EchoInput(c) =>
    case Arrive(m) => CountPush(s.mailbox, m, Notification);
  }

  lemma {:induction false} FromCrtConcat(a: seq<Char>, b: seq<Char>)
    ensures FromCrt(a + b) == FromCrt(a) + FromCrt(b)
  {
    if b == [] {
      assert a + b == a;
    } else {
      assert (a + b)[..|a + b| - 1] == a + b[..|b| - 1];
      FromCrtConcat(a, b[..|b| - 1]);
    }
  }

  /** Below the capacity nothing is lost: the new character follows all that went before. */
  lemma PutAppends(u: Output, ch: Char)
    requires u.outbuf != [] ==> u.thre
    ensures var u' := PutNonblocking(u, ch);
            u'.wire + u'.outbuf == u.wire + u.outbuf + (if |u.outbuf| == BUFFER_SIZE then [] else [ch])
  {
    var u' := PutNonblocking(u, ch);
    if !u.thre {
      assert u.outbuf == [] && u'.outbuf == [];
    }
  }

  lemma PutSilent(u: Output, c: char)
    requires u.outbuf != [] ==> u.thre
    ensures var u' := PutNonblocking(u, Char(c, false));
            FromCrt(u'.wire + u'.outbuf) == FromCrt(u.wire + u.outbuf) && u'.thre
  {
    PutAppends(u, Char(c, false));
    FromCrtConcat(u.wire + u.outbuf, [Char(c, false)]);
    assert [Char(c, false)][..0] == [];
    assert u.wire + u.outbuf + [] == u.wire + u.outbuf;
  }

  lemma PutLoud(u: Output, c: char)
    requires (u.outbuf != [] ==> u.thre) && |u.outbuf| < BUFFER_SIZE
    ensures var u' := PutNonblocking(u, Char(c, true));
            && FromCrt(u'.wire + u'.outbuf) == FromCrt(u.wire + u.outbuf) + [c]
            && u'.thre && |u'.outbuf| <= |u.outbuf| + 1
  {
    PutAppends(u, Char(c, true));
    FromCrtConcat(u.wire + u.outbuf, [Char(c, true)]);
    assert [Char(c, true)][..0] == [];
  }

  lemma PutcAppends(u: Output, c: char)
    requires (u.outbuf != [] ==> u.thre) && |u.outbuf| <= OUTBUF_THRESHOLD
    ensures var (u', accepted) := Putc(u, c);
            accepted && FromCrt(u'.wire + u'.outbuf) == FromCrt(u.wire + u.outbuf) +
              (if c == '\n' then ['\r', '\n'] else [c])
  {
    var u1 := if c == '\n' then PutNonblocking(u, Char('\r', true)) else u;
    if c == '\n' {
      PutLoud(u, '\r');
    }
    PutLoud(u1, c);
  }

  lemma ShownPrefix(t: Text, offset: nat)
    requires offset <= |Shown(t)|
    ensures offset <= MTEXT_MAXLEN && t[offset] != '\0' ==> offset + 1 <= |Shown(t)|
    ensures !(offset <= MTEXT_MAXLEN && t[offset] != '\0') ==> t[..offset] == Shown(t)
  {
    if offset < |Shown(t)| {
      assert Shown(t)[offset] != '\0' by { assert Shown(t)[offset] in Shown(t); }
    }
  }

  lemma ExpandOne(a: seq<char>, c: char)
    ensures Expand(a + [c]) == Expand(a) + (if c == '\n' then ['\r', '\n'] else [c])
  {
    assert (a + [c])[..|a|] == a;
  }

  lemma HandedOverGrows(s: Console)
    requires s.output != [] && s.offset <= MTEXT_MAXLEN
    ensures HandedOver(s.(offset := s.offset + 1)) == HandedOver(s) + [s.output[0][s.offset]]
  {
    assert s.output[0][..s.offset + 1] == s.output[0][..s.offset] + [s.output[0][s.offset]];
  }

  lemma CharacterKeepsStream(s: Console)
    requires Protocol(s) && Stream(s) && s.pc == Printing && s.output != []
    requires s.offset <= MTEXT_MAXLEN && s.output[0][s.offset] != '\0' && |s.u.outbuf| <= OUTBUF_THRESHOLD
    ensures Stream(Turn(s))
  {
    var s', c := Turn(s), s.output[0][s.offset];
    ShownPrefix(s.output[0], s.offset);
    PutcAppends(s.u, c);
    HandedOverGrows(s);
    ExpandOne(HandedOver(s), c);
    assert HandedOver(s') == HandedOver(s.(offset := s.offset + 1));
  }

  lemma ShownOneMore(a: seq<Text>, last: Text)
    ensures ShownAll(a + [last]) == ShownAll(a) + Shown(last)
  {
    assert (a + [last])[..|a|] == a;
  }

  /** A message shown to its end is as good as a message displayed. */
  lemma FinishedIsHandedOver(s: Console, s': Console)
    requires s.output != [] && s.offset <= |s.output[0]| && s.output[0][..s.offset] == Shown(s.output[0])
    requires s'.printed == s.printed + [s.output[0]] && s'.output == s.output[1..] && s'.offset == 0
    ensures HandedOver(s') == HandedOver(s)
  {
    ShownOneMore(s.printed, s.output[0]);
    assert s'.output != [] ==> s'.output[0][..0] == [];
  }

  lemma NextMessageKeepsStream(s: Console)
    requires Protocol(s) && Stream(s) && s.pc == Printing && s.output != []
    requires !(s.offset <= MTEXT_MAXLEN && s.output[0][s.offset] != '\0')
    ensures Stream(Turn(s))
  {
    ShownPrefix(s.output[0], s.offset);
    FinishedIsHandedOver(s, Turn(s));
  }

  lemma TurnKeepsStream(s: Console)
    requires Protocol(s) && Stream(s) && s.pc != Waiting
    ensures Stream(Turn(s))
  {
    if s.pc == Clearing || s.output == [] {
    } else if s.offset <= MTEXT_MAXLEN && s.output[0][s.offset] != '\0' {
      if |s.u.outbuf| <= OUTBUF_THRESHOLD {
        CharacterKeepsStream(s);
      }
    } else {
      NextMessageKeepsStream(s);
    }
  }

  lemma EchoIsSilent(u: Output, c: char)
    requires u.outbuf != [] ==> u.thre
    ensures FromCrt(Echo(u, c).wire + Echo(u, c).outbuf) == FromCrt(u.wire + u.outbuf)
  {
    PutSilent(u, c);
    if c == '\r' {
      PutSilent(PutNonblocking(u, Char(c, false)), '\n');
    }
  }

  lemma InterruptIsSilent(u: Output)
    ensures var u' := ThreInterrupt(u).0; u'.wire + u'.outbuf == u.wire + u.outbuf
  {
  }

  lemma ReceiveKeepsStream(s: Console)
    requires Stream(s) && s.mailbox != []
    ensures Stream(Receive(s))
  {
    var s' := Receive(s);
    if s.output == [] && s'.output != [] {
      assert s'.output[0][..0] == [];
    }
    assert HandedOver(s') == HandedOver(s);
  }

  /** What CRT handed over is untouched by what changes neither its display list nor its characters on the way. */
  lemma StreamFrame(s: Console, s': Console)
    requires Stream(s) && FromCrt(s'.u.wire + s'.u.outbuf) == FromCrt(s.u.wire + s.u.outbuf)
    requires s'.printed == s.printed && s'.output == s.output && s'.offset == s.offset
    ensures Stream(s')
  {
  }

  lemma StepKeepsStream(s: Console, ev: Event, s': Console)
    requires Protocol(s) && Stream(s) && Enabled(s, ev) && s' == Step(s, ev)
    ensures Stream(s')
  {
    match ev
    case CrtReceive => ReceiveKeepsStream(s);
    case CrtStep => TurnKeepsStream(s);
    case Thre =>
      InterruptIsSilent(s.u);
      StreamFrame(s, s');
    case EchoInput(c) =>
      EchoIsSilent(s.u, c);
      StreamFrame(s, s');
    case Arrive(m) => StreamFrame(s, s');
  }

  lemma {:induction false} DisplaysConcat(a: seq<CrtMessage>, b: seq<CrtMessage>)
    ensures Displays(a + b) == Displays(a) + Displays(b)
  {
    if b == [] {
      assert a + b == a;
    } else {
      assert (a + b)[..|a + b| - 1] == a + b[..|b| - 1];
      DisplaysConcat(a, b[..|b| - 1]);
    }
  }

  lemma DisplaysOne(m: CrtMessage)
    ensures Displays([m]) == if m.Display? then [m.text] else []
  {
    assert [m][..0] == [];
  }

  lemma Reassociate(a: seq<Text>, b: seq<Text>, c: seq<Text>, d: seq<Text>)
    ensures a + b + (c + d) == a + (b + c) + d
  {
  }

  lemma ReceiveKeepsOrder(s: Console)
    requires InOrder(s) && s.mailbox != []
    ensures InOrder(Receive(s))
  {
    var m, rest := s.mailbox[0], s.mailbox[1..];
    assert s.mailbox == [m] + rest;
    DisplaysConcat([m], rest);
    DisplaysOne(m);
    Reassociate(s.printed, s.output, if m.Display? then [m.text] else [], Displays(rest));
  }

  lemma StepKeepsOrder(s: Console, ev: Event)
    requires InOrder(s) && Enabled(s, ev)
    ensures InOrder(Step(s, ev))
  {
    match ev
    case CrtReceive =>
      ReceiveKeepsOrder(s);
    case CrtStep =>
      assert Turn(s).printed + Turn(s).output == s.printed + s.output;
    case Thre =>
      DisplaysConcat(s.mailbox, [Notification]);
      DisplaysOne(Notification);
    case EchoInput(c) =>
    case Arrive(m) =>
      DisplaysConcat(s.mailbox, [m]);
      DisplaysOne(m);
  }

  // ----- Whole runs -----

  ghost predicate IsRun(run: seq<Console>, events: seq<Event>) {
    && |run| == |events| + 1 && run[0] == Start()
    && forall i :: 0 <= i < |events| ==> Enabled(run[i], events[i]) && run[i + 1] == Step(run[i], events[i])
  }

  lemma {:induction false} RunsKeepProtocol(run: seq<Console>, events: seq<Event>, i: nat)
    requires IsRun(run, events) && i < |run|
    ensures Protocol(run[i]) && Stream(run[i]) && InOrder(run[i])
  {
    if i > 0 {
      RunsKeepProtocol(run, events, i - 1);
      StepKeepsProtocol(run[i - 1], events[i - 1]);
      StepKeepsStream(run[i - 1], events[i - 1], run[i]);
      StepKeepsOrder(run[i - 1], events[i - 1]);
    }
  }

  lemma {:induction false} ShownAllConcat(a: seq<Text>, b: seq<Text>)
    ensures ShownAll(a + b) == ShownAll(a) + ShownAll(b)
  {
    if b == [] {
      assert a + b == a;
    } else {
      var front, last := b[..|b| - 1], b[|b| - 1];
      assert b == front + [last] && a + b == (a + front) + [last];
      ShownAllConcat(a, front);
      ShownOneMore(front, last);
      ShownOneMore(a + front, last);
    }
  }

  lemma {:induction false} ExpandConcat(a: seq<char>, b: seq<char>)
    ensures Expand(a + b) == Expand(a) + Expand(b)
  {
    if b == [] {
      assert a + b == a;
    } else {
      assert (a + b)[..|a + b| - 1] == a + b[..|b| - 1];
      ExpandConcat(a, b[..|b| - 1]);
    }
  }

  lemma ExpandPrefix(a: seq<char>, b: seq<char>)
    requires a <= b
    ensures Expand(a) <= Expand(b)
  {
    assert b == a + b[|a|..];
    ExpandConcat(a, b[|a|..]);
  }

  lemma ShownFirst(first: Text, later: seq<Text>)
    ensures ShownAll([first] + later) == Shown(first) + ShownAll(later)
  {
    ShownAllConcat([first], later);
    assert [first][..0] == [];
  }

  lemma BeginningOf(printed: seq<Text>, first: Text, later: seq<Text>, offset: nat)
    requires offset <= |Shown(first)|
    ensures ShownAll(printed) + first[..offset] <= ShownAll(printed + ([first] + later))
  {
    ShownAllConcat(printed, [first] + later);
    ShownFirst(first, later);
    assert first[..offset] <= Shown(first);
  }

  /** What CRT has handed over is the beginning of all the messages sent to it, as they arrived. */
  lemma HandedOverIsPrefix(s: Console)
    requires Stream(s) && InOrder(s)
    ensures HandedOver(s) <= ShownAll(s.arrived)
    ensures s.output == [] && s.mailbox == [] ==> HandedOver(s) == ShownAll(s.arrived)
  {
    var rest := Displays(s.mailbox);
    if s.output != [] {
      var first, later := s.output[0], s.output[1..] + rest;
      assert s.arrived == s.printed + ([first] + later);
      BeginningOf(s.printed, first, later, s.offset);
    } else {
      assert s.arrived == s.printed + rest;
      ShownAllConcat(s.printed, rest);
    }
  }

  lemma WireIsPrefix(s: Console)
    requires Stream(s) && InOrder(s)
    ensures FromCrt(s.u.wire) <= Expand(ShownAll(s.arrived))
    ensures s.mailbox == [] && s.output == [] && s.u.outbuf == [] ==> FromCrt(s.u.wire) == Expand(ShownAll(s.arrived))
  {
    HandedOverIsPrefix(s);
    ExpandPrefix(HandedOver(s), ShownAll(s.arrived));
    FromCrtConcat(s.u.wire, s.u.outbuf);
    assert s.u.wire + [] == s.u.wire;
  }

  /**
   Output is complete and in order: at any time in any run CRT's characters on the wire are a beginning of the texts of
   all the messages sent to it, in order of arrival, with line ends expanded. When nothing is left to do they are all
   of it. So no character of CRT is dropped, doubled or moved, whatever the interrupts do.
   */
  lemma WireShowsAllMessages(run: seq<Console>, events: seq<Event>, i: nat)
    requires IsRun(run, events) && i < |run|
    ensures var s := run[i];
            && FromCrt(s.u.wire) <= Expand(ShownAll(s.arrived))
            && (s.mailbox == [] && s.output == [] && s.u.outbuf == [] ==>
                  FromCrt(s.u.wire) == Expand(ShownAll(s.arrived)))
  {
    RunsKeepProtocol(run, events, i);
    WireIsPrefix(run[i]);
  }

  // ----- Line ends -----

  lemma WithoutOne(c: char)
    ensures Without([c], '\r') == if c == '\r' then [] else [c]
    ensures Without(['\r', '\n'], '\r') == ['\n']
  {
    assert [c][..0] == [];
    assert ['\r', '\n'] == ['\r'] + ['\n'] && ['\r'][..0] == [] && ['\n'][..0] == [];
    WithoutConcat(['\r'], ['\n'], '\r');
  }

  /** Expansion puts a CR before every LF, and changes nothing else. */
  lemma {:induction false} ExpandAddsReturns(s: seq<char>)
    ensures Without(Expand(s), '\r') == Without(s, '\r')
    ensures forall i :: 0 <= i < |Expand(s)| && Expand(s)[i] == '\n' ==> i > 0 && Expand(s)[i - 1] == '\r'
    ensures '\n' !in s ==> Expand(s) == s
  {
    if s != [] {
      var front, c := s[..|s| - 1], s[|s| - 1];
      assert s == front + [c];
      ExpandAddsReturns(front);
      ExpandOne(front, c);
      WithoutOne(c);
      WithoutConcat(front, [c], '\r');
      WithoutConcat(Expand(front), if c == '\n' then ['\r', '\n'] else [c], '\r');
    }
  }

  // ----- What is typed is shown -----

  /** The echoed characters among those on their way or sent. */
  function FromInput(s: seq<Char>): seq<char> {
    if s == [] then [] else FromInput(s[..|s| - 1]) + (if s[|s| - 1].crt then [] else [s[|s| - 1].c])
  }

  /** A carriage return is echoed with a line feed; what finds the buffer full is lost. */
  function EchoOf(c: char, room: nat): seq<char> {
    var text := if c == '\r' then ['\r', '\n'] else [c];
    if |text| <= room then text else text[..room]
  }

  /** The echo of the characters received in the first `i` events. */
  function Echoed(run: seq<Console>, events: seq<Event>, i: nat): seq<char>
    requires i <= |events| && i <= |run|
  {
    if i == 0 then []
    else
      var room := if |run[i - 1].u.outbuf| <= BUFFER_SIZE then BUFFER_SIZE - |run[i - 1].u.outbuf| else 0;
      Echoed(run, events, i - 1) + (if events[i - 1].EchoInput? then EchoOf(events[i - 1].c, room) else [])
  }

  lemma {:induction false} FromInputConcat(a: seq<Char>, b: seq<Char>)
    ensures FromInput(a + b) == FromInput(a) + FromInput(b)
  {
    if b == [] {
      assert a + b == a;
    } else {
      assert (a + b)[..|a + b| - 1] == a + b[..|b| - 1];
      FromInputConcat(a, b[..|b| - 1]);
    }
  }

  lemma PutShows(u: Output, ch: Char)
    requires u.outbuf != [] ==> u.thre
    ensures var u' := PutNonblocking(u, ch);
            && FromInput(u'.wire + u'.outbuf) ==
               FromInput(u.wire + u.outbuf) + (if ch.crt || |u.outbuf| == BUFFER_SIZE then [] else [ch.c])
            && (u'.outbuf != [] ==> u'.thre)
  {
    PutAppends(u, ch);
    FromInputConcat(u.wire + u.outbuf, [ch]);
    assert [ch][..0] == [];
    assert u.wire + u.outbuf + [] == u.wire + u.outbuf;
  }

  lemma EchoShows(u: Output, c: char)
    requires (u.outbuf != [] ==> u.thre) && |u.outbuf| <= BUFFER_SIZE
    ensures var u' := Echo(u, c);
            FromInput(u'.wire + u'.outbuf) == FromInput(u.wire + u.outbuf) + EchoOf(c, BUFFER_SIZE - |u.outbuf|)
  {
    PutShows(u, Char(c, false));
    if c == '\r' {
      PutShows(PutNonblocking(u, Char(c, false)), Char('\n', false));
    }
  }

  lemma PutcShowsNothing(u: Output, c: char)
    requires u.outbuf != [] ==> u.thre
    ensures var u' := Putc(u, c).0; FromInput(u'.wire + u'.outbuf) == FromInput(u.wire + u.outbuf)
  {
    var u1 := if c == '\n' then PutNonblocking(u, Char('\r', true)) else u;
    PutShows(u, Char('\r', true));
    PutShows(u1, Char(c, true));
  }

  lemma TurnShowsNothing(s: Console, s': Console)
    requires Protocol(s) && s.pc != Waiting && s' == Turn(s)
    ensures FromInput(s'.u.wire + s'.u.outbuf) == FromInput(s.u.wire + s.u.outbuf)
  {
    if s.pc == Printing && s.output != [] && s.offset <= MTEXT_MAXLEN {
      PutcShowsNothing(s.u, s.output[0][s.offset]);
    }
  }

  lemma StepShows(s: Console, ev: Event, s': Console)
    requires Protocol(s) && Enabled(s, ev) && s' == Step(s, ev)
    ensures FromInput(s'.u.wire + s'.u.outbuf) ==
            FromInput(s.u.wire + s.u.outbuf) +
              (if ev.EchoInput? then EchoOf(ev.c, BUFFER_SIZE - |s.u.outbuf|) else [])
  {
    var shown := FromInput(s.u.wire + s.u.outbuf);
    assert shown + [] == shown;
    match ev
    case EchoInput(c) => EchoShows(s.u, c);
    case Thre => InterruptIsSilent(s.u);
    case CrtStep => TurnShowsNothing(s, s');
    case CrtReceive =>
    case Arrive(_) =>
  }

  /**
   What is typed is shown: on every run the echoed characters on the wire, followed by those still buffered, are the
   characters received, in order, each carriage return with a line feed, but for what found the buffer full.
   */
  lemma {:induction false} WireShowsWhatIsTyped(run: seq<Console>, events: seq<Event>, i: nat)
    requires IsRun(run, events) && i < |run|
    ensures FromInput(run[i].u.wire) + FromInput(run[i].u.outbuf) == Echoed(run, events, i)
  {
    FromInputConcat(run[i].u.wire, run[i].u.outbuf);
    if i > 0 {
      WireShowsWhatIsTyped(run, events, i - 1);
      FromInputConcat(run[i - 1].u.wire, run[i - 1].u.outbuf);
      RunsKeepProtocol(run, events, i - 1);
      StepShows(run[i - 1], events[i - 1], run[i]);
    }
  }

  // ----- The transmitter -----

  /** The characters written to the transmitter, less the one it is at work on. */
  function Acknowledged(u: Output): int {
    |u.wire| - (if u.thre then 1 else 0)
  }

  lemma PutAcknowledgesNothing(u: Output, ch: Char)
    requires u.outbuf != [] ==> u.thre
    ensures var u' := PutNonblocking(u, ch); Acknowledged(u') == Acknowledged(u) && (u'.outbuf != [] ==> u'.thre)
  {
  }

  lemma StepAcknowledges(s: Console, ev: Event, s': Console)
    requires Protocol(s) && Enabled(s, ev) && s' == Step(s, ev) && (ev == Thre ==> s.u.thre)
    ensures Acknowledged(s'.u) == Acknowledged(s.u) + (if ev == Thre then 1 else 0)
  {
    if ev.EchoInput? {
      PutAcknowledgesNothing(s.u, Char(ev.c, false));
      PutAcknowledgesNothing(PutNonblocking(s.u, Char(ev.c, false)), Char('\n', false));
    } else if ev.CrtStep? && s.pc == Printing && s.output != [] && s.offset <= MTEXT_MAXLEN {
      var c := s.output[0][s.offset];
      PutAcknowledgesNothing(s.u, Char('\r', true));
      PutAcknowledgesNothing(if c == '\n' then PutNonblocking(s.u, Char('\r', true)) else s.u, Char(c, true));
    }
  }

  /** The transmitter interrupts once for each character written to it, when it is done with it. */
  ghost predicate InterruptsMatch(run: seq<Console>, events: seq<Event>, i: nat)
    requires i <= |events| && i <= |run|
  {
    forall m :: 0 <= m < i && events[m] == Thre ==> Count(events[..m], Thre) < |run[m].u.wire|
  }

  /**
   The flag uart_thre is right: if the transmitter interrupts once for each character written to it, the flag is up
   exactly while it is at work on one. So no character is kept waiting while the transmitter is idle, and none is
   written to it while it is busy.
   */
  lemma {:induction false} TransmitterFlagIsRight(run: seq<Console>, events: seq<Event>, i: nat)
    requires IsRun(run, events) && i < |run| && InterruptsMatch(run, events, i)
    ensures |run[i].u.wire| == Count(events[..i], Thre) + (if run[i].u.thre then 1 else 0)
    ensures run[i].u.outbuf != [] ==> run[i].u.thre
  {
    RunsKeepProtocol(run, events, i);
    if i > 0 {
      assert InterruptsMatch(run, events, i - 1);
      TransmitterFlagIsRight(run, events, i - 1);
      NextAcknowledges(run, events, i - 1);
    }
  }

  lemma NextAcknowledges(run: seq<Console>, events: seq<Event>, i: nat)
    requires IsRun(run, events) && i < |events| && InterruptsMatch(run, events, i + 1)
    requires Acknowledged(run[i].u) == Count(events[..i], Thre)
    ensures Acknowledged(run[i + 1].u) == Count(events[..i + 1], Thre)
  {
    RunsKeepProtocol(run, events, i);
    StepAcknowledges(run[i], events[i], run[i + 1]);
    assert events[..i + 1] == events[..i] + [events[i]];
    CountPush(events[..i], events[i], Thre);
  }

  // ----- CRT is woken up -----

  /** Event `m` of the run is the interrupt that sends CRT its notification. */
  ghost predicate Notifies(run: seq<Console>, events: seq<Event>, m: nat) {
    m < |events| && m + 1 < |run| && events[m] == Thre && run[m + 1].mailbox == run[m].mailbox + [Notification]
  }

  /** How many characters were buffered or sent between two states. */
  function Added(s: Console, s': Console): int {
    |s'.u.wire| + |s'.u.outbuf| - |s.u.wire| - |s.u.outbuf|
  }

  /** While the notification is armed, exactly the transmitter's interrupts send characters, one each. */
  lemma ArmedStep(s: Console, ev: Event)
    requires Protocol(s) && s.u.notifOut && Enabled(s, ev)
    ensures var s' := Step(s, ev);
            if s'.u.notifOut then |s'.u.wire| == |s.u.wire| + (if ev == Thre then 1 else 0)
            else ev == Thre && s'.mailbox == s.mailbox + [Notification]
  {
  }

  lemma ArmedNext(run: seq<Console>, events: seq<Event>, i: nat)
    requires IsRun(run, events) && i < |events| && run[i].u.notifOut && !Notifies(run, events, i)
    ensures run[i + 1].u.notifOut && |run[i + 1].u.wire| == |run[i].u.wire| + (if events[i] == Thre then 1 else 0)
  {
    RunsKeepProtocol(run, events, i);
    ArmedStep(run[i], events[i]);
  }

  lemma {:induction false} ArmedCounts(run: seq<Console>, events: seq<Event>, i: nat, j: nat)
    requires IsRun(run, events) && i <= j < |run| && run[i].u.notifOut
    requires forall m: nat :: i <= m < j ==> !Notifies(run, events, m)
    ensures run[j].u.notifOut && |run[j].u.wire| == |run[i].u.wire| + Count(events[i..j], Thre)
    decreases j
  {
    if i < j {
      ArmedCounts(run, events, i, j - 1);
      ArmedNext(run, events, j - 1);
      assert events[i..j] == events[i..j - 1] + [events[j - 1]];
      CountPush(events[i..j - 1], events[j - 1], Thre);
    }
  }

  /**
   CRT is never left asleep: whenever it waits with something undisplayed, the notification is already in its mailbox,
   or it is sent as soon as more of the transmitter's interrupts have come than characters were buffered then or added
   since, whatever else happens in between.
   */
  lemma CrtIsWokenUp(run: seq<Console>, events: seq<Event>, i: nat, j: nat)
    requires IsRun(run, events) && i <= j < |run| && run[i].pc == Waiting && run[i].output != []
    ensures Count(run[i].mailbox, Notification) <= 1
    ensures Notification !in run[i].mailbox && Count(events[i..j], Thre) > |run[i].u.outbuf| + Added(run[i], run[j]) ==>
              exists m: nat :: i <= m < j && Notifies(run, events, m)
  {
    RunsKeepProtocol(run, events, i);
    if Notification !in run[i].mailbox && forall m: nat :: i <= m < j ==> !Notifies(run, events, m) {
      ArmedCounts(run, events, i, j);
    }
  }
}
