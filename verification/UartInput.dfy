/**
 Input from the UART (uart_irq.c, kcd.c): the receive interrupt fills a ring buffer and tells KCD about a finished line;
 KCD drains the buffer, assembles command lines and passes each to the processes that registered a matching prefix.
 Interrupts may come between any two steps of KCD.
 */
module UartInputs {
  import opened Constants
  import opened Sequences

  const BUFFER_SIZE: nat := 200

  // ----- Dispatch of a command -----

  /** A registration: who sent it, and the prefix. */
  datatype Entry = Entry(pid: Pid, prefix: seq<char>)

  /** strncmp(text, prefix, strlen(prefix)) == 0, for a prefix without NUL. */
  predicate Matches(text: seq<char>, prefix: seq<char>) {
    prefix <= text
  }

  /** Who gets a command: the owners of matching entries, in the order of their first one, each once. */
  function Recipients(entries: seq<Entry>, text: seq<char>): (pids: seq<int>)
  {
    if entries == [] then []
    else
      var before, last := Recipients(entries[..|entries| - 1], text), entries[|entries| - 1];
      if Matches(text, last.prefix) && last.pid !in before then before + [last.pid] else before
  }

  /** Each process with a matching registration gets the command once, nobody else gets it. */
  lemma {:induction false} RecipientsAreTheMatching(entries: seq<Entry>, text: seq<char>)
    ensures NoDup(Recipients(entries, text))
    ensures forall pid :: pid in Recipients(entries, text) <==>
                            exists i :: 0 <= i < |entries| && entries[i].pid == pid && entries[i].prefix <= text
  {
    if entries != [] {
      var front, last := entries[..|entries| - 1], entries[|entries| - 1];
      RecipientsAreTheMatching(front, text);
      assert entries == front + [last];
      forall pid ensures pid in Recipients(entries, text) <==>
                           exists i :: 0 <= i < |entries| && entries[i].pid == pid && Matches(text, entries[i].prefix)
      {
        if i :| 0 <= i < |entries| && entries[i].pid == pid && Matches(text, entries[i].prefix) {
          if i < |front| {
            assert front[i] == entries[i];
          }
        }
        if pid in Recipients(front, text) {
          var i :| 0 <= i < |front| && front[i].pid == pid && Matches(text, front[i].prefix);
          assert entries[i] == front[i];
        }
        if pid in Recipients(entries, text) && pid !in Recipients(front, text) {
          assert entries[|front|].pid == pid;
        }
      }
    }
  }

  /** kcd_process_keyboard_input; `sentTo` are the bits of an int, one for each pid served so far. */
  method ProcessKeyboardInput(entries: seq<Entry>, text: seq<char>) returns (sent: seq<int>)
    ensures sent == Recipients(entries, text)
  {
    sent := [];
    assert NUM_PROCS <= 32;
    var sentTo: seq<bool> := seq(32, _ => false);
    for k := 0 to |entries|
      invariant sent == Recipients(entries[..k], text) && |sentTo| == 32
      invariant forall p: Pid :: sentTo[p] <==> p in sent
    {
      assert entries[..k + 1][..k] == entries[..k];
      var cur := entries[k];
      if Matches(text, cur.prefix) && !sentTo[cur.pid] {
        sentTo := sentTo[cur.pid := true];
        sent := sent + [cur.pid];
      }
    }
    assert entries[..|entries|] == entries;
  }

  // ----- The protocol -----

  datatype KcdMessage = LineNotification | Register(entry: Entry) | Junk
  datatype Command = Command(text: seq<char>, recipients: seq<int>)

  datatype Keyboard = Keyboard(
    inbuf: seq<char>,
    notifIn: bool,               // uart_iproc_notif_in: KCD is to be told of the next line end
    mailbox: seq<KcdMessage>,
    draining: bool,              // KCD is in kcd_handle_keyboard_input
    line: seq<char>,             // the command being assembled
    entries: seq<Entry>,
    commands: seq<Command>,      // all commands passed on so far
    accepted: seq<char>,         // all characters that got into inbuf
    hotkeys: bool)               // _DEBUG_HOTKEYS: the build has the debugging keys

  datatype Event =
    | Rx(c: char)                // receive interrupt
    | KcdReceive | KcdGetc       // KCD runs
    | Arrive(m: KcdMessage)      // somebody sends KCD a message

  predicate Enabled(s: Keyboard, ev: Event) {
    match ev
    case Rx(_) => true
    case KcdReceive => !s.draining && s.mailbox != []
    case KcdGetc => s.draining
    case Arrive(m) => m != LineNotification
  }

  /** check_hotkey. */
  predicate IsHotkey(c: char, hotkeys: bool) {
    hotkeys && (c == '!' || c == '@' || c == '#')
  }

  /** Characters the receive interrupt lets through: no hot keys, no backspace or delete. */
  predicate PassesFilter(c: char, hotkeys: bool) {
    !IsHotkey(c, hotkeys) && c != 127 as char && c != 8 as char
  }

  /** uart_send_input_char. */
  function SendInputChar(s: Keyboard, c: char): Keyboard {
    if |s.inbuf| == BUFFER_SIZE then s
    else
      var s1 := s.(inbuf := s.inbuf + [c], accepted := s.accepted + [c]);
      if c == '\r' && s.notifIn then s1.(notifIn := false, mailbox := s.mailbox + [LineNotification]) else s1
  }

  /** One character in kcd_handle_keyboard_input. */
  function TakeChar(s: Keyboard, c: char): Keyboard {
    if c == '\n' then s
    else if c == '\r' then s.(line := [], commands := s.commands + [Command(s.line, Recipients(s.entries, s.line))])
    else if |s.line| < MTEXT_MAXLEN then s.(line := s.line + [c])
    else s
  }

  function Step(s: Keyboard, ev: Event): Keyboard
    requires Enabled(s, ev)
  {
    match ev
    case Rx(c) => if PassesFilter(c, s.hotkeys) then SendInputChar(s, c) else s
    case KcdReceive =>
      var s1 := s.(mailbox := s.mailbox[1..]);
      (match s.mailbox[0]
       case LineNotification => s1.(draining := true)
       case Register(e) => s1.(entries := s.entries + [e])
       case Junk => s1)
    case KcdGetc =>
      if s.inbuf == [] then s.(notifIn := true, draining := false)
      else TakeChar(s.(inbuf := s.inbuf[1..]), s.inbuf[0])
    case Arrive(m) => s.(mailbox := s.mailbox + [m])
  }

  /** kcd_handle_keyboard_input when no interrupt comes in between. */
  function Drained(s: Keyboard): Keyboard
    requires s.draining
    decreases |s.inbuf|
  {
    if s.inbuf == [] then Step(s, KcdGetc) else Drained(Step(s, KcdGetc))
  }

  /** Draining reads everything, passes on every line that was buffered, and asks for the next notification. */
  lemma {:induction false} DrainedReadsAll(s: Keyboard)
    requires s.draining && Assembly(s)
    ensures var s' := Drained(s);
            && s'.inbuf == [] && s'.notifIn && !s'.draining
            && s'.accepted == s.accepted && s'.mailbox == s.mailbox && s'.entries == s.entries
            && Texts(s'.commands) == Lines(s.accepted) && s'.line == LineText(Rest(s.accepted))
    decreases |s.inbuf|
  {
    if s.inbuf == [] {
      DrainingEnds(s);
      EverythingRead(s);
    } else {
      DrainingGoesOn(s, Step(s, KcdGetc));
      StepKeepsAssembly(s, KcdGetc);
      DrainedReadsAll(Step(s, KcdGetc));
    }
  }

  lemma DrainingGoesOn(s: Keyboard, s': Keyboard)
    requires s.draining && s.inbuf != [] && s' == Step(s, KcdGetc)
    ensures s'.draining && |s'.inbuf| < |s.inbuf| && Drained(s) == Drained(s')
    ensures s'.accepted == s.accepted && s'.mailbox == s.mailbox && s'.entries == s.entries
  {
  }

  lemma DrainingEnds(s: Keyboard)
    requires s.draining && s.inbuf == []
    ensures Drained(s) == s.(notifIn := true, draining := false)
  {
  }

  lemma EverythingRead(s: Keyboard)
    requires Assembly(s) && s.inbuf == []
    ensures Texts(s.commands) == Lines(s.accepted) && s.line == LineText(Rest(s.accepted))
  {
    assert s.accepted[..|s.accepted|] == s.accepted;
  }

  function Start(hotkeys: bool): Keyboard {
    Keyboard([], true, [], false, [], [], [], [], hotkeys)
  }

  // ----- The lines of a character stream, without reference to KCD -----

  function FirstReturn(s: seq<char>): (i: nat)
    ensures i <= |s| && '\r' !in s[..i]
    ensures i < |s| ==> s[i] == '\r'
  {
    if s == [] || s[0] == '\r' then 0 else 1 + FirstReturn(s[1..])
  }

  /** A line as a command: line feeds do not count, what is too long is cut off. */
  function LineText(s: seq<char>): seq<char> {
    var t := Without(s, '\n');
    if |t| <= MTEXT_MAXLEN then t else t[..MTEXT_MAXLEN]
  }

  /** The stream split at carriage returns. */
  function Lines(s: seq<char>): seq<seq<char>>
    decreases |s|
  {
    var i := FirstReturn(s);
    if i == |s| then [] else [LineText(s[..i])] + Lines(s[i + 1..])
  }

  /** What comes after the last carriage return. */
  function Rest(s: seq<char>): seq<char>
    decreases |s|
  {
    var i := FirstReturn(s);
    if i == |s| then s else Rest(s[i + 1..])
  }

  function Texts(commands: seq<Command>): seq<seq<char>> {
    seq(|commands|, i requires 0 <= i < |commands| => commands[i].text)
  }

  // ----- Invariants -----

  /** The one notification is armed, in KCD's mailbox, or being served; while it is armed no line end is buffered. */
  ghost predicate Protocol(s: Keyboard) {
    && |s.inbuf| <= BUFFER_SIZE
    && Count(s.mailbox, LineNotification) + (if s.draining then 1 else 0) == (if s.notifIn then 0 else 1)
    && (s.notifIn ==> '\r' !in s.inbuf)
  }

  /** What KCD has read of the accepted characters. */
  function ReadSoFar(s: Keyboard): seq<char> {
    if |s.inbuf| <= |s.accepted| then s.accepted[..|s.accepted| - |s.inbuf|] else []
  }

  /** KCD has cut what it read so far into lines; what it did not read is buffered. */
  ghost predicate Assembly(s: Keyboard) {
    s.accepted == ReadSoFar(s) + s.inbuf && Assembled(s.commands, s.line, ReadSoFar(s))
  }

  ghost predicate Assembled(commands: seq<Command>, line: seq<char>, read: seq<char>) {
    Texts(commands) == Lines(read) && line == LineText(Rest(read))
  }

  lemma StepKeepsProtocol(s: Keyboard, ev: Event)
    requires Protocol(s) && Enabled(s, ev)
    ensures Protocol(Step(s, ev))
  {
    match ev
    case Rx(c) =>
      CountPush(s.mailbox, LineNotification, LineNotification);
    case KcdReceive =>
      CountPop(s.mailbox, LineNotification);
    case KcdGetc =>
    case Arrive(m) =>
      CountPush(s.mailbox, m, LineNotification);
  }

  lemma {:induction false} FirstReturnConcat(s: seq<char>, c: char)
    ensures FirstReturn(s) < |s| ==> FirstReturn(s + [c]) == FirstReturn(s)
    ensures FirstReturn(s) == |s| ==> FirstReturn(s + [c]) == if c == '\r' then |s| else |s| + 1
  {
    if s == [] || s[0] == '\r' {
    } else {
      FirstReturnConcat(s[1..], c);
      assert (s + [c])[1..] == s[1..] + [c];
    }
  }

  /** Splitting off the first line commutes with appending a character behind it. */
  lemma FirstLineStays(s: seq<char>, c: char)
    requires FirstReturn(s) < |s|
    ensures var i := FirstReturn(s);
            && FirstReturn(s + [c]) == i
            && (s + [c])[..i] == s[..i]
            && (s + [c])[i + 1..] == s[i + 1..] + [c]
  {
    FirstReturnConcat(s, c);
    SlicesStay(s, c, FirstReturn(s));
  }

  lemma SlicesStay(s: seq<char>, c: char, i: nat)
    requires i < |s|
    ensures (s + [c])[..i] == s[..i] && (s + [c])[i + 1..] == s[i + 1..] + [c]
  {
  }

  lemma LinesUnfold(s: seq<char>, i: nat)
    requires i == FirstReturn(s) < |s|
    ensures Lines(s) == [LineText(s[..i])] + Lines(s[i + 1..]) && Rest(s) == Rest(s[i + 1..])
  {
  }

  lemma LaterLinesGrow(s: seq<char>, c: char, i: nat)
    requires i == FirstReturn(s) < |s|
    ensures var tail := s[i + 1..];
            && Lines(s + [c]) == [LineText(s[..i])] + Lines(tail + [c])
            && Lines(s) == [LineText(s[..i])] + Lines(tail)
            && Rest(s) == Rest(tail) && Rest(s + [c]) == Rest(tail + [c])
  {
    FirstLineStays(s, c);
    LinesUnfold(s, i);
    LinesUnfold(s + [c], i);
  }

  lemma {:induction false} LinesGrow(s: seq<char>, c: char)
    ensures Lines(s + [c]) == if c == '\r' then Lines(s) + [LineText(Rest(s))] else Lines(s)
    decreases |s|
  {
    var i := FirstReturn(s);
    if i < |s| {
      LinesGrow(s[i + 1..], c);
      LaterLinesGrow(s, c, i);
    } else {
      LastLineEnds(s, c);
    }
  }

  lemma LastLineEnds(s: seq<char>, c: char)
    requires FirstReturn(s) == |s|
    ensures Lines(s) == [] && Rest(s) == s
    ensures c == '\r' ==> Lines(s + [c]) == [LineText(s)] && Rest(s + [c]) == []
    ensures c != '\r' ==> Lines(s + [c]) == [] && Rest(s + [c]) == s + [c]
  {
    FirstReturnConcat(s, c);
    if c == '\r' {
      assert (s + [c])[..|s|] == s && (s + [c])[|s| + 1..] == [];
      LinesUnfold(s + [c], |s|);
      NoLines();
    }
  }

  lemma NoLines()
    ensures Lines([]) == [] && Rest([]) == []
  {
  }

  lemma {:induction false} RestGrows(s: seq<char>, c: char)
    ensures Rest(s + [c]) == if c == '\r' then [] else Rest(s) + [c]
    decreases |s|
  {
    var i := FirstReturn(s);
    if i < |s| {
      RestGrows(s[i + 1..], c);
      LaterLinesGrow(s, c, i);
    } else {
      LastLineEnds(s, c);
    }
  }

  lemma LineTextGrows(s: seq<char>, c: char)
    ensures LineText(s + [c]) ==
            if c != '\n' && |LineText(s)| < MTEXT_MAXLEN then LineText(s) + [c] else LineText(s)
  {
    assert (s + [c])[..|s|] == s;
  }

  lemma TextsGrow(commands: seq<Command>, command: Command)
    ensures Texts(commands + [command]) == Texts(commands) + [command.text]
  {
  }

  lemma ReturnFollows(commands: seq<Command>, line: seq<char>, read: seq<char>, command: Command)
    requires Assembled(commands, line, read) && command.text == line
    ensures Assembled(commands + [command], [], read + ['\r'])
  {
    LinesGrow(read, '\r');
    RestGrows(read, '\r');
    TextsGrow(commands, command);
  }

  lemma CharacterFollows(commands: seq<Command>, line: seq<char>, read: seq<char>, c: char)
    requires Assembled(commands, line, read) && c != '\r'
    ensures Assembled(commands, if c != '\n' && |line| < MTEXT_MAXLEN then line + [c] else line, read + [c])
  {
    LinesGrow(read, c);
    RestGrows(read, c);
    LineTextGrows(Rest(read), c);
  }

  /** KCD's line buffer and commands follow the stream it reads, one character at a time. */
  lemma TakeCharFollows(s: Keyboard, read: seq<char>, c: char)
    requires Assembled(s.commands, s.line, read)
    ensures var s' := TakeChar(s, c); Assembled(s'.commands, s'.line, read + [c])
  {
    if c == '\r' {
      ReturnFollows(s.commands, s.line, read, Command(s.line, Recipients(s.entries, s.line)));
    } else {
      CharacterFollows(s.commands, s.line, read, c);
    }
  }

  lemma SplitAt(s: Keyboard, read: seq<char>)
    requires s.accepted == read + s.inbuf
    ensures ReadSoFar(s) == read
  {
  }

  lemma MoveOver(read: seq<char>, buffered: seq<char>)
    requires buffered != []
    ensures read + buffered == (read + [buffered[0]]) + buffered[1..]
  {
  }

  lemma TakeCharKeepsAssembly(s: Keyboard)
    requires Assembly(s) && s.inbuf != []
    ensures Assembly(TakeChar(s.(inbuf := s.inbuf[1..]), s.inbuf[0]))
  {
    var read, c, s1 := ReadSoFar(s), s.inbuf[0], s.(inbuf := s.inbuf[1..]);
    TakeCharFollows(s1, read, c);
    MoveOver(read, s.inbuf);
    SplitAt(TakeChar(s1, c), read + [c]);
  }

  lemma AcceptKeepsAssembly(s: Keyboard, c: char)
    requires Assembly(s)
    ensures Assembly(SendInputChar(s, c))
  {
    var s' := SendInputChar(s, c);
    if s'.accepted != s.accepted {
      assert (ReadSoFar(s) + s.inbuf) + [c] == ReadSoFar(s) + (s.inbuf + [c]);
      SplitAt(s', ReadSoFar(s));
    }
  }

  /** What assembly does not look at may change. */
  lemma AssemblyFrame(s: Keyboard, s': Keyboard)
    requires Assembly(s) && s'.inbuf == s.inbuf && s'.accepted == s.accepted
    requires s'.line == s.line && s'.commands == s.commands
    ensures Assembly(s')
  {
    SplitAt(s', ReadSoFar(s));
  }

  lemma StepKeepsAssembly(s: Keyboard, ev: Event)
    requires Assembly(s) && Enabled(s, ev)
    ensures Assembly(Step(s, ev))
  {
    if ev.Rx? {
      AcceptKeepsAssembly(s, ev.c);
    } else if ev.KcdGetc? && s.inbuf != [] {
      TakeCharKeepsAssembly(s);
    } else {
      AssemblyFrame(s, Step(s, ev));
    }
  }

  lemma StartInvariants(hotkeys: bool)
    ensures Protocol(Start(hotkeys)) && Assembly(Start(hotkeys))
  {
    assert Lines([]) == [] && LineText(Rest([])) == [];
  }

  // ----- Whole runs -----

  ghost predicate IsRun(run: seq<Keyboard>, events: seq<Event>) {
    && |run| == |events| + 1 && run[0] == Start(run[0].hotkeys)
    && forall i :: 0 <= i < |events| ==> Enabled(run[i], events[i]) && run[i + 1] == Step(run[i], events[i])
  }

  lemma StepKeepsInvariants(s: Keyboard, ev: Event, s': Keyboard)
    requires Protocol(s) && Assembly(s) && Enabled(s, ev) && s' == Step(s, ev)
    ensures Protocol(s') && Assembly(s')
  {
    StepKeepsProtocol(s, ev);
    StepKeepsAssembly(s, ev);
  }

  lemma {:induction false} RunsKeepInvariants(run: seq<Keyboard>, events: seq<Event>, i: nat)
    requires IsRun(run, events) && i < |run|
    ensures Protocol(run[i]) && Assembly(run[i])
  {
    if i == 0 {
      StartInvariants(run[0].hotkeys);
    } else {
      RunsKeepInvariants(run, events, i - 1);
      StepKeepsInvariants(run[i - 1], events[i - 1], run[i]);
    }
  }

  /**
   Line assembly over whole runs: however interrupts and KCD interleave, the commands KCD has passed on are the lines of
   the characters it has read, which are the accepted ones but for those still buffered. A buffered line end is never
   forgotten: KCD is draining or its notification is in the mailbox, once.
   */
  lemma CommandsAreTheLines(run: seq<Keyboard>, events: seq<Event>, i: nat)
    requires IsRun(run, events) && i < |run|
    ensures var s := run[i];
            && ReadSoFar(s) + s.inbuf == s.accepted
            && Texts(s.commands) == Lines(ReadSoFar(s)) && s.line == LineText(Rest(ReadSoFar(s)))
            && ('\r' in s.inbuf ==> s.draining || LineNotification in s.mailbox)
            && Count(s.mailbox, LineNotification) <= 1
  {
    RunsKeepInvariants(run, events, i);
  }

  // ----- What is typed is what is read -----

  /** What the filter should let through: everything but delete, backspace and, in that build, the debugging keys. */
  predicate Ordinary(c: char, hotkeys: bool) {
    c != '\U{7F}' && c != '\U{08}' && !(hotkeys && c in {'!', '@', '#'})
  }

  /** The characters received in the first `i` events, in order, without those that found the buffer full. */
  function Arrived(run: seq<Keyboard>, events: seq<Event>, i: nat): seq<char>
    requires i <= |events| && i <= |run|
  {
    if i == 0 then []
    else
      var s, ev := run[i - 1], events[i - 1];
      Arrived(run, events, i - 1) +
        (if ev.Rx? && Ordinary(ev.c, s.hotkeys) && |s.inbuf| < BUFFER_SIZE then [ev.c] else [])
  }

  lemma StepAccepts(s: Keyboard, ev: Event, s': Keyboard)
    requires Protocol(s) && Enabled(s, ev) && s' == Step(s, ev)
    ensures s'.hotkeys == s.hotkeys
    ensures s'.accepted ==
            s.accepted + (if ev.Rx? && Ordinary(ev.c, s.hotkeys) && |s.inbuf| < BUFFER_SIZE then [ev.c] else [])
  {
  }

  /**
   Over whole runs KCD reads what is typed: the characters it has read, followed by those still buffered, are all
   ordinary characters received, in order, but for those that came while 200 were buffered.
   */
  lemma {:induction false} TypedIsAccepted(run: seq<Keyboard>, events: seq<Event>, i: nat)
    requires IsRun(run, events) && i < |run|
    ensures ReadSoFar(run[i]) + run[i].inbuf == Arrived(run, events, i) && run[i].hotkeys == run[0].hotkeys
    ensures run[i].accepted == Arrived(run, events, i)
  {
    RunsKeepInvariants(run, events, i);
    if i > 0 {
      TypedIsAccepted(run, events, i - 1);
      RunsKeepInvariants(run, events, i - 1);
      StepAccepts(run[i - 1], events[i - 1], run[i]);
    }
  }

  // ----- Where the input protocol stops working -----

  /** The buffer is full, holds no line end, and KCD has not been told to read it. */
  ghost predicate Jammed(s: Keyboard) {
    |s.inbuf| == BUFFER_SIZE && s.notifIn
  }

  /** A received line end leads to a wake-up of KCD if and only if the buffer has room or KCD is being woken anyway. */
  lemma LineEndWakesUnlessJammed(s: Keyboard)
    requires Protocol(s)
    ensures var s' := Step(s, Rx('\r')); (s'.draining || LineNotification in s'.mailbox) <==> !Jammed(s)
  {
    StepKeepsProtocol(s, Rx('\r'));
  }

  lemma JammedStep(s: Keyboard, ev: Event, s': Keyboard)
    requires Protocol(s) && Jammed(s) && Enabled(s, ev) && s' == Step(s, ev)
    ensures Jammed(s') && s'.inbuf == s.inbuf && s'.accepted == s.accepted && s'.commands == s.commands
  {
  }

  lemma JammedStays(run: seq<Keyboard>, events: seq<Event>, i: nat)
    requires IsRun(run, events) && i < |events| && Jammed(run[i])
    ensures Jammed(run[i + 1]) && run[i + 1].inbuf == run[i].inbuf
    ensures run[i + 1].accepted == run[i].accepted && run[i + 1].commands == run[i].commands
  {
    RunsKeepInvariants(run, events, i);
    JammedStep(run[i], events[i], run[i + 1]);
  }

  /** Once jammed, the input stays jammed for ever: whatever happens, no character is accepted or read again. */
  lemma {:induction false} JammedForEver(run: seq<Keyboard>, events: seq<Event>, i: nat, j: nat)
    requires IsRun(run, events) && i <= j < |run| && Jammed(run[i])
    ensures Jammed(run[j]) && run[j].inbuf == run[i].inbuf
    ensures run[j].accepted == run[i].accepted && run[j].commands == run[i].commands
    decreases j
  {
    if i < j {
      JammedForEver(run, events, i, j - 1);
      JammedStays(run, events, j - 1);
    }
  }

  /** The state after `n` times the character `c`, from power-on and before KCD reads anything. */
  function Typed(hotkeys: bool, c: char, n: nat): Keyboard {
    if n == 0 then Start(hotkeys) else Step(Typed(hotkeys, c, n - 1), Rx(c))
  }

  lemma {:induction false} TypedFills(hotkeys: bool, n: nat)
    requires n <= BUFFER_SIZE
    ensures |Typed(hotkeys, 'x', n).inbuf| == n && Typed(hotkeys, 'x', n).notifIn
  {
    if n > 0 {
      TypedFills(hotkeys, n - 1);
    }
  }

  /** It does happen, in either build: a line of 200 characters jams the input. */
  lemma LongLineJams(hotkeys: bool)
    ensures Jammed(Typed(hotkeys, 'x', BUFFER_SIZE))
  {
    TypedFills(hotkeys, BUFFER_SIZE);
  }
}
