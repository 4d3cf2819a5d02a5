/**
 The wall clock process (sys_proc.c). It sends itself a delayed message each second; a generation number in the message
 tells ticks of the running clock from those left over from before a command.
 */
module WallClocks {
  import Printf

  datatype Time = Time(h: nat, m: nat, s: nat)
  datatype Request = Terminate | Set(time: Time) | Invalid

  const MIDNIGHT := Time(0, 0, 0)

  predicate IsTime(t: Time) {
    t.h < 24 && t.m < 60 && t.s < 60
  }

  function Seconds(t: Time): nat {
    t.h * 3600 + t.m * 60 + t.s
  }

  /** The nested increments of clock_handle_tick. */
  function Advance(t: Time): Time {
    var s := (t.s + 1) % 60;
    if s != 0 then Time(t.h, t.m, s)
    else
      var m := (t.m + 1) % 60;
      if m != 0 then Time(t.h, m, s) else Time((t.h + 1) % 24, m, s)
  }

  lemma NextMod(x: nat, n: nat)
    requires x < n
    ensures (x + 1) % n == if x + 1 == n then 0 else x + 1
  {
  }

  lemma AdvanceIsOneSecond(t: Time)
    requires IsTime(t)
    ensures IsTime(Advance(t)) && Seconds(Advance(t)) == (Seconds(t) + 1) % 86400
  {
    NextMod(t.s, 60);
    NextMod(t.m, 60);
    NextMod(t.h, 24);
    NextMod(Seconds(t), 86400);
  }

  // ----- Commands -----

  predicate IsDigit(c: char) {
    '0' <= c <= '9'
  }

  function DigitValue(c: char): nat
    requires IsDigit(c)
  {
    (c - '0') as nat
  }

  function TwoDigitValue(a: char, b: char): nat
    requires IsDigit(a) && IsDigit(b)
  {
    10 * DigitValue(a) + DigitValue(b)
  }

  /** check_invalid_chars. */
  predicate DigitsInPlace(cmd: seq<char>)
    requires |cmd| == 12
  {
    forall i | i in [4, 5, 7, 8, 10, 11] :: IsDigit(cmd[i])
  }

  /** What clock_handle_message makes of a command. */
  function Parse(cmd: seq<char>): Request {
    if |cmd| < 3 || cmd[0] != '%' || cmd[1] != 'W' then Invalid
    else if |cmd| != (if cmd[2] == 'S' then 12 else 3) then Invalid
    else if cmd[2] == 'T' then Terminate
    else if cmd[2] == 'R' then Set(MIDNIGHT)
    else if cmd[2] == 'S' then
      if cmd[3] != ' ' || cmd[6] != ':' || cmd[9] != ':' || !DigitsInPlace(cmd) then Invalid
      else
        assert forall i | i in [4, 5, 7, 8, 10, 11] :: IsDigit(cmd[i]);
        var t := Time(TwoDigitValue(cmd[4], cmd[5]), TwoDigitValue(cmd[7], cmd[8]), TwoDigitValue(cmd[10], cmd[11]));
        if IsTime(t) then Set(t) else Invalid
    else Invalid
  }

  function TwoDigits(n: nat): seq<char>
    requires n < 100
  {
    ['0' + (n / 10) as char, '0' + (n % 10) as char]
  }

  /** The format %02u:%02u:%02u in which times are displayed. */
  function Format(t: Time): seq<char>
    requires IsTime(t)
  {
    TwoDigits(t.h) + ":" + TwoDigits(t.m) + ":" + TwoDigits(t.s)
  }

  lemma TwoDigitsInverse(a: char, b: char)
    requires IsDigit(a) && IsDigit(b)
    ensures TwoDigitValue(a, b) < 100 && TwoDigits(TwoDigitValue(a, b)) == [a, b]
  {
    var x, y := DigitValue(a), DigitValue(b);
    assert (10 * x + y) / 10 == x && (10 * x + y) % 10 == y;
  }

  lemma TwoDigitValueInverse(n: nat)
    requires n < 100
    ensures var d := TwoDigits(n); IsDigit(d[0]) && IsDigit(d[1]) && TwoDigitValue(d[0], d[1]) == n
  {
  }

  /** Two digits are what %02u prints. */
  lemma TwoDigitsArePrinted(n: nat)
    requires n < 100
    ensures var s := Printf.Numeral(n, 10, false); TwoDigits(n) == Printf.Padding(2, true, |s|) + s
  {
    if n >= 10 {
      assert Printf.Numeral(n, 10, false) == Printf.Numeral(n / 10, 10, false) + [Printf.DigitChar(n % 10, false)];
    }
  }

  /** It is stopped by exactly the command %WT. */
  lemma StopCommand(cmd: seq<char>)
    ensures Parse(cmd) == Terminate <==> cmd == "%WT"
  {
  }

  /** The clock is set by exactly the commands %WR and %WS with a time in the format it displays. */
  lemma SetCommands(cmd: seq<char>, t: Time)
    ensures Parse(cmd) == Set(t) <==>
            (cmd == "%WR" && t == MIDNIGHT) || (IsTime(t) && cmd == "%WS " + Format(t))
  {
    if IsTime(t) && cmd == "%WS " + Format(t) {
      TwoDigitValueInverse(t.h);
      TwoDigitValueInverse(t.m);
      TwoDigitValueInverse(t.s);
    }
    if Parse(cmd) == Set(t) && cmd[2] == 'S' {
      TwoDigitsInverse(cmd[4], cmd[5]);
      TwoDigitsInverse(cmd[7], cmd[8]);
      TwoDigitsInverse(cmd[10], cmd[11]);
      assert cmd == "%WS " + Format(t);
    }
  }

  // ----- The process -----

  datatype Clock = Clock(
    tick: int,              // clock_tick, the current generation
    time: Time,
    flight: seq<int>,       // generations of the tick messages under way
    shown: seq<Time>)       // times displayed so far

  /** clock_handle_tick: without a message, or with one of generation `msg`. */
  function HandleTick(c: Clock, starting: bool, msg: int): Clock {
    if !starting && msg != c.tick then c
    else
      var time := if starting then c.time else Advance(c.time);
      c.(time := time, shown := c.shown + [time], flight := c.flight + [c.tick])
  }

  /** clock_handle_message. */
  function HandleMessage(c: Clock, cmd: seq<char>): Clock {
    Obey(c, Parse(cmd))
  }

  function Obey(c: Clock, r: Request): Clock {
    match r
    case Terminate => c.(tick := c.tick + 1)
    case Set(t) => HandleTick(c.(time := t, tick := c.tick + 1), true, 0)
    case Invalid => c
  }

  /** The globals of the process. Messages it sends itself are returned to the caller. */
  class WallClock {
    var clockTick: int
    var h: nat
    var m: nat
    var s: nat

    ghost predicate Shows(c: Clock)
      reads this
    {
      clockTick == c.tick && Time(h, m, s) == c.time
    }

    method Tick(starting: bool, msg: int, ghost c: Clock) returns (displayed: seq<Time>, sent: seq<int>)
      requires Shows(c)
      modifies this
      ensures var c' := HandleTick(c, starting, msg);
              Shows(c') && c'.shown == c.shown + displayed && c'.flight == c.flight + sent
    {
      displayed, sent := [], [];
      if !starting {
        if msg != clockTick {
          return;
        }
        s := (s + 1) % 60;
        if s == 0 {
          m := (m + 1) % 60;
          if m == 0 {
            h := (h + 1) % 24;
          }
        }
      }
      displayed := [Time(h, m, s)];
      sent := [clockTick];
    }

    method Message(cmd: seq<char>, ghost c: Clock) returns (displayed: seq<Time>, sent: seq<int>)
      requires Shows(c)
      modifies this
      ensures var c' := HandleMessage(c, cmd);
              Shows(c') && c'.shown == c.shown + displayed && c'.flight == c.flight + sent
    {
      displayed, sent := [], [];
      if |cmd| < 3 || cmd[0] != '%' || cmd[1] != 'W' {
        return;
      }
      var expectedSize := if cmd[2] == 'S' then 12 else 3;
      if |cmd| != expectedSize {
        return;
      }
      match cmd[2] {
        case 'T' =>
          clockTick := clockTick + 1;
        case 'R' =>
          h, m, s := 0, 0, 0;
          clockTick := clockTick + 1;
          displayed, sent := Tick(true, 0, c.(time := MIDNIGHT, tick := c.tick + 1));
        case 'S' =>
          if cmd[3] != ' ' || cmd[6] != ':' || cmd[9] != ':' || !DigitsInPlace(cmd) {
            return;
          }
          assert forall i | i in [4, 5, 7, 8, 10, 11] :: IsDigit(cmd[i]);
          var hh, mm, ss := TwoDigitValue(cmd[4], cmd[5]), TwoDigitValue(cmd[7], cmd[8]),
                TwoDigitValue(cmd[10], cmd[11]);
          if hh < 24 && mm < 60 && ss < 60 {
            h, m, s := hh, mm, ss;
            clockTick := clockTick + 1;
            displayed, sent := Tick(true, 0, c.(time := Time(hh, mm, ss), tick := c.tick + 1));
          }
        case _ =>
      }
    }
  }

  // ----- Whole runs -----

  datatype Event =
    | Command(text: seq<char>)
    | Arrival(index: nat)         // one of the tick messages under way arrives, in any order

  /** The clock with what should be true of it: whether it runs, the time last set, and seconds since then. */
  datatype Watched = Watched(c: Clock, going: bool, base: nat, elapsed: nat)

  predicate Enabled(w: Watched, ev: Event) {
    ev.Arrival? ==> ev.index < |w.c.flight|
  }

  function Remove(s: seq<int>, i: nat): seq<int>
    requires i < |s|
  {
    s[..i] + s[i + 1..]
  }

  function Step(w: Watched, ev: Event): Watched
    requires Enabled(w, ev)
  {
    match ev
    case Command(text) => Told(w, Parse(text))
    case Arrival(i) =>
      var live := w.c.flight[i] == w.c.tick;
      Watched(HandleTick(w.c.(flight := Remove(w.c.flight, i)), false, w.c.flight[i]), w.going, w.base,
              w.elapsed + (if live then 1 else 0))
  }

  /** The process obeys (HandleMessage), and what should be true of the clock changes accordingly. */
  function Told(w: Watched, r: Request): Watched {
    match r
    case Terminate => w.(c := Obey(w.c, r), going := false)
    case Set(t) => Watched(Obey(w.c, r), true, Seconds(t), 0)
    case Invalid => w
  }

  function Start(): Watched {
    Watched(Clock(0, MIDNIGHT, [], []), false, 0, 0)
  }

  /**
   The clock shows the time last set plus the live ticks since then; exactly one tick message of the current generation
   is under way while it runs, none while it is stopped, and none is from a later generation. While the clock runs the
   time last displayed is the current one.
   */
  ghost predicate ClockInv(w: Watched) {
    && RightTime(w.c.time, w.base + w.elapsed)
    && OneLiveTick(w.c.flight, w.c.tick, w.going)
    && (w.going ==> w.c.shown != [] && w.c.shown[|w.c.shown| - 1] == w.c.time)
  }

  ghost predicate RightTime(t: Time, total: nat) {
    IsTime(t) && Seconds(t) == total % 86400
  }

  ghost predicate OneLiveTick(flight: seq<int>, tick: int, going: bool) {
    && multiset(flight)[tick] == (if going then 1 else 0)
    && forall g :: g in flight ==> g <= tick
  }

  lemma ParsedTimes(cmd: seq<char>)
    ensures Parse(cmd).Set? ==> IsTime(Parse(cmd).time)
  {
  }

  /** A new generation has no ticks under way but the one just sent. */
  lemma NewGeneration(flight: seq<int>, tick: int, going: bool)
    requires OneLiveTick(flight, tick, going)
    ensures OneLiveTick(flight, tick + 1, false) && OneLiveTick(flight + [tick + 1], tick + 1, true)
  {
    assert tick + 1 !in flight;
    assert multiset(flight)[tick + 1] == 0;
    assert multiset(flight + [tick + 1]) == multiset(flight) + multiset{tick + 1};
  }

  lemma SetTimeIsRight(t: Time)
    requires IsTime(t)
    ensures RightTime(t, Seconds(t))
  {
  }

  lemma ToldKeepsClock(w: Watched, r: Request)
    requires ClockInv(w) && (r.Set? ==> IsTime(r.time))
    ensures ClockInv(Told(w, r))
  {
    NewGeneration(w.c.flight, w.c.tick, w.going);
    if r.Set? {
      SetTimeIsRight(r.time);
    }
  }

  lemma RemoveCount(s: seq<int>, i: nat)
    requires i < |s|
    ensures multiset(Remove(s, i)) == multiset(s) - multiset{s[i]}
    ensures forall g :: g in Remove(s, i) ==> g in s
  {
    assert s == s[..i] + [s[i]] + s[i + 1..];
  }

  /** An arriving tick is used up; the live one is replaced by the next. */
  lemma ArrivalReplacesTick(flight: seq<int>, tick: int, going: bool, i: nat)
    requires OneLiveTick(flight, tick, going) && i < |flight|
    ensures flight[i] != tick ==> OneLiveTick(Remove(flight, i), tick, going)
    ensures flight[i] == tick ==> going && OneLiveTick(Remove(flight, i) + [tick], tick, going)
  {
    var rest := Remove(flight, i);
    RemoveCount(flight, i);
    assert flight[i] in multiset(flight);
    assert multiset(rest + [tick]) == multiset(rest) + multiset{tick};
  }

  lemma DayOf(total: nat)
    ensures (total % 86400 + 1) % 86400 == (total + 1) % 86400
  {
  }

  lemma NextSecond(t: Time, total: nat)
    requires RightTime(t, total)
    ensures RightTime(Advance(t), total + 1)
  {
    AdvanceIsOneSecond(t);
    DayOf(total);
  }

  lemma ArrivalKeepsClock(w: Watched, i: nat)
    requires ClockInv(w) && i < |w.c.flight|
    ensures ClockInv(Step(w, Arrival(i)))
  {
    ArrivalReplacesTick(w.c.flight, w.c.tick, w.going, i);
    NextSecond(w.c.time, w.base + w.elapsed);
  }

  lemma StepKeepsClock(w: Watched, ev: Event, w': Watched)
    requires ClockInv(w) && Enabled(w, ev) && w' == Step(w, ev)
    ensures ClockInv(w')
  {
    if ev.Command? {
      ParsedTimes(ev.text);
      ToldKeepsClock(w, Parse(ev.text));
    } else {
      ArrivalKeepsClock(w, ev.index);
    }
  }

  ghost predicate IsRun(run: seq<Watched>, events: seq<Event>) {
    && |run| == |events| + 1 && run[0] == Start()
    && forall i :: 0 <= i < |events| ==> Enabled(run[i], events[i]) && run[i + 1] == Step(run[i], events[i])
  }

  /** Over any interleaving of commands and tick messages the clock is right and has at most one live tick. */
  lemma {:induction false} ClockIsRight(run: seq<Watched>, events: seq<Event>, i: nat)
    requires IsRun(run, events) && i < |run|
    ensures ClockInv(run[i])
  {
    if i == 0 {
      assert multiset(Start().c.flight) == multiset{};
    } else {
      ClockIsRight(run, events, i - 1);
      StepKeepsClock(run[i - 1], events[i - 1], run[i]);
    }
  }

  // ----- What the commands do, by their texts -----

  /** A command that sets the clock to `t`. */
  predicate Sets(cmd: seq<char>, t: Time) {
    (cmd == "%WR" && t == MIDNIGHT) || (IsTime(t) && cmd == "%WS " + Format(t))
  }

  /** Neither that nor %WT. */
  ghost predicate Ignored(cmd: seq<char>) {
    cmd != "%WT" && forall t :: !Sets(cmd, t)
  }

  lemma CommandEffects(w: Watched, cmd: seq<char>, t: Time, w': Watched)
    requires w' == Step(w, Command(cmd))
    ensures Sets(cmd, t) ==>
              w'.c == Clock(w.c.tick + 1, t, w.c.flight + [w.c.tick + 1], w.c.shown + [t])
    ensures cmd == "%WT" ==> w'.c == w.c.(tick := w.c.tick + 1)
    ensures Ignored(cmd) ==> w'.c == w.c
  {
    SetCommands(cmd, t);
    StopCommand(cmd);
    if Parse(cmd).Set? {
      SetCommands(cmd, Parse(cmd).time);
      assert Sets(cmd, Parse(cmd).time);
    }
  }

  /** A tick message has effect only if it is live: then one second passes, is displayed, and the next tick is sent. */
  lemma ArrivalEffects(w: Watched, i: nat, w': Watched)
    requires i < |w.c.flight| && w' == Step(w, Arrival(i))
    ensures w'.c.tick == w.c.tick
    ensures w.c.flight[i] != w.c.tick ==> w'.c == w.c.(flight := Remove(w.c.flight, i))
    ensures w.c.flight[i] == w.c.tick ==>
              && w'.c.time == Advance(w.c.time) && w'.c.shown == w.c.shown + [w'.c.time]
              && w'.c.flight == Remove(w.c.flight, i) + [w.c.tick]
  {
  }

  /** The event is no command that sets the clock. */
  ghost predicate SetsNothing(ev: Event) {
    ev.Command? ==> forall t :: !Sets(ev.text, t)
  }

  lemma StoppedStep(w: Watched, ev: Event, w': Watched)
    requires ClockInv(w) && Enabled(w, ev) && w' == Step(w, ev) && SetsNothing(ev)
    requires w.c.tick !in w.c.flight || ev == Command("%WT")
    ensures w'.c.tick !in w'.c.flight && w'.c.time == w.c.time && w'.c.shown == w.c.shown
  {
    if ev.Command? {
      CommandEffects(w, ev.text, MIDNIGHT, w');
    } else {
      ArrivalEffects(w, ev.index, w');
      RemoveCount(w.c.flight, ev.index);
    }
  }

  lemma StoppedNext(run: seq<Watched>, events: seq<Event>, i: nat)
    requires IsRun(run, events) && i < |events| && SetsNothing(events[i])
    requires run[i].c.tick !in run[i].c.flight || events[i] == Command("%WT")
    ensures run[i + 1].c.tick !in run[i + 1].c.flight
    ensures run[i + 1].c.time == run[i].c.time && run[i + 1].c.shown == run[i].c.shown
  {
    ClockIsRight(run, events, i);
    StoppedStep(run[i], events[i], run[i + 1]);
  }

  lemma StopSetsNothing(ev: Event)
    requires ev == Command("%WT")
    ensures SetsNothing(ev)
  {
  }

  /**
   %WT stops the clock: from then on, until a command sets it, no tick under way is live, the time stays, and nothing is
   displayed.
   */
  lemma {:induction false} StoppedUntilSet(run: seq<Watched>, events: seq<Event>, i: nat, j: nat)
    requires IsRun(run, events) && i < j < |run| && events[i] == Command("%WT")
    requires forall m :: i < m < j ==> SetsNothing(events[m])
    ensures run[j].c.tick !in run[j].c.flight && run[j].c.time == run[i].c.time && run[j].c.shown == run[i].c.shown
    decreases j
  {
    StopSetsNothing(events[i]);
    if i + 1 < j {
      StoppedUntilSet(run, events, i, j - 1);
    }
    StoppedNext(run, events, j - 1);
  }

  /** The event is no command that the clock obeys. */
  ghost predicate ChangesNothing(ev: Event) {
    ev.Command? ==> Ignored(ev.text)
  }

  /** The clock has run for `n` seconds since it was set to `t`, displaying each, after it had displayed `before`. */
  ghost predicate RunsSince(c: Clock, t: Time, before: nat, n: nat) {
    && multiset(c.flight)[c.tick] == 1
    && RightTime(c.time, Seconds(t) + n) && |c.shown| == before + 1 + n && c.shown[before + n] == c.time
  }

  lemma RunningStep(w: Watched, ev: Event, w': Watched, t: Time, before: nat, n: nat) returns (n': nat)
    requires ClockInv(w) && Enabled(w, ev) && w' == Step(w, ev) && ChangesNothing(ev) && RunsSince(w.c, t, before, n)
    ensures RunsSince(w'.c, t, before, n') && w.c.shown <= w'.c.shown
    ensures n' == n + (if ev.Arrival? && w.c.flight[ev.index] == w.c.tick then 1 else 0)
  {
    n' := n;
    if ev.Command? {
      CommandEffects(w, ev.text, MIDNIGHT, w');
    } else {
      ArrivalEffects(w, ev.index, w');
      ArrivalReplacesTick(w.c.flight, w.c.tick, true, ev.index);
      if w.c.flight[ev.index] == w.c.tick {
        n' := n + 1;
        NextSecond(w.c.time, Seconds(t) + n);
      }
    }
  }

  lemma SetRuns(c: Clock, going: bool, t: Time, c': Clock)
    requires OneLiveTick(c.flight, c.tick, going) && IsTime(t)
    requires c' == Clock(c.tick + 1, t, c.flight + [c.tick + 1], c.shown + [t])
    ensures RunsSince(c', t, |c.shown|, 0)
  {
    NewGeneration(c.flight, c.tick, going);
    SetTimeIsRight(t);
  }

  lemma SettingStep(w: Watched, cmd: seq<char>, t: Time, w': Watched)
    requires ClockInv(w) && w' == Step(w, Command(cmd)) && Sets(cmd, t)
    ensures RunsSince(w'.c, t, |w.c.shown|, 0)
  {
    CommandEffects(w, cmd, t, w');
    SetRuns(w.c, w.going, t, w'.c);
  }

  lemma SetNext(run: seq<Watched>, events: seq<Event>, i: nat, t: Time)
    requires IsRun(run, events) && i < |events| && events[i].Command? && Sets(events[i].text, t)
    ensures RunsSince(run[i + 1].c, t, |run[i].c.shown|, 0)
  {
    ClockIsRight(run, events, i);
    SettingStep(run[i], events[i].text, t, run[i + 1]);
  }

  lemma RunningNext(run: seq<Watched>, events: seq<Event>, i: nat, t: Time, before: nat, n: nat) returns (n': nat)
    requires IsRun(run, events) && i < |events| && ChangesNothing(events[i]) && RunsSince(run[i].c, t, before, n)
    ensures RunsSince(run[i + 1].c, t, before, n')
  {
    ClockIsRight(run, events, i);
    n' := RunningStep(run[i], events[i], run[i + 1], t, before, n);
  }

  lemma {:induction false} RunningGoesOn(run: seq<Watched>, events: seq<Event>, i: nat, j: nat, t: Time, before: nat,
                                         n0: nat) returns (n: nat)
    requires IsRun(run, events) && i <= j < |run| && RunsSince(run[i].c, t, before, n0)
    requires forall m :: i <= m < j ==> ChangesNothing(events[m])
    ensures RunsSince(run[j].c, t, before, n)
    decreases j
  {
    if i == j {
      n := n0;
    } else {
      var n1 := RunningGoesOn(run, events, i, j - 1, t, before, n0);
      n := RunningNext(run, events, j - 1, t, before, n1);
    }
  }

  /**
   A command that sets the clock starts it: until the next that it obeys, exactly one tick under way is live, and the
   clock shows the time set plus one second for each it has displayed since.
   */
  lemma RunningOnceSet(run: seq<Watched>, events: seq<Event>, i: nat, j: nat, t: Time) returns (n: nat)
    requires IsRun(run, events) && i < j < |run| && events[i].Command? && Sets(events[i].text, t)
    requires forall m :: i < m < j ==> ChangesNothing(events[m])
    ensures RunsSince(run[j].c, t, |run[i].c.shown|, n)
  {
    SetNext(run, events, i, t);
    n := RunningGoesOn(run, events, i + 1, j, t, |run[i].c.shown|, 0);
  }
}
