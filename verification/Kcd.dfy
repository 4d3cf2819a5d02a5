/** KCD's line buffer and its loop over the input ring (kcd.c). */
module Kcds {
  import opened Constants
  import opened UartInputs
  import opened Uarts

  class Kcd {
    const uart: Uart
    const mtext: array<char>   // body of the message being assembled
    var cmdLen: nat
    var entries: seq<Entry>

    ghost predicate Valid()
      reads this, uart, uart.outbuf, uart.outbuf.values, uart.inbuf, uart.inbuf.values
    {
      && uart.Valid() && mtext != uart.inbuf.values && mtext != uart.outbuf.values
      && mtext.Length == MTEXT_MAXLEN + 1 && cmdLen <= MTEXT_MAXLEN
    }

    ghost predicate Shows(s: Keyboard)
      requires Valid()
      reads this, mtext, uart, uart.outbuf, uart.outbuf.values, uart.inbuf, uart.inbuf.values
    {
      uart.ShowsInput(s) && mtext[..cmdLen] == s.line && entries == s.entries
    }

    constructor (uart: Uart)
      requires uart.Valid()
      ensures Valid() && this.uart == uart && cmdLen == 0 && entries == []
    {
      this.uart := uart;
      mtext := new char[MTEXT_MAXLEN + 1](_ => '\0');
      cmdLen, entries := 0, [];
    }

    /** One character of the input. */
    method Take(ch: char, ghost k: Keyboard, ghost k': Keyboard) returns (commands: seq<Command>)
      requires Valid() && k.entries == entries && mtext[..cmdLen] == k.line && k' == TakeChar(k, ch)
      modifies this`cmdLen, mtext
      ensures Valid() && mtext[..cmdLen] == k'.line && k'.entries == entries
      ensures k'.commands == k.commands + commands
    {
      commands := [];
      if ch == '\r' {
        mtext[cmdLen] := '\0';
        var recipients := ProcessKeyboardInput(entries, mtext[..cmdLen]);
        commands := [Command(mtext[..cmdLen], recipients)];
        assert mtext[..cmdLen] == k.line;
        cmdLen := 0;
      } else if ch != '\n' && cmdLen < MTEXT_MAXLEN {
        mtext[cmdLen] := ch;
        cmdLen := cmdLen + 1;
        assert mtext[..cmdLen] == k.line + [ch];
      }
    }

    /** kcd_handle_keyboard_input: reads until the ring is empty, and passes on each finished line. */
    method HandleKeyboardInput(ghost s: Keyboard) returns (commands: seq<Command>)
      requires Valid() && Shows(s) && s.draining
      modifies this`cmdLen, mtext, uart`notifIn, uart.inbuf
      ensures Valid() && Shows(Drained(s)) && Drained(s).commands == s.commands + commands
    {
      ghost var k := s;
      commands := [];
      var more := true;
      while more
        invariant Valid() && Shows(k)
        invariant k.commands == s.commands + commands
        invariant if more then k.draining && Drained(k) == Drained(s) else k == Drained(s)
        decreases more, |k.inbuf|
      {
        var found, ch := uart.Getc(k);
        ghost var before := k;
        k := Step(k, KcdGetc);
        if !found {
          more := false;
        } else {
          var passed := Take(ch, before.(inbuf := before.inbuf[1..]), k);
          commands := commands + passed;
        }
      }
    }
  }
}
