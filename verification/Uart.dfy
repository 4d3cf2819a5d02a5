/**
 The UART driver on its ring buffers (uart_irq.c). Each method does to the driver's globals what UartOutputs and
 UartInputs say; the ghost arguments are the states of those models the globals currently show.
 */
module Uarts {
  import opened LinearLists
  import UartInputs
  import UartOutputs

  function Chars(s: seq<UartOutputs.Char>): (r: seq<char>)
    ensures |r| == |s|
  {
    seq(|s|, i requires 0 <= i < |s| => s[i].c)
  }

  lemma CharsPush(s: seq<UartOutputs.Char>, ch: UartOutputs.Char)
    ensures Chars(s + [ch]) == Chars(s) + [ch.c]
  {
  }

  class Uart {
    const outbuf: LinearList<char>
    const inbuf: LinearList<char>
    const hotkeys: bool     // _DEBUG_HOTKEYS
    var thre: bool
    var notifIn: bool
    var notifOut: bool
    var outstanding: bool   // first byte of the body of notif_out_msg
    var thr: char           // last character written to the transmit register

    ghost predicate Valid()
      reads this, outbuf, outbuf.values, inbuf, inbuf.values
    {
      && outbuf.Valid() && inbuf.Valid() && outbuf != inbuf && outbuf.values != inbuf.values
      && outbuf.values.Length == UartOutputs.BUFFER_SIZE && inbuf.values.Length == UartInputs.BUFFER_SIZE
    }

    /** The output half shows `u`, in which nothing is buffered while the transmitter is idle. */
    ghost predicate ShowsOutput(u: UartOutputs.Output)
      requires Valid()
      reads this, outbuf, outbuf.values, inbuf, inbuf.values
    {
      && outbuf.Contents() == Chars(u.outbuf) && |u.outbuf| <= UartOutputs.BUFFER_SIZE
      && (thre, notifOut, outstanding) == (u.thre, u.notifOut, u.outstanding)
      && (u.wire != [] ==> thr == u.wire[|u.wire| - 1].c)
      && (u.outbuf != [] ==> u.thre)
    }

    ghost predicate ShowsInput(s: UartInputs.Keyboard)
      requires Valid()
      reads this, outbuf, outbuf.values, inbuf, inbuf.values
    {
      inbuf.Contents() == s.inbuf && notifIn == s.notifIn && hotkeys == s.hotkeys
    }

    /** The initial values of the globals. */
    constructor (hotkeys: bool)
      ensures Valid() && ShowsOutput(UartOutputs.Start().u) && ShowsInput(UartInputs.Start(hotkeys))
    {
      this.hotkeys := hotkeys;
      outbuf := new LinearList<char>(UartOutputs.BUFFER_SIZE, '\0');
      inbuf := new LinearList<char>(UartInputs.BUFFER_SIZE, '\0');
      thre, notifIn, notifOut, outstanding, thr := false, true, false, false, '\0';
    }

    /** uart_putc_nonblocking. */
    method PutcNonblocking(c: char, ghost u: UartOutputs.Output, ghost crt: bool)
      requires Valid() && ShowsOutput(u)
      modifies this`thre, this`thr, outbuf, outbuf.values
      ensures Valid() && ShowsOutput(UartOutputs.PutNonblocking(u, UartOutputs.Char(c, crt)))
    {
      CharsPush(u.outbuf, UartOutputs.Char(c, crt));
      if outbuf.size != UartOutputs.BUFFER_SIZE {
        outbuf.PushBack(c);
      }
      if !thre {
        ghost var filled := outbuf.Contents();
        var ch := outbuf.PopFront();
        assert filled == [c] && ch == filled[0];
        thre := true;
        thr := ch;
      }
    }

    /** uart_iproc_getc: a character, or none; then KCD asks to be notified. */
    method Getc(ghost s: UartInputs.Keyboard) returns (found: bool, c: char)
      requires Valid() && ShowsInput(s) && s.draining
      modifies this`notifIn, inbuf
      ensures Valid() && found == (s.inbuf != []) && (found ==> c == s.inbuf[0])
      ensures ShowsInput(UartInputs.Step(s, UartInputs.KcdGetc))
    {
      if inbuf.size == 0 {
        notifIn := true;
        return false, '\0';
      }
      c := inbuf.PopFront();
      assert inbuf.Contents() == s.inbuf[1..];
      return true, c;
    }

    /** uart_iproc_putc. */
    method Putc(c: char, ghost u: UartOutputs.Output) returns (accepted: bool)
      requires Valid() && ShowsOutput(u)
      modifies this`thre, this`thr, this`notifOut, outbuf, outbuf.values
      ensures Valid() && ShowsOutput(UartOutputs.Putc(u, c).0) && accepted == UartOutputs.Putc(u, c).1
    {
      if outbuf.size > UartOutputs.OUTBUF_THRESHOLD {
        if !outstanding {
          notifOut := true;
        }
        return false;
      }
      ghost var u1 := u;
      if c == '\n' {
        PutcNonblocking('\r', u, true);
        u1 := UartOutputs.PutNonblocking(u, UartOutputs.Char('\r', true));
      }
      PutcNonblocking(c, u1, true);
      return true;
    }

    /** The THRE branch of c_UART0_IRQHandler; tells whether CRT is to be sent the notification. */
    method ThreIrq(ghost u: UartOutputs.Output) returns (notify: bool)
      requires Valid() && ShowsOutput(u)
      modifies this`thre, this`thr, this`notifOut, this`outstanding, outbuf
      ensures Valid() && ShowsOutput(UartOutputs.ThreInterrupt(u).0) && notify == UartOutputs.ThreInterrupt(u).1
    {
      notify := false;
      if outbuf.size == 0 {
        if notifOut {
          notifOut := false;
          outstanding := true;
          notify := true;
        }
        thre := false;
        return;
      }
      ghost var filled := outbuf.Contents();
      var ch := outbuf.PopFront();
      assert ch == filled[0] && outbuf.Contents() == filled[1..];
      thr := ch;
      assert Chars(u.outbuf)[1..] == Chars(u.outbuf[1..]);
    }

    /** uart_send_input_char; tells whether KCD is to be sent the notification. */
    method SendInputChar(c: char, ghost s: UartInputs.Keyboard) returns (notify: bool)
      requires Valid() && ShowsInput(s)
      modifies this`notifIn, inbuf, inbuf.values
      ensures Valid() && ShowsInput(UartInputs.SendInputChar(s, c))
      ensures UartInputs.SendInputChar(s, c).mailbox ==
              if notify then s.mailbox + [UartInputs.LineNotification] else s.mailbox
    {
      notify := false;
      if inbuf.size == UartInputs.BUFFER_SIZE {
        return;
      }
      inbuf.PushBack(c);
      if c == '\r' && notifIn {
        notifIn := false;
        notify := true;
      }
    }

    /** Echo a character that passed the filter, then buffer it. */
    method AcceptChar(c: char, ghost u: UartOutputs.Output, ghost s: UartInputs.Keyboard) returns (notify: bool)
      requires Valid() && ShowsOutput(u) && ShowsInput(s)
      modifies this`thre, this`thr, this`notifIn, outbuf, outbuf.values, inbuf, inbuf.values
      ensures Valid() && ShowsInput(UartInputs.SendInputChar(s, c)) && ShowsOutput(UartOutputs.Echo(u, c))
      ensures UartInputs.SendInputChar(s, c).mailbox ==
              if notify then s.mailbox + [UartInputs.LineNotification] else s.mailbox
    {
      PutcNonblocking(c, u, false);
      if c == '\r' {
        PutcNonblocking('\n', UartOutputs.PutNonblocking(u, UartOutputs.Char(c, false)), false);
      }
      notify := SendInputChar(c, s);
    }

    /** The receive branch of c_UART0_IRQHandler. */
    method RxIrq(c: char, ghost u: UartOutputs.Output, ghost s: UartInputs.Keyboard) returns (notify: bool)
      requires Valid() && ShowsOutput(u) && ShowsInput(s)
      modifies this`thre, this`thr, this`notifIn, outbuf, outbuf.values, inbuf, inbuf.values
      ensures Valid() && ShowsInput(UartInputs.Step(s, UartInputs.Rx(c)))
      ensures ShowsOutput(if UartInputs.PassesFilter(c, s.hotkeys) then UartOutputs.Echo(u, c) else u)
      ensures UartInputs.Step(s, UartInputs.Rx(c)).mailbox ==
              if notify then s.mailbox + [UartInputs.LineNotification] else s.mailbox
      ensures if !UartInputs.Ordinary(c, hotkeys) then
                !notify && inbuf.Contents() == old(inbuf.Contents()) && outbuf.Contents() == old(outbuf.Contents())
              else
                inbuf.Contents() ==
                old(inbuf.Contents()) + (if old(inbuf.size) < UartInputs.BUFFER_SIZE then [c] else [])
    {
      notify := false;
      if !UartInputs.IsHotkey(c, hotkeys) && c != 127 as char && c != 8 as char {
        notify := AcceptChar(c, u, s);
      }
    }
  }
}
