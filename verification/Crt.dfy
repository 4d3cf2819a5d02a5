/** CRT's display list and printing loop (crt.c). */
module Crts {
  import opened Constants
  import opened MessageQueues
  import opened UartOutputs
  import opened Uarts

  class Crt {
    const uart: Uart
    const output: MessageQueue   // the display list
    const texts: array<Text>     // the bodies of the envelopes
    var offset: nat

    /** All envelopes in the display list have the same key. */
    ghost predicate Valid()
      reads this, output, output.mem, texts
    {
      && output.Valid() && texts.Length == output.mem.Length
      && forall i :: 0 <= i < |output.Nodes| ==> output.mem[output.Nodes[i]].hdr.expiry == 0
    }

    /** The bodies of some envelopes. */
    ghost function Bodies(nodes: seq<int>): (s: seq<Text>)
      requires Within(nodes, texts.Length)
      reads texts
      ensures |s| == |nodes|
    {
      seq(|nodes|, i requires 0 <= i < |nodes| && Within(nodes, texts.Length) reads texts => texts[nodes[i]])
    }

    ghost function Listed(): (s: seq<Text>)
      requires Valid()
      reads this, output, output.mem, texts
    {
      Bodies(output.Nodes)
    }

    ghost predicate Shows(s: Console)
      requires Valid()
      reads this, output, output.mem, texts, uart, uart.outbuf, uart.outbuf.values, uart.inbuf, uart.inbuf.values
    {
      uart.Valid() && uart.ShowsOutput(s.u) && Listed() == s.output && offset == s.offset
    }

    constructor (uart: Uart, output: MessageQueue, texts: array<Text>)
      requires uart.Valid() && uart.ShowsOutput(Start().u)
      requires output.Valid() && output.Nodes == [] && texts.Length == output.mem.Length
      ensures this.uart == uart && this.output == output && this.texts == texts && Valid() && Shows(Start())
    {
      this.uart, this.output, this.texts := uart, output, texts;
      offset := 0;
    }

    /** A message to be displayed goes to the end of the list, because all keys are 0. */
    method Display(msg: int, ghost s: Console)
      requires Valid() && Shows(s) && 0 <= msg < texts.Length && msg !in output.Nodes
      requires s.mailbox != [] && s.mailbox[0] == UartOutputs.Display(texts[msg])
      modifies output, output.mem
      ensures Valid() && Shows(Receive(s))
    {
      ghost var nodes, listed := output.Nodes, Listed();
      var hdr := output.mem[msg].hdr.(expiry := 0);
      LinkedFrame(output.mem[..], output.head, output.Nodes, msg, output.mem[msg].(hdr := hdr));
      output.mem[msg] := output.mem[msg].(hdr := hdr);
      ghost var keys := Expiries(Headers(output.mem[..]), nodes);
      EqualKeysAppend(keys, 0);
      assert InsertAt(nodes, Position(keys, 0), msg) == nodes + [msg];
      output.Enqueue(msg);
      assert output.Nodes == nodes + [msg];
      assert Listed() == listed + [texts[msg]];
    }

    /** One round of the loop with a character to print. */
    method PrintCharacter(ghost c: Console) returns (accepted: bool)
      requires Valid() && Shows(c) && c.pc == Printing && c.output != []
      requires c.offset <= MTEXT_MAXLEN && c.output[0][c.offset] != '\0'
      modifies `offset, uart`thre, uart`thr, uart`notifOut, uart.outbuf, uart.outbuf.values
      ensures Valid() && Shows(Turn(c)) && accepted == (Turn(c).pc == Printing)
    {
      var text := texts[output.head];
      assert text == Listed()[0];
      accepted := uart.Putc(text[offset], c.u);
      if accepted {
        offset := offset + 1;
      }
    }

    /** One round of the loop with the first message shown completely. */
    method NextMessage(ghost c: Console) returns (empty: int)
      requires Valid() && Shows(c) && c.pc == Printing && c.output != []
      requires !(c.offset <= MTEXT_MAXLEN && c.output[0][c.offset] != '\0')
      modifies `offset, output
      ensures Valid() && Shows(Turn(c)) && [empty] + output.Nodes == old(output.Nodes)
    {
      ghost var nodes := output.Nodes;
      empty := output.DropFront();
      assert output.Nodes == nodes[1..];
      assert Listed() == c.output[1..];
      offset := 0;
    }

    /** One round of the inner loop of proc_crt: it goes on unless the transmitter refused; it may release a message. */
    method Round(ghost c: Console) returns (more: bool, released: seq<int>, ghost c': Console)
      requires Valid() && Shows(c) && c.pc == Printing && c.output != []
      modifies `offset, output, uart`thre, uart`thr, uart`notifOut, uart.outbuf, uart.outbuf.values
      ensures Valid() && Shows(c') && more == (c'.pc == Printing) && released + output.Nodes == old(output.Nodes)
      ensures PrintingDone(c) == if more then PrintingDone(c') else c'
      ensures more ==> |c'.output| < |c.output| ||
                       (|c'.output| == |c.output| && c.offset < c'.offset <= MTEXT_MAXLEN + 1)
    {
      var text := texts[output.head];
      assert text == Listed()[0];
      c' := Turn(c);
      PrintingGoesOn(c);
      if offset <= MTEXT_MAXLEN && text[offset] != '\0' {
        released := [];
        more := PrintCharacter(c);
      } else {
        var empty := NextMessage(c);
        released, more := [empty], true;
      }
    }

    /** The inner loop of proc_crt; hands back the envelopes it has displayed completely, in order. */
    method PrintLoop(ghost s: Console) returns (released: seq<int>)
      requires Valid() && Shows(s) && s.pc == Printing
      modifies `offset, output, uart`thre, uart`thr, uart`notifOut, uart.outbuf, uart.outbuf.values
      ensures Valid() && Shows(PrintingDone(s)) && released + output.Nodes == old(output.Nodes)
    {
      ghost var c, end, all := s, PrintingDone(s), output.Nodes;
      released := [];
      var more := true;
      while more && output.head != NULL
        invariant Valid() && Shows(c) && more == (c.pc == Printing) && released + output.Nodes == all
        invariant end == if more then PrintingDone(c) else c
        decreases more, |c.output|, MTEXT_MAXLEN + 1 - c.offset
      {
        assert |Listed()| == |output.Nodes| > 0;
        var empties;
        more, empties, c := Round(c);
        Regroup(released, empties, output.Nodes);
        released := released + empties;
      }
      if more {
        PrintingOver(c);
      }
    }

    /** What is handed back are the messages displayed. */
    method Print(ghost s: Console) returns (released: seq<int>)
      requires Valid() && Shows(s) && s.pc == Printing
      modifies `offset, output, uart`thre, uart`thr, uart`notifOut, uart.outbuf, uart.outbuf.values
      ensures Valid() && Shows(PrintingDone(s)) && released + output.Nodes == old(output.Nodes)
      ensures Within(released, texts.Length) && PrintingDone(s).printed == s.printed + Bodies(released)
    {
      ghost var all := Listed();
      released := PrintLoop(s);
      PrintingConserves(s);
      BodiesSplit(released, output.Nodes, all);
      Cancel(PrintingDone(s).printed, s.printed, Bodies(released), Listed());
    }

    lemma BodiesSplit(a: seq<int>, b: seq<int>, all: seq<Text>)
      requires Within(a + b, texts.Length) && all == Bodies(a + b)
      ensures Within(a, texts.Length) && Within(b, texts.Length) && all == Bodies(a) + Bodies(b)
    {
      assert forall i :: 0 <= i < |a| ==> (a + b)[i] == a[i];
      assert forall i :: 0 <= i < |b| ==> (a + b)[|a| + i] == b[i];
    }
  }

  lemma Regroup(a: seq<int>, b: seq<int>, c: seq<int>)
    ensures (a + b) + c == a + (b + c)
  {
  }

  lemma Cancel(left: seq<Text>, front: seq<Text>, middle: seq<Text>, tail: seq<Text>)
    requires left + tail == front + (middle + tail)
    ensures left == front + middle
  {
    assert |left| == |front + middle|;
    forall i | 0 <= i < |left| ensures left[i] == (front + middle)[i] {
      assert left[i] == (left + tail)[i] == (front + (middle + tail))[i];
    }
  }
}
