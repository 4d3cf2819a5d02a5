/**
 The sorted message queue (message_queue.c): envelopes linked through their own m_next field. A pointer to an
 envelope is its index in the envelope memory, and NULL is -1. The same code keeps the kernel's delayed messages,
 CRT's display list and KCD's registrations.
 */
module MessageQueues {
  import opened Sequences

  const NULL: int := -1

  /** The kernel's part of an envelope: m_send_pid, m_recv_pid and m_kdata[0]. */
  datatype Header = Header(sender: int, receiver: int, expiry: int)
  datatype MsgBuf = MsgBuf(next: int, hdr: Header)

  function Headers(mem: seq<MsgBuf>): (h: seq<Header>)
    ensures |h| == |mem|
  {
    seq(|mem|, i requires 0 <= i < |mem| => mem[i].hdr)
  }

  ghost predicate Within(nodes: seq<int>, n: nat) {
    forall i :: 0 <= i < |nodes| ==> 0 <= nodes[i] < n
  }

  function Expiries(hdr: seq<Header>, nodes: seq<int>): (keys: seq<int>)
    requires Within(nodes, |hdr|)
    ensures |keys| == |nodes|
  {
    seq(|nodes|, i requires 0 <= i < |nodes| => hdr[nodes[i]].expiry)
  }

  ghost predicate Ascending(keys: seq<int>) {
    forall i, j :: 0 <= i < j < |keys| ==> keys[i] <= keys[j]
  }

  /** Where a message with this key goes: before the first strictly larger key. */
  function Position(keys: seq<int>, key: int): (k: nat)
    ensures k <= |keys|
    ensures forall j :: 0 <= j < k ==> keys[j] <= key
    ensures k < |keys| ==> keys[k] > key
  {
    if keys == [] || keys[0] > key then 0 else 1 + Position(keys[1..], key)
  }

  function InsertAt<T>(s: seq<T>, k: nat, x: T): seq<T>
    requires k <= |s|
  {
    s[..k] + [x] + s[k..]
  }

  /** The queue after enqueueing envelope `msg`. */
  function Enqueued(hdr: seq<Header>, nodes: seq<int>, msg: int): seq<int>
    requires Within(nodes, |hdr|) && 0 <= msg < |hdr|
  {
    InsertAt(nodes, Position(Expiries(hdr, nodes), hdr[msg].expiry), msg)
  }

  function After(nodes: seq<int>, i: nat): int {
    if i + 1 < |nodes| then nodes[i + 1] else NULL
  }

  /** `nodes` is the chain that starts at `head` and follows the m_next fields to NULL. */
  ghost predicate Linked(mem: seq<MsgBuf>, head: int, nodes: seq<int>) {
    && NoDup(nodes) && Within(nodes, |mem|)
    && head == (if nodes == [] then NULL else nodes[0])
    && forall i :: 0 <= i < |nodes| ==> mem[nodes[i]].next == After(nodes, i)
  }

  /** Writing one envelope that is not in a chain leaves the chain alone. */
  lemma LinkedFrame(mem: seq<MsgBuf>, head: int, nodes: seq<int>, e: int, m: MsgBuf)
    requires Linked(mem, head, nodes) && 0 <= e < |mem| && (e !in nodes || m.next == mem[e].next)
    ensures Linked(mem[e := m], head, nodes)
  {
  }

  lemma InsertAtFacts(nodes: seq<int>, n: nat, k: nat, msg: int)
    requires NoDup(nodes) && Within(nodes, n) && k <= |nodes| && 0 <= msg < n && msg !in nodes
    ensures NoDup(InsertAt(nodes, k, msg)) && Within(InsertAt(nodes, k, msg), n)
  {
    NoDupConcat(nodes[..k], [msg]);
    NoDupConcat(nodes[..k] + [msg], nodes[k..]);
  }

  /** Two link writes splice a new envelope into a chain at position `k`. */
  lemma Splice(mem: seq<MsgBuf>, mem': seq<MsgBuf>, head: int, nodes: seq<int>, k: nat, msg: int)
    requires Linked(mem, head, nodes) && k <= |nodes| && 0 <= msg < |mem| == |mem'| && msg !in nodes
    requires mem'[msg].next == if k < |nodes| then nodes[k] else NULL
    requires k > 0 ==> mem'[nodes[k - 1]].next == msg
    requires forall e :: 0 <= e < |mem| && e != msg && (k > 0 ==> e != nodes[k - 1]) ==> mem'[e] == mem[e]
    ensures Linked(mem', if k == 0 then msg else head, InsertAt(nodes, k, msg))
  {
    var nodes' := InsertAt(nodes, k, msg);
    InsertAtFacts(nodes, |mem|, k, msg);
    forall i | 0 <= i < |nodes'| ensures mem'[nodes'[i]].next == After(nodes', i) {
      if i < k {
        assert nodes'[i] == nodes[i];
      } else if k < i {
        assert nodes'[i] == nodes[i - 1];
      }
    }
  }

  /** The memory after the two link writes: `link` is NULL for the queue head's own cell. */
  function Spliced(mem: seq<MsgBuf>, link: int, at: int, msg: int): (mem': seq<MsgBuf>)
    requires 0 <= msg < |mem| && (link == NULL || 0 <= link < |mem|)
    ensures |mem'| == |mem|
  {
    var mem1 := mem[msg := mem[msg].(next := at)];
    if link == NULL then mem1 else mem1[link := mem1[link].(next := msg)]
  }

  lemma SpliceInserts(mem: seq<MsgBuf>, head: int, nodes: seq<int>, k: nat, msg: int, link: int, at: int)
    requires Linked(mem, head, nodes) && k <= |nodes| && 0 <= msg < |mem| && msg !in nodes
    requires link == (if k == 0 then NULL else nodes[k - 1]) && at == (if k < |nodes| then nodes[k] else NULL)
    ensures var mem', nodes' := Spliced(mem, link, at, msg), InsertAt(nodes, k, msg);
            && Linked(mem', if k == 0 then msg else head, nodes') && Headers(mem') == Headers(mem)
            && forall e :: 0 <= e < |mem| && e !in nodes' ==> mem'[e] == mem[e]
  {
    Splice(mem, Spliced(mem, link, at, msg), head, nodes, k, msg);
    assert InsertAt(nodes, k, msg)[k] == msg;
    assert k > 0 ==> InsertAt(nodes, k, msg)[k - 1] == link;
  }

  lemma Unlink(mem: seq<MsgBuf>, head: int, nodes: seq<int>)
    requires Linked(mem, head, nodes) && nodes != []
    ensures Linked(mem, mem[head].next, nodes[1..])
  {
    forall i | 0 <= i < |nodes[1..]|
      ensures mem[nodes[1..][i]].next == After(nodes[1..], i)
    {
      assert nodes[1..][i] == nodes[i + 1];
    }
  }

  class MessageQueue {
    var head: int
    const mem: array<MsgBuf>
    ghost var Nodes: seq<int>  // the queued envelopes, front first

    ghost predicate Valid()
      reads this, mem
    {
      Linked(mem[..], head, Nodes)
    }

    constructor (memory: array<MsgBuf>)
      ensures Valid() && Nodes == [] && mem == memory
    {
      head := NULL;
      mem := memory;
      Nodes := [];
    }

    /**
     The walk of enqueue_message. `link` is the pointer-to-pointer: NULL stands for the queue head's own cell, any
     other value for the m_next cell of that envelope; `at` is what the cell holds.
     */
    method FindLink(key: int) returns (link: int, at: int)
      requires Valid()
      ensures var k := Position(Expiries(Headers(mem[..]), Nodes), key);
              && link == (if k == 0 then NULL else Nodes[k - 1])
              && at == (if k < |Nodes| then Nodes[k] else NULL)
    {
      ghost var keys := Expiries(Headers(mem[..]), Nodes);
      link, at := NULL, head;
      ghost var k := 0;
      while at != NULL && !(mem[at].hdr.expiry > key)
        invariant 0 <= k <= |Nodes|
        invariant link == (if k == 0 then NULL else Nodes[k - 1])
        invariant at == if k < |Nodes| then Nodes[k] else NULL
        invariant Position(keys, key) == k + Position(keys[k..], key)
        decreases |Nodes| - k
      {
        assert mem[..][Nodes[k]].next == After(Nodes, k);
        link, at := at, mem[at].next;
        k := k + 1;
      }
      assert k < |Nodes| ==> keys[k..][0] > key;
    }

    /** enqueue_message. */
    method Enqueue(msg: int)
      requires Valid() && 0 <= msg < mem.Length && msg !in Nodes
      modifies this, mem
      ensures Valid() && Nodes == Enqueued(old(Headers(mem[..])), old(Nodes), msg)
      ensures Headers(mem[..]) == old(Headers(mem[..]))
      ensures forall e :: 0 <= e < mem.Length && e !in Nodes ==> mem[e] == old(mem[e])
    {
      ghost var was := mem[..];
      ghost var k := Position(Expiries(Headers(was), Nodes), Headers(was)[msg].expiry);
      var link, at := FindLink(mem[msg].hdr.expiry);
      mem[msg] := mem[msg].(next := at);
      if link == NULL {
        head := msg;
      } else {
        mem[link] := mem[link].(next := msg);
      }
      assert mem[..] == Spliced(was, link, at, msg);
      SpliceInserts(was, old(head), Nodes, k, msg, link, at);
      Nodes := InsertAt(Nodes, k, msg);
    }

    /** Moves the queue head on to the next envelope, as CRT does with its list; the link of the old one stays. */
    method DropFront() returns (msg: int)
      requires Valid() && Nodes != []
      modifies this
      ensures Valid() && [msg] + Nodes == old(Nodes)
    {
      msg := head;
      assert Nodes == [msg] + Nodes[1..];
      Unlink(mem[..], head, Nodes);
      head := mem[msg].next;
      Nodes := Nodes[1..];
    }

    /** dequeue_message: the front envelope if its expiry is due at `now`, else NULL. */
    method Dequeue(now: int) returns (msg: int)
      requires Valid()
      modifies this, mem
      ensures Valid() && Headers(mem[..]) == old(Headers(mem[..]))
      ensures msg == NULL <==> old(Nodes) == [] || old(mem[Nodes[0]].hdr.expiry) > now
      ensures msg == NULL ==> Nodes == old(Nodes) && head == old(head)
      ensures msg != NULL ==> [msg] + Nodes == old(Nodes)
      ensures msg != NULL ==> 0 <= msg < mem.Length && mem[msg].next == NULL
      ensures forall e :: 0 <= e < mem.Length && e != msg ==> mem[e] == old(mem[e])
    {
      if head == NULL {
        return NULL;
      }
      msg := head;
      if mem[msg].hdr.expiry > now {
        return NULL;
      }
      assert Nodes == [msg] + Nodes[1..];
      Unlink(mem[..], head, Nodes);
      head := mem[msg].next;
      LinkedFrame(mem[..], head, Nodes[1..], msg, mem[msg].(next := NULL));
      mem[msg] := mem[msg].(next := NULL);
      Nodes := Nodes[1..];
    }
  }

  /** Insertion keeps an ascending queue ascending, and puts the newcomer behind everything with its own key. */
  lemma InsertionIsSortedAndStable(keys: seq<int>, key: int)
    requires Ascending(keys)
    ensures var k := Position(keys, key);
            && Ascending(InsertAt(keys, k, key))
            && (forall j :: 0 <= j < |keys| ==> (j < k <==> keys[j] <= key))
  {
  }

  /** With equal keys, as in CRT's and KCD's lists where every key is 0, insertion is append: a FIFO. */
  lemma {:induction false} EqualKeysAppend(keys: seq<int>, key: int)
    requires forall j :: 0 <= j < |keys| ==> keys[j] == key
    ensures Position(keys, key) == |keys|
    ensures forall s: seq<int> :: |s| == |keys| ==> forall x :: InsertAt(s, Position(keys, key), x) == s + [x]
  {
    if keys != [] {
      EqualKeysAppend(keys[1..], key);
    }
    forall s: seq<int> | |s| == |keys| ensures forall x :: InsertAt(s, |keys|, x) == s + [x] {
      assert s[..|s|] == s;
    }
  }
}
