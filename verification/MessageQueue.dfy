/** The send queue of a connection in lib/libdvben50221/en50221_transport.c: messages linked through their next
    pointers, with a head and a tail pointer. */
module SendQueue {
  import opened Bytes

  /** struct en50221_message */
  class MessageNode {
    const data: seq<byte>
    var next: MessageNode?

    constructor (data: seq<byte>)
      ensures this.data == data && next == null
    {
      this.data := data;
      next := null;
    }
  }

  function Datas(nodes: seq<MessageNode>): (r: seq<seq<byte>>)
    ensures |r| == |nodes| && forall i :: 0 <= i < |r| ==> r[i] == nodes[i].data
  {
    seq(|nodes|, i requires 0 <= i < |nodes| => nodes[i].data)
  }

  /** The fields send_queue and send_queue_tail of a connection. */
  class MessageQueue {
    var head: MessageNode?
    var tail: MessageNode?
    ghost var nodes: seq<MessageNode>

    /** The next pointers lead from the head through all messages to the tail. */
    ghost predicate Valid()
      reads this, nodes
    {
      && (forall i, j :: 0 <= i < j < |nodes| ==> nodes[i] != nodes[j])
      && (nodes == [] ==> head == null && tail == null)
      && (nodes != [] ==> head == nodes[0] && tail == nodes[|nodes| - 1])
      && (forall i {:trigger nodes[i].next} :: 0 <= i < |nodes| ==> nodes[i].next == if i + 1 < |nodes| then nodes[i + 1] else null)
    }

    ghost function Contents(): seq<seq<byte>>
      reads this
    {
      Datas(nodes)
    }

    constructor ()
      ensures Valid() && Contents() == [] && nodes == []
    {
      head, tail, nodes := null, null, [];
    }

    /** queue_message */
    method Enqueue(msg: MessageNode)
      requires Valid() && msg !in nodes
      modifies this, msg, if tail == null then {} else {tail}
      ensures Valid() && nodes == old(nodes) + [msg] && Contents() == old(Contents()) + [msg.data]
    {
      msg.next := null;
      if tail != null {
        assert tail == nodes[|nodes| - 1];
        tail.next := msg;
        tail := msg;
      } else {
        head := msg;
        tail := msg;
      }
      nodes := nodes + [msg];
    }

    /** The message that en50221_tl_poll takes off, if there is one. */
    method Dequeue() returns (msg: MessageNode?)
      requires Valid()
      modifies this
      ensures Valid() && (msg == null <==> old(nodes) == [])
      ensures msg == null ==> nodes == []
      ensures msg != null ==> msg == old(nodes)[0] && nodes == old(nodes)[1..] && old(Contents()) == [msg.data] + Contents()
    {
      msg := head;
      if msg != null {
        assert msg == nodes[0] && nodes[0].next == if 1 < |nodes| then nodes[1] else null;
        if msg.next != null {
          head := msg.next;
        } else {
          head := null;
          tail := null;
        }
        nodes := nodes[1..];
      }
    }

    /** The loop of en50221_tl_destroy_slot that frees the messages: it reaches every one of them once. */
    method Flush() returns (ghost freed: seq<MessageNode>)
      requires Valid()
      modifies this
      ensures Valid() && nodes == [] && Contents() == [] && freed == old(nodes)
    {
      freed := [];
      var cur := head;
      while cur != null
        invariant Valid() && nodes == old(nodes) && |freed| <= |nodes| && freed == nodes[..|freed|]
        invariant cur == if |freed| < |nodes| then nodes[|freed|] else null
        decreases |nodes| - |freed|
      {
        var next := cur.next;
        assert nodes[|freed|].next == if |freed| + 1 < |nodes| then nodes[|freed| + 1] else null;
        freed := freed + [cur];
        cur := next;
      }
      head, tail, nodes := null, null, [];
    }
  }
}
