/** The hand-off queue on the heap: three linked lists spliced in constant time. */
module HandoffQueue {
  import opened Messages

  class EventDataPacket {
    const data: Message
    var next: EventDataPacket?
    ghost var rank: nat        // how many packets were queued before this one

    constructor (data: Message)
      ensures this.data == data && next == null
    {
      this.data := data;
      next := null;
      rank := 0;
    }
  }

  /** The messages carried by a list of packets. */
  function Payload(ps: seq<EventDataPacket>): seq<Message> {
    seq(|ps|, i requires 0 <= i < |ps| => ps[i].data)
  }

  lemma PayloadConcat(a: seq<EventDataPacket>, b: seq<EventDataPacket>)
    ensures Payload(a + b) == Payload(a) + Payload(b)
  {
  }

  lemma PayloadOne(p: EventDataPacket)
    ensures Payload([p]) == [p.data]
  {
  }

  lemma PayloadLength(a: seq<EventDataPacket>)
    ensures |Payload(a)| == |a| && forall i :: 0 <= i < |a| ==> Payload(a)[i] == a[i].data
  {
  }

  lemma PayloadDrop(a: seq<EventDataPacket>, k: nat)
    requires k <= |a|
    ensures Payload(a[k..]) == Payload(a)[k..]
  {
  }

  lemma PayloadTail(a: seq<EventDataPacket>)
    requires a != []
    ensures Payload(a) == [a[0].data] + Payload(a[1..])
  {
  }

  class Queue {
    var head: EventDataPacket?
    var tail: EventDataPacket?

    constructor ()
      ensures head == null && tail == null
    {
      head, tail := null, null;
    }

    /** This queue holds `nodes[lo..hi]`; an emptied queue may keep a stale tail. */
    ghost predicate Spans(nodes: seq<EventDataPacket>, lo: nat, hi: nat)
      requires lo <= hi <= |nodes|
      reads this
    {
      if lo == hi then head == null else head == nodes[lo] && tail == nodes[hi - 1]
    }

    method PushToQueue(p: EventDataPacket)
      requires head != null ==> tail != null
      modifies this
      modifies (if head != null then {tail} else {})`next
      ensures head == (if old(head) != null then old(head) else p) && tail == p
      ensures old(head) != null ==> old(tail).next == p
    {
      if head != null {
        tail.next := p;
      } else {
        head := p;
      }
      tail := p;
    }
  }

  class EventQueueFrame {
    const producer: Queue
    const intermediate: Queue
    const consumer: Queue

    // All packets, oldest first: the consumer list is nodes[..toConsumer], the
    // intermediate list nodes[toConsumer..toMiddle], the producer list the rest.
    ghost var nodes: seq<EventDataPacket>
    ghost var toConsumer: nat
    ghost var toMiddle: nat
    ghost var polled: nat
    ghost var packets: set<EventDataPacket>

    ghost predicate Valid()
      reads this, producer, intermediate, consumer, packets
    {
      && producer != intermediate && producer != consumer && intermediate != consumer
      && toConsumer <= toMiddle <= |nodes|
      && consumer.Spans(nodes, 0, toConsumer)
      && intermediate.Spans(nodes, toConsumer, toMiddle)
      && producer.Spans(nodes, toMiddle, |nodes|)
      && Linked()
    }

    /** The lists are disjoint, acyclic and null-terminated. */
    ghost predicate Linked()
      reads this, packets
    {
      && (forall i {:trigger nodes[i]} :: 0 <= i < |nodes| ==> nodes[i] in packets && nodes[i].rank == polled + i)
      && (forall i {:trigger nodes[i].next} :: 0 <= i < |nodes| ==> nodes[i].next == Successor(i))
    }

    ghost function Successor(i: nat): EventDataPacket?
      requires i < |nodes|
      reads this
    {
      if i + 1 == toConsumer || i + 1 == toMiddle || i + 1 == |nodes| then null else nodes[i + 1]
    }

    /** Nothing waits on the producer list: the consumer can reach every packet. */
    ghost predicate HandedOver()
      reads this
    {
      toMiddle == |nodes|
    }

    /** The abstract FIFO queue, oldest message first. */
    ghost function Contents(): seq<Message>
      reads this
    {
      Payload(nodes)
    }

    constructor ()
      ensures Valid() && nodes == [] && packets == {}
      ensures fresh(producer) && fresh(intermediate) && fresh(consumer)
    {
      producer := new Queue();
      intermediate := new Queue();
      consumer := new Queue();
      nodes, toConsumer, toMiddle, polled, packets := [], 0, 0, 0, {};
    }

    method AddToProducerQueue(p: EventDataPacket)
      requires Valid() && p.next == null
      requires forall i :: 0 <= i < |nodes| ==> nodes[i] != p
      modifies this`nodes, this`packets, producer, p`rank
      modifies (if producer.head != null then {producer.tail} else {})`next
      ensures Valid() && nodes == old(nodes) + [p] && packets == old(packets) + {p}
      ensures Contents() == old(Contents()) + [p.data]
    {
      assert nodes != [] ==> nodes[|nodes| - 1].next == Successor(|nodes| - 1);
      hide Payload;
      PayloadConcat(nodes, [p]);
      PayloadOne(p);
      p.rank := polled + |nodes|;
      producer.PushToQueue(p);
      ghost var was := nodes;
      nodes, packets := nodes + [p], packets + {p};
      assert forall i {:trigger nodes[i]} :: 0 <= i < |was| ==> nodes[i] == was[i];
    }

    method PushToIntermediateQueue()
      requires Valid()
      modifies this`toMiddle, producer, intermediate
      modifies (if intermediate.head != null then {intermediate.tail} else {})`next
      ensures Valid() && HandedOver() && nodes == old(nodes) && Contents() == old(Contents())
    {
      if producer.head != null {
        if intermediate.head != null {
          intermediate.tail.next := producer.head;
        } else {
          intermediate.head := producer.head;
        }
        intermediate.tail := producer.tail;
        producer.head := null;
        producer.tail := null;
      }
      toMiddle := |nodes|;
    }

    method PollFromIntermediateQueue()
      requires Valid()
      modifies this`toConsumer, intermediate, consumer
      modifies (if consumer.head != null then {consumer.tail} else {})`next
      ensures Valid() && toConsumer == toMiddle && Contents() == old(Contents())
    {
      if intermediate.head != null {
        if consumer.head != null {
          consumer.tail.next := intermediate.head;
        } else {
          consumer.head := intermediate.head;
        }
        consumer.tail := intermediate.tail;
        intermediate.head := null;
        intermediate.tail := null;
      }
      toConsumer := toMiddle;
    }

    method PollFromConsumerQueue() returns (p: EventDataPacket?)
      requires Valid()
      modifies this, consumer
      modifies (if consumer.head != null then {consumer.head} else {})`next
      ensures Valid() && packets == old(packets)
      ensures p == null <==> old(toConsumer) == 0
      ensures p == null ==> nodes == old(nodes) && toConsumer == 0 && toMiddle == old(toMiddle)
      ensures p != null ==> p == old(nodes)[0] && p.next == null && nodes == old(nodes)[1..]
                            && toConsumer == old(toConsumer) - 1 && toMiddle == old(toMiddle) - 1
      ensures p != null ==> old(Contents()) == [p.data] + Contents()
    {
      hide Payload;
      if consumer.head != null {
        p := consumer.head;
        PayloadTail(nodes);
        assert p == nodes[0] && p.next == Successor(0);
        ghost var was := nodes;
        consumer.head := consumer.head.next;
        p.next := null;
        nodes, toConsumer, toMiddle, polled := nodes[1..], toConsumer - 1, toMiddle - 1, polled + 1;
        assert forall i {:trigger nodes[i]} :: 0 <= i < |nodes| ==> nodes[i] == was[i + 1];
      } else {
        p := null;
      }
    }
  }
}
