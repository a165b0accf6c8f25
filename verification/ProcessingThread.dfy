/** The consumer thread: imperative code that refines the state machine of `Stabilizer`. */
module ProcessingThreads {
  import opened Messages
  import opened StableOrder
  import opened Stabilizer
  import opened HandoffQueue

  class ProcessingThread {
    const config: Config
    var heartbeat: map<int, nat>
    var storage: seq<Label>          // a multimap ordered by timestamp
    var deletedList: seq<int>
    var processed: int
    var batches: seq<seq<int>>       // what the label receiver got
    ghost var log: seq<Label>

    ghost function Abs(): State
      reads this
    {
      State(heartbeat, storage, deletedList, batches, log, processed)
    }

    constructor (config: Config)
      ensures this.config == config
      ensures Abs() == State(map[], [], [], [], [], 0)
    {
      this.config := config;
      heartbeat, storage, deletedList, processed, batches, log := map[], [], [], 0, [], [];
    }

    method SetClientCount(count: int)
      modifies this`heartbeat
      ensures forall p :: p in heartbeat <==> p in old(heartbeat) || 1 <= p <= count
      ensures forall p :: p in heartbeat ==> heartbeat[p] == if 1 <= p <= count then 0 else old(heartbeat)[p]
      ensures old(heartbeat) == map[] ==> heartbeat == InitTable(count)
    {
      var n := 1;
      while n <= count
        invariant 1 <= n && (n <= count + 1 || n == 1)
        invariant forall p :: p in heartbeat <==> p in old(heartbeat) || 1 <= p < n
        invariant forall p :: p in heartbeat ==> heartbeat[p] == if 1 <= p < n then 0 else old(heartbeat)[p]
      {
        heartbeat := heartbeat[n := 0];
        n := n + 1;
      }
    }

    method UpdateHeartbeatTable(partition: int, hb: nat)
      modifies this`heartbeat
      ensures heartbeat == old(heartbeat)[partition := hb]
    {
      heartbeat := heartbeat[partition := hb];
    }

    /** The seed is read through `operator[]`, which inserts 0 for an unknown partition. */
    method GetStableTimestamp(partition: int) returns (t: nat)
      modifies this`heartbeat
      ensures heartbeat == if partition in old(heartbeat) then old(heartbeat) else old(heartbeat)[partition := 0]
      ensures HasPartition(heartbeat) && t == StableTime(heartbeat)
    {
      if partition !in heartbeat {
        heartbeat := heartbeat[partition := 0];
      }
      t := heartbeat[partition];
      ghost var least := partition;
      var rest := heartbeat.Keys;
      ghost var hb := heartbeat;
      while rest != {}
        invariant heartbeat == hb
        invariant rest <= heartbeat.Keys
        invariant least in heartbeat && heartbeat[least] == t
        invariant forall p :: p in heartbeat ==> p in rest || t <= heartbeat[p]
      {
        var p := Pick(rest);
        if heartbeat[p] < t {
          t, least := heartbeat[p], p;
        }
        rest := rest - {p};
      }
      StableUnique(heartbeat, t);
    }

    method InsertBatchLabels(labels: seq<Label>)
      modifies this`storage
      ensures storage == InsertAll(old(storage), labels)
    {
      var n := 0;
      while n < |labels|
        invariant n <= |labels|
        invariant storage == InsertAll(old(storage), labels[..n])
      {
        assert labels[..n + 1][..n] == labels[..n];
        storage := Insert(storage, labels[n]);
        n := n + 1;
      }
      assert labels[..n] == labels;
    }

    method DeletePossibleLabels(stable: nat)
      modifies this`storage, this`deletedList, this`processed, this`log
      ensures Abs() == Prune(old(Abs()), stable)
    {
      var it := 0;
      while true
        invariant it <= |storage| && storage == old(storage) && log == old(log)
        invariant deletedList == old(deletedList) + Values(storage[..it])
        invariant processed == old(processed) + it
        invariant forall j :: 0 <= j < it ==> storage[j].ts <= stable
        decreases |storage| - it
      {
        if it == |storage| {
          break;
        } else if storage[it].ts > stable {
          break;
        }
        deletedList := deletedList + [storage[it].value];
        processed := processed + 1;
        it := it + 1;
      }
      ghost var k := UpperBound(storage, stable);
      assert it == k;
      log := log + storage[..it];
      storage := storage[it..];
    }

    method DoPossibleBatchDelivery()
      modifies this`deletedList, this`batches
      ensures Abs() == Deliver(config, old(Abs()))
    {
      if |deletedList| > config.deliverySize {
        batches := batches + [deletedList];
        deletedList := [];
      }
    }

    /** The body of the drain loop for one message. */
    method ProcessMessage(m: Message)
      modifies this
      ensures Abs() == Apply(config, old(Abs()), m)
    {
      hide InsertAll, Prune, Deliver, IsStable, HasPartition;
      ghost var was := Abs();
      InsertBatchLabels(m.labels);
      UpdateHeartbeatTable(m.partition, m.heartbeat);
      var stable := GetStableTimestamp(m.partition);
      assert Abs() == was.(storage := InsertAll(was.storage, m.labels),
                           heartbeat := was.heartbeat[m.partition := m.heartbeat]);
      DeletePossibleLabels(stable);
      DoPossibleBatchDelivery();
      if processed >= config.deleteThreshold {
        processed := 0;
      }
    }

    method ProcessNext(cont: EventDataPacket, q: EventQueueFrame,
                       ghost was: State, ghost handed: seq<Message>, ghost count: nat)
      requires q.Valid()
      requires count < |handed| && handed[count] == cont.data
      requires Abs() == Run(config, was, handed[..count])
      modifies this
      ensures q.Valid()
      ensures Abs() == Run(config, was, handed[..count + 1])
    {
      hide Run, Apply;
      assert handed[..count + 1] == handed[..count] + [cont.data];
      RunSnoc(config, was, handed[..count], cont.data);
      ProcessMessage(cont.data);
    }

    /** The drain loop of `processQ`: polls and processes until the consumer list is empty. */
    method Drain(q: EventQueueFrame) returns (count: nat)
      requires q.Valid() && q.toConsumer == q.toMiddle
      modifies this, q, q.consumer, q.packets
      ensures q.Valid() && q.toMiddle == 0 && q.packets == old(q.packets)
      ensures count == old(q.toMiddle)
      ensures q.nodes == old(q.nodes)[count..]
      ensures Abs() == Run(config, old(Abs()), old(q.Contents())[..count])
    {
      hide Apply, Payload;
      PayloadLength(q.nodes);
      ghost var was, nodes, handed, total := Abs(), q.nodes, q.Contents(), q.toMiddle;
      count := 0;
      while true
        invariant q.Valid() && q.packets == old(q.packets)
        invariant count <= total && q.nodes == nodes[count..]
        invariant q.toConsumer == q.toMiddle == total - count
        invariant Abs() == Run(config, was, handed[..count])
        decreases total - count
      {
        var cont := q.PollFromConsumerQueue();
        if cont == null {
          break;
        }
        ProcessNext(cont, q, was, handed, count);
        count := count + 1;
      }
    }

    /** Drains everything handed over so far and returns the credit to give back. */
    method ProcessQ(q: EventQueueFrame) returns (credit: int)
      requires q.Valid()
      modifies this, q, q.intermediate, q.consumer, q.packets
      ensures q.Valid() && q.toMiddle == 0 && q.packets == old(q.packets)
      ensures q.nodes == old(q.nodes)[old(q.toMiddle)..]
      ensures q.Contents() == old(q.Contents())[old(q.toMiddle)..]
      ensures Abs() == Run(config, old(Abs()), old(q.Contents())[..old(q.toMiddle)])
      ensures credit == PACKET * old(q.toMiddle)
    {
      PayloadDrop(q.nodes, q.toMiddle);
      q.PollFromIntermediateQueue();
      var count := Drain(q);
      credit := count * PACKET;
    }
  }
}
