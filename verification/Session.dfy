/** The receiver's and the processor's code running against one shared heap, for any number
    of connections. */
module Session {
  import opened Messages
  import opened Stabilizer
  import opened Stream
  import opened Clients
  import opened Buffer
  import opened HandoffQueue
  import opened ReceiverThread
  import opened ProcessingThreads

  /** One chunk arrives; the processor may or may not get to drain the queue afterwards.
      `applied` are the messages the stabilizer has processed since state `was`. */
  method Deliver(server: ServerAPI, buf: ClientData, proc: ProcessingThread, chunk: string, drain: bool,
                 ghost was: State, ghost applied: seq<Message>) returns (ghost now: seq<Message>)
    requires server.queue.Valid() && server.queue.HandedOver()
    requires buf.Valid() && buf.maxLen >= 9 && |chunk| >= 2
    requires Stream.Decode(buf.Contents() + Trimmed(chunk)).Decoded?
    requires proc.Abs() == Run(proc.config, was, applied)
    modifies buf, buf.data, proc, server`currentMsgCount
    modifies server.queue, server.queue.producer, server.queue.intermediate, server.queue.consumer
    modifies server.queue.packets
    ensures server.queue.Valid() && server.queue.HandedOver()
    ensures buf.Valid() && buf.maxLen >= old(buf.maxLen)
    ensures buf.data == old(buf.data) || fresh(buf.data)
    ensures fresh(server.queue.packets - old(server.queue.packets))
    ensures proc.Abs() == Run(proc.config, was, now)
    ensures var r := Stream.Decode(old(buf.Contents()) + Trimmed(chunk));
            && buf.Contents() == r.rest
            && server.currentMsgCount == old(server.currentMsgCount) + |r.messages|
            && now + server.queue.Contents()
               == applied + (old(server.queue.Contents())
                             + Kept(r.messages, old(server.currentMsgCount), server.ignoreMsgCount))
    ensures if drain then server.queue.Contents() == [] else now == applied
  {
    hide Stream.Decode, Run, Apply, Kept, Payload, Trimmed;
    server.OnData(buf, chunk);
    now := applied;
    if drain {
      now := Drain(server.queue, buf, proc, was, applied);
    }
  }

  method Drain(q: EventQueueFrame, buf: ClientData, proc: ProcessingThread,
               ghost was: State, ghost applied: seq<Message>) returns (ghost now: seq<Message>)
    requires q.Valid() && q.HandedOver() && buf.Valid()
    requires proc.Abs() == Run(proc.config, was, applied)
    modifies proc, q, q.intermediate, q.consumer, q.packets
    ensures q.Valid() && q.HandedOver() && q.packets == old(q.packets)
    ensures buf.Valid() && buf.Contents() == old(buf.Contents())
    ensures proc.Abs() == Run(proc.config, was, now)
    ensures now == applied + old(q.Contents()) && q.Contents() == []
  {
    hide Run, Apply, Payload;
    ghost var handed := q.Contents();
    PayloadLength(q.nodes);
    assert handed[..q.toMiddle] == handed;
    RunConcat(proc.config, was, applied, handed);
    var credit := proc.ProcessQ(q);
    PayloadLength(q.nodes);
    now := applied + handed;
  }

  // -------------------------------------------------------------- all connections

  /** The receive buffers of the connected clients share no storage. */
  ghost predicate BuffersOk(bufs: seq<ClientData>)
    reads bufs, set i | 0 <= i < |bufs| :: bufs[i].data
  {
    && (forall i {:trigger bufs[i]} :: 0 <= i < |bufs| ==> bufs[i].Valid() && bufs[i].maxLen >= 9)
    && (forall i, j :: 0 <= i < j < |bufs| ==> bufs[i] != bufs[j] && bufs[i].data != bufs[j].data)
  }

  ghost predicate Holding(bufs: seq<ClientData>, held: map<nat, string>)
    requires BuffersOk(bufs)
    reads bufs, set i | 0 <= i < |bufs| :: bufs[i].data
  {
    forall i {:trigger bufs[i]} :: 0 <= i < |bufs| ==> bufs[i].Contents() == Held(held, i)
  }

  /** A chunk of client `c` changes the buffer of that client only. */
  method DeliverTo(server: ServerAPI, bufs: seq<ClientData>, proc: ProcessingThread, e: Arrival, drain: bool,
                   ghost held: map<nat, string>, ghost was: State, ghost applied: seq<Message>)
    returns (ghost now: seq<Message>)
    requires server.queue.Valid() && server.queue.HandedOver()
    requires BuffersOk(bufs) && Holding(bufs, held) && e.client < |bufs| && |e.chunk| >= 2
    requires Stream.Decode(Held(held, e.client) + Trimmed(e.chunk)).Decoded?
    requires proc.Abs() == Run(proc.config, was, applied)
    modifies bufs[e.client], bufs[e.client].data, proc, server`currentMsgCount
    modifies server.queue, server.queue.producer, server.queue.intermediate, server.queue.consumer
    modifies server.queue.packets
    ensures server.queue.Valid() && server.queue.HandedOver() && BuffersOk(bufs)
    ensures bufs[e.client].data == old(bufs[e.client].data) || fresh(bufs[e.client].data)
    ensures fresh(server.queue.packets - old(server.queue.packets))
    ensures proc.Abs() == Run(proc.config, was, now)
    ensures var r := Stream.Decode(Held(held, e.client) + Trimmed(e.chunk));
            && Holding(bufs, held[e.client := r.rest])
            && server.currentMsgCount == old(server.currentMsgCount) + |r.messages|
            && now + server.queue.Contents()
               == applied + (old(server.queue.Contents())
                             + Kept(r.messages, old(server.currentMsgCount), server.ignoreMsgCount))
    ensures if drain then server.queue.Contents() == [] else now == applied
  {
    hide Stream.Decode, Run, Apply, Kept, Payload, Trimmed, EventQueueFrame.Valid, EventQueueFrame.Contents;
    var c, buf := e.client, bufs[e.client];
    assert buf.Contents() == Held(held, c);
    assert forall i {:trigger bufs[i]} :: 0 <= i < |bufs| && i != c ==> bufs[i] != buf && bufs[i].data != buf.data;
    now := Deliver(server, buf, proc, e.chunk, drain, was, applied);
    forall i | 0 <= i < |bufs| && i != c
      ensures bufs[i].Valid() && bufs[i].maxLen >= 9 && bufs[i].Contents() == Held(held, i)
      ensures bufs[i].data != buf.data
    {
    }
  }

  /** The messages applied and queued are those decoded so far that are not ignored. */
  ghost predicate Accounted(server: ServerAPI, r: Reception, applied: seq<Message>)
    reads server, server.queue
  {
    && r.Received?
    && server.currentMsgCount == |r.messages|
    && applied + server.queue.Contents() == Kept(Merged(r.messages), 0, server.ignoreMsgCount)
  }

  lemma KeptNext(applied: seq<Message>, queued: seq<Message>, ss: seq<Sourced>, c: nat,
                 more: seq<Message>, ignored: int)
    requires applied + queued == Kept(Merged(ss), 0, ignored)
    ensures applied + (queued + Kept(more, |ss|, ignored)) == Kept(Merged(ss + From(c, more)), 0, ignored)
    ensures |ss + From(c, more)| == |ss| + |more|
  {
    hide Kept, Merged, From;
    MergedFrom(ss, c, more);
    KeptConcat(Merged(ss), more, 0, ignored);
    assert applied + (queued + Kept(more, |ss|, ignored)) == (applied + queued) + Kept(more, |ss|, ignored);
  }

  method ServeOne(server: ServerAPI, bufs: seq<ClientData>, proc: ProcessingThread, e: Arrival, drain: bool,
                  ghost r: Reception, ghost was: State, ghost applied: seq<Message>)
    returns (ghost now: seq<Message>, ghost next: Reception)
    requires server.queue.Valid() && server.queue.HandedOver() && Accounted(server, r, applied)
    requires BuffersOk(bufs) && Holding(bufs, r.held) && e.client < |bufs| && |e.chunk| >= 2
    requires Stream.Decode(Held(r.held, e.client) + Trimmed(e.chunk)).Decoded?
    requires proc.Abs() == Run(proc.config, was, applied)
    modifies bufs[e.client], bufs[e.client].data, proc, server`currentMsgCount
    modifies server.queue, server.queue.producer, server.queue.intermediate, server.queue.consumer
    modifies server.queue.packets
    ensures server.queue.Valid() && server.queue.HandedOver() && Accounted(server, next, now)
    ensures BuffersOk(bufs) && Holding(bufs, next.held)
    ensures bufs[e.client].data == old(bufs[e.client].data) || fresh(bufs[e.client].data)
    ensures fresh(server.queue.packets - old(server.queue.packets))
    ensures proc.Abs() == Run(proc.config, was, now)
    ensures var d := Stream.Decode(Held(r.held, e.client) + Trimmed(e.chunk));
            next == Received(r.messages + From(e.client, d.messages), r.held[e.client := d.rest])
    ensures drain ==> server.queue.Contents() == []
  {
    hide Stream.Decode, Run, Apply, Kept, Trimmed, EventQueueFrame.Valid, EventQueueFrame.Contents, BuffersOk, Holding;
    ghost var d := Stream.Decode(Held(r.held, e.client) + Trimmed(e.chunk));
    KeptNext(applied, server.queue.Contents(), r.messages, e.client, d.messages, server.ignoreMsgCount);
    now := DeliverTo(server, bufs, proc, e, drain, r.held, was, applied);
    next := Received(r.messages + From(e.client, d.messages), r.held[e.client := d.rest]);
  }

  /** Any number of connections served at once, chunk by chunk in any order, with the processor
      draining after any of the chunks: the messages applied, followed by those still queued,
      are exactly the decoded ones that are not ignored; after a drain all of them are applied. */
  method Serve(server: ServerAPI, bufs: seq<ClientData>, proc: ProcessingThread,
               es: seq<Arrival>, drains: seq<bool>) returns (ghost applied: seq<Message>)
    requires server.queue.Valid() && server.queue.HandedOver() && BuffersOk(bufs) && Holding(bufs, map[])
    requires server.currentMsgCount == 0 && server.queue.Contents() == []
    requires Chunked(es) && forall k :: 0 <= k < |es| ==> es[k].client < |bufs|
    requires |drains| == |es| && Receive(es).Received?
    modifies bufs, set i | 0 <= i < |bufs| :: bufs[i].data
    modifies proc, server`currentMsgCount
    modifies server.queue, server.queue.producer, server.queue.intermediate, server.queue.consumer
    modifies server.queue.packets
    ensures server.queue.Valid() && BuffersOk(bufs)
    ensures proc.Abs() == Run(proc.config, old(proc.Abs()), applied)
    ensures Holding(bufs, Receive(es).held)
    ensures applied + server.queue.Contents() == Kept(Merged(Receive(es).messages), 0, server.ignoreMsgCount)
    ensures drains != [] && drains[|drains| - 1]
            ==> applied == Kept(Merged(Receive(es).messages), 0, server.ignoreMsgCount)
  {
    hide Stream.Decode, Apply, Trimmed, Receive, EventQueueFrame.Valid, EventQueueFrame.Contents, BuffersOk, Holding;
    hide EventQueueFrame.HandedOver;
    ghost var was, r := proc.Abs(), Received([], map[]);
    applied := [];
    var i := 0;
    StartsEmpty(es);
    while i < |es|
      invariant i <= |es|
      invariant server.queue.Valid() && server.queue.HandedOver() && BuffersOk(bufs)
      invariant forall k {:trigger bufs[k]} :: 0 <= k < |bufs| ==>
        bufs[k].data == old(bufs[k].data) || fresh(bufs[k].data)
      invariant fresh(server.queue.packets - old(server.queue.packets))
      invariant proc.Abs() == Run(proc.config, was, applied)
      invariant Accounted(server, r, applied) && Receive(es[..i]) == r && Holding(bufs, r.held)
      invariant i > 0 && drains[i - 1] ==> server.queue.Contents() == []
    {
      hide Accounted;
      ReceiveNext(es, i);
      applied, r := ServeOne(server, bufs, proc, es[i], drains[i], r, was, applied);
      i := i + 1;
    }
    assert es[..i] == es;
    assert applied + [] == applied;
  }

  lemma StartsEmpty(es: seq<Arrival>)
    requires Chunked(es)
    ensures Receive(es[..0]) == Received([], map[])
  {
  }
}
