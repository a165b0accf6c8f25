/** The buffered sender: partial writes, retry on EPOLLOUT, and disconnect on error. */
module Sender {
  import opened Buffer

  /** What one `write` call answers. An accepted count is read as 1..requested. */
  datatype Answer = Accepted(n: nat) | WouldBlock | Failed

  /** The answers of the successive writes of one drain. */
  type Kernel = nat -> Answer

  /** `armed`: EPOLLOUT is registered; `dropping`: queued for disconnect;
      `live`: the socket table still knows the client; `wire`: every byte written. */
  datatype Connection = Connection(buffer: seq<char>, wire: seq<char>, live: bool,
                                   armed: bool, buffered: bool, dropping: bool)

  datatype End = Done | Blocked | Broken

  function Clamp(n: nat, request: nat): (k: nat)
    requires request > 0
    ensures 1 <= k <= request
  {
    if n < 1 then 1 else if n > request then request else n
  }

  /** How far a drain of `total` bytes gets, starting with the `k`-th write at `sent`. */
  function Drain(kernel: Kernel, k: nat, sent: nat, total: nat): (r: (nat, End))
    requires sent <= total
    ensures sent <= r.0 <= total
    ensures r.0 == total <==> r.1 == Done
    decreases total - sent
  {
    if sent == total then (sent, Done)
    else
      match kernel(k)
      case Accepted(n) => Drain(kernel, k + 1, sent + Clamp(n, total - sent), total)
      case WouldBlock => (sent, Blocked)
      case Failed => (sent, Broken)
  }

  /** `SendToClient` with its return value. */
  function Flush(c: Connection, kernel: Kernel): (Connection, int) {
    if !c.live then (c, -1)
    else
      var (n, end) := Drain(kernel, 0, 0, |c.buffer|);
      var written: int := n;
      var c1 := c.(wire := c.wire + c.buffer[..n], buffer := c.buffer[n..]);
      match end
      case Done => (c1.(buffer := []), written)
      case Blocked => (c1.(armed := true, buffered := true), written)
      case Broken => (c1.(dropping := true), 0)
  }

  datatype Event =
    | Send(data: seq<char>, answers: Kernel)
    | Writable(answers: Kernel)            // EPOLLOUT reported
    | Disconnect                           // the pending disconnects are carried out
    | Gone                                 // the peer closed; the table entry is cleared

  function Handle(c: Connection, e: Event): Connection {
    match e
    case Send(data, kernel) => Flush(c.(buffer := c.buffer + data), kernel).0
    case Writable(kernel) =>
      if !c.live then c
      else
        var (c1, sent) := Flush(c.(buffered := false), kernel);
        if |c.buffer| == sent then c1.(armed := false) else c1
    case Disconnect => if c.dropping then c.(live := false, dropping := false) else c
    case Gone => c.(live := false)
  }

  function Session(es: seq<Event>): Connection {
    if es == [] then Connection([], [], true, false, false, false)
    else Handle(Session(es[..|es| - 1]), es[|es| - 1])
  }

  /** Everything the application asked to send. */
  function Sent(es: seq<Event>): seq<char> {
    if es == [] then []
    else Sent(es[..|es| - 1]) + (match es[|es| - 1] case Send(data, _) => data case _ => [])
  }

  // ------------------------------------------------------------------- theorems

  lemma FlushConserves(c: Connection, kernel: Kernel)
    ensures Flush(c, kernel).0.wire + Flush(c, kernel).0.buffer == c.wire + c.buffer
    ensures c.wire <= Flush(c, kernel).0.wire
  {
  }

  lemma HandleConserves(c: Connection, e: Event)
    ensures var c' := Handle(c, e);
            && c.wire <= c'.wire
            && c'.wire + c'.buffer == c.wire + c.buffer + (match e case Send(data, _) => data case _ => [])
  {
    match e
    case Send(data, kernel) =>
      FlushConserves(c.(buffer := c.buffer + data), kernel);
    case Writable(kernel) =>
      FlushConserves(c.(buffered := false), kernel);
    case _ =>
  }

  /** No byte is lost, repeated or reordered, whatever the kernel answers. */
  lemma {:induction false} BytesConserved(es: seq<Event>)
    ensures Session(es).wire + Session(es).buffer == Sent(es)
  {
    if es != [] {
      var init, e := es[..|es| - 1], es[|es| - 1];
      BytesConserved(init);
      HandleConserves(Session(init), e);
    }
  }

  /** Unsent bytes of a live client wait for EPOLLOUT or for its disconnect. */
  ghost predicate NotStranded(c: Connection) {
    c.live && c.buffer != [] ==> (c.armed && c.buffered) || c.dropping
  }

  lemma {:induction false} NoStrandedOutput(es: seq<Event>)
    ensures NotStranded(Session(es))
  {
    if es != [] {
      NoStrandedOutput(es[..|es| - 1]);
      FlushIsNotStranded(Session(es[..|es| - 1]), es[|es| - 1]);
    }
  }

  lemma FlushIsNotStranded(c: Connection, e: Event)
    requires NotStranded(c)
    ensures NotStranded(Handle(c, e))
  {
  }

  /** The length test of the EPOLLOUT branch disarms exactly when nothing is left. */
  lemma DisarmedIffEmpty(c: Connection, kernel: Kernel)
    requires c.live
    ensures |c.buffer| == Flush(c.(buffered := false), kernel).1
            <==> Handle(c, Writable(kernel)).buffer == []
    ensures c.armed ==> (Handle(c, Writable(kernel)).armed <==> Handle(c, Writable(kernel)).buffer != [])
  {
  }

  /** `Send` answers `!buffered`: it reports success exactly when no earlier EAGAIN is
      still pending and this drain met none. */
  lemma SendReports(c: Connection, data: seq<char>, kernel: Kernel)
    requires c.live
    ensures var c' := Handle(c, Send(data, kernel));
            !c'.buffered <==> !c.buffered && Drain(kernel, 0, 0, |c.buffer + data|).1 != Blocked
    ensures var c' := Handle(c, Send(data, kernel));
            !c'.buffered && c'.buffer != []
            <==> !c.buffered && Drain(kernel, 0, 0, |c.buffer + data|).1 == Broken
    ensures var c' := Handle(c, Send(data, kernel));
            !c'.buffered && c'.buffer != [] ==> c'.dropping
  {
  }

  /** The report is pessimistic: everything has gone out although `Send` answers false
      exactly when an earlier EAGAIN is still unserved and this drain completes. */
  lemma SendUnderreportsIff(c: Connection, data: seq<char>, kernel: Kernel)
    requires c.live
    ensures var c' := Handle(c, Send(data, kernel));
            c'.buffered && c'.buffer == []
            <==> c.buffered && Drain(kernel, 0, 0, |c.buffer + data|).1 == Done
  {
  }

  /** Both wrong reports happen: a drained buffer reported as pending after an earlier EAGAIN,
      and bytes lost to a failing socket reported as sent. */
  lemma WrongReportsHappen(data: seq<char>)
    requires data != []
    ensures var c := Session([Send(data, _ => WouldBlock), Send(data, k => Accepted(2 * |data|))]);
            c.buffered && c.buffer == [] && c.wire == data + data
    ensures var c := Session([Send(data, _ => Failed)]);
            !c.buffered && c.buffer == data && c.wire == []
  {
    var late, all, lost := Send(data, _ => WouldBlock), Send(data, k => Accepted(2 * |data|)), Send(data, _ => Failed);
    var c0 := Session([]);
    assert c0.buffer + data == data && data[0..] == data && data[..0] == [];
    assert Drain(late.answers, 0, 0, |data|) == (0, Blocked);
    assert Drain(lost.answers, 0, 0, |data|) == (0, Broken);
    assert [late][..0] == [] && [lost][..0] == [] && [late, all][..1] == [late];
    assert Session([late]) == Handle(c0, late) == Connection(data, [], true, true, true, false);
    assert Session([lost]) == Handle(c0, lost);
    BytesConserved([late, all]);
    assert Sent([late, all]) == Sent([late]) + data == data + data;
  }

  // ------------------------------------------------- from the kernel's answers alone

  /** The bytes taken by the first `j` writes of a drain of `total` bytes, all of them accepted
      and each of them made while bytes were left. */
  ghost function Taken(kernel: Kernel, j: nat, total: nat): (n: nat)
    requires AllAccepted(kernel, j, total)
    ensures n <= total
    decreases j, 1
  {
    if j == 0 then 0
    else Taken(kernel, j - 1, total) + Clamp(kernel(j - 1).n, total - Taken(kernel, j - 1, total))
  }

  ghost predicate AllAccepted(kernel: Kernel, j: nat, total: nat)
    decreases j, 0
  {
    j == 0 || (AllAccepted(kernel, j - 1, total) && kernel(j - 1).Accepted? && Taken(kernel, j - 1, total) < total)
  }

  /** The writes stop after `j` accepted ones: nothing is left, or the next one is refused. */
  ghost predicate StopsAfter(kernel: Kernel, j: nat, total: nat) {
    AllAccepted(kernel, j, total) && (Taken(kernel, j, total) == total || !kernel(j).Accepted?)
  }

  lemma {:induction false} DrainFrom(kernel: Kernel, k: nat, total: nat) returns (j: nat)
    requires AllAccepted(kernel, k, total)
    ensures StopsAfter(kernel, j, total)
    ensures var r := Drain(kernel, k, Taken(kernel, k, total), total);
            && r.0 == Taken(kernel, j, total)
            && r.1 == if r.0 == total then Done else if kernel(j).WouldBlock? then Blocked else Broken
    decreases total - Taken(kernel, k, total)
  {
    if Taken(kernel, k, total) < total && kernel(k).Accepted? {
      assert AllAccepted(kernel, k + 1, total);
      j := DrainFrom(kernel, k + 1, total);
    } else {
      j := k;
    }
  }

  lemma {:induction false} AcceptedBefore(kernel: Kernel, i: nat, j: nat, total: nat)
    requires AllAccepted(kernel, j, total) && i < j
    ensures AllAccepted(kernel, i, total) && Taken(kernel, i, total) < total && kernel(i).Accepted?
    decreases j
  {
    if i < j - 1 {
      AcceptedBefore(kernel, i, j - 1, total);
    }
  }

  lemma StopsOnce(kernel: Kernel, i: nat, j: nat, total: nat)
    requires StopsAfter(kernel, i, total) && StopsAfter(kernel, j, total)
    ensures i == j
  {
    if i < j {
      AcceptedBefore(kernel, i, j, total);
    } else if j < i {
      AcceptedBefore(kernel, j, i, total);
    }
  }

  /** A drain writes on while writes are accepted and bytes are left, and not any longer: if it
      stops after `j` writes it has written what they took; it is done if that was all, and
      otherwise blocked or broken exactly as the next answer says. */
  lemma DrainStops(kernel: Kernel, total: nat, j: nat)
    requires StopsAfter(kernel, j, total)
    ensures var n := Taken(kernel, j, total);
            Drain(kernel, 0, 0, total)
            == (n, if n == total then Done else if kernel(j).WouldBlock? then Blocked else Broken)
  {
    var i := DrainFrom(kernel, 0, total);
    StopsOnce(kernel, i, j, total);
  }

  lemma DrainEnds(kernel: Kernel, total: nat) returns (j: nat)
    ensures StopsAfter(kernel, j, total)
  {
    j := DrainFrom(kernel, 0, total);
  }

  /** What `Send` does to the connection, read off the kernel's answers. */
  lemma SendOutcome(c: Connection, data: seq<char>, kernel: Kernel, j: nat)
    requires c.live && StopsAfter(kernel, j, |c.buffer + data|)
    ensures var all := c.buffer + data;
            var n := Taken(kernel, j, |all|);
            var sent := c.(wire := c.wire + all[..n], buffer := all[n..]);
            Handle(c, Send(data, kernel))
            == if n == |all| then sent
               else if kernel(j).WouldBlock? then sent.(armed := true, buffered := true)
               else sent.(dropping := true)
  {
    DrainStops(kernel, |c.buffer + data|, j);
  }

  /** The same for an EPOLLOUT event, which disarms it once nothing is left. */
  lemma WritableOutcome(c: Connection, kernel: Kernel, j: nat)
    requires c.live && StopsAfter(kernel, j, |c.buffer|)
    ensures var n := Taken(kernel, j, |c.buffer|);
            var sent := c.(wire := c.wire + c.buffer[..n], buffer := c.buffer[n..], buffered := false);
            Handle(c, Writable(kernel))
            == if n == |c.buffer| then sent.(armed := false)
               else if kernel(j).WouldBlock? then sent.(armed := true, buffered := true)
               else sent.(dropping := true)
  {
    DrainStops(kernel, |c.buffer|, j);
  }

  // --------------------------------------------------------- the imperative code

  class Client {
    const sendBuffer: ClientData
    var wire: seq<char>
    var live: bool
    var armed: bool
    var isBuffered: bool
    var dropping: bool

    ghost predicate Valid()
      reads this, sendBuffer, sendBuffer.data
    {
      sendBuffer.Valid()
    }

    ghost function Abs(): Connection
      requires Valid()
      reads this, sendBuffer, sendBuffer.data
    {
      Connection(sendBuffer.Contents(), wire, live, armed, isBuffered, dropping)
    }

    constructor (initLen: nat, stepLen: nat)
      ensures Valid() && Abs() == Session([])
      ensures fresh(sendBuffer) && fresh(sendBuffer.data)
    {
      sendBuffer := new ClientData(initLen, stepLen);
      wire, live, armed, isBuffered, dropping := [], true, false, false, false;
    }

    /** Writes until the buffer is empty, the socket is full, or the socket fails. */
    method WriteLoop(kernel: Kernel) returns (sendLen: nat, end: End)
      requires Valid()
      modifies this`wire
      ensures (sendLen, end) == Drain(kernel, 0, 0, sendBuffer.len)
      ensures wire == old(wire) + sendBuffer.Contents()[..sendLen]
    {
      var call := 0;
      var bufLen := sendBuffer.len;
      var total := bufLen;
      sendLen := 0;
      while sendLen < total
        invariant sendLen <= total == sendBuffer.len && bufLen == total - sendLen
        invariant Drain(kernel, 0, 0, total) == Drain(kernel, call, sendLen, total)
        invariant wire == old(wire) + sendBuffer.Contents()[..sendLen]
        decreases total - sendLen
      {
        match kernel(call)
        case Accepted(n) =>
          var cur := Clamp(n, bufLen);
          wire := wire + sendBuffer.data[sendLen..sendLen + cur];
          bufLen := bufLen - cur;
          sendLen := sendLen + cur;
          call := call + 1;
        case WouldBlock => return sendLen, Blocked;
        case Failed => return sendLen, Broken;
      }
      end := Done;
    }

    method SendToClient(kernel: Kernel) returns (r: int)
      requires Valid()
      modifies this, sendBuffer`len, sendBuffer.data
      ensures Valid() && sendBuffer.data == old(sendBuffer.data)
      ensures (Abs(), r) == Flush(old(Abs()), kernel)
    {
      if !live {
        return -1;
      }
      var sendLen, end := WriteLoop(kernel);
      match end
      case Blocked =>
        isBuffered := true;
        sendBuffer.DeleteFromStart(sendLen);
        armed := true;
        r := sendLen;
      case Broken =>
        sendBuffer.DeleteFromStart(sendLen);
        dropping := true;
        r := 0;
      case Done =>
        sendBuffer.ResetData();
        r := sendLen;
    }

    method Send(data: seq<char>, kernel: Kernel) returns (ok: bool)
      requires Valid()
      modifies this, sendBuffer, sendBuffer.data
      ensures Valid() && Abs() == Handle(old(Abs()), Event.Send(data, kernel))
      ensures ok == !isBuffered
    {
      sendBuffer.Append(data);
      var r := SendToClient(kernel);
      ok := !isBuffered;
    }

    /** The EPOLLOUT branch of the event loop. */
    method OnWritable(kernel: Kernel)
      requires Valid()
      modifies this, sendBuffer`len, sendBuffer.data
      ensures Valid() && Abs() == Handle(old(Abs()), Writable(kernel))
    {
      if live {
        isBuffered := false;
        var bufLen := sendBuffer.len;
        var sent := SendToClient(kernel);
        if bufLen == sent {
          armed := false;
        }
      }
    }
  }
}
