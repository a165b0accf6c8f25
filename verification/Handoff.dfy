/** Receiver and processor threads as a step system: one mutex and one condition variable
    guard the credit counter, and any interleaving of their steps is a schedule. */
module Handoff {
  import opened Messages
  import opened Stabilizer

  /** The credit counter is 64 bits wide; a credited amount is a C `int`. */
  const WORD: nat := 0x1_0000_0000_0000_0000
  const INT_LIMIT: nat := 0x8000_0000

  datatype Owner = Nobody | Receiver | Processor

  datatype ReceiverAt =
    | RLock     // about to lock the counter for the next message
    | RTest     // holds the lock, tests the guard
    | RWait     // parked on the condition variable
    | RRelock   // woken, needs the lock again
    | RSignal   // holds the lock, credit reserved
    | RUnlock
    | RPush     // about to push on the producer list
    | RSplice   // about to splice producer into intermediate

  datatype ProcessorAt =
    | PSplice   // about to splice intermediate into consumer
    | PPoll
    | PLock
    | PTest
    | PWait
    | PRelock
    | PSignal
    | PUnlock

  datatype System = System(
    receiver: ReceiverAt, processor: ProcessorAt, owner: Owner, size: nat, next: nat,
    producer: seq<Message>, intermediate: seq<Message>, consumer: seq<Message>,
    done: seq<Message>, uncredited: nat, state: State)

  /** What a scheduler may pick: a thread's next step, or a spurious wake-up. */
  datatype Move = ReceiverMoves | ProcessorMoves | ReceiverWakes | ProcessorWakes

  datatype Setup = Setup(config: Config, partitions: int, capacity: nat, input: seq<Message>)

  /** The credited amounts fit the C type. */
  ghost predicate Sized(capacity: nat) {
    capacity + PACKET <= INT_LIMIT
  }

  ghost function Start(u: Setup): System {
    System(RLock, PSplice, Nobody, 0, 0, [], [], [], [], 0, Init(u.partitions))
  }

  ghost predicate ReceiverEnabled(u: Setup, s: System) {
    match s.receiver
    case RLock => s.next < |u.input| && s.owner == Nobody
    case RRelock => s.owner == Nobody
    case RWait => false
    case _ => true
  }

  ghost predicate ProcessorEnabled(s: System) {
    match s.processor
    case PLock => s.owner == Nobody
    case PRelock => s.owner == Nobody
    case PWait => false
    case _ => true
  }

  ghost function ReceiverStep(u: Setup, s: System): System
    requires ReceiverEnabled(u, s)
  {
    match s.receiver
    case RLock => s.(receiver := RTest, owner := Receiver)
    case RRelock => s.(receiver := RTest, owner := Receiver)
    case RTest =>
      if s.size >= u.capacity then s.(receiver := RWait, owner := Nobody)
      else s.(receiver := RSignal, size := (s.size + PACKET) % WORD)
    case RSignal => s.(receiver := RUnlock, processor := if s.processor == PWait then PRelock else s.processor)
    case RUnlock => s.(receiver := RPush, owner := Nobody)
    case RPush =>
      if s.next < |u.input|
      then s.(receiver := RSplice, producer := s.producer + [u.input[s.next]], next := s.next + 1)
      else s
    case RSplice => s.(receiver := RLock, intermediate := s.intermediate + s.producer, producer := [])
  }

  ghost function ProcessorStep(u: Setup, s: System): System
    requires ProcessorEnabled(s)
  {
    match s.processor
    case PSplice => s.(processor := PPoll, consumer := s.consumer + s.intermediate, intermediate := [])
    case PPoll =>
      if s.consumer == [] then s.(processor := PLock)
      else s.(consumer := s.consumer[1..], done := s.done + [s.consumer[0]],
              uncredited := s.uncredited + 1, state := Apply(u.config, s.state, s.consumer[0]))
    case PLock => s.(processor := PTest, owner := Processor)
    case PRelock => s.(processor := PTest, owner := Processor)
    case PTest =>
      if s.size == 0 then s.(processor := PWait, owner := Nobody)
      else s.(processor := PSignal, size := (s.size - PACKET * s.uncredited) % WORD, uncredited := 0)
    case PSignal => s.(processor := PUnlock, receiver := if s.receiver == RWait then RRelock else s.receiver)
    case PUnlock => s.(processor := PSplice, owner := Nobody)
  }

  /** A move that is not enabled leaves the system alone. */
  ghost function Step(u: Setup, s: System, m: Move): System {
    match m
    case ReceiverMoves => if ReceiverEnabled(u, s) then ReceiverStep(u, s) else s
    case ProcessorMoves => if ProcessorEnabled(s) then ProcessorStep(u, s) else s
    case ReceiverWakes => if s.receiver == RWait then s.(receiver := RRelock) else s
    case ProcessorWakes => if s.processor == PWait then s.(processor := PRelock) else s
  }

  ghost function Exec(u: Setup, s: System, schedule: seq<Move>): System {
    if schedule == [] then s
    else Step(u, Exec(u, s, schedule[..|schedule| - 1]), schedule[|schedule| - 1])
  }

  lemma {:induction false} ExecConcat(u: Setup, s: System, a: seq<Move>, b: seq<Move>)
    ensures Exec(u, s, a + b) == Exec(u, Exec(u, s, a), b)
  {
    if b == [] {
      assert a + b == a;
    } else {
      assert (a + b)[..|a + b| - 1] == a + b[..|b| - 1];
      ExecConcat(u, s, a, b[..|b| - 1]);
    }
  }

  // ------------------------------------------------------------------- invariant

  ghost function Reserved(s: System): nat {
    if s.receiver in {RSignal, RUnlock, RPush} then 1 else 0
  }

  /** Every unit of the counter is one packet queued, processed but uncredited, or reserved. */
  ghost predicate CreditOk(u: Setup, s: System) {
    && s.size == PACKET * (|s.producer| + |s.intermediate| + |s.consumer| + s.uncredited + Reserved(s))
    && s.size < u.capacity + PACKET
    && s.uncredited <= |s.done|
  }

  ghost predicate FifoOk(u: Setup, s: System) {
    && s.next <= |u.input|
    && (s.receiver !in {RLock, RSplice} ==> s.next < |u.input|)
    && s.done + (s.consumer + (s.intermediate + s.producer)) == u.input[..s.next]
    && s.state == Run(u.config, Init(u.partitions), s.done)
  }

  ghost predicate ControlOk(s: System) {
    && (s.owner == Receiver <==> s.receiver in {RTest, RSignal, RUnlock})
    && (s.owner == Processor <==> s.processor in {PTest, PSignal, PUnlock})
    && (s.receiver != RSplice ==> s.producer == [])
    && (s.processor != PPoll ==> s.consumer == [])
    && (s.processor in {PSplice, PSignal, PUnlock} ==> s.uncredited == 0)
  }

  /** A parked thread's guard still holds, or its signal is on the way. */
  ghost predicate WakeOk(u: Setup, s: System) {
    && (s.receiver == RWait ==> s.size >= u.capacity || s.processor == PSignal)
    && (s.processor == PWait ==> s.size == 0 || s.receiver == RSignal)
  }

  ghost predicate Inv(u: Setup, s: System) {
    CreditOk(u, s) && FifoOk(u, s) && ControlOk(s) && WakeOk(u, s)
  }

  lemma CreditSub(size: nat, rest: nat, k: nat)
    requires size == PACKET * (rest + k) && size < WORD
    ensures (size - PACKET * k) % WORD == PACKET * rest
  {
  }

  lemma FifoPoll(done: seq<Message>, c: seq<Message>, rest: seq<Message>)
    requires c != []
    ensures done + [c[0]] + (c[1..] + rest) == done + (c + rest)
  {
  }

  lemma ReceiverFifo(u: Setup, s: System)
    requires Sized(u.capacity) && Inv(u, s) && ReceiverEnabled(u, s)
    ensures FifoOk(u, ReceiverStep(u, s))
  {
    hide Run, Apply, CreditOk, WakeOk;
    if s.receiver == RPush {
      assert u.input[..s.next + 1] == u.input[..s.next] + [u.input[s.next]];
    } else if s.receiver == RSplice {
      assert s.intermediate + s.producer == (s.intermediate + s.producer) + [];
    }
  }

  lemma ProcessorFifo(u: Setup, s: System)
    requires Sized(u.capacity) && Inv(u, s) && ProcessorEnabled(s)
    ensures FifoOk(u, ProcessorStep(u, s))
  {
    hide Run, Apply, CreditOk, WakeOk;
    if s.processor == PPoll && s.consumer != [] {
      FifoPoll(s.done, s.consumer, s.intermediate + s.producer);
      RunSnoc(u.config, Init(u.partitions), s.done, s.consumer[0]);
    } else if s.processor == PSplice {
      assert s.consumer + (s.intermediate + s.producer) == (s.consumer + s.intermediate) + ([] + s.producer);
    }
  }

  lemma ReceiverCredit(u: Setup, s: System)
    requires Sized(u.capacity) && Inv(u, s) && ReceiverEnabled(u, s)
    ensures CreditOk(u, ReceiverStep(u, s))
  {
    hide Run, Apply;
    match s.receiver
    case RSplice => assert |s.intermediate + s.producer| == |s.intermediate| + |s.producer|;
    case _ =>
  }

  lemma ReceiverControl(u: Setup, s: System)
    requires Sized(u.capacity) && Inv(u, s) && ReceiverEnabled(u, s)
    ensures ControlOk(ReceiverStep(u, s)) && WakeOk(u, ReceiverStep(u, s))
  {
    hide FifoOk;
  }

  lemma ProcessorCredit(u: Setup, s: System)
    requires Sized(u.capacity) && Inv(u, s) && ProcessorEnabled(s)
    ensures CreditOk(u, ProcessorStep(u, s))
  {
    hide FifoOk;
    if s.processor == PTest {
      CreditSub(s.size, |s.producer| + |s.intermediate| + |s.consumer| + Reserved(s), s.uncredited);
    }
  }

  lemma ProcessorControl(u: Setup, s: System)
    requires Sized(u.capacity) && Inv(u, s) && ProcessorEnabled(s)
    ensures ControlOk(ProcessorStep(u, s)) && WakeOk(u, ProcessorStep(u, s))
  {
  }

  /** A spurious wake-up makes a thread look at its guard once more. */
  lemma WakeKeeps(u: Setup, s: System, m: Move)
    requires Inv(u, s) && m in {ReceiverWakes, ProcessorWakes}
    ensures Inv(u, Step(u, s, m))
  {
    hide Run, Apply;
  }

  lemma StepKeeps(u: Setup, s: System, m: Move)
    requires Sized(u.capacity) && Inv(u, s)
    ensures Inv(u, Step(u, s, m))
  {
    hide CreditOk, FifoOk, ControlOk, WakeOk, ReceiverStep, ProcessorStep;
    match m
    case ReceiverMoves =>
      if ReceiverEnabled(u, s) {
        ReceiverFifo(u, s);
        ReceiverCredit(u, s);
        ReceiverControl(u, s);
      }
    case ProcessorMoves =>
      if ProcessorEnabled(s) {
        ProcessorFifo(u, s);
        ProcessorCredit(u, s);
        ProcessorControl(u, s);
      }
    case _ => WakeKeeps(u, s, m);
  }

  lemma StartInv(u: Setup)
    ensures Inv(u, Start(u))
  {
  }

  /** Every reachable state satisfies the invariant, whatever the schedule. */
  lemma {:induction false} Always(u: Setup, s: System, schedule: seq<Move>)
    requires Sized(u.capacity) && Inv(u, s)
    ensures Inv(u, Exec(u, s, schedule))
  {
    if schedule != [] {
      Always(u, s, schedule[..|schedule| - 1]);
      var t, m := Exec(u, s, schedule[..|schedule| - 1]), schedule[|schedule| - 1];
      StepKeeps(u, t, m);
    }
  }

  // ------------------------------------------------------------ safety theorems

  /** Schedule independence: the stabilizer has seen a prefix of the input, in order,
      so its state depends on how much was consumed and on nothing else. */
  lemma ScheduleIndependence(u: Setup, schedule: seq<Move>)
    requires Sized(u.capacity)
    ensures var s := Exec(u, Start(u), schedule);
            && |s.done| <= |u.input|
            && s.done == u.input[..|s.done|]
            && s.state == Run(u.config, Init(u.partitions), u.input[..|s.done|])
  {
    StartInv(u);
    Always(u, Start(u), schedule);
    var s := Exec(u, Start(u), schedule);
    var rest := s.consumer + (s.intermediate + s.producer);
    assert s.done == (s.done + rest)[..|s.done|] == u.input[..s.next][..|s.done|] == u.input[..|s.done|];
  }

  /** The counter never underflows and bounds the packets in flight. */
  lemma PacketBound(u: Setup, schedule: seq<Move>)
    requires Sized(u.capacity)
    ensures var s := Exec(u, Start(u), schedule);
            var packets := |s.producer| + |s.intermediate| + |s.consumer|;
            && PACKET * s.uncredited <= s.size < u.capacity + PACKET
            && PACKET * packets <= s.size
            && (u.capacity == 50000 ==> packets + s.uncredited + Reserved(s) <= 2084)
  {
    StartInv(u);
    Always(u, Start(u), schedule);
  }

  /** The state after `n` moves of the receiver alone. */
  ghost function Alone(u: Setup, s: System, n: nat): System {
    Exec(u, s, seq(n, _ => ReceiverMoves))
  }

  lemma AloneNext(u: Setup, s: System, n: nat)
    ensures Alone(u, s, 0) == s && Alone(u, s, n + 1) == Step(u, Alone(u, s, n), ReceiverMoves)
  {
    hide Step;
    assert seq(n + 1, _ => ReceiverMoves)[..n] == seq(n, _ => ReceiverMoves);
  }

  /** The receiver alone: each message takes six steps from one lock to the next. */
  lemma ReceiverRound(u: Setup, s: System)
    requires Sized(u.capacity) && s.receiver == RLock && s.owner == Nobody && s.processor == PSplice
    requires s.next < |u.input| && s.size < u.capacity && s.producer == []
    ensures Alone(u, s, 6)
            == s.(next := s.next + 1, size := s.size + PACKET,
                  intermediate := s.intermediate + [u.input[s.next]])
  {
    hide Alone, Run, Apply, ProcessorStep;
    AloneNext(u, s, 0);
    assert Alone(u, s, 1) == s.(receiver := RTest, owner := Receiver);
    AloneNext(u, s, 1);
    AloneNext(u, s, 2);
    AloneNext(u, s, 3);
    var reserved := s.(size := s.size + PACKET);
    assert Alone(u, s, 4) == reserved.(receiver := RPush);
    AloneNext(u, s, 4);
    AloneNext(u, s, 5);
  }

  /** The first `k` messages handed over, the processor not started. */
  ghost function Filled(u: Setup, k: nat): System
    requires k <= |u.input|
  {
    Start(u).(next := k, size := PACKET * k, intermediate := u.input[..k])
  }

  lemma FillOne(u: Setup, k: nat)
    requires Sized(u.capacity) && k < |u.input| && PACKET * k < u.capacity
    ensures Alone(u, Filled(u, k), 6) == Filled(u, k + 1)
  {
    hide Alone;
    ReceiverRound(u, Filled(u, k));
    assert u.input[..k + 1] == u.input[..k] + [u.input[k]];
  }

  /** While the processor has not started, the receiver hands over one message after another
      until the counter reaches the capacity. */
  lemma {:induction false} ReceiverFills(u: Setup, k: nat) returns (schedule: seq<Move>)
    requires Sized(u.capacity) && k <= |u.input| && (k > 0 ==> PACKET * (k - 1) < u.capacity)
    ensures Exec(u, Start(u), schedule) == Filled(u, k)
  {
    if k == 0 {
      schedule := [];
    } else {
      hide Step, Filled, Start;
      var before := ReceiverFills(u, k - 1);
      var round := seq(6, _ => ReceiverMoves);
      schedule := before + round;
      ExecConcat(u, Start(u), before, round);
      FillOne(u, k - 1);
    }
  }

  /** The bound on the packets in flight is exact: with enough input some schedule brings the
      counter to the first multiple of a packet that is no less than the capacity, and there the
      receiver waits. With capacity 50000 these are 2084 packets. */
  lemma PacketBoundIsReached(u: Setup) returns (k: nat, schedule: seq<Move>)
    requires Sized(u.capacity) && u.capacity > 0 && PACKET * |u.input| > u.capacity + PACKET
    ensures PACKET * (k - 1) < u.capacity <= PACKET * k
    ensures u.capacity == 50000 ==> k == 2084
    ensures var s := Exec(u, Start(u), schedule);
            && |s.producer| + |s.intermediate| + |s.consumer| == k
            && s.size == PACKET * k && s.receiver == RWait && s.done == []
  {
    k := (u.capacity + PACKET - 1) / PACKET;
    var fill := ReceiverFills(u, k);
    var s := Exec(u, Start(u), fill);
    var last := [ReceiverMoves, ReceiverMoves];
    schedule := fill + last;
    ExecConcat(u, Start(u), fill, last);
    assert last[..1] == [ReceiverMoves] && [ReceiverMoves][..0] == [];
    assert Exec(u, s, [ReceiverMoves]) == s.(receiver := RTest, owner := Receiver);
    assert Exec(u, s, last) == s.(receiver := RWait);
  }

  /** Nothing is left to do: all input processed and credited, the processor parked. */
  ghost predicate Finished(u: Setup, s: System) {
    && s.receiver == RLock && s.next == |u.input|
    && s.processor == PWait && s.size == 0
    && s.done == u.input
  }

  ghost predicate Stuck(u: Setup, s: System) {
    !ReceiverEnabled(u, s) && !ProcessorEnabled(s)
  }

  lemma StuckMeansFinished(u: Setup, s: System)
    requires Sized(u.capacity) && Inv(u, s) && u.capacity > 0
    ensures !(s.receiver == RWait && s.processor == PWait)
    ensures Stuck(u, s) <==> Finished(u, s)
  {
    if Stuck(u, s) {
      assert s.owner == Nobody && s.processor == PWait && s.size == 0;
      assert s.done + ([] + ([] + [])) == s.done;
      assert u.input[..|u.input|] == u.input;
    }
  }

  /** With a positive capacity no schedule deadlocks: both threads are blocked only when
      all the input has been processed. With capacity 0 some schedule parks both threads. */
  lemma DeadlockIffNoCapacity(u: Setup)
    requires Sized(u.capacity) && u.input != []
    ensures (exists schedule :: var s := Exec(u, Start(u), schedule); Stuck(u, s) && !Finished(u, s))
            <==> u.capacity == 0
  {
    if u.capacity == 0 {
      var s0 := Start(u);
      var a := [ReceiverMoves, ReceiverMoves];
      var b := [ProcessorMoves, ProcessorMoves, ProcessorMoves, ProcessorMoves];
      var s1 := Exec(u, s0, a);
      assert a[..1] == [ReceiverMoves] && a[..1][..0] == [];
      assert Exec(u, s0, a[..1]) == s0.(receiver := RTest, owner := Receiver);
      assert s1 == s0.(receiver := RWait);
      var s2 := Exec(u, s1, b);
      assert b[..3][..2] == b[..2] && b[..2][..1] == b[..1] && b[..1] == [ProcessorMoves] && b[..1][..0] == [];
      assert Exec(u, s1, b[..1]) == s1.(processor := PPoll);
      assert Exec(u, s1, b[..2]) == s1.(processor := PLock);
      assert Exec(u, s1, b[..3]) == s1.(processor := PTest, owner := Processor);
      assert s2 == s1.(processor := PWait);
      ExecConcat(u, s0, a, b);
      assert Stuck(u, Exec(u, s0, a + b)) && !Finished(u, Exec(u, s0, a + b));
    } else {
      forall schedule
        ensures !Stuck(u, Exec(u, Start(u), schedule)) || Finished(u, Exec(u, Start(u), schedule))
      {
        StartInv(u);
        Always(u, Start(u), schedule);
        StuckMeansFinished(u, Exec(u, Start(u), schedule));
      }
    }
  }

  // ------------------------------------------------------------------- progress

  /** The receiver is inside `IncreaseQueueSize` and the counter is at capacity. */
  ghost predicate Blocked(u: Setup, s: System) {
    s.size >= u.capacity && s.receiver in {RLock, RTest, RWait, RRelock}
  }

  /** Processor steps left until the counter falls below capacity. */
  ghost function StepsToCredit(s: System): nat {
    var i, k := |s.intermediate|, |s.consumer|;
    var later := if i > 0 then i + 6 else 0;
    match s.processor
    case PPoll => 3 + k + later
    case PLock => 2 + later
    case PRelock => 2 + later
    case PTest => 1 + later
    case PWait => 0
    case PSignal => i + 6
    case PUnlock => i + 5
    case PSplice => i + 4
  }

  /** While the receiver is blocked no step lets it in, the processor is never parked, and
      each of its steps brings the moment nearer at which the counter is below capacity. */
  lemma BlockedReceiverIsServed(u: Setup, s: System, m: Move)
    requires Sized(u.capacity) && Inv(u, s) && u.capacity > 0 && Blocked(u, s)
    ensures s.processor != PWait
    ensures ProcessorEnabled(s) || s.receiver == RTest
    ensures var s' := Step(u, s, m);
            if m == ProcessorMoves && ProcessorEnabled(s)
            then s'.size < u.capacity || (Blocked(u, s') && StepsToCredit(s') < StepsToCredit(s))
            else Blocked(u, s') && StepsToCredit(s') == StepsToCredit(s)
  {
    hide FifoOk;
    if m == ProcessorMoves && s.processor == PTest {
      CreditSub(s.size, |s.intermediate|, s.uncredited);
    }
  }

  // ------------------------------------------------------------ fair termination

  /** Nothing is reserved: the receiver is before its reservation, or out of input. */
  ghost predicate Waiting(s: System) {
    s.receiver in {RLock, RTest, RWait, RRelock}
  }

  /** Receiver steps to the end of the input, not counting those spent waiting. */
  ghost function ToHandOver(u: Setup, s: System): int {
    5 * (|u.input| - s.next) +
    match s.receiver
    case RSignal => -1
    case RUnlock => -2
    case RPush => -3
    case RSplice => 1
    case _ => 0
  }

  /** What is still to be handed over, processed and credited. */
  ghost function Work(u: Setup, s: System): int {
    ToHandOver(u, s) + 2 * (|u.input| - |s.done|) + s.uncredited
  }

  /** Processor steps until it processes, credits or parks, while nothing is reserved. */
  ghost function ToProgress(s: System): nat {
    var round := if s.uncredited == 0 && s.intermediate != [] then 4 else 0;
    match s.processor
    case PSignal => if s.intermediate == [] then 6 else 4
    case PUnlock => if s.intermediate == [] then 5 else 3
    case PSplice => if s.intermediate == [] then 4 else 2
    case PPoll => if s.consumer != [] then 1 else 3 + round
    case PLock => 2 + round
    case PRelock => 2 + round
    case PTest => 1 + round
    case PWait => 0
  }

  /** Receiver steps until it parks or reserves. */
  ghost function ToPark(s: System): nat {
    match s.receiver
    case RLock => 3
    case RRelock => 3
    case RTest => 2
    case RWait => 1
    case _ => 0
  }

  ghost function Distance(u: Setup, s: System): int {
    32 * Work(u, s) + if Waiting(s) then 4 * ToProgress(s) + ToPark(s) else 0
  }

  lemma DistanceBound(u: Setup, s: System)
    requires Inv(u, s)
    ensures 0 <= Distance(u, s) <= 224 * |u.input| + 32
  {
    assert |s.done + (s.consumer + (s.intermediate + s.producer))| == s.next;
  }

  lemma ReceiverApproaches(u: Setup, s: System)
    requires Sized(u.capacity) && Inv(u, s) && ReceiverEnabled(u, s)
    ensures Distance(u, ReceiverStep(u, s)) < Distance(u, s)
  {
    hide Run, Apply;
  }

  /** While the receiver holds a reservation the processor may spin, but it loses nothing. */
  lemma ProcessorApproaches(u: Setup, s: System)
    requires Sized(u.capacity) && Inv(u, s) && ProcessorEnabled(s)
    ensures var t := ProcessorStep(u, s);
            && Waiting(t) == Waiting(s) && Distance(u, t) <= Distance(u, s)
            && (Waiting(s) ==> Distance(u, t) < Distance(u, s))
  {
    hide Run, Apply;
  }

  lemma Approaches(u: Setup, s: System, m: Move)
    requires Sized(u.capacity) && Inv(u, s) && m in {ReceiverMoves, ProcessorMoves}
    ensures var t := Step(u, s, m);
            && Inv(u, t) && Distance(u, t) <= Distance(u, s)
            && (Distance(u, t) == Distance(u, s) ==>
                  if Waiting(s)
                  then t == s && (if m == ReceiverMoves then !ReceiverEnabled(u, s) else !ProcessorEnabled(s))
                  else !Waiting(t) && m == ProcessorMoves)
  {
    hide CreditOk, FifoOk, ControlOk, WakeOk, Distance, ReceiverStep, ProcessorStep;
    StepKeeps(u, s, m);
    if m == ReceiverMoves && ReceiverEnabled(u, s) {
      ReceiverApproaches(u, s);
    } else if m == ProcessorMoves && ProcessorEnabled(s) {
      ProcessorApproaches(u, s);
    }
  }

  /** No spurious wake-ups. */
  ghost predicate Sober(schedule: seq<Move>) {
    forall i :: 0 <= i < |schedule| ==> schedule[i] in {ReceiverMoves, ProcessorMoves}
  }

  lemma {:induction false} StretchApproaches(u: Setup, s: System, schedule: seq<Move>)
    requires Sized(u.capacity) && Inv(u, s) && Sober(schedule)
    ensures var t := Exec(u, s, schedule);
            && Inv(u, t) && Distance(u, t) <= Distance(u, s)
            && (Distance(u, t) == Distance(u, s) ==>
                  if Waiting(s)
                  then && t == s
                       && (ReceiverMoves in schedule ==> !ReceiverEnabled(u, s))
                       && (ProcessorMoves in schedule ==> !ProcessorEnabled(s))
                  else !Waiting(t) && ReceiverMoves !in schedule)
  {
    hide Inv, Distance, Waiting, Step, ReceiverEnabled, ProcessorEnabled;
    if schedule != [] {
      var init, m := schedule[..|schedule| - 1], schedule[|schedule| - 1];
      StretchApproaches(u, s, init);
      Approaches(u, Exec(u, s, init), m);
      assert schedule == init + [m];
    }
  }

  /** A stretch that offers both threads a move, with any spurious wake-ups in between. */
  ghost predicate Fair(schedule: seq<Move>) {
    ReceiverMoves in schedule && ProcessorMoves in schedule
  }

  /** A fair stretch brings the end nearer, unless it has been reached. */
  lemma FairStretch(u: Setup, s: System, schedule: seq<Move>)
    requires Sized(u.capacity) && Inv(u, s) && u.capacity > 0
    requires Sober(schedule) && Fair(schedule)
    ensures var t := Exec(u, s, schedule);
            Inv(u, t) && if Finished(u, s) then t == s else Distance(u, t) < Distance(u, s)
  {
    hide Inv, Distance, Finished;
    StretchApproaches(u, s, schedule);
    StuckMeansFinished(u, s);
    if Finished(u, s) {
      FinishedStays(u, s, schedule);
    }
  }

  lemma {:induction false} FinishedStays(u: Setup, s: System, schedule: seq<Move>)
    requires Stuck(u, s) && Sober(schedule)
    ensures Exec(u, s, schedule) == s
  {
    if schedule != [] {
      FinishedStays(u, s, schedule[..|schedule| - 1]);
    }
  }

  /** All the input has been processed and credited. No later step undoes it. */
  ghost predicate Complete(u: Setup, s: System) {
    s.done == u.input && s.size == 0
  }

  lemma FinishedIsComplete(u: Setup, s: System)
    requires Finished(u, s)
    ensures Complete(u, s)
  {
  }

  lemma CompleteStays(u: Setup, s: System, m: Move)
    requires Sized(u.capacity) && Inv(u, s) && Complete(u, s)
    ensures Complete(u, Step(u, s, m))
  {
    hide Run, Apply;
    assert |s.done + (s.consumer + (s.intermediate + s.producer))| == |u.input[..s.next]|;
  }

  lemma {:induction false} CompleteForEver(u: Setup, s: System, schedule: seq<Move>)
    requires Sized(u.capacity) && Inv(u, s) && Complete(u, s)
    ensures Complete(u, Exec(u, s, schedule))
  {
    hide Inv, Complete, Step;
    if schedule != [] {
      var init, m := schedule[..|schedule| - 1], schedule[|schedule| - 1];
      CompleteForEver(u, s, init);
      Always(u, s, init);
      CompleteStays(u, Exec(u, s, init), m);
    }
  }

  /** The number of spurious wake-ups. */
  function Wakes(schedule: seq<Move>): nat {
    if schedule == [] then 0
    else Wakes(schedule[..|schedule| - 1])
         + if schedule[|schedule| - 1] in {ReceiverWakes, ProcessorWakes} then 1 else 0
  }

  lemma {:induction false} WakesConcat(a: seq<Move>, b: seq<Move>)
    ensures Wakes(a + b) == Wakes(a) + Wakes(b)
  {
    if b == [] {
      assert a + b == a;
    } else {
      assert (a + b)[..|a + b| - 1] == a + b[..|b| - 1];
      WakesConcat(a, b[..|b| - 1]);
    }
  }

  lemma {:induction false} NoWakesIsSober(schedule: seq<Move>)
    requires Wakes(schedule) == 0
    ensures Sober(schedule)
  {
    if schedule != [] {
      var last := schedule[|schedule| - 1];
      NoWakesIsSober(schedule[..|schedule| - 1]);
      assert last.ReceiverMoves? || last.ProcessorMoves?;
    }
  }

  /** A spurious wake-up costs the woken thread one more look at its guard. */
  lemma WakeCosts(u: Setup, s: System, m: Move)
    requires Inv(u, s) && m in {ReceiverWakes, ProcessorWakes}
    ensures Distance(u, Step(u, s, m)) <= Distance(u, s) + 31
  {
    hide FifoOk;
  }

  lemma {:induction false} WakesCost(u: Setup, s: System, schedule: seq<Move>)
    requires Sized(u.capacity) && Inv(u, s)
    ensures Distance(u, Exec(u, s, schedule)) <= Distance(u, s) + 31 * Wakes(schedule)
  {
    hide Inv, Distance, Step, Waiting;
    if schedule != [] {
      var init, m := schedule[..|schedule| - 1], schedule[|schedule| - 1];
      WakesCost(u, s, init);
      Always(u, s, init);
      match m
      case ReceiverWakes => WakeCosts(u, Exec(u, s, init), m);
      case ProcessorWakes => WakeCosts(u, Exec(u, s, init), m);
      case _ => Approaches(u, Exec(u, s, init), m);
    }
  }

  lemma FairRound(u: Setup, s: System, round: seq<Move>)
    requires Sized(u.capacity) && Inv(u, s) && u.capacity > 0 && Fair(round)
    ensures var t := Exec(u, s, round);
            Inv(u, t) && (Complete(u, t) || Distance(u, t) <= Distance(u, s) - 1 + 32 * Wakes(round))
  {
    hide Inv, Distance, Finished, Complete, Exec;
    Always(u, s, round);
    if Wakes(round) == 0 {
      NoWakesIsSober(round);
      FairStretch(u, s, round);
      if Finished(u, s) {
        FinishedIsComplete(u, s);
      }
    } else {
      WakesCost(u, s, round);
    }
  }

  lemma {:induction false} FairRounds(u: Setup, s: System, rounds: seq<seq<Move>>)
    requires Sized(u.capacity) && Inv(u, s) && u.capacity > 0
    requires forall i :: 0 <= i < |rounds| ==> Fair(rounds[i])
    ensures var t := Exec(u, s, Flatten(rounds));
            && Inv(u, t)
            && (Complete(u, t) || Distance(u, t) <= Distance(u, s) - |rounds| + 32 * Wakes(Flatten(rounds)))
  {
    hide Inv, Distance, Complete, Fair;
    if rounds != [] {
      var init, last := rounds[..|rounds| - 1], rounds[|rounds| - 1];
      FairRounds(u, s, init);
      ExecConcat(u, s, Flatten(init), last);
      WakesConcat(Flatten(init), last);
      FairRound(u, Exec(u, s, Flatten(init)), last);
      if Complete(u, Exec(u, s, Flatten(init))) {
        CompleteForEver(u, Exec(u, s, Flatten(init)), last);
      }
    }
  }

  /** Fair schedules finish: from every reachable state, whatever led there, 224 rounds per
      message, 32 per spurious wake-up and 33 more, each offering both threads a move, process
      and credit the whole input. Without wake-ups both threads come to rest. */
  lemma FairSchedulesFinish(u: Setup, s: System, rounds: seq<seq<Move>>)
    requires Sized(u.capacity) && Inv(u, s) && u.capacity > 0
    requires forall i :: 0 <= i < |rounds| ==> Fair(rounds[i])
    requires |rounds| > 224 * |u.input| + 32 * Wakes(Flatten(rounds)) + 32
    ensures Complete(u, Exec(u, s, Flatten(rounds)))
    ensures Wakes(Flatten(rounds)) == 0 ==> Finished(u, Exec(u, s, Flatten(rounds)))
  {
    hide Exec, Fair, Finished, Complete, Inv, Distance;
    FairRounds(u, s, rounds);
    DistanceBound(u, s);
    DistanceBound(u, Exec(u, s, Flatten(rounds)));
    if Wakes(Flatten(rounds)) == 0 {
      SoberRounds(u, s, rounds);
    }
  }

  lemma {:induction false} SoberRounds(u: Setup, s: System, rounds: seq<seq<Move>>)
    requires Sized(u.capacity) && Inv(u, s) && u.capacity > 0
    requires (forall i :: 0 <= i < |rounds| ==> Fair(rounds[i])) && Wakes(Flatten(rounds)) == 0
    ensures var t := Exec(u, s, Flatten(rounds));
            Inv(u, t) && (Finished(u, t) || Distance(u, t) <= Distance(u, s) - |rounds|)
  {
    hide Inv, Distance, Finished, Fair;
    if rounds != [] {
      var init, last := rounds[..|rounds| - 1], rounds[|rounds| - 1];
      WakesConcat(Flatten(init), last);
      SoberRounds(u, s, init);
      ExecConcat(u, s, Flatten(init), last);
      NoWakesIsSober(last);
      FairStretch(u, Exec(u, s, Flatten(init)), last);
    }
  }

  lemma {:induction false} SoberTurns(rounds: seq<seq<Move>>)
    requires forall i :: 0 <= i < |rounds| ==> rounds[i] == [ReceiverMoves, ProcessorMoves]
    ensures Wakes(Flatten(rounds)) == 0
  {
    if rounds != [] {
      var turns := [ReceiverMoves, ProcessorMoves];
      SoberTurns(rounds[..|rounds| - 1]);
      WakesConcat(Flatten(rounds[..|rounds| - 1]), turns);
      assert turns[..1] == [ReceiverMoves] && [ReceiverMoves][..0] == [];
      assert Wakes([ReceiverMoves]) == 0;
    }
  }

  /** From every reachable state some schedule processes the whole input. */
  lemma CanFinish(u: Setup, s: System) returns (schedule: seq<Move>)
    requires Sized(u.capacity) && Inv(u, s) && u.capacity > 0
    ensures Finished(u, Exec(u, s, schedule))
  {
    var turns := [ReceiverMoves, ProcessorMoves];
    assert turns[0] == ReceiverMoves && turns[1] == ProcessorMoves;
    var rounds := seq(224 * |u.input| + 33, _ => turns);
    SoberTurns(rounds);
    FairSchedulesFinish(u, s, rounds);
    schedule := Flatten(rounds);
  }

  /** Fairness is needed: while only the processor is scheduled nothing is ever handed over. */
  lemma UnfairSchedulesNeedNot(u: Setup, n: nat)
    requires Sized(u.capacity) && u.input != []
    ensures !Finished(u, Exec(u, Start(u), seq(n, _ => ProcessorMoves)))
  {
    var schedule := seq(n, _ => ProcessorMoves);
    StaysAtStart(u, schedule);
  }

  lemma {:induction false} StaysAtStart(u: Setup, schedule: seq<Move>)
    requires forall i :: 0 <= i < |schedule| ==> schedule[i] == ProcessorMoves
    ensures Exec(u, Start(u), schedule).next == 0
  {
    if schedule != [] {
      StaysAtStart(u, schedule[..|schedule| - 1]);
    }
  }
}
