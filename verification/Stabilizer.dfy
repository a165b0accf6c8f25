/** The stabilizer as a state machine on values, and what every run of it keeps. */
module Stabilizer {
  import opened Messages
  import opened StableOrder

  datatype Config = Config(deliverySize: int, deleteThreshold: int)

  /** `log` remembers the labels whose values went through `deletedList`;
      `batches` are the batches written to the label receiver. */
  datatype State = State(heartbeat: map<int, nat>, storage: seq<Label>, deleted: seq<int>,
                         batches: seq<seq<int>>, log: seq<Label>, processed: int)

  function InitTable(n: int): (hb: map<int, nat>)
    ensures forall p :: p in hb <==> 1 <= p <= n
    ensures forall p :: p in hb ==> hb[p] == 0
  {
    if n <= 0 then map[] else InitTable(n - 1)[n := 0]
  }

  function Init(n: int): State {
    State(InitTable(n), [], [], [], [], 0)
  }

  // ---------------------------------------------------------------- stable time

  ghost predicate IsStable(hb: map<int, nat>, t: nat) {
    (exists p :: p in hb && hb[p] == t) && forall p :: p in hb ==> t <= hb[p]
  }

  ghost predicate HasPartition(hb: map<int, nat>) {
    exists p :: p in hb
  }

  lemma {:induction false} StableExists(hb: map<int, nat>)
    requires HasPartition(hb)
    ensures exists t :: IsStable(hb, t)
    decreases |hb|
  {
    var p :| p in hb;
    var rest := hb - {p};
    assert forall q :: q in hb ==> q == p || q in rest;
    if HasPartition(rest) {
      StableExists(rest);
      var t :| IsStable(rest, t);
      assert IsStable(hb, if hb[p] < t then hb[p] else t);
    } else {
      assert IsStable(hb, hb[p]);
    }
  }

  /** The table minimum, which `GetStableTimestamp` computes. */
  ghost function StableTime(hb: map<int, nat>): (t: nat)
    requires HasPartition(hb)
    ensures IsStable(hb, t)
  {
    StableExists(hb);
    var t :| IsStable(hb, t);
    t
  }

  lemma StableUnique(hb: map<int, nat>, t: nat)
    requires HasPartition(hb) && IsStable(hb, t)
    ensures t == StableTime(hb)
  {
  }

  // ---------------------------------------------------------------- one message

  /** Pops every stored label up to `t`, keeping its value for delivery. */
  ghost function Prune(s: State, t: nat): State {
    var k := UpperBound(s.storage, t);
    s.(storage := s.storage[k..], deleted := s.deleted + Values(s.storage[..k]),
       log := s.log + s.storage[..k], processed := s.processed + k)
  }

  /** Flushes `deletedList` once it is longer than the configured delivery size. */
  ghost function Deliver(c: Config, s: State): State {
    if |s.deleted| > c.deliverySize
    then s.(batches := s.batches + [s.deleted], deleted := [])
    else s
  }

  ghost function Report(c: Config, s: State): State {
    if s.processed >= c.deleteThreshold then s.(processed := 0) else s
  }

  ghost function Apply(c: Config, s: State, m: Message): State {
    var hb := s.heartbeat[m.partition := m.heartbeat];
    var s1 := s.(storage := InsertAll(s.storage, m.labels), heartbeat := hb);
    assert m.partition in hb;
    Report(c, Deliver(c, Prune(s1, StableTime(hb))))
  }

  ghost function Run(c: Config, s: State, ms: seq<Message>): State {
    if ms == [] then s else Apply(c, Run(c, s, ms[..|ms| - 1]), ms[|ms| - 1])
  }

  lemma RunSnoc(c: Config, s: State, ms: seq<Message>, m: Message)
    ensures Run(c, s, ms + [m]) == Apply(c, Run(c, s, ms), m)
  {
    assert (ms + [m])[..|ms|] == ms;
  }

  lemma {:induction false} RunConcat(c: Config, s: State, a: seq<Message>, b: seq<Message>)
    ensures Run(c, s, a + b) == Run(c, Run(c, s, a), b)
  {
    if b == [] {
      assert a + b == a;
    } else {
      assert (a + b)[..|a + b| - 1] == a + b[..|b| - 1];
      RunConcat(c, s, a, b[..|b| - 1]);
    }
  }

  // ------------------------------------------- conservation, batches and backlog

  lemma PruneSplits(s: State, t: nat)
    ensures Prune(s, t).log + Prune(s, t).storage == s.log + s.storage
  {
  }

  lemma ApplySplits(c: Config, s: State, m: Message)
    ensures var s' := Apply(c, s, m);
            s'.log + s'.storage == s.log + InsertAll(s.storage, m.labels) && s.log <= s'.log
  {
    var hb := s.heartbeat[m.partition := m.heartbeat];
    assert m.partition in hb;
    PruneSplits(s.(storage := InsertAll(s.storage, m.labels), heartbeat := hb), StableTime(hb));
  }

  /** No label is lost or duplicated, whatever the messages are. */
  lemma {:induction false} Conservation(c: Config, n: int, ms: seq<Message>)
    ensures var s := Run(c, Init(n), ms);
            multiset(AllLabels(ms)) == multiset(s.log) + multiset(s.storage)
  {
    if ms != [] {
      var init, m := ms[..|ms| - 1], ms[|ms| - 1];
      Conservation(c, n, init);
      var s, s' := Run(c, Init(n), init), Run(c, Init(n), ms);
      ApplySplits(c, s, m);
      InsertAllMultiset(s.storage, m.labels);
      assert multiset(s'.log + s'.storage) == multiset(s'.log) + multiset(s'.storage);
      assert multiset(s.log + InsertAll(s.storage, m.labels))
          == multiset(s.log) + (multiset(s.storage) + multiset(m.labels));
      assert multiset(AllLabels(ms)) == multiset(AllLabels(init)) + multiset(m.labels);
    }
  }

  /** The bytes on the wire followed by `deletedList` are the logged values in order. */
  ghost predicate Delivered(s: State) {
    Flatten(s.batches) + s.deleted == Values(s.log)
  }

  ghost predicate Backlog(c: Config, s: State) {
    && (forall i :: 0 <= i < |s.batches| ==> |s.batches[i]| > c.deliverySize)
    && (|s.deleted| <= c.deliverySize || s.deleted == [])
  }

  lemma DeliverKeeps(c: Config, s: State)
    requires Delivered(s)
    requires forall i :: 0 <= i < |s.batches| ==> |s.batches[i]| > c.deliverySize
    ensures Delivered(Deliver(c, s)) && Backlog(c, Deliver(c, s))
  {
    FlattenSnoc(s.batches, s.deleted);
  }

  lemma PruneDelivers(s: State, t: nat)
    requires Delivered(s)
    ensures Delivered(Prune(s, t))
  {
    var k := UpperBound(s.storage, t);
    ValuesConcat(s.log, s.storage[..k]);
    Assoc(Flatten(s.batches), s.deleted, Values(s.storage[..k]));
  }

  lemma ApplyDelivers(c: Config, s: State, m: Message)
    requires Delivered(s) && Backlog(c, s)
    ensures Delivered(Apply(c, s, m)) && Backlog(c, Apply(c, s, m))
  {
    var hb := s.heartbeat[m.partition := m.heartbeat];
    var s1 := s.(storage := InsertAll(s.storage, m.labels), heartbeat := hb);
    assert m.partition in hb;
    PruneDelivers(s1, StableTime(hb));
    DeliverKeeps(c, Prune(s1, StableTime(hb)));
  }

  /** For every run: batches and backlog account for exactly what was emitted. */
  lemma {:induction false} BatchesAreTheLog(c: Config, n: int, ms: seq<Message>)
    ensures var s := Run(c, Init(n), ms);
            Delivered(s) && Backlog(c, s)
  {
    if ms != [] {
      var init, m := ms[..|ms| - 1], ms[|ms| - 1];
      BatchesAreTheLog(c, n, init);
      ApplyDelivers(c, Run(c, Init(n), init), m);
    }
  }

  lemma PruneAdds(s: State, t: nat)
    ensures var p := Prune(s, t);
            && s.log <= p.log && p.batches == s.batches
            && p.deleted == s.deleted + Values(p.log[|s.log|..])
            && p.processed == s.processed + |p.log| - |s.log|
  {
    var k := UpperBound(s.storage, t);
    assert (s.log + s.storage[..k])[|s.log|..] == s.storage[..k];
  }

  /** What one more message of any run sends: if the pending values and the newly stable ones
      together exceed the delivery size, all of them, in one batch, so that nothing is pending;
      otherwise nothing. The report counter adds up and starts over at its threshold. */
  lemma FlushesWhole(c: Config, n: int, ms: seq<Message>, m: Message)
    ensures var s, s' := Run(c, Init(n), ms), Run(c, Init(n), ms + [m]);
            && s.log <= s'.log
            && var stable := Values(s'.log[|s.log|..]);
               var pending := s.deleted + stable;
               && (if |pending| > c.deliverySize
                   then s'.batches == s.batches + [pending] && s'.deleted == []
                   else s'.batches == s.batches && s'.deleted == pending)
               && var count := s.processed + |stable|;
                  s'.processed == if count >= c.deleteThreshold then 0 else count
  {
    hide Prune, InsertAll, StableTime, Values;
    RunSnoc(c, Init(n), ms, m);
    var s := Run(c, Init(n), ms);
    hide Run;
    var hb := s.heartbeat[m.partition := m.heartbeat];
    assert m.partition in hb;
    PruneAdds(s.(storage := InsertAll(s.storage, m.labels), heartbeat := hb), StableTime(hb));
  }

  /** The report counter never reaches a positive threshold between messages, and never
      exceeds the number of labels emitted. */
  lemma {:induction false} ReportCounter(c: Config, n: int, ms: seq<Message>)
    ensures var s := Run(c, Init(n), ms);
            0 <= s.processed <= |s.log| && (c.deleteThreshold > 0 ==> s.processed < c.deleteThreshold)
  {
    if ms != [] {
      ReportCounter(c, n, ms[..|ms| - 1]);
    }
  }

  // ------------------------------------------------------- order of the emission

  /** Message `m` brings no label below the last one already emitted. */
  ghost predicate Punctual(s: State, m: Message) {
    NotBelow(s.log, m.labels)
  }

  ghost predicate InOrder(s: State, ms: seq<Message>) {
    s.log + s.storage == Sort(AllLabels(ms))
  }

  ghost predicate OrderedAt(c: Config, n: int, ms: seq<Message>, k: nat)
    requires k <= |ms|
  {
    InOrder(Run(c, Init(n), ms[..k]), ms[..k])
  }

  ghost predicate PunctualAt(c: Config, n: int, ms: seq<Message>, k: nat)
    requires k < |ms|
  {
    Punctual(Run(c, Init(n), ms[..k]), ms[k])
  }

  ghost predicate PunctualRun(c: Config, n: int, ms: seq<Message>) {
    forall i :: 0 <= i < |ms| ==> PunctualAt(c, n, ms, i)
  }

  lemma StepOrder(c: Config, n: int, ms: seq<Message>, m: Message)
    requires InOrder(Run(c, Init(n), ms), ms)
    ensures InOrder(Run(c, Init(n), ms + [m]), ms + [m]) <==> Punctual(Run(c, Init(n), ms), m)
  {
    var s := Run(c, Init(n), ms);
    RunSnoc(c, Init(n), ms, m);
    ApplySplits(c, s, m);
    assert (ms + [m])[..|ms|] == ms;
    InsertBehindLog(s.log, s.storage, AllLabels(ms), m.labels);
  }

  lemma StorageSorted(c: Config, n: int, ms: seq<Message>)
    ensures Sorted(Run(c, Init(n), ms).storage)
  {
    if ms != [] {
      var s, m := Run(c, Init(n), ms[..|ms| - 1]), ms[|ms| - 1];
      StorageSorted(c, n, ms[..|ms| - 1]);
      InsertAllIsStable(s.storage, m.labels);
    }
  }

  /** Once emission is out of order, no later message repairs it. */
  lemma DisorderStays(c: Config, n: int, ms: seq<Message>, m: Message)
    requires !Sorted(Run(c, Init(n), ms).log + Run(c, Init(n), ms).storage)
    ensures !Sorted(Run(c, Init(n), ms + [m]).log + Run(c, Init(n), ms + [m]).storage)
  {
    var s := Run(c, Init(n), ms);
    RunSnoc(c, Init(n), ms, m);
    ApplySplits(c, s, m);
    StorageSorted(c, n, ms);
    InsertAllIsStable(s.storage, m.labels);
    SortedConcat(s.log, s.storage);
    SortedConcat(s.log, InsertAll(s.storage, m.labels));
    InsertAllMultiset(s.storage, m.labels);
    NotBelowMultiset(s.log, InsertAll(s.storage, m.labels), s.storage, m.labels);
  }

  lemma PunctualAtPrefix(c: Config, n: int, ms: seq<Message>, m: Message, i: nat)
    requires i <= |ms|
    ensures PunctualAt(c, n, ms + [m], i) <==>
              if i < |ms| then PunctualAt(c, n, ms, i) else Punctual(Run(c, Init(n), ms), m)
  {
    assert (ms + [m])[..i] == ms[..i];
    assert ms[..|ms|] == ms;
  }

  lemma PunctualSnoc(c: Config, n: int, ms: seq<Message>, m: Message)
    ensures PunctualRun(c, n, ms + [m]) <==> PunctualRun(c, n, ms) && Punctual(Run(c, Init(n), ms), m)
  {
    forall i: nat | i <= |ms|
      ensures PunctualAt(c, n, ms + [m], i) <==>
                if i < |ms| then PunctualAt(c, n, ms, i) else Punctual(Run(c, Init(n), ms), m)
    {
      PunctualAtPrefix(c, n, ms, m, i);
    }
    PunctualAtPrefix(c, n, ms, m, |ms|);
  }

  lemma StepSorted(c: Config, n: int, ms: seq<Message>, m: Message)
    requires Sorted(Run(c, Init(n), ms).log + Run(c, Init(n), ms).storage)
    ensures Sorted(Run(c, Init(n), ms + [m]).log + Run(c, Init(n), ms + [m]).storage)
            <==> Punctual(Run(c, Init(n), ms), m)
  {
    var s := Run(c, Init(n), ms);
    RunSnoc(c, Init(n), ms, m);
    ApplySplits(c, s, m);
    SortedConcat(s.log, s.storage);
    InsertAllIsStable(s.storage, m.labels);
    SortedConcat(s.log, InsertAll(s.storage, m.labels));
    InsertAllMultiset(s.storage, m.labels);
    NotBelowMultiset(s.log, InsertAll(s.storage, m.labels), s.storage, m.labels);
  }

  lemma {:induction false} SortedIffPunctual(c: Config, n: int, ms: seq<Message>)
    ensures Sorted(Run(c, Init(n), ms).log + Run(c, Init(n), ms).storage) <==> PunctualRun(c, n, ms)
  {
    if ms != [] {
      var init, m := ms[..|ms| - 1], ms[|ms| - 1];
      assert ms == init + [m];
      SortedIffPunctual(c, n, init);
      PunctualSnoc(c, n, init, m);
      if PunctualRun(c, n, init) {
        StepSorted(c, n, init, m);
      } else {
        DisorderStays(c, n, init, m);
      }
    }
  }

  lemma StepOrderAt(c: Config, n: int, ms: seq<Message>, k: nat)
    requires k < |ms| && OrderedAt(c, n, ms, k) && PunctualAt(c, n, ms, k)
    ensures OrderedAt(c, n, ms, k + 1)
  {
    assert ms[..k + 1] == ms[..k] + [ms[k]];
    StepOrder(c, n, ms[..k], ms[k]);
  }

  lemma {:induction false} PunctualIsInOrder(c: Config, n: int, ms: seq<Message>, k: nat)
    requires k <= |ms| && forall i :: 0 <= i < |ms| ==> PunctualAt(c, n, ms, i)
    ensures OrderedAt(c, n, ms, k)
  {
    if k > 0 {
      PunctualIsInOrder(c, n, ms, k - 1);
      StepOrderAt(c, n, ms, k - 1);
    }
  }

  /** What was emitted, followed by what is stored, is the stable sort of all labels
      received exactly when every message was punctual on arrival. */
  lemma OrderedIffPunctual(c: Config, n: int, ms: seq<Message>)
    ensures InOrder(Run(c, Init(n), ms), ms) <==> PunctualRun(c, n, ms)
  {
    SortedIffPunctual(c, n, ms);
    SortIsStableSort(AllLabels(ms));
    if PunctualRun(c, n, ms) {
      PunctualIsInOrder(c, n, ms, |ms|);
      assert ms[..|ms|] == ms;
    }
  }

  // ------------------------------------------------------- the Eunomia protocol

  /** The heartbeat table after a message sequence, starting from `n` zero entries. */
  function Table(n: int, ms: seq<Message>): map<int, nat> {
    if ms == [] then InitTable(n)
    else Table(n, ms[..|ms| - 1])[ms[|ms| - 1].partition := ms[|ms| - 1].heartbeat]
  }

  /** What partitions promise: known ids, heartbeats that never decrease,
      and new labels no older than the partition's previous heartbeat. */
  ghost predicate FollowsProtocol(hb: map<int, nat>, m: Message) {
    && m.partition in hb
    && hb[m.partition] <= m.heartbeat
    && forall i :: 0 <= i < |m.labels| ==> hb[m.partition] <= m.labels[i].ts
  }

  ghost predicate Protocol(n: int, ms: seq<Message>) {
    forall i :: 0 <= i < |ms| ==> FollowsProtocol(Table(n, ms[..i]), ms[i])
  }

  lemma {:induction false} RunTable(c: Config, n: int, ms: seq<Message>)
    ensures Run(c, Init(n), ms).heartbeat == Table(n, ms)
  {
    if ms != [] {
      RunTable(c, n, ms[..|ms| - 1]);
    }
  }

  lemma ProtocolPrefix(n: int, ms: seq<Message>, k: nat)
    requires Protocol(n, ms) && k <= |ms|
    ensures Protocol(n, ms[..k])
  {
    assert forall i :: 0 <= i < k ==> ms[..k][..i] == ms[..i] && ms[..k][i] == ms[i];
  }

  /** A partition that follows the protocol does not move the stable time back. */
  lemma StableTimeKeepsUp(hb: map<int, nat>, m: Message)
    requires FollowsProtocol(hb, m)
    ensures var hb' := hb[m.partition := m.heartbeat];
            m.partition in hb' && StableTime(hb) <= StableTime(hb')
  {
    var hb' := hb[m.partition := m.heartbeat];
    assert m.partition in hb';
    assert IsStable(hb', StableTime(hb'));
    var p :| p in hb' && hb'[p] == StableTime(hb');
    assert p in hb && hb[p] <= hb'[p];
  }

  lemma {:induction false} TableHasPartition(n: int, ms: seq<Message>)
    requires n >= 1
    ensures 1 in Table(n, ms) && HasPartition(Table(n, ms))
  {
    if ms != [] {
      TableHasPartition(n, ms[..|ms| - 1]);
    }
  }

  lemma {:induction false} TableMonotone(n: int, ms: seq<Message>, i: nat, j: nat)
    requires n >= 1 && Protocol(n, ms) && i <= j <= |ms|
    ensures HasPartition(Table(n, ms[..i])) && HasPartition(Table(n, ms[..j]))
    ensures StableTime(Table(n, ms[..i])) <= StableTime(Table(n, ms[..j]))
    decreases j
  {
    TableHasPartition(n, ms[..i]);
    TableHasPartition(n, ms[..j]);
    if i < j {
      assert FollowsProtocol(Table(n, ms[..j - 1]), ms[j - 1]);
      hide Protocol, FollowsProtocol;
      TableMonotone(n, ms, i, j - 1);
      StableTimeKeepsUp(Table(n, ms[..j - 1]), ms[j - 1]);
      assert ms[..j][..j - 1] == ms[..j - 1];
    }
  }

  /** Over any run that follows the protocol, the stable time never goes back. */
  lemma StableTimeMonotone(c: Config, n: int, ms: seq<Message>, i: nat, j: nat)
    requires n >= 1 && Protocol(n, ms) && i <= j <= |ms|
    ensures var a, b := Run(c, Init(n), ms[..i]).heartbeat, Run(c, Init(n), ms[..j]).heartbeat;
            HasPartition(a) && HasPartition(b) && StableTime(a) <= StableTime(b)
  {
    hide Run, Apply, Table, Protocol;
    RunTable(c, n, ms[..i]);
    RunTable(c, n, ms[..j]);
    TableMonotone(n, ms, i, j);
  }

  /** Nothing at or below the stable time stays stored, and, under the protocol,
      nothing above it has been emitted. */
  ghost predicate CutAt(s: State, t: nat) {
    && (forall i :: 0 <= i < |s.storage| ==> s.storage[i].ts > t)
    && (forall i :: 0 <= i < |s.log| ==> s.log[i].ts <= t)
  }

  lemma StoredAboveStable(c: Config, n: int, ms: seq<Message>)
    requires ms != []
    ensures var s := Run(c, Init(n), ms);
            HasPartition(s.heartbeat) &&
            forall i :: 0 <= i < |s.storage| ==> s.storage[i].ts > StableTime(s.heartbeat)
  {
    var s, m := Run(c, Init(n), ms[..|ms| - 1]), ms[|ms| - 1];
    StorageSorted(c, n, ms[..|ms| - 1]);
    InsertAllIsStable(s.storage, m.labels);
    var hb := s.heartbeat[m.partition := m.heartbeat];
    assert m.partition in hb;
    var store, t := InsertAll(s.storage, m.labels), StableTime(hb);
    AboveCut(store, t);
    var s' := Run(c, Init(n), ms);
    assert s'.heartbeat == hb && s'.storage == store[UpperBound(store, t)..];
  }

  lemma AboveCut(store: seq<Label>, t: nat)
    requires Sorted(store)
    ensures forall i :: UpperBound(store, t) <= i < |store| ==> store[i].ts > t
  {
    var k := UpperBound(store, t);
    assert forall i :: k < i < |store| ==> store[k].ts <= store[i].ts;
  }

  /** Progress: when every heartbeat has reached `t`, no label up to `t` is held back. */
  lemma NothingHeldBack(c: Config, n: int, ms: seq<Message>, t: nat)
    requires ms != []
    requires forall p :: p in Table(n, ms) ==> t <= Table(n, ms)[p]
    ensures forall i :: 0 <= i < |Run(c, Init(n), ms).storage| ==> Run(c, Init(n), ms).storage[i].ts > t
  {
    StoredAboveStable(c, n, ms);
    RunTable(c, n, ms);
  }

  lemma {:induction false} EmittedUpToStable(c: Config, n: int, ms: seq<Message>)
    requires Protocol(n, ms) && ms != []
    ensures var s := Run(c, Init(n), ms);
            HasPartition(s.heartbeat) && CutAt(s, StableTime(s.heartbeat))
  {
    hide InsertAll, Table;
    StoredAboveStable(c, n, ms);
    var init, m := ms[..|ms| - 1], ms[|ms| - 1];
    var s := Run(c, Init(n), init);
    RunTable(c, n, init);
    assert FollowsProtocol(Table(n, ms[..|init|]), ms[|init|]);
    StableTimeKeepsUp(s.heartbeat, m);
    if init != [] {
      ProtocolPrefix(n, ms, |init|);
      EmittedUpToStable(c, n, init);
    }
    var hb := s.heartbeat[m.partition := m.heartbeat];
    var store := InsertAll(s.storage, m.labels);
    var k := UpperBound(store, StableTime(hb));
    assert Run(c, Init(n), ms).log == s.log + store[..k];
  }

  lemma ProtocolIsPunctual(c: Config, n: int, ms: seq<Message>)
    requires Protocol(n, ms)
    ensures PunctualRun(c, n, ms)
  {
    forall i | 0 <= i < |ms|
      ensures PunctualAt(c, n, ms, i)
    {
      ProtocolPrefix(n, ms, i);
      RunTable(c, n, ms[..i]);
      if i > 0 {
        EmittedUpToStable(c, n, ms[..i]);
      }
    }
  }

  /** The main theorem: whatever has been sent or is about to be sent is the stable sort of
      all labels received, cut at the current stable time; the rest is still stored. */
  lemma EmissionIsStableSort(c: Config, n: int, ms: seq<Message>)
    requires Protocol(n, ms) && ms != []
    ensures HasPartition(Table(n, ms))
    ensures var s := Run(c, Init(n), ms);
            var sorted := Sort(AllLabels(ms));
            var k := UpperBound(sorted, StableTime(Table(n, ms)));
            && s.log == sorted[..k] && Sorted(s.log)
            && s.storage == sorted[k..]
            && Flatten(s.batches) + s.deleted == Values(sorted[..k])
  {
    var s := Run(c, Init(n), ms);
    ProtocolIsPunctual(c, n, ms);
    OrderedIffPunctual(c, n, ms);
    EmittedUpToStable(c, n, ms);
    RunTable(c, n, ms);
    BatchesAreTheLog(c, n, ms);
    var sorted, t := Sort(AllLabels(ms)), StableTime(Table(n, ms));
    CutPosition(s.log, s.storage, t);
    SortIsStableSort(AllLabels(ms));
    SortedConcat(s.log, s.storage);
    assert sorted == s.log + s.storage;
  }

  lemma CutPosition(log: seq<Label>, store: seq<Label>, t: nat)
    requires forall i :: 0 <= i < |store| ==> store[i].ts > t
    requires forall i :: 0 <= i < |log| ==> log[i].ts <= t
    ensures UpperBound(log + store, t) == |log|
  {
    var all := log + store;
    assert forall i :: 0 <= i < |log| ==> all[i].ts <= t;
    assert store != [] ==> all[|log|] == store[0];
  }
}
