/** The values that travel through the stabilizer: labels and the messages carrying them. */
module Messages {

  datatype Option<+T> = None | Some(value: T)

  /** The terminator of C strings. */
  const NUL: char := 0 as char

  /** Credit charged per queued packet by both threads (`SIZE_OF_EVENTPACKET`). */
  const PACKET: nat := 24

  /** A timestamped label (`Label`). The stabilizer only compares timestamps. */
  datatype Label = Label(ts: nat, value: int)

  /** One decoded frame (`ReceivedMessage`): a partition's heartbeat and its new labels. */
  datatype Message = Message(partition: int, heartbeat: nat, labels: seq<Label>)

  /** Every label of a message sequence, in arrival order. */
  function AllLabels(ms: seq<Message>): seq<Label> {
    if ms == [] then [] else AllLabels(ms[..|ms| - 1]) + ms[|ms| - 1].labels
  }

  /** The values alone, which is all that goes out on the wire. */
  function Values(s: seq<Label>): (r: seq<int>)
    ensures |r| == |s|
  {
    seq(|s|, i requires 0 <= i < |s| => s[i].value)
  }

  lemma ValuesConcat(a: seq<Label>, b: seq<Label>)
    ensures Values(a + b) == Values(a) + Values(b)
  {
  }

  function Flatten<T>(ss: seq<seq<T>>): seq<T> {
    if ss == [] then [] else Flatten(ss[..|ss| - 1]) + ss[|ss| - 1]
  }

  lemma FlattenSnoc<T>(ss: seq<seq<T>>, s: seq<T>)
    ensures Flatten(ss + [s]) == Flatten(ss) + s
  {
    assert (ss + [s])[..|ss|] == ss;
  }

  method Pick<T(==)>(s: set<T>) returns (x: T)
    requires s != {}
    ensures x in s
  {
    x :| x in s;
  }
}
