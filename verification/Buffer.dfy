/** The growable, NUL-terminated byte buffer behind the framer and the sender. */
module Buffer {
  import opened Messages

  class ClientData {
    var data: array<char>
    var len: nat
    var maxLen: nat
    const stepLen: nat

    /** Storage always has room for a terminator, and the terminator is in place. */
    ghost predicate Valid()
      reads this, data
    {
      len <= maxLen && data.Length == maxLen + 1 && data[len] == NUL
    }

    /** The bytes currently held, without the terminator. */
    ghost function Contents(): seq<char>
      reads this, data
      requires Valid()
    {
      data[..len]
    }

    constructor (initLen: nat, stepLen: nat)
      ensures Valid() && fresh(data) && Contents() == []
      ensures maxLen == initLen && this.stepLen == stepLen
    {
      data := new char[initLen + 1];
      len, maxLen := 0, initLen;
      this.stepLen := stepLen;
      new;
      data[0] := NUL;
    }

    method ResetData()
      requires Valid()
      modifies this`len, data
      ensures Valid() && Contents() == []
    {
      data[0] := NUL;
      len := 0;
    }

    /** Grows to the needed size plus one step when the new bytes do not fit. */
    method Append(bytes: seq<char>)
      requires Valid()
      modifies this`data, this`len, this`maxLen, data
      ensures Valid() && Contents() == old(Contents()) + bytes
      ensures data == old(data) || fresh(data)
      ensures maxLen == if old(len) + |bytes| > old(maxLen) then old(len) + |bytes| + stepLen else old(maxLen)
    {
      var total := len + |bytes|;
      if total > maxLen {
        maxLen := total + stepLen;
        var grown := new char[maxLen + 1];
        CopyPrefix(grown, data, len);
        CopyFrom(grown, len, bytes);
        len := total;
        data := grown;
      } else {
        CopyFrom(data, len, bytes);
        len := total;
      }
      data[len] := NUL;
    }

    /** Drops the first `n` bytes by moving the rest to the front. */
    method DeleteFromStart(n: nat)
      requires Valid() && n <= len
      modifies this`len, data
      ensures Valid() && Contents() == old(Contents())[n..]
    {
      MoveDown(data, n, len - n);
      len := len - n;
      data[len] := NUL;
    }
  }

  /** `memcpy(to, from, n)`. */
  method CopyPrefix(to: array<char>, from: array<char>, n: nat)
    requires n <= to.Length && n <= from.Length && to != from
    modifies to
    ensures to[..n] == from[..n]
    ensures to[n..] == old(to[n..])
  {
    forall i | 0 <= i < n {
      to[i] := from[i];
    }
  }

  /** `memcpy(to + at, bytes, |bytes|)`. */
  method CopyFrom(to: array<char>, at: nat, bytes: seq<char>)
    requires at + |bytes| <= to.Length
    modifies to
    ensures to[..at] == old(to[..at])
    ensures to[at..at + |bytes|] == bytes
    ensures to[at + |bytes|..] == old(to[at + |bytes|..])
  {
    forall i | 0 <= i < |bytes| {
      to[at + i] := bytes[i];
    }
  }

  /** `memmove(a, a + off, n)`. */
  method MoveDown(a: array<char>, off: nat, n: nat)
    requires off + n <= a.Length
    modifies a
    ensures a[..n] == old(a[off..off + n])
    ensures a[n..] == old(a[n..])
  {
    forall i | 0 <= i < n {
      a[i] := a[off + i];
    }
  }
}
