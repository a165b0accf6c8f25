/** Cutting a concatenation of strings at an arbitrary byte position. */
module Cuts {
  import opened Messages

  lemma {:induction false} FlattenConcat<T>(a: seq<seq<T>>, b: seq<seq<T>>)
    ensures Flatten(a + b) == Flatten(a) + Flatten(b)
  {
    if b == [] {
      assert a + b == a;
    } else {
      assert (a + b)[..|a + b| - 1] == a + b[..|b| - 1];
      FlattenConcat(a, b[..|b| - 1]);
    }
  }

  lemma FlattenSplit<T>(ss: seq<seq<T>>, i: nat, j: nat)
    requires i <= j <= |ss|
    ensures Flatten(ss[..j]) == Flatten(ss[..i]) + Flatten(ss[i..j])
  {
    assert ss[..j] == ss[..i] + ss[i..j];
    FlattenConcat(ss[..i], ss[i..j]);
  }

  lemma FlattenHead<T>(ss: seq<seq<T>>, i: nat, j: nat)
    requires i < j <= |ss|
    ensures Flatten(ss[i..j]) == ss[i] + Flatten(ss[i + 1..j])
  {
    assert ss[i..j] == [ss[i]] + ss[i + 1..j];
    FlattenConcat([ss[i]], ss[i + 1..j]);
    FlattenOne(ss[i]);
  }

  lemma FlattenOne<T>(s: seq<T>)
    ensures Flatten([s]) == s
  {
    assert [s][..0] == [];
    assert Flatten([s]) == [] + s;
  }

  ghost predicate NonEmpty(fs: seq<string>) {
    forall i :: 0 <= i < |fs| ==> fs[i] != ""
  }

  /** `rest` is what has arrived of the string after the first `j`, and is not all of it. */
  ghost predicate PartialAt(fs: seq<string>, j: nat, rest: string) {
    && j <= |fs|
    && if j == |fs| then rest == "" else rest <= fs[j] && |rest| < |fs[j]|
  }

  /** Any prefix of the concatenation splits into whole strings and a partial one. */
  lemma {:induction false} SplitPrefix(fs: seq<string>, s: string) returns (j: nat, rest: string)
    requires NonEmpty(fs) && s <= Flatten(fs)
    ensures PartialAt(fs, j, rest) && s == Flatten(fs[..j]) + rest
  {
    if fs == [] {
      j, rest := 0, "";
    } else {
      var init, last := fs[..|fs| - 1], fs[|fs| - 1];
      var n := |Flatten(init)|;
      if s == Flatten(fs) {
        j, rest := |fs|, "";
        assert fs[..j] == fs;
      } else if |s| < n {
        assert s <= Flatten(init);
        j, rest := SplitPrefix(init, s);
        assert fs[..j] == init[..j];
      } else {
        j, rest := |init|, s[n..];
        assert s[..n] == Flatten(init);
        assert Flatten(fs)[n..] == last;
        assert s[n..] == last[..|s| - n];
      }
    }
  }

  /** Receiving more bytes never moves the cut back. */
  lemma CutsAdvance(fs: seq<string>, i: nat, held: string, j: nat, rest: string)
    requires PartialAt(fs, i, held) && PartialAt(fs, j, rest)
    requires |Flatten(fs[..i]) + held| <= |Flatten(fs[..j]) + rest|
    ensures i <= j
  {
    if j < i {
      FlattenSplit(fs, j, i);
      FlattenHead(fs, j, i);
      assert false;
    }
  }

  lemma Cancel<T>(a: seq<T>, b: seq<T>, c: seq<T>)
    requires a + b == a + c
    ensures b == c
  {
    assert b == (a + b)[|a|..];
    assert c == (a + c)[|a|..];
  }

  /** The leftover is determined by the bytes received. */
  lemma SplitUnique(fs: seq<string>, i: nat, a: string, j: nat, b: string)
    requires PartialAt(fs, i, a) && PartialAt(fs, j, b)
    requires Flatten(fs[..i]) + a == Flatten(fs[..j]) + b
    ensures i == j && a == b
  {
    CutsAdvance(fs, i, a, j, b);
    CutsAdvance(fs, j, b, i, a);
    Cancel(Flatten(fs[..i]), a, b);
  }

  /** The bytes between two cuts are whole strings followed by the new partial one. */
  lemma Between(fs: seq<string>, i: nat, held: string, j: nat, rest: string, chunk: string)
    requires PartialAt(fs, i, held) && PartialAt(fs, j, rest)
    requires Flatten(fs[..i]) + held + chunk == Flatten(fs[..j]) + rest
    ensures i <= j && held + chunk == Flatten(fs[i..j]) + rest
  {
    CutsAdvance(fs, i, held, j, rest);
    FlattenSplit(fs, i, j);
    var a := Flatten(fs[..i]);
    assert a + held + chunk == a + (held + chunk);
    assert a + Flatten(fs[i..j]) + rest == a + (Flatten(fs[i..j]) + rest);
    Cancel(a, held + chunk, Flatten(fs[i..j]) + rest);
  }
}
