/** Values shared by every component of the model: optional results, bytes and
    the two sequence operations (flattening chunks, projecting a tagged log)
    in which the stream theorems are stated. */
module Prelude {

  datatype Option<+T> = None | Some(value: T)

  newtype byte = x: int | 0 <= x < 256

  type Bytes = seq<byte>

  /** The concatenation of a sequence of chunks. */
  function Flat<T>(chunks: seq<seq<T>>): seq<T> {
    if chunks == [] then [] else chunks[0] + Flat(chunks[1..])
  }

  lemma {:induction false} FlatConcat<T>(a: seq<seq<T>>, b: seq<seq<T>>)
    ensures Flat(a + b) == Flat(a) + Flat(b)
  {
    if a == [] {
      assert a + b == b;
    } else {
      assert (a + b)[1..] == a[1..] + b;
      FlatConcat(a[1..], b);
    }
  }

  lemma FlatAppend<T>(a: seq<seq<T>>, c: seq<T>)
    ensures Flat(a + [c]) == Flat(a) + c
  {
    FlatConcat(a, [c]);
    assert Flat([c]) == c + Flat([c][1..]);
  }

  /** The entries of a tagged log that carry tag `i`, in order. */
  function Entries<I(==), T>(log: seq<(I, T)>, i: I): seq<T> {
    if log == [] then []
    else (if log[0].0 == i then [log[0].1] else []) + Entries(log[1..], i)
  }

  lemma {:induction false} EntriesConcat<I, T>(a: seq<(I, T)>, b: seq<(I, T)>, i: I)
    ensures Entries(a + b, i) == Entries(a, i) + Entries(b, i)
  {
    if a == [] {
      assert a + b == b;
    } else {
      assert (a + b)[1..] == a[1..] + b;
      EntriesConcat(a[1..], b, i);
    }
  }

  lemma EntriesAppend<I, T>(log: seq<(I, T)>, e: (I, T), i: I)
    ensures Entries(log + [e], i) == Entries(log, i) + (if e.0 == i then [e.1] else [])
  {
    EntriesConcat(log, [e], i);
    assert [e][1..] == [];
    assert Entries([e][1..], i) == [];
  }

  ghost predicate Distinct<T>(s: seq<T>) {
    forall p, q :: 0 <= p < q < |s| ==> s[p] != s[q]
  }
}
