/** Go's reference values: pointers, slices and maps.

    A pointer is a possibly null Cell, a slice a backing array with a length, a
    map a Cell that holds the mapping.  A value that holds such references is
    `In` a set R of objects when R contains everything reachable from it; its
    meaning, without identities, is then a function of the heap on R.  Nil is
    kept apart from empty. */
module GoHeap {
  import opened Prelude

  class Cell<T> {
    var v: T
    constructor (v: T)
      ensures this.v == v
    {
      this.v := v;
    }
  }

  datatype Slice<T> = Nil | Slice(arr: array<T>, len: nat)

  type MapOf<V> = Cell?<map<string, Slice<V>>>

  // ----- pointers to plain structs -----

  ghost function PtrObjects<T>(p: Cell?<T>): set<object> {
    if p == null then {} else {p}
  }

  ghost function PtrValue<T>(p: Cell?<T>): Option<T>
    reads p
  {
    if p == null then None else Some(p.v)
  }

  /** A pointer to a plain struct: nil stays nil, otherwise a new cell with the
      same contents. */
  method CopyPtr<T>(p: Cell?<T>) returns (q: Cell?<T>)
    ensures fresh(PtrObjects(q)) && PtrValue(q) == PtrValue(p)
  {
    q := null;
    if p != null { q := new Cell(p.v); }
  }

  // ----- slices of plain elements -----

  ghost function SliceObjects<T>(s: Slice<T>): set<object> {
    if s.Nil? then {} else {s.arr}
  }

  predicate SliceOk<T>(s: Slice<T>) {
    s.Slice? ==> s.len <= s.arr.Length
  }

  ghost function SliceValue<T>(s: Slice<T>): Option<seq<T>>
    requires SliceOk(s)
    reads SliceObjects(s)
  {
    if s.Nil? then None else Some(s.arr[..s.len])
  }

  /** A slice of plain elements: nil stays nil, otherwise a new array of the same
      length with the same elements. */
  method CopySlice<T(0)>(s: Slice<T>) returns (t: Slice<T>)
    requires SliceOk(s)
    ensures fresh(SliceObjects(t)) && SliceOk(t) && SliceValue(t) == SliceValue(s)
  {
    t := Nil;
    if s.Slice? {
      var arr := new T[s.len];
      for i := 0 to s.len
        invariant forall k :: 0 <= k < i ==> arr[k] == s.arr[k]
      {
        arr[i] := s.arr[i];
      }
      assert arr[..s.len] == s.arr[..s.len];
      t := Slice(arr, s.len);
    }
  }

  /** A new slice with the given elements. */
  method MakeSlice<T>(elements: seq<T>) returns (t: Slice<T>)
    ensures fresh(SliceObjects(t)) && t.Slice? && SliceOk(t) && t.arr[..t.len] == elements
  {
    var arr := new T[|elements|](i requires 0 <= i < |elements| => elements[i]);
    assert arr[..|elements|] == elements;
    t := Slice(arr, |elements|);
  }

  // ----- maps of slices -----

  ghost predicate EntriesIn<V>(m: map<string, Slice<V>>, R: set<object>) {
    forall k :: k in m ==> SliceOk(m[k]) && SliceObjects(m[k]) <= R
  }

  ghost function EntriesValue<V>(m: map<string, Slice<V>>, R: set<object>): map<string, Option<seq<V>>>
    requires EntriesIn(m, R)
    reads R
  {
    map k | k in m :: SliceValue(m[k])
  }

  ghost predicate MapIn<V>(m: MapOf<V>, R: set<object>)
    reads m
  {
    m != null ==> m in R && EntriesIn(m.v, R)
  }

  ghost function MapValue<V>(m: MapOf<V>, R: set<object>): Option<map<string, Option<seq<V>>>>
    requires MapIn(m, R)
    reads m, R
  {
    if m == null then None else Some(EntriesValue(m.v, R))
  }

  /** The loop over the entries of a map of slices. */
  method CopyEntries<V(0)>(m: map<string, Slice<V>>, ghost R: set<object>)
    returns (n: map<string, Slice<V>>, ghost S: set<object>)
    requires EntriesIn(m, R)
    ensures fresh(S) && EntriesIn(n, S) && EntriesValue(n, S) == EntriesValue(m, R)
  {
    n, S := map[], {};
    var todo := m.Keys;
    while todo != {}
      invariant todo <= m.Keys && n.Keys == m.Keys - todo
      invariant fresh(S) && EntriesIn(n, S)
      invariant forall k :: k in n ==> SliceValue(n[k]) == SliceValue(m[k])
      decreases todo
    {
      var key :| key in todo;
      var val := CopySlice(m[key]);
      n := n[key := val];
      todo := todo - {key};
      S := S + SliceObjects(val);
    }
  }

  method CopyMap<V(0)>(m: MapOf<V>, ghost R: set<object>) returns (n: MapOf<V>, ghost S: set<object>)
    requires MapIn(m, R)
    ensures fresh(S) && MapIn(n, S) && MapValue(n, S) == MapValue(m, R)
  {
    n, S := null, {};
    if m != null {
      var out;
      ghost var A;
      out, A := CopyEntries(m.v, R);
      n := new Cell(out);
      S := A + {n};
      assert EntriesValue(out, S) == EntriesValue(out, A);
    }
  }
}
