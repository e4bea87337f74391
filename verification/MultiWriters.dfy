/** The dynamic multi-writer that fans the BMC output out to the additional
    sessions (secondstar/internal/multi.go). */
module MultiWriters {
  import opened Prelude

  /** What one writer answers to Write(p): the bytes it took and whether it
      returned an error. */
  datatype Outcome = Outcome(n: nat, err: bool)

  predicate Answers(outcomes: seq<Outcome>, count: nat, p: Bytes) {
    |outcomes| == count && forall k :: 0 <= k < count ==> outcomes[k].n <= |p|
  }

  /** A write stops at a writer that errs or takes fewer bytes than offered. */
  predicate Stops(o: Outcome, p: Bytes) {
    o.err || o.n < |p|
  }

  /** The position of the first writer at which the write stops. */
  function StopAt(outcomes: seq<Outcome>, p: Bytes): (k: nat)
    ensures k <= |outcomes|
  {
    if outcomes == [] || Stops(outcomes[0], p) then 0 else 1 + StopAt(outcomes[1..], p)
  }

  lemma {:induction false} StopAtIsFirst(outcomes: seq<Outcome>, p: Bytes)
    ensures var k := StopAt(outcomes, p);
      && (k < |outcomes| ==> outcomes[k].err || outcomes[k].n < |p|)
      && forall j :: 0 <= j < k ==> !outcomes[j].err && outcomes[j].n >= |p|
  {
    if outcomes != [] && !Stops(outcomes[0], p) {
      StopAtIsFirst(outcomes[1..], p);
      var k := StopAt(outcomes, p);
      forall j | 0 <= j < k ensures !outcomes[j].err && outcomes[j].n >= |p| {
        if j > 0 { assert outcomes[j] == outcomes[1..][j - 1]; }
      }
    }
  }

  /** The device log entries one Write adds: (writer, bytes it took), in order. */
  function Deliveries<W>(writers: seq<W>, outcomes: seq<Outcome>, p: Bytes): seq<(W, Bytes)>
    requires Answers(outcomes, |writers|, p)
  {
    if writers == [] then []
    else
      [(writers[0], p[..outcomes[0].n])]
      + if Stops(outcomes[0], p) then [] else Deliveries(writers[1..], outcomes[1..], p)
  }

  /** The first k writers have been served with the entries `sent`. */
  ghost predicate Served<W>(sent: seq<(W, Bytes)>, writers: seq<W>, outcomes: seq<Outcome>, p: Bytes, k: nat) {
    && Answers(outcomes, |writers|, p) && k <= |writers|
    && sent + Deliveries(writers[k..], outcomes[k..], p) == Deliveries(writers, outcomes, p)
    && k + StopAt(outcomes[k..], p) == StopAt(outcomes, p)
  }

  lemma ServeNext<W>(sent: seq<(W, Bytes)>, writers: seq<W>, outcomes: seq<Outcome>, p: Bytes, k: nat)
    requires Served(sent, writers, outcomes, p, k) && k < |writers|
    ensures var longer := sent + [(writers[k], p[..outcomes[k].n])];
      if Stops(outcomes[k], p) then longer == Deliveries(writers, outcomes, p) && StopAt(outcomes, p) == k
      else Served(longer, writers, outcomes, p, k + 1)
  {
    assert writers[k..][1..] == writers[k + 1..] && outcomes[k..][1..] == outcomes[k + 1..];
    var entry := (writers[k], p[..outcomes[k].n]);
    var rest := if Stops(outcomes[k], p) then [] else Deliveries(writers[k + 1..], outcomes[k + 1..], p);
    assert Deliveries(writers[k..], outcomes[k..], p) == [entry] + rest;
    assert sent + ([entry] + rest) == sent + [entry] + rest;
  }

  /** All bytes a writer has received. */
  function Received<W(==)>(log: seq<(W, Bytes)>, w: W): Bytes {
    if log == [] then []
    else (if log[0].0 == w then log[0].1 else []) + Received(log[1..], w)
  }

  lemma {:induction false} ReceivedConcat<W>(a: seq<(W, Bytes)>, b: seq<(W, Bytes)>, w: W)
    ensures Received(a + b, w) == Received(a, w) + Received(b, w)
  {
    if a == [] {
      assert a + b == b;
    } else {
      assert (a + b)[1..] == a[1..] + b;
      ReceivedConcat(a[1..], b, w);
    }
  }

  lemma ReceivedCons<W>(e: (W, Bytes), rest: seq<(W, Bytes)>, w: W)
    ensures Received([e] + rest, w) == (if e.0 == w then e.1 else []) + Received(rest, w)
  {
    assert ([e] + rest)[1..] == rest;
  }

  /** What a single write hands to a writer that is registered once at position
      k: everything before the stop, a prefix at it, nothing after it. */
  lemma {:induction false} DeliveredAt<W>(writers: seq<W>, outcomes: seq<Outcome>, p: Bytes, k: nat)
    requires Answers(outcomes, |writers|, p) && Distinct(writers) && k < |writers|
    ensures var stop := StopAt(outcomes, p);
      Received(Deliveries(writers, outcomes, p), writers[k])
      == if k < stop then p else if k == stop then p[..outcomes[k].n] else []
  {
    var rest := if Stops(outcomes[0], p) then [] else Deliveries(writers[1..], outcomes[1..], p);
    ReceivedCons((writers[0], p[..outcomes[0].n]), rest, writers[k]);
    if !Stops(outcomes[0], p) {
      if k == 0 {
        DeliveredElsewhere(writers[1..], outcomes[1..], p, writers[0]);
      } else {
        DeliveredAt(writers[1..], outcomes[1..], p, k - 1);
      }
    }
  }

  lemma {:induction false} DeliveredElsewhere<W>(writers: seq<W>, outcomes: seq<Outcome>, p: Bytes, w: W)
    requires Answers(outcomes, |writers|, p) && w !in writers
    ensures Received(Deliveries(writers, outcomes, p), w) == []
  {
    if writers != [] {
      var rest := if Stops(outcomes[0], p) then [] else Deliveries(writers[1..], outcomes[1..], p);
      ReceivedCons((writers[0], p[..outcomes[0].n]), rest, w);
      if !Stops(outcomes[0], p) { DeliveredElsewhere(writers[1..], outcomes[1..], p, w); }
    }
  }

  /** The list with every occurrence of w dropped. */
  function Without<W(==, !new)>(writers: seq<W>, w: W): (r: seq<W>)
    ensures w !in r
    ensures forall x :: x in r <==> x in writers && x != w
    ensures w !in writers ==> r == writers
  {
    if writers == [] then []
    else (if writers[0] == w then [] else [writers[0]]) + Without(writers[1..], w)
  }

  lemma {:induction false} WithoutAppend<W(!new)>(writers: seq<W>, x: W, w: W)
    ensures Without(writers + [x], w) == Without(writers, w) + (if x == w then [] else [x])
  {
    if writers == [] {
      assert writers + [x] == [x];
      assert Without([x][1..], w) == [];
    } else {
      assert (writers + [x])[1..] == writers[1..] + [x];
      WithoutAppend(writers[1..], x, w);
    }
  }

  /** Removal keeps the list duplicate free and keeps any order on it. */
  lemma {:induction false} WithoutOrder<W(!new)>(writers: seq<W>, w: W, rank: W -> int)
    requires Distinct(writers)
    requires forall p, q :: 0 <= p < q < |writers| ==> rank(writers[p]) <= rank(writers[q])
    ensures var r := Without(writers, w);
      Distinct(r) && forall p, q :: 0 <= p < q < |r| ==> rank(r[p]) <= rank(r[q])
  {
    if writers != [] {
      WithoutOrder(writers[1..], w, rank);
      var r := Without(writers[1..], w);
      forall q | 0 <= q < |r| ensures r[q] != writers[0] && rank(writers[0]) <= rank(r[q]) {
        assert r[q] in writers[1..];
        var k :| 0 <= k < |writers[1..]| && writers[1..][k] == r[q];
        assert writers[k + 1] == r[q];
      }
    }
  }

  /** One multi-writer; `log` records what reached the writers, in order. */
  class MultiWriter<W(==, !new)> {
    var writers: seq<W>
    var log: seq<(W, Bytes)>

    constructor (writers: seq<W>)
      ensures this.writers == writers && log == []
    {
      this.writers, log := writers, [];
    }

    /** `outcomes` is the environment: the answer each writer would give. */
    method Write(p: Bytes, outcomes: seq<Outcome>) returns (n: nat, ok: bool)
      requires Answers(outcomes, |writers|, p)
      modifies this`log
      ensures log == old(log) + Deliveries(writers, outcomes, p)
      ensures ok <==> forall k :: 0 <= k < |outcomes| ==> !outcomes[k].err && outcomes[k].n == |p|
      ensures StopAt(outcomes, p) < |writers| <==> !ok
      ensures n == if ok then |p| else outcomes[StopAt(outcomes, p)].n
    {
      StopAtIsFirst(outcomes, p);
      var targets := writers;
      ghost var sent: seq<(W, Bytes)> := [];
      for k := 0 to |targets|
        invariant log == old(log) + sent && Served(sent, targets, outcomes, p, k)
      {
        ServeNext(sent, targets, outcomes, p, k);
        var entry := (targets[k], p[..outcomes[k].n]);
        sent := sent + [entry];
        log := log + [entry];
        if Stops(outcomes[k], p) { return outcomes[k].n, false; }
      }
      return |p|, true;
    }

    method Add(w: W)
      modifies this`writers
      ensures writers == old(writers) + [w]
    {
      writers := writers + [w];
    }

    method Remove(w: W)
      modifies this`writers
      ensures writers == Without(old(writers), w)
    {
      var kept: seq<W> := [];
      var current := writers;
      for k := 0 to |current|
        invariant kept == Without(current[..k], w)
      {
        assert current[..k + 1] == current[..k] + [current[k]];
        WithoutAppend(current[..k], current[k], w);
        if current[k] != w { kept := kept + [current[k]]; }
      }
      assert current[..|current|] == current;
      writers := kept;
    }
  }
}
