/** Why the operations of the store and of the multi-writer are single steps
    elsewhere (secondstar/internal/store.go:22-53, multi.go:31-67): their bodies
    take several steps on shared data, but under a readers-writer lock.  Here
    the steps of any number of threads interleave freely; the lock alone keeps
    every read-locked section on one value and every update unspoiled. */
module RwMutex {
  import opened Prelude

  type Tid = nat

  /** Where a thread is: outside, in a read-locked section with what it has
      observed of the data so far, or in a write-locked one, before or after
      loading the value it is about to change. */
  datatype Section<D> = Outside | Shared(seen: seq<D>) | Exclusive(loaded: Option<D>)

  /** `updates` records the changes in the order in which they were stored. */
  datatype World<!D> = World(data: D, updates: seq<D -> D>, threads: map<Tid, Section<D>>)

  datatype Step<!D> =
    | RLock(t: Tid) | Observe(t: Tid) | RUnlock(t: Tid)
    | Lock(t: Tid) | Load(t: Tid) | Store(t: Tid, change: D -> D) | Unlock(t: Tid)

  function At<D>(w: World<D>, t: Tid): Section<D> {
    if t in w.threads then w.threads[t] else Outside
  }

  function Moved<D>(w: World<D>, t: Tid, s: Section<D>): World<D> {
    w.(threads := w.threads[t := s])
  }

  /** The world after a step, or None while the lock or the thread does not
      permit it. */
  function Next<D>(w: World<D>, step: Step<D>): Option<World<D>> {
    var s := At(w, step.t);
    match step
    case RLock(t) =>
      if s.Outside? && forall u :: u in w.threads ==> !w.threads[u].Exclusive? then Some(Moved(w, t, Shared([])))
      else None
    case Observe(t) => if s.Shared? then Some(Moved(w, t, Shared(s.seen + [w.data]))) else None
    case RUnlock(t) => if s.Shared? then Some(Moved(w, t, Outside)) else None
    case Lock(t) =>
      if s.Outside? && forall u :: u in w.threads ==> w.threads[u].Outside? then Some(Moved(w, t, Exclusive(None)))
      else None
    case Load(t) => if s.Exclusive? then Some(Moved(w, t, Exclusive(Some(w.data)))) else None
    case Store(t, change) =>
      if s.Exclusive? && s.loaded.Some?
      then Some(Moved(w, t, Exclusive(None)).(data := change(s.loaded.value), updates := w.updates + [change]))
      else None
    case Unlock(t) => if s.Exclusive? then Some(Moved(w, t, Outside)) else None
  }

  function After<D>(w: World<D>, run: seq<Step<D>>): Option<World<D>>
    decreases |run|
  {
    if run == [] then Some(w)
    else match Next(w, run[0])
      case None => None
      case Some(w1) => After(w1, run[1..])
  }

  /** The value after a series of changes made one after the other. */
  function Fold<D>(init: D, updates: seq<D -> D>): D {
    if updates == [] then init else updates[|updates| - 1](Fold(init, updates[..|updates| - 1]))
  }

  function Begin<D>(init: D): World<D> { World(init, [], map[]) }

  ghost predicate SeesData<D>(s: Section<D>, data: D) {
    && (s.Shared? ==> forall k :: 0 <= k < |s.seen| ==> s.seen[k] == data)
    && (s.Exclusive? && s.loaded.Some? ==> s.loaded.value == data)
  }

  ghost predicate Alone<D>(w: World<D>, t: Tid) {
    At(w, t).Exclusive? ==> forall u :: u in w.threads && u != t ==> w.threads[u].Outside?
  }

  ghost predicate Guarded<D>(init: D, w: World<D>) {
    && w.data == Fold(init, w.updates)
    && (forall t :: t in w.threads ==> SeesData(w.threads[t], w.data))
    && (forall t :: t in w.threads ==> Alone(w, t))
  }

  lemma AloneStep<D>(w: World<D>, step: Step<D>, u: Tid)
    requires forall t :: t in w.threads ==> Alone(w, t)
    requires Next(w, step).Some?
    ensures Alone(Next(w, step).value, u)
  {
    assert u in w.threads ==> Alone(w, u);
    assert step.t in w.threads ==> Alone(w, step.t);
  }

  lemma SeesStep<D>(w: World<D>, step: Step<D>, u: Tid)
    requires forall t :: t in w.threads ==> SeesData(w.threads[t], w.data)
    requires forall t :: t in w.threads ==> Alone(w, t)
    requires Next(w, step).Some? && u in Next(w, step).value.threads
    ensures SeesData(Next(w, step).value.threads[u], Next(w, step).value.data)
  {
    assert u in w.threads ==> SeesData(w.threads[u], w.data);
    if step.Store? { assert Alone(w, step.t); }
  }

  lemma GuardedStep<D>(init: D, w: World<D>, step: Step<D>)
    requires Guarded(init, w) && Next(w, step).Some?
    ensures Guarded(init, Next(w, step).value)
  {
    var w' := Next(w, step).value;
    if step.Store? {
      assert w'.updates[..|w.updates|] == w.updates;
      assert SeesData(w.threads[step.t], w.data);
    }
    forall u | u in w'.threads ensures SeesData(w'.threads[u], w'.data) && Alone(w', u) {
      SeesStep(w, step, u);
      AloneStep(w, step, u);
    }
  }

  lemma {:induction false} GuardedRun<D>(init: D, w: World<D>, run: seq<Step<D>>)
    requires Guarded(init, w) && After(w, run).Some?
    ensures Guarded(init, After(w, run).value)
    decreases |run|
  {
    if run != [] {
      GuardedStep(init, w, run[0]);
      GuardedRun(init, Next(w, run[0]).value, run[1..]);
    }
  }

  /** In every interleaving no update is lost or applied to a stale value: the
      data is what the updates make of the initial value one after the other,
      although each of them loads and stores in separate steps. */
  lemma UpdatesAreSerial<D>(init: D, run: seq<Step<D>>)
    requires After(Begin(init), run).Some?
    ensures After(Begin(init), run).value.data == Fold(init, Stored(run))
  {
    GuardedRun(init, Begin(init), run);
    UpdatesAreStored(Begin(init), run);
    assert [] + Stored(run) == Stored(run);
  }

  /** The changes that the Store steps of a run make, in order. */
  function Stored<D>(run: seq<Step<D>>): seq<D -> D> {
    if run == [] then [] else (if run[0].Store? then [run[0].change] else []) + Stored(run[1..])
  }

  lemma {:induction false} UpdatesAreStored<D>(w: World<D>, run: seq<Step<D>>)
    requires After(w, run).Some?
    ensures After(w, run).value.updates == w.updates + Stored(run)
    decreases |run|
  {
    if run != [] {
      var w1 := Next(w, run[0]).value;
      UpdatesAreStored(w1, run[1..]);
      assert w1.updates == w.updates + if run[0].Store? then [run[0].change] else [];
    }
  }

  /** Nothing is refused without need: with nobody inside, a thread can do a whole
      update ... */
  lemma UpdateGoesThrough<D>(w: World<D>, t: Tid, change: D -> D)
    requires forall u :: u in w.threads ==> w.threads[u].Outside?
    ensures var w' := After(w, [Lock(t), Load(t), Store(t, change), Unlock(t)]);
      w'.Some? && w'.value.data == change(w.data) && At(w'.value, t).Outside?
  {
    var w1 := Next(w, Lock(t)).value;
    var w2 := Next(w1, Load(t)).value;
    var w3 := Next(w2, Store(t, change)).value;
    OneMore(w, Lock(t), [Load(t), Store(t, change), Unlock(t)]);
    OneMore(w1, Load(t), [Store(t, change), Unlock(t)]);
    OneMore(w2, Store(t, change), [Unlock(t)]);
    OneMore(w3, Unlock(t), []);
  }

  /** ... and a reader can enter and read among readers. */
  lemma ReadGoesThrough<D>(w: World<D>, t: Tid)
    requires At(w, t).Outside? && forall u :: u in w.threads ==> !w.threads[u].Exclusive?
    ensures var w' := After(w, [RLock(t), Observe(t)]); w'.Some? && At(w'.value, t) == Shared([w.data])
  {
    OneMore(w, RLock(t), [Observe(t)]);
    OneMore(Next(w, RLock(t)).value, Observe(t), []);
  }

  lemma OneMore<D>(w: World<D>, step: Step<D>, rest: seq<Step<D>>)
    requires Next(w, step).Some?
    ensures After(w, [step] + rest) == After(Next(w, step).value, rest)
    ensures forall run :: run == [step] + rest ==> After(w, run) == After(Next(w, step).value, rest)
  {
    assert ([step] + rest)[1..] == rest;
  }

  /** In every interleaving all that a read-locked section has observed is the
      present value. */
  lemma ReadersSeeOneValue<D>(init: D, run: seq<Step<D>>, t: Tid, k: nat)
    requires After(Begin(init), run).Some?
    requires var s := At(After(Begin(init), run).value, t); s.Shared? && k < |s.seen|
    ensures var w := After(Begin(init), run).value; At(w, t).seen[k] == w.data
  {
    GuardedRun(init, Begin(init), run);
    var w := After(Begin(init), run).value;
    assert SeesData(w.threads[t], w.data);
  }

  /** Between RLock and RUnlock of a thread nothing is updated, whatever the
      others do: a Write works on one list of writers from begin to end. */
  lemma {:induction false} ReadLockFreezes<D>(init: D, w: World<D>, run: seq<Step<D>>, t: Tid)
    requires Guarded(init, w) && At(w, t).Shared? && After(w, run).Some?
    requires forall k :: 0 <= k < |run| ==> run[k] != RUnlock(t)
    ensures var w' := After(w, run).value; At(w', t).Shared? && w'.data == w.data && w'.updates == w.updates
    decreases |run|
  {
    if run != [] {
      var w1 := Next(w, run[0]).value;
      assert run[0] != RUnlock(t);
      assert run[0].Store? ==> Alone(w, run[0].t);
      GuardedStep(init, w, run[0]);
      ReadLockFreezes(init, w1, run[1..], t);
    }
  }

  // ----- List: a copy made entry by entry under the read lock -----

  /** The copy after visiting the keys in order, the k-th of them in the map that
      was observed k-th. */
  function Copied<V>(seen: seq<map<string, V>>, keys: seq<string>): map<string, V>
    requires |seen| == |keys| && forall k :: 0 <= k < |keys| ==> keys[k] in seen[k]
  {
    if keys == [] then map[]
    else
      var n := |keys| - 1;
      Copied(seen[..n], keys[..n])[keys[n] := seen[n][keys[n]]]
  }

  lemma {:induction false} CopiedFromOne<V>(seen: seq<map<string, V>>, keys: seq<string>, data: map<string, V>)
    requires |seen| == |keys| && forall k :: 0 <= k < |keys| ==> seen[k] == data && keys[k] in data
    ensures Copied(seen, keys) == map key | key in keys :: data[key]
    decreases |keys|
  {
    if keys != [] {
      var n := |keys| - 1;
      CopiedFromOne(seen[..n], keys[..n], data);
      assert keys == keys[..n] + [keys[n]];
    }
  }

  /** In every interleaving: a List that visits every key of the map it is given
      returns exactly the present contents of the store, which by ReadLockFreezes
      are those at its RLock, however many updates wait meanwhile. */
  lemma ListIsASnapshot<V>(init: map<string, V>, run: seq<Step<map<string, V>>>, t: Tid, keys: seq<string>)
    requires After(Begin(init), run).Some?
    requires var w := After(Begin(init), run).value;
      && At(w, t).Shared? && |keys| == |At(w, t).seen|
      && forall key :: key in keys <==> key in w.data
    ensures var w := After(Begin(init), run).value;
      && (forall k :: 0 <= k < |keys| ==> keys[k] in At(w, t).seen[k])
      && Copied(At(w, t).seen, keys) == w.data
  {
    var w := After(Begin(init), run).value;
    forall k | 0 <= k < |keys| ensures At(w, t).seen[k] == w.data && keys[k] in w.data {
      ReadersSeeOneValue(init, run, t, k);
      assert keys[k] in keys;
    }
    CopiedFromOne(At(w, t).seen, keys, w.data);
  }
}
