/** Who owns the store entry.  The handler looks the user up at
    secondstar/internal/handler.go:39 and publishes a State only at 103, so two
    sessions of one user can both become initial sessions.  This module proves
    what holds when that does not happen, shows that it fails whenever it does,
    and settles when a deleted State can still gain a writer. */
module SessionDispatch {
  import opened Prelude
  import opened SessionWorld
  import opened SessionCounts
  import opened SessionHistory
  import opened SessionSignals

  /** An initial session between its failed lookup and its Delete. */
  predicate InFlight(pc: Pc) {
    pc.Missed? || Serving(pc)
  }

  /** A lookup misses only while no other initial session of the user is in flight. */
  ghost predicate ExclusiveStep(w: World, a: Action) {
    a.Dispatch? && a.i in w.sessions && w.sessions[a.i].user !in w.store ==>
      forall j :: j in w.sessions && w.sessions[j].user == w.sessions[a.i].user ==> !InFlight(w.sessions[j].pc)
  }

  ghost predicate ExclusiveRun(w: World, run: seq<Action>)
    decreases |run|
  {
    run == [] || (ExclusiveStep(w, run[0]) && Next(w, run[0]).Some? && ExclusiveRun(Next(w, run[0]).value, run[1..]))
  }

  /** Everything an initial session has read from the store is its own State. */
  predicate ReadsOwn(store: map<User, Sid>, i: Sid, s: Session) {
    && (Serving(s.pc) ==> s.user in store && store[s.user] == i)
    && (s.pc.Fetched? ==> s.pc.found == Some(i))
    && (s.pc.Checked? ==> s.pc.v == i)
    && (s.pc.Sending? ==> s.pc.v == i && s.pc.c == i)
    && (s.pc.Waiting? ==> s.pc.target == Some(i))
    && !s.pc.Panicked?
    && (s.signalled.Some? ==> s.signalled.value == i)
  }

  predicate Rivals(s: Session, t: Session) {
    InFlight(s.pc) && InFlight(t.pc) && s.user == t.user
  }

  ghost predicate Owned(w: World) {
    && (forall i :: i in w.sessions ==> ReadsOwn(w.store, i, w.sessions[i]))
    && (forall u :: u in w.store ==>
          && w.store[u] in w.sessions && w.sessions[w.store[u]].user == u
          && Serving(w.sessions[w.store[u]].pc))
    && (forall i, j :: i in w.sessions && j in w.sessions && Rivals(w.sessions[i], w.sessions[j]) ==> i == j)
  }

  /** A change of one session that leaves the store alone and does not make it a
      new initial session in flight. */
  lemma OwnedUpdate(w: World, w': World, i: Sid, s: Session)
    requires Owned(w) && w'.sessions == w.sessions[i := s] && w'.store == w.store
    requires ReadsOwn(w.store, i, s)
    requires i in w.sessions ==>
      && s.user == w.sessions[i].user
      && (InFlight(s.pc) ==> InFlight(w.sessions[i].pc))
      && Serving(s.pc) == Serving(w.sessions[i].pc)
    requires i !in w.sessions ==> !InFlight(s.pc)
    ensures Owned(w')
  {
    forall j | j in w'.sessions ensures ReadsOwn(w'.store, j, w'.sessions[j]) {
      assert j != i ==> ReadsOwn(w.store, j, w.sessions[j]);
    }
  }

  lemma MainReads(w: World, i: Sid, s: Session, step: MainStep)
    requires ReadsOwn(w.store, i, s) && MainPc(w, s, step).Some?
    ensures var pc := MainPc(w, s, step).value;
      && ReadsOwn(MainEffect(w, i, s, step, pc).store, i, s.(pc := pc))
      && InFlight(s.pc)
      && (!step.Publish? && !step.Unpublish? ==> Serving(pc) == Serving(s.pc))
  {
  }

  lemma OwnedPublish(w: World, i: Sid)
    requires Owned(w) && Next(w, Main(i, Publish)).Some?
    ensures Owned(Next(w, Main(i, Publish)).value)
  {
    var s := w.sessions[i];
    var w' := Next(w, Main(i, Publish)).value;
    assert ReadsOwn(w.store, i, s);
    forall j | j in w'.sessions ensures ReadsOwn(w'.store, j, w'.sessions[j]) {
      if j != i {
        assert ReadsOwn(w.store, j, w.sessions[j]);
        assert !Rivals(s, w.sessions[j]);
      }
    }
  }

  lemma OwnedUnpublish(w: World, i: Sid)
    requires Owned(w) && Next(w, Main(i, Unpublish)).Some?
    ensures Owned(Next(w, Main(i, Unpublish)).value)
  {
    var s := w.sessions[i];
    var w' := Next(w, Main(i, Unpublish)).value;
    assert ReadsOwn(w.store, i, s);
    forall j | j in w'.sessions ensures ReadsOwn(w'.store, j, w'.sessions[j]) {
      if j != i { assert ReadsOwn(w.store, j, w.sessions[j]); }
    }
  }

  lemma OwnedMain(w: World, i: Sid, step: MainStep)
    requires Owned(w) && Next(w, Main(i, step)).Some?
    ensures Owned(Next(w, Main(i, step)).value)
  {
    var s := w.sessions[i];
    if step.Publish? {
      OwnedPublish(w, i);
    } else if step.Unpublish? {
      OwnedUnpublish(w, i);
    } else {
      assert ReadsOwn(w.store, i, s);
      MainReads(w, i, s, step);
      var pc := MainPc(w, s, step).value;
      OwnedUpdate(w, MainEffect(w, i, s, step, pc), i, s.(pc := pc));
    }
  }

  lemma ExtraReads(store: map<User, Sid>, i: Sid, s: Session, sh: Shared, step: ExtraStep)
    requires ReadsOwn(store, i, s) && ExtraNext(i, s, sh, step).Some?
    ensures var (s', sh') := ExtraNext(i, s, sh, step).value;
      ReadsOwn(store, i, s') && s'.user == s.user && !InFlight(s'.pc) && !InFlight(s.pc)
  {
  }

  lemma OwnedExtra(w: World, i: Sid, step: ExtraStep)
    requires Owned(w) && Next(w, Extra(i, step)).Some?
    ensures Owned(Next(w, Extra(i, step)).value)
  {
    var s := w.sessions[i];
    var r := ExtraNext(i, s, w.shared[s.on], step).value;
    assert ReadsOwn(w.store, i, s);
    ExtraReads(w.store, i, s, w.shared[s.on], step);
    OwnedUpdate(w, Put(w, i, r), i, r.0);
  }

  lemma OwnedStream(w: World, i: Sid, step: StreamStep)
    requires Owned(w) && Next(w, Stream(i, step)).Some?
    ensures Owned(Next(w, Stream(i, step)).value)
  {
    var s := w.sessions[i];
    var r := StreamNext(i, s, w.shared[s.on], step).value;
    assert ReadsOwn(w.store, i, s);
    OwnedUpdate(w, Put(w, i, r), i, r.0);
  }

  lemma OwnedSignal(w: World, i: Sid, j: Sid)
    requires Owned(w) && Next(w, Signal(i, j)).Some?
    ensures Owned(Next(w, Signal(i, j)).value)
  {
    var w' := Next(w, Signal(i, j)).value;
    var mid := w.(sessions := w.sessions[i := w'.sessions[i]]);
    assert ReadsOwn(w.store, i, w.sessions[i]) && ReadsOwn(w.store, j, w.sessions[j]);
    OwnedUpdate(w, mid, i, w'.sessions[i]);
    OwnedUpdate(mid, w', j, w'.sessions[j]);
  }

  lemma OwnedMiss(w: World, i: Sid)
    requires Owned(w) && i in w.sessions && w.sessions[i].pc == Connected && w.sessions[i].user !in w.store
    requires ExclusiveStep(w, Dispatch(i))
    ensures Owned(Moved(w, i, Missed))
  {
    var w' := Moved(w, i, Missed);
    forall j | j in w'.sessions ensures ReadsOwn(w'.store, j, w'.sessions[j]) {
      assert ReadsOwn(w.store, j, w.sessions[j]);
    }
  }

  lemma OwnedArrival(w: World, a: Action)
    requires Owned(w) && (a.Connect? || a.Dispatch?) && ExclusiveStep(w, a) && Next(w, a).Some?
    ensures Owned(Next(w, a).value)
  {
    var w' := Next(w, a).value;
    assert a.i in w.sessions ==> ReadsOwn(w.store, a.i, w.sessions[a.i]);
    if a.Dispatch? && w.sessions[a.i].user !in w.store {
      OwnedMiss(w, a.i);
    } else {
      OwnedUpdate(w, w', a.i, w'.sessions[a.i]);
    }
  }

  lemma OwnedStep(w: World, a: Action)
    requires Owned(w) && ExclusiveStep(w, a) && Next(w, a).Some?
    ensures Owned(Next(w, a).value)
  {
    match a
    case Main(i, step) => OwnedMain(w, i, step);
    case Extra(i, step) => OwnedExtra(w, i, step);
    case Stream(i, step) => OwnedStream(w, i, step);
    case Signal(i, j) => OwnedSignal(w, i, j);
    case _ => OwnedArrival(w, a);
  }

  lemma {:induction false} OwnedRun(w: World, run: seq<Action>)
    requires Owned(w) && ExclusiveRun(w, run)
    ensures After(w, run).Some? && Owned(After(w, run).value)
    decreases |run|
  {
    if run != [] {
      OwnedStep(w, run[0]);
      OwnedRun(Next(w, run[0]).value, run[1..]);
    }
  }

  /** Over every run with exclusive dispatch: the State an initial session waits
      for, signals on and deletes is its own, Wait is never called on a missing
      State, and each State is signalled at most once, reaching at most one
      additional session. */
  lemma ExclusiveDispatch(run: seq<Action>)
    requires ExclusiveRun(START, run)
    ensures After(START, run).Some?
    ensures var w := After(START, run).value;
      && AllReadOwn(w)
      && (forall st :: st in w.shared ==> w.shared[st].signals <= 1 && |Signalled(w.sessions, st)| <= 1)
  {
    OwnedRun(START, run);
    SignalsRun(START, run);
    var w := After(START, run).value;
    forall st | st in w.shared ensures w.shared[st].signals <= 1 && |Signalled(w.sessions, st)| <= 1 {
      AtMostOne(w, st);
    }
  }

  /** Over every run with exclusive dispatch: once the signal on a State has
      reached session j, every other additional session past its select left it
      through its own context or its own escape. */
  lemma OthersLeaveByThemselves(run: seq<Action>, st: Sid, j: Sid, k: Sid)
    requires ExclusiveRun(START, run) && After(START, run).Some?
    requires var w := After(START, run).value;
      && st in w.shared && j in Signalled(w.sessions, st)
      && k in w.sessions && k != j && k != st && w.sessions[k].on == st
      && OnceRegistered(w.sessions[k].pc) && w.sessions[k].pc != Attached
    ensures var left := Told(run, k).left;
      left == [ContextDone] || left == [EscapeTyped]
  {
    ExclusiveDispatch(run);
    SignalsRun(START, run);
    var w := After(START, run).value;
    AtMostOneElement(Signalled(w.sessions, st), j, k);
    RecordsAreTheRun(run, k);
    OneWayOut(k, w.sessions[k]);
  }

  lemma AtMostOneElement(s: set<Sid>, x: Sid, y: Sid)
    requires |s| <= 1 && x in s && x != y
    ensures y !in s
  {
    var rest := s - {x};
    assert |rest| == 0;
    assert y !in rest;
  }

  lemma OneWayOut(k: Sid, s: Session)
    requires HistoryFits(k, s) && s.on != k && OnceRegistered(s.pc) && s.pc != Attached && InitialClosed !in s.left
    ensures s.left == [ContextDone] || s.left == [EscapeTyped]
  {
    var reason := s.left[0];
    assert reason in s.left;
    assert reason == ContextDone || reason == EscapeTyped;
    assert s.left == [reason];
  }

  lemma AtMostOne(w: World, st: Sid)
    requires Owned(w) && Signals(w) && st in w.shared
    ensures w.shared[st].signals <= 1
  {
    assert SignalsAt(w.sessions, st, w.shared[st].signals);
    forall i | i in Senders(w.sessions, st) ensures i == st { assert ReadsOwn(w.store, i, w.sessions[i]); }
    assert Senders(w.sessions, st) <= {st};
    SubsetOfSingleton(Senders(w.sessions, st), st);
  }

  lemma SubsetOfSingleton(s: set<Sid>, x: Sid)
    requires s <= {x}
    ensures |s| <= 1
  {
    if x in s { assert s == {x}; } else { assert s == {}; }
  }

  // ----- the converse: overlapping initial sessions lose their State -----

  predicate BeforeFetch(pc: Pc) {
    pc.Missed? || pc.Running? || pc.Exited?
  }

  /** The steps that bring an initial session to its Get at line 170. */
  function ToExited(i: Sid, pc: Pc): seq<Action>
    requires BeforeFetch(pc)
  {
    if pc.Missed? then [Main(i, Publish), Main(i, CommandExits)]
    else if pc.Running? then [Main(i, CommandExits)]
    else []
  }

  lemma ReachExited(w: World, i: Sid)
    requires i in w.sessions && BeforeFetch(w.sessions[i].pc)
    ensures var w' := After(w, ToExited(i, w.sessions[i].pc));
      && w'.Some?
      && w'.value.sessions == w.sessions[i := w.sessions[i].(pc := Exited)]
      && w'.value.store == (if w.sessions[i].pc.Missed? then w.store[w.sessions[i].user := i] else w.store)
  {
    var run := ToExited(i, w.sessions[i].pc);
    if w.sessions[i].pc.Missed? {
      var w1 := Next(w, run[0]).value;
      assert run[1..] == [Main(i, CommandExits)];
      assert After(w1, run[1..]) == After(Next(w1, run[1]).value, run[1..][1..]);
    } else if w.sessions[i].pc.Running? {
      assert After(w, run) == After(Next(w, run[0]).value, run[1..]);
    }
  }

  lemma FetchAt(w: World, i: Sid)
    requires i in w.sessions && w.sessions[i].pc == Exited
    ensures After(w, [Main(i, Fetch)]).Some?
    ensures After(w, [Main(i, Fetch)]).value == Moved(w, i, Fetched(Lookup(w, w.sessions[i].user)))
  {
    assert [Main(i, Fetch)][1..] == [];
    assert After(Next(w, Main(i, Fetch)).value, []) == Next(w, Main(i, Fetch));
  }

  /** Whenever two initial sessions of one user are in flight before their Get,
      some continuation makes one of them fetch something else than its own
      State. */
  lemma OverlapLosesTheState(w: World, i: Sid, j: Sid) returns (run: seq<Action>, victim: Sid)
    requires i in w.sessions && j in w.sessions && i != j && w.sessions[i].user == w.sessions[j].user
    requires BeforeFetch(w.sessions[i].pc) && BeforeFetch(w.sessions[j].pc)
    ensures (victim == i || victim == j) && After(w, run).Some? && OnlyMain(run)
    ensures var w' := After(w, run).value;
      victim in w'.sessions && w'.sessions[victim].pc.Fetched? && w'.sessions[victim].pc.found != Some(victim)
  {
    // The other session publishes after the victim, or the store already names at most one of them.
    var u := w.sessions[i].user;
    victim := if w.sessions[j].pc.Missed? then i else if w.sessions[i].pc.Missed? then j
              else if Lookup(w, u) == Some(i) then j else i;
    var other := if victim == i then j else i;
    var r1 := ToExited(victim, w.sessions[victim].pc);
    ReachExited(w, victim);
    var w1 := After(w, r1).value;
    var r2 := if w1.sessions[other].pc.Missed? then ToExited(other, w1.sessions[other].pc) else [];
    if w1.sessions[other].pc.Missed? { ReachExited(w1, other); }
    var w2 := After(w1, r2).value;
    FetchAt(w2, victim);
    AfterConcat(w1, r2, [Main(victim, Fetch)]);
    AfterConcat(w, r1, r2 + [Main(victim, Fetch)]);
    run := r1 + (r2 + [Main(victim, Fetch)]);
  }

  predicate OnlyMain(run: seq<Action>) {
    forall k :: 0 <= k < |run| ==> run[k].Main?
  }

  lemma {:induction false} MainRunIsExclusive(w: World, run: seq<Action>)
    requires OnlyMain(run) && After(w, run).Some?
    ensures ExclusiveRun(w, run)
    decreases |run|
  {
    if run != [] {
      assert run[0].Main?;
      MainRunIsExclusive(Next(w, run[0]).value, run[1..]);
    }
  }

  ghost predicate AllReadOwn(w: World) {
    forall i :: i in w.sessions ==> ReadsOwn(w.store, i, w.sessions[i])
  }

  /** A lookup that overlaps with another initial session of the user has a
      continuation, without any further lookup, in which one of them reads
      something else than its own State. */
  lemma OverlapBreaks(w: World, a: Action) returns (more: seq<Action>)
    requires Owned(w) && Next(w, a).Some? && !ExclusiveStep(w, a)
    ensures var w1 := Next(w, a).value;
      ExclusiveRun(w1, more) && After(w1, more).Some? && !AllReadOwn(After(w1, more).value)
  {
    var w1 := Next(w, a).value;
    var j :| j in w.sessions && w.sessions[j].user == w.sessions[a.i].user && InFlight(w.sessions[j].pc);
    assert w.sessions[j].pc.Missed? by { assert ReadsOwn(w.store, j, w.sessions[j]); }
    var victim;
    more, victim := OverlapLosesTheState(w1, a.i, j);
    MainRunIsExclusive(w1, more);
    var w2 := After(w1, more).value;
    assert !ReadsOwn(w2.store, victim, w2.sessions[victim]);
  }

  /** The exact condition: after any run with exclusive dispatch, a step keeps it
      exclusive if and only if, however the sessions go on without overlapping
      lookups, every initial session reads its own State only. */
  lemma ExclusiveIff(run: seq<Action>, a: Action)
    requires ExclusiveRun(START, run) && After(START, run).Some? && Next(After(START, run).value, a).Some?
    ensures var w := After(START, run).value;
      var w1 := Next(w, a).value;
      ExclusiveStep(w, a) <==>
      forall more: seq<Action> :: ExclusiveRun(w1, more) ==> After(w1, more).Some? && AllReadOwn(After(w1, more).value)
  {
    var w := After(START, run).value;
    OwnedRun(START, run);
    ExclusiveFrom(w, a);
  }

  lemma ExclusiveFrom(w: World, a: Action)
    requires Owned(w) && Next(w, a).Some?
    ensures var w1 := Next(w, a).value;
      ExclusiveStep(w, a) <==>
      forall more: seq<Action> :: ExclusiveRun(w1, more) ==> After(w1, more).Some? && AllReadOwn(After(w1, more).value)
  {
    var w1 := Next(w, a).value;
    if ExclusiveStep(w, a) {
      OwnedStep(w, a);
      forall more: seq<Action> | ExclusiveRun(w1, more)
        ensures After(w1, more).Some? && AllReadOwn(After(w1, more).value) {
        OwnedRun(w1, more);
      }
    } else {
      var more := OverlapBreaks(w, a);
      assert ExclusiveRun(w1, more) && !AllReadOwn(After(w1, more).value);
    }
  }

  // ----- the life of a State after its Delete -----

  /** A session that looked the State up but is not yet in its wait group. */
  predicate Undecided(s: Session, st: Sid) {
    s.on == st && (s.pc.Holding? || s.pc.Counted?)
  }

  /** A session that can still be, or become, one of the State's writers. */
  predicate MayWrite(s: Session, st: Sid) {
    s.on == st && (s.pc.Holding? || s.pc.Counted? || s.pc.Joined? || s.pc.Attached? || s.pc.Leaving?)
  }

  /** Nothing can reach the State any more: it is not in the store and no session
      on it may still write. */
  ghost predicate Forgotten(w: World, st: Sid) {
    && st in w.shared && w.shared[st].writers == []
    && (forall u :: u in w.store ==> w.store[u] != st)
    && (forall j :: j in w.sessions ==> !MayWrite(w.sessions[j], st))
  }

  lemma ExtraStaysQuiet(i: Sid, s: Session, sh: Shared, step: ExtraStep, st: Sid)
    requires ExtraNext(i, s, sh, step).Some? && !MayWrite(s, st)
    ensures var (s', sh') := ExtraNext(i, s, sh, step).value;
      !MayWrite(s', st) && (s.on == st ==> sh'.writers == sh.writers)
  {
  }

  lemma ForgottenLocal(w: World, a: Action, st: Sid)
    requires Forgotten(w, st) && (a.Extra? || a.Stream?) && Next(w, a).Some?
    ensures Forgotten(Next(w, a).value, st)
  {
    var s := w.sessions[a.i];
    if a.Extra? { ExtraStaysQuiet(a.i, s, w.shared[s.on], a.extra, st); }
  }

  lemma ForgottenMain(w: World, i: Sid, step: MainStep, st: Sid)
    requires Forgotten(w, st) && Next(w, Main(i, step)).Some? && RefsExist(w.shared, i, w.sessions[i])
    ensures Forgotten(Next(w, Main(i, step)).value, st)
  {
    var s := w.sessions[i];
    var pc := MainPc(w, s, step).value;
    assert !MayWrite(s.(pc := pc), st) && (step.Publish? ==> i != st);
  }

  lemma ForgottenOther(w: World, a: Action, st: Sid)
    requires Forgotten(w, st) && (a.Connect? || a.Dispatch? || a.Signal?) && Next(w, a).Some?
    ensures Forgotten(Next(w, a).value, st)
  {
  }

  lemma ForgottenStep(w: World, a: Action, st: Sid)
    requires Shape(w) && Forgotten(w, st) && Next(w, a).Some?
    ensures Forgotten(Next(w, a).value, st)
  {
    match a
    case Main(i, step) => ForgottenMain(w, i, step, st);
    case Extra(i, step) => ForgottenLocal(w, a, st);
    case Stream(i, step) => ForgottenLocal(w, a, st);
    case _ => ForgottenOther(w, a, st);
  }

  lemma {:induction false} ForgottenRun(w: World, run: seq<Action>, st: Sid)
    requires Shape(w) && Forgotten(w, st) && After(w, run).Some?
    ensures Forgotten(After(w, run).value, st)
    decreases |run|
  {
    if run != [] {
      ShapeStep(w, run[0]);
      ForgottenStep(w, run[0], st);
      ForgottenRun(Next(w, run[0]).value, run[1..], st);
    }
  }

  /** The steps that take an undecided session into the multi-writer. */
  function ToRegistered(j: Sid, pc: Pc): seq<Action> {
    (if pc.Holding? then [Extra(j, Count)] else []) + [Extra(j, Join), Extra(j, Register)]
  }

  lemma UndecidedRegisters(w: World, j: Sid, st: Sid)
    requires st in w.shared && j in w.sessions && Undecided(w.sessions[j], st)
    ensures var w' := After(w, ToRegistered(j, w.sessions[j].pc));
      w'.Some? && st in w'.value.shared && j in w'.value.shared[st].writers
  {
    var run := ToRegistered(j, w.sessions[j].pc);
    var tail := [Extra(j, Join), Extra(j, Register)];
    if w.sessions[j].pc.Holding? {
      assert run[1..] == tail;
      CountedRegisters(Next(w, run[0]).value, j, st);
    } else {
      assert run == tail;
      CountedRegisters(w, j, st);
    }
  }

  lemma CountedRegisters(w: World, j: Sid, st: Sid)
    requires st in w.shared && j in w.sessions && w.sessions[j].on == st && w.sessions[j].pc.Counted?
    ensures var w' := After(w, [Extra(j, Join), Extra(j, Register)]);
      w'.Some? && st in w'.value.shared && j in w'.value.shared[st].writers
  {
    var run := [Extra(j, Join), Extra(j, Register)];
    var w1 := Next(w, run[0]).value;
    assert run[1..] == [Extra(j, Register)] && run[1..][1..] == [];
    assert After(w1, run[1..]) == After(Next(w1, run[1]).value, []);
  }

  /** Once a State has left the store and its Wait can return, it stays without
      writers in every continuation if and only if no session holds it between
      its lookup and its wg.Add. */
  lemma SilentAfterDeleteIff(run: seq<Action>, st: Sid)
    requires After(START, run).Some?
    requires var w := After(START, run).value;
      st in w.shared && w.shared[st].wg == 0 && forall u :: u in w.store ==> w.store[u] != st
    ensures var w := After(START, run).value;
      (forall more: seq<Action> :: After(w, more).Some? ==>
        st in After(w, more).value.shared && After(w, more).value.shared[st].writers == [])
      <==> (forall j :: j in w.sessions ==> !Undecided(w.sessions[j], st))
  {
    var w := After(START, run).value;
    CountsRun(START, run);
    if j :| j in w.sessions && Undecided(w.sessions[j], st) {
      UndecidedRegisters(w, j, st);
      var more := ToRegistered(j, w.sessions[j].pc);
      assert After(w, more).Some? && After(w, more).value.shared[st].writers != [];
    } else {
      assert CountsAt(w.sessions, st, w.shared[st]);
      assert Members(w.sessions, InWaitGroup, st) == {};
      EmptyWaitGroup(w, st);
      forall more: seq<Action> | After(w, more).Some?
        ensures st in After(w, more).value.shared && After(w, more).value.shared[st].writers == []
      {
        ForgottenRun(w, more, st);
      }
    }
  }

  lemma EmptyWaitGroup(w: World, st: Sid)
    requires Members(w.sessions, InWaitGroup, st) == {} && st in w.shared && CountsAt(w.sessions, st, w.shared[st])
    ensures forall j :: j in w.sessions && MayWrite(w.sessions[j], st) ==> Undecided(w.sessions[j], st)
    ensures w.shared[st].writers == []
  {
    assert forall j :: j in w.sessions && Within(InWaitGroup, w.sessions[j], st) ==>
      j in Members(w.sessions, InWaitGroup, st);
    assert Members(w.sessions, InWriters, st) <= Members(w.sessions, InWaitGroup, st);
    NonEmptyHasMember(w.shared[st].writers);
  }
}
