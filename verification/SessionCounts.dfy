/** Bookkeeping of the shared State over every interleaving: the wait group, the
    session counter and the multi-writer each hold exactly the sessions between
    the two calls that enter and leave them. */
module SessionCounts {
  import opened Prelude
  import opened MultiWriters
  import opened SessionWorld

  // ----- which State objects exist and who refers to them -----

  predicate IsExtra(pc: Pc) {
    pc.Holding? || pc.Counted? || pc.Joined? || pc.Attached? || pc.Leaving? || pc.Unregistered? || pc.Uncounted?
  }

  /** The references one session holds all point to published States. */
  predicate RefsExist(shared: map<Sid, Shared>, i: Sid, s: Session) {
    && (IsExtra(s.pc) ==> s.on in shared && s.on != i)
    && (HasStreams(s.pc) ==> s.on in shared)
    && (!IsExtra(s.pc) && !s.pc.Finished? ==> s.on == i)
    && (s.pc.Connected? || s.pc.Missed? || s.pc.Failed? ==> i !in shared)
    && (s.pc.Fetched? && s.pc.found.Some? ==> s.pc.found.value in shared)
    && (s.pc.Checked? ==> s.pc.v in shared)
    && (s.pc.Sending? ==> s.pc.v in shared && s.pc.c in shared)
    && (s.pc.Waiting? && s.pc.target.Some? ==> s.pc.target.value in shared)
  }

  ghost predicate Shape(w: World) {
    && (forall u :: u in w.store ==> w.store[u] in w.shared)
    && (forall st :: st in w.shared ==> st in w.sessions && w.sessions[st].on == st)
    && (forall i :: i in w.sessions ==> RefsExist(w.shared, i, w.sessions[i]))
  }

  /** Shape survives any change of one session that keeps its own references good. */
  lemma ShapeUpdate(w: World, w': World, i: Sid, s: Session)
    requires Shape(w)
    requires w'.sessions == w.sessions[i := s]
    requires w.shared.Keys <= w'.shared.Keys <= w.shared.Keys + {i}
    requires forall u :: u in w'.store ==> w'.store[u] in w'.shared
    requires RefsExist(w'.shared, i, s) && (i in w'.shared ==> s.on == i)
    ensures Shape(w')
  {
    forall j | j in w'.sessions ensures RefsExist(w'.shared, j, w'.sessions[j]) {
      if j != i { assert RefsExist(w.shared, j, w.sessions[j]); }
    }
  }

  lemma ShapeMain(w: World, i: Sid, step: MainStep)
    requires Shape(w) && Next(w, Main(i, step)).Some?
    ensures Shape(Next(w, Main(i, step)).value)
  {
    var s := w.sessions[i];
    var pc := MainPc(w, s, step).value;
    var w' := MainEffect(w, i, s, step, pc);
    assert RefsExist(w'.shared, i, s.(pc := pc)) by { MainRefs(w, i, s, step, pc); }
    ShapeUpdate(w, w', i, s.(pc := pc));
  }

  lemma MainRefs(w: World, i: Sid, s: Session, step: MainStep, pc: Pc)
    requires RefsExist(w.shared, i, s) && MainPc(w, s, step) == Some(pc)
    requires s.user in w.store ==> w.store[s.user] in w.shared
    ensures RefsExist(MainEffect(w, i, s, step, pc).shared, i, s.(pc := pc)) && !IsExtra(pc) && !IsExtra(s.pc)
      && s.on == i
  {
  }

  lemma ShapeLocal(w: World, i: Sid, r: (Session, Shared))
    requires Shape(w) && i in w.sessions && w.sessions[i].on in w.shared
    requires r.0.on == w.sessions[i].on && RefsExist(w.shared, i, r.0)
    ensures Shape(Put(w, i, r))
  {
    var w' := Put(w, i, r);
    assert w'.shared.Keys == w.shared.Keys;
    ShapeUpdate(w, w', i, r.0);
  }

  lemma ShapeSignal(w: World, i: Sid, j: Sid)
    requires Shape(w) && Next(w, Signal(i, j)).Some?
    ensures Shape(Next(w, Signal(i, j)).value)
  {
    var w' := Next(w, Signal(i, j)).value;
    var s, t := w'.sessions[i], w'.sessions[j];
    var w1 := w.(sessions := w.sessions[i := s]);
    assert RefsExist(w.shared, i, w.sessions[i]) && RefsExist(w.shared, j, w.sessions[j]);
    SignalRefs(w, i, j);
    ShapeUpdate(w, w1, i, s);
    ShapeUpdate(w1, w', j, t);
  }

  lemma SignalRefs(w: World, i: Sid, j: Sid)
    requires Next(w, Signal(i, j)).Some? && RefsExist(w.shared, i, w.sessions[i])
      && RefsExist(w.shared, j, w.sessions[j])
    ensures var w' := Next(w, Signal(i, j)).value;
      && w'.store == w.store && w'.shared.Keys == w.shared.Keys
      && i in w'.sessions && j in w'.sessions
      && w'.sessions == w.sessions[i := w'.sessions[i]][j := w'.sessions[j]]
      && w'.sessions[i].on == w.sessions[i].on && w'.sessions[j].on == w.sessions[j].on
      && RefsExist(w.shared, i, w'.sessions[i]) && RefsExist(w'.shared, j, w'.sessions[j])
  {
  }

  lemma ShapeExtra(w: World, i: Sid, step: ExtraStep)
    requires Shape(w) && Next(w, Extra(i, step)).Some?
    ensures Shape(Next(w, Extra(i, step)).value)
  {
    assert RefsExist(w.shared, i, w.sessions[i]);
    ShapeLocal(w, i, ExtraNext(i, w.sessions[i], w.shared[w.sessions[i].on], step).value);
  }

  lemma ShapeStream(w: World, i: Sid, step: StreamStep)
    requires Shape(w) && Next(w, Stream(i, step)).Some?
    ensures Shape(Next(w, Stream(i, step)).value)
  {
    assert RefsExist(w.shared, i, w.sessions[i]);
    ShapeLocal(w, i, StreamNext(i, w.sessions[i], w.shared[w.sessions[i].on], step).value);
  }

  lemma ShapeArrival(w: World, a: Action)
    requires Shape(w) && (a.Connect? || a.Dispatch?) && Next(w, a).Some?
    ensures Shape(Next(w, a).value)
  {
    var w' := Next(w, a).value;
    var s := w'.sessions[a.i];
    assert RefsExist(w'.shared, a.i, s) && (a.i in w'.shared ==> s.on == a.i) by {
      ArrivalRefs(w, a);
    }
    ShapeUpdate(w, w', a.i, s);
  }

  lemma ArrivalRefs(w: World, a: Action)
    requires Shape(w) && (a.Connect? || a.Dispatch?) && Next(w, a).Some?
    ensures var w' := Next(w, a).value;
      && w'.store == w.store && w'.shared == w.shared && a.i !in w.shared
      && a.i in w'.sessions && w'.sessions == w.sessions[a.i := w'.sessions[a.i]]
      && RefsExist(w.shared, a.i, w'.sessions[a.i])
  {
    if a.Dispatch? { assert RefsExist(w.shared, a.i, w.sessions[a.i]); }
  }

  lemma ShapeStep(w: World, a: Action)
    requires Shape(w) && Next(w, a).Some?
    ensures Shape(Next(w, a).value)
  {
    match a
    case Main(i, step) => ShapeMain(w, i, step);
    case Extra(i, step) => ShapeExtra(w, i, step);
    case Stream(i, step) => ShapeStream(w, i, step);
    case Signal(i, j) => ShapeSignal(w, i, j);
    case _ => ShapeArrival(w, a);
  }

  // ----- the three registers -----

  /** The stretches of an additional session's life that a State counts. */
  datatype Region = InWaitGroup | InCounter | InWriters

  predicate Within(r: Region, s: Session, st: Sid) {
    s.on == st && match r
      case InWaitGroup => s.pc.Joined? || s.pc.Attached? || s.pc.Leaving? || s.pc.Unregistered? || s.pc.Uncounted?
      case InCounter => s.pc.Counted? || s.pc.Joined? || s.pc.Attached? || s.pc.Leaving? || s.pc.Unregistered?
      case InWriters => s.pc.Attached? || s.pc.Leaving?
  }

  ghost function Members(sessions: map<Sid, Session>, r: Region, st: Sid): set<Sid> {
    set i | i in sessions && Within(r, sessions[i], st)
  }

  function Bit(b: bool): int { if b then 1 else 0 }

  ghost predicate CountsAt(sessions: map<Sid, Session>, st: Sid, sh: Shared) {
    && sh.wg == |Members(sessions, InWaitGroup, st)|
    && sh.count == |Members(sessions, InCounter, st)|
    && Distinct(sh.writers)
    && (forall i :: i in sh.writers <==> i in Members(sessions, InWriters, st))
  }

  ghost predicate Counts(w: World) {
    forall st :: st in w.shared ==> CountsAt(w.sessions, st, w.shared[st])
  }

  /** Replacing one session moves it in or out of a region, nobody else. */
  lemma MembersUpdate(sessions: map<Sid, Session>, i: Sid, s: Session, r: Region, st: Sid)
    ensures var before := Members(sessions, r, st);
      Members(sessions[i := s], r, st) == if Within(r, s, st) then before + {i} else before - {i}
  {
  }

  lemma SizeUpdate(sessions: map<Sid, Session>, i: Sid, s: Session, r: Region, st: Sid)
    ensures |Members(sessions[i := s], r, st)|
         == |Members(sessions, r, st)| + Bit(Within(r, s, st)) - Bit(i in Members(sessions, r, st))
  {
    MembersUpdate(sessions, i, s, r, st);
  }

  lemma WritersUpdate(sessions: map<Sid, Session>, i: Sid, s: Session, st: Sid, before: seq<Sid>, after: seq<Sid>)
    requires Distinct(before) && forall j :: j in before <==> j in Members(sessions, InWriters, st)
    requires var was, now := i in before, Within(InWriters, s, st);
      after == if was == now then before else if now then before + [i] else Without(before, i)
    ensures Distinct(after) && forall j :: j in after <==> j in Members(sessions[i := s], InWriters, st)
  {
    MembersUpdate(sessions, i, s, InWriters, st);
    WithoutOrder(before, i, (x: Sid) => 0);
  }

  /** A State whose registers change as the replaced session's regions do keeps
      its counts. */
  lemma CountsUpdate(sessions: map<Sid, Session>, i: Sid, s: Session, st: Sid, sh: Shared, sh': Shared)
    requires CountsAt(sessions, st, sh)
    requires i in sessions || !IsExtra(s.pc)
    requires var t := if i in sessions then sessions[i] else s;
      && sh'.wg == sh.wg + Bit(Within(InWaitGroup, s, st)) - Bit(Within(InWaitGroup, t, st))
      && sh'.count == sh.count + Bit(Within(InCounter, s, st)) - Bit(Within(InCounter, t, st))
      && (if Within(InWriters, s, st) == Within(InWriters, t, st) then sh'.writers == sh.writers
          else if Within(InWriters, s, st) then sh'.writers == sh.writers + [i]
          else sh'.writers == Without(sh.writers, i))
    ensures CountsAt(sessions[i := s], st, sh')
  {
    SizeUpdate(sessions, i, s, InWaitGroup, st);
    SizeUpdate(sessions, i, s, InCounter, st);
    WritersUpdate(sessions, i, s, st, sh.writers, sh'.writers);
  }

  lemma CountsMain(w: World, i: Sid, step: MainStep)
    requires Shape(w) && Counts(w) && Next(w, Main(i, step)).Some?
    ensures Counts(Next(w, Main(i, step)).value)
  {
    var s := w.sessions[i];
    var pc := MainPc(w, s, step).value;
    var w' := MainEffect(w, i, s, step, pc);
    MainRefs(w, i, s, step, pc);
    forall st | st in w'.shared ensures CountsAt(w'.sessions, st, w'.shared[st]) {
      if step.Publish? && st == i {
        FreshStateIsEmpty(w, i, s.(pc := pc));
      } else {
        CountsUpdate(w.sessions, i, s.(pc := pc), st, w.shared[st], w'.shared[st]);
      }
    }
  }

  lemma FreshStateIsEmpty(w: World, i: Sid, s: Session)
    requires Shape(w) && i !in w.shared && !IsExtra(s.pc)
    ensures CountsAt(w.sessions[i := s], i, NEW_STATE)
  {
    NobodyOn(w, i, s, InWaitGroup);
    NobodyOn(w, i, s, InCounter);
    NobodyOn(w, i, s, InWriters);
  }

  lemma NobodyOn(w: World, i: Sid, s: Session, r: Region)
    requires Shape(w) && i !in w.shared && !IsExtra(s.pc)
    ensures Members(w.sessions[i := s], r, i) == {}
  {
    forall j | j in w.sessions ensures !Within(r, w.sessions[j], i) {
      assert RefsExist(w.shared, j, w.sessions[j]);
    }
  }

  /** The registers of a State follow the regions of the session that moves. */
  lemma ExtraRegisters(i: Sid, s: Session, sh: Shared, step: ExtraStep)
    requires ExtraNext(i, s, sh, step).Some?
    ensures var (s', sh') := ExtraNext(i, s, sh, step).value;
      && s'.on == s.on
      && sh'.wg == sh.wg + Bit(Within(InWaitGroup, s', s.on)) - Bit(Within(InWaitGroup, s, s.on))
      && sh'.count == sh.count + Bit(Within(InCounter, s', s.on)) - Bit(Within(InCounter, s, s.on))
      && (if Within(InWriters, s', s.on) == Within(InWriters, s, s.on) then sh'.writers == sh.writers
          else if Within(InWriters, s', s.on) then sh'.writers == sh.writers + [i]
          else sh'.writers == Without(sh.writers, i))
  {
  }

  lemma CountsExtra(w: World, i: Sid, step: ExtraStep)
    requires Counts(w) && Next(w, Extra(i, step)).Some?
    ensures Counts(Next(w, Extra(i, step)).value)
  {
    var s := w.sessions[i];
    var (s', sh') := ExtraNext(i, s, w.shared[s.on], step).value;
    ExtraRegisters(i, s, w.shared[s.on], step);
    var w' := Put(w, i, (s', sh'));
    forall st | st in w'.shared ensures CountsAt(w'.sessions, st, w'.shared[st]) {
      CountsUpdate(w.sessions, i, s', st, w.shared[st], w'.shared[st]);
    }
  }

  lemma CountsStream(w: World, i: Sid, step: StreamStep)
    requires Counts(w) && Next(w, Stream(i, step)).Some?
    ensures Counts(Next(w, Stream(i, step)).value)
  {
    var w' := Next(w, Stream(i, step)).value;
    forall st | st in w'.shared ensures CountsAt(w'.sessions, st, w'.shared[st]) {
      CountsUpdate(w.sessions, i, w'.sessions[i], st, w.shared[st], w'.shared[st]);
    }
  }

  lemma CountsSignal(w: World, i: Sid, j: Sid)
    requires Counts(w) && Next(w, Signal(i, j)).Some?
    ensures Counts(Next(w, Signal(i, j)).value)
  {
    var w' := Next(w, Signal(i, j)).value;
    var mid := w.sessions[i := w'.sessions[i]];
    forall st | st in w'.shared ensures CountsAt(w'.sessions, st, w'.shared[st]) {
      CountsUpdate(w.sessions, i, w'.sessions[i], st, w.shared[st], w.shared[st]);
      CountsUpdate(mid, j, w'.sessions[j], st, w.shared[st], w'.shared[st]);
    }
  }

  lemma CountsArrival(w: World, a: Action)
    requires Counts(w) && (a.Connect? || a.Dispatch?) && Next(w, a).Some?
    ensures Counts(Next(w, a).value)
  {
    var w' := Next(w, a).value;
    forall st | st in w'.shared ensures CountsAt(w'.sessions, st, w'.shared[st]) {
      CountsUpdate(w.sessions, a.i, w'.sessions[a.i], st, w.shared[st], w'.shared[st]);
    }
  }

  lemma CountsStep(w: World, a: Action)
    requires Shape(w) && Counts(w) && Next(w, a).Some?
    ensures Counts(Next(w, a).value)
  {
    match a
    case Main(i, step) => CountsMain(w, i, step);
    case Extra(i, step) => CountsExtra(w, i, step);
    case Stream(i, step) => CountsStream(w, i, step);
    case Signal(i, j) => CountsSignal(w, i, j);
    case _ => CountsArrival(w, a);
  }

  lemma {:induction false} CountsRun(w: World, run: seq<Action>)
    requires Shape(w) && Counts(w) && After(w, run).Some?
    ensures Shape(After(w, run).value) && Counts(After(w, run).value)
    decreases |run|
  {
    if run != [] {
      ShapeStep(w, run[0]);
      CountsStep(w, run[0]);
      CountsRun(Next(w, run[0]).value, run[1..]);
    }
  }

  /** In every interleaving, each register of each State holds exactly the
      sessions between its two calls. */
  lemma RegistersAreExact(run: seq<Action>, st: Sid)
    requires After(START, run).Some? && st in After(START, run).value.shared
    ensures var w := After(START, run).value;
      && w.shared[st].wg == |Members(w.sessions, InWaitGroup, st)|
      && w.shared[st].count == |Members(w.sessions, InCounter, st)|
      && Distinct(w.shared[st].writers)
      && (forall i :: i in w.shared[st].writers <==> i in Members(w.sessions, InWriters, st))
  {
    CountsRun(START, run);
  }

  lemma NonEmptyHasMember(s: seq<Sid>)
    ensures s != [] ==> exists i :: i in s
  {
    if s != [] { assert s[0] in s; }
  }

  /** When a Wait returns, no session writes through that State's multi-writer,
      and every session still counted holds the State before its wg.Add. */
  lemma WaitReturnsDrained(run: seq<Action>, i: Sid)
    requires After(START, run).Some? && Next(After(START, run).value, Main(i, WaitReturns)).Some?
    ensures var w := After(START, run).value;
      var st := w.sessions[i].pc.target.value;
      && w.shared[st].writers == []
      && forall j :: j in Members(w.sessions, InCounter, st) ==> w.sessions[j].pc == Counted
  {
    var w := After(START, run).value;
    var st := w.sessions[i].pc.target.value;
    CountsRun(START, run);
    assert CountsAt(w.sessions, st, w.shared[st]);
    assert Members(w.sessions, InWaitGroup, st) == {};
    assert Members(w.sessions, InWriters, st) <= Members(w.sessions, InWaitGroup, st);
    NonEmptyHasMember(w.shared[st].writers);
    forall j | j in Members(w.sessions, InCounter, st) ensures w.sessions[j].pc == Counted {
      assert j !in Members(w.sessions, InWaitGroup, st);
    }
  }
}
