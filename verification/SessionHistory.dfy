/** The records that sessions and States keep, tied to the run itself: what was
    emitted, typed, lost, read and left is what the actions of the run say, and
    a session's place in the output is fixed by its Add and its Remove. */
module SessionHistory {
  import opened Prelude
  import opened MultiWriters
  import opened SessionWorld
  import opened SessionCounts

  /** What a run says about one id: as a State, the chunks the BMC emitted on it,
      the write that failed (position and bytes taken) and whether the owner's
      own write failed; as a session, the chunks it typed, the part of a chunk
      that a failing write took, the bytes its watcher read and the select cases
      it took. */
  datatype Deeds = Deeds(
    emitted: seq<Bytes>,
    cut: Option<(nat, nat)>,
    headDown: bool,
    typed: seq<Bytes>,
    broken: seq<Bytes>,
    watched: nat,
    left: seq<Reason>)

  const NOTHING := Deeds([], None, false, [], [], 0, [])

  /** The first outcome of a write that is an error or too short. */
  function Failure(chunk: Bytes, outcomes: seq<Outcome>): Option<(nat, nat)> {
    var at := StopAt(outcomes, chunk);
    if at < |outcomes| then Some((at, outcomes[at].n)) else None
  }

  function StreamDeed(step: StreamStep): Deeds {
    match step
    case Emit(chunk, outcomes) => NOTHING.(emitted := [chunk], cut := Failure(chunk, outcomes))
    case EmitFails => NOTHING.(headDown := true)
    case Forward(input) => NOTHING.(typed := [input])
    case ForwardFails(lost, n) => NOTHING.(broken := if n <= |lost| then [lost[..n]] else [])
    case Watch => NOTHING.(watched := 1)
  }

  /** What one action says about the id i. */
  function Deed(a: Action, i: Sid): Deeds {
    match a
    case Stream(j, step) => if i == j then StreamDeed(step) else NOTHING
    case Extra(j, ContextEnds) => if i == j then NOTHING.(left := [ContextDone]) else NOTHING
    case Extra(j, EscapeSeen) => if i == j then NOTHING.(left := [EscapeTyped]) else NOTHING
    case Signal(_, j) => if i == j then NOTHING.(left := [InitialClosed]) else NOTHING
    case _ => NOTHING
  }

  function Plus(d: Deeds, e: Deeds): Deeds {
    Deeds(d.emitted + e.emitted, if e.cut.Some? then e.cut else d.cut, d.headDown || e.headDown,
          d.typed + e.typed, d.broken + e.broken, d.watched + e.watched, d.left + e.left)
  }

  /** What a whole run says about the id i. */
  function Told(run: seq<Action>, i: Sid): Deeds {
    if run == [] then NOTHING else Plus(Told(run[..|run| - 1], i), Deed(run[|run| - 1], i))
  }

  /** What a State and a session have on record. */
  function StateRecord(sh: Shared): Deeds {
    NOTHING.(emitted := sh.chunks, headDown := sh.headDown,
             cut := if sh.cut.Some? then Some((sh.cut.value.at, sh.cut.value.n)) else None)
  }

  function SessionRecord(d: Deeds, s: Session): Deeds {
    d.(typed := s.typed, broken := s.broken, watched := |s.seen|, left := s.left)
  }

  function StatePart(w: World, i: Sid): Deeds {
    if i in w.shared then StateRecord(w.shared[i]) else NOTHING
  }

  /** What the world has on record. */
  function RecordOf(w: World, i: Sid): Deeds {
    var d := StatePart(w, i);
    if i in w.sessions then SessionRecord(d, w.sessions[i]) else d
  }

  lemma PlusNothing(d: Deeds)
    ensures Plus(d, NOTHING) == d
  {
  }

  predicate SameState(sh: Shared, sh': Shared) {
    sh'.chunks == sh.chunks && sh'.cut == sh.cut && sh'.headDown == sh.headDown
  }

  predicate SameInput(s: Session, s': Session) {
    s'.typed == s.typed && s'.broken == s.broken && s'.seen == s.seen
  }

  predicate StateUnmoved(w: World, w': World, k: Sid) {
    && (k in w.shared ==> k in w'.shared && SameState(w.shared[k], w'.shared[k]))
    && (k !in w.shared && k in w'.shared ==> w'.shared[k] == NEW_STATE)
  }

  /** A step that records nothing but select cases. */
  lemma RecordLeft(w: World, w': World, k: Sid, left: seq<Reason>)
    requires StateUnmoved(w, w', k)
    requires k in w.sessions ==>
      k in w'.sessions && SameInput(w.sessions[k], w'.sessions[k]) && w'.sessions[k].left == w.sessions[k].left + left
    requires k !in w.sessions ==>
      left == [] && (k in w'.sessions ==> exists user :: w'.sessions[k] == NewSession(k, user))
    ensures RecordOf(w', k) == Plus(RecordOf(w, k), NOTHING.(left := left))
  {
    assert StatePart(w', k) == StatePart(w, k);
    PlusLeft(RecordOf(w, k), left);
    if k in w.sessions {
      LeftPart(StatePart(w, k), w.sessions[k], w'.sessions[k], left);
    } else {
      assert StatePart(w, k).left == [];
    }
  }

  lemma LeftPart(d: Deeds, s: Session, s': Session, left: seq<Reason>)
    requires SameInput(s, s') && s'.left == s.left + left
    ensures SessionRecord(d, s') == SessionRecord(d, s).(left := s.left + left)
  {
  }

  lemma PlusLeft(r: Deeds, left: seq<Reason>)
    ensures Plus(r, NOTHING.(left := left)) == r.(left := r.left + left)
  {
  }

  /** A step of k's own goroutines. */
  lemma RecordOwn(w: World, k: Sid, step: StreamStep)
    requires Next(w, Stream(k, step)).Some?
    ensures RecordOf(Next(w, Stream(k, step)).value, k) == Plus(RecordOf(w, k), StreamDeed(step))
  {
    var s := w.sessions[k];
    var (s', sh') := StreamNext(k, s, w.shared[s.on], step).value;
    var w' := Put(w, k, (s', sh'));
    OwnInput(k, s, w.shared[s.on], step);
    if step.Emit? || step.EmitFails? {
      OwnOutput(k, s, w.shared[s.on], step);
      assert w'.shared[k] == sh' && w.shared[s.on] == w.shared[k];
    } else {
      assert k in w.shared ==> k in w'.shared && SameState(w.shared[k], w'.shared[k]);
      assert k !in w.shared ==> k !in w'.shared;
      OnlyInput(StatePart(w, k), s, s', StreamDeed(step));
      if k in w.shared { assert StateRecord(w'.shared[k]) == StateRecord(w.shared[k]); }
    }
  }

  lemma OnlyInput(d: Deeds, s: Session, s': Session, e: Deeds)
    requires e.emitted == [] && e.cut.None? && !e.headDown
    requires s'.typed == s.typed + e.typed && s'.broken == s.broken + e.broken && |s'.seen| == |s.seen| + e.watched
    requires s'.left == s.left && e.left == []
    ensures SessionRecord(d, s') == Plus(SessionRecord(d, s), e)
  {
  }

  lemma OwnInput(i: Sid, s: Session, sh: Shared, step: StreamStep)
    requires StreamNext(i, s, sh, step).Some?
    ensures var (s', sh') := StreamNext(i, s, sh, step).value;
      var d := StreamDeed(step);
      && s'.on == s.on && s'.left == s.left && |s'.seen| == |s.seen| + d.watched
      && s'.typed == s.typed + d.typed && s'.broken == s.broken + d.broken
      && (!step.Emit? && !step.EmitFails? ==> SameState(sh, sh'))
      && (step.Emit? || step.EmitFails? ==> s' == s && s.on == i)
  {
  }

  lemma OwnOutput(i: Sid, s: Session, sh: Shared, step: StreamStep)
    requires StreamNext(i, s, sh, step).Some? && (step.Emit? || step.EmitFails?)
    ensures var sh' := StreamNext(i, s, sh, step).value.1;
      SessionRecord(StateRecord(sh'), s) == Plus(SessionRecord(StateRecord(sh), s), StreamDeed(step))
  {
    var sh' := StreamNext(i, s, sh, step).value.1;
    var d := StreamDeed(step);
    assert sh.cut.None? && sh'.chunks == sh.chunks + d.emitted;
    assert StateRecord(sh').cut == d.cut;
  }

  /** Another session's goroutines leave k's records alone. */
  lemma StreamElsewhere(w: World, i: Sid, step: StreamStep, k: Sid)
    requires Next(w, Stream(i, step)).Some? && i != k
    ensures RecordOf(Next(w, Stream(i, step)).value, k) == Plus(RecordOf(w, k), NOTHING)
  {
    var s := w.sessions[i];
    OwnInput(i, s, w.shared[s.on], step);
    RecordLeft(w, Next(w, Stream(i, step)).value, k, []);
  }

  lemma ExtraRecord(w: World, i: Sid, step: ExtraStep, k: Sid)
    requires Next(w, Extra(i, step)).Some?
    ensures RecordOf(Next(w, Extra(i, step)).value, k) == Plus(RecordOf(w, k), Deed(Extra(i, step), k))
  {
    var s := w.sessions[i];
    var r := ExtraNext(i, s, w.shared[s.on], step).value;
    ExtraLeft(i, s, w.shared[s.on], step);
    OnlyLeft(i, step, k);
    RecordPut(w, i, r, k, Deed(Extra(i, step), k).left);
  }

  lemma OnlyLeft(i: Sid, step: ExtraStep, k: Sid)
    ensures var d := Deed(Extra(i, step), k); d == NOTHING.(left := d.left) && (k != i ==> d.left == [])
  {
  }

  lemma RecordPut(w: World, i: Sid, r: (Session, Shared), k: Sid, left: seq<Reason>)
    requires i in w.sessions && w.sessions[i].on in w.shared
    requires SameState(w.shared[w.sessions[i].on], r.1) && SameInput(w.sessions[i], r.0)
    requires if k == i then r.0.left == w.sessions[i].left + left else left == []
    ensures RecordOf(Put(w, i, r), k) == Plus(RecordOf(w, k), NOTHING.(left := left))
  {
    RecordLeft(w, Put(w, i, r), k, left);
  }

  lemma ExtraLeft(i: Sid, s: Session, sh: Shared, step: ExtraStep)
    requires ExtraNext(i, s, sh, step).Some?
    ensures var (s', sh') := ExtraNext(i, s, sh, step).value;
      SameState(sh, sh') && SameInput(s, s') && s'.left == s.left + Deed(Extra(i, step), i).left
  {
  }

  lemma MainRecord(w: World, i: Sid, step: MainStep, k: Sid)
    requires Next(w, Main(i, step)).Some? && RefsExist(w.shared, i, w.sessions[i])
    ensures RecordOf(Next(w, Main(i, step)).value, k) == Plus(RecordOf(w, k), NOTHING)
  {
    assert step.Publish? ==> i !in w.shared;
    RecordLeft(w, MainEffect(w, i, w.sessions[i], step, MainPc(w, w.sessions[i], step).value), k, []);
  }

  lemma SignalRecord(w: World, i: Sid, j: Sid, k: Sid)
    requires Next(w, Signal(i, j)).Some?
    ensures RecordOf(Next(w, Signal(i, j)).value, k) == Plus(RecordOf(w, k), Deed(Signal(i, j), k))
  {
    RecordLeft(w, Next(w, Signal(i, j)).value, k, Deed(Signal(i, j), k).left);
  }

  lemma ArrivalRecord(w: World, a: Action, k: Sid)
    requires (a.Connect? || a.Dispatch?) && Next(w, a).Some?
    ensures RecordOf(Next(w, a).value, k) == Plus(RecordOf(w, k), NOTHING)
  {
    RecordLeft(w, Next(w, a).value, k, []);
  }

  lemma RecordStep(w: World, a: Action, k: Sid)
    requires Shape(w) && Next(w, a).Some?
    ensures RecordOf(Next(w, a).value, k) == Plus(RecordOf(w, k), Deed(a, k))
  {
    match a
    case Stream(i, step) => if i == k { RecordOwn(w, k, step); } else { StreamElsewhere(w, i, step, k); }
    case Extra(i, step) => ExtraRecord(w, i, step, k);
    case Main(i, step) => MainRecord(w, i, step, k);
    case Signal(i, j) => SignalRecord(w, i, j, k);
    case _ => ArrivalRecord(w, a, k);
  }

  /** A run is its beginning followed by its last action. */
  lemma LastStep(run: seq<Action>)
    requires run != [] && After(START, run).Some?
    ensures var front := run[..|run| - 1];
      && After(START, front).Some?
      && Next(After(START, front).value, run[|run| - 1]) == After(START, run)
      && Shape(After(START, front).value)
  {
    var front, a := run[..|run| - 1], run[|run| - 1];
    assert front + [a] == run;
    AfterConcat(START, front, [a]);
    var w := After(START, front).value;
    assert [a][1..] == [];
    assert Next(w, a).Some? ==> After(Next(w, a).value, []) == Next(w, a);
    CountsRun(START, front);
  }

  /** For every run and every id: the record is what the run says. */
  lemma {:induction false} RecordsAreTheRun(run: seq<Action>, i: Sid)
    requires After(START, run).Some?
    ensures RecordOf(After(START, run).value, i) == Told(run, i)
    decreases |run|
  {
    if run != [] {
      var front := run[..|run| - 1];
      LastStep(run);
      RecordsAreTheRun(front, i);
      RecordStep(After(START, front).value, run[|run| - 1], i);
    }
  }

  lemma PlusAssociates(a: Deeds, b: Deeds, c: Deeds)
    ensures Plus(Plus(a, b), c) == Plus(a, Plus(b, c))
  {
    assert a.emitted + b.emitted + c.emitted == a.emitted + (b.emitted + c.emitted);
    assert a.typed + b.typed + c.typed == a.typed + (b.typed + c.typed);
    assert a.broken + b.broken + c.broken == a.broken + (b.broken + c.broken);
    assert a.left + b.left + c.left == a.left + (b.left + c.left);
  }

  lemma {:induction false} ToldConcat(a: seq<Action>, b: seq<Action>, i: Sid)
    ensures Told(a + b, i) == Plus(Told(a, i), Told(b, i))
    decreases |b|
  {
    if b == [] {
      assert a + b == a;
      PlusNothing(Told(a, i));
    } else {
      var n := |b| - 1;
      assert (a + b)[..|a + b| - 1] == a + b[..n];
      ToldConcat(a, b[..n], i);
      PlusAssociates(Told(a, i), Told(b[..n], i), Deed(b[n], i));
    }
  }

  // ----- a session's place in the output -----

  /** The chunks that a run emits on a State. */
  function Emitted(run: seq<Action>, st: Sid): seq<Bytes> { Told(run, st).emitted }

  predicate Never(run: seq<Action>, a: Action) {
    forall k :: 0 <= k < |run| ==> run[k] != a
  }

  predicate OnlyAt(run: seq<Action>, a: Action, p: nat) {
    p < |run| && run[p] == a && forall k :: 0 <= k < |run| && k != p ==> run[k] != a
  }

  ghost predicate AddedAt(run: seq<Action>, i: Sid, s: Session, p: nat) {
    OnlyAt(run, Extra(i, Register), p) && s.from == |Emitted(run[..p], s.on)|
  }

  ghost predicate RemovedAt(run: seq<Action>, i: Sid, s: Session, q: nat) {
    OnlyAt(run, Extra(i, Unregister), q) && s.upto == |Emitted(run[..q], s.on)|
  }

  predicate Writing(pc: Pc) { pc.Attached? || pc.Leaving? }

  /** The session's Add and Remove are where its program counter says. */
  ghost predicate Placed(run: seq<Action>, i: Sid, s: Session) {
    if s.on != i && OnceRegistered(s.pc) then
      exists p: nat :: AddedAt(run, i, s, p) &&
        if Writing(s.pc) then Never(run, Extra(i, Unregister)) else exists q: nat :: p < q && RemovedAt(run, i, s, q)
    else Never(run, Extra(i, Register)) && Never(run, Extra(i, Unregister))
  }

  /** An action that leaves the session's place alone. */
  lemma PlacedKept(run: seq<Action>, a: Action, i: Sid, s: Session, s': Session)
    requires Placed(run, i, s) && a != Extra(i, Register) && a != Extra(i, Unregister)
    requires s'.from == s.from && s'.upto == s.upto
    requires if s.on != i && OnceRegistered(s.pc)
      then s'.on == s.on && OnceRegistered(s'.pc) && Writing(s'.pc) == Writing(s.pc)
      else !(s'.on != i && OnceRegistered(s'.pc))
    ensures Placed(run + [a], i, s')
  {
    var longer := run + [a];
    if s.on != i && OnceRegistered(s.pc) {
      var p: nat :| AddedAt(run, i, s, p) &&
        if Writing(s.pc) then Never(run, Extra(i, Unregister)) else exists q: nat :: p < q && RemovedAt(run, i, s, q);
      assert longer[..p] == run[..p];
      assert AddedAt(longer, i, s', p);
      if !Writing(s.pc) {
        var q: nat :| p < q && RemovedAt(run, i, s, q);
        assert longer[..q] == run[..q];
        assert RemovedAt(longer, i, s', q);
      }
    }
  }

  lemma PlacedAdd(run: seq<Action>, i: Sid, s: Session, s': Session)
    requires Placed(run, i, s) && s.pc.Joined? && s' == s.(pc := Attached, from := |Emitted(run, s.on)|) && s.on != i
    ensures Placed(run + [Extra(i, Register)], i, s')
  {
    var longer := run + [Extra(i, Register)];
    assert longer[..|run|] == run;
    assert AddedAt(longer, i, s', |run|);
  }

  lemma PlacedRemove(run: seq<Action>, i: Sid, s: Session, s': Session)
    requires Placed(run, i, s) && s.pc.Leaving? && s.on != i
    requires s' == s.(pc := Unregistered, upto := |Emitted(run, s.on)|)
    ensures Placed(run + [Extra(i, Unregister)], i, s')
  {
    var longer := run + [Extra(i, Unregister)];
    var p: nat :| AddedAt(run, i, s, p);
    assert longer[..p] == run[..p] && longer[..|run|] == run;
    assert AddedAt(longer, i, s', p) && RemovedAt(longer, i, s', |run|);
  }

  /** How a step that is not this session's Add or Remove changes it. */
  lemma PlaceUnmoved(w: World, a: Action, i: Sid)
    requires Next(w, a).Some? && i in w.sessions && RefsExist(w.shared, i, w.sessions[i])
    requires a != Extra(i, Register) && a != Extra(i, Unregister)
    ensures i in Next(w, a).value.sessions
    ensures var s, s' := w.sessions[i], Next(w, a).value.sessions[i];
      && s'.from == s.from && s'.upto == s.upto
      && if s.on != i && OnceRegistered(s.pc)
         then s'.on == s.on && OnceRegistered(s'.pc) && Writing(s'.pc) == Writing(s.pc)
         else !(s'.on != i && OnceRegistered(s'.pc))
  {
    if a.Extra? && a.i == i { ExtraUnmoved(i, w.sessions[i], w.shared[w.sessions[i].on], a.extra); }
  }

  lemma ExtraUnmoved(i: Sid, s: Session, sh: Shared, step: ExtraStep)
    requires ExtraNext(i, s, sh, step).Some? && step != Register && step != Unregister && s.on != i
    ensures var s' := ExtraNext(i, s, sh, step).value.0;
      && s'.from == s.from && s'.upto == s.upto && s'.on == s.on
      && OnceRegistered(s'.pc) == OnceRegistered(s.pc) && Writing(s'.pc) == Writing(s.pc)
  {
  }

  lemma PlacedMove(run: seq<Action>, w: World, i: Sid, step: ExtraStep)
    requires Next(w, Extra(i, step)).Some? && RefsExist(w.shared, i, w.sessions[i]) && Placed(run, i, w.sessions[i])
    requires w.shared[w.sessions[i].on].chunks == Emitted(run, w.sessions[i].on) && (step.Register? || step.Unregister?)
    ensures Placed(run + [Extra(i, step)], i, Next(w, Extra(i, step)).value.sessions[i])
  {
    var s := w.sessions[i];
    var s' := ExtraNext(i, s, w.shared[s.on], step).value.0;
    if step.Register? { PlacedAdd(run, i, s, s'); } else { PlacedRemove(run, i, s, s'); }
  }

  lemma PlacedStep(run: seq<Action>, w: World, a: Action, i: Sid)
    requires Shape(w) && Next(w, a).Some? && i in w.sessions && Placed(run, i, w.sessions[i])
    requires forall st :: st in w.shared ==> w.shared[st].chunks == Emitted(run, st)
    ensures i in Next(w, a).value.sessions && Placed(run + [a], i, Next(w, a).value.sessions[i])
  {
    var s := w.sessions[i];
    assert RefsExist(w.shared, i, s);
    if a == Extra(i, Register) || a == Extra(i, Unregister) {
      PlacedMove(run, w, i, a.extra);
    } else {
      PlaceUnmoved(w, a, i);
      PlacedKept(run, a, i, s, Next(w, a).value.sessions[i]);
    }
  }

  /** Before its arrival a session does nothing. */
  lemma {:induction false} NotYetThere(run: seq<Action>, i: Sid, a: Action)
    requires After(START, run).Some? && i !in After(START, run).value.sessions
    requires a == Extra(i, Register) || a == Extra(i, Unregister)
    ensures Never(run, a)
    decreases |run|
  {
    if run != [] {
      var front := run[..|run| - 1];
      LastStep(run);
      SessionsStay(After(START, front).value, run[|run| - 1], i);
      NotYetThere(front, i, a);
      assert forall k :: 0 <= k < |front| ==> run[k] == front[k];
    }
  }

  lemma SessionsStay(w: World, a: Action, i: Sid)
    requires Next(w, a).Some?
    ensures i in w.sessions ==> i in Next(w, a).value.sessions
    ensures a.i in Next(w, a).value.sessions
  {
  }

  lemma ChunksAreEmitted(run: seq<Action>, st: Sid)
    requires After(START, run).Some? && st in After(START, run).value.shared
    ensures After(START, run).value.shared[st].chunks == Emitted(run, st)
  {
    RecordsAreTheRun(run, st);
  }

  lemma Arrival(w: World, a: Action, i: Sid)
    requires Next(w, a).Some? && i !in w.sessions && i in Next(w, a).value.sessions
    ensures a.Connect? && Next(w, a).value.sessions[i] == NewSession(i, a.user)
  {
  }

  /** For every run: each session's Add and Remove happened at most once, and it
      counts the chunks emitted before them. */
  lemma {:induction false} PlacesAreTheRun(run: seq<Action>, i: Sid)
    requires After(START, run).Some? && i in After(START, run).value.sessions
    ensures Placed(run, i, After(START, run).value.sessions[i])
    decreases |run|
  {
    var front, a := run[..|run| - 1], run[|run| - 1];
    LastStep(run);
    var w := After(START, front).value;
    assert run == front + [a];
    if i in w.sessions {
      PlacesAreTheRun(front, i);
      forall st | st in w.shared ensures w.shared[st].chunks == Emitted(front, st) { ChunksAreEmitted(front, st); }
      PlacedStep(front, w, a, i);
    } else {
      Arrival(w, a, i);
      NotYetThere(front, i, Extra(i, Register));
      NotYetThere(front, i, Extra(i, Unregister));
    }
  }
}
