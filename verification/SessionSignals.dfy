/** The close signal and the ways out of the select statement.  The channel is
    unbuffered and sent on once, so one signal reaches one additional session;
    it is not a broadcast. */
module SessionSignals {
  import opened Prelude
  import opened SessionWorld
  import opened SessionCounts
  import opened SessionHistory

  ghost function Senders(sessions: map<Sid, Session>, st: Sid): set<Sid> {
    set i | i in sessions && sessions[i].signalled == Some(st)
  }

  ghost function Signalled(sessions: map<Sid, Session>, st: Sid): set<Sid> {
    set j | j in sessions && sessions[j].on == st && InitialClosed in sessions[j].left
  }

  /** One session's history fits its program counter: it has left its select at
      most once, and exactly when it is past it; it has signalled at most once,
      and only when it is past the send. */
  predicate HistoryFits(i: Sid, s: Session) {
    && |s.left| == (if s.on != i && OnceRegistered(s.pc) && !s.pc.Attached? then 1 else 0)
    && (s.signalled.Some? ==> s.pc.Waiting? || s.pc.Drained? || s.pc.Panicked? || s.pc.Finished?)
    && (EscapeTyped in s.left ==> Escape.Escaped(s.seen))
  }

  ghost predicate SignalsAt(sessions: map<Sid, Session>, st: Sid, signals: nat) {
    |Senders(sessions, st)| == signals && |Signalled(sessions, st)| == signals
  }

  ghost predicate Signals(w: World) {
    && (forall i :: i in w.sessions ==> HistoryFits(i, w.sessions[i]))
    && (forall i :: i in w.sessions && w.sessions[i].signalled.Some? ==> w.sessions[i].signalled.value in w.shared)
    && (forall st :: st in w.shared ==> SignalsAt(w.sessions, st, w.shared[st].signals))
  }

  /** Nothing about signals changes when a session keeps its record of them. */
  lemma SignalsUpdate(w: World, w': World, i: Sid, s: Session)
    requires Signals(w) && w'.sessions == w.sessions[i := s] && HistoryFits(i, s)
    requires SameRecord(w.sessions, i, s)
    requires w.shared.Keys <= w'.shared.Keys
    requires forall st :: st in w.shared ==> w'.shared[st].signals == w.shared[st].signals
    requires forall st :: st in w'.shared && st !in w.shared ==>
      w'.shared[st].signals == 0 && Senders(w.sessions, st) == {} && Signalled(w.sessions, st) == {}
    ensures Signals(w')
  {
    forall st | st in w'.shared ensures SignalsAt(w'.sessions, st, w'.shared[st].signals) {
      SignalSetsKept(w.sessions, i, s, st);
    }
  }

  predicate SameRecord(sessions: map<Sid, Session>, i: Sid, s: Session) {
    if i in sessions
    then s.signalled == sessions[i].signalled && (InitialClosed in s.left <==> InitialClosed in sessions[i].left)
         && (s.on == sessions[i].on || InitialClosed !in s.left)
    else s.signalled.None? && InitialClosed !in s.left
  }

  lemma SignalSetsKept(sessions: map<Sid, Session>, i: Sid, s: Session, st: Sid)
    requires SameRecord(sessions, i, s)
    ensures Senders(sessions[i := s], st) == Senders(sessions, st)
    ensures Signalled(sessions[i := s], st) == Signalled(sessions, st)
  {
  }

  lemma SignalsExtra(w: World, i: Sid, step: ExtraStep)
    requires Signals(w) && Next(w, Extra(i, step)).Some? && RefsExist(w.shared, i, w.sessions[i])
    ensures Signals(Next(w, Extra(i, step)).value)
  {
    var s := w.sessions[i];
    assert HistoryFits(i, s);
    var r := ExtraNext(i, s, w.shared[s.on], step).value;
    ExtraHistory(i, s, w.shared[s.on], step);
    SignalsUpdate(w, Put(w, i, r), i, r.0);
  }

  lemma ExtraHistory(i: Sid, s: Session, sh: Shared, step: ExtraStep)
    requires HistoryFits(i, s) && (IsExtra(s.pc) ==> s.on != i) && ExtraNext(i, s, sh, step).Some?
    ensures var (s', sh') := ExtraNext(i, s, sh, step).value;
      && HistoryFits(i, s') && sh'.signals == sh.signals && s'.on == s.on && s'.signalled == s.signalled
      && (InitialClosed in s'.left <==> InitialClosed in s.left)
  {
  }

  lemma SignalsStream(w: World, i: Sid, step: StreamStep)
    requires Signals(w) && Next(w, Stream(i, step)).Some?
    ensures Signals(Next(w, Stream(i, step)).value)
  {
    var s := w.sessions[i];
    var r := StreamNext(i, s, w.shared[s.on], step).value;
    assert HistoryFits(i, s) && HistoryFits(i, r.0);
    SignalsUpdate(w, Put(w, i, r), i, r.0);
  }

  lemma SignalsMain(w: World, i: Sid, step: MainStep)
    requires Signals(w) && Next(w, Main(i, step)).Some? && RefsExist(w.shared, i, w.sessions[i])
    requires i !in w.shared ==> Senders(w.sessions, i) == {} && Signalled(w.sessions, i) == {}
    ensures Signals(Next(w, Main(i, step)).value)
  {
    var s := w.sessions[i];
    var s' := s.(pc := MainPc(w, s, step).value);
    assert HistoryFits(i, s') by { assert HistoryFits(i, s); MainHistory(w, i, s, step); }
    SignalsUpdate(w, MainEffect(w, i, s, step, s'.pc), i, s');
  }

  lemma MainHistory(w: World, i: Sid, s: Session, step: MainStep)
    requires HistoryFits(i, s) && RefsExist(w.shared, i, s) && MainPc(w, s, step).Some?
    ensures HistoryFits(i, s.(pc := MainPc(w, s, step).value))
  {
  }

  lemma UnpublishedIsUnsignalled(w: World, i: Sid)
    requires Shape(w) && Signals(w)
    ensures i !in w.shared ==> Senders(w.sessions, i) == {} && Signalled(w.sessions, i) == {}
  {
    forall j | j in w.sessions ensures w.sessions[j].on !in w.shared ==> InitialClosed !in w.sessions[j].left {
      assert RefsExist(w.shared, j, w.sessions[j]) && HistoryFits(j, w.sessions[j]);
    }
  }

  lemma SignalsArrival(w: World, a: Action)
    requires Signals(w) && (a.Connect? || a.Dispatch?) && Next(w, a).Some?
    requires a.i in w.sessions ==> RefsExist(w.shared, a.i, w.sessions[a.i])
    ensures Signals(Next(w, a).value)
  {
    var w' := Next(w, a).value;
    assert HistoryFits(a.i, w'.sessions[a.i]) by { assert a.i in w.sessions ==> HistoryFits(a.i, w.sessions[a.i]); }
    SignalsUpdate(w, w', a.i, w'.sessions[a.i]);
  }

  /** A rendezvous of i and j adds i to the senders and j to the signalled. */
  lemma RendezvousSets(sessions: map<Sid, Session>, i: Sid, s: Session, j: Sid, t: Session, st: Sid)
    requires i in sessions && j in sessions && i != j && sessions[i].signalled.None?
      && InitialClosed !in sessions[j].left
    requires s.on == sessions[i].on && s.left == sessions[i].left && s.signalled.Some?
    requires t.on == sessions[j].on && t.signalled == sessions[j].signalled && InitialClosed in t.left
    ensures var after := sessions[i := s][j := t];
      && Senders(after, st) == Senders(sessions, st) + (if s.signalled.value == st then {i} else {})
      && Signalled(after, st) == Signalled(sessions, st) + (if t.on == st then {j} else {})
  {
  }

  lemma RendezvousCounts(sessions: map<Sid, Session>, i: Sid, s: Session, j: Sid, t: Session, st: Sid, n: nat)
    requires i in sessions && j in sessions && i != j && sessions[i].signalled.None?
      && InitialClosed !in sessions[j].left
    requires s.on == sessions[i].on && s.left == sessions[i].left && s.signalled == Some(t.on)
    requires t.on == sessions[j].on && t.signalled == sessions[j].signalled && InitialClosed in t.left
    requires SignalsAt(sessions, st, n)
    ensures SignalsAt(sessions[i := s][j := t], st, if t.on == st then n + 1 else n)
  {
    RendezvousSets(sessions, i, s, j, t, st);
    assert i !in Senders(sessions, st) && j !in Signalled(sessions, st);
  }

  lemma RendezvousHistory(i: Sid, s: Session, j: Sid, t: Session)
    requires HistoryFits(i, s) && HistoryFits(j, t) && s.pc.Sending? && t.pc.Attached? && t.on != j
    ensures s.signalled.None? && t.left == []
    ensures HistoryFits(i, s.(pc := Waiting(Some(s.pc.v)), signalled := Some(s.pc.c)))
    ensures HistoryFits(j, t.(pc := Leaving, left := t.left + [InitialClosed]))
  {
  }

  lemma SignalsSignal(w: World, i: Sid, j: Sid)
    requires Signals(w) && Next(w, Signal(i, j)).Some? && RefsExist(w.shared, j, w.sessions[j])
    ensures Signals(Next(w, Signal(i, j)).value)
  {
    var w' := Next(w, Signal(i, j)).value;
    var s, t := w.sessions[i], w.sessions[j];
    var s' := s.(pc := Waiting(Some(s.pc.v)), signalled := Some(s.pc.c));
    var t' := t.(pc := Leaving, left := t.left + [InitialClosed]);
    RendezvousHistory(i, s, j, t);
    forall st | st in w'.shared ensures SignalsAt(w'.sessions, st, w'.shared[st].signals) {
      RendezvousCounts(w.sessions, i, s', j, t', st, w.shared[st].signals);
    }
  }

  lemma SignalsStep(w: World, a: Action)
    requires Shape(w) && Signals(w) && Next(w, a).Some?
    ensures Signals(Next(w, a).value)
  {
    match a
    case Main(i, step) =>
      UnpublishedIsUnsignalled(w, i);
      SignalsMain(w, i, step);
    case Extra(i, step) => SignalsExtra(w, i, step);
    case Stream(i, step) => SignalsStream(w, i, step);
    case Signal(i, j) => SignalsSignal(w, i, j);
    case _ => SignalsArrival(w, a);
  }

  lemma {:induction false} SignalsRun(w: World, run: seq<Action>)
    requires Shape(w) && Signals(w) && After(w, run).Some?
    ensures Shape(After(w, run).value) && Signals(After(w, run).value)
    decreases |run|
  {
    if run != [] {
      ShapeStep(w, run[0]);
      SignalsStep(w, run[0]);
      SignalsRun(Next(w, run[0]).value, run[1..]);
    }
  }

  /** Over every run: on each State as many signals were sent as additional
      sessions left because of one, which is also the number of initial sessions
      that sent one there. */
  lemma SignalsAreRendezvous(run: seq<Action>, st: Sid)
    requires After(START, run).Some? && st in After(START, run).value.shared
    ensures var w := After(START, run).value;
      w.shared[st].signals == |Senders(w.sessions, st)| == |Signalled(w.sessions, st)|
  {
    SignalsRun(START, run);
  }

  /** What one send achieves, in every world: no additional session is left in
      the select of the State afterwards if and only if the receiver was the only
      one in it before. */
  lemma SignalReachesAllIff(w: World, i: Sid, j: Sid)
    requires Next(w, Signal(i, j)).Some?
    ensures var w', c := Next(w, Signal(i, j)).value, w.sessions[i].pc.c;
      (forall k :: k in w'.sessions && w'.sessions[k].on == c ==> w'.sessions[k].pc != Attached)
      <==> (forall k :: k in w.sessions && w.sessions[k].on == c && w.sessions[k].pc == Attached ==> k == j)
    ensures var s := Next(w, Signal(i, j)).value.sessions[i];
      s.pc == Waiting(Some(w.sessions[i].pc.v)) && s.signalled == Some(w.sessions[i].pc.c)
  {
    var w' := Next(w, Signal(i, j)).value;
    assert forall k :: k in w.sessions && k != j ==> (w'.sessions[k].pc == Attached <==> w.sessions[k].pc == Attached);
    assert forall k :: k in w.sessions ==> k in w'.sessions && w'.sessions[k].on == w.sessions[k].on;
  }

  /** Over every run: an additional session has left its select exactly once when
      it is past it and not at all before, and it left through the escape case
      only if its own watcher had seen an escape. */
  lemma LeavesSelectOnce(run: seq<Action>, i: Sid)
    requires After(START, run).Some? && i in After(START, run).value.sessions
    ensures var s := After(START, run).value.sessions[i];
      var left := Told(run, i).left;
      && |left| <= 1
      && (s.on != i ==> (|left| == 1 <==> OnceRegistered(s.pc) && s.pc != Attached))
      && (EscapeTyped in left ==> Escape.Escaped(s.seen))
  {
    SignalsRun(START, run);
    RecordsAreTheRun(run, i);
    assert HistoryFits(i, After(START, run).value.sessions[i]);
  }
}
