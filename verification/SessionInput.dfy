/** The shared stdin and the escape watchers: the stdin is an interleaving of
    whole chunks that keeps every session's order, and each watcher sees the
    bytes of its own session only. */
module SessionInput {
  import opened Prelude
  import opened Escape
  import opened SessionWorld
  import opened SessionCounts
  import opened SessionHistory
  import opened SessionSignals

  /** The watcher has read a prefix of what its session forwarded and stopped at
      the first escape in it; sessions without streams have no input yet. */
  ghost predicate WatcherFits(s: Session) {
    && |s.broken| <= 1
    && s.seen + s.pending == Flat(s.typed)
    && (s.seen != [] ==> !Escaped(s.seen[..|s.seen| - 1]))
    && (!HasStreams(s.pc) ==> s.typed == [] && s.broken == [])
  }

  predicate FeedsInto(sessions: map<Sid, Session>, st: Sid, i: Sid) {
    i in sessions && sessions[i].on == st
  }

  /** st's stdin holds exactly what session i wrote, in i's order. */
  ghost predicate InputFor(sessions: map<Sid, Session>, st: Sid, sh: Shared, i: Sid) {
    Entries(sh.stdin, i) == if FeedsInto(sessions, st, i) then sessions[i].typed + sessions[i].broken else []
  }

  ghost predicate InputAt(sessions: map<Sid, Session>, st: Sid, sh: Shared) {
    forall i: Sid :: InputFor(sessions, st, sh, i)
  }

  ghost predicate Input(w: World) {
    && (forall i :: i in w.sessions ==> WatcherFits(w.sessions[i]))
    && (forall st :: st in w.shared ==> InputAt(w.sessions, st, w.shared[st]))
  }

  lemma InputUpdate(sessions: map<Sid, Session>, i: Sid, s: Session, st: Sid, sh: Shared, sh': Shared)
    requires InputAt(sessions, st, sh) && InputFor(sessions[i := s], st, sh', i)
    requires sh'.stdin == sh.stdin || exists c: Bytes :: sh'.stdin == sh.stdin + [(i, c)]
    ensures InputAt(sessions[i := s], st, sh')
  {
    var after := sessions[i := s];
    forall j: Sid ensures InputFor(after, st, sh', j) {
      assert InputFor(sessions, st, sh, j);
      if sh'.stdin != sh.stdin {
        var c: Bytes :| sh'.stdin == sh.stdin + [(i, c)];
        EntriesAppend(sh.stdin, (i, c), j);
      }
    }
  }

  /** A change that leaves the session's input alone. */
  lemma InputUnmoved(w: World, w': World, i: Sid, s: Session)
    requires Input(w) && i in w.sessions && w'.sessions == w.sessions[i := s] && WatcherFits(s)
    requires s.on == w.sessions[i].on && s.typed == w.sessions[i].typed && s.broken == w.sessions[i].broken
    requires w'.shared.Keys == w.shared.Keys && forall st :: st in w.shared ==>
      w'.shared[st].stdin == w.shared[st].stdin
    ensures Input(w')
  {
    forall st | st in w'.shared ensures InputAt(w'.sessions, st, w'.shared[st]) {
      assert InputFor(w.sessions, st, w.shared[st], i);
      InputUpdate(w.sessions, i, s, st, w.shared[st], w'.shared[st]);
    }
  }

  /** Reading one byte keeps the watcher on the forwarded stream. */
  lemma WatchFits(i: Sid, s: Session, sh: Shared)
    requires WatcherFits(s) && StreamNext(i, s, sh, Watch).Some?
    ensures WatcherFits(StreamNext(i, s, sh, Watch).value.0)
  {
    var s' := StreamNext(i, s, sh, Watch).value.0;
    assert s'.seen[..|s'.seen| - 1] == s.seen;
    assert s.pending == s.pending[..1] + s.pending[1..];
    assert s'.seen + s'.pending == s.seen + s.pending;
  }

  lemma ForwardFits(i: Sid, s: Session, sh: Shared, step: StreamStep)
    requires WatcherFits(s) && (step.Forward? || step.ForwardFails?) && StreamNext(i, s, sh, step).Some?
    ensures var (s', sh') := StreamNext(i, s, sh, step).value;
      && WatcherFits(s') && s'.on == s.on
      && exists c: Bytes :: sh'.stdin == sh.stdin + [(i, c)] && s'.typed + s'.broken == s.typed + s.broken + [c]
  {
    var (s', sh') := StreamNext(i, s, sh, step).value;
    if step.Forward? {
      FlatAppend(s.typed, step.input);
      assert sh'.stdin == sh.stdin + [(i, step.input)] && s'.typed + s'.broken == s.typed + s.broken + [step.input];
    } else {
      assert sh'.stdin == sh.stdin + [(i, step.lost[..step.n])]
        && s'.typed + s'.broken == s.typed + s.broken + [step.lost[..step.n]];
    }
  }

  lemma InputForward(w: World, i: Sid, step: StreamStep)
    requires Input(w) && (step.Forward? || step.ForwardFails?) && Next(w, Stream(i, step)).Some?
    ensures Input(Next(w, Stream(i, step)).value)
  {
    var s := w.sessions[i];
    var sh := w.shared[s.on];
    var (s', sh') := StreamNext(i, s, sh, step).value;
    ForwardFits(i, s, sh, step);
    var c: Bytes :| sh'.stdin == sh.stdin + [(i, c)] && s'.typed + s'.broken == s.typed + s.broken + [c];
    var w' := Put(w, i, (s', sh'));
    forall st | st in w'.shared ensures InputAt(w'.sessions, st, w'.shared[st]) {
      assert InputFor(w.sessions, st, w.shared[st], i);
      EntriesAppend(sh.stdin, (i, c), i);
      InputUpdate(w.sessions, i, s', st, w.shared[st], w'.shared[st]);
    }
  }

  lemma InputStream(w: World, i: Sid, step: StreamStep)
    requires Input(w) && Next(w, Stream(i, step)).Some?
    ensures Input(Next(w, Stream(i, step)).value)
  {
    if step.Forward? || step.ForwardFails? {
      InputForward(w, i, step);
    } else {
      var s := w.sessions[i];
      var r := StreamNext(i, s, w.shared[s.on], step).value;
      OtherStreams(i, s, w.shared[s.on], step);
      InputUnmoved(w, Put(w, i, r), i, r.0);
    }
  }

  lemma OtherStreams(i: Sid, s: Session, sh: Shared, step: StreamStep)
    requires WatcherFits(s) && !step.Forward? && !step.ForwardFails? && StreamNext(i, s, sh, step).Some?
    ensures var (s', sh') := StreamNext(i, s, sh, step).value;
      && WatcherFits(s') && s'.on == s.on && s'.typed == s.typed && s'.broken == s.broken && sh'.stdin == sh.stdin
  {
    if step.Watch? { WatchFits(i, s, sh); }
  }

  lemma InputExtra(w: World, i: Sid, step: ExtraStep)
    requires Input(w) && Next(w, Extra(i, step)).Some?
    ensures Input(Next(w, Extra(i, step)).value)
  {
    var s := w.sessions[i];
    var r := ExtraNext(i, s, w.shared[s.on], step).value;
    ExtraKeepsInput(i, s, w.shared[s.on], step);
    InputUnmoved(w, Put(w, i, r), i, r.0);
  }

  lemma ExtraKeepsInput(i: Sid, s: Session, sh: Shared, step: ExtraStep)
    requires WatcherFits(s) && ExtraNext(i, s, sh, step).Some?
    ensures var (s', sh') := ExtraNext(i, s, sh, step).value;
      && WatcherFits(s') && s'.on == s.on && s'.typed == s.typed && s'.broken == s.broken && sh'.stdin == sh.stdin
  {
    assert HasStreams(s.pc) ==> HasStreams(ExtraNext(i, s, sh, step).value.0.pc);
  }

  lemma InputSignal(w: World, i: Sid, j: Sid)
    requires Input(w) && Next(w, Signal(i, j)).Some?
    ensures Input(Next(w, Signal(i, j)).value)
  {
    var w' := Next(w, Signal(i, j)).value;
    var mid := w.(sessions := w.sessions[i := w'.sessions[i]]);
    assert WatcherFits(w.sessions[i]) && WatcherFits(w.sessions[j]);
    InputUnmoved(w, mid, i, w'.sessions[i]);
    assert w'.sessions == mid.sessions[j := w'.sessions[j]];
    InputUnmoved(mid, w', j, w'.sessions[j]);
  }

  lemma FreshInput(sessions: map<Sid, Session>, st: Sid)
    requires forall j :: j in sessions && sessions[j].on == st ==> sessions[j].typed == [] && sessions[j].broken == []
    ensures InputAt(sessions, st, NEW_STATE)
  {
  }

  lemma UnpublishedIsUnfed(w: World, i: Sid)
    requires Shape(w) && Input(w)
    ensures forall j :: j in w.sessions && w.sessions[j].on !in w.shared ==>
      w.sessions[j].typed == [] && w.sessions[j].broken == []
  {
    forall j | j in w.sessions ensures w.sessions[j].on !in w.shared ==>
      w.sessions[j].typed == [] && w.sessions[j].broken == [] {
      assert RefsExist(w.shared, j, w.sessions[j]) && WatcherFits(w.sessions[j]);
    }
  }

  lemma InputMain(w: World, i: Sid, step: MainStep)
    requires Input(w) && Next(w, Main(i, step)).Some? && RefsExist(w.shared, i, w.sessions[i])
    requires forall j :: j in w.sessions && w.sessions[j].on !in w.shared ==>
      w.sessions[j].typed == [] && w.sessions[j].broken == []
    ensures Input(Next(w, Main(i, step)).value)
  {
    var s := w.sessions[i];
    var pc := MainPc(w, s, step).value;
    var w' := MainEffect(w, i, s, step, pc);
    assert WatcherFits(s.(pc := pc)) by { assert WatcherFits(s); MainStreams(w, s, step); }
    InputUnmoved(w, w'.(shared := w.shared), i, s.(pc := pc));
    if step.Publish? { FreshInput(w'.sessions, i); }
  }

  lemma MainStreams(w: World, s: Session, step: MainStep)
    requires MainPc(w, s, step).Some?
    ensures HasStreams(s.pc) ==> HasStreams(MainPc(w, s, step).value)
  {
  }

  lemma InputArrival(w: World, a: Action)
    requires Input(w) && (a.Connect? || a.Dispatch?) && Next(w, a).Some?
    ensures Input(Next(w, a).value)
  {
    var w' := Next(w, a).value;
    var s := w'.sessions[a.i];
    assert a.i in w.sessions ==> WatcherFits(w.sessions[a.i]);
    assert WatcherFits(s) && s.typed == [] && s.broken == [];
    forall st | st in w'.shared ensures InputAt(w'.sessions, st, w'.shared[st]) {
      assert InputFor(w.sessions, st, w.shared[st], a.i);
      InputUpdate(w.sessions, a.i, s, st, w.shared[st], w'.shared[st]);
    }
  }

  lemma InputStep(w: World, a: Action)
    requires Shape(w) && Input(w) && Next(w, a).Some?
    ensures Input(Next(w, a).value)
  {
    match a
    case Main(i, step) =>
      UnpublishedIsUnfed(w, i);
      InputMain(w, i, step);
    case Extra(i, step) => InputExtra(w, i, step);
    case Stream(i, step) => InputStream(w, i, step);
    case Signal(i, j) => InputSignal(w, i, j);
    case _ => InputArrival(w, a);
  }

  lemma {:induction false} InputRun(w: World, run: seq<Action>)
    requires Shape(w) && Input(w) && After(w, run).Some?
    ensures Input(After(w, run).value)
    decreases |run|
  {
    if run != [] {
      ShapeStep(w, run[0]);
      InputStep(w, run[0]);
      InputRun(Next(w, run[0]).value, run[1..]);
    }
  }

  /** For every interleaving: the writes to a State's stdin that carry session
      i's tag are exactly the chunks that i's terminal sent in the run, whole and
      in order, followed by what a failing write took of one more; no session on
      another State appears in it. */
  lemma StdinIsAnInterleaving(run: seq<Action>, st: Sid, i: Sid)
    requires After(START, run).Some? && st in After(START, run).value.shared
    ensures var w := After(START, run).value;
      && (FeedsInto(w.sessions, st, i) ==>
            Entries(w.shared[st].stdin, i) == Told(run, i).typed + Told(run, i).broken && |Told(run, i).broken| <= 1)
      && (!FeedsInto(w.sessions, st, i) ==> Entries(w.shared[st].stdin, i) == [])
  {
    InputRun(START, run);
    var w := After(START, run).value;
    assert InputAt(w.sessions, st, w.shared[st]);
    assert InputFor(w.sessions, st, w.shared[st], i);
    assert i in w.sessions ==> WatcherFits(w.sessions[i]);
    RecordsAreTheRun(run, i);
  }

  /** For every interleaving and every session, initial or additional: what its
      watcher has read is the beginning of what its terminal sent in the run, of
      the length of its reads; the
      watcher has seen an escape exactly when its last byte completes one there,
      and no byte before that completes one. */
  lemma WatchersReadTheirOwn(run: seq<Action>, i: Sid)
    requires After(START, run).Some? && i in After(START, run).value.sessions
    ensures var s := After(START, run).value.sessions[i];
      var sent, n := Flat(Told(run, i).typed), Told(run, i).watched;
      && n <= |sent| && s.seen == sent[..n]
      && (Escaped(s.seen) <==> 0 < n && EscapeAt(sent, n - 1))
      && forall k :: 0 <= k < n - 1 ==> !EscapeAt(sent, k)
  {
    InputRun(START, run);
    var s := After(START, run).value.sessions[i];
    assert WatcherFits(s);
    RecordsAreTheRun(run, i);
    assert s.seen == (s.seen + s.pending)[..|s.seen|];
    if s.seen != [] { LastByteDecides(s.seen, s.pending); }
  }

  /** A session leaves through the escape case only if the bytes its own terminal
      sent complete an escape; what the other sessions typed in between plays no
      part, and the watcher stopped at the first one. */
  lemma EscapesAreOwn(run: seq<Action>, i: Sid)
    requires After(START, run).Some? && i in After(START, run).value.sessions
    requires EscapeTyped in Told(run, i).left
    ensures var sent, n := Flat(Told(run, i).typed), Told(run, i).watched;
      && 0 < n <= |sent| && EscapeAt(sent, n - 1)
      && forall k :: 0 <= k < n - 1 ==> !EscapeAt(sent, k)
  {
    LeavesSelectOnce(run, i);
    WatchersReadTheirOwn(run, i);
  }

  lemma LastByteDecides(seen: Bytes, rest: Bytes)
    requires seen != [] && !Escaped(seen[..|seen| - 1])
    ensures Escaped(seen) <==> EscapeAt(seen + rest, |seen| - 1)
    ensures forall k :: 0 <= k < |seen| - 1 ==> !EscapeAt(seen + rest, k)
  {
    var n := |seen| - 1;
    var front, b := seen[..n], seen[n];
    assert seen == front + [b];
    EscapedExtend(front, b);
    TildesBeforePrefix(seen, rest, n);
    forall k | 0 <= k < n ensures !EscapeAt(seen + rest, k) {
      assert seen + rest == front + (seen + rest)[n..];
      TildesBeforePrefix(front, (seen + rest)[n..], k);
      assert !EscapeAt(front, k);
    }
  }
}
