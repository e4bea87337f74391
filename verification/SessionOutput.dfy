/** What each additional session receives of the BMC output: one contiguous run
    of whole chunks, from the chunk after its Add to its Remove, cut short only
    by the write that ended the copy. */
module SessionOutput {
  import opened Prelude
  import opened MultiWriters
  import opened SessionWorld
  import opened SessionCounts
  import opened SessionHistory

  /** Session i is or was one of st's writers. */
  predicate WasWriter(sessions: map<Sid, Session>, st: Sid, i: Sid) {
    i in sessions && i != st && sessions[i].on == st && OnceRegistered(sessions[i].pc)
  }

  predicate InCut(sh: Shared, i: Sid) {
    sh.cut.Some? && i in sh.cut.value.writers
  }

  function IndexOf(s: seq<Sid>, x: Sid): (k: nat)
    requires x in s
    ensures k < |s| && s[k] == x
  {
    if s[0] == x then 0 else 1 + IndexOf(s[1..], x)
  }

  /** Number of chunks emitted up to the session's Remove, or so far. */
  function EndOf(s: Session, sh: Shared): nat {
    if s.pc.Attached? || s.pc.Leaving? then |sh.chunks| else s.upto
  }

  /** What is left of the last chunk for the writer at position k of a cut. */
  function CutShare(cut: Cut, k: nat, last: Bytes): Bytes {
    if k < cut.at then last else if k == cut.at && cut.n <= |last| then last[..cut.n] else []
  }

  /** The part of the output that is due to a session. */
  function Segment(chunks: seq<Bytes>, from: nat, to: nat): Bytes {
    if from <= to <= |chunks| then Flat(chunks[from..to]) else []
  }

  ghost predicate CutFits(sh: Shared) {
    sh.cut.Some? ==>
      && sh.chunks != []
      && Distinct(sh.cut.value.writers)
      && sh.cut.value.at < |sh.cut.value.writers|
      && sh.cut.value.n <= |sh.chunks[|sh.chunks| - 1]|
  }

  /** Session i has received exactly its segment of st's output. */
  ghost predicate GotSegment(s: Session, sh: Shared, i: Sid)
    requires CutFits(sh)
  {
    && s.from <= EndOf(s, sh) <= |sh.chunks|
    && if InCut(sh, i) then
         var m := |sh.chunks| - 1;
         && s.from <= m && EndOf(s, sh) == |sh.chunks|
         && Received(sh.log, i)
            == Segment(sh.chunks, s.from, m) + CutShare(sh.cut.value, IndexOf(sh.cut.value.writers, i), sh.chunks[m])
       else
         Received(sh.log, i) == Segment(sh.chunks, s.from, EndOf(s, sh))
  }

  ghost predicate OutputFor(sessions: map<Sid, Session>, st: Sid, sh: Shared, i: Sid)
    requires CutFits(sh)
  {
    if WasWriter(sessions, st, i) then GotSegment(sessions[i], sh, i)
    else Received(sh.log, i) == [] && !InCut(sh, i)
  }

  ghost predicate OutputAt(sessions: map<Sid, Session>, st: Sid, sh: Shared) {
    CutFits(sh) && forall i: Sid :: OutputFor(sessions, st, sh, i)
  }

  ghost predicate Output(w: World) {
    forall st :: st in w.shared ==> OutputAt(w.sessions, st, w.shared[st])
  }

  /** Only the moved session's own view has to be re-established. */
  lemma OutputUpdate(sessions: map<Sid, Session>, i: Sid, s: Session, st: Sid, sh: Shared, sh': Shared)
    requires OutputAt(sessions, st, sh)
    requires sh'.chunks == sh.chunks && sh'.log == sh.log && sh'.cut == sh.cut
    requires OutputFor(sessions[i := s], st, sh', i)
    ensures OutputAt(sessions[i := s], st, sh')
  {
    var after := sessions[i := s];
    forall j: Sid ensures OutputFor(after, st, sh', j) {
      assert OutputFor(sessions, st, sh, j);
    }
  }

  lemma SegmentAppend(chunks: seq<Bytes>, c: Bytes, from: nat, to: nat)
    requires from <= to <= |chunks|
    ensures Segment(chunks + [c], from, to) == Segment(chunks, from, to)
    ensures Segment(chunks + [c], from, |chunks| + 1) == Segment(chunks, from, |chunks|) + c
  {
    assert (chunks + [c])[from..to] == chunks[from..to];
    assert (chunks + [c])[from..|chunks| + 1] == chunks[from..|chunks|] + [c];
    FlatAppend(chunks[from..|chunks|], c);
  }

  /** One emitted chunk reaches the writers as DeliveredAt says. */
  lemma EmitFor(sessions: map<Sid, Session>, st: Sid, sh: Shared, sh': Shared, chunk: Bytes, outcomes: seq<Outcome>,
    i: Sid)
    requires CutFits(sh) && OutputFor(sessions, st, sh, i) && sh.cut.None?
    requires Distinct(sh.writers) && Answers(outcomes, |sh.writers|, chunk)
    requires i in sh.writers <==>
      i in sessions && sessions[i].on == st && (sessions[i].pc.Attached? || sessions[i].pc.Leaving?)
    requires st !in sh.writers
    requires sh'.chunks == sh.chunks + [chunk] && sh'.log == sh.log + Deliveries(sh.writers, outcomes, chunk)
    requires var at := StopAt(outcomes, chunk);
      sh'.cut == if at < |sh.writers| then Some(Cut(sh.writers, at, outcomes[at].n)) else None
    ensures CutFits(sh') && OutputFor(sessions, st, sh', i)
  {
    ReceivedConcat(sh.log, Deliveries(sh.writers, outcomes, chunk), i);
    if i in sh.writers {
      EmitToWriter(sessions[i], sh, sh', chunk, outcomes, i);
    } else {
      DeliveredElsewhere(sh.writers, outcomes, chunk, i);
      if WasWriter(sessions, st, i) { SegmentAppend(sh.chunks, chunk, sessions[i].from, sessions[i].upto); }
    }
  }

  lemma EmitToWriter(s: Session, sh: Shared, sh': Shared, chunk: Bytes, outcomes: seq<Outcome>, i: Sid)
    requires CutFits(sh) && CutFits(sh') && sh.cut.None? && GotSegment(s, sh, i) && (s.pc.Attached? || s.pc.Leaving?)
    requires Distinct(sh.writers) && Answers(outcomes, |sh.writers|, chunk) && i in sh.writers
    requires sh'.chunks == sh.chunks + [chunk]
    requires Received(sh'.log, i) == Received(sh.log, i) + Received(Deliveries(sh.writers, outcomes, chunk), i)
    requires var at := StopAt(outcomes, chunk);
      sh'.cut == if at < |sh.writers| then Some(Cut(sh.writers, at, outcomes[at].n)) else None
    ensures GotSegment(s, sh', i)
  {
    var share := Received(Deliveries(sh.writers, outcomes, chunk), i);
    assert share == if sh'.cut.Some? then CutShare(sh'.cut.value, IndexOf(sh.writers, i), chunk) else chunk by {
      DeliveredAt(sh.writers, outcomes, chunk, IndexOf(sh.writers, i));
    }
    SegmentAppend(sh.chunks, chunk, s.from, |sh.chunks|);
  }

  lemma OutputEmit(w: World, i: Sid, step: StreamStep)
    requires Shape(w) && Counts(w) && Output(w) && step.Emit? && Next(w, Stream(i, step)).Some?
    ensures Output(Next(w, Stream(i, step)).value)
  {
    var s := w.sessions[i];
    var w' := Next(w, Stream(i, step)).value;
    assert w'.sessions == w.sessions;
    forall st | st in w'.shared ensures OutputAt(w'.sessions, st, w'.shared[st]) {
      assert OutputAt(w.sessions, st, w.shared[st]);
      if st == i {
        assert CountsAt(w.sessions, st, w.shared[st]);
        OwnerNotAWriter(w, st);
        forall j: Sid ensures CutFits(w'.shared[st]) && OutputFor(w.sessions, st, w'.shared[st], j) {
          EmitFor(w.sessions, st, w.shared[st], w'.shared[st], step.chunk, step.outcomes, j);
        }
      }
    }
  }

  lemma OwnerNotAWriter(w: World, st: Sid)
    requires Shape(w) && st in w.shared && CountsAt(w.sessions, st, w.shared[st])
    ensures st !in w.shared[st].writers
  {
    assert RefsExist(w.shared, st, w.sessions[st]);
  }

  lemma OutputExtra(w: World, i: Sid, step: ExtraStep)
    requires Output(w) && Next(w, Extra(i, step)).Some? && RefsExist(w.shared, i, w.sessions[i])
    ensures Output(Next(w, Extra(i, step)).value)
  {
    var s := w.sessions[i];
    var r := ExtraNext(i, s, w.shared[s.on], step).value;
    var w' := Put(w, i, r);
    forall st | st in w'.shared ensures OutputAt(w'.sessions, st, w'.shared[st]) {
      assert OutputAt(w.sessions, st, w.shared[st]);
      assert OutputFor(w.sessions, st, w.shared[st], i);
      ExtraSegment(w.sessions, i, w.shared[s.on], step, st, w.shared[st], w'.shared[st]);
      OutputUpdate(w.sessions, i, r.0, st, w.shared[st], w'.shared[st]);
    }
  }

  /** A session's steps move its segment along: empty at Add, closed at Remove. */
  lemma ExtraSegment(sessions: map<Sid, Session>, i: Sid, on: Shared, step: ExtraStep, st: Sid, sh: Shared, sh': Shared)
    requires i in sessions && ExtraNext(i, sessions[i], on, step).Some? && sessions[i].on != i
    requires CutFits(sh) && OutputFor(sessions, st, sh, i)
    requires sessions[i].on == st ==> sh == on
    requires sh' == if sessions[i].on == st then ExtraNext(i, sessions[i], on, step).value.1 else sh
    ensures sh'.chunks == sh.chunks && sh'.log == sh.log && sh'.cut == sh.cut
    ensures OutputFor(sessions[i := ExtraNext(i, sessions[i], on, step).value.0], st, sh', i)
  {
    if sessions[i].on == st { ExtraGot(i, sessions[i], sh, step); }
  }

  /** What a session has received so far, seen from the State it is on. */
  ghost predicate GotSoFar(s: Session, sh: Shared, i: Sid)
    requires CutFits(sh)
  {
    if OnceRegistered(s.pc) then GotSegment(s, sh, i) else Received(sh.log, i) == [] && !InCut(sh, i)
  }

  lemma ExtraGot(i: Sid, s: Session, sh: Shared, step: ExtraStep)
    requires CutFits(sh) && ExtraNext(i, s, sh, step).Some? && GotSoFar(s, sh, i)
    ensures var (s', sh') := ExtraNext(i, s, sh, step).value; CutFits(sh') && s'.on == s.on && GotSoFar(s', sh', i)
  {
    if step.Register? { assert sh.chunks[|sh.chunks|..|sh.chunks|] == []; }
  }

  lemma OutputStream(w: World, i: Sid, step: StreamStep)
    requires Output(w) && !step.Emit? && Next(w, Stream(i, step)).Some?
    ensures Output(Next(w, Stream(i, step)).value)
  {
    var s := w.sessions[i];
    var r := StreamNext(i, s, w.shared[s.on], step).value;
    var w' := Put(w, i, r);
    forall st | st in w'.shared ensures OutputAt(w'.sessions, st, w'.shared[st]) {
      assert OutputAt(w.sessions, st, w.shared[st]);
      assert OutputFor(w.sessions, st, w.shared[st], i);
      OutputUpdate(w.sessions, i, r.0, st, w.shared[st], w'.shared[st]);
    }
  }

  lemma FreshOutput(sessions: map<Sid, Session>, st: Sid)
    requires forall j :: j in sessions && j != st && sessions[j].on == st ==> !OnceRegistered(sessions[j].pc)
    ensures OutputAt(sessions, st, NEW_STATE)
  {
    forall j: Sid ensures OutputFor(sessions, st, NEW_STATE, j) { assert !WasWriter(sessions, st, j); }
  }

  lemma MainIsOwner(w: World, i: Sid, s: Session, step: MainStep)
    requires MainPc(w, s, step).Some? && RefsExist(w.shared, i, s)
    ensures s.on == i
  {
  }

  lemma OutputMain(w: World, i: Sid, step: MainStep)
    requires Output(w) && Next(w, Main(i, step)).Some? && RefsExist(w.shared, i, w.sessions[i])
    requires forall j :: j in w.sessions && w.sessions[j].on !in w.shared ==> !OnceRegistered(w.sessions[j].pc)
    ensures Output(Next(w, Main(i, step)).value)
  {
    var s := w.sessions[i];
    var pc := MainPc(w, s, step).value;
    var w' := MainEffect(w, i, s, step, pc);
    assert s.on == i by { MainIsOwner(w, i, s, step); }
    forall st | st in w'.shared ensures OutputAt(w'.sessions, st, w'.shared[st]) {
      if step.Publish? && st == i {
        FreshOutput(w'.sessions, i);
      } else {
        assert OutputAt(w.sessions, st, w.shared[st]);
        assert OutputFor(w.sessions, st, w.shared[st], i);
        OutputUpdate(w.sessions, i, s.(pc := pc), st, w.shared[st], w'.shared[st]);
      }
    }
  }

  lemma OutputArrival(w: World, a: Action)
    requires Output(w) && (a.Connect? || a.Dispatch?) && Next(w, a).Some?
    ensures Output(Next(w, a).value)
  {
    var w' := Next(w, a).value;
    forall st | st in w'.shared ensures OutputAt(w'.sessions, st, w'.shared[st]) {
      assert OutputAt(w.sessions, st, w.shared[st]);
      assert OutputFor(w.sessions, st, w.shared[st], a.i);
      OutputUpdate(w.sessions, a.i, w'.sessions[a.i], st, w.shared[st], w'.shared[st]);
    }
  }

  lemma OutputSignal(w: World, i: Sid, j: Sid)
    requires Output(w) && Next(w, Signal(i, j)).Some? && RefsExist(w.shared, i, w.sessions[i])
    ensures Output(Next(w, Signal(i, j)).value)
  {
    var w' := Next(w, Signal(i, j)).value;
    forall st | st in w'.shared ensures OutputAt(w'.sessions, st, w'.shared[st]) {
      SignalOutput(w.sessions, i, w'.sessions[i], j, w'.sessions[j], st, w.shared[st], w'.shared[st]);
    }
  }

  lemma SignalOutput(sessions: map<Sid, Session>, i: Sid, s: Session, j: Sid, t: Session, st: Sid, sh: Shared,
    sh': Shared)
    requires OutputAt(sessions, st, sh) && i in sessions && j in sessions && i != j
    requires sessions[i].pc.Sending? && s.pc.Waiting? && s.on == sessions[i].on
    requires sessions[j].pc.Attached? && t.pc.Leaving? && t.on == sessions[j].on && t.from == sessions[j].from
    requires sh'.chunks == sh.chunks && sh'.log == sh.log && sh'.cut == sh.cut
    ensures OutputAt(sessions[i := s][j := t], st, sh')
  {
    var mid := sessions[i := s];
    assert OutputFor(sessions, st, sh, i) && OutputFor(sessions, st, sh, j);
    OutputUpdate(sessions, i, s, st, sh, sh);
    OutputUpdate(mid, j, t, st, sh, sh');
  }

  lemma OutputStep(w: World, a: Action)
    requires Shape(w) && Counts(w) && Output(w) && Next(w, a).Some?
    ensures Output(Next(w, a).value)
  {
    match a
    case Main(i, step) =>
      UnpublishedHasNoWriters(w);
      OutputMain(w, i, step);
    case Extra(i, step) => OutputExtra(w, i, step);
    case Stream(i, step) => if step.Emit? { OutputEmit(w, i, step); } else { OutputStream(w, i, step); }
    case Signal(i, j) => OutputSignal(w, i, j);
    case _ => OutputArrival(w, a);
  }

  lemma UnpublishedHasNoWriters(w: World)
    requires Shape(w)
    ensures forall j :: j in w.sessions && w.sessions[j].on !in w.shared ==> !OnceRegistered(w.sessions[j].pc)
  {
    forall j | j in w.sessions ensures w.sessions[j].on !in w.shared ==> !OnceRegistered(w.sessions[j].pc) {
      assert RefsExist(w.shared, j, w.sessions[j]);
    }
  }

  lemma {:induction false} OutputRun(w: World, run: seq<Action>)
    requires Shape(w) && Counts(w) && Output(w) && After(w, run).Some?
    ensures Output(After(w, run).value)
    decreases |run|
  {
    if run != [] {
      ShapeStep(w, run[0]);
      CountsStep(w, run[0]);
      OutputStep(w, run[0]);
      OutputRun(Next(w, run[0]).value, run[1..]);
    }
  }

  /** What the run's failing write left of a chunk for the writer at position k. */
  function Share(end: (nat, nat), k: nat, last: Bytes): Bytes {
    if k < end.0 then last else if k == end.0 && end.1 <= |last| then last[..end.1] else []
  }

  /** For every interleaving of Add, Remove and Write and every failure of any
      writer: an additional session was added once, at step p, and removed at step
      q (or is still a writer and q is now), and it has received exactly the
      chunks that the BMC emitted between these two steps, in order and in full --
      except that the write which ended the copy gives the writer that failed a
      prefix of the last chunk and the writers behind it none of it. */
  lemma ContiguousOutput(run: seq<Action>, st: Sid, i: Sid) returns (p: nat, q: nat)
    requires After(START, run).Some? && st in After(START, run).value.shared
    requires WasWriter(After(START, run).value.sessions, st, i)
    ensures p < q <= |run| && OnlyAt(run, Extra(i, Register), p)
    ensures if Writing(After(START, run).value.sessions[i].pc)
      then q == |run| && Never(run, Extra(i, Unregister)) else OnlyAt(run, Extra(i, Unregister), q)
    ensures var sh, due := After(START, run).value.shared[st], Emitted(run[p..q], st);
      && (!InCut(sh, i) ==> Received(sh.log, i) == Flat(due))
      && (InCut(sh, i) ==>
            var end, k, n := Told(run, st).cut, IndexOf(sh.cut.value.writers, i), |due| - 1;
            && end.Some? && due != [] && end.value.1 <= |due[n]|
            && Received(sh.log, i) == Flat(due[..n]) + Share(end.value, k, due[n]))
  {
    var w := After(START, run).value;
    var s, sh := w.sessions[i], w.shared[st];
    OutputHolds(run, st);
    RecordsAreTheRun(run, st);
    PlacesAreTheRun(run, i);
    p, q := WindowOf(run, i, s);
    Window(run, st, p, q);
    assert OutputFor(w.sessions, st, sh, i);
    SegmentIsFlat(s, sh, i, Emitted(run[p..q], st));
  }

  lemma WindowOf(run: seq<Action>, i: Sid, s: Session) returns (p: nat, q: nat)
    requires Placed(run, i, s) && s.on != i && OnceRegistered(s.pc)
    ensures p < q <= |run| && OnlyAt(run, Extra(i, Register), p) && s.from == |Emitted(run[..p], s.on)|
    ensures if Writing(s.pc) then q == |run| && Never(run, Extra(i, Unregister))
      else OnlyAt(run, Extra(i, Unregister), q) && s.upto == |Emitted(run[..q], s.on)|
  {
    p :| AddedAt(run, i, s, p) &&
      if Writing(s.pc) then Never(run, Extra(i, Unregister)) else exists q: nat :: p < q && RemovedAt(run, i, s, q);
    if Writing(s.pc) {
      q := |run|;
    } else {
      q :| p < q && RemovedAt(run, i, s, q);
    }
  }

  /** The chunks emitted in a part of a run are that part of all of them. */
  lemma Window(run: seq<Action>, st: Sid, p: nat, q: nat)
    requires p <= q <= |run|
    ensures var all, from, to := Emitted(run, st), |Emitted(run[..p], st)|, |Emitted(run[..q], st)|;
      from <= to <= |all| && Emitted(run[p..q], st) == all[from..to] && (q == |run| ==> to == |all|)
  {
    assert run[..q] == run[..p] + run[p..q] && run == run[..q] + run[q..];
    ToldConcat(run[..p], run[p..q], st);
    ToldConcat(run[..q], run[q..], st);
    assert q == |run| ==> run[..q] == run;
  }

  lemma OutputHolds(run: seq<Action>, st: Sid)
    requires After(START, run).Some? && st in After(START, run).value.shared
    ensures OutputAt(After(START, run).value.sessions, st, After(START, run).value.shared[st])
  {
    CountsRun(START, run);
    OutputRun(START, run);
  }

  lemma SegmentIsFlat(s: Session, sh: Shared, i: Sid, due: seq<Bytes>)
    requires CutFits(sh) && GotSegment(s, sh, i) && due == sh.chunks[s.from..EndOf(s, sh)]
    ensures !InCut(sh, i) ==> Received(sh.log, i) == Flat(due)
    ensures InCut(sh, i) ==>
      var cut, k, n := sh.cut.value, IndexOf(sh.cut.value.writers, i), |due| - 1;
      due != [] && cut.n <= |due[n]| && Received(sh.log, i) == Flat(due[..n]) + Share((cut.at, cut.n), k, due[n])
  {
    if InCut(sh, i) { CutIsFlat(s, sh, i, due); }
  }

  lemma CutIsFlat(s: Session, sh: Shared, i: Sid, due: seq<Bytes>)
    requires CutFits(sh) && GotSegment(s, sh, i) && InCut(sh, i) && due == sh.chunks[s.from..]
    ensures var cut, k, n := sh.cut.value, IndexOf(sh.cut.value.writers, i), |due| - 1;
      due != [] && cut.n <= |due[n]| && Received(sh.log, i) == Flat(due[..n]) + Share((cut.at, cut.n), k, due[n])
  {
    var m, n := |sh.chunks| - 1, |due| - 1;
    assert due[..n] == sh.chunks[s.from..m] && due[n] == sh.chunks[m];
  }

  // ----- who loses output: writers are kept in order of attachment -----

  ghost predicate InOrder(sessions: map<Sid, Session>, ws: seq<Sid>) {
    && (forall p :: 0 <= p < |ws| ==> ws[p] in sessions)
    && (forall p, q :: 0 <= p < q < |ws| ==> sessions[ws[p]].from <= sessions[ws[q]].from)
  }

  ghost predicate Ordered(w: World) {
    forall st :: st in w.shared ==> OrderedAt(w.sessions, w.shared[st])
  }

  lemma OrderKept(before: map<Sid, Session>, after: map<Sid, Session>, ws: seq<Sid>)
    requires InOrder(before, ws) && forall j :: j in ws ==> j in after && after[j].from == before[j].from
    ensures InOrder(after, ws)
  {
  }

  lemma OrderWithout(sessions: map<Sid, Session>, ws: seq<Sid>, i: Sid)
    requires InOrder(sessions, ws) && Distinct(ws)
    ensures InOrder(sessions, Without(ws, i))
  {
    WithoutOrder(ws, i, (x: Sid) => if x in sessions then sessions[x].from else 0);
    forall p | 0 <= p < |Without(ws, i)| ensures Without(ws, i)[p] in sessions {
      assert Without(ws, i)[p] in Without(ws, i);
    }
  }

  /** A new writer goes behind everybody who attached before it. */
  lemma OrderAppend(sessions: map<Sid, Session>, ws: seq<Sid>, i: Sid, s: Session, n: nat)
    requires InOrder(sessions, ws) && i !in ws && s.from == n
    requires forall j :: j in ws ==> j in sessions && sessions[j].from <= n
    ensures InOrder(sessions[i := s], ws + [i])
  {
  }

  lemma WritersStarted(sessions: map<Sid, Session>, st: Sid, sh: Shared)
    requires CountsAt(sessions, st, sh) && OutputAt(sessions, st, sh) && st !in sh.writers
    ensures forall j :: j in sh.writers ==> j in sessions && sessions[j].from <= |sh.chunks|
  {
    forall j | j in sh.writers ensures j in sessions && sessions[j].from <= |sh.chunks| {
      assert j in Members(sessions, InWriters, st);
      assert OutputFor(sessions, st, sh, j);
    }
  }

  /** The lists of a State after a step other than an Add. */
  predicate ListsFollow(sh: Shared, sh': Shared, i: Sid) {
    && (sh'.writers == sh.writers || sh'.writers == Without(sh.writers, i))
    && (sh'.cut == sh.cut || (sh'.cut.Some? && sh'.cut.value.writers == sh.writers))
  }

  lemma OrderFollows(w: World, w': World, i: Sid)
    requires Counts(w) && Ordered(w)
    requires OnlyFollows(w, w', i)
    ensures Ordered(w')
  {
    forall st | st in w'.shared && st in w.shared ensures OrderedAt(w'.sessions, w'.shared[st]) {
      assert CountsAt(w.sessions, st, w.shared[st]);
      OrderWithout(w.sessions, w.shared[st].writers, i);
      OrderKept(w.sessions, w'.sessions, w.shared[st].writers);
      OrderKept(w.sessions, w'.sessions, w'.shared[st].writers);
      if w.shared[st].cut.Some? { OrderKept(w.sessions, w'.sessions, w.shared[st].cut.value.writers); }
    }
  }

  /** A session before its Add is on no list of writers. */
  lemma NotYetListed(sessions: map<Sid, Session>, st: Sid, sh: Shared, i: Sid)
    requires CountsAt(sessions, st, sh) && OutputAt(sessions, st, sh) && i in sessions && sessions[i].pc.Joined?
    ensures i !in sh.writers && !InCut(sh, i)
  {
    assert i !in Members(sessions, InWriters, st);
    assert OutputFor(sessions, st, sh, i);
  }

  ghost predicate OrderedAt(sessions: map<Sid, Session>, sh: Shared) {
    && InOrder(sessions, sh.writers)
    && (sh.cut.Some? ==> InOrder(sessions, sh.cut.value.writers))
  }

  /** The Add of session i, seen from the State st. */
  lemma RegisterAt(sessions: map<Sid, Session>, st: Sid, sh: Shared, i: Sid, s: Session, sh': Shared)
    requires CountsAt(sessions, st, sh) && OutputAt(sessions, st, sh) && OrderedAt(sessions, sh)
    requires i in sessions && sessions[i].pc.Joined? && st !in sh.writers
    requires sh' == sh || (sh' == sh.(writers := sh.writers + [i]) && s.from == |sh.chunks|)
    ensures OrderedAt(sessions[i := s], sh')
  {
    NotYetListed(sessions, st, sh, i);
    var after := sessions[i := s];
    if sh.cut.Some? { OrderKept(sessions, after, sh.cut.value.writers); }
    if sh' == sh {
      OrderKept(sessions, after, sh.writers);
    } else {
      WritersStarted(sessions, st, sh);
      OrderAppend(sessions, sh.writers, i, s, |sh.chunks|);
    }
  }

  lemma OrderRegister(w: World, i: Sid)
    requires Shape(w) && Counts(w) && Output(w) && Ordered(w) && Next(w, Extra(i, Register)).Some?
    ensures Ordered(Next(w, Extra(i, Register)).value)
  {
    var s := w.sessions[i];
    var r := ExtraNext(i, s, w.shared[s.on], Register).value;
    OrderPut(w, i, r);
  }

  lemma OrderPut(w: World, i: Sid, r: (Session, Shared))
    requires Shape(w) && Counts(w) && Output(w) && Ordered(w) && i in w.sessions
    requires var s := w.sessions[i];
      && s.pc.Joined? && s.on in w.shared && r.0.from == |w.shared[s.on].chunks|
      && r.1 == w.shared[s.on].(writers := w.shared[s.on].writers + [i])
    ensures Ordered(Put(w, i, r))
  {
    var w' := Put(w, i, r);
    forall st | st in w'.shared ensures OrderedAt(w'.sessions, w'.shared[st]) {
      OwnerNotAWriter(w, st);
      RegisterAt(w.sessions, st, w.shared[st], i, r.0, w'.shared[st]);
    }
  }

  lemma OrderStep(w: World, a: Action)
    requires Shape(w) && Counts(w) && Output(w) && Ordered(w) && Next(w, a).Some?
    ensures Ordered(Next(w, a).value)
  {
    if a.Extra? && a.extra.Register? {
      OrderRegister(w, a.i);
    } else {
      FromsKept(w, a);
      OrderFollows(w, Next(w, a).value, a.i);
    }
  }

  ghost predicate OnlyFollows(w: World, w': World, i: Sid) {
    && (forall j :: j in w.sessions ==> j in w'.sessions && w'.sessions[j].from == w.sessions[j].from)
    && (forall st :: st in w'.shared && st in w.shared ==> ListsFollow(w.shared[st], w'.shared[st], i))
    && (forall st :: st in w'.shared && st !in w.shared ==> w'.shared[st] == NEW_STATE)
  }

  lemma FollowsLocal(w: World, a: Action)
    requires (a.Extra? && !a.extra.Register?) || a.Stream?
    requires Next(w, a).Some?
    ensures OnlyFollows(w, Next(w, a).value, a.i)
  {
    var s := w.sessions[a.i];
    if a.Extra? { ExtraFollows(a.i, s, w.shared[s.on], a.extra); }
  }

  lemma MainFollows(w: World, i: Sid, step: MainStep)
    requires Next(w, Main(i, step)).Some? && RefsExist(w.shared, i, w.sessions[i])
    ensures OnlyFollows(w, Next(w, Main(i, step)).value, i)
  {
    MainIsOwner(w, i, w.sessions[i], step);
  }

  lemma SignalFollows(w: World, i: Sid, j: Sid)
    requires Next(w, Signal(i, j)).Some?
    ensures OnlyFollows(w, Next(w, Signal(i, j)).value, i)
  {
  }

  lemma ExtraFollows(i: Sid, s: Session, sh: Shared, step: ExtraStep)
    requires !step.Register? && ExtraNext(i, s, sh, step).Some?
    ensures var (s', sh') := ExtraNext(i, s, sh, step).value;
      s'.from == s.from && ListsFollow(sh, sh', i)
  {
  }

  lemma FromsKept(w: World, a: Action)
    requires Next(w, a).Some? && !(a.Extra? && a.extra.Register?)
    requires a.i in w.sessions ==> RefsExist(w.shared, a.i, w.sessions[a.i])
    ensures OnlyFollows(w, Next(w, a).value, a.i)
  {
    match a
    case Extra(_, _) => FollowsLocal(w, a);
    case Stream(_, _) => FollowsLocal(w, a);
    case Main(i, step) => MainFollows(w, i, step);
    case Signal(i, j) => SignalFollows(w, i, j);
    case _ =>
  }

  lemma {:induction false} OrderRun(w: World, run: seq<Action>)
    requires Shape(w) && Counts(w) && Output(w) && Ordered(w) && After(w, run).Some?
    ensures Ordered(After(w, run).value)
    decreases |run|
  {
    if run != [] {
      ShapeStep(w, run[0]);
      CountsStep(w, run[0]);
      OutputStep(w, run[0]);
      OrderStep(w, run[0]);
      OrderRun(Next(w, run[0]).value, run[1..]);
    }
  }

  /** A failing write takes output away only from sessions that attached no
      earlier than the one that failed. */
  lemma LosersAttachedLater(run: seq<Action>, st: Sid, p: nat, q: nat)
    requires After(START, run).Some? && st in After(START, run).value.shared
    requires var cut := After(START, run).value.shared[st].cut;
      cut.Some? && cut.value.at == p < q < |cut.value.writers|
    ensures var w := After(START, run).value;
      var ws := w.shared[st].cut.value.writers;
      ws[p] in w.sessions && ws[q] in w.sessions && w.sessions[ws[p]].from <= w.sessions[ws[q]].from
  {
    OrderRun(START, run);
    var w := After(START, run).value;
    assert OrderedAt(w.sessions, w.shared[st]);
  }
}
