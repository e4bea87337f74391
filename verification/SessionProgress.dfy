/** When a session can go on.  The invariants of the other modules say what no
    run does; here it is shown that the model refuses no step that the code can
    take: a session stops for good only at the end of its handler, at a send
    without a receiver, or at a Wait with sessions in the wait group, and its
    copies run until a write fails. */
module SessionProgress {
  import opened Prelude
  import opened Escape
  import opened MultiWriters
  import opened SessionWorld
  import opened SessionCounts
  import opened SessionHistory
  import opened SessionInput

  /** Some step of the session's handler is enabled. */
  ghost predicate CanMove(w: World, i: Sid) {
    exists a: Action :: a.i == i && !a.Connect? && !a.Stream? && Next(w, a).Some?
  }

  predicate Over(pc: Pc) { pc.Failed? || pc.Finished? || pc.Panicked? }

  /** At the send, with nobody in the select of that State. */
  ghost predicate NoReceiver(w: World, s: Session) {
    s.pc.Sending? && forall j :: j in w.sessions && w.sessions[j].on == s.pc.c ==> w.sessions[j].pc != Attached
  }

  /** At the Wait, with sessions in the wait group of that State. */
  predicate NotDrained(w: World, s: Session) {
    s.pc.Waiting? && s.pc.target.Some? && s.pc.target.value in w.shared && w.shared[s.pc.target.value].wg != 0
  }

  /** In every reachable world: a session's handler cannot go on if and only if it
      is over, waits at its send for a receiver, or waits for the wait group. */
  lemma BlockedIff(run: seq<Action>, i: Sid)
    requires After(START, run).Some? && i in After(START, run).value.sessions
    ensures var w := After(START, run).value;
      var s := w.sessions[i];
      !CanMove(w, i) <==> Over(s.pc) || NoReceiver(w, s) || NotDrained(w, s)
  {
    var w := After(START, run).value;
    var s := w.sessions[i];
    CountsRun(START, run);
    assert RefsExist(w.shared, i, s);
    if !Over(s.pc) && !NoReceiver(w, s) && !NotDrained(w, s) {
      var a := SomeStep(w, i);
      assert a.i == i && Next(w, a).Some?;
    } else {
      forall a: Action | a.i == i && !a.Connect? && !a.Stream? ensures Next(w, a).None? { NoStep(w, i, a); }
    }
  }

  lemma NoStep(w: World, i: Sid, a: Action)
    requires i in w.sessions && RefsExist(w.shared, i, w.sessions[i]) && a.i == i && !a.Connect? && !a.Stream?
    requires var s := w.sessions[i]; Over(s.pc) || NoReceiver(w, s) || NotDrained(w, s)
    ensures Next(w, a).None?
  {
  }

  lemma SomeStep(w: World, i: Sid) returns (a: Action)
    requires i in w.sessions && RefsExist(w.shared, i, w.sessions[i])
    requires var s := w.sessions[i]; !Over(s.pc) && !NoReceiver(w, s) && !NotDrained(w, s)
    ensures a.i == i && !a.Connect? && !a.Stream? && Next(w, a).Some?
  {
    var pc := w.sessions[i].pc;
    if pc.Connected? {
      a := Dispatch(i);
    } else if pc.Sending? {
      var j :| j in w.sessions && w.sessions[j].on == pc.c && w.sessions[j].pc == Attached;
      a := Signal(i, j);
    } else if IsExtra(pc) {
      a := Extra(i, NextExtra(pc));
      ExtraEnabled(i, w.sessions[i], w.shared[w.sessions[i].on]);
    } else {
      a := Main(i, NextMain(pc));
    }
  }

  lemma ExtraEnabled(i: Sid, s: Session, sh: Shared)
    requires IsExtra(s.pc)
    ensures ExtraNext(i, s, sh, NextExtra(s.pc)).Some?
  {
  }

  function NextExtra(pc: Pc): ExtraStep {
    match pc
    case Holding => Count
    case Counted => Join
    case Joined => Register
    case Attached => ContextEnds
    case Leaving => Unregister
    case Unregistered => Uncount
    case _ => ExtraStep.Done
  }

  function NextMain(pc: Pc): MainStep {
    match pc
    case Missed => Publish
    case Running => CommandExits
    case Exited => Fetch
    case Fetched(_) => Check
    case Checked(_) => Refetch
    case Waiting(None) => NilWait
    case Waiting(Some(_)) => WaitReturns
    case _ => Unpublish
  }

  /** The output copy of a State takes any chunk, with any answers of the writers,
      exactly until a write of the run has failed -- also after the owner's
      handler has returned. */
  lemma EmitsUntilFailure(run: seq<Action>, st: Sid, chunk: Bytes, outcomes: seq<Outcome>)
    requires After(START, run).Some? && st in After(START, run).value.shared
    ensures var w := After(START, run).value;
      Next(w, Stream(st, Emit(chunk, outcomes))).Some? <==>
        && Told(run, st).cut.None? && !Told(run, st).headDown
        && |outcomes| == |w.shared[st].writers| && forall k :: 0 <= k < |outcomes| ==> outcomes[k].n <= |chunk|
  {
    RecordsAreTheRun(run, st);
    OwnersServe(run, st);
  }

  lemma OwnersServe(run: seq<Action>, st: Sid)
    requires After(START, run).Some? && st in After(START, run).value.shared
    ensures var w := After(START, run).value;
      st in w.sessions && w.sessions[st].on == st && HasStreams(w.sessions[st].pc)
  {
    CountsRun(START, run);
    var w := After(START, run).value;
    assert RefsExist(w.shared, st, w.sessions[st]);
  }

  /** The session has not started its copies yet, or never will. */
  predicate WithoutCopies(pc: Pc) {
    pc.Connected? || pc.Missed? || pc.Failed? || pc.Holding? || pc.Counted? || pc.Joined?
  }

  /** The input copy takes a chunk, and the watcher a byte, exactly in turn: a
      chunk when the watcher has read all that was sent and no write has failed,
      a byte when there is one left and no escape was seen. */
  lemma CopiesTakeTurns(run: seq<Action>, i: Sid, input: Bytes)
    requires After(START, run).Some? && i in After(START, run).value.sessions
    ensures var w := After(START, run).value;
      var s, sent, n := w.sessions[i], Flat(Told(run, i).typed), Told(run, i).watched;
      && (Next(w, Stream(i, Forward(input))).Some? <==>
            !WithoutCopies(s.pc) && input != [] && n == |sent| && Told(run, i).broken == [])
      && (Next(w, Stream(i, StreamStep.Watch)).Some? <==>
            !WithoutCopies(s.pc) && n < |sent| && !(0 < n && EscapeAt(sent, n - 1)))
  {
    var w := After(START, run).value;
    RecordsAreTheRun(run, i);
    WatchersReadTheirOwn(run, i);
    SentIs(run, i);
    StreamEnabled(run, i, Forward(input));
    StreamEnabled(run, i, StreamStep.Watch);
    Turns(i, w.sessions[i], if w.sessions[i].on in w.shared then w.shared[w.sessions[i].on] else NEW_STATE, input,
          Flat(Told(run, i).typed), Told(run, i).watched);
  }

  lemma SentIs(run: seq<Action>, i: Sid)
    requires After(START, run).Some? && i in After(START, run).value.sessions
    ensures var s := After(START, run).value.sessions[i]; s.seen + s.pending == Flat(s.typed)
  {
    InputRun(START, run);
    assert WatcherFits(After(START, run).value.sessions[i]);
  }

  lemma StreamEnabled(run: seq<Action>, i: Sid, step: StreamStep)
    requires After(START, run).Some? && i in After(START, run).value.sessions
    ensures var w := After(START, run).value;
      var s := w.sessions[i];
      var sh := if s.on in w.shared then w.shared[s.on] else NEW_STATE;
      Next(w, Stream(i, step)).Some? <==> StreamNext(i, s, sh, step).Some?
  {
    CountsRun(START, run);
    var w := After(START, run).value;
    assert RefsExist(w.shared, i, w.sessions[i]);
  }

  lemma Turns(i: Sid, s: Session, sh: Shared, input: Bytes, sent: Bytes, n: nat)
    requires s.seen + s.pending == sent && |s.seen| == n <= |sent|
    requires Escaped(s.seen) <==> 0 < n && EscapeAt(sent, n - 1)
    ensures StreamNext(i, s, sh, Forward(input)).Some? <==>
      !WithoutCopies(s.pc) && input != [] && n == |sent| && s.broken == []
    ensures StreamNext(i, s, sh, StreamStep.Watch).Some? <==>
      !WithoutCopies(s.pc) && n < |sent| && !(0 < n && EscapeAt(sent, n - 1))
  {
    assert |s.pending| == |sent| - n;
  }
}
