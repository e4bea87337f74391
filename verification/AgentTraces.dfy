/** What the agent's life cycle means for whole traces. */
module AgentTraces {
  import opened Prelude
  import opened Agent
  import HumanDuration

  /** The report that an action is running, and the report of its result. */
  function RunningReport(a: Action): Note { Note(a, "running action", Running) }

  function ResultReport(a: Action, start: int, stop: int, state: State): Note {
    Note(a.(start := start, stop := stop, duration := HumanDuration.Human(stop - start, 2)), "action completed", state)
  }

  // ----- one round: from the accepted Running report to the result -----

  /** trace[at - 1..] begins with the action being read, accepted as running,
      timed, and executed with the given answers. */
  ghost predicate RoundAt(trace: seq<Event>, a: Action, at: nat, t: int, execs: seq<ExecAnswer>) {
    && 1 <= at && at + 2 + |execs| <= |trace|
    && trace[at - 1] == Read(Got(a))
    && trace[at] == Report(RunningReport(a), Accepted)
    && trace[at + 1] == Clock(t)
    && (forall j :: 0 <= j < |execs| ==> trace[at + 2 + j] == Execute(a.(start := t), execs[j]))
  }

  /** Executions stop at the first success or deadline, and at the limit. */
  ghost predicate StopsInTime(retries: int, execs: seq<ExecAnswer>) {
    && (|execs| == 0 || |execs| <= if retries == 0 then 1 else retries)
    && (forall j :: 0 <= j < |execs| - 1 ==> execs[j] == ExecError(false))
  }

  /** No further execution is called for: the last one succeeded or hit its
      deadline, or all tries are used up. */
  ghost predicate NoMoreTries(retries: int, execs: seq<ExecAnswer>) {
    || (execs != [] && execs[|execs| - 1] != ExecError(false))
    || |execs| >= if retries == 0 then 1 else retries
  }

  /** After the executions only rejected reports of the result and decisions to
      retry have happened. */
  ghost predicate OnlyRejections(trace: seq<Event>, from: nat, note: Note) {
    forall m :: from <= m < |trace| ==>
      trace[m] == Retry(true) || (trace[m].Report? && trace[m].note == note && trace[m].write.WriteError?)
  }

  ghost predicate Fits(trace: seq<Event>, ph: Phase) {
    match ph
    case Starting(a) => |trace| > 0 && trace[|trace| - 1] == Read(Got(a))
    case Launched(a, at) =>
      1 <= at && |trace| == at + 1 && trace[at - 1] == Read(Got(a)) && trace[at] == Report(RunningNote(a), Accepted)
    case Executing(a, at, t, execs) =>
      RoundAt(trace, a, at, t, execs) && |trace| == at + 2 + |execs| && StopsInTime(a.retries, execs)
    case Reporting(a, at, t, execs, stop) => ReportingFits(trace, a, at, t, execs, stop)
    case Deciding(a, at, t, execs, stop) => ReportingFits(trace, a, at, t, execs, stop)
    case _ => true
  }

  ghost predicate ReportingFits(trace: seq<Event>, a: Action, at: nat, t: int, execs: seq<ExecAnswer>, stop: int) {
    && RoundAt(trace, a, at, t, execs) && StopsInTime(a.retries, execs) && !More(a.retries, execs)
    && at + 3 + |execs| <= |trace| && trace[at + 2 + |execs|] == Clock(stop)
    && OnlyRejections(trace, at + 3 + |execs|, ResultNote(a, t, stop, execs))
  }

  lemma FitsStep(trace: seq<Event>, ph: Phase, ev: Event)
    requires Fits(trace, ph)
    ensures Fits(trace + [ev], Move(ph, ev, |trace|))
  {
  }

  lemma {:induction false} TraceFits(trace: seq<Event>)
    ensures Fits(trace, After(trace))
  {
    if trace != [] {
      var front := trace[..|trace| - 1];
      TraceFits(front);
      FitsStep(front, After(front), trace[|trace| - 1]);
      assert front + [trace[|trace| - 1]] == trace;
    }
  }

  /** Every execution belongs to the action that was last read and whose Running
      report was accepted, with nothing but a clock reading and failed executions
      of the same action in between. */
  lemma ExecuteAfterRunning(trace: seq<Event>, p: nat) returns (a: Action, at: nat)
    requires Accepts(trace) && p < |trace| && trace[p].Execute?
    ensures 1 <= at < p && trace[at - 1] == Read(Got(a)) && trace[at] == Report(RunningReport(a), Accepted)
    ensures trace[p].action == a.(start := trace[p].action.start)
    ensures forall m :: at < m < p ==> trace[m].Clock? || trace[m] == Execute(trace[p].action, ExecError(false))
  {
    AcceptsPrefix(trace, p);
    TraceFits(trace[..p]);
    var ph := After(trace[..p]);
    a, at := ph.a, ph.at;
    forall m | at < m < p ensures trace[m].Clock? || trace[m] == Execute(trace[p].action, ExecError(false)) {
      assert trace[..p][m] == trace[m];
      if m > at + 1 { assert trace[m] == Execute(a.(start := ph.t), ph.execs[m - at - 2]); }
    }
  }

  /** A reported result carries the action that was read, the times around its
      executions and their printed difference, and the state of the last
      execution; the executions are all those since the Running report, and they
      stopped at the first success, the first deadline or the limit. */
  lemma ResultMatchesExecutions(trace: seq<Event>, p: nat) returns (a: Action, at: nat, execs: seq<ExecAnswer>)
    requires Accepts(trace) && p < |trace| && trace[p].Report? && trace[p].note.state != Running
    ensures at < p && RoundAt(trace, a, at, trace[p].note.action.start, execs) && at + 2 + |execs| < p
    ensures trace[at + 2 + |execs|] == Clock(trace[p].note.action.stop)
    ensures forall m :: at + 2 + |execs| <= m < p ==> !trace[m].Execute? && !trace[m].Read?
    ensures StopsInTime(a.retries, execs) && NoMoreTries(a.retries, execs)
    ensures trace[p].note
         == ResultReport(a, trace[p].note.action.start, trace[p].note.action.stop, trace[p].note.state)
    ensures trace[p].note.state == Outcome(execs)
  {
    AcceptsPrefix(trace, p);
    TraceFits(trace[..p]);
    var ph := After(trace[..p]);
    a, at, execs := ph.a, ph.at, ph.execs;
    forall m | at + 2 + |execs| <= m < p ensures !trace[m].Execute? && !trace[m].Read? {
      assert trace[..p][m] == trace[m];
    }
  }

  /** The last execution between two positions of a trace. */
  ghost predicate LastExecute(trace: seq<Event>, from: nat, to: nat, m: nat) {
    from < m < to <= |trace| && trace[m].Execute? && forall k :: m < k < to ==> !trace[k].Execute?
  }

  /** The state of a reported result, read off the trace: something was executed
      since the accepted Running report exactly when Retries is not negative, at
      least once and at most as often as Retries says; and the state is Success,
      Timeout or Failure exactly as the last of these executions succeeded, hit
      its deadline or failed otherwise, a failure only after the last try. */
  lemma ResultIsTheLastExecution(trace: seq<Event>, p: nat) returns (a: Action, at: nat, execs: seq<ExecAnswer>)
    requires Accepts(trace) && p < |trace| && trace[p].Report? && trace[p].note.state != Running
    ensures at < p && RoundAt(trace, a, at, trace[p].note.action.start, execs)
    ensures (exists m :: at < m < p && trace[m].Execute?) <==> a.retries >= 0
    ensures a.retries >= 0 ==> 1 <= |execs| <= (if a.retries < 1 then 1 else a.retries)
    ensures forall m: nat :: LastExecute(trace, at, p, m) ==>
      && (trace[p].note.state == Success <==> trace[m].exec == Done)
      && (trace[p].note.state == Timeout <==> trace[m].exec == ExecError(true))
      && (trace[p].note.state == Failure <==> trace[m].exec == ExecError(false))
    ensures trace[p].note.state == Failure ==> |execs| == if a.retries < 1 then 1 else a.retries
  {
    a, at, execs := ResultMatchesExecutions(trace, p);
    OutcomeMeaning(a.retries, execs);
    var last := at + 1 + |execs|;
    forall m: nat | LastExecute(trace, at, p, m) ensures m == last && execs != [] {
      LastIs(trace, a, at, trace[p].note.action.start, execs, p, m);
    }
    if a.retries >= 0 { assert trace[last] == Execute(a.(start := trace[p].note.action.start), execs[|execs| - 1]); }
  }

  lemma LastIs(trace: seq<Event>, a: Action, at: nat, t: int, execs: seq<ExecAnswer>, p: nat, m: nat)
    requires RoundAt(trace, a, at, t, execs) && at + 2 + |execs| < p && LastExecute(trace, at, p, m)
    requires forall k :: at + 2 + |execs| <= k < p ==> !trace[k].Execute?
    ensures m == at + 1 + |execs| && execs != []
  {
    assert m < at + 2 + |execs| && m != at + 1;
    var n := |execs| - 1;
    assert trace[at + 2 + n] == Execute(a.(start := t), execs[n]);
  }

  /** The reported state, read off the answers. */
  lemma OutcomeMeaning(retries: int, execs: seq<ExecAnswer>)
    requires StopsInTime(retries, execs) && NoMoreTries(retries, execs)
    ensures Outcome(execs) == Success <==> execs == [] || execs[|execs| - 1] == Done
    ensures Outcome(execs) == Timeout <==> execs != [] && execs[|execs| - 1] == ExecError(true)
    ensures Outcome(execs) == Failure ==> |execs| == if retries < 1 then 1 else retries
    ensures retries >= 0 <==> 1 <= |execs| && |execs| <= (if retries < 1 then 1 else retries)
  {
  }

  /** With a negative retry count nothing is executed and success is reported. */
  lemma NegativeRetriesReportSuccess(trace: seq<Event>, p: nat) returns (a: Action, at: nat)
    requires Accepts(trace) && p < |trace| && trace[p].Report? && trace[p].note.state != Running
      && trace[p].note.action.retries < 0
    ensures at < p && trace[at] == Report(RunningReport(a), Accepted)
    ensures trace[p].note.state == Success
    ensures forall m :: at <= m < p ==> !trace[m].Execute?
  {
    var execs;
    a, at, execs := ResultMatchesExecutions(trace, p);
  }

  // ----- at most one outstanding action -----

  function Owes(ph: Phase): Option<Action> {
    match ph
    case Starting(a) => Some(a)
    case Launched(a, _) => Some(a)
    case Executing(a, _, _, _) => Some(a)
    case Reporting(a, _, _, _, _) => Some(a)
    case Deciding(a, _, _, _, _) => Some(a)
    case _ => None
  }

  /** The event discharges action a: its Running report was refused, or its
      result was accepted. */
  predicate Settles(ev: Event, a: Action) {
    ev.Report? &&
    if ev.note.state == Running then ev.note == RunningReport(a) && ev.write.WriteError?
    else ev.write.Accepted? && ev.note.action == a.(start := ev.note.action.start, stop := ev.note.action.stop,
      duration := ev.note.action.duration)
  }

  ghost predicate SettledFrom(trace: seq<Event>, p: nat, a: Action) {
    exists m :: p < m < |trace| && Settles(trace[m], a)
  }

  /** Every action read so far is settled, owed, or the run has ended. */
  ghost predicate Accounted(trace: seq<Event>, ph: Phase) {
    ph.Ended? || ph.Stuck? ||
    forall p :: 0 <= p < |trace| && trace[p].Read? && trace[p].read.Got? ==>
      SettledFrom(trace, p, trace[p].read.action) || Owes(ph) == Some(trace[p].read.action)
  }

  lemma AccountedStep(trace: seq<Event>, ph: Phase, ev: Event)
    requires Accounted(trace, ph)
    ensures Accounted(trace + [ev], Move(ph, ev, |trace|))
  {
    var longer, ph' := trace + [ev], Move(ph, ev, |trace|);
    if !ph'.Ended? && !ph'.Stuck? {
      forall p | 0 <= p < |longer| && longer[p].Read? && longer[p].read.Got?
        ensures SettledFrom(longer, p, longer[p].read.action) || Owes(ph') == Some(longer[p].read.action)
      {
        if p < |trace| {
          var a := trace[p].read.action;
          if SettledFrom(trace, p, a) {
            var m :| p < m < |trace| && Settles(trace[m], a);
            assert Settles(longer[m], a);
          } else if Owes(ph') != Some(a) {
            assert Settles(longer[|trace|], a);
          }
        }
      }
    }
  }

  lemma {:induction false} TraceAccounted(trace: seq<Event>)
    ensures Accounted(trace, After(trace))
  {
    if trace != [] {
      var front := trace[..|trace| - 1];
      TraceAccounted(front);
      AccountedStep(front, After(front), trace[|trace| - 1]);
      assert front + [trace[|trace| - 1]] == trace;
    }
  }

  /** No further Read happens until the action read before is settled: at most
      one action is ever outstanding. */
  lemma SettledBeforeNextRead(trace: seq<Event>, p: nat, q: nat)
    requires Accepts(trace) && p < q < |trace| && trace[p].Read? && trace[p].read.Got? && trace[q].Read?
    ensures exists m :: p < m < q && Settles(trace[m], trace[p].read.action)
  {
    AcceptsPrefix(trace, q);
    TraceAccounted(trace[..q]);
    assert trace[..q][p] == trace[p];
    assert SettledFrom(trace[..q], p, trace[p].read.action);
  }

  // ----- what follows what -----

  /** The event after which a run is over. */
  predicate Final(ev: Event) {
    match ev
    case Select(done) => done
    case Sleep(done) => done
    case Read(ReadError(canceled, _)) => canceled
    case Report(note, WriteError(canceled)) => note.state == Running && canceled
    case Retry(again) => !again
    case _ => false
  }

  /** A run has ended exactly when its last event is a final one. */
  lemma {:induction false} EndsIff(trace: seq<Event>)
    requires Accepts(trace)
    ensures After(trace).Ended? <==> trace != [] && Final(trace[|trace| - 1])
  {
    if trace != [] { AcceptsPrefix(trace, |trace| - 1); }
  }

  lemma Adjacent(trace: seq<Event>, p: nat)
    requires Accepts(trace) && p + 1 < |trace|
    ensures After(trace[..p]) != Stuck && After(trace[..p + 1]) == Move(After(trace[..p]), trace[p], p)
    ensures Move(After(trace[..p + 1]), trace[p + 1], p + 1) != Stuck
    ensures After(trace[..p + 1]) != Stuck
  {
    AcceptsPrefix(trace, p);
    AcceptsPrefix(trace, p + 1);
    assert trace[..p + 1] == trace[..p] + [trace[p]];
    AfterAppend(trace[..p], trace[p]);
  }

  /** Every run, step by step, outside the executions: nothing follows a final
      event; a poll follows a free select or a finished back-off; an action
      that was read is reported running; a failed iteration asks for a back-off,
      which is logged unless there was just no action, or ends the run; an
      accepted Running report starts the clock. */
  lemma LoopOrder(trace: seq<Event>, p: nat)
    requires Accepts(trace) && p + 1 < |trace|
    ensures var ev, next := trace[p], trace[p + 1];
      && !Final(ev)
      && (ev == Select(false) || ev == Sleep(false) ==> next.Read?)
      && (ev.BackOff? ==> next.Sleep?)
      && (ev.Read? && ev.read.Got? ==> next.Report? && next.note == RunningReport(ev.read.action))
      && (Fails(ev) ==> next == BackOff(!(ev.Read? && ev.read.noAction)) || next == Select(true))
      && (ev.Report? && ev.note.state == Running && ev.write.Accepted? ==> next.Clock?)
  {
    Adjacent(trace, p);
  }

  /** ... and after the executions: a rejected result is decided on, written again
      unchanged when the retry goes on, and an accepted one resets the back-off
      before the next turn. */
  lemma ReportOrder(trace: seq<Event>, p: nat)
    requires Accepts(trace) && p + 1 < |trace|
    ensures var ev, next := trace[p], trace[p + 1];
      && (ev.Report? && ev.note.state != Running ==> if ev.write.Accepted? then next == Reset else next.Retry?)
      && (ev == Reset ==> next.Select?)
      && (ev == Retry(true) ==> p > 0 && trace[p - 1].Report? && next.Report? && next.note == trace[p - 1].note)
  {
    Adjacent(trace, p);
    if trace[p] == Retry(true) {
      assert trace[..0] == [];
      assert p > 0;
      Adjacent(trace, p - 1);
    }
  }

  // ----- back-off conservation -----

  /** An iteration that failed without ending the run. */
  predicate Fails(ev: Event) {
    || (ev.Read? && ev.read.ReadError? && !ev.read.canceled)
    || (ev.Report? && ev.note.state == Running && ev.write.WriteError? && !ev.write.canceled)
  }

  function Failures(trace: seq<Event>): nat {
    if trace == [] then 0 else Failures(trace[..|trace| - 1]) + if Fails(trace[|trace| - 1]) then 1 else 0
  }

  function BackOffs(trace: seq<Event>): nat {
    if trace == [] then 0 else BackOffs(trace[..|trace| - 1]) + if trace[|trace| - 1].BackOff? then 1 else 0
  }

  function Tokens(ph: Phase): nat {
    if ph.Top? && ph.token.Some? then 1 else 0
  }

  /** In every reachable state: failed iterations equal back-offs taken plus
      tokens in the channel (a run that ended at its top select leaves its token
      behind). */
  lemma {:induction false} BackOffConservation(trace: seq<Event>)
    requires Accepts(trace)
    ensures !After(trace).Ended? ==> Failures(trace) == BackOffs(trace) + Tokens(After(trace))
    ensures After(trace).Ended? ==> BackOffs(trace) <= Failures(trace) <= BackOffs(trace) + 1
  {
    if trace != [] {
      BackOffConservation(trace[..|trace| - 1]);
    }
  }
}
