/** The agent's loop itself (tink/agent/agent.go:52-178), run against a script of
    its environment: entry k of the script decides the answer to the loop's k-th
    call.  A script that runs out leaves the loop waiting in its next call, so
    all scripts together are all finite beginnings of runs. */
module AgentLoop {
  import opened Prelude
  import opened Agent
  import HumanDuration

  /** The answers the environment would give to the various calls. */
  datatype Env = Env(done: bool, read: ReadAnswer, write: WriteAnswer, exec: ExecAnswer, again: bool, now: int)

  /** The event carries the answer of the environment. */
  predicate Answered(ev: Event, env: Env) {
    match ev
    case Select(done) => done == env.done
    case BackOff(_) => !env.done
    case Sleep(done) => done == env.done
    case Read(read) => read == env.read
    case Report(_, write) => write == env.write
    case Clock(now) => now == env.now
    case Execute(_, exec) => exec == env.exec
    case Retry(again) => again == env.again
    case Reset => true
  }

  ghost predicate Follows(trace: seq<Event>, script: seq<Env>) {
    |trace| <= |script| && forall k :: 0 <= k < |trace| ==> Answered(trace[k], script[k])
  }

  /** Every answer in a trace that follows a script is the script's at that point. */
  lemma AnswersAreTheScripts(trace: seq<Event>, script: seq<Env>, k: nat)
    requires Follows(trace, script) && k < |trace|
    ensures var ev, env := trace[k], script[k];
      && (ev.Select? ==> ev.done == env.done) && (ev.Sleep? ==> ev.done == env.done) && (ev.BackOff? ==> !env.done)
      && (ev.Read? ==> ev.read == env.read) && (ev.Report? ==> ev.write == env.write)
      && (ev.Execute? ==> ev.exec == env.exec) && (ev.Clock? ==> ev.now == env.now)
      && (ev.Retry? ==> ev.again == env.again)
  {
    assert Answered(trace[k], script[k]);
  }

  /** The call the life cycle prescribes next, given the environment's answers. */
  function Call(ph: Phase, env: Env): Option<Event> {
    match ph
    case Top(None) => Some(Select(env.done))
    case Top(Some(log)) => if env.done then Some(Select(true)) else Some(BackOff(log))
    case Sleeping => Some(Sleep(env.done))
    case Polling => Some(Read(env.read))
    case Starting(a) => Some(Report(RunningNote(a), env.write))
    case Launched(a, _) => Some(Clock(env.now))
    case Executing(a, _, t, execs) =>
      if More(a.retries, execs) then Some(Execute(a.(start := t), env.exec)) else Some(Clock(env.now))
    case Reporting(a, _, t, execs, stop) => Some(Report(ResultNote(a, t, stop, execs), env.write))
    case Deciding(_, _, _, _, _) => Some(Retry(env.again))
    case Resetting => Some(Reset)
    case _ => None
  }

  lemma OnlyCall(ph: Phase, ev: Event, env: Env, n: nat)
    requires Answered(ev, env) && Move(ph, ev, n) != Stuck
    ensures Call(ph, env) == Some(ev)
  {
  }

  lemma NextCall(trace: seq<Event>, script: seq<Env>, n: nat)
    requires Accepts(trace) && Follows(trace, script) && n < |trace|
    ensures Call(After(trace[..n]), script[n]) == Some(trace[n])
  {
    AcceptsPrefix(trace, n);
    OnlyCall(After(trace[..n]), trace[n], script[n], n);
  }

  /** An environment determines the trace: of two life cycles that follow the
      same script, one is a beginning of the other. */
  lemma {:induction false} TraceIsDetermined(t1: seq<Event>, t2: seq<Event>, script: seq<Env>, n: nat)
    requires Accepts(t1) && Accepts(t2) && Follows(t1, script) && Follows(t2, script) && n <= |t1| && n <= |t2|
    ensures t1[..n] == t2[..n]
  {
    if n > 0 {
      TraceIsDetermined(t1, t2, script, n - 1);
      SameNext(t1, t2, script, n - 1);
      assert t1[..n] == t1[..n - 1] + [t1[n - 1]] && t2[..n] == t2[..n - 1] + [t2[n - 1]];
    }
  }

  lemma SameNext(t1: seq<Event>, t2: seq<Event>, script: seq<Env>, n: nat)
    requires Accepts(t1) && Accepts(t2) && Follows(t1, script) && Follows(t2, script) && n < |t1| && n < |t2|
    requires t1[..n] == t2[..n]
    ensures t1[n] == t2[n]
  {
    NextCall(t1, script, n);
    NextCall(t2, script, n);
  }

  /** The trace follows the script and its life cycle stands at ph. */
  ghost predicate Stands(trace: seq<Event>, script: seq<Env>, ph: Phase) {
    Follows(trace, script) && After(trace) == ph
  }

  /** The run is over, or waits for an answer that the script does not hold. */
  ghost predicate Halted(trace: seq<Event>, script: seq<Env>) {
    Follows(trace, script) && Accepts(trace) && (|trace| == |script| || After(trace).Ended?)
  }

  method Log(trace: seq<Event>, script: seq<Env>, ev: Event, ghost ph: Phase) returns (longer: seq<Event>)
    requires Stands(trace, script, ph) && |trace| < |script| && Answered(ev, script[|trace|])
      && Move(ph, ev, |trace|) != Stuck
    ensures Stands(longer, script, Move(ph, ev, |trace|)) && longer == trace + [ev]
    ensures Move(ph, ev, |trace|).Ended? || |longer| == |script| ==> Halted(longer, script)
  {
    longer := trace + [ev];
    AfterAppend(trace, ev);
  }

  /** Run: the trace follows the script, keeps to the life cycle, and goes on
      until the script or the run ends. */
  method Run(script: seq<Env>) returns (trace: seq<Event>)
    ensures Follows(trace, script) && Accepts(trace)
    ensures |trace| == |script| || After(trace).Ended?
  {
    trace := [];
    var doBackoff: seq<bool> := [];     // a channel of capacity one
    var more := script != [];
    while more
      invariant |doBackoff| <= 1
      invariant more ==> |trace| < |script| && Stands(trace, script, Top(Peek(doBackoff)))
      invariant !more ==> Halted(trace, script)
      decreases more, |script| - |trace|
    {
      trace, doBackoff, more := TakeTurn(trace, script, doBackoff);
      if !more { break; }

      var next;
      trace, next, more := Poll(trace, script);
      if !more { break; }
      match next
      case Begin(a) => trace, more := Perform(trace, script, a);
      case Again(log) =>
        assert |doBackoff| < 1;         // the send cannot block
        doBackoff := doBackoff + [log];
    }
  }

  /** What an attempt to get an action leads to: the action, or another turn
      after a back-off that is logged or not. */
  datatype Polled = Begin(a: Action) | Again(log: bool)

  /** Lines 88-110: read an action and report it as running. */
  method Poll(trace: seq<Event>, script: seq<Env>) returns (longer: seq<Event>, next: Polled, more: bool)
    requires |trace| < |script| && Stands(trace, script, Polling)
    ensures |trace| < |longer|
    ensures more ==> |longer| < |script| && Stands(longer, script, match next
      case Begin(a) => Launched(a, |longer| - 1)
      case Again(log) => Top(Some(log)))
    ensures !more ==> Halted(longer, script)
  {
    var read := script[|trace|].read;
    longer := Log(trace, script, Read(read), Polling);
    more := |longer| < |script| && !(read.ReadError? && read.canceled);
    next := Again(true);
    if !more { return; }
    if read.ReadError? { return longer, Again(!read.noAction), true; }

    var write := script[|longer|].write;
    longer := Log(longer, script, Report(RunningNote(read.action), write), Starting(read.action));
    more := |longer| < |script| && !(write.WriteError? && write.canceled);
    if write.Accepted? { next := Begin(read.action); }
  }

  function Peek(channel: seq<bool>): Option<bool> {
    if channel == [] then None else Some(channel[0])
  }

  /** Lines 72-86: the select at the top of the loop, and the back-off. */
  method TakeTurn(trace: seq<Event>, script: seq<Env>, channel: seq<bool>)
    returns (longer: seq<Event>, rest: seq<bool>, more: bool)
    requires |channel| <= 1 && |trace| < |script| && Stands(trace, script, Top(Peek(channel)))
    ensures |trace| < |longer|
    ensures more ==> rest == [] && |longer| < |script| && Stands(longer, script, Polling)
    ensures !more ==> |rest| <= 1 && Halted(longer, script)
  {
    rest := channel;
    if script[|trace|].done {
      longer := Log(trace, script, Select(true), Top(Peek(channel)));
      more := false;
    } else if channel == [] {
      longer := Log(trace, script, Select(false), Top(None));
      more := |longer| < |script|;
    } else {
      rest := channel[1..];
      longer := Log(trace, script, BackOff(channel[0]), Top(Some(channel[0])));
      more := |longer| < |script|;
      if more {
        var done := script[|longer|].done;
        longer := Log(longer, script, Sleep(done), Sleeping);
        more := |longer| < |script| && !done;
      }
    }
  }

  /** Lines 114-176: execute with retries, then report until accepted. */
  method Perform(trace: seq<Event>, script: seq<Env>, a: Action) returns (longer: seq<Event>, more: bool)
    requires trace != [] && |trace| < |script| && Stands(trace, script, Launched(a, |trace| - 1))
    ensures |trace| < |longer|
    ensures if more then |longer| < |script| && Stands(longer, script, Top(None)) else Halted(longer, script)
  {
    var t := script[|trace|].now;
    ghost var at := |trace| - 1;
    longer := Log(trace, script, Clock(t), Launched(a, at));
    more := |longer| < |script|;
    if !more { return; }

    var state;
    ghost var execs;
    longer, state, more, execs := ExecuteWithRetries(longer, script, a, t, at);
    if !more { return; }

    var stop := script[|longer|].now;
    longer := Log(longer, script, Clock(stop), Executing(a, at, t, execs));
    more := |longer| < |script|;
    if !more { return; }
    var duration := HumanDuration.HumanDuration(stop - t, 2);
    var response := Note(a.(start := t, stop := stop, duration := duration), "action completed", state);
    longer, more := ReportUntilAccepted(longer, script, response, Reporting(a, at, t, execs, stop));
  }

  /** Lines 114-141: the retry loop. */
  method ExecuteWithRetries(trace: seq<Event>, script: seq<Env>, a: Action, t: int, ghost at: nat)
    returns (longer: seq<Event>, state: State, more: bool, ghost execs: seq<ExecAnswer>)
    requires |trace| < |script| && Stands(trace, script, Executing(a, at, t, []))
    ensures |trace| <= |longer|
    ensures more ==>
      && |longer| < |script| && Stands(longer, script, Executing(a, at, t, execs))
      && !More(a.retries, execs) && state == Outcome(execs)
    ensures !more ==> Halted(longer, script)
  {
    longer, state, more, execs := trace, Success, true, [];
    var retries := if a.retries == 0 then 1 else a.retries;
    var i := 1;
    while i <= retries
      invariant i == |execs| + 1 && |trace| <= |longer| < |script| && more
      invariant Stands(longer, script, Executing(a, at, t, execs))
      invariant execs != [] ==> execs[|execs| - 1] == ExecError(false)
      invariant state == Outcome(execs) && |execs| <= (if retries < 0 then 0 else retries)
      decreases retries - i
    {
      var exec := script[|longer|].exec;
      longer := Log(longer, script, Execute(a.(start := t), exec), Executing(a, at, t, execs));
      execs := execs + [exec];
      more := |longer| < |script|;
      if exec.ExecError? {
        state := Failure;
        if exec.deadline {
          state := Timeout;
          break;
        }
        if !more || i == retries { break; }
        i := i + 1;
        continue;
      }
      state := Success;
      break;
    }
  }

  /** Lines 152-176: write the result again and again until it is accepted or
      the retry gives up. */
  method ReportUntilAccepted(trace: seq<Event>, script: seq<Env>, response: Note, ghost ph: Phase)
    returns (longer: seq<Event>, more: bool)
    requires |trace| < |script| && ph.Reporting? && Stands(trace, script, ph)
    requires response == ResultNote(ph.a, ph.t, ph.stop, ph.execs)
    ensures |trace| <= |longer|
    ensures if more then |longer| < |script| && Stands(longer, script, Top(None)) else Halted(longer, script)
  {
    longer, more := trace, true;
    while more
      invariant |trace| <= |longer|
      invariant if more then |longer| < |script| && Stands(longer, script, ph) else Halted(longer, script)
      decreases more, |script| - |longer|
    {
      var write := script[|longer|].write;
      longer := Log(longer, script, Report(response, write), ph);
      more := |longer| < |script|;
      if !more { return; }
      if write.Accepted? {
        longer := Log(longer, script, Reset, Resetting);
        more := |longer| < |script|;
        return;
      }
      var again := script[|longer|].again;
      longer := Log(longer, script, Retry(again), Deciding(ph.a, ph.at, ph.t, ph.execs, ph.stop));
      more := |longer| < |script| && again;
    }
  }
}
