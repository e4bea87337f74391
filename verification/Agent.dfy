/** The workflow agent (tink/agent/agent.go): poll for an action, report it
    running, execute it with retries, report the result until it is accepted.

    The life cycle that the reports must follow is given here as an automaton
    over the agent's calls and their answers; AgentLoop proves that the loop
    keeps to it for every behaviour of its environment, and AgentTraces proves
    what it means for whole traces. */
module Agent {
  import opened Prelude
  import HumanDuration

  /** The fields of an action that the loop reads or writes; `id` stands for all
      the others, which it only passes on. */
  datatype Action = Action(id: string, retries: int, start: int, stop: int, duration: string)

  datatype State = Running | Success | Failure | Timeout

  /** A reported event. */
  datatype Note = Note(action: Action, message: string, state: State)

  datatype ReadAnswer = Got(action: Action) | ReadError(canceled: bool, noAction: bool)
  datatype WriteAnswer = Accepted | WriteError(canceled: bool)
  datatype ExecAnswer = Done | ExecError(deadline: bool)

  /** A call of the loop with its answer. */
  datatype Event =
    | Select(done: bool)                       // top of the loop, nothing in the channel
    | BackOff(log: bool)                       // token received and NextBackOff called
    | Sleep(done: bool)                        // the wait for the back-off interval
    | Read(read: ReadAnswer)
    | Report(note: Note, write: WriteAnswer)
    | Clock(now: int)
    | Execute(action: Action, exec: ExecAnswer)
    | Retry(again: bool)                       // after a rejected result: try again or give up
    | Reset

  /** What the loop may do next.  `at` is the position of the accepted Running
      report in the trace, `execs` the answers of the executions since. */
  datatype Phase =
    | Top(token: Option<bool>)
    | Sleeping
    | Polling
    | Starting(a: Action)
    | Launched(a: Action, at: nat)
    | Executing(a: Action, at: nat, t: int, execs: seq<ExecAnswer>)
    | Reporting(a: Action, at: nat, t: int, execs: seq<ExecAnswer>, stop: int)
    | Deciding(a: Action, at: nat, t: int, execs: seq<ExecAnswer>, stop: int)
    | Resetting
    | Ended
    | Stuck

  function RunningNote(a: Action): Note {
    Note(a, "running action", Running)
  }

  function ResultNote(a: Action, t: int, stop: int, execs: seq<ExecAnswer>): Note {
    Note(a.(start := t, stop := stop, duration := HumanDuration.Human(stop - t, 2)), "action completed", Outcome(execs))
  }

  /** The state to report: that of the last execution. */
  function Outcome(execs: seq<ExecAnswer>): State {
    if execs == [] || execs[|execs| - 1].Done? then Success
    else if execs[|execs| - 1].deadline then Timeout
    else Failure
  }

  /** Executions allowed: none at all for a negative retry count. */
  function Limit(retries: int): int {
    if retries == 0 then 1 else retries
  }

  /** Another execution follows while the last one failed without a deadline. */
  predicate More(retries: int, execs: seq<ExecAnswer>) {
    |execs| < Limit(retries) && (execs == [] || execs[|execs| - 1] == ExecError(false))
  }

  /** The life cycle: the phase after event ev, the n-th of the trace. */
  function Move(ph: Phase, ev: Event, n: nat): Phase {
    match (ph, ev)
    case (Top(None), Select(done)) => if done then Ended else Polling
    case (Top(Some(_)), Select(true)) => Ended
    case (Top(Some(log)), BackOff(log')) => if log == log' then Sleeping else Stuck
    case (Sleeping, Sleep(done)) => if done then Ended else Polling
    case (Polling, Read(Got(a))) => Starting(a)
    case (Polling, Read(ReadError(canceled, noAction))) => if canceled then Ended else Top(Some(!noAction))
    case (Starting(a), Report(note, write)) =>
      if note != RunningNote(a) then Stuck
      else if write.Accepted? then Launched(a, n)
      else if write.canceled then Ended else Top(Some(true))
    case (Launched(a, at), Clock(t)) => Executing(a, at, t, [])
    case (Executing(a, at, t, execs), Execute(b, exec)) =>
      if b == a.(start := t) && More(a.retries, execs) then Executing(a, at, t, execs + [exec]) else Stuck
    case (Executing(a, at, t, execs), Clock(stop)) =>
      if More(a.retries, execs) then Stuck else Reporting(a, at, t, execs, stop)
    case (Reporting(a, at, t, execs, stop), Report(note, write)) =>
      if note != ResultNote(a, t, stop, execs) then Stuck
      else if write.Accepted? then Resetting else Deciding(a, at, t, execs, stop)
    case (Deciding(a, at, t, execs, stop), Retry(again)) => if again then Reporting(a, at, t, execs, stop) else Ended
    case (Resetting, Reset) => Top(None)
    case _ => Stuck
  }

  function After(trace: seq<Event>): Phase {
    if trace == [] then Top(None)
    else Move(After(trace[..|trace| - 1]), trace[|trace| - 1], |trace| - 1)
  }

  predicate Accepts(trace: seq<Event>) { After(trace) != Stuck }

  lemma AfterAppend(trace: seq<Event>, ev: Event)
    ensures After(trace + [ev]) == Move(After(trace), ev, |trace|)
  {
    assert (trace + [ev])[..|trace|] == trace;
  }

  /** Every beginning of a life cycle is one, and its next event fits. */
  lemma {:induction false} AcceptsPrefix(trace: seq<Event>, k: nat)
    requires Accepts(trace) && k <= |trace|
    ensures Accepts(trace[..k])
    ensures k < |trace| ==> Move(After(trace[..k]), trace[k], k) != Stuck
  {
    var n := |trace|;
    if k < n {
      var front := trace[..n - 1];
      assert Accepts(front);
      if k < n - 1 {
        AcceptsPrefix(front, k);
        assert front[..k] == trace[..k] && front[k] == trace[k];
      } else {
        assert trace[..k] == front;
      }
    } else {
      assert trace[..k] == trace;
    }
  }
}
