/** The shared serial console as a transition system
    (secondstar/internal/handler.go).  An operation of the store or the
    multi-writer is one step, which its lock makes it (see RwMutex), and so is
    the write of one chunk to the shared stdin.

    Every connected ssh session has a program counter.  The first session of a
    user publishes a State object; later sessions of the user attach to it.  A
    State is identified with the session that created it.  One action moves one
    session (the close signal moves two: it is a rendezvous on an unbuffered
    channel); a run is any sequence of enabled actions, so statements about all
    runs are statements about all interleavings. */
module SessionWorld {
  import opened Prelude
  import opened Escape
  import opened MultiWriters

  type Sid = nat
  type User = string

  /** The case of the select statement through which an additional session left. */
  datatype Reason = InitialClosed | ContextDone | EscapeTyped

  /** Where a session is; the comments name the lines of handler.go between
      which it stands. */
  datatype Pc =
    | Connected                           // before the lookup at 39
    | Missed                              // initial session, before Set at 103
    | Failed                              // set-up failed (58-95), nothing published
    | Running                             // in cmd.Wait at 151
    | Exited                              // before Get at 170
    | Fetched(found: Option<Sid>)         // before the counter check at 171
    | Checked(v: Sid)                     // before the second Get at 172
    | Sending(v: Sid, c: Sid)             // at the send at 174
    | Waiting(target: Option<Sid>)        // at Wait at 177
    | Panicked                            // Wait on a nil State at 177
    | Drained                             // before Delete at 178
    | Holding                             // additional session, before 193
    | Counted                             // before wg.Add at 197
    | Joined                              // before multiwriter.Add at 199
    | Attached                            // in the select at 236
    | Leaving                             // before multiwriter.Remove at 201
    | Unregistered                        // before the decrement at 202
    | Uncounted                           // before wg.Done at 198
    | Finished                            // handler returned

  /** One session.  `on` is the State whose stdin and stdout it shares: its own
      id for an initial session.  `left`, `signalled`, `from`, `upto`, `typed`,
      `broken` and `seen` record history. */
  datatype Session = Session(
    user: User,
    on: Sid,
    pc: Pc,
    left: seq<Reason>,          // select cases taken
    signalled: Option<Sid>,     // State whose channel it sent on
    from: nat,                  // chunks already emitted when it registered
    upto: nat,                  // chunks emitted when it unregistered
    typed: seq<Bytes>,          // own chunks written to the shared stdin
    broken: seq<Bytes>,         // part of a chunk taken by a failing stdin write
    pending: Bytes,             // written to the escape pipe, not yet read
    seen: Bytes)                // read by the escape watcher

  /** The write that ended the output copy: the writers at that time, the
      position of the failing one, and the bytes it took. */
  datatype Cut = Cut(writers: seq<Sid>, at: nat, n: nat)

  /** The State object of handler.go:21-34 together with the history of its
      channel, its output and its input. */
  datatype Shared = Shared(
    wg: int,
    count: int,
    writers: seq<Sid>,
    signals: nat,
    chunks: seq<Bytes>,         // output chunks handed to the multi-writer
    log: seq<(Sid, Bytes)>,     // what the writers took
    cut: Option<Cut>,
    headDown: bool,             // the initial session's own write failed
    stdin: seq<(Sid, Bytes)>)   // writes to the shared stdin

  datatype World = World(store: map<User, Sid>, sessions: map<Sid, Session>, shared: map<Sid, Shared>)

  datatype MainStep = SetupFails | Publish | CommandExits | Fetch | Check | Refetch | WaitReturns | NilWait | Unpublish
  datatype ExtraStep = Count | Join | Register | ContextEnds | EscapeSeen | Unregister | Uncount | Done
  datatype StreamStep =
    | Emit(chunk: Bytes, outcomes: seq<Outcome>)
    | EmitFails
    | Forward(input: Bytes)
    | ForwardFails(lost: Bytes, n: nat)
    | Watch

  datatype Action =
    | Connect(i: Sid, user: User)
    | Dispatch(i: Sid)
    | Main(i: Sid, main: MainStep)
    | Extra(i: Sid, extra: ExtraStep)
    | Signal(i: Sid, j: Sid)
    | Stream(i: Sid, stream: StreamStep)

  const START := World(map[], map[], map[])
  const NEW_STATE := Shared(0, 0, [], 0, [], [], None, false, [])

  function NewSession(i: Sid, user: User): Session {
    Session(user, i, Connected, [], None, 0, 0, [], [], [], [])
  }

  // ----- additional sessions: handler.go:192-256 -----

  /** A step of an additional session on the State it holds. */
  function ExtraNext(i: Sid, s: Session, sh: Shared, step: ExtraStep): Option<(Session, Shared)> {
    match step
    case Count => if s.pc != Holding then None else
      Some((s.(pc := Counted), sh.(count := sh.count + 1)))
    case Join => if s.pc != Counted then None else
      Some((s.(pc := Joined), sh.(wg := sh.wg + 1)))
    case Register => if s.pc != Joined then None else
      Some((s.(pc := Attached, from := |sh.chunks|), sh.(writers := sh.writers + [i])))
    case ContextEnds => if s.pc != Attached then None else
      Some((s.(pc := Leaving, left := s.left + [ContextDone]), sh))
    case EscapeSeen => if s.pc != Attached || !Escaped(s.seen) then None else
      Some((s.(pc := Leaving, left := s.left + [EscapeTyped]), sh))
    case Unregister => if s.pc != Leaving then None else
      Some((s.(pc := Unregistered, upto := |sh.chunks|), sh.(writers := Without(sh.writers, i))))
    case Uncount => if s.pc != Unregistered then None else
      Some((s.(pc := Uncounted), sh.(count := sh.count - 1)))
    case Done => if s.pc != Uncounted then None else
      Some((s.(pc := Finished), sh.(wg := sh.wg - 1)))
  }

  // ----- the copy and watcher goroutines: handler.go:98-149 and 204-235 -----

  /** An initial session that has published its State and not yet returned. */
  predicate Serving(pc: Pc) {
    pc.Running? || pc.Exited? || pc.Fetched? || pc.Checked? || pc.Sending? || pc.Waiting? || pc.Drained?
  }

  predicate OnceRegistered(pc: Pc) {
    pc.Attached? || pc.Leaving? || pc.Unregistered? || pc.Uncounted? || pc.Finished?
  }

  predicate HasStreams(pc: Pc) {
    Serving(pc) || pc.Panicked? || OnceRegistered(pc)
  }

  /** A step of the goroutines of a session.  The stdin copy writes a chunk to
      the shared stdin first and to the session's own escape pipe second, and
      waits there until the watcher has read it; the watcher stops once it has
      seen an escape.  The output copy (owner only) writes a chunk to the
      session itself and then to the multi-writer, and ends at the first failing
      write. */
  function StreamNext(i: Sid, s: Session, sh: Shared, step: StreamStep): Option<(Session, Shared)> {
    if !HasStreams(s.pc) then None else
    match step
    case Emit(chunk, outcomes) =>
      if s.on != i || sh.cut.Some? || sh.headDown || !Answers(outcomes, |sh.writers|, chunk) then None else
      var at := StopAt(outcomes, chunk);
      Some((s, sh.(
        chunks := sh.chunks + [chunk],
        log := sh.log + Deliveries(sh.writers, outcomes, chunk),
        cut := if at < |sh.writers| then Some(Cut(sh.writers, at, outcomes[at].n)) else None)))
    case EmitFails =>
      if s.on != i || sh.cut.Some? || sh.headDown then None else
      Some((s, sh.(headDown := true)))
    case Forward(input) =>
      if s.pending != [] || s.broken != [] || input == [] then None else
      Some((s.(typed := s.typed + [input], pending := input), sh.(stdin := sh.stdin + [(i, input)])))
    case ForwardFails(lost, n) =>
      if s.pending != [] || s.broken != [] || n > |lost| then None else
      Some((s.(broken := [lost[..n]]), sh.(stdin := sh.stdin + [(i, lost[..n])])))
    case Watch =>
      if s.pending == [] || Escaped(s.seen) then None else
      Some((s.(pending := s.pending[1..], seen := s.seen + s.pending[..1]), sh))
  }

  // ----- the initial session: handler.go:48-189 -----

  /** Where a step takes an initial session. */
  function MainPc(w: World, s: Session, step: MainStep): Option<Pc> {
    match step
    case SetupFails => if s.pc.Missed? then Some(Failed) else None
    case Publish => if s.pc.Missed? then Some(Running) else None
    case CommandExits => if s.pc.Running? then Some(Exited) else None
    case Fetch => if s.pc.Exited? then Some(Fetched(Lookup(w, s.user))) else None
    case Check =>
      if !s.pc.Fetched? then None
      else if s.pc.found.None? then Some(Waiting(None))
      else if s.pc.found.value !in w.shared then None
      else if w.shared[s.pc.found.value].count > 0 then Some(Checked(s.pc.found.value))
      else Some(Waiting(s.pc.found))
    case Refetch =>
      if !s.pc.Checked? then None
      else if s.user in w.store then Some(Sending(s.pc.v, w.store[s.user]))
      else Some(Waiting(Some(s.pc.v)))
    case WaitReturns =>
      if !s.pc.Waiting? || s.pc.target.None? || s.pc.target.value !in w.shared then None
      else if w.shared[s.pc.target.value].wg == 0 then Some(Drained) else None
    case NilWait => if s.pc == Waiting(None) then Some(Panicked) else None
    case Unpublish => if s.pc.Drained? then Some(Finished) else None
  }

  /** What the step does to the store and to the State objects. */
  function MainEffect(w: World, i: Sid, s: Session, step: MainStep, pc: Pc): World {
    World(
      if step.Publish? then w.store[s.user := i] else if step.Unpublish? then w.store - {s.user} else w.store,
      w.sessions[i := s.(pc := pc)],
      if step.Publish? then w.shared[i := NEW_STATE] else w.shared)
  }

  function Lookup(w: World, user: User): Option<Sid> {
    if user in w.store then Some(w.store[user]) else None
  }

  function Moved(w: World, i: Sid, pc: Pc): World
    requires i in w.sessions
  {
    w.(sessions := w.sessions[i := w.sessions[i].(pc := pc)])
  }

  /** Write back a session and the State it is on. */
  function Put(w: World, i: Sid, r: (Session, Shared)): World
    requires i in w.sessions
  {
    w.(sessions := w.sessions[i := r.0], shared := w.shared[w.sessions[i].on := r.1])
  }

  /** The world after action a, or None when a is not enabled. */
  function Next(w: World, a: Action): Option<World> {
    if a.Connect? then
      if a.i in w.sessions then None else
      Some(w.(sessions := w.sessions[a.i := NewSession(a.i, a.user)]))
    else if a.i !in w.sessions then None else
    var s := w.sessions[a.i];
    match a
    case Dispatch(i) => if s.pc != Connected then None else
      match Lookup(w, s.user) {
        case None => Some(Moved(w, i, Missed))
        case Some(st) => Some(w.(sessions := w.sessions[i := s.(pc := Holding, on := st)]))
      }
    case Main(i, step) =>
      match MainPc(w, s, step) {
        case None => None
        case Some(pc) => Some(MainEffect(w, i, s, step, pc))
      }
    case Extra(i, step) => if s.on !in w.shared then None else
      match ExtraNext(i, s, w.shared[s.on], step) {
        case None => None
        case Some(r) => Some(Put(w, i, r))
      }
    case Stream(i, step) => if s.on !in w.shared then None else
      match StreamNext(i, s, w.shared[s.on], step) {
        case None => None
        case Some(r) => Some(Put(w, i, r))
      }
    case Signal(i, j) =>
      if !s.pc.Sending? || i == j || j !in w.sessions || w.sessions[j].pc != Attached
         || w.sessions[j].on != s.pc.c || s.pc.c !in w.shared
      then None else
      var t := w.sessions[j];
      var sh := w.shared[s.pc.c];
      Some(w.(
        sessions := w.sessions[i := s.(pc := Waiting(Some(s.pc.v)), signalled := Some(s.pc.c))]
                              [j := t.(pc := Leaving, left := t.left + [InitialClosed])],
        shared := w.shared[s.pc.c := sh.(signals := sh.signals + 1)]))
  }

  /** The world after a whole run, or None when some action is not enabled. */
  function After(w: World, run: seq<Action>): Option<World>
    decreases |run|
  {
    if run == [] then Some(w)
    else match Next(w, run[0])
      case None => None
      case Some(w1) => After(w1, run[1..])
  }

  lemma {:induction false} AfterConcat(w: World, a: seq<Action>, b: seq<Action>)
    ensures After(w, a + b) == (if After(w, a).None? then None else After(After(w, a).value, b))
    decreases |a|
  {
    if a == [] {
      assert a + b == b;
    } else {
      assert (a + b)[1..] == a[1..] + b && (a + b)[0] == a[0];
      if Next(w, a[0]).Some? { AfterConcat(Next(w, a[0]).value, a[1..], b); }
    }
  }
}
