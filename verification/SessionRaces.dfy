/** Interleavings that the code permits although the comments at
    secondstar/internal/handler.go:22-25 suggest otherwise: two initial sessions
    of one user, an attach to a deleted State, and a close signal that reaches
    one session only.  Each is shown from every world that invites it, and once
    from the start. */
module SessionRaces {
  import opened Prelude
  import opened SessionWorld
  import opened SessionDispatch

  /** Run `first`, then `second`. */
  lemma Chain(w: World, first: seq<Action>, second: seq<Action>, w': World) returns (run: seq<Action>)
    requires After(w, first).Some? && After(After(w, first).value, second) == Some(w')
    ensures After(w, run) == Some(w')
  {
    run := first + second;
    AfterConcat(w, first, second);
  }

  lemma One(w: World, a: Action)
    ensures After(w, [a]) == Next(w, a)
  {
    assert [a][1..] == [];
    assert Next(w, a).Some? ==> After(Next(w, a).value, []) == Next(w, a);
  }

  lemma Two(w: World, a: Action, b: Action)
    ensures Next(w, a).Some? ==> After(w, [a, b]) == Next(Next(w, a).value, b)
  {
    assert [a, b][1..] == [b];
    if Next(w, a).Some? { One(Next(w, a).value, b); }
  }

  /** Session i moved to pc, everything else as in w. */
  ghost predicate OnlyMoved(w: World, i: Sid, pc: Pc, w': World) {
    i in w.sessions && w'.store == w.store && w'.shared == w.shared
      && w'.sessions == w.sessions[i := w.sessions[i].(pc := pc)]
  }

  /** An initial session whose command ends and whose Get returns v, which nobody
      has attached to, waits for v. */
  lemma CommandEndsAlone(w: World, i: Sid) returns (run: seq<Action>, w': World)
    requires i in w.sessions && w.sessions[i].pc == Running
    requires w.sessions[i].user in w.store ==>
      w.store[w.sessions[i].user] in w.shared && w.shared[w.store[w.sessions[i].user]].count == 0
    ensures After(w, run) == Some(w') && OnlyMoved(w, i, Waiting(Lookup(w, w.sessions[i].user)), w')
  {
    var found := Lookup(w, w.sessions[i].user);
    var w1 := Moved(w, i, Exited);
    Two(w, Main(i, CommandExits), Main(i, Fetch));
    var w2 := Moved(w1, i, Fetched(found));
    assert After(w, [Main(i, CommandExits), Main(i, Fetch)]) == Some(w2);
    One(w2, Main(i, Check));
    w' := Moved(w2, i, Waiting(found));
    run := Chain(w, [Main(i, CommandExits), Main(i, Fetch)], [Main(i, Check)], w');
  }

  /** ... and when v has no session in its wait group, it deletes the entry. */
  lemma DrainsAndDeletes(w: World, i: Sid) returns (run: seq<Action>, w': World)
    requires i in w.sessions && w.sessions[i].pc == Running && w.sessions[i].user in w.store
    requires var v := w.store[w.sessions[i].user]; v in w.shared && w.shared[v].count == 0 && w.shared[v].wg == 0
    ensures After(w, run) == Some(w')
    ensures w'.store == w.store - {w.sessions[i].user} && w'.shared == w.shared
    ensures w'.sessions == w.sessions[i := w.sessions[i].(pc := Finished)]
  {
    var first, w1 := CommandEndsAlone(w, i);
    Two(w1, Main(i, WaitReturns), Main(i, Unpublish));
    w' := Moved(Moved(w1, i, Drained), i, Finished).(store := w.store - {w.sessions[i].user});
    run := Chain(w, first, [Main(i, WaitReturns), Main(i, Unpublish)], w');
  }

  /** Two initial sessions of one user are serving and the store names j.  Then i
      can wait on j's State and delete its entry, after which j waits on nil. */
  lemma DoubleDispatchWaitsOnNil(w: World, i: Sid, j: Sid) returns (run: seq<Action>, w': World)
    requires i in w.sessions && j in w.sessions && i != j && w.sessions[i].user == w.sessions[j].user
    requires w.sessions[i].pc == Running && w.sessions[j].pc == Running
    requires Lookup(w, w.sessions[i].user) == Some(j) && j in w.shared && w.shared[j].count == 0 && w.shared[j].wg == 0
    ensures After(w, run) == Some(w') && j in w'.sessions && w'.sessions[j].pc == Panicked
  {
    var r1, w1 := DrainsAndDeletes(w, i);
    var r2;
    r2, w' := WaitsOnNil(w1, j);
    run := Chain(w, r1, r2, w');
  }

  /** An initial session whose entry is gone when its command ends waits on nil. */
  lemma WaitsOnNil(w: World, j: Sid) returns (run: seq<Action>, w': World)
    requires j in w.sessions && w.sessions[j].pc == Running && w.sessions[j].user !in w.store
    ensures After(w, run) == Some(w') && j in w'.sessions && w'.sessions[j].pc == Panicked
  {
    var first, w1 := CommandEndsAlone(w, j);
    One(w1, Main(j, NilWait));
    w' := Moved(w1, j, Panicked);
    run := Chain(w, first, [Main(j, NilWait)], w');
  }

  /** A session j that has looked a State up while its initial session i is alone
      can register with the State after i has returned and deleted its entry. */
  lemma LateAttach(w: World, i: Sid, j: Sid) returns (run: seq<Action>, w': World)
    requires i in w.sessions && w.sessions[i].pc == Running && Lookup(w, w.sessions[i].user) == Some(i)
    requires i in w.shared && w.shared[i].count == 0 && w.shared[i].wg == 0
    requires j in w.sessions && j != i && w.sessions[j].on == i && w.sessions[j].pc == Holding
    ensures After(w, run) == Some(w')
    ensures i in w'.shared && j in w'.shared[i].writers
  {
    var r1, w1 := DrainsAndDeletes(w, i);
    UndecidedRegisters(w1, j, i);
    var r2 := ToRegistered(j, w1.sessions[j].pc);
    w' := After(w1, r2).value;
    run := Chain(w, r1, r2, w');
  }

  lemma ReachesSend(w: World, i: Sid) returns (run: seq<Action>, w': World)
    requires i in w.sessions && w.sessions[i].pc == Running && Lookup(w, w.sessions[i].user) == Some(i)
    requires i in w.shared && w.shared[i].count > 0
    ensures After(w, run) == Some(w') && OnlyMoved(w, i, Sending(i, i), w')
  {
    Two(w, Main(i, CommandExits), Main(i, Fetch));
    var w2 := Moved(Moved(w, i, Exited), i, Fetched(Some(i)));
    assert After(w, [Main(i, CommandExits), Main(i, Fetch)]) == Some(w2);
    Two(w2, Main(i, Check), Main(i, Refetch));
    w' := Moved(Moved(w2, i, Checked(i)), i, Sending(i, i));
    run := Chain(w, [Main(i, CommandExits), Main(i, Fetch)], [Main(i, Check), Main(i, Refetch)], w');
  }

  /** With j and k attached to i's State, the one signal i sends takes j out of
      its select and leaves k in it, while i goes on to Wait. */
  lemma SignalIsNotABroadcast(w: World, i: Sid, j: Sid, k: Sid) returns (run: seq<Action>, w': World)
    requires i in w.sessions && w.sessions[i].pc == Running && Lookup(w, w.sessions[i].user) == Some(i)
    requires i in w.shared && w.shared[i].count > 0
    requires j in w.sessions && k in w.sessions && i != j && i != k && j != k
    requires w.sessions[j].pc == Attached && w.sessions[k].pc == Attached && w.sessions[j].on == i
      && w.sessions[k].on == i
    ensures After(w, run) == Some(w') && {i, j, k} <= w'.sessions.Keys
    ensures w'.sessions[i].pc == Waiting(Some(i)) && w'.sessions[i].signalled == Some(i)
    ensures w'.sessions[j].pc == Leaving && w'.sessions[k] == w.sessions[k]
    ensures i in w'.shared && w'.shared[i].wg == w.shared[i].wg
  {
    var first, w1 := ReachesSend(w, i);
    One(w1, Signal(i, j));
    w' := Next(w1, Signal(i, j)).value;
    run := Chain(w, first, [Signal(i, j)], w');
  }

  /** An initial session that has seen additional sessions can find its entry gone
      at the second Get, because a rival of the same user deletes it in between:
      it then waits for the State it had fetched without having signalled, and
      the session attached there stays in its select. */
  lemma SignalIsSkipped(w: World, i: Sid, j: Sid, k: Sid) returns (run: seq<Action>, w': World)
    requires i in w.sessions && j in w.sessions && i != j && w.sessions[i].user == w.sessions[j].user
    requires w.sessions[i].pc == Checked(i) && w.sessions[j].pc == Drained
    requires k in w.sessions && k != i && k != j && w.sessions[k].pc == Attached && w.sessions[k].on == i
    ensures After(w, run) == Some(w') && {i, k} <= w'.sessions.Keys
    ensures w'.sessions[i] == w.sessions[i].(pc := Waiting(Some(i))) && w'.sessions[k] == w.sessions[k]
    ensures w'.shared == w.shared && w'.store == w.store - {w.sessions[i].user}
  {
    run := [Main(j, Unpublish), Main(i, Refetch)];
    Two(w, Main(j, Unpublish), Main(i, Refetch));
    w' := After(w, run).value;
  }

  /** ... or it can find a rival's State there: its signal then takes a session of
      the rival out of its select, while it waits for the State it had fetched. */
  lemma SignalGoesElsewhere(w: World, i: Sid, j: Sid, k: Sid) returns (run: seq<Action>, w': World)
    requires i in w.sessions && w.sessions[i].pc == Checked(i) && Lookup(w, w.sessions[i].user) == Some(j)
    requires j in w.shared && k in w.sessions && k != i && w.sessions[k].pc == Attached && w.sessions[k].on == j
    ensures After(w, run) == Some(w') && {i, k} <= w'.sessions.Keys
    ensures w'.sessions[i] == w.sessions[i].(pc := Waiting(Some(i)), signalled := Some(j))
    ensures w'.sessions[k] == w.sessions[k].(pc := Leaving, left := w.sessions[k].left + [InitialClosed])
    ensures w'.store == w.store && w'.shared.Keys == w.shared.Keys
  {
    run := [Main(i, Refetch), Signal(i, k)];
    Two(w, Main(i, Refetch), Signal(i, k));
    w' := After(w, run).value;
  }

  // ----- reaching the three situations from the start -----

  lemma Arrives(w: World, i: Sid, user: User) returns (run: seq<Action>, w': World)
    requires i !in w.sessions
    ensures After(w, run) == Some(w')
    ensures w'.store == w.store && w'.shared == w.shared
    ensures w'.sessions == w.sessions[i := if user in w.store
      then NewSession(i, user).(pc := Holding, on := w.store[user]) else NewSession(i, user).(pc := Missed)]
  {
    run := [Connect(i, user), Dispatch(i)];
    Two(w, Connect(i, user), Dispatch(i));
    w' := After(w, run).value;
  }

  lemma Publishes(w: World, i: Sid) returns (run: seq<Action>, w': World)
    requires i in w.sessions && w.sessions[i].pc == Missed
    ensures After(w, run) == Some(w') && w' == MainEffect(w, i, w.sessions[i], Publish, Running)
  {
    run := [Main(i, Publish)];
    One(w, Main(i, Publish));
    w' := After(w, run).value;
  }

  /** Session j is attached to st in w', which counts one session more there;
      everybody else is as in w. */
  ghost predicate JustAttached(w: World, j: Sid, user: User, st: Sid, w': World) {
    && w'.store == w.store && w'.sessions.Keys == w.sessions.Keys + {j}
    && (forall k :: k in w.sessions && k != j ==> w'.sessions[k] == w.sessions[k])
    && w'.sessions[j].pc == Attached && w'.sessions[j].on == st && w'.sessions[j].user == user
    && st in w.shared && st in w'.shared
    && w'.shared[st].count == w.shared[st].count + 1 && w'.shared[st].wg == w.shared[st].wg + 1
  }

  /** A session that holds a State enters its counter, its wait group and its
      multi-writer. */
  lemma Attaches(w: World, j: Sid) returns (run: seq<Action>, w': World)
    requires j in w.sessions && w.sessions[j].pc == Holding && w.sessions[j].on in w.shared
    ensures After(w, run) == Some(w') && JustAttached(w, j, w.sessions[j].user, w.sessions[j].on, w')
  {
    Two(w, Extra(j, Count), Extra(j, Join));
    var w1 := Next(w, Extra(j, Count)).value;
    var w2 := Next(w1, Extra(j, Join)).value;
    One(w2, Extra(j, Register));
    w' := Next(w2, Extra(j, Register)).value;
    run := Chain(w, [Extra(j, Count), Extra(j, Join)], [Extra(j, Register)], w');
  }

  lemma ArrivesAndAttaches(w: World, j: Sid, user: User) returns (run: seq<Action>, w': World)
    requires j !in w.sessions && user in w.store && w.store[user] in w.shared
    ensures After(w, run) == Some(w') && JustAttached(w, j, user, w.store[user], w')
  {
    var r1, w1 := Arrives(w, j, user);
    var r2;
    r2, w' := Attaches(w1, j);
    run := Chain(w, r1, r2, w');
  }

  lemma OneInitialSession(user: User) returns (run: seq<Action>, w: World)
    ensures After(START, run) == Some(w) && w.sessions.Keys == {0} && w.shared.Keys == {0}
    ensures w.sessions[0] == NewSession(0, user).(pc := Running) && w.shared[0] == NEW_STATE
    ensures Lookup(w, user) == Some(0)
  {
    var r1, w1 := Arrives(START, 0, user);
    var r2, w2 := Publishes(w1, 0);
    run := Chain(START, r1, r2, w2);
    w := w2;
  }

  /** One initial session and two attached ones, as SignalIsNotABroadcast asks for. */
  lemma InitialAndTwoAttached(user: User) returns (run: seq<Action>, w: World)
    ensures After(START, run) == Some(w) && w.sessions.Keys == {0, 1, 2}
    ensures w.sessions[0] == NewSession(0, user).(pc := Running) && Lookup(w, user) == Some(0)
    ensures w.sessions[1].pc == Attached && w.sessions[1].on == 0 && w.sessions[1].user == user
    ensures w.sessions[2].pc == Attached && w.sessions[2].on == 0 && w.sessions[2].user == user
    ensures 0 in w.shared && w.shared[0].count == 2 && w.shared[0].wg == 2
  {
    var r1, w1 := OneInitialSession(user);
    var r2, w2 := ArrivesAndAttaches(w1, 1, user);
    var r3, w3 := ArrivesAndAttaches(w2, 2, user);
    run := Chain(START, r1, r2, w2);
    run := Chain(START, run, r3, w3);
    w := w3;
  }

  lemma CannotReturn(w: World, i: Sid)
    requires i in w.sessions && w.sessions[i].pc == Waiting(Some(i)) && i in w.shared && w.shared[i].wg != 0
    ensures Next(w, Main(i, WaitReturns)).None?
  {
  }

  /** From the start, for every user: the initial session has signalled and waits,
      one additional session is still in its select, and Wait cannot return. */
  lemma SignalLeavesOneBehind(user: User) returns (run: seq<Action>, w: World)
    ensures After(START, run) == Some(w) && {0, 1, 2} <= w.sessions.Keys
    ensures w.sessions[0].pc == Waiting(Some(0)) && w.sessions[0].signalled == Some(0)
    ensures w.sessions[1].pc == Leaving && w.sessions[2].pc == Attached && w.sessions[2].on == 0
    ensures Next(w, Main(0, WaitReturns)).None?
  {
    var r1, w1 := InitialAndTwoAttached(user);
    var r2;
    r2, w := SignalIsNotABroadcast(w1, 0, 1, 2);
    run := Chain(START, r1, r2, w);
    CannotReturn(w, 0);
  }

  /** Two initial sessions of one user, as DoubleDispatchWaitsOnNil asks for. */
  lemma TwoInitialSessions(user: User) returns (run: seq<Action>, w: World)
    ensures After(START, run) == Some(w) && w.sessions.Keys == {0, 1}
    ensures forall i :: i in w.sessions ==> w.sessions[i].pc == Running && w.sessions[i].user == user
    ensures Lookup(w, user) == Some(1) && w.shared == map[0 := NEW_STATE, 1 := NEW_STATE]
  {
    var r1, w1 := Arrives(START, 0, user);
    var r2, w2 := Arrives(w1, 1, user);
    var r3, w3 := Publishes(w2, 0);
    var r4, w4 := Publishes(w3, 1);
    run := Chain(START, r1, r2, w2);
    run := Chain(START, run, r3, w3);
    run := Chain(START, run, r4, w4);
    w := w4;
  }

  /** An initial session and one that has just looked it up, as LateAttach asks for. */
  lemma InitialAndHolder(user: User) returns (run: seq<Action>, w: World)
    ensures After(START, run) == Some(w) && w.sessions.Keys == {0, 1}
    ensures w.sessions[0] == NewSession(0, user).(pc := Running)
      && w.sessions[1] == NewSession(1, user).(pc := Holding, on := 0)
    ensures Lookup(w, user) == Some(0) && w.shared == map[0 := NEW_STATE]
  {
    var r1, w1 := Arrives(START, 0, user);
    var r2, w2 := Publishes(w1, 0);
    var r3, w3 := Arrives(w2, 1, user);
    run := Chain(START, r1, r2, w2);
    run := Chain(START, run, r3, w3);
    w := w3;
  }
}
