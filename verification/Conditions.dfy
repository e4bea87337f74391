/** The condition lists of Job, Task and Machine as values
    (api/v1alpha1/bmc/job.go:93-136, task.go:96-139, machine.go:148-184): what a
    SetCondition call does to the list, and what any run of calls amounts to. */
module Conditions {
  import opened Prelude

  /** A condition.  `stamp` is Machine's LastUpdateTime; Job and Task conditions
      have no such field and never write it. */
  datatype Condition = Condition(kind: string, status: string, message: string, stamp: int)

  /** A set-condition option: an update of the condition it is given. */
  type Opt = Condition -> Condition

  /** One SetCondition call.  `clock` is the time of a Machine call, None for
      Job and Task, which do not look at the clock. */
  datatype Call = Call(kind: string, status: string, opts: seq<Opt>, clock: Option<int>)

  function ApplyOpts(c: Condition, opts: seq<Opt>): Condition
    decreases |opts|
  {
    if opts == [] then c else ApplyOpts(opts[0](c), opts[1..])
  }

  /** The status write: Machine stamps it, and only when the status changes. */
  function Touch(c: Condition, status: string, clock: Option<int>): Condition {
    match clock
    case None => c.(status := status)
    case Some(now) => if c.status == status then c else c.(status := status, stamp := now)
  }

  /** Position of the first condition of a kind, or the length of the list. */
  function Find(cs: seq<Condition>, kind: string): (k: nat)
    ensures k <= |cs|
    ensures k < |cs| ==> cs[k].kind == kind
  {
    if cs == [] || cs[0].kind == kind then 0 else 1 + Find(cs[1..], kind)
  }

  lemma {:induction false} FindIs(cs: seq<Condition>, kind: string, k: nat)
    requires k <= |cs| && (k < |cs| ==> cs[k].kind == kind)
    requires forall m :: 0 <= m < k ==> cs[m].kind != kind
    ensures Find(cs, kind) == k
  {
    if k > 0 { FindIs(cs[1..], kind, k - 1); }
  }

  lemma {:induction false} FindIsFirst(cs: seq<Condition>, kind: string)
    ensures forall m :: 0 <= m < Find(cs, kind) ==> cs[m].kind != kind
  {
    if cs != [] && cs[0].kind != kind {
      FindIsFirst(cs[1..], kind);
      forall m | 0 <= m < Find(cs, kind) ensures cs[m].kind != kind {
        if m > 0 { assert cs[m] == cs[1..][m - 1]; }
      }
    }
  }

  /** The list after a SetCondition call. */
  function Set(cs: seq<Condition>, call: Call): seq<Condition> {
    var k := Find(cs, call.kind);
    var blank := Condition(call.kind, "", "", 0);
    if k < |cs| then cs[k := ApplyOpts(Touch(cs[k], call.status, call.clock), call.opts)]
    else cs + [ApplyOpts(Touch(blank, call.status, call.clock), call.opts)]
  }

  /** HasCondition. */
  predicate Has(cs: seq<Condition>, kind: string, status: string) {
    Find(cs, kind) < |cs| && cs[Find(cs, kind)].status == status
  }

  /** The list after a run of calls. */
  function Apply(cs: seq<Condition>, calls: seq<Call>): seq<Condition>
    decreases |calls|
  {
    if calls == [] then cs else Set(Apply(cs, calls[..|calls| - 1]), calls[|calls| - 1])
  }

  lemma ApplyAppend(cs: seq<Condition>, calls: seq<Call>, call: Call)
    ensures Apply(cs, calls + [call]) == Set(Apply(cs, calls), call)
  {
    assert (calls + [call])[..|calls|] == calls;
  }

  // ----- what a run of calls amounts to, without the list -----

  /** The status of a kind after the calls: that of the last call naming it. */
  function LastStatus(calls: seq<Call>, kind: string): Option<string>
    decreases |calls|
  {
    if calls == [] then None
    else if calls[|calls| - 1].kind == kind then Some(calls[|calls| - 1].status)
    else LastStatus(calls[..|calls| - 1], kind)
  }

  /** The kinds in the order in which they were first named. */
  function FirstNamed(calls: seq<Call>): seq<string>
    decreases |calls|
  {
    if calls == [] then []
    else
      var front := FirstNamed(calls[..|calls| - 1]);
      if calls[|calls| - 1].kind in front then front else front + [calls[|calls| - 1].kind]
  }

  /** The time of the latest call that changed the kind's status (an absent
      condition has the empty status), zero if there was none. */
  function LastChange(calls: seq<Call>, kind: string): int
    decreases |calls|
  {
    if calls == [] then 0
    else
      var n := |calls| - 1;
      var before := LastStatus(calls[..n], kind);
      if calls[n].kind == kind && calls[n].clock.Some? && calls[n].status != (if before.Some? then before.value else "")
      then calls[n].clock.value
      else LastChange(calls[..n], kind)
  }

  /** Options that touch the message only. */
  ghost predicate MessageOnly(opts: seq<Opt>) {
    forall k, c :: 0 <= k < |opts| ==> opts[k](c) == c.(message := opts[k](c).message)
  }

  lemma {:induction false} ApplyMessageOnly(c: Condition, opts: seq<Opt>)
    requires MessageOnly(opts)
    ensures ApplyOpts(c, opts) == c.(message := ApplyOpts(c, opts).message)
    decreases |opts|
  {
    if opts != [] {
      assert opts[0](c) == c.(message := opts[0](c).message);
      ApplyMessageOnly(opts[0](c), opts[1..]);
    }
  }

  // ----- messages -----

  /** WithJobConditionMessage and its like: the option that sets a message. */
  function WithMessage(m: string): Opt {
    (c: Condition) => c.(message := m)
  }

  /** The message an option sets. */
  function MessageOf(opt: Opt): string { opt(Condition("", "", "", 0)).message }

  /** Options that set a message, as all options of the source do. */
  ghost predicate SetsMessage(opts: seq<Opt>) {
    forall k, c :: 0 <= k < |opts| ==> opts[k](c) == c.(message := MessageOf(opts[k]))
  }

  /** The message of a kind after the calls: that of the last option of the last
      call on the kind that had options, empty if there was none. */
  function LastMessage(calls: seq<Call>, kind: string): string
    decreases |calls|
  {
    if calls == [] then ""
    else
      var call := calls[|calls| - 1];
      if call.kind == kind && call.opts != [] then MessageOf(call.opts[|call.opts| - 1])
      else LastMessage(calls[..|calls| - 1], kind)
  }

  lemma MessagesAreSettable(messages: seq<string>)
    ensures var opts := seq(|messages|, k requires 0 <= k < |messages| => WithMessage(messages[k]));
      SetsMessage(opts) && forall k :: 0 <= k < |messages| ==> MessageOf(opts[k]) == messages[k]
  {
  }

  /** Options are applied in order: the last one has the last word. */
  lemma {:induction false} OptsInOrder(c: Condition, opts: seq<Opt>, opt: Opt)
    ensures ApplyOpts(c, opts + [opt]) == opt(ApplyOpts(c, opts))
    decreases |opts|
  {
    if opts == [] {
      assert opts + [opt] == [opt];
      assert ApplyOpts(c, [opt]) == ApplyOpts(opt(c), [opt][1..]);
    } else {
      assert (opts + [opt])[1..] == opts[1..] + [opt];
      OptsInOrder(opts[0](c), opts[1..], opt);
    }
  }

  lemma {:induction false} ApplySetsMessage(c: Condition, opts: seq<Opt>)
    requires SetsMessage(opts)
    ensures ApplyOpts(c, opts) == if opts == [] then c else c.(message := MessageOf(opts[|opts| - 1]))
    decreases |opts|
  {
    if opts != [] {
      var n := |opts| - 1;
      assert opts == opts[..n] + [opts[n]];
      OptsInOrder(c, opts[..n], opts[n]);
      ApplySetsMessage(c, opts[..n]);
    }
  }

  ghost predicate Messaged(cs: seq<Condition>, calls: seq<Call>) {
    forall k :: 0 <= k < |cs| ==> cs[k].message == LastMessage(calls, cs[k].kind)
  }

  lemma {:induction false} UnnamedHasNoMessage(calls: seq<Call>, kind: string)
    requires LastStatus(calls, kind).None?
    ensures LastMessage(calls, kind) == ""
    decreases |calls|
  {
    if calls != [] { UnnamedHasNoMessage(calls[..|calls| - 1], kind); }
  }

  /** Any run of calls from an empty list: every condition carries the message
      that the last option written for its type set; of two options in one call
      that is the second. */
  lemma {:induction false} MessagesAreLast(calls: seq<Call>)
    requires forall k :: 0 <= k < |calls| ==> SetsMessage(calls[k].opts)
    ensures Messaged(Apply([], calls), calls)
    decreases |calls|
  {
    if calls != [] {
      var n := |calls| - 1;
      var front, call := calls[..n], calls[n];
      MessagesAreLast(front);
      SetsIsMessageOnly(front);
      RunOfCalls(front);
      MessagedStep(Apply([], front), front, call);
      assert front + [call] == calls;
    }
  }

  lemma SetsIsMessageOnly(calls: seq<Call>)
    requires forall k :: 0 <= k < |calls| ==> SetsMessage(calls[k].opts)
    ensures forall k :: 0 <= k < |calls| ==> MessageOnly(calls[k].opts)
  {
  }

  lemma MessagedStep(cs: seq<Condition>, calls: seq<Call>, call: Call)
    requires Messaged(cs, calls) && Agrees(cs, calls) && SetsMessage(call.opts) && Distinct(FirstNamed(calls))
    ensures Messaged(Set(cs, call), calls + [call])
  {
    var f := Find(cs, call.kind);
    var c := TouchedMessage(cs, calls, call);
    assert Set(cs, call) == if f < |cs| then cs[f := c] else cs + [c];
    forall k | 0 <= k < |cs| && k != f ensures cs[k].message == LastMessage(calls + [call], cs[k].kind) {
      OtherKinds(cs, calls, call.kind, k);
      MessageKept(calls, call, cs[k].kind);
    }
  }

  lemma TouchedMessage(cs: seq<Condition>, calls: seq<Call>, call: Call) returns (c: Condition)
    requires Messaged(cs, calls) && Agrees(cs, calls) && SetsMessage(call.opts)
    ensures c == ApplyOpts(Touch(Target(cs, call.kind), call.status, call.clock), call.opts)
    ensures c.kind == call.kind && c.message == LastMessage(calls + [call], call.kind)
  {
    var touched := Touch(Target(cs, call.kind), call.status, call.clock);
    c := ApplyOpts(touched, call.opts);
    ApplySetsMessage(touched, call.opts);
    assert (calls + [call])[..|calls|] == calls;
    NamedIffFound(cs, calls, call.kind);
    NamedIffStatus(calls, call.kind);
    if Find(cs, call.kind) == |cs| { UnnamedHasNoMessage(calls, call.kind); }
  }

  lemma OtherKinds(cs: seq<Condition>, calls: seq<Call>, kind: string, k: nat)
    requires Agrees(cs, calls) && Distinct(FirstNamed(calls)) && k < |cs| && k != Find(cs, kind)
    ensures cs[k].kind != kind
  {
    var f := Find(cs, kind);
    FindIsFirst(cs, kind);
    if f < k { assert FirstNamed(calls)[f] != FirstNamed(calls)[k]; }
  }

  lemma MessageKept(calls: seq<Call>, call: Call, kind: string)
    requires kind != call.kind
    ensures LastMessage(calls + [call], kind) == LastMessage(calls, kind)
  {
    assert (calls + [call])[..|calls|] == calls;
  }

  /** One condition carries its kind's last status and last change. */
  ghost predicate Current(c: Condition, calls: seq<Call>) {
    LastStatus(calls, c.kind) == Some(c.status) && c.stamp == LastChange(calls, c.kind)
  }

  /** The list agrees with the run of calls: same kinds in order of first
      naming, each with its last status and its last change. */
  ghost predicate Agrees(cs: seq<Condition>, calls: seq<Call>) {
    && |cs| == |FirstNamed(calls)|
    && (forall k :: 0 <= k < |cs| ==> cs[k].kind == FirstNamed(calls)[k] && Current(cs[k], calls))
  }

  lemma {:induction false} NamedIffStatus(calls: seq<Call>, kind: string)
    ensures kind in FirstNamed(calls) <==> LastStatus(calls, kind).Some?
    ensures kind !in FirstNamed(calls) ==> LastChange(calls, kind) == 0
    ensures Distinct(FirstNamed(calls))
    decreases |calls|
  {
    if calls != [] { NamedIffStatus(calls[..|calls| - 1], kind); }
  }

  /** The touched condition is current again. */
  lemma CurrentTouched(c: Condition, calls: seq<Call>, call: Call, message: string)
    requires c.kind == call.kind
    requires Current(c, calls) || (LastStatus(calls, c.kind).None? && c.status == ""
      && c.stamp == LastChange(calls, c.kind))
    ensures Current(Touch(c, call.status, call.clock).(message := message), calls + [call])
  {
    assert (calls + [call])[..|calls|] == calls;
  }

  /** The condition a call works on. */
  function Target(cs: seq<Condition>, kind: string): Condition {
    if Find(cs, kind) < |cs| then cs[Find(cs, kind)] else Condition(kind, "", "", 0)
  }

  /** With message-only options a call replaces or appends the touched target. */
  lemma SetTouches(cs: seq<Condition>, call: Call) returns (c: Condition)
    requires MessageOnly(call.opts)
    ensures c == Touch(Target(cs, call.kind), call.status, call.clock).(message := c.message)
    ensures Set(cs, call) == if Find(cs, call.kind) < |cs| then cs[Find(cs, call.kind) := c] else cs + [c]
  {
    c := ApplyOpts(Touch(Target(cs, call.kind), call.status, call.clock), call.opts);
    ApplyMessageOnly(Touch(Target(cs, call.kind), call.status, call.clock), call.opts);
  }

  lemma CurrentKept(c: Condition, calls: seq<Call>, call: Call)
    requires Current(c, calls) && c.kind != call.kind
    ensures Current(c, calls + [call])
  {
    assert (calls + [call])[..|calls|] == calls;
  }

  lemma AgreesWith(cs: seq<Condition>, calls: seq<Call>, call: Call, c: Condition)
    requires Agrees(cs, calls) && Distinct(FirstNamed(calls)) && Current(c, calls + [call]) && c.kind == call.kind
    requires call.kind in FirstNamed(calls) <==> Find(cs, call.kind) < |cs|
    ensures Agrees(if Find(cs, call.kind) < |cs| then cs[Find(cs, call.kind) := c] else cs + [c], calls + [call])
  {
    var longer, named := calls + [call], FirstNamed(calls);
    assert longer[..|calls|] == calls;
    forall m | 0 <= m < |cs| && m != Find(cs, call.kind) ensures Current(cs[m], longer) {
      assert cs[m].kind == named[m];
      CurrentKept(cs[m], calls, call);
    }
  }

  lemma NamedIffFound(cs: seq<Condition>, calls: seq<Call>, kind: string)
    requires Agrees(cs, calls)
    ensures kind in FirstNamed(calls) <==> Find(cs, kind) < |cs|
  {
    FindIsFirst(cs, kind);
    if Find(cs, kind) < |cs| { assert FirstNamed(calls)[Find(cs, kind)] == kind; }
  }

  lemma AgreesStep(cs: seq<Condition>, calls: seq<Call>, call: Call)
    requires Agrees(cs, calls) && MessageOnly(call.opts) && Distinct(FirstNamed(calls))
    ensures Agrees(Set(cs, call), calls + [call])
  {
    var c := SetTouches(cs, call);
    NamedIffStatus(calls, call.kind);
    NamedIffFound(cs, calls, call.kind);
    CurrentTouched(Target(cs, call.kind), calls, call, c.message);
    AgreesWith(cs, calls, call, c);
  }

  /** Any run of calls from an empty list: kinds are pairwise distinct and in
      order of first naming, and each condition carries its last status and, for
      Machine, the time of the last call that changed it. */
  lemma {:induction false} RunOfCalls(calls: seq<Call>)
    requires forall k :: 0 <= k < |calls| ==> MessageOnly(calls[k].opts)
    ensures Agrees(Apply([], calls), calls) && Distinct(FirstNamed(calls))
    decreases |calls|
  {
    if calls != [] {
      var front := calls[..|calls| - 1];
      RunOfCalls(front);
      NamedIffStatus(front, "");
      AgreesStep(Apply([], front), front, calls[|calls| - 1]);
      assert front + [calls[|calls| - 1]] == calls;
      NamedIffStatus(calls, "");
    }
  }

  /** HasCondition after a run of calls looks up the last status. */
  lemma HasIsLastStatus(calls: seq<Call>, kind: string, status: string)
    requires forall k :: 0 <= k < |calls| ==> MessageOnly(calls[k].opts)
    ensures Has(Apply([], calls), kind, status) <==> LastStatus(calls, kind) == Some(status)
  {
    RunOfCalls(calls);
    NamedIffStatus(calls, kind);
    var cs := Apply([], calls);
    FindIsFirst(cs, kind);
    if kind in FirstNamed(calls) {
      var k :| 0 <= k < |cs| && FirstNamed(calls)[k] == kind;
      assert cs[k].kind == kind && Find(cs, kind) <= k;
    }
  }

  /** With a clock that never goes back, no call on the kind since the last
      change asked for another status. */
  lemma {:induction false} UnchangedSinceStamp(calls: seq<Call>, kind: string, k: nat)
    requires k < |calls| && calls[k].kind == kind
    requires forall m :: 0 <= m < |calls| ==> calls[m].clock.Some? && calls[m].clock.value > 0
    requires forall p, q :: 0 <= p < q < |calls| ==> calls[p].clock.value <= calls[q].clock.value
    requires LastChange(calls, kind) < calls[k].clock.value
    ensures LastStatus(calls, kind) == Some(calls[k].status)
    decreases |calls|
  {
    var n := |calls| - 1;
    var front := calls[..n];
    if calls[n].kind != kind {
      UnchangedSinceStamp(front, kind, k);
    } else if k < n {
      UnchangedSinceStamp(front, kind, k);
    }
  }
}
