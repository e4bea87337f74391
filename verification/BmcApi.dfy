/** Job, Task and Machine with the operations that work on them in place:
    SetCondition writes through a pointer into the conditions slice, DeepCopyInto
    fills another object (api/v1alpha1/bmc/job.go, task.go, machine.go and
    zz_generated.deepcopy.go). */
module BmcApi {
  import opened Prelude
  import opened GoHeap
  import opened Conditions
  import opened BmcObjects

  // ----- the conditions slice -----

  ghost function Elements(s: Slice<Condition>): seq<Condition>
    requires SliceOk(s)
    reads SliceObjects(s)
  {
    if s.Nil? then [] else s.arr[..s.len]
  }

  /** The elements still live where they lived, or in a new array. */
  twostate predicate KeptOrNew(s: Slice<Condition>, new t: Slice<Condition>) {
    t.Slice? && ((s.Slice? && t.arr == s.arr) || fresh(t.arr))
  }

  /** append: into spare capacity if there is any, else into a larger array. */
  method Append(s: Slice<Condition>, c: Condition) returns (t: Slice<Condition>)
    requires SliceOk(s)
    modifies SliceObjects(s)
    ensures SliceOk(t) && KeptOrNew(s, t)
    ensures Elements(t) == old(Elements(s)) + [c]
  {
    if s.Slice? && s.len < s.arr.Length {
      s.arr[s.len] := c;
      t := Slice(s.arr, s.len + 1);
    } else {
      var len := if s.Nil? then 0 else s.len;
      var capacity: nat :| capacity > len;
      var arr := new Condition[capacity];
      for i := 0 to len
        invariant s.Slice? ==> s.arr[..] == old(s.arr[..]) && forall k :: 0 <= k < i ==> arr[k] == s.arr[k]
      {
        arr[i] := s.arr[i];
      }
      arr[len] := c;
      t := Slice(arr, len + 1);
    }
  }

  /** The scan for an existing condition. */
  method FindIndex(s: Slice<Condition>, kind: string) returns (k: nat)
    requires SliceOk(s)
    ensures k == Find(Elements(s), kind)
  {
    k := 0;
    if s.Nil? { return; }
    while k < s.len
      invariant k <= s.len && forall m :: 0 <= m < k ==> s.arr[m].kind != kind
    {
      if s.arr[k].kind == kind { break; }
      k := k + 1;
    }
    FindIs(s.arr[..s.len], kind, k);
  }

  /** The writes through the condition pointer: status (and time), then options. */
  method WriteThrough(arr: array<Condition>, k: nat, call: Call)
    requires k < arr.Length
    modifies arr
    ensures arr[..] == old(arr[..])[k := ApplyOpts(Touch(old(arr[k]), call.status, call.clock), call.opts)]
  {
    if call.clock.None? {
      arr[k] := arr[k].(status := call.status);
    } else if arr[k].status != call.status {
      arr[k] := arr[k].(status := call.status, stamp := call.clock.value);
    }
    ghost var target := ApplyOpts(arr[k], call.opts);
    for i := 0 to |call.opts|
      invariant ApplyOpts(arr[k], call.opts[i..]) == target
      invariant forall m :: 0 <= m < arr.Length && m != k ==> arr[m] == old(arr[m])
    {
      assert call.opts[i..][0] == call.opts[i] && call.opts[i..][1..] == call.opts[i + 1..];
      arr[k] := call.opts[i](arr[k]);
    }
  }

  /** SetCondition on the slice it works on. */
  method SetInSlice(s: Slice<Condition>, call: Call) returns (t: Slice<Condition>)
    requires SliceOk(s)
    modifies SliceObjects(s)
    ensures SliceOk(t) && KeptOrNew(s, t)
    ensures Elements(t) == Set(old(Elements(s)), call)
  {
    t := s;
    var k := FindIndex(s, call.kind);
    if s.Nil? || k == s.len {
      t := Append(s, Condition(call.kind, "", "", 0));
      k := t.len - 1;
    }
    ghost var before := t.arr[..];
    WriteThrough(t.arr, k, call);
    assert t.arr[..t.len] == before[..t.len][k := t.arr[k]];
  }

  /** HasCondition on the slice it reads. */
  method HasInSlice(s: Slice<Condition>, kind: string, status: string) returns (r: bool)
    requires SliceOk(s)
    ensures r == Has(Elements(s), kind, status)
  {
    var k := FindIndex(s, kind);
    r := s.Slice? && k < s.len && s.arr[k].status == status;
  }

  // ----- Job -----

  datatype JobValue = JobValue(meta: string, spec: JobSpecValue, status: StatusValue)

  /** `meta` stands for the type and object metadata, which the Kubernetes
      library copies. */
  class Job {
    var meta: string
    var spec: JobSpec
    var status: Status

    constructor (meta: string, spec: JobSpec, status: Status)
      ensures this.meta == meta && this.spec == spec && this.status == status
    {
      this.meta, this.spec, this.status := meta, spec, status;
    }

    ghost predicate Within(R: set<object>)
      reads this, R, SliceObjects(spec.tasks)
    {
      JobSpecView(spec, R).Some? && SliceOk(status.conditions) && StatusObjects(status) <= R
    }

    ghost function Value(R: set<object>): JobValue
      requires Within(R)
      reads this, R
    {
      JobValue(meta, JobSpecView(spec, R).value, StatusOf(status))
    }

    method SetCondition(kind: string, status: string, opts: seq<Opt>)
      requires SliceOk(this.status.conditions)
      modifies this`status, SliceObjects(this.status.conditions)
      ensures SliceOk(this.status.conditions)
      ensures this.status == old(this.status).(conditions := this.status.conditions)
      ensures KeptOrNew(old(this.status.conditions), this.status.conditions)
      ensures Elements(this.status.conditions) == Set(old(Elements(this.status.conditions)),
        Call(kind, status, opts, None))
    {
      var conditions := SetInSlice(this.status.conditions, Call(kind, status, opts, None));
      this.status := this.status.(conditions := conditions);
    }

    method HasCondition(kind: string, status: string) returns (r: bool)
      requires SliceOk(this.status.conditions)
      ensures r == Has(Elements(this.status.conditions), kind, status)
    {
      r := HasInSlice(this.status.conditions, kind, status);
    }

    method DeepCopyInto(out: Job, ghost R: set<object>) returns (ghost S: set<object>)
      requires Within(R)
      modifies out
      ensures fresh(S) && out.Within(S) && out.Value(S) == old(Value(R))
    {
      var spec, status;
      spec, status, S := CopyJobParts(this.spec, this.status, R);
      ghost var view, observed := JobSpecView(spec, S), StatusOf(status);
      out.meta, out.spec, out.status := this.meta, spec, status;
      assert JobSpecView(spec, S) == view && StatusOf(status) == observed;
    }
  }

  method CopyJobParts(s: JobSpec, t: Status, ghost R: set<object>)
    returns (spec: JobSpec, status: Status, ghost S: set<object>)
    requires JobSpecView(s, R).Some? && SliceOk(t.conditions)
    ensures fresh(S) && SliceOk(status.conditions) && StatusObjects(status) <= S
    ensures JobSpecView(spec, S) == old(JobSpecView(s, R)) && StatusOf(status) == old(StatusOf(t))
  {
    ghost var A;
    spec, A := CopyJobSpec(s, R);
    status := CopyStatus(t);
    S := A + StatusObjects(status);
    JobSpecGrow(spec, A, S);
  }

  lemma JobSpecGrow(s: JobSpec, R: set<object>, S: set<object>)
    requires JobSpecView(s, R).Some? && R <= S
    ensures JobSpecView(s, S) == JobSpecView(s, R)
  {
    if s.tasks.Slice? { TasksGrow(s.tasks.arr[..s.tasks.len], R, S); }
  }

  /** DeepCopy: nil for nil, otherwise a new object. */
  method DeepCopyJob(j: Job?, ghost R: set<object>) returns (c: Job?, ghost S: set<object>)
    requires j != null ==> j.Within(R)
    ensures (c == null <==> j == null) && fresh(S)
    ensures c != null ==> fresh(c) && c.Within(S) && c.Value(S) == j.Value(R)
  {
    c, S := null, {};
    if j != null {
      c := new Job("", JobSpec(MachineRef("", ""), Nil), Status(Nil, null, null));
      S := j.DeepCopyInto(c, R);
    }
  }

  // ----- Task -----

  datatype TaskSpec = TaskSpec(task: Action, connection: Connection)
  datatype TaskSpecValue = TaskSpecValue(task: ActionValue, connection: ConnectionValue)
  datatype TaskValue = TaskValue(meta: string, spec: TaskSpecValue, status: StatusValue)

  ghost function TaskSpecView(s: TaskSpec, R: set<object>): Option<TaskSpecValue>
    reads R
  {
    match (ActionView(s.task, R), ConnectionView(s.connection, R))
    case (Some(task), Some(connection)) => Some(TaskSpecValue(task, connection))
    case _ => None
  }

  class Task {
    var meta: string
    var spec: TaskSpec
    var status: Status

    constructor (meta: string, spec: TaskSpec, status: Status)
      ensures this.meta == meta && this.spec == spec && this.status == status
    {
      this.meta, this.spec, this.status := meta, spec, status;
    }

    ghost predicate Within(R: set<object>)
      reads this, R
    {
      TaskSpecView(spec, R).Some? && SliceOk(status.conditions) && StatusObjects(status) <= R
    }

    ghost function Value(R: set<object>): TaskValue
      requires Within(R)
      reads this, R
    {
      TaskValue(meta, TaskSpecView(spec, R).value, StatusOf(status))
    }

    method SetCondition(kind: string, status: string, opts: seq<Opt>)
      requires SliceOk(this.status.conditions)
      modifies this`status, SliceObjects(this.status.conditions)
      ensures SliceOk(this.status.conditions)
      ensures this.status == old(this.status).(conditions := this.status.conditions)
      ensures KeptOrNew(old(this.status.conditions), this.status.conditions)
      ensures Elements(this.status.conditions) == Set(old(Elements(this.status.conditions)),
        Call(kind, status, opts, None))
    {
      var conditions := SetInSlice(this.status.conditions, Call(kind, status, opts, None));
      this.status := this.status.(conditions := conditions);
    }

    method HasCondition(kind: string, status: string) returns (r: bool)
      requires SliceOk(this.status.conditions)
      ensures r == Has(Elements(this.status.conditions), kind, status)
    {
      r := HasInSlice(this.status.conditions, kind, status);
    }

    method DeepCopyInto(out: Task, ghost R: set<object>) returns (ghost S: set<object>)
      requires Within(R)
      modifies out
      ensures fresh(S) && out.Within(S) && out.Value(S) == old(Value(R))
    {
      var spec, status;
      spec, status, S := CopyTaskParts(this.spec, this.status, R);
      FillTask(out, this.meta, spec, status, S);
    }
  }

  /** The writes through `out`. */
  method FillTask(out: Task, meta: string, spec: TaskSpec, status: Status, ghost S: set<object>)
    requires TaskSpecView(spec, S).Some? && SliceOk(status.conditions) && StatusObjects(status) <= S && out !in S
    modifies out
    ensures out.Within(S) && out.Value(S) == TaskValue(meta, old(TaskSpecView(spec, S)).value, old(StatusOf(status)))
  {
    out.meta, out.spec, out.status := meta, spec, status;
  }

  method CopyTaskParts(s: TaskSpec, t: Status, ghost R: set<object>)
    returns (spec: TaskSpec, status: Status, ghost S: set<object>)
    requires TaskSpecView(s, R).Some? && SliceOk(t.conditions)
    ensures fresh(S) && SliceOk(status.conditions) && StatusObjects(status) <= S
    ensures TaskSpecView(spec, S) == old(TaskSpecView(s, R)) && StatusOf(status) == old(StatusOf(t))
  {
    ghost var A;
    status := CopyStatus(t);
    spec, A := CopyTaskSpec(s, R);
    S := A + StatusObjects(status);
    TaskSpecGrow(spec, A, S);
  }

  lemma TaskSpecGrow(s: TaskSpec, R: set<object>, S: set<object>)
    requires TaskSpecView(s, R).Some? && R <= S
    ensures TaskSpecView(s, S) == TaskSpecView(s, R)
  {
    ConnectionGrow(s.connection, R, S);
  }

  method CopyTaskSpec(s: TaskSpec, ghost R: set<object>) returns (t: TaskSpec, ghost S: set<object>)
    requires TaskSpecView(s, R).Some?
    ensures fresh(S) && TaskSpecView(t, S) == old(TaskSpecView(s, R))
  {
    var task, A := CopyAction(s.task, R);
    var connection, B := CopyConnection(s.connection, R);
    t, S := TaskSpec(task, connection), A + B;
    ConnectionGrow(connection, B, S);
  }

  method DeepCopyTask(t: Task?, ghost R: set<object>) returns (c: Task?, ghost S: set<object>)
    requires t != null ==> t.Within(R)
    ensures (c == null <==> t == null) && fresh(S)
    ensures c != null ==> fresh(c) && c.Within(S) && c.Value(S) == t.Value(R)
  {
    c, S := null, {};
    if t != null {
      c := new Task("", TaskSpec(Action(null, null, null, null), Connection("", 0, SecretRef("", ""), false, null)),
        Status(Nil, null, null));
      S := t.DeepCopyInto(c, R);
    }
  }

  // ----- Machine -----

  datatype MachineValue = MachineValue(meta: string, connection: ConnectionValue, power: string,
    conditions: Option<seq<Condition>>)

  class Machine {
    var meta: string
    var connection: Connection
    var power: string
    var conditions: Slice<Condition>

    constructor (meta: string, connection: Connection, power: string, conditions: Slice<Condition>)
      ensures this.meta == meta && this.connection == connection && this.power == power && this.conditions == conditions
    {
      this.meta, this.connection, this.power, this.conditions := meta, connection, power, conditions;
    }

    ghost predicate Within(R: set<object>)
      reads this, R
    {
      ConnectionView(connection, R).Some? && SliceOk(conditions) && SliceObjects(conditions) <= R
    }

    ghost function Value(R: set<object>): MachineValue
      requires Within(R)
      reads this, R
    {
      MachineValue(meta, ConnectionView(connection, R).value, power, SliceValue(conditions))
    }

    /** `now` is the reading of the clock, used only if the status changes. */
    method SetCondition(kind: string, status: string, opts: seq<Opt>, now: int)
      requires SliceOk(conditions)
      modifies this`conditions, SliceObjects(conditions)
      ensures SliceOk(conditions)
      ensures KeptOrNew(old(conditions), conditions)
      ensures Elements(conditions) == Set(old(Elements(conditions)), Call(kind, status, opts, Some(now)))
    {
      conditions := SetInSlice(conditions, Call(kind, status, opts, Some(now)));
    }

    method DeepCopyInto(out: Machine, ghost R: set<object>) returns (ghost S: set<object>)
      requires Within(R)
      modifies out
      ensures fresh(S) && out.Within(S) && out.Value(S) == old(Value(R))
    {
      var connection, conditions;
      connection, conditions, S := CopyMachineParts(this.connection, this.conditions, R);
      FillMachine(out, this.meta, connection, this.power, conditions, S);
    }
  }

  /** The writes through `out`. */
  method FillMachine(out: Machine, meta: string, connection: Connection, power: string, conditions: Slice<Condition>,
    ghost S: set<object>)
    requires ConnectionView(connection, S).Some? && SliceOk(conditions) && SliceObjects(conditions) <= S && out !in S
    modifies out
    ensures out.Within(S)
    ensures out.Value(S) == MachineValue(meta, old(ConnectionView(connection, S)).value, power,
      old(SliceValue(conditions)))
  {
    out.meta, out.connection, out.power, out.conditions := meta, connection, power, conditions;
  }

  method CopyMachineParts(c: Connection, s: Slice<Condition>, ghost R: set<object>)
    returns (connection: Connection, conditions: Slice<Condition>, ghost S: set<object>)
    requires ConnectionView(c, R).Some? && SliceOk(s)
    ensures fresh(S) && SliceOk(conditions) && SliceObjects(conditions) <= S
    ensures ConnectionView(connection, S) == old(ConnectionView(c, R)) && SliceValue(conditions) == old(SliceValue(s))
  {
    ghost var A;
    connection, A := CopyConnection(c, R);
    conditions := CopySlice(s);
    S := A + SliceObjects(conditions);
    ConnectionGrow(connection, A, S);
  }

  method DeepCopyMachine(m: Machine?, ghost R: set<object>) returns (c: Machine?, ghost S: set<object>)
    requires m != null ==> m.Within(R)
    ensures (c == null <==> m == null) && fresh(S)
    ensures c != null ==> fresh(c) && c.Within(S) && c.Value(S) == m.Value(R)
  {
    c, S := null, {};
    if m != null {
      c := new Machine("", Connection("", 0, SecretRef("", ""), false, null), "", Nil);
      S := m.DeepCopyInto(c, R);
    }
  }

  // ----- a copy and its source do not share conditions -----

  /** The calls of an interleaving that go to the source (or to the copy). */
  function Side(calls: seq<(bool, Call)>, source: bool): seq<Call>
    decreases |calls|
  {
    if calls == [] then []
    else
      var n := |calls| - 1;
      Side(calls[..n], source) + if calls[n].0 == source then [calls[n].1] else []
  }

  lemma SideStep(cs: seq<Condition>, calls: seq<(bool, Call)>, k: nat, source: bool)
    requires k < |calls|
    ensures Apply(cs, Side(calls[..k + 1], source))
         == if calls[k].0 == source then Set(Apply(cs, Side(calls[..k], source)), calls[k].1)
           else Apply(cs, Side(calls[..k], source))
  {
    var shorter, before := calls[..k + 1], Side(calls[..k], source);
    assert shorter[..k] == calls[..k] && shorter[k] == calls[k];
    if calls[k].0 == source {
      assert Side(shorter, source) == before + [calls[k].1];
      ApplyAppend(cs, before, calls[k].1);
    } else {
      assert Side(shorter, source) == before;
    }
  }

  ghost predicate Apart(j: Job, c: Job)
    reads j, c
  {
    j != c && SliceOk(j.status.conditions) && SliceOk(c.status.conditions)
    && SliceObjects(j.status.conditions) !! SliceObjects(c.status.conditions)
  }

  /** One call on one of two jobs that share no conditions leaves the other be. */
  method CallOne(j: Job, c: Job, kind: string, status: string, opts: seq<Opt>)
    requires Apart(j, c)
    modifies j`status, SliceObjects(j.status.conditions)
    ensures Apart(j, c)
    ensures KeptOrNew(old(j.status.conditions), j.status.conditions)
    ensures Elements(j.status.conditions) == Set(old(Elements(j.status.conditions)), Call(kind, status, opts, None))
    ensures Elements(c.status.conditions) == old(Elements(c.status.conditions))
  {
    j.SetCondition(kind, status, opts);
  }

  twostate predicate OwnOrFresh(j: Job)
    reads j
  {
    j.status.conditions.Nil? || KeptOrNew(old(j.status.conditions), j.status.conditions)
  }

  method CallEither(j: Job, c: Job, first: bool, call: Call)
    requires Apart(j, c) && call.clock.None?
    modifies j`status, c`status, SliceObjects(j.status.conditions), SliceObjects(c.status.conditions)
    ensures Apart(j, c) && OwnOrFresh(j) && OwnOrFresh(c)
    ensures Elements(j.status.conditions) == if first then Set(old(Elements(j.status.conditions)), call)
      else old(Elements(j.status.conditions))
    ensures Elements(c.status.conditions) == if first then old(Elements(c.status.conditions))
      else Set(old(Elements(c.status.conditions)), call)
  {
    if first {
      CallOne(j, c, call.kind, call.status, call.opts);
    } else {
      CallOne(c, j, call.kind, call.status, call.opts);
    }
  }

  /** Any interleaving of calls on two jobs that share no conditions acts on each
      of them as its own calls alone would. */
  method Interleave(j: Job, c: Job, calls: seq<(bool, Call)>)
    requires Apart(j, c) && forall k :: 0 <= k < |calls| ==> calls[k].1.clock.None?
    modifies j`status, c`status, SliceObjects(j.status.conditions), SliceObjects(c.status.conditions)
    ensures Apart(j, c) && OwnOrFresh(j) && OwnOrFresh(c)
    ensures Elements(j.status.conditions) == Apply(old(Elements(j.status.conditions)), Side(calls, true))
    ensures Elements(c.status.conditions) == Apply(old(Elements(c.status.conditions)), Side(calls, false))
    decreases |calls|
  {
    if calls != [] {
      var n := |calls| - 1;
      ghost var js, cs := Elements(j.status.conditions), Elements(c.status.conditions);
      SideStep(js, calls, n, true);
      SideStep(cs, calls, n, false);
      assert calls[..n + 1] == calls;
      Interleave(j, c, calls[..n]);
      CallEither(j, c, calls[n].0, calls[n].1);
    }
  }

  /** A job and its deep copy start with equal conditions and then go their own
      ways under every interleaving of SetCondition calls. */
  method CopyIsIndependent(j: Job, ghost R: set<object>, calls: seq<(bool, Call)>) returns (c: Job)
    requires j.Within(R) && forall k :: 0 <= k < |calls| ==> calls[k].1.clock.None?
    modifies j`status, SliceObjects(j.status.conditions)
    ensures fresh(c) && Apart(j, c)
    ensures Elements(j.status.conditions) == Apply(old(Elements(j.status.conditions)), Side(calls, true))
    ensures Elements(c.status.conditions) == Apply(old(Elements(j.status.conditions)), Side(calls, false))
  {
    c := CopyApart(j, R);
    Interleave(j, c, calls);
  }

  method CopyApart(j: Job, ghost R: set<object>) returns (c: Job)
    requires j.Within(R)
    ensures fresh(c) && Apart(j, c) && (c.status.conditions.Slice? ==> fresh(c.status.conditions.arr))
    ensures Elements(c.status.conditions) == Elements(j.status.conditions)
  {
    var copy, S := DeepCopyJob(j, R);
    c := copy;
    assert c.Value(S).status.conditions == j.Value(R).status.conditions;
  }
}
