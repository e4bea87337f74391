/** The BMC API objects and their generated deep copies
    (api/v1alpha1/bmc/zz_generated.deepcopy.go).  Structs are values that may
    hold references; every copy has the value of its source, nil kept apart from
    empty, and is built from fresh cells only. */
module BmcObjects {
  import opened Prelude
  import opened GoHeap
  import opened Conditions

  // ----- plain structs: copied by assignment -----

  datatype BootDevice = BootDevice(device: string, persistent: bool, efiBoot: bool)
  datatype VirtualMedia = VirtualMedia(mediaUrl: string, kind: string)
  datatype MachineRef = MachineRef(name: string, namespace: string)
  datatype SecretRef = SecretRef(name: string, namespace: string)
  datatype IntelAmt = IntelAmt(port: int, hostScheme: string)
  datatype Ipmitool = Ipmitool(port: int, cipherSuite: string)
  datatype Redfish = Redfish(port: int, useBasicAuth: bool, systemName: string)
  datatype HomeAssistant = HomeAssistant(switchEntityId: string, delay: nat)
  datatype Experimental = Experimental(payload: string, dotPath: string)

  // ----- Action: lines 31-53 and 476-483 -----

  datatype OneTimeBoot = OneTimeBoot(devices: Slice<string>, efiBoot: bool)
  datatype Action = Action(power: Cell?<string>, oneTime: Cell?<OneTimeBoot>, boot: Cell?<BootDevice>,
    media: Cell?<VirtualMedia>)

  datatype OneTimeBootValue = OneTimeBootValue(devices: Option<seq<string>>, efiBoot: bool)
  datatype ActionValue = ActionValue(
    power: Option<string>, oneTime: Option<OneTimeBootValue>, boot: Option<BootDevice>, media: Option<VirtualMedia>)

  ghost predicate OneTimeIn(p: Cell?<OneTimeBoot>, R: set<object>)
    reads p
  {
    p != null ==> p in R && SliceOk(p.v.devices) && SliceObjects(p.v.devices) <= R
  }

  ghost function OneTimeOf(p: Cell?<OneTimeBoot>, R: set<object>): Option<OneTimeBootValue>
    requires OneTimeIn(p, R)
    reads p, R
  {
    if p == null then None else Some(OneTimeBootValue(SliceValue(p.v.devices), p.v.efiBoot))
  }

  method CopyOneTime(p: Cell?<OneTimeBoot>, ghost R: set<object>) returns (q: Cell?<OneTimeBoot>, ghost S: set<object>)
    requires OneTimeIn(p, R)
    ensures fresh(S) && OneTimeIn(q, S) && OneTimeOf(q, S) == old(OneTimeOf(p, R))
  {
    q, S := null, {};
    if p != null {
      var devices := CopySlice(p.v.devices);
      q := new Cell(p.v.(devices := devices));
      S := {q} + SliceObjects(devices);
    }
  }

  ghost predicate ActionIn(a: Action, R: set<object>)
    reads R
  {
    && PtrObjects(a.power) <= R && PtrObjects(a.boot) <= R && PtrObjects(a.media) <= R
    && PtrObjects(a.oneTime) <= R && OneTimeIn(a.oneTime, R)
  }

  ghost function ActionOf(a: Action, R: set<object>): ActionValue
    requires ActionIn(a, R)
    reads R
  {
    ActionValue(PtrValue(a.power), OneTimeOf(a.oneTime, R), PtrValue(a.boot), PtrValue(a.media))
  }

  method CopyAction(a: Action, ghost R: set<object>) returns (b: Action, ghost S: set<object>)
    requires ActionIn(a, R)
    ensures fresh(S) && ActionIn(b, S) && ActionOf(b, S) == old(ActionOf(a, R))
  {
    var power := CopyPtr(a.power);
    var oneTime, A := CopyOneTime(a.oneTime, R);
    var boot := CopyPtr(a.boot);
    var media := CopyPtr(a.media);
    b := Action(power, oneTime, boot, media);
    S := A + PtrObjects(power) + PtrObjects(boot) + PtrObjects(media);
  }

  /** The meaning of an action, if R holds all of it. */
  ghost function ActionView(a: Action, R: set<object>): Option<ActionValue>
    reads R
  {
    if ActionIn(a, R) then Some(ActionOf(a, R)) else None
  }

  // ----- JobSpec: lines 297-307 -----

  datatype JobSpec = JobSpec(machineRef: MachineRef, tasks: Slice<Action>)
  datatype JobSpecValue = JobSpecValue(machineRef: MachineRef, tasks: Option<seq<ActionValue>>)

  ghost predicate TasksIn(tasks: seq<Action>, R: set<object>)
    reads R
  {
    forall k :: 0 <= k < |tasks| ==> ActionIn(tasks[k], R)
  }

  ghost function TasksOf(tasks: seq<Action>, R: set<object>): (r: seq<ActionValue>)
    requires TasksIn(tasks, R)
    reads R
    ensures |r| == |tasks|
  {
    if tasks == [] then [] else TasksOf(tasks[..|tasks| - 1], R) + [ActionOf(tasks[|tasks| - 1], R)]
  }

  ghost predicate JobSpecIn(s: JobSpec, R: set<object>)
    reads R, SliceObjects(s.tasks)
  {
    SliceOk(s.tasks) && SliceObjects(s.tasks) <= R && (s.tasks.Slice? ==> TasksIn(s.tasks.arr[..s.tasks.len], R))
  }

  ghost function JobSpecOf(s: JobSpec, R: set<object>): JobSpecValue
    requires JobSpecIn(s, R)
    reads R, SliceObjects(s.tasks)
  {
    JobSpecValue(s.machineRef, if s.tasks.Nil? then None else Some(TasksOf(s.tasks.arr[..s.tasks.len], R)))
  }

  /** The meaning of a job specification, if R holds all of it. */
  ghost function JobSpecView(s: JobSpec, R: set<object>): Option<JobSpecValue>
    reads R, SliceObjects(s.tasks)
  {
    if JobSpecIn(s, R) then Some(JobSpecOf(s, R)) else None
  }

  lemma {:induction false} TasksGrow(tasks: seq<Action>, R: set<object>, S: set<object>)
    requires TasksIn(tasks, R) && R <= S
    ensures TasksIn(tasks, S) && TasksOf(tasks, S) == TasksOf(tasks, R)
  {
    if tasks != [] {
      var n := |tasks| - 1;
      assert ActionIn(tasks[n], R);
      TasksGrow(tasks[..n], R, S);
    }
  }

  lemma TasksAppend(tasks: seq<Action>, a: Action, R: set<object>)
    requires TasksIn(tasks, R) && ActionIn(a, R)
    ensures TasksIn(tasks + [a], R) && TasksOf(tasks + [a], R) == TasksOf(tasks, R) + [ActionOf(a, R)]
  {
    assert (tasks + [a])[..|tasks|] == tasks;
  }

  /** One more copied task. */
  lemma TasksStep(done: seq<Action>, b: Action, S: set<object>, A: set<object>, from: seq<Action>, a: Action,
    R: set<object>)
    requires TasksIn(done, S) && ActionIn(b, A) && TasksIn(from, R) && ActionIn(a, R)
    requires TasksOf(done, S) == TasksOf(from, R) && ActionOf(b, A) == ActionOf(a, R)
    ensures TasksIn(done + [b], S + A) && TasksIn(from + [a], R)
    ensures TasksOf(done + [b], S + A) == TasksOf(from + [a], R)
  {
    TasksGrow(done, S, S + A);
    TasksAppend(done, b, S + A);
    TasksAppend(from, a, R);
  }

  /** The deep copies of the tasks, one by one and in order. */
  method CopyTasks(source: seq<Action>, ghost R: set<object>) returns (copies: seq<Action>, ghost S: set<object>)
    requires TasksIn(source, R)
    ensures fresh(S) && |copies| == |source| && TasksIn(copies, S) && TasksOf(copies, S) == old(TasksOf(source, R))
  {
    copies, S := [], {};
    for i := 0 to |source|
      invariant fresh(S) && |copies| == i && TasksIn(copies, S)
      invariant TasksIn(source[..i], R) && TasksOf(copies, S) == TasksOf(source[..i], R)
    {
      var b, A := CopyAction(source[i], R);
      assert source[..i + 1] == source[..i] + [source[i]];
      TasksStep(copies, b, S, A, source[..i], source[i], R);
      copies, S := copies + [b], S + A;
    }
    assert source[..|source|] == source;
  }

  method CopyJobSpec(s: JobSpec, ghost R: set<object>) returns (t: JobSpec, ghost S: set<object>)
    requires JobSpecView(s, R).Some?
    ensures fresh(S) && JobSpecView(t, S) == old(JobSpecView(s, R))
  {
    t, S := s.(tasks := Nil), {};
    if s.tasks.Slice? {
      var copies, A := CopyTasks(s.tasks.arr[..s.tasks.len], R);
      var out := MakeSlice(copies);
      t, S := s.(tasks := out), A + SliceObjects(out);
      TasksGrow(copies, A, S);
    }
  }

  // ----- JobStatus and TaskStatus: lines 320-335 and 733-748 -----

  datatype Status = Status(conditions: Slice<Condition>, startTime: Cell?<int>, completionTime: Cell?<int>)
  datatype StatusValue = StatusValue(conditions: Option<seq<Condition>>, startTime: Option<int>,
    completionTime: Option<int>)

  ghost function StatusObjects(s: Status): set<object> {
    SliceObjects(s.conditions) + PtrObjects(s.startTime) + PtrObjects(s.completionTime)
  }

  ghost function StatusOf(s: Status): StatusValue
    requires SliceOk(s.conditions)
    reads StatusObjects(s)
  {
    StatusValue(SliceValue(s.conditions), PtrValue(s.startTime), PtrValue(s.completionTime))
  }

  method CopyStatus(s: Status) returns (t: Status)
    requires SliceOk(s.conditions)
    ensures fresh(StatusObjects(t)) && SliceOk(t.conditions) && StatusOf(t) == old(StatusOf(s))
  {
    var conditions := CopySlice(s.conditions);
    var startTime := CopyPtr(s.startTime);
    var completionTime := CopyPtr(s.completionTime);
    t := Status(conditions, startTime, completionTime);
  }

  // ----- the RPC provider: lines 117-135, 541-563, 591-609 and 622-629 -----

  datatype RequestOpts = RequestOpts(
    contentType: string, verb: string, headers: MapOf<string>, timestampFormat: string, timestampHeader: string)
  datatype RequestValue = RequestValue(
    contentType: string, verb: string, headers: Option<map<string, Option<seq<string>>>>, timestampFormat: string,
    timestampHeader: string)
  datatype SignatureOpts = SignatureOpts(headerName: string, appendAlgoDisabled: bool, included: Slice<string>)
  datatype SignatureValue = SignatureValue(headerName: string, appendAlgoDisabled: bool, included: Option<seq<string>>)
  datatype HmacOpts = HmacOpts(prefixSigDisabled: bool, secrets: MapOf<SecretRef>)
  datatype HmacValue = HmacValue(prefixSigDisabled: bool, secrets: Option<map<string, Option<seq<SecretRef>>>>)

  ghost predicate RequestIn(p: Cell?<RequestOpts>, R: set<object>)
    reads R, p
  {
    p != null ==> p in R && PtrObjects(p.v.headers) <= R && MapIn(p.v.headers, R)
  }

  ghost function RequestOf(p: Cell?<RequestOpts>, R: set<object>): Option<RequestValue>
    requires RequestIn(p, R)
    reads R, p
  {
    if p == null then None
    else Some(RequestValue(p.v.contentType, p.v.verb, MapValue(p.v.headers, R), p.v.timestampFormat,
      p.v.timestampHeader))
  }

  method CopyRequest(p: Cell?<RequestOpts>, ghost R: set<object>) returns (q: Cell?<RequestOpts>, ghost S: set<object>)
    requires RequestIn(p, R)
    ensures fresh(S) && RequestIn(q, S) && RequestOf(q, S) == old(RequestOf(p, R))
  {
    q, S := null, {};
    if p != null {
      var headers, A := CopyMap(p.v.headers, R);
      q := new Cell(p.v.(headers := headers));
      S := A + {q};
      MapGrow(headers, A, S);
    }
  }

  lemma MapGrow<V>(m: MapOf<V>, R: set<object>, S: set<object>)
    requires MapIn(m, R) && R <= S
    ensures MapIn(m, S) && MapValue(m, S) == MapValue(m, R)
  {
    if m != null { assert EntriesValue(m.v, S) == EntriesValue(m.v, R); }
  }

  ghost predicate SignatureIn(p: Cell?<SignatureOpts>, R: set<object>)
    reads p
  {
    p != null ==> p in R && SliceOk(p.v.included) && SliceObjects(p.v.included) <= R
  }

  ghost function SignatureOf(p: Cell?<SignatureOpts>, R: set<object>): Option<SignatureValue>
    requires SignatureIn(p, R)
    reads p, R
  {
    if p == null then None else Some(SignatureValue(p.v.headerName, p.v.appendAlgoDisabled, SliceValue(p.v.included)))
  }

  method CopySignature(p: Cell?<SignatureOpts>, ghost R: set<object>)
    returns (q: Cell?<SignatureOpts>, ghost S: set<object>)
    requires SignatureIn(p, R)
    ensures fresh(S) && SignatureIn(q, S) && SignatureOf(q, S) == old(SignatureOf(p, R))
  {
    q, S := null, {};
    if p != null {
      var included := CopySlice(p.v.included);
      q := new Cell(p.v.(included := included));
      S := {q} + SliceObjects(included);
    }
  }

  ghost predicate HmacIn(p: Cell?<HmacOpts>, R: set<object>)
    reads R, p
  {
    p != null ==> p in R && PtrObjects(p.v.secrets) <= R && MapIn(p.v.secrets, R)
  }

  ghost function HmacOf(p: Cell?<HmacOpts>, R: set<object>): Option<HmacValue>
    requires HmacIn(p, R)
    reads R, p
  {
    if p == null then None else Some(HmacValue(p.v.prefixSigDisabled, MapValue(p.v.secrets, R)))
  }

  method CopyHmac(p: Cell?<HmacOpts>, ghost R: set<object>) returns (q: Cell?<HmacOpts>, ghost S: set<object>)
    requires HmacIn(p, R)
    ensures fresh(S) && HmacIn(q, S) && HmacOf(q, S) == old(HmacOf(p, R))
  {
    q, S := null, {};
    if p != null {
      var secrets, A := CopyMap(p.v.secrets, R);
      q := new Cell(p.v.(secrets := secrets));
      S := A + {q};
      MapGrow(secrets, A, S);
    }
  }

  datatype RpcOptions = RpcOptions(
    consumerUrl: string, logDisabled: bool, request: Cell?<RequestOpts>, signature: Cell?<SignatureOpts>,
    hmac: Cell?<HmacOpts>, experimental: Cell?<Experimental>)
  datatype RpcValue = RpcValue(
    consumerUrl: string, logDisabled: bool, request: Option<RequestValue>, signature: Option<SignatureValue>,
    hmac: Option<HmacValue>, experimental: Option<Experimental>)

  ghost predicate RpcFieldsIn(v: RpcOptions, R: set<object>)
    reads R
  {
    && PtrObjects(v.request) <= R && RequestIn(v.request, R)
    && PtrObjects(v.signature) <= R && SignatureIn(v.signature, R)
    && PtrObjects(v.hmac) <= R && HmacIn(v.hmac, R)
    && PtrObjects(v.experimental) <= R
  }

  ghost function RpcFieldsOf(v: RpcOptions, R: set<object>): RpcValue
    requires RpcFieldsIn(v, R)
    reads R
  {
    RpcValue(v.consumerUrl, v.logDisabled, RequestOf(v.request, R), SignatureOf(v.signature, R), HmacOf(v.hmac, R),
      PtrValue(v.experimental))
  }

  ghost predicate RpcIn(p: Cell?<RpcOptions>, R: set<object>)
    reads R, p
  {
    p != null ==> p in R && RpcFieldsIn(p.v, R)
  }

  ghost function RpcOf(p: Cell?<RpcOptions>, R: set<object>): Option<RpcValue>
    requires RpcIn(p, R)
    reads R, p
  {
    if p == null then None else Some(RpcFieldsOf(p.v, R))
  }

  method CopyRpcHead(v: RpcOptions, ghost R: set<object>)
    returns (request: Cell?<RequestOpts>, signature: Cell?<SignatureOpts>, ghost S: set<object>)
    requires RpcFieldsIn(v, R)
    ensures fresh(S) && RequestIn(request, S) && SignatureIn(signature, S)
    ensures RequestOf(request, S) == old(RequestOf(v.request, R))
      && SignatureOf(signature, S) == old(SignatureOf(v.signature, R))
  {
    ghost var A, B;
    request, A := CopyRequest(v.request, R);
    signature, B := CopySignature(v.signature, R);
    S := A + B;
    RequestGrow(request, A, S);
  }

  method CopyRpcTail(v: RpcOptions, ghost R: set<object>)
    returns (hmac: Cell?<HmacOpts>, experimental: Cell?<Experimental>, ghost S: set<object>)
    requires RpcFieldsIn(v, R)
    ensures fresh(S) && HmacIn(hmac, S) && PtrObjects(experimental) <= S
    ensures HmacOf(hmac, S) == old(HmacOf(v.hmac, R)) && PtrValue(experimental) == old(PtrValue(v.experimental))
  {
    ghost var A;
    hmac, A := CopyHmac(v.hmac, R);
    experimental := CopyPtr(v.experimental);
    S := A + PtrObjects(experimental);
    HmacGrow(hmac, A, S);
  }

  method CopyRpcFields(v: RpcOptions, ghost R: set<object>) returns (u: RpcOptions, ghost S: set<object>)
    requires RpcFieldsIn(v, R)
    ensures fresh(S) && RpcFieldsIn(u, S) && RpcFieldsOf(u, S) == old(RpcFieldsOf(v, R))
  {
    var request, signature, A := CopyRpcHead(v, R);
    var hmac, experimental, B := CopyRpcTail(v, R);
    u := v.(request := request, signature := signature, hmac := hmac, experimental := experimental);
    S := A + B;
    RpcJoin(u, A, B);
  }

  /** The parts of a copy, each inside its own set, inside their union. */
  lemma RpcJoin(u: RpcOptions, A: set<object>, B: set<object>)
    requires RequestIn(u.request, A) && SignatureIn(u.signature, A) && HmacIn(u.hmac, B)
      && PtrObjects(u.experimental) <= B
    ensures RpcFieldsIn(u, A + B)
    ensures RpcFieldsOf(u, A + B)
         == RpcValue(u.consumerUrl, u.logDisabled, RequestOf(u.request, A), SignatureOf(u.signature, A),
           HmacOf(u.hmac, B), PtrValue(u.experimental))
  {
    RequestGrow(u.request, A, A + B);
    HmacGrow(u.hmac, B, A + B);
  }

  lemma RpcGrow(v: RpcOptions, R: set<object>, S: set<object>)
    requires RpcFieldsIn(v, R) && R <= S
    ensures RpcFieldsIn(v, S) && RpcFieldsOf(v, S) == RpcFieldsOf(v, R)
  {
    RequestGrow(v.request, R, S);
    HmacGrow(v.hmac, R, S);
  }

  method CopyRpc(p: Cell?<RpcOptions>, ghost R: set<object>) returns (q: Cell?<RpcOptions>, ghost S: set<object>)
    requires RpcIn(p, R)
    ensures fresh(S) && RpcIn(q, S) && RpcOf(q, S) == old(RpcOf(p, R))
  {
    q, S := null, {};
    if p != null {
      var v, A := CopyRpcFields(p.v, R);
      q := new Cell(v);
      S := A + {q};
      RpcGrow(v, A, S);
    }
  }

  lemma RequestGrow(p: Cell?<RequestOpts>, R: set<object>, S: set<object>)
    requires RequestIn(p, R) && R <= S
    ensures RequestIn(p, S) && RequestOf(p, S) == RequestOf(p, R)
  {
    if p != null { MapGrow(p.v.headers, R, S); }
  }

  lemma HmacGrow(p: Cell?<HmacOpts>, R: set<object>, S: set<object>)
    requires HmacIn(p, R) && R <= S
    ensures HmacIn(p, S) && HmacOf(p, S) == HmacOf(p, R)
  {
    if p != null { MapGrow(p.v.secrets, R, S); }
  }

  // ----- ProviderOptions and Connection: lines 81-89 and 496-528 -----

  datatype ProviderOptions = ProviderOptions(
    preferredOrder: Slice<string>, intelAmt: Cell?<IntelAmt>, ipmitool: Cell?<Ipmitool>, redfish: Cell?<Redfish>,
    rpc: Cell?<RpcOptions>, homeAssistant: Cell?<HomeAssistant>)
  datatype ProviderValue = ProviderValue(
    preferredOrder: Option<seq<string>>, intelAmt: Option<IntelAmt>, ipmitool: Option<Ipmitool>,
    redfish: Option<Redfish>,
    rpc: Option<RpcValue>, homeAssistant: Option<HomeAssistant>)

  /** The objects that the fields without inner references point to. */
  ghost function PlainObjects(v: ProviderOptions): set<object> {
    SliceObjects(v.preferredOrder) + PtrObjects(v.intelAmt) + PtrObjects(v.ipmitool) + PtrObjects(v.redfish)
      + PtrObjects(v.homeAssistant)
  }

  ghost predicate ProviderFieldsIn(v: ProviderOptions, R: set<object>)
    reads R
  {
    SliceOk(v.preferredOrder) && PlainObjects(v) <= R && PtrObjects(v.rpc) <= R && RpcIn(v.rpc, R)
  }

  ghost function ProviderFieldsOf(v: ProviderOptions, R: set<object>): ProviderValue
    requires ProviderFieldsIn(v, R)
    reads R
  {
    ProviderValue(SliceValue(v.preferredOrder), PtrValue(v.intelAmt), PtrValue(v.ipmitool), PtrValue(v.redfish),
                  RpcOf(v.rpc, R), PtrValue(v.homeAssistant))
  }

  /** Every field but RPC, which keeps pointing to the source's. */
  method CopyPlain(v: ProviderOptions) returns (u: ProviderOptions)
    requires SliceOk(v.preferredOrder)
    ensures fresh(PlainObjects(u)) && SliceOk(u.preferredOrder) && u.rpc == v.rpc
    ensures SliceValue(u.preferredOrder) == old(SliceValue(v.preferredOrder))
      && PtrValue(u.intelAmt) == old(PtrValue(v.intelAmt))
    ensures PtrValue(u.ipmitool) == old(PtrValue(v.ipmitool)) && PtrValue(u.redfish) == old(PtrValue(v.redfish))
    ensures PtrValue(u.homeAssistant) == old(PtrValue(v.homeAssistant))
  {
    var preferredOrder := CopySlice(v.preferredOrder);
    var intelAmt := CopyPtr(v.intelAmt);
    var ipmitool := CopyPtr(v.ipmitool);
    var redfish := CopyPtr(v.redfish);
    var homeAssistant := CopyPtr(v.homeAssistant);
    u := ProviderOptions(preferredOrder, intelAmt, ipmitool, redfish, v.rpc, homeAssistant);
  }

  /** The meaning of the options, if R holds all of them. */
  ghost function ProviderView(v: ProviderOptions, R: set<object>): Option<ProviderValue>
    reads R
  {
    if ProviderFieldsIn(v, R) then Some(ProviderFieldsOf(v, R)) else None
  }

  lemma ProviderGrow(v: ProviderOptions, R: set<object>, S: set<object>)
    requires ProviderView(v, R).Some? && R <= S
    ensures ProviderView(v, S) == ProviderView(v, R)
  {
    RpcPtrGrow(v.rpc, R, S);
  }

  method CopyProvider(v: ProviderOptions, ghost R: set<object>) returns (u: ProviderOptions, ghost S: set<object>)
    requires ProviderView(v, R).Some?
    ensures fresh(S) && ProviderView(u, S) == old(ProviderView(v, R))
  {
    u, S := CopyProviderFields(v, R);
  }

  method CopyProviderFields(v: ProviderOptions, ghost R: set<object>) returns (u: ProviderOptions, ghost S: set<object>)
    requires ProviderFieldsIn(v, R)
    ensures fresh(S) && ProviderFieldsIn(u, S) && ProviderFieldsOf(u, S) == old(ProviderFieldsOf(v, R))
  {
    var rpc, A := CopyRpc(v.rpc, R);
    u := CopyPlain(v);
    u := u.(rpc := rpc);
    S := A + PlainObjects(u);
    RpcPtrGrow(rpc, A, S);
  }

  lemma RpcPtrGrow(p: Cell?<RpcOptions>, R: set<object>, S: set<object>)
    requires RpcIn(p, R) && R <= S
    ensures RpcIn(p, S) && RpcOf(p, S) == RpcOf(p, R)
  {
    if p != null { RpcGrow(p.v, R, S); }
  }

  datatype Connection = Connection(
    host: string, port: int, authSecretRef: SecretRef, insecureTls: bool, providerOptions: Cell?<ProviderOptions>)
  datatype ConnectionValue = ConnectionValue(
    host: string, port: int, authSecretRef: SecretRef, insecureTls: bool, providerOptions: Option<ProviderValue>)

  /** The meaning of a connection, if R holds all of it. */
  ghost function ConnectionView(c: Connection, R: set<object>): Option<ConnectionValue>
    reads R
  {
    if c.providerOptions == null then Some(ConnectionValue(c.host, c.port, c.authSecretRef, c.insecureTls, None))
    else if c.providerOptions !in R || ProviderView(c.providerOptions.v, R).None? then None
    else Some(ConnectionValue(c.host, c.port, c.authSecretRef, c.insecureTls, ProviderView(c.providerOptions.v, R)))
  }

  lemma ConnectionGrow(c: Connection, R: set<object>, S: set<object>)
    requires ConnectionView(c, R).Some? && R <= S
    ensures ConnectionView(c, S) == ConnectionView(c, R)
  {
    if c.providerOptions != null { ProviderGrow(c.providerOptions.v, R, S); }
  }

  method CopyConnection(c: Connection, ghost R: set<object>) returns (d: Connection, ghost S: set<object>)
    requires ConnectionView(c, R).Some?
    ensures fresh(S) && ConnectionView(d, S) == old(ConnectionView(c, R))
  {
    d, S := c.(providerOptions := null), {};
    if c.providerOptions != null {
      var v, A := CopyProvider(c.providerOptions.v, R);
      var p := new Cell(v);
      d, S := c.(providerOptions := p), A + {p};
      ProviderGrow(v, A, S);
    }
  }
}
