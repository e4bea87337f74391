/** What equality of meanings says: two objects with the same value agree in every
    field, in what is nil and what is not, and in every element of every slice
    and map they reach.  Together with the deep copies of BmcObjects and BmcApi
    this spells out what a copy has in common with its source. */
module BmcMeaning {
  import opened Prelude
  import opened GoHeap
  import opened Conditions
  import opened BmcObjects
  import opened BmcApi

  ghost predicate SamePtr<T>(p: Cell?<T>, q: Cell?<T>)
    reads p, q
  {
    (p == null <==> q == null) && (p != null ==> p.v == q.v)
  }

  ghost predicate SameSlice<T>(s: Slice<T>, t: Slice<T>)
    requires SliceOk(s) && SliceOk(t)
    reads SliceObjects(s), SliceObjects(t)
  {
    && (s.Nil? <==> t.Nil?)
    && (s.Slice? ==> s.len == t.len && forall k :: 0 <= k < s.len ==> s.arr[k] == t.arr[k])
  }

  lemma PtrsAgree<T>(p: Cell?<T>, q: Cell?<T>)
    requires PtrValue(p) == PtrValue(q)
    ensures SamePtr(p, q)
  {
  }

  lemma SlicesAgree<T>(s: Slice<T>, t: Slice<T>)
    requires SliceOk(s) && SliceOk(t) && SliceValue(s) == SliceValue(t)
    ensures SameSlice(s, t)
  {
    if s.Slice? {
      forall k | 0 <= k < s.len ensures s.arr[k] == t.arr[k] { assert s.arr[..s.len][k] == t.arr[..t.len][k]; }
    }
  }

  /** Maps of slices: the same keys, and under each key the same slice. */
  lemma MapsAgree<V>(m: MapOf<V>, n: MapOf<V>, R: set<object>, S: set<object>)
    requires MapIn(m, R) && MapIn(n, S) && MapValue(m, R) == MapValue(n, S)
    ensures m == null <==> n == null
    ensures m != null ==> m.v.Keys == n.v.Keys && forall key :: key in m.v ==> SameSlice(m.v[key], n.v[key])
  {
    if m != null {
      assert EntriesValue(m.v, R).Keys == m.v.Keys && EntriesValue(n.v, S).Keys == n.v.Keys;
      forall key | key in m.v ensures SameSlice(m.v[key], n.v[key]) {
        assert EntriesValue(m.v, R)[key] == EntriesValue(n.v, S)[key];
        SlicesAgree(m.v[key], n.v[key]);
      }
    }
  }

  lemma OneTimesAgree(p: Cell?<OneTimeBoot>, q: Cell?<OneTimeBoot>, R: set<object>, S: set<object>)
    requires OneTimeIn(p, R) && OneTimeIn(q, S) && OneTimeOf(p, R) == OneTimeOf(q, S)
    ensures p == null <==> q == null
    ensures p != null ==> p.v.efiBoot == q.v.efiBoot && SameSlice(p.v.devices, q.v.devices)
  {
    if p != null { SlicesAgree(p.v.devices, q.v.devices); }
  }

  lemma ActionsAgree(a: Action, b: Action, R: set<object>, S: set<object>)
    requires ActionIn(a, R) && ActionIn(b, S) && ActionOf(a, R) == ActionOf(b, S)
    ensures SamePtr(a.power, b.power) && SamePtr(a.boot, b.boot) && SamePtr(a.media, b.media)
    ensures a.oneTime == null <==> b.oneTime == null
    ensures a.oneTime != null ==>
      a.oneTime.v.efiBoot == b.oneTime.v.efiBoot && SameSlice(a.oneTime.v.devices, b.oneTime.v.devices)
  {
    PtrsAgree(a.power, b.power);
    PtrsAgree(a.boot, b.boot);
    PtrsAgree(a.media, b.media);
    OneTimesAgree(a.oneTime, b.oneTime, R, S);
  }

  lemma {:induction false} TaskAt(tasks: seq<Action>, R: set<object>, k: nat)
    requires TasksIn(tasks, R) && k < |tasks|
    ensures TasksOf(tasks, R)[k] == ActionOf(tasks[k], R)
  {
    if k < |tasks| - 1 { TaskAt(tasks[..|tasks| - 1], R, k); }
  }

  /** The same machine, and as many tasks, each with the same meaning. */
  lemma JobSpecsAgree(s: JobSpec, t: JobSpec, R: set<object>, S: set<object>)
    requires JobSpecView(s, R).Some? && JobSpecView(s, R) == JobSpecView(t, S)
    ensures s.machineRef == t.machineRef && (s.tasks.Nil? <==> t.tasks.Nil?)
    ensures s.tasks.Slice? ==>
      s.tasks.len == t.tasks.len && s.tasks.len <= s.tasks.arr.Length && t.tasks.len <= t.tasks.arr.Length
    ensures s.tasks.Slice? ==> forall k :: 0 <= k < s.tasks.len ==>
      ActionView(s.tasks.arr[k], R).Some? && ActionView(s.tasks.arr[k], R) == ActionView(t.tasks.arr[k], S)
  {
    if s.tasks.Slice? {
      var a, b := s.tasks.arr[..s.tasks.len], t.tasks.arr[..t.tasks.len];
      forall k | 0 <= k < s.tasks.len
        ensures ActionView(s.tasks.arr[k], R).Some? && ActionView(s.tasks.arr[k], R) == ActionView(t.tasks.arr[k], S)
      {
        TaskAt(a, R, k);
        TaskAt(b, S, k);
        assert a[k] == s.tasks.arr[k] && b[k] == t.tasks.arr[k];
      }
    }
  }

  lemma StatusesAgree(s: Status, t: Status)
    requires SliceOk(s.conditions) && SliceOk(t.conditions) && StatusOf(s) == StatusOf(t)
    ensures SameSlice(s.conditions, t.conditions)
    ensures SamePtr(s.startTime, t.startTime) && SamePtr(s.completionTime, t.completionTime)
  {
    SlicesAgree(s.conditions, t.conditions);
    PtrsAgree(s.startTime, t.startTime);
    PtrsAgree(s.completionTime, t.completionTime);
  }

  lemma RequestsAgree(p: Cell?<RequestOpts>, q: Cell?<RequestOpts>, R: set<object>, S: set<object>)
    requires RequestIn(p, R) && RequestIn(q, S) && RequestOf(p, R) == RequestOf(q, S)
    ensures p == null <==> q == null
    ensures p != null ==>
      && p.v == q.v.(headers := p.v.headers) && (p.v.headers == null <==> q.v.headers == null)
      && (p.v.headers != null ==>
            && p.v.headers.v.Keys == q.v.headers.v.Keys
            && forall key :: key in p.v.headers.v ==> SameSlice(p.v.headers.v[key], q.v.headers.v[key]))
  {
    if p != null { MapsAgree(p.v.headers, q.v.headers, R, S); }
  }

  lemma SignaturesAgree(p: Cell?<SignatureOpts>, q: Cell?<SignatureOpts>, R: set<object>, S: set<object>)
    requires SignatureIn(p, R) && SignatureIn(q, S) && SignatureOf(p, R) == SignatureOf(q, S)
    ensures p == null <==> q == null
    ensures p != null ==> p.v == q.v.(included := p.v.included) && SameSlice(p.v.included, q.v.included)
  {
    if p != null { SlicesAgree(p.v.included, q.v.included); }
  }

  lemma HmacsAgree(p: Cell?<HmacOpts>, q: Cell?<HmacOpts>, R: set<object>, S: set<object>)
    requires HmacIn(p, R) && HmacIn(q, S) && HmacOf(p, R) == HmacOf(q, S)
    ensures p == null <==> q == null
    ensures p != null ==>
      && p.v == q.v.(secrets := p.v.secrets) && (p.v.secrets == null <==> q.v.secrets == null)
      && (p.v.secrets != null ==>
            && p.v.secrets.v.Keys == q.v.secrets.v.Keys
            && forall key :: key in p.v.secrets.v ==> SameSlice(p.v.secrets.v[key], q.v.secrets.v[key]))
  {
    if p != null { MapsAgree(p.v.secrets, q.v.secrets, R, S); }
  }

  lemma RpcsAgree(v: RpcOptions, u: RpcOptions, R: set<object>, S: set<object>)
    requires RpcFieldsIn(v, R) && RpcFieldsIn(u, S) && RpcFieldsOf(v, R) == RpcFieldsOf(u, S)
    ensures v.consumerUrl == u.consumerUrl && v.logDisabled == u.logDisabled && SamePtr(v.experimental, u.experimental)
    ensures RequestOf(v.request, R) == RequestOf(u.request, S)
    ensures SignatureOf(v.signature, R) == SignatureOf(u.signature, S) && HmacOf(v.hmac, R) == HmacOf(u.hmac, S)
  {
    PtrsAgree(v.experimental, u.experimental);
  }

  lemma ProvidersAgree(v: ProviderOptions, u: ProviderOptions, R: set<object>, S: set<object>)
    requires ProviderFieldsIn(v, R) && ProviderFieldsIn(u, S) && ProviderFieldsOf(v, R) == ProviderFieldsOf(u, S)
    ensures SameSlice(v.preferredOrder, u.preferredOrder) && SamePtr(v.intelAmt, u.intelAmt)
    ensures SamePtr(v.ipmitool, u.ipmitool) && SamePtr(v.redfish, u.redfish)
    ensures SamePtr(v.homeAssistant, u.homeAssistant)
    ensures (v.rpc == null <==> u.rpc == null) && RpcOf(v.rpc, R) == RpcOf(u.rpc, S)
  {
    SlicesAgree(v.preferredOrder, u.preferredOrder);
    PtrsAgree(v.intelAmt, u.intelAmt);
    PtrsAgree(v.ipmitool, u.ipmitool);
    PtrsAgree(v.redfish, u.redfish);
    PtrsAgree(v.homeAssistant, u.homeAssistant);
  }

  lemma ConnectionsAgree(c: Connection, d: Connection, R: set<object>, S: set<object>)
    requires ConnectionView(c, R).Some? && ConnectionView(c, R) == ConnectionView(d, S)
    ensures c == d.(providerOptions := c.providerOptions)
    ensures c.providerOptions == null <==> d.providerOptions == null
    ensures c.providerOptions != null ==>
      && ProviderFieldsIn(c.providerOptions.v, R) && ProviderFieldsIn(d.providerOptions.v, S)
      && ProviderFieldsOf(c.providerOptions.v, R) == ProviderFieldsOf(d.providerOptions.v, S)
  {
  }

  lemma JobsAgree(j: Job, k: Job, R: set<object>, S: set<object>)
    requires j.Within(R) && k.Within(S) && j.Value(R) == k.Value(S)
    ensures j.meta == k.meta && StatusOf(j.status) == StatusOf(k.status)
    ensures JobSpecView(j.spec, R) == JobSpecView(k.spec, S)
  {
  }

  lemma TasksAgree(t: Task, u: Task, R: set<object>, S: set<object>)
    requires t.Within(R) && u.Within(S) && t.Value(R) == u.Value(S)
    ensures t.meta == u.meta && StatusOf(t.status) == StatusOf(u.status)
    ensures ActionView(t.spec.task, R).Some? && ActionView(t.spec.task, R) == ActionView(u.spec.task, S)
    ensures ConnectionView(t.spec.connection, R) == ConnectionView(u.spec.connection, S)
  {
  }

  lemma MachinesAgree(m: Machine, n: Machine, R: set<object>, S: set<object>)
    requires m.Within(R) && n.Within(S) && m.Value(R) == n.Value(S)
    ensures m.meta == n.meta && m.power == n.power && SameSlice(m.conditions, n.conditions)
    ensures ConnectionView(m.connection, R) == ConnectionView(n.connection, S)
  {
    SlicesAgree(m.conditions, n.conditions);
  }
}
