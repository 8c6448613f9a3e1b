// The running operator as a transition system: any number of Reconciles and
// emergency handler calls, interleaved at every API call and every access to
// the registry, beside an environment that edits the cluster. Every API call
// may fail.
module Operator {
  import opened Wrappers
  import opened Cluster
  import Conditions
  import opened Discovery
  import Wire
  import opened Opamp
  import opened Connection

  type Id = nat

  // A client made by ensureOpAMPConnection, with what its callbacks captured.
  // They hold the monitor object of the connecting Reconcile, which goes on to
  // change its phase, conditions and resourceVersion; what they read of it, its
  // spec and the ConfigMap reference resolved before, stays as it is.
  datatype ClientState = ClientState(captured: Captured, config: ClientConfig, live: bool, effectiveConfig: string)

  // opampClients and opampStarted.
  datatype Registry = Registry(clients: map<string, Id>, started: map<string, bool>)

  // Where a Reconcile is, with its local variables. CleanStop to CleanStarted
  // and LoadAuth to PutStarted hold the registry mutex.
  datatype Pc =
    | Fetch
    | CleanLock | CleanStop | CleanClients | CleanStarted
    | FindWorkload(m: Monitor)
    | FindConfigMap(m: Monitor, found: Found)
    | EnsureLock(m: Monitor, ref: ConfigMapRef, found: Found)
    | LoadAuth(m: Monitor, ref: ConfigMapRef, found: Found)
    | Dial(m: Monitor, ref: ConfigMapRef, found: Found, credential: Option<string>)
    | PutClient(m: Monitor, ref: ConfigMapRef, c: Id)
    | PutStarted(m: Monitor, ref: ConfigMapRef)
    | Lookup(m: Monitor, ref: ConfigMapRef)
    | SendHealth(m: Monitor, ref: ConfigMapRef, c: Id)
    | ReadConfig(m: Monitor, ref: ConfigMapRef, c: Id)
    | SendConfig(m: Monitor, ref: ConfigMapRef, c: Id, yaml: string)
    | Commit(m: Monitor, ref: ConfigMapRef)

  datatype Worker = Worker(key: NamespacedName, pc: Pc)

  // Where an emergency handler call is.
  datatype HandlerPc =
    | Gate
    | ReadMap
    | WriteMap(cm: ConfigMap)
    | FindTarget
    | Restart(found: Found)
    | Ack(success: bool)
    | Closed
    | Panicked

  datatype Handler = Handler(c: Id, data: string, command: Wire.EmergencyCommand, pc: HandlerPc)

  datatype WorkloadId = WorkloadId(kind: string, ns: Name, name: string)

  // The cluster: workloads are kept with their restart annotation, and
  // revision is the last resourceVersion given out. A ConfigMap without data
  // is read back with a nil map.
  datatype Store = Store(
    monitors: map<NamespacedName, Monitor>,
    configMaps: map<NamespacedName, ConfigMap>,
    workloads: map<WorkloadId, string>,
    secrets: Secrets,
    revision: nat)

  datatype Event =
    | Started(key: NamespacedName, c: Id, m: Monitor, ref: ConfigMapRef, found: Found, credential: Option<string>)
    | Stopped(key: NamespacedName, c: Id)
    | Delivered(h: Id, c: Id, data: string)
    | Wrote(h: Id, target: ConfigMapRef, yaml: string)
    | Restarted(h: Id, workload: WorkloadId)
    | Acked(h: Id, success: bool)
    | Edited(at: NamespacedName)
    | Reported(c: Id, yaml: string)

  datatype State = State(
    store: Store, registry: Registry, holder: Option<Id>, clients: map<Id, ClientState>,
    workers: map<Id, Worker>, handlers: map<Id, Handler>, trace: seq<Event>, defaultSecretKey: string,
    crashed: bool)

  // What the outside decides about one step: whether the API call succeeds, or
  // fails although it was carried out (its response was lost), what a List
  // returns, the time, and the identity of a new client.
  datatype Outcome = Outcome(ok: bool, lost: bool, listing: Listing, now: nat, stamp: string, newClient: Id)

  // A write takes effect unless it fails with its response delivered.
  predicate TakesEffect(o: Outcome) {
    o.ok || o.lost
  }

  datatype Action =
    | Spawn(p: Id, key: NamespacedName)
    | Work(p: Id, o: Outcome)
    | Deliver(c: Id, h: Id, msg: CustomMessage)
    | Handle(h: Id, o: Outcome)
    | CreateMonitor(key: NamespacedName, labels: map<string, string>, spec: MonitorSpec)
    | EditMonitor(key: NamespacedName, labels: map<string, string>, spec: MonitorSpec)
    | DeleteMonitor(key: NamespacedName)
    | PutConfigMap(at: NamespacedName, data: map<string, string>)
    | DeleteConfigMap(at: NamespacedName)
    | PutWorkload(id: WorkloadId, stamp: string)
    | DeleteWorkload(id: WorkloadId)
    | PutSecret(sid: SecretId, entries: map<string, string>)
    | DeleteSecret(sid: SecretId)

  predicate InCritical(pc: Pc) {
    pc.CleanStop? || pc.CleanClients? || pc.CleanStarted? || pc.LoadAuth? || pc.Dial? || pc.PutClient? || pc.PutStarted?
  }

  // ---------- one step of a Reconcile ----------

  // What one step does to the shared state, beside moving the Reconcile on.
  datatype Effect =
    | Nothing
    | Acquire
    | Release
    | StopClient(c: Id)
    | ForgetClient
    | ForgetStartedAndRelease
    | StartClient(c: Id, m: Monitor, ref: ConfigMapRef, found: Found, credential: Option<string>)
    | RememberClient(c: Id)
    | RememberStartedAndRelease
    | StoreEffective(c: Id, yaml: string)
    | CommitStatus(m: Monitor, ref: ConfigMapRef, now: nat)

  // An effect, and where the Reconcile goes next; None is its return.
  datatype Decision = Decision(effect: Effect, next: Option<Pc>)

  predicate IsStarted(r: Registry, key: string) {
    key in r.started && r.started[key]
  }

  ghost predicate WorkEnabled(s: State, p: Id, o: Outcome) {
    && p in s.workers
    && var w := s.workers[p];
    && (w.pc.CleanLock? || w.pc.EnsureLock? || w.pc.Lookup? ==> s.holder.None?)
    && (w.pc.FindWorkload? ==> LegalListing(w.pc.m.spec.workloadSelector, w.key.ns, o.listing))
    && (w.pc.Dial? ==> o.newClient !in s.clients)
  }

  function Decide(s: State, w: Worker, o: Outcome): Decision {
    var key := w.key;
    var rk := RegistryKey(key);
    match w.pc
    case Fetch =>
      if !o.ok then Decision(Nothing, None)
      else if key in s.store.monitors then Decision(Nothing, Some(FindWorkload(s.store.monitors[key])))
      else Decision(Nothing, Some(CleanLock))
    case CleanLock => Decision(Acquire, Some(CleanStop))
    case CleanStop =>
      if rk in s.registry.clients then Decision(StopClient(s.registry.clients[rk]), Some(CleanClients))
      else Decision(Nothing, Some(CleanStarted))
    case CleanClients => Decision(ForgetClient, Some(CleanStarted))
    case CleanStarted => Decision(ForgetStartedAndRelease, None)
    case FindWorkload(m) =>
      (match Discover(m.spec.workloadSelector, o.listing)
       case Success(found) => Decision(Nothing, Some(FindConfigMap(m, found)))
       case Failure(_) => Decision(Nothing, None))
    case FindConfigMap(m, found) =>
      if m.spec.configMapSelector.None? || m.spec.configMapSelector.value.name == "" then Decision(Nothing, None)
      else
        var at := NamespacedName(key.ns, m.spec.configMapSelector.value.name);
        if o.ok && at in s.store.configMaps then
          var ref := ConfigMapRef(at, ConfigMapKey(m.spec.configMapSelector, s.store.configMaps[at].data));
          Decision(Nothing, Some(EnsureLock(m, ref, found)))
        else Decision(Nothing, None)
    case EnsureLock(m, ref, found) =>
      if IsStarted(s.registry, rk) then Decision(Nothing, Some(Lookup(m, ref)))
      else Decision(Acquire, Some(LoadAuth(m, ref, found)))
    case LoadAuth(m, ref, found) =>
      // nothing is read, and nothing can fail, unless the monitor names a secret
      if (m.spec.secretRef.Some? && !o.ok) || !SecretExists(m.spec, key.ns, s.store.secrets)
      then Decision(Release, None)
      else
        var credential := Credential(m.spec, key.ns, s.store.secrets, s.defaultSecretKey);
        Decision(Nothing, Some(Dial(m, ref, found, credential)))
    case Dial(m, ref, found, credential) =>
      if !o.ok then Decision(Release, None)
      else Decision(StartClient(o.newClient, m, ref, found, credential), Some(PutClient(m, ref, o.newClient)))
    case PutClient(m, ref, c) => Decision(RememberClient(c), Some(PutStarted(m, ref)))
    case PutStarted(m, ref) => Decision(RememberStartedAndRelease, Some(Lookup(m, ref)))
    case Lookup(m, ref) =>
      if rk in s.registry.clients then Decision(Nothing, Some(SendHealth(m, ref, s.registry.clients[rk])))
      else Decision(Nothing, Some(Commit(m, ref)))
    case SendHealth(m, ref, c) =>
      Decision(Nothing, Some(if o.ok then ReadConfig(m, ref, c) else Commit(m, ref)))
    case ReadConfig(m, ref, c) =>
      if o.ok && ref.at in s.store.configMaps && ref.key in s.store.configMaps[ref.at].data then
        Decision(Nothing, Some(SendConfig(m, ref, c, s.store.configMaps[ref.at].data[ref.key])))
      else Decision(Nothing, Some(Commit(m, ref)))
    case SendConfig(m, ref, c, yaml) =>
      // the wrapper keeps the text even when telling the server fails
      Decision(StoreEffective(c, yaml), Some(Commit(m, ref)))
    case Commit(m, ref) =>
      // Status().Update: refused unless the monitor is still the one that was read
      if TakesEffect(o) && key in s.store.monitors && s.store.monitors[key].version == m.version
      then Decision(CommitStatus(m, ref, o.now), None)
      else Decision(Nothing, None)
  }

  function ActiveStatus(m: Monitor, ref: ConfigMapRef, now: nat): Status {
    var call := Conditions.Call(now, "Active", true, "Monitoring collector fleet");
    Status("Active", Some(ref), Conditions.Upserted(m.status.conditions, call))
  }

  function Perform(s: State, p: Id, key: NamespacedName, e: Effect): State {
    match e
    case Nothing => s
    case Acquire => s.(holder := Some(p))
    case Release => s.(holder := None)
    case StopClient(c) =>
      if c in s.clients then
        s.(clients := s.clients[c := s.clients[c].(live := false)], trace := s.trace + [Stopped(key, c)])
      else s
    case ForgetClient => s.(registry := s.registry.(clients := s.registry.clients - {RegistryKey(key)}))
    case ForgetStartedAndRelease =>
      s.(registry := s.registry.(started := s.registry.started - {RegistryKey(key)}), holder := None)
    case StartClient(c, m, ref, found, credential) =>
      var config := BuildConfig(key, m, ref, found, credential);
      s.(clients := s.clients[c := ClientState(Captured(key, m.spec, ref), config, true, "")],
         trace := s.trace + [Started(key, c, m, ref, found, credential)])
    case RememberClient(c) => s.(registry := s.registry.(clients := s.registry.clients[RegistryKey(key) := c]))
    case RememberStartedAndRelease =>
      s.(registry := s.registry.(started := s.registry.started[RegistryKey(key) := true]), holder := None)
    case StoreEffective(c, yaml) =>
      if c in s.clients then
        s.(clients := s.clients[c := s.clients[c].(effectiveConfig := yaml)], trace := s.trace + [Reported(c, yaml)])
      else s
    case CommitStatus(m, ref, now) =>
      if key in s.store.monitors then PutMonitor(s, key, s.store.monitors[key].(status := ActiveStatus(m, ref, now)))
      else s
  }

  function Moved(workers: map<Id, Worker>, p: Id, key: NamespacedName, next: Option<Pc>): map<Id, Worker> {
    match next
    case Some(pc) => workers[p := Worker(key, pc)]
    case None => workers - {p}
  }

  function ApplyWork(s: State, p: Id, o: Outcome): State
    requires p in s.workers
  {
    var w := s.workers[p];
    var d := Decide(s, w, o);
    Perform(s, p, w.key, d.effect).(workers := Moved(s.workers, p, w.key, d.next))
  }

  // A Reconcile writes to the cluster only when it commits the status.
  lemma WorkStore(s: State, p: Id, o: Outcome)
    requires WorkEnabled(s, p, o)
    ensures var w := s.workers[p];
            var d := Decide(s, w, o);
            && ApplyWork(s, p, o).store ==
                 (if d.effect.CommitStatus? then
                    var status := ActiveStatus(d.effect.m, d.effect.ref, d.effect.now);
                    PutMonitor(s, w.key, s.store.monitors[w.key].(status := status)).store
                  else s.store)
            && (d.effect.CommitStatus? ==>
                  && w.pc == Commit(d.effect.m, d.effect.ref)
                  && w.key in s.store.monitors && s.store.monitors[w.key].version == d.effect.m.version)
  {
    hide BuildConfig, Credential, ConfigMapKey, Discover, LegalListing, RegistryKey;
  }

  // ---------- one step of an emergency handler call ----------

  datatype HandlerEffect =
    | NoEffect
    | WriteConfig(cm: ConfigMap)
    | StampWorkload(id: WorkloadId, stamp: string)
    | SendAck(success: bool)
    | Crash

  datatype HandlerDecision = HandlerDecision(effect: HandlerEffect, next: HandlerPc)

  ghost predicate HandleEnabled(s: State, h: Id, o: Outcome) {
    && h in s.handlers && s.handlers[h].c in s.clients
    && !s.handlers[h].pc.Closed? && !s.handlers[h].pc.Panicked?
    && (s.handlers[h].pc.FindTarget? ==>
          var client := s.clients[s.handlers[h].c];
          LegalListing(client.captured.spec.workloadSelector, client.captured.owner.ns, o.listing))
  }

  function DecideHandle(s: State, handler: Handler, captured: Captured, o: Outcome): HandlerDecision {
    var at := captured.target.at;
    match handler.pc
    case Gate =>
      HandlerDecision(NoEffect, if captured.spec.emergencyEnabled == Some(false) then Closed else ReadMap)
    case ReadMap =>
      // assigning to a key of a nil map panics
      if !o.ok || at !in s.store.configMaps then HandlerDecision(NoEffect, Ack(false))
      else if s.store.configMaps[at].data == map[] then HandlerDecision(Crash, Panicked)
      else HandlerDecision(NoEffect, WriteMap(s.store.configMaps[at]))
    case WriteMap(cm) =>
      // Update: refused unless the ConfigMap is still the one that was read
      if TakesEffect(o) && at in s.store.configMaps && s.store.configMaps[at].version == cm.version
      then HandlerDecision(WriteConfig(cm), if o.ok then FindTarget else Ack(false))
      else HandlerDecision(NoEffect, Ack(false))
    case FindTarget =>
      (match Discover(captured.spec.workloadSelector, o.listing)
       case Success(found) => HandlerDecision(NoEffect, Restart(found))
       case Failure(_) => HandlerDecision(NoEffect, Ack(false)))
    case Restart(found) =>
      var id := WorkloadId(found.kind, found.workload.ns, found.workload.name);
      if TakesEffect(o) && id in s.store.workloads then HandlerDecision(StampWorkload(id, o.stamp), Ack(o.ok))
      else HandlerDecision(NoEffect, Ack(false))
    case Ack(success) => HandlerDecision(SendAck(success), Closed)
    case Closed => HandlerDecision(NoEffect, Closed)
    case Panicked => HandlerDecision(NoEffect, Panicked)
  }

  function PerformHandle(s: State, h: Id, target: ConfigMapRef, yaml: string, e: HandlerEffect): State {
    match e
    case NoEffect => s
    case WriteConfig(cm) => Log(PutData(s, target.at, cm.data[target.key := yaml]), Wrote(h, target, yaml))
    case StampWorkload(id, stamp) =>
      Log(s.(store := s.store.(workloads := s.store.workloads[id := stamp])), Restarted(h, id))
    case SendAck(success) => Log(s, Acked(h, success))
    case Crash => s.(crashed := true)
  }

  function ApplyHandle(s: State, h: Id, o: Outcome): State
    requires h in s.handlers && s.handlers[h].c in s.clients
  {
    var handler := s.handlers[h];
    var captured := s.clients[handler.c].captured;
    var d := DecideHandle(s, handler, captured, o);
    PerformHandle(s, h, captured.target, handler.command.configYAML, d.effect)
      .(handlers := s.handlers[h := handler.(pc := d.next)])
  }

  // ---------- deliveries and the environment ----------

  function ApplyDeliver(s: State, c: Id, h: Id, msg: CustomMessage): State {
    var calls := DispatchCustom(true, true, msg);
    if |calls| == 1 && calls[0].Emergency? then
      Log(s.(handlers := s.handlers[h := Handler(c, msg.data, calls[0].command, Gate)]), Delivered(h, c, msg.data))
    else s
  }

  function Log(s: State, e: Event): State {
    s.(trace := s.trace + [e])
  }

  // Every write gives out a new resourceVersion.
  function PutData(s: State, at: NamespacedName, data: map<string, string>): State {
    s.(store := s.store.(configMaps := s.store.configMaps[at := ConfigMap(data, s.store.revision + 1)],
                         revision := s.store.revision + 1))
  }

  function PutMonitor(s: State, key: NamespacedName, m: Monitor): State {
    s.(store := s.store.(monitors := s.store.monitors[key := m.(version := s.store.revision + 1)],
                         revision := s.store.revision + 1))
  }

  ghost predicate Enabled(s: State, a: Action) {
    !s.crashed &&
    match a
    case Spawn(p, _) => p !in s.workers
    case Work(p, o) => WorkEnabled(s, p, o)
    case Deliver(c, h, _) => c in s.clients && s.clients[c].live && h !in s.handlers
    case Handle(h, o) => HandleEnabled(s, h, o)
    case CreateMonitor(key, _, _) => key !in s.store.monitors
    case EditMonitor(key, _, _) => key in s.store.monitors
    case _ => true
  }

  // Actions are taken in states that enable them.
  function Apply(s: State, a: Action): State {
    match a
    case Spawn(p, key) => s.(workers := s.workers[p := Worker(key, Fetch)])
    case Work(p, o) => if p in s.workers then ApplyWork(s, p, o) else s
    case Deliver(c, h, msg) => ApplyDeliver(s, c, h, msg)
    case Handle(h, o) => if h in s.handlers && s.handlers[h].c in s.clients then ApplyHandle(s, h, o) else s
    case CreateMonitor(key, labels, spec) => PutMonitor(s, key, Monitor(labels, spec, NEW_STATUS, 0))
    case EditMonitor(key, labels, spec) =>
      if key in s.store.monitors then PutMonitor(s, key, s.store.monitors[key].(labels := labels, spec := spec)) else s
    case DeleteMonitor(key) => s.(store := s.store.(monitors := s.store.monitors - {key}))
    case PutConfigMap(at, data) => Log(PutData(s, at, data), Edited(at))
    case DeleteConfigMap(at) => Log(s.(store := s.store.(configMaps := s.store.configMaps - {at})), Edited(at))
    case PutWorkload(id, stamp) => s.(store := s.store.(workloads := s.store.workloads[id := stamp]))
    case DeleteWorkload(id) => s.(store := s.store.(workloads := s.store.workloads - {id}))
    case PutSecret(sid, entries) => s.(store := s.store.(secrets := s.store.secrets[sid := entries]))
    case DeleteSecret(sid) => s.(store := s.store.(secrets := s.store.secrets - {sid}))
  }

  // Handler calls and deliveries leave monitors and Reconciles alone; the
  // environment edits one monitor at most.
  lemma OtherMonitors(s: State, a: Action)
    requires Enabled(s, a) && !a.Work?
    ensures var s' := Apply(s, a);
            && s'.workers == (if a.Spawn? then s.workers[a.p := Worker(a.key, Fetch)] else s.workers)
            && s.store.revision <= s'.store.revision
            && s'.store.monitors ==
                 match a
                 case CreateMonitor(key, labels, spec) =>
                   s.store.monitors[key := Monitor(labels, spec, NEW_STATUS, s.store.revision + 1)]
                 case EditMonitor(key, labels, spec) =>
                   var m := s.store.monitors[key];
                   s.store.monitors[key := m.(labels := labels, spec := spec, version := s.store.revision + 1)]
                 case DeleteMonitor(key) => s.store.monitors - {key}
                 case _ => s.store.monitors
  {
    hide ApplyWork, ApplyHandle, ApplyDeliver;
    if a.Handle? {
      HandleMonitors(s, a.h, a.o);
    } else if a.Deliver? {
      DeliverMonitors(s, a.c, a.h, a.msg);
    }
  }

  lemma HandleMonitors(s: State, h: Id, o: Outcome)
    requires HandleEnabled(s, h, o)
    ensures var s' := ApplyHandle(s, h, o);
            && s'.workers == s.workers && s'.store.monitors == s.store.monitors
            && s.store.revision <= s'.store.revision
  {
    hide DecideHandle, LegalListing;
  }

  lemma DeliverMonitors(s: State, c: Id, h: Id, msg: CustomMessage)
    ensures ApplyDeliver(s, c, h, msg).workers == s.workers && ApplyDeliver(s, c, h, msg).store == s.store
  {
    hide DispatchCustom;
  }

  ghost predicate GrowsByOne(t: seq<Event>, t': seq<Event>) {
    t' == t || (|t'| == |t| + 1 && t' == t + [t'[|t|]])
  }

  lemma PerformTrace(s: State, p: Id, key: NamespacedName, e: Effect)
    ensures GrowsByOne(s.trace, Perform(s, p, key, e).trace)
    ensures var t := Perform(s, p, key, e).trace;
            t != s.trace ==> t[|s.trace|].Started? || t[|s.trace|].Stopped? || t[|s.trace|].Reported?
  {
    hide BuildConfig, RegistryKey, ActiveStatus;
  }

  lemma WorkTrace(s: State, p: Id, o: Outcome)
    requires WorkEnabled(s, p, o)
    ensures var t := ApplyWork(s, p, o).trace;
            && GrowsByOne(s.trace, t)
            && (t != s.trace ==> t[|s.trace|].Started? || t[|s.trace|].Stopped? || t[|s.trace|].Reported?)
  {
    hide Decide, Perform;
    PerformTrace(s, p, s.workers[p].key, Decide(s, s.workers[p], o).effect);
  }

  lemma HandlerTrace(s: State, h: Id, o: Outcome)
    requires HandleEnabled(s, h, o)
    ensures GrowsByOne(s.trace, ApplyHandle(s, h, o).trace)
  {
    hide Discover, RegistryKey;
  }

  lemma TraceGrows(s: State, a: Action)
    requires Enabled(s, a)
    ensures GrowsByOne(s.trace, Apply(s, a).trace)
  {
    hide ApplyWork, ApplyHandle, DispatchCustom;
    if a.Work? {
      WorkTrace(s, a.p, a.o);
    } else if a.Handle? {
      HandlerTrace(s, a.h, a.o);
    }
  }

  lemma PerformFreezes(s: State, p: Id, key: NamespacedName, e: Effect, c: Id)
    requires c in s.clients && (e.StartClient? ==> e.c != c)
    ensures c in Perform(s, p, key, e).clients && SameSnapshot(Perform(s, p, key, e).clients[c], s.clients[c])
  {
    hide BuildConfig, Credential, ConfigMapKey, Discover, LegalListing, RegistryKey;
  }

  // No step changes what a client was built from or what its callbacks captured.
  lemma ClientsFrozen(s: State, a: Action, c: Id)
    requires Enabled(s, a) && c in s.clients
    ensures c in Apply(s, a).clients && SameSnapshot(Apply(s, a).clients[c], s.clients[c])
  {
    hide BuildConfig, Credential, ConfigMapKey, Discover, LegalListing, RegistryKey;
    if a.Work? {
      var w := s.workers[a.p];
      var e := Decide(s, w, a.o).effect;
      assert e.StartClient? ==> w.pc.Dial? && e.c == a.o.newClient;
      PerformFreezes(s, a.p, w.key, e, c);
      assert Apply(s, a).clients == Perform(s, a.p, w.key, e).clients;
    } else {
      OthersKeepClients(s, a);
    }
  }

  lemma OthersKeepClients(s: State, a: Action)
    requires Enabled(s, a) && !a.Work?
    ensures Apply(s, a).clients == s.clients
  {
  }

  ghost predicate SameSnapshot(c: ClientState, d: ClientState) {
    c.captured == d.captured && c.config == d.config
  }

  // A Reconcile is moved on by its own steps only.
  lemma WorkerUntouched(s: State, a: Action, p: Id)
    requires Enabled(s, a) && p in s.workers && !(a.Work? && a.p == p)
    ensures p in Apply(s, a).workers && Apply(s, a).workers[p] == s.workers[p]
  {
    hide BuildConfig, Credential, ConfigMapKey, Discover, LegalListing, RegistryKey;
  }

  // ---------- runs ----------

  // A fresh operator, on a cluster whose monitors no operator has touched.
  ghost predicate Init(s: State) {
    && s.registry == Registry(map[], map[])
    && s.holder.None? && s.clients == map[] && s.workers == map[] && s.handlers == map[] && s.trace == [] && !s.crashed
    && (forall k :: k in s.store.monitors ==> s.store.monitors[k].status == NEW_STATUS)
    && (forall k :: k in s.store.monitors ==> s.store.monitors[k].version <= s.store.revision)
    && (forall k :: k in s.store.configMaps ==> s.store.configMaps[k].version <= s.store.revision)
  }

  ghost predicate Run(ss: seq<State>, acts: seq<Action>) {
    && |ss| == |acts| + 1
    && Init(ss[0])
    && forall i :: 0 <= i < |acts| ==> Enabled(ss[i], acts[i]) && ss[i + 1] == Apply(ss[i], acts[i])
  }

  // The runtime's promise: no two Reconciles of one monitor at a time.
  ghost predicate Serialised(s: State) {
    forall p, q :: p in s.workers && q in s.workers && p != q ==> s.workers[p].key != s.workers[q].key
  }
}
