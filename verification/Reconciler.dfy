// The reconciler object: its registry of OpAMP clients, updated under the
// mutex, and the emergency override, each as one uninterrupted call. Each call
// has the effect of the steps that the running system takes for it.
module Reconciler {
  import opened Wrappers
  import opened Cluster
  import opened Discovery
  import opened Wire
  import opened Opamp
  import opened Connection
  import opened Operator
  import EmergencySafety
  import opened Uninterrupted
  import Fleet
  import WholeReconcile

  class CollectorMonitorReconciler {
    var opampClients: map<string, Client>
    var opampStarted: map<string, bool>
    const defaultSecretKey: string

    // The part of the cluster that is read and written here, and the record of
    // emergency writes and acknowledgements.
    var store: Store
    var trace: seq<Event>

    // The registry outside the critical section.
    ghost predicate Valid()
      reads this, opampClients.Values
    {
      && (forall k :: k in opampClients <==> k in opampStarted && opampStarted[k])
      && (forall k :: k in opampClients ==> opampClients[k].created && opampClients[k].running)
      && (forall j, k :: j in opampClients && k in opampClients && opampClients[j] == opampClients[k] ==> j == k)
    }

    // This object is the registry of state s, whose client id is the object
    // objects[id].
    ghost predicate Shows(s: State, objects: map<Id, Client>)
      reads this, objects.Values
    {
      && s.defaultSecretKey == defaultSecretKey && s.store == store && s.holder.None?
      && s.registry.started == opampStarted && Names(s.registry.clients, opampClients, objects)
      && s.clients.Keys == objects.Keys && Distinct(objects) && ShowsClients(s.clients, objects)
    }

    // The client of the monitor, if any.
    ghost function Registered(key: NamespacedName): set<Client>
      reads this
    {
      if RegistryKey(key) in opampClients then {opampClients[RegistryKey(key)]} else {}
    }

    constructor (defaultSecretKey: string, store: Store)
      ensures Valid() && opampClients == map[] && opampStarted == map[] && trace == []
      ensures this.defaultSecretKey == defaultSecretKey && this.store == store
    {
      this.defaultSecretKey := defaultSecretKey;
      this.store := store;
      opampClients, opampStarted, trace := map[], map[], [];
    }

    // The flags say whether the secret read and the three library calls of the
    // Start succeed. On success the monitor has a started client, made just now
    // unless it had one; on failure the registry is as before.
    method EnsureOpAMPConnection(key: NamespacedName, m: Monitor, ref: ConfigMapRef, found: Found,
                                 okSecret: bool, okDescription: bool, okHealth: bool, okConnect: bool)
      returns (ok: bool, ghost made: Option<Client>)
      requires Valid()
      modifies this`opampClients, this`opampStarted
      ensures Valid()
      ensures RegistryKey(key) in old(opampClients) ==> ok && made.None?
      ensures RegistryKey(key) !in old(opampClients) ==>
        ok == ((m.spec.secretRef.Some? ==> okSecret) && SecretExists(m.spec, key.ns, store.secrets)
               && okDescription && okHealth && okConnect) == made.Some?
      ensures made.None? ==> opampClients == old(opampClients) && opampStarted == old(opampStarted)
      ensures made.Some? ==>
        var c := made.value;
        && fresh(c)
        && opampClients == old(opampClients)[RegistryKey(key) := c]
        && opampStarted == old(opampStarted)[RegistryKey(key) := true]
        && SecretExists(m.spec, key.ns, store.secrets)
        && IsNewClient(c, key, m, ref, found, Credential(m.spec, key.ns, store.secrets, defaultSecretKey))
        && Authenticates(c.config.headers, m.spec, key.ns, store.secrets, defaultSecretKey)
        && c.created && c.running
    {
      made := None;
      var rk := RegistryKey(key);
      if rk in opampStarted && opampStarted[rk] {
        return true, None;
      }
      var client := Dial(key, m, ref, found, okSecret, okDescription, okHealth, okConnect);
      if client.None? {
        return false, None;
      }
      opampClients := opampClients[rk := client.value];
      opampStarted := opampStarted[rk := true];
      ok, made := true, client;
    }

    // A new client for the monitor, started, if the secret read and the Start
    // succeed.
    method Dial(key: NamespacedName, m: Monitor, ref: ConfigMapRef, found: Found,
                okSecret: bool, okDescription: bool, okHealth: bool, okConnect: bool)
      returns (made: Option<Client>)
      ensures made.Some? <==>
        (m.spec.secretRef.Some? ==> okSecret) && SecretExists(m.spec, key.ns, store.secrets)
        && okDescription && okHealth && okConnect
      ensures made.Some? ==>
        var c := made.value;
        && fresh(c) && c.created && c.running
        && IsNewClient(c, key, m, ref, found, Credential(m.spec, key.ns, store.secrets, defaultSecretKey))
        && Authenticates(c.config.headers, m.spec, key.ns, store.secrets, defaultSecretKey)
    {
      var headers := LoadAuth(key, m, okSecret);
      if headers.None? {
        return None;
      }
      ghost var credential := Credential(m.spec, key.ns, store.secrets, defaultSecretKey);
      var client := NewClient(key, m, ref, found, headers.value, credential);
      var started := client.Start(okDescription, okHealth, okConnect);
      made := if started then Some(client) else None;
    }

    // The secret is read from the namespace it names, the monitor's own by
    // default.
    method LoadAuth(key: NamespacedName, m: Monitor, okSecret: bool) returns (headers: Option<map<string, string>>)
      ensures headers.Some? <==> (m.spec.secretRef.Some? ==> okSecret) && SecretExists(m.spec, key.ns, store.secrets)
      ensures headers.Some? <==>
        match m.spec.secretRef
        case Some(ref) => okSecret && SecretId(if ref.ns == "" then key.ns else ref.ns, ref.name) in store.secrets
        case None => true
      ensures headers.Some? ==> Authenticates(headers.value, m.spec, key.ns, store.secrets, defaultSecretKey)
      ensures headers.Some? ==>
        headers.value == Headers(Credential(m.spec, key.ns, store.secrets, defaultSecretKey))
    {
      headers := Some(map[]);
      if m.spec.secretRef.Some? {
        var secretKey := SecretId(m.spec.secretRef.value.ns, m.spec.secretRef.value.name);
        if secretKey.ns == "" {
          secretKey := SecretId(key.ns, secretKey.name);
        }
        if !okSecret || secretKey !in store.secrets {
          return None;
        }
        var secret := store.secrets[secretKey];
        var keyName := m.spec.secretRef.value.key;
        if keyName == "" {
          keyName := "secret-key";
        }
        headers := Some(map["Authorization" := "Secret-Key " + if keyName in secret then secret[keyName] else ""]);
      } else if defaultSecretKey != "" {
        headers := Some(map["Authorization" := "Secret-Key " + defaultSecretKey]);
      }
    }

    method NewClient(key: NamespacedName, m: Monitor, ref: ConfigMapRef, found: Found, headers: map<string, string>,
                     ghost credential: Option<string>)
      returns (client: Client)
      requires headers == Headers(credential)
      ensures fresh(client) && !client.running && IsNewClient(client, key, m, ref, found, credential)
    {
      var cluster := "unknown";
      if "k8s.cluster.name" in m.labels {
        cluster := m.labels["k8s.cluster.name"];
      }
      client := new Client(ClientConfig(
        m.spec.opampServer, headers, AgentID(cluster, key.ns, found.kind, found.workload.name), "kubernetes",
        map["k8s.cluster.name" := cluster, "k8s.namespace" := key.ns,
            "k8s.workload.type" := found.kind, "k8s.workload.name" := found.workload.name],
        Some(K8sContext(cluster, key.ns, found.kind, found.workload.name, ref.at.name, ref.key))));
      client.OnHandlers(Captured(key, m.spec, ref));
    }

    // The client of the monitor, if any, is stopped and forgotten; no other
    // client is touched.
    method CleanupOpAMPClient(key: NamespacedName)
      requires Valid()
      modifies this`opampClients, this`opampStarted, Registered(key)`running, Registered(key)`sent
      ensures Valid()
      ensures opampClients == old(opampClients) - {RegistryKey(key)}
      ensures opampStarted == old(opampStarted) - {RegistryKey(key)}
      ensures RegistryKey(key) in old(opampClients) ==>
        var c := old(opampClients[RegistryKey(key)]);
        !c.running && c.sent == old(c.sent) + [Disconnect]
    {
      var rk := RegistryKey(key);
      if rk in opampClients {
        opampClients[rk].Stop();
        opampClients := opampClients - {rk};
      }
      opampStarted := opampStarted - {rk};
    }

    // The same call beside a state s of the running system that this object
    // shows, with Reconcile p about to enter the critical section: afterwards
    // the object shows the state that the steps of p lead to, and success
    // means that p goes on.
    method EnsureAsSteps(key: NamespacedName, m: Monitor, ref: ConfigMapRef, found: Found,
                         okSecret: bool, okDescription: bool, okHealth: bool, okConnect: bool,
                         ghost s: State, ghost p: Id, ghost id: Id, ghost objects: map<Id, Client>)
      returns (ok: bool, ghost after: map<Id, Client>)
      requires Valid() && Shows(s, objects) && id !in s.clients
      requires p in s.workers && s.workers[p] == Worker(key, EnsureLock(m, ref, found))
      modifies this`opampClients, this`opampStarted
      ensures Valid()
      ensures var s' := RunLocked(s, p, Connecting(okSecret, okDescription && okHealth && okConnect, id));
              Shows(s', after) && (ok <==> p in s'.workers)
    {
      hide RunLocked, BuildConfig, Credential, SecretExists, RegistryKey, Names, Distinct, ShowsClients;
      hide Headers, Identifies, Authenticates;
      ghost var how := Connecting(okSecret, okDescription && okHealth && okConnect, id);
      EnsuredIsRun(s, p, how);
      ghost var made;
      ok, made := EnsureOpAMPConnection(key, m, ref, found, okSecret, okDescription, okHealth, okConnect);
      after := objects;
      if made.Some? {
        var rk, c := RegistryKey(key), made.value;
        after := objects[id := c];
        NamesAdded(s.registry.clients, old(opampClients), objects, rk, id, c);
        BuiltIf(c.config, key, m, ref, found, Credential(m.spec, key.ns, store.secrets, defaultSecretKey));
        ghost var cs := Ensured(s, p, how).clients[id];
        ShowsAdded(s.clients, objects, id, cs, c);
      }
    }

    method CleanupAsSteps(key: NamespacedName, ghost s: State, ghost p: Id, ghost how: Connecting,
                          ghost objects: map<Id, Client>)
      requires Valid() && Shows(s, objects)
      requires p in s.workers && s.workers[p] == Worker(key, CleanLock)
      modifies this`opampClients, this`opampStarted, Registered(key)`running, Registered(key)`sent
      ensures Valid()
      ensures Shows(RunLocked(s, p, how), objects) && p !in RunLocked(s, p, how).workers
    {
      hide RunLocked, RegistryKey, Names, Valid;
      ghost var rk := RegistryKey(key);
      CleanedIsRun(s, p, how);
      NamesRemoved(s.registry.clients, opampClients, objects, rk);
      CleanupOpAMPClient(key);
      forall i | i in objects
        ensures ShowsClient(Cleaned(s, p).clients[i], objects[i])
      {
        assert old(ShowsClient(s.clients[i], objects[i]));
        assert rk in s.registry.clients && i != s.registry.clients[rk] ==> objects[i] != old(opampClients)[rk];
      }
    }

    // reportFleetHealth: the lookup of the client, then the report. The client,
    // if there is one, keeps a new text exactly if its health could be sent and
    // the ConfigMap has the key.
    method ReportFleetHealth(key: NamespacedName, ref: ConfigMapRef, pods: Result<seq<Pod>>, okHealth: bool,
                             okRead: bool, okConfig: bool)
      returns (ok: bool)
      requires Valid()
      modifies Registered(key)`sent, Registered(key)`effectiveConfig
      ensures Valid()
      ensures RegistryKey(key) in opampClients ==>
        var c := opampClients[RegistryKey(key)];
        c.effectiveConfig ==
          if && pods.Success? && okHealth && okRead
             && ref.at in store.configMaps && ref.key in store.configMaps[ref.at].data
          then store.configMaps[ref.at].data[ref.key]
          else old(c.effectiveConfig)
    {
      hide RegistryKey, Fleet.FleetReport;
      var rk := RegistryKey(key);
      var registered := if rk in opampClients then Some(opampClients[rk]) else None;
      var read := if okRead && ref.at in store.configMaps then Some(store.configMaps[ref.at].data) else None;
      ok := Fleet.ReportFleetHealth(registered, pods, okHealth, Some(ref), read, okConfig);
    }

    // The same beside a state s whose Reconcile p is about to look up its
    // client: afterwards the object shows the state that the steps of p up to
    // the commit lead to.
    method ReportAsSteps(key: NamespacedName, m: Monitor, ref: ConfigMapRef, pods: Result<seq<Pod>>, okHealth: bool,
                         okRead: bool, okConfig: bool,
                         ghost s: State, ghost p: Id, ghost how: WholeReconcile.Course, ghost objects: map<Id, Client>)
      returns (ok: bool)
      requires Valid() && Shows(s, objects) && p in s.workers && s.workers[p] == Worker(key, Lookup(m, ref))
      requires how.okHealth == (pods.Success? && okHealth) && how.okRead == okRead
      modifies Registered(key)`sent, Registered(key)`effectiveConfig
      ensures Valid() && Shows(WholeReconcile.RunDown(s, p, how, 1), objects)
    {
      hide RegistryKey, Names, WholeReconcile.RunDown, Valid, Distinct;
      ghost var rk := RegistryKey(key);
      ReportOutcome(s, p, how);
      NamesRemoved(s.registry.clients, opampClients, objects, rk);
      OtherObjects(s.registry.clients, opampClients, objects, rk);
      ok := ReportFleetHealth(key, ref, pods, okHealth, okRead, okConfig);
      forall i | i in objects
        ensures ShowsClient(WholeReconcile.RunDown(s, p, how, 1).clients[i], objects[i])
      {
        assert old(ShowsClient(s.clients[i], objects[i]));
      }
    }

    // applyEmergencyConfig for call h: first the ConfigMap, then the workload.
    // It can fail after the ConfigMap has been written, and even, if a response
    // is lost, after the workload has been restarted.
    method ApplyEmergencyConfig(h: Id, captured: Captured, yaml: string, how: Override) returns (r: Result<()>)
      requires LegalListing(captured.spec.workloadSelector, captured.owner.ns, how.listing)
      requires !PanicsOn(store, captured, how)
      modifies this`store, this`trace
      ensures var e := Overriding(old(store), h, captured, yaml, how);
              store == e.store && trace == old(trace) + e.events && r.Success? == e.success
      ensures r.Failure? ==> r.error == OverrideError(old(store), captured, how)
    {
      var at, key := captured.target.at, captured.target.key;
      ghost var before := trace;
      if !how.okGet || at !in store.configMaps {
        return Failure("get configmap: " + how.reason);
      }
      var data := store.configMaps[at].data[key := yaml];
      if !how.okUpdate && !how.lostUpdate {
        return Failure("update configmap: " + how.reason);
      }
      var revision := store.revision + 1;
      store := store.(configMaps := store.configMaps[at := ConfigMap(data, revision)], revision := revision);
      trace := trace + [Wrote(h, captured.target, yaml)];
      if !how.okUpdate {
        return Failure("update configmap: " + how.reason);
      }
      var found := DiscoverWorkload(captured.spec.workloadSelector, how.listing);
      if found.Failure? {
        return Failure("discover workload for restart: " + found.error);
      }
      var id := EmergencySafety.IdOf(found.value);
      var patchError := match found.value.kind
        case "DaemonSet" => "patch daemonset: " + how.reason
        case "Deployment" => "patch deployment: " + how.reason
        case _ => "patch statefulset: " + how.reason;
      if !(how.okPatch || how.lostPatch) || id !in store.workloads {
        return Failure(patchError);
      }
      store := store.(workloads := store.workloads[id := how.stamp]);
      trace := trace + [Restarted(h, id)];
      assert trace == before + [Wrote(h, captured.target, yaml), Restarted(h, id)];
      r := if how.okPatch then Success(()) else Failure(patchError);
    }

    // The emergency callback of client c for call h of the running system:
    // without interruption, it leaves the store and the record that the steps
    // of the call lead to. It sends no acknowledgement if the captured spec
    // disables it, else one, which says how the override went.
    method OnEmergencyCmd(h: Id, command: EmergencyCommand, c: Client, how: Override, okSend: bool, ghost s: State)
      requires c.created && c.onEmergencyCmd.Some?
      requires var captured := c.onEmergencyCmd.value;
               && LegalListing(captured.spec.workloadSelector, captured.owner.ns, how.listing)
               && (captured.spec.emergencyEnabled != Some(false) ==> !PanicsOn(store, captured, how))
               && IsCall(s, h) && s.clients[s.handlers[h].c].captured == captured
      requires s.handlers[h].pc.Gate? && s.handlers[h].command == command && s.store == store && s.trace == trace
      modifies this`store, this`trace, c`sent
      ensures store == RunCall(s, h, how).store && trace == RunCall(s, h, how).trace
      ensures var captured := c.onEmergencyCmd.value;
              var e := Overriding(old(store), h, captured, command.configYAML, how);
              if captured.spec.emergencyEnabled == Some(false) then
                store == old(store) && trace == old(trace) && c.sent == old(c.sent)
              else
                && store == e.store && trace == old(trace) + (e.events + [Acked(h, e.success)])
                && c.sent == old(c.sent) + if !okSend then [] else
                     [Custom(CustomMessage("collectorctrl", "emergency_ack",
                        if e.success then "emergency_ack:true:"
                        else "emergency_ack:false:" + OverrideError(old(store), captured, how)))]
    {
      hide RunCall, Overriding;
      ghost var before := trace;
      RunCallIs(s, h, how);
      var captured := c.onEmergencyCmd.value;
      if captured.spec.emergencyEnabled == Some(false) {
        assert trace == before + [];
        return;
      }
      ghost var e := Overriding(store, h, captured, command.configYAML, how);
      var r := ApplyEmergencyConfig(h, captured, command.configYAML, how);
      var success := r.Success?;
      var errMsg := if success then "" else r.error;
      var sent := c.SendEmergencyAck(success, errMsg, okSend);
      trace := trace + [Acked(h, success)];
      assert trace == before + (e.events + [Acked(h, success)]);
      AckTexts(errMsg);
      assert okSend ==> c.sent == old(c.sent) + [EmergencyAck(e.success, errMsg)];
    }
  }

  // The ids in the registry of a state name the objects in the registry of the
  // reconciler.
  ghost predicate Names(ids: map<string, Id>, clients: map<string, Client>, objects: map<Id, Client>) {
    && ids.Keys == clients.Keys
    && forall k :: k in clients ==> ids[k] in objects && objects[ids[k]] == clients[k]
  }

  ghost predicate Distinct(objects: map<Id, Client>) {
    forall i, j :: i in objects && j in objects && objects[i] == objects[j] ==> i == j
  }

  ghost predicate ShowsClient(cs: ClientState, c: Client)
    reads c
  {
    && c.created && c.onEmergencyCmd.Some?
    && cs == ClientState(c.onEmergencyCmd.value, c.config, c.running, c.effectiveConfig)
  }

  ghost predicate ShowsClients(clients: map<Id, ClientState>, objects: map<Id, Client>)
    reads objects.Values
  {
    forall id :: id in objects && id in clients ==> ShowsClient(clients[id], objects[id])
  }

  lemma NamesAdded(ids: map<string, Id>, clients: map<string, Client>, objects: map<Id, Client>,
                   k: string, id: Id, c: Client)
    requires Names(ids, clients, objects) && Distinct(objects) && id !in objects && c !in objects.Values
    ensures Names(ids[k := id], clients[k := c], objects[id := c]) && Distinct(objects[id := c])
  {
  }

  lemma NamesRemoved(ids: map<string, Id>, clients: map<string, Client>, objects: map<Id, Client>, k: string)
    requires Names(ids, clients, objects)
    ensures Names(ids - {k}, clients - {k}, objects)
    ensures k in ids <==> k in clients
    ensures k in ids ==> ids[k] in objects && objects[ids[k]] == clients[k]
  {
  }

  lemma OtherObjects(ids: map<string, Id>, clients: map<string, Client>, objects: map<Id, Client>, k: string)
    requires Names(ids, clients, objects) && Distinct(objects)
    ensures k in clients ==> k in ids && forall i :: i in objects && i != ids[k] ==> objects[i] != clients[k]
  {
  }

  // The text that the client of a Reconcile about to look it up is told, if any.
  ghost function Told(s: State, p: Id, how: WholeReconcile.Course): Option<string>
    requires p in s.workers && s.workers[p].pc.Lookup?
  {
    var ref := s.workers[p].pc.ref;
    if how.okHealth && how.okRead && ref.at in s.store.configMaps
    then Find(s.store.configMaps[ref.at].data, ref.key)
    else None
  }

  lemma ReportOutcome(s: State, p: Id, how: WholeReconcile.Course)
    requires p in s.workers && s.workers[p].pc.Lookup?
    ensures var t, rk := WholeReconcile.RunDown(s, p, how, 1), RegistryKey(s.workers[p].key);
            && t.store == s.store && t.registry == s.registry && t.holder == s.holder
            && t.defaultSecretKey == s.defaultSecretKey
            && t.clients ==
                 if rk in s.registry.clients && s.registry.clients[rk] in s.clients && Told(s, p, how).Some? then
                   var c := s.registry.clients[rk];
                   s.clients[c := s.clients[c].(effectiveConfig := Told(s, p, how).value)]
                 else s.clients
  {
    hide WholeReconcile.RunDown;
    RegistryKeyInjective(s.workers[p].key, s.workers[p].key);
    WholeReconcile.ReportRuns(s, p, how);
  }

  lemma ShowsAdded(clients: map<Id, ClientState>, objects: map<Id, Client>, id: Id, cs: ClientState, c: Client)
    requires ShowsClients(clients, objects) && ShowsClient(cs, c)
    ensures ShowsClients(clients[id := cs], objects[id := c])
  {
  }

  // What a failing override says.
  ghost function OverrideError(store: Store, captured: Captured, how: Override): string {
    var found := Discover(captured.spec.workloadSelector, how.listing);
    if !how.okGet || captured.target.at !in store.configMaps then "get configmap: " + how.reason
    else if !how.okUpdate then "update configmap: " + how.reason
    else if found.Failure? then "discover workload for restart: " + found.error
    else if found.value.kind == "DaemonSet" then "patch daemonset: " + how.reason
    else if found.value.kind == "Deployment" then "patch deployment: " + how.reason
    else "patch statefulset: " + how.reason
  }

  lemma AckTexts(errMsg: string)
    ensures EmergencyAck(true, "")
            == Custom(CustomMessage("collectorctrl", "emergency_ack", "emergency_ack:true:"))
    ensures EmergencyAck(false, errMsg)
            == Custom(CustomMessage("collectorctrl", "emergency_ack", "emergency_ack:false:" + errMsg))
  {
    assert RenderEmergencyAck(true, "") == "emergency_ack:true:";
    assert RenderEmergencyAck(false, errMsg) == "emergency_ack:false:" + errMsg;
  }

  // The client has the configuration that follows from what was read, and its
  // callbacks go by the key, the spec and the resolved reference.
  ghost predicate IsNewClient(c: Client, key: NamespacedName, m: Monitor, ref: ConfigMapRef, found: Found,
                              credential: Option<string>)
    reads c
  {
    && Identifies(c.config, key, m, ref, found) && c.config.headers == Headers(credential) && c.effectiveConfig == ""
    && c.onConfigUpdate && c.onEmergencyCmd == Some(Captured(key, m.spec, ref)) && c.onFetchLogs == Some(key.ns)
  }

  // What an override that does not panic amounts to: it reports success exactly
  // after the write and then the restart with their responses delivered; it
  // writes one entry of one ConfigMap at most and then, at most, restarts one
  // workload that the captured selector admits.
  lemma OverridingFrame(store: Store, h: Id, captured: Captured, yaml: string, how: Override)
    requires LegalListing(captured.spec.workloadSelector, captured.owner.ns, how.listing)
    ensures var e, wrote := Overriding(store, h, captured, yaml, how), Wrote(h, captured.target, yaml);
            && (|| e.events == [] || e.events == [wrote]
                || exists f ::
                     && EmergencySafety.Suits(captured, f)
                     && e.events == [wrote, Restarted(h, WorkloadId(f.kind, f.workload.ns, f.workload.name))])
            && (e.events != [] <==>
                  how.okGet && captured.target.at in store.configMaps && (how.okUpdate || how.lostUpdate))
            && (|e.events| == 2 <==>
                  && e.events != [] && how.okUpdate && (how.okPatch || how.lostPatch)
                  && var f := Discover(captured.spec.workloadSelector, how.listing);
                     f.Success?
                     && WorkloadId(f.value.kind, f.value.workload.ns, f.value.workload.name) in store.workloads)
            && (e.success <==> |e.events| == 2 && how.okPatch)
            && e.store.monitors == store.monitors && e.store.secrets == store.secrets
            && (if e.events == [] then e.store == store
                else EmergencySafety.SameButEntry(store.configMaps, e.store.configMaps, captured.target, yaml))
            && (if |e.events| == 2
                then e.store.workloads == store.workloads[e.events[1].workload := how.stamp]
                else e.store.workloads == store.workloads)
  {
    EmergencySafety.FoundSuits(captured, how.listing);
  }
}
