// From its Start to its Stop a client keeps what the connecting Reconcile read
// from the cluster, whatever Reconciles and edits follow.
module SnapshotSafety {
  import opened Wrappers
  import opened Cluster
  import opened Discovery
  import opened Connection
  import opened Operator
  import opened RegistrySafety
  import StatusSafety

  // Event e is the Start that made client c, from the values it records.
  ghost predicate MadeBy(c: Id, client: ClientState, e: Event) {
    && e.Started? && e.c == c && client.captured == Captured(e.key, e.m.spec, e.ref)
    && client.config == BuildConfig(e.key, e.m, e.ref, e.found, e.credential)
  }

  ghost predicate OriginInv(s: State) {
    forall c :: c in s.clients ==> exists e :: e in s.trace && MadeBy(c, s.clients[c], e)
  }

  lemma OriginStep(s: State, a: Action)
    requires OriginInv(s) && Enabled(s, a)
    ensures OriginInv(Apply(s, a))
  {
    hide Apply, Enabled;
    var s' := Apply(s, a);
    TraceGrows(s, a);
    forall c | c in s'.clients
      ensures exists e :: e in s'.trace && MadeBy(c, s'.clients[c], e)
    {
      if c in s.clients {
        ClientsFrozen(s, a, c);
        var e :| e in s.trace && MadeBy(c, s.clients[c], e);
        assert e in s'.trace && MadeBy(c, s'.clients[c], e);
      } else {
        NewClient(s, a, c);
        assert s'.trace[|s.trace|] in s'.trace;
      }
    }
  }

  lemma NewClient(s: State, a: Action, c: Id)
    requires Enabled(s, a) && c !in s.clients && c in Apply(s, a).clients
    ensures var s' := Apply(s, a);
            |s'.trace| == |s.trace| + 1 && MadeBy(c, s'.clients[c], s'.trace[|s.trace|])
  {
    hide ApplyHandle, ApplyDeliver, Decide, Perform;
    if a.Work? {
      PerformedClient(s, a.p, s.workers[a.p].key, Decide(s, s.workers[a.p], a.o).effect, c);
    } else {
      OthersKeepClients(s, a);
    }
  }

  lemma PerformedClient(s: State, p: Id, key: NamespacedName, e: Effect, c: Id)
    requires c !in s.clients && c in Perform(s, p, key, e).clients
    ensures var s' := Perform(s, p, key, e);
            |s'.trace| == |s.trace| + 1 && MadeBy(c, s'.clients[c], s'.trace[|s.trace|])
  {
    hide RegistryKey, ActiveStatus, BuildConfig;
  }

  lemma {:induction false} OriginInvHolds(ss: seq<State>, acts: seq<Action>, i: nat)
    requires Run(ss, acts) && i < |ss|
    ensures OriginInv(ss[i])
  {
    hide Enabled, Apply;
    if i > 0 {
      OriginInvHolds(ss, acts, i - 1);
      OriginStep(ss[i - 1], acts[i - 1]);
    }
  }

  // Traces of a run extend one another; clients are kept.
  lemma {:induction false} RunGrows(ss: seq<State>, acts: seq<Action>, i: nat, j: nat)
    requires Run(ss, acts) && i <= j < |ss|
    ensures ss[i].trace <= ss[j].trace
    ensures forall c :: c in ss[i].clients ==> c in ss[j].clients && SameSnapshot(ss[j].clients[c], ss[i].clients[c])
    decreases j
  {
    hide Enabled, Apply;
    if i < j {
      RunGrows(ss, acts, i, j - 1);
      TraceGrows(ss[j - 1], acts[j - 1]);
      forall c | c in ss[i].clients
        ensures c in ss[j].clients && SameSnapshot(ss[j].clients[c], ss[i].clients[c])
      {
        ClientsFrozen(ss[j - 1], acts[j - 1], c);
      }
    }
  }

  // Without a Stop of k the running client of k stays the same one.
  lemma {:induction false} HolderKept(before: seq<Event>, after: seq<Event>, k: NamespacedName)
    requires before <= after && WellPaired(after) && Holder(before, k).Some?
    requires forall n :: |before| <= n < |after| ==> !(after[n].Stopped? && after[n].key == k)
    ensures Holder(after, k) == Holder(before, k)
  {
    if |before| < |after| {
      var n := |after| - 1;
      assert after == after[..n] + [after[n]];
      Appended(after[..n], after[n]);
      HolderKept(before, after[..n], k);
    } else {
      assert before == after;
    }
  }

  // No Reconcile of k is inside the critical section; others may be.
  ghost predicate Settled(s: State, k: NamespacedName) {
    forall p :: p in s.workers && InCritical(s.workers[p].pc) ==> s.workers[p].key != k
  }

  lemma RegisteredIsHolder(s: State, k: NamespacedName)
    requires RegistryInv(s) && Settled(s, k)
    ensures Holder(s.trace, k) == Find(s.registry.clients, RegistryKey(k))
    ensures RegistryKey(k) in s.registry.clients ==>
      var c := s.registry.clients[RegistryKey(k)];
      c in s.clients && s.clients[c].live && s.clients[c].captured.owner == k
  {
    if s.holder.Some? {
      RegistryKeyInjective(k, s.workers[s.holder.value].key);
    }
    assert Find(Logical(s), RegistryKey(k)) == Find(s.registry.clients, RegistryKey(k));
    if RegistryKey(k) in s.registry.clients {
      RegistryKeyInjective(k, s.clients[s.registry.clients[RegistryKey(k)]].captured.owner);
    }
  }

  // ---------- where the values of a Start come from ----------

  ghost predicate ReadAt(s: State, key: NamespacedName, m: Monitor) {
    key in s.store.monitors && s.store.monitors[key] == m
  }

  // The ConfigMap that the monitor selects, which exists, and the key it
  // selects or the data lead to.
  ghost predicate ResolvedAt(s: State, key: NamespacedName, m: Monitor, ref: ConfigMapRef) {
    && m.spec.configMapSelector.Some? && m.spec.configMapSelector.value.name != ""
    && ref.at == NamespacedName(key.ns, m.spec.configMapSelector.value.name) && ref.at in s.store.configMaps
    && var data := s.store.configMaps[ref.at].data;
       ref.key == if m.spec.configMapSelector.value.key != "" then m.spec.configMapSelector.value.key
                  else if "relay.yaml" in data then "relay.yaml"
                  else if "config.yaml" in data then "config.yaml"
                  else if "otelcol.yaml" in data then "otelcol.yaml"
                  else "config.yaml"
  }

  ghost predicate CredentialAt(s: State, key: NamespacedName, m: Monitor, credential: Option<string>) {
    && SecretExists(m.spec, key.ns, s.store.secrets)
    && credential == Credential(m.spec, key.ns, s.store.secrets, s.defaultSecretKey)
  }

  ghost predicate Discoverable(key: NamespacedName, m: Monitor, found: Found) {
    exists l ::
      LegalListing(m.spec.workloadSelector, key.ns, l) && Discover(m.spec.workloadSelector, l) == Success(found)
  }

  // The same, at some moment up to n, each after the one before.

  ghost predicate Read(ss: seq<State>, n: nat, key: NamespacedName, m: Monitor) {
    exists a: nat :: a <= n < |ss| && ReadAt(ss[a], key, m)
  }

  ghost predicate Resolved(ss: seq<State>, n: nat, key: NamespacedName, m: Monitor, ref: ConfigMapRef) {
    exists b: nat :: b <= n < |ss| && ResolvedAt(ss[b], key, m, ref) && Read(ss, b, key, m)
  }

  ghost predicate Loaded(ss: seq<State>, n: nat, key: NamespacedName, m: Monitor, ref: ConfigMapRef,
                         credential: Option<string>) {
    exists c: nat :: c <= n < |ss| && CredentialAt(ss[c], key, m, credential) && Resolved(ss, c, key, m, ref)
  }

  predicate HasFound(pc: Pc) {
    pc.FindConfigMap? || pc.EnsureLock? || pc.LoadAuth? || pc.Dial?
  }

  // The local variables of a Reconcile are what it read from the cluster.
  ghost predicate Sourced(ss: seq<State>, n: nat, w: Worker) {
    && (StatusSafety.LocalMonitor(w.pc).Some? ==> Read(ss, n, w.key, w.pc.m))
    && (StatusSafety.LocalRef(w.pc).Some? ==> Resolved(ss, n, w.key, w.pc.m, w.pc.ref))
    && (HasFound(w.pc) ==> Discoverable(w.key, w.pc.m, w.pc.found))
    && (w.pc.Dial? ==> Loaded(ss, n, w.key, w.pc.m, w.pc.ref, w.pc.credential))
  }

  lemma SourcedLater(ss: seq<State>, n: nat, w: Worker)
    requires Sourced(ss, n, w) && n + 1 < |ss|
    ensures Sourced(ss, n + 1, w)
  {
  }

  // Which local variables one step sets, and from what.
  lemma DecisionSources(s: State, w: Worker, o: Outcome)
    requires w.pc.FindWorkload? ==> LegalListing(w.pc.m.spec.workloadSelector, w.key.ns, o.listing)
    requires Decide(s, w, o).next.Some?
    ensures var pc := Decide(s, w, o).next.value;
            && (StatusSafety.LocalMonitor(pc).Some? ==>
                  if w.pc.Fetch? then ReadAt(s, w.key, pc.m) else StatusSafety.LocalMonitor(w.pc) == Some(pc.m))
            && (StatusSafety.LocalRef(pc).Some? ==>
                  if w.pc.FindConfigMap? then ResolvedAt(s, w.key, pc.m, pc.ref)
                  else StatusSafety.LocalRef(w.pc) == Some(pc.ref))
            && (HasFound(pc) ==>
                  if w.pc.FindWorkload? then Discoverable(w.key, pc.m, pc.found)
                  else HasFound(w.pc) && w.pc.found == pc.found)
            && (pc.Dial? ==> w.pc.LoadAuth? && CredentialAt(s, w.key, pc.m, pc.credential))
  {
    hide Discover, LegalListing, ConfigMapKey, RegistryKey, ActiveStatus, BuildConfig;
    if w.pc.FindConfigMap? {
      var sel := w.pc.m.spec.configMapSelector;
      if Decide(s, w, o).next.value.EnsureLock? {
        ConfigMapKeyIs(sel, s.store.configMaps[NamespacedName(w.key.ns, sel.value.name)].data);
      }
    }
    if w.pc.FindWorkload? {
      assert Discover(w.pc.m.spec.workloadSelector, o.listing) == Success(Decide(s, w, o).next.value.found);
    }
  }

  lemma SourcedStep(ss: seq<State>, n: nat, p: Id, o: Outcome)
    requires n + 1 < |ss| && WorkEnabled(ss[n], p, o) && Sourced(ss, n, ss[n].workers[p])
    ensures var w := ss[n].workers[p];
            var next := Decide(ss[n], w, o).next;
            next.Some? ==> Sourced(ss, n + 1, w.(pc := next.value))
  {
    hide Decide, ReadAt, ResolvedAt, CredentialAt, Discoverable, LegalListing;
    var w := ss[n].workers[p];
    var next := Decide(ss[n], w, o).next;
    if next.Some? {
      var pc := next.value;
      DecisionSources(ss[n], w, o);
      if w.pc.Fetch? {
        assert StatusSafety.LocalMonitor(pc).Some? ==> ReadAt(ss[n], w.key, pc.m) && Read(ss, n, w.key, pc.m);
      }
      if w.pc.FindConfigMap? {
        assert StatusSafety.LocalRef(pc).Some? ==>
          ResolvedAt(ss[n], w.key, pc.m, pc.ref) && Resolved(ss, n, w.key, pc.m, pc.ref);
      }
      if w.pc.LoadAuth? {
        assert pc.Dial? ==> Loaded(ss, n, w.key, pc.m, pc.ref, pc.credential);
      }
      assert Sourced(ss, n, w.(pc := pc));
      SourcedLater(ss, n, w.(pc := pc));
    }
  }

  lemma {:induction false} SourcedHolds(ss: seq<State>, acts: seq<Action>, n: nat, p: Id)
    requires Run(ss, acts) && n < |ss| && p in ss[n].workers
    ensures Sourced(ss, n, ss[n].workers[p])
  {
    hide Enabled, Apply, Sourced, Decide, Perform;
    if n > 0 {
      var s, a := ss[n - 1], acts[n - 1];
      WorkerSteps(s, a, p);
      if p in s.workers {
        SourcedHolds(ss, acts, n - 1, p);
        if a.Work? && a.p == p {
          SourcedStep(ss, n - 1, p, a.o);
        } else {
          SourcedLater(ss, n - 1, s.workers[p]);
        }
      } else {
        NewReconcile(ss, n, a.key);
      }
    }
  }

  lemma NewReconcile(ss: seq<State>, n: nat, key: NamespacedName)
    ensures Sourced(ss, n, Worker(key, Fetch))
  {
  }

  // How a Reconcile came to be where it is.
  lemma WorkerSteps(s: State, a: Action, p: Id)
    requires Enabled(s, a) && p in Apply(s, a).workers
    ensures var w := Apply(s, a).workers[p];
            if p !in s.workers then a.Spawn? && w == Worker(a.key, Fetch)
            else if a.Work? && a.p == p then
              && WorkEnabled(s, p, a.o)
              && Decide(s, s.workers[p], a.o).next == Some(w.pc) && w.key == s.workers[p].key
            else w == s.workers[p]
  {
    hide BuildConfig, Credential, SecretExists, ConfigMapKey, Discover, LegalListing, RegistryKey, Perform;
    if a.Work? {
      assert Apply(s, a).workers == Moved(s.workers, a.p, s.workers[a.p].key, Decide(s, s.workers[a.p], a.o).next);
    } else {
      OtherMonitors(s, a);
    }
  }

  // Step d is the Start that event e records.
  ghost predicate StartedBy(ss: seq<State>, acts: seq<Action>, d: nat, e: Event) {
    && d < |acts| && d + 1 < |ss| && e.Started? && acts[d].Work? && acts[d].o.ok
    && acts[d].p in ss[d].workers
    && ss[d].workers[acts[d].p] == Worker(e.key, Dial(e.m, e.ref, e.found, e.credential))
    && ss[d + 1].trace == ss[d].trace + [e]
  }

  lemma {:induction false} StartOnRecord(ss: seq<State>, acts: seq<Action>, i: nat, e: Event) returns (d: nat)
    requires Run(ss, acts) && i < |ss| && e in ss[i].trace && e.Started?
    ensures d < i && StartedBy(ss, acts, d, e)
  {
    hide Enabled, Apply;
    var s, a := ss[i - 1], acts[i - 1];
    TraceGrows(s, a);
    if e in s.trace {
      d := StartOnRecord(ss, acts, i - 1, e);
    } else {
      d := i - 1;
      StartStep(s, a);
    }
  }

  lemma StartStep(s: State, a: Action)
    requires Enabled(s, a) && Apply(s, a).trace != s.trace
    ensures GrowsByOne(s.trace, Apply(s, a).trace)
    ensures var e := Apply(s, a).trace[|s.trace|];
            e.Started? ==>
              && a.Work? && a.o.ok && a.p in s.workers
              && s.workers[a.p] == Worker(e.key, Dial(e.m, e.ref, e.found, e.credential))
  {
    hide ApplyHandle, ApplyDeliver, Decide, Perform;
    TraceGrows(s, a);
    if a.Work? {
      var w := s.workers[a.p];
      DecidedStart(s, w, a.o);
      PerformedStart(s, a.p, w.key, Decide(s, w, a.o).effect);
    } else if a.Handle? {
      HandlerFrame(s, a.h, a.o);
    } else {
      EnvironmentFrame(s, a);
    }
  }

  lemma DecidedStart(s: State, w: Worker, o: Outcome)
    ensures var e := Decide(s, w, o).effect;
            e.StartClient? ==> o.ok && w.pc == Dial(e.m, e.ref, e.found, e.credential)
  {
    hide Discover, LegalListing, ConfigMapKey, RegistryKey, Credential, SecretExists;
  }

  lemma PerformedStart(s: State, p: Id, key: NamespacedName, e: Effect)
    ensures var t := Perform(s, p, key, e).trace;
            |t| > |s.trace| && t[|s.trace|].Started? ==>
              e.StartClient? && t[|s.trace|] == Started(key, e.c, e.m, e.ref, e.found, e.credential)
  {
    hide BuildConfig, RegistryKey, ActiveStatus;
  }

  // Every Start of a run was made, at a moment d, from what its Reconcile had
  // read from the cluster: at a moment a the monitor, then at b the ConfigMap
  // it selects, then at c the secret it names, and a workload that its selector
  // admits.
  lemma StartProvenance(ss: seq<State>, acts: seq<Action>, i: nat, e: Event) returns (a: nat, b: nat, c: nat, d: nat)
    requires Run(ss, acts) && i < |ss| && e in ss[i].trace && e.Started?
    ensures a <= b <= c <= d < i && StartedBy(ss, acts, d, e)
    ensures ReadAt(ss[a], e.key, e.m)
    ensures ResolvedAt(ss[b], e.key, e.m, e.ref)
    ensures CredentialAt(ss[c], e.key, e.m, e.credential)
    ensures Discoverable(e.key, e.m, e.found)
  {
    hide Enabled, Apply, ReadAt, ResolvedAt, CredentialAt, Discoverable;
    d := StartOnRecord(ss, acts, i, e);
    SourcedHolds(ss, acts, d, acts[d].p);
    assert Loaded(ss, d, e.key, e.m, e.ref, e.credential);
    c :| c <= d < |ss| && CredentialAt(ss[c], e.key, e.m, e.credential) && Resolved(ss, c, e.key, e.m, e.ref);
    b :| b <= c < |ss| && ResolvedAt(ss[b], e.key, e.m, e.ref) && Read(ss, b, e.key, e.m);
    a :| a <= b < |ss| && ReadAt(ss[a], e.key, e.m);
  }

  // The client has the agent id, headers, emergency settings and target that
  // follow from the monitor at moment a, its ConfigMap at b and the secrets at
  // c, and from a workload f.
  ghost predicate BuiltFrom(client: ClientState, k: NamespacedName, f: Found, a: State, b: State, c: State) {
    && k in a.store.monitors
    && var m := a.store.monitors[k];
    && ResolvedAt(b, k, m, client.captured.target) && Discoverable(k, m, f)
    && client.captured == Captured(k, m.spec, client.captured.target)
    && Identifies(client.config, k, m, client.captured.target, f)
    && Authenticates(client.config.headers, m.spec, k.ns, c.store.secrets, c.defaultSecretKey)
  }

  // A monitor registered at moment i and not stopped until moment j has at j
  // the same live client, and its agent id, headers, emergency settings and
  // target are still those that follow from the cluster as it was at moments
  // a <= b <= c before i, whatever edits, secret rotations and Reconciles came
  // in between. At i and j Reconciles of other monitors may hold the mutex.
  lemma SnapshotFrozen(ss: seq<State>, acts: seq<Action>, i: nat, j: nat, k: NamespacedName)
    returns (a: nat, b: nat, c: nat, f: Found)
    requires Run(ss, acts) && i <= j < |ss| && Settled(ss[i], k) && Settled(ss[j], k)
    requires RegistryKey(k) in ss[i].registry.clients
    requires forall n :: |ss[i].trace| <= n < |ss[j].trace| ==> !(ss[j].trace[n].Stopped? && ss[j].trace[n].key == k)
    ensures RegistryKey(k) in ss[j].registry.clients
    ensures a <= b <= c < i
    ensures var id := ss[j].registry.clients[RegistryKey(k)];
            && id == ss[i].registry.clients[RegistryKey(k)]
            && id in ss[i].clients && id in ss[j].clients && ss[j].clients[id].live
            && SameSnapshot(ss[j].clients[id], ss[i].clients[id])
            && BuiltFrom(ss[j].clients[id], k, f, ss[a], ss[b], ss[c])
  {
    hide Enabled, Apply, BuildConfig, ResolvedAt, Discoverable, CredentialAt, Identifies, Authenticates, Headers;
    RegistryInvHolds(ss, acts, i);
    RegistryInvHolds(ss, acts, j);
    RunGrows(ss, acts, i, j);
    RegisteredIsHolder(ss[i], k);
    HolderKept(ss[i].trace, ss[j].trace, k);
    RegisteredIsHolder(ss[j], k);
    OriginInvHolds(ss, acts, i);
    var id := ss[i].registry.clients[RegistryKey(k)];
    var e :| e in ss[i].trace && MadeBy(id, ss[i].clients[id], e);
    var d;
    a, b, c, d := StartProvenance(ss, acts, i, e);
    f := e.found;
    BuildIdentifies(k, e.m, e.ref, f, e.credential);
    CredentialOf(ss[c], k, e.m, e.credential);
  }

  lemma CredentialOf(s: State, k: NamespacedName, m: Monitor, credential: Option<string>)
    requires CredentialAt(s, k, m, credential)
    ensures Authenticates(Headers(credential), m.spec, k.ns, s.store.secrets, s.defaultSecretKey)
  {
    HeadersAuthenticate(m.spec, k.ns, s.store.secrets, s.defaultSecretKey);
  }
}
