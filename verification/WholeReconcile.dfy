// What a Reconcile amounts to, from its first read to its return, when nothing
// else runs between its steps.
module WholeReconcile {
  import opened Wrappers
  import opened Cluster
  import Conditions
  import opened Discovery
  import opened Connection
  import opened Operator
  import RegistrySafety
  import opened Uninterrupted

  // How its API calls and the sends of its client go.
  datatype Course = Course(
    okGet: bool, listing: Listing, okConfigMap: bool, connecting: Connecting, okHealth: bool, okRead: bool,
    okCommit: bool, lostCommit: bool, now: nat)

  function CourseOutcome(pc: Pc, how: Course): Outcome {
    if LockedStepsLeft(pc) > 0 then ConnectOutcome(pc, how.connecting)
    else match pc
      case Fetch => Outcome(how.okGet, false, NO_LISTING, 0, "", 0)
      case FindWorkload(_) => Outcome(true, false, how.listing, 0, "", 0)
      case FindConfigMap(_, _) => Outcome(how.okConfigMap, false, NO_LISTING, 0, "", 0)
      case SendHealth(_, _, _) => Outcome(how.okHealth, false, NO_LISTING, 0, "", 0)
      case ReadConfig(_, _, _) => Outcome(how.okRead, false, NO_LISTING, 0, "", 0)
      case Commit(_, _) => Outcome(how.okCommit, how.lostCommit, NO_LISTING, how.now, "", 0)
      case _ => Outcome(true, false, NO_LISTING, 0, "", 0)
  }

  // An upper bound on the steps to the return: 12 before the workload is looked
  // for, 10 before the connection, 5 before the report, 1 before the commit.
  function StepsLeft(pc: Pc): nat {
    match pc
    case Fetch => 13
    case FindWorkload(_) => 12
    case FindConfigMap(_, _) => 11
    case EnsureLock(_, _, _) => 10
    case LoadAuth(_, _, _) => 9
    case Dial(_, _, _, _) => 8
    case PutClient(_, _, _) => 7
    case PutStarted(_, _) => 6
    case CleanLock => 9
    case CleanStop => 8
    case CleanClients => 7
    case CleanStarted => 6
    case Lookup(_, _) => 5
    case SendHealth(_, _, _) => 4
    case ReadConfig(_, _, _) => 3
    case SendConfig(_, _, _, _) => 2
    case Commit(_, _) => 1
  }

  ghost function StepOf(s: State, p: Id, how: Course): State
    requires p in s.workers
  {
    ApplyWork(s, p, CourseOutcome(s.workers[p].pc, how))
  }

  lemma StepsGoDown(s: State, p: Id, how: Course)
    requires p in s.workers
    ensures var t := StepOf(s, p, how);
            p in t.workers ==> StepsLeft(t.workers[p].pc) < StepsLeft(s.workers[p].pc)
  {
    hide Perform, BuildConfig, RegistryKey, Credential, SecretExists, Discover, ConfigMapKey;
  }

  function StepsOf(s: State, p: Id): nat {
    if p in s.workers then StepsLeft(s.workers[p].pc) else 0
  }

  // The Reconcile, step after step, until at most low steps are left.
  ghost function RunDown(s: State, p: Id, how: Course, low: nat): State
    decreases StepsOf(s, p)
  {
    if StepsOf(s, p) <= low then s
    else
      StepsGoDown(s, p, how);
      RunDown(StepOf(s, p, how), p, how, low)
  }

  lemma {:induction false} RunDownThen(s: State, p: Id, how: Course, low: nat, lower: nat)
    requires lower <= low
    ensures RunDown(s, p, how, lower) == RunDown(RunDown(s, p, how, low), p, how, lower)
    decreases StepsOf(s, p)
  {
    hide StepOf;
    if StepsOf(s, p) > low {
      StepsGoDown(s, p, how);
      RunDownThen(StepOf(s, p, how), p, how, low, lower);
    }
  }

  // Through the critical section it takes the steps that RunLocked takes.
  lemma {:induction false} RunDownLocked(s: State, p: Id, how: Course)
    requires p in s.workers && LockedStepsLeft(s.workers[p].pc) > 0
    ensures RunDown(s, p, how, 5) == RunLocked(s, p, how.connecting)
    decreases StepsOf(s, p)
  {
    hide ApplyWork;
    var t := StepOf(s, p, how);
    StepsGoDown(s, p, how);
    LockedLeads(s, p, how);
    assert t == LockedStep(s, p, how.connecting);
    if p in t.workers && LockedStepsLeft(t.workers[p].pc) > 0 {
      RunDownLocked(t, p, how);
    }
  }

  lemma LockedLeads(s: State, p: Id, how: Course)
    requires p in s.workers && LockedStepsLeft(s.workers[p].pc) > 0
    ensures var t := StepOf(s, p, how);
            p in t.workers ==> LockedStepsLeft(t.workers[p].pc) > 0 || t.workers[p].pc.Lookup?
  {
    hide Perform, BuildConfig, RegistryKey, Credential, SecretExists, Discover, ConfigMapKey;
  }

  // ---------- its parts ----------

  lemma FetchRuns(s: State, p: Id, how: Course)
    requires p in s.workers && s.workers[p].pc.Fetch?
    ensures var key := s.workers[p].key;
            RunDown(s, p, how, 12) ==
              if !how.okGet then s.(workers := s.workers - {p})
              else if key in s.store.monitors
              then s.(workers := s.workers[p := Worker(key, FindWorkload(s.store.monitors[key]))])
              else s.(workers := s.workers[p := Worker(key, CleanLock)])
  {
    var t := StepOf(s, p, how);
    assert RunDown(t, p, how, 12) == t;
  }

  // The ConfigMap that a monitor selects and the key to take there.
  ghost predicate Selects(m: Monitor, ns: Name, store: Store, ref: ConfigMapRef) {
    && m.spec.configMapSelector.Some? && m.spec.configMapSelector.value.name != ""
    && ref.at == NamespacedName(ns, m.spec.configMapSelector.value.name) && ref.at in store.configMaps
    && var data := store.configMaps[ref.at].data;
       ref.key == if m.spec.configMapSelector.value.key != "" then m.spec.configMapSelector.value.key
                  else if "relay.yaml" in data then "relay.yaml"
                  else if "config.yaml" in data then "config.yaml"
                  else if "otelcol.yaml" in data then "otelcol.yaml"
                  else "config.yaml"
  }

  // Discovery of the workload and then of the ConfigMap: it goes on with what
  // was found, or returns without having changed anything.
  lemma ResolveRuns(s: State, p: Id, how: Course)
    requires p in s.workers && s.workers[p].pc.FindWorkload?
    ensures var Worker(key, FindWorkload(m)) := s.workers[p];
            var found, t := Discover(m.spec.workloadSelector, how.listing), RunDown(s, p, how, 10);
            && (found.Success? && how.okConfigMap && (exists ref :: Selects(m, key.ns, s.store, ref)) ==>
                  exists ref ::
                    && Selects(m, key.ns, s.store, ref)
                    && t == s.(workers := s.workers[p := Worker(key, EnsureLock(m, ref, found.value))]))
            && (!(found.Success? && how.okConfigMap && exists ref :: Selects(m, key.ns, s.store, ref)) ==>
                  t == s.(workers := s.workers - {p}))
  {
    hide Discover, ConfigMapKey, RegistryKey, BuildConfig;
    var Worker(key, FindWorkload(m)) := s.workers[p];
    var t := StepOf(s, p, how);
    assert RunDown(s, p, how, 10) == RunDown(t, p, how, 10);
    if p in t.workers {
      FindConfigMapRuns(t, p, how);
      assert t.workers - {p} == s.workers - {p};
      assert forall pc :: t.workers[p := Worker(key, pc)] == s.workers[p := Worker(key, pc)];
    }
  }

  lemma FindConfigMapRuns(s: State, p: Id, how: Course)
    requires p in s.workers && s.workers[p].pc.FindConfigMap?
    ensures var Worker(key, FindConfigMap(m, found)) := s.workers[p];
            var t := RunDown(s, p, how, 10);
            && (how.okConfigMap && (exists ref :: Selects(m, key.ns, s.store, ref)) ==>
                  exists ref ::
                    && Selects(m, key.ns, s.store, ref)
                    && t == s.(workers := s.workers[p := Worker(key, EnsureLock(m, ref, found))]))
            && (!(how.okConfigMap && exists ref :: Selects(m, key.ns, s.store, ref)) ==>
                  t == s.(workers := s.workers - {p}))
  {
    hide ConfigMapKey, RegistryKey, BuildConfig;
    var Worker(key, FindConfigMap(m, found)) := s.workers[p];
    var t := StepOf(s, p, how);
    assert RunDown(t, p, how, 10) == t;
    var sel := m.spec.configMapSelector;
    if sel.Some? && sel.value.name != "" {
      var at := NamespacedName(key.ns, sel.value.name);
      if at in s.store.configMaps {
        var ref := ConfigMapRef(at, ConfigMapKey(sel, s.store.configMaps[at].data));
        ConfigMapKeyIs(sel, s.store.configMaps[at].data);
        assert Selects(m, key.ns, s.store, ref);
      }
    }
  }

  // The report: a monitor without a client, or whose health cannot be sent, or
  // whose ConfigMap or key cannot be read, is not told of; else its client now
  // answers with the text that the ConfigMap holds under the resolved key.
  lemma ReportRuns(s: State, p: Id, how: Course)
    requires p in s.workers && s.workers[p].pc.Lookup?
    ensures var Worker(key, Lookup(m, ref)) := s.workers[p];
            var done, rk := s.workers[p := Worker(key, Commit(m, ref))], key.ns + "/" + key.name;
            RunDown(s, p, how, 1) ==
              if && rk in s.registry.clients && s.registry.clients[rk] in s.clients && how.okHealth && how.okRead
                 && ref.at in s.store.configMaps && ref.key in s.store.configMaps[ref.at].data
              then
                var c, yaml := s.registry.clients[rk], s.store.configMaps[ref.at].data[ref.key];
                s.(workers := done, clients := s.clients[c := s.clients[c].(effectiveConfig := yaml)],
                   trace := s.trace + [Reported(c, yaml)])
              else s.(workers := done)
  {
    hide Discover, ConfigMapKey, BuildConfig, Credential, SecretExists, ActiveStatus;
    var Worker(key, Lookup(m, ref)) := s.workers[p];
    var t := StepOf(s, p, how);
    RegistryKeyInjective(key, key);
    assert RunDown(s, p, how, 1) == RunDown(t, p, how, 1);
    if RegistryKey(key) in s.registry.clients {
      HealthRuns(t, p, how);
      assert t.workers[p := Worker(key, Commit(m, ref))] == s.workers[p := Worker(key, Commit(m, ref))];
    } else {
      assert RunDown(t, p, how, 1) == t;
    }
  }

  lemma HealthRuns(s: State, p: Id, how: Course)
    requires p in s.workers && s.workers[p].pc.SendHealth?
    ensures var Worker(key, SendHealth(m, ref, c)) := s.workers[p];
            var done := s.workers[p := Worker(key, Commit(m, ref))];
            RunDown(s, p, how, 1) ==
              if && c in s.clients && how.okHealth && how.okRead
                 && ref.at in s.store.configMaps && ref.key in s.store.configMaps[ref.at].data
              then
                var yaml := s.store.configMaps[ref.at].data[ref.key];
                s.(workers := done, clients := s.clients[c := s.clients[c].(effectiveConfig := yaml)],
                   trace := s.trace + [Reported(c, yaml)])
              else s.(workers := done)
  {
    hide Discover, ConfigMapKey, BuildConfig, Credential, SecretExists, ActiveStatus, RegistryKey;
    var Worker(key, SendHealth(m, ref, c)) := s.workers[p];
    var t := StepOf(s, p, how);
    assert RunDown(s, p, how, 1) == RunDown(t, p, how, 1);
    if how.okHealth {
      ReadRuns(t, p, how);
      assert t.workers[p := Worker(key, Commit(m, ref))] == s.workers[p := Worker(key, Commit(m, ref))];
    } else {
      assert RunDown(t, p, how, 1) == t;
    }
  }

  lemma ReadRuns(s: State, p: Id, how: Course)
    requires p in s.workers && s.workers[p].pc.ReadConfig?
    ensures var Worker(key, ReadConfig(m, ref, c)) := s.workers[p];
            var done := s.workers[p := Worker(key, Commit(m, ref))];
            RunDown(s, p, how, 1) ==
              if && c in s.clients && how.okRead
                 && ref.at in s.store.configMaps && ref.key in s.store.configMaps[ref.at].data
              then
                var yaml := s.store.configMaps[ref.at].data[ref.key];
                s.(workers := done, clients := s.clients[c := s.clients[c].(effectiveConfig := yaml)],
                   trace := s.trace + [Reported(c, yaml)])
              else s.(workers := done)
  {
    hide Discover, ConfigMapKey, BuildConfig, Credential, SecretExists, ActiveStatus, RegistryKey;
    var Worker(key, ReadConfig(m, ref, c)) := s.workers[p];
    var t := StepOf(s, p, how);
    assert RunDown(s, p, how, 1) == RunDown(t, p, how, 1);
    if t.workers[p].pc.SendConfig? {
      var u := StepOf(t, p, how);
      assert RunDown(t, p, how, 1) == RunDown(u, p, how, 1) == u;
      assert t.workers[p := Worker(key, Commit(m, ref))] == s.workers[p := Worker(key, Commit(m, ref))];
    } else {
      assert RunDown(t, p, how, 1) == t;
    }
  }

  // The commit: unless the write is refused or lost without effect, the stored
  // monitor, if it is still the version that was read, becomes Active with the
  // resolved reference and the condition Active.
  lemma CommitRuns(s: State, p: Id, how: Course)
    requires p in s.workers && s.workers[p].pc.Commit?
    ensures var Worker(key, Commit(m, ref)) := s.workers[p];
            RunDown(s, p, how, 0) ==
              if (how.okCommit || how.lostCommit) && key in s.store.monitors
                && s.store.monitors[key].version == m.version
              then s.(workers := s.workers - {p}, store := Committed(s.store, key, m, ref, how.now))
              else s.(workers := s.workers - {p})
  {
    hide Conditions.Upserted, Discover, ConfigMapKey, BuildConfig, Credential, SecretExists, RegistryKey;
    var t := StepOf(s, p, how);
    assert RunDown(t, p, how, 0) == t;
  }

  ghost function Committed(store: Store, key: NamespacedName, m: Monitor, ref: ConfigMapRef, now: nat): Store
    requires key in store.monitors
  {
    var call := Conditions.Call(now, "Active", true, "Monitoring collector fleet");
    var status := Status("Active", Some(ref), Conditions.Upserted(m.status.conditions, call));
    store.(monitors := store.monitors[key := store.monitors[key].(status := status, version := store.revision + 1)],
           revision := store.revision + 1)
  }

  // ---------- the whole ----------

  // What the Reconcile must not be blocked by, and what List returns.
  ghost predicate Unblocked(s: State, p: Id, how: Course) {
    && !s.crashed
    && (p in s.workers ==>
          var w := s.workers[p];
          && (!InCritical(w.pc) ==> s.holder.None?)
          && (StepsLeft(w.pc) >= 8 && !w.pc.CleanLock? && !w.pc.CleanStop? ==> how.connecting.newClient !in s.clients)
          && (w.pc.Fetch? && w.key in s.store.monitors ==>
                LegalListing(s.store.monitors[w.key].spec.workloadSelector, w.key.ns, how.listing))
          && (w.pc.FindWorkload? ==> LegalListing(w.pc.m.spec.workloadSelector, w.key.ns, how.listing)))
  }

  lemma StaysUnblocked(s: State, p: Id, how: Course)
    requires p in s.workers && Unblocked(s, p, how)
    ensures WorkEnabled(s, p, CourseOutcome(s.workers[p].pc, how)) && Unblocked(StepOf(s, p, how), p, how)
  {
    hide BuildConfig, RegistryKey, Credential, SecretExists, Discover, ConfigMapKey, LegalListing, ActiveStatus;
    hide Decide, Perform;
    hide StepOf;
    LeavesMutex(s, p, how);
    NotCrashing(s, p, how);
    KeepsFresh(s, p, how);
    ListsAlike(s, p, how);
  }

  lemma LeavesMutex(s: State, p: Id, how: Course)
    requires p in s.workers && (!InCritical(s.workers[p].pc) ==> s.holder.None?)
    ensures var t := StepOf(s, p, how); p in t.workers && !InCritical(t.workers[p].pc) ==> t.holder.None?
  {
    hide BuildConfig, RegistryKey, Credential, SecretExists, Discover, ConfigMapKey, ActiveStatus;
  }

  lemma NotCrashing(s: State, p: Id, how: Course)
    requires p in s.workers
    ensures StepOf(s, p, how).crashed == s.crashed
  {
    hide BuildConfig, RegistryKey, ActiveStatus, Decide;
  }

  lemma KeepsFresh(s: State, p: Id, how: Course)
    requires p in s.workers
    ensures var t := StepOf(s, p, how);
            p in t.workers && StepsLeft(t.workers[p].pc) >= 8 && !t.workers[p].pc.CleanLock?
              && !t.workers[p].pc.CleanStop?
            ==> StepsLeft(s.workers[p].pc) >= 8 && !s.workers[p].pc.CleanLock? && !s.workers[p].pc.CleanStop?
                && t.clients == s.clients
  {
    hide BuildConfig, RegistryKey, Credential, SecretExists, Discover, ConfigMapKey, ActiveStatus;
  }

  lemma ListsAlike(s: State, p: Id, how: Course)
    requires p in s.workers
    ensures var t := StepOf(s, p, how);
            p in t.workers ==>
              && !t.workers[p].pc.Fetch? && t.workers[p].key == s.workers[p].key
              && (t.workers[p].pc.FindWorkload? ==>
                    s.workers[p].pc.Fetch? && s.workers[p].key in s.store.monitors
                    && t.workers[p].pc.m == s.store.monitors[s.workers[p].key])
  {
    hide BuildConfig, RegistryKey, Credential, SecretExists, Discover, ConfigMapKey, ActiveStatus, Perform;
  }

  // These steps are enabled one after the other: they are part of runs.
  lemma {:induction false} RunDownIsPath(s: State, p: Id, how: Course, low: nat) returns (acts: seq<Action>)
    requires Unblocked(s, p, how)
    ensures Path(s, acts, RunDown(s, p, how, low))
    ensures forall a :: a in acts ==> a.Work? && a.p == p
    decreases StepsOf(s, p)
  {
    hide Unblocked, ApplyWork, WorkEnabled;
    if StepsOf(s, p) <= low {
      acts := [];
    } else {
      var a, t := Work(p, CourseOutcome(s.workers[p].pc, how)), StepOf(s, p, how);
      StepsGoDown(s, p, how);
      StaysUnblocked(s, p, how);
      NotCrashed(s, p, how);
      assert Enabled(s, a) && Apply(s, a) == t;
      var rest := RunDownIsPath(t, p, how, low);
      PathExtended(s, a, rest, RunDown(t, p, how, low));
      acts := [a] + rest;
    }
  }

  lemma NotCrashed(s: State, p: Id, how: Course)
    requires Unblocked(s, p, how)
    ensures !s.crashed
  {
  }

  // Discovery succeeds with this workload and this reference.
  ghost predicate Finds(s: State, m: Monitor, ns: Name, how: Course, ref: ConfigMapRef, found: Found) {
    && how.okConfigMap && Discover(m.spec.workloadSelector, how.listing) == Success(found)
         && Selects(m, ns, s.store, ref)
  }

  // The key has no client yet and cannot be given one.
  ghost predicate CannotConnect(s: State, key: NamespacedName, m: Monitor, how: Connecting) {
    && !IsStarted(s.registry, key.ns + "/" + key.name)
    && (|| !how.okStart
        || (m.spec.secretRef.Some?
            && var ref := m.spec.secretRef.value;
               !how.okSecret || SecretId(if ref.ns == "" then key.ns else ref.ns, ref.name) !in s.store.secrets))
  }

  // A live client made from what was read.
  ghost predicate IsNew(client: ClientState, s: State, key: NamespacedName, m: Monitor, ref: ConfigMapRef,
                        found: Found) {
    && client.live && client.captured == Captured(key, m.spec, ref)
    && Identifies(client.config, key, m, ref, found)
    && Authenticates(client.config.headers, m.spec, key.ns, s.store.secrets, s.defaultSecretKey)
  }

  // A Reconcile of a stored monitor that gets through: the key has a client,
  // the one it had or a new live one made from what was read; if the report
  // gets through, the client answers with the text under the resolved key; and
  // the commit, if it takes effect, stores what was resolved.
  ghost predicate Through(s: State, t: State, p: Id, key: NamespacedName, m: Monitor, ref: ConfigMapRef, found: Found,
                          how: Course)
    requires ref.at in s.store.configMaps && key in s.store.monitors
  {
    var rk := key.ns + "/" + key.name;
    && t.workers == s.workers - {p} && t.holder.None?
    && rk in t.registry.clients && IsStarted(t.registry, rk) && t.registry.clients[rk] in t.clients
    && var c := t.registry.clients[rk];
    && (if IsStarted(s.registry, rk) then t.registry == s.registry
        else c == how.connecting.newClient && IsNew(t.clients[c], s, key, m, ref, found))
    && (how.okHealth && how.okRead && ref.key in s.store.configMaps[ref.at].data ==>
          t.clients[c].effectiveConfig == s.store.configMaps[ref.at].data[ref.key])
    && t.store == if how.okCommit || how.lostCommit then Committed(s.store, key, m, ref, how.now) else s.store
  }

  // Every Reconcile that runs without interruption: nothing changes if the
  // monitor cannot be read, or discovery fails, or no client can be connected;
  // a deleted monitor is cleaned up; any other Reconcile gets through.
  lemma ReconcileAmounts(s: State, p: Id, how: Course)
    requires RegistrySafety.RegistryInv(s) && s.holder.None? && p in s.workers && s.workers[p].pc.Fetch?
    requires how.connecting.newClient !in s.clients
    ensures var key, t := s.workers[p].key, RunDown(s, p, how, 0);
            if !how.okGet then t == s.(workers := s.workers - {p})
            else if key !in s.store.monitors then t == Cleaned(s, p)
            else
              var m := s.store.monitors[key];
              if || (forall ref, found :: !Finds(s, m, key.ns, how, ref, found))
                 || CannotConnect(s, key, m, how.connecting)
              then t == s.(workers := s.workers - {p})
              else
                exists ref, found ::
                  Finds(s, m, key.ns, how, ref, found) && Through(s, t, p, key, m, ref, found, how)
  {
    hide RunDown, Cleaned, Through, CannotConnect, RegistrySafety.RegistryInv;
    var key := s.workers[p].key;
    var t1 := RunDown(s, p, how, 12);
    RunDownThen(s, p, how, 12, 0);
    FetchRuns(s, p, how);
    if !how.okGet {
      Returned(t1, p, how);
    } else if key !in s.store.monitors {
      CleansUp(s, t1, p, how);
    } else {
      var m := s.store.monitors[key];
      var t2 := RunDown(t1, p, how, 10);
      RunDownThen(t1, p, how, 10, 0);
      ResolveRuns(t1, p, how);
      if found: Found, ref :| Finds(s, m, key.ns, how, ref, found) {
        var r :|
          Selects(m, key.ns, s.store, r) && t2 == t1.(workers := t1.workers[p := Worker(key, EnsureLock(m, r, found))]);
        assert t2 == s.(workers := s.workers[p := Worker(key, EnsureLock(m, r, found))]);
        Connects(s, t2, p, key, m, r, found, how);
        assert Finds(s, m, key.ns, how, r, found);
      } else {
        Unfound(s, m, key.ns, how);
        assert t1.workers - {p} == s.workers - {p};
        Returned(t2, p, how);
      }
    }
  }

  lemma Unfound(s: State, m: Monitor, ns: Name, how: Course)
    requires forall ref, found :: !Finds(s, m, ns, how, ref, found)
    ensures !(Discover(m.spec.workloadSelector, how.listing).Success? && how.okConfigMap
              && exists ref :: Selects(m, ns, s.store, ref))
  {
    var r := Discover(m.spec.workloadSelector, how.listing);
    if r.Success? && how.okConfigMap {
      forall ref
        ensures !Selects(m, ns, s.store, ref)
      {
        assert !Finds(s, m, ns, how, ref, r.value);
      }
    }
  }

  lemma Returned(s: State, p: Id, how: Course)
    requires p !in s.workers
    ensures RunDown(s, p, how, 0) == s
  {
  }

  lemma CleansUp(s: State, t: State, p: Id, how: Course)
    requires p in s.workers && s.holder.None? && t == s.(workers := s.workers[p := Worker(s.workers[p].key, CleanLock)])
    ensures RunDown(t, p, how, 0) == Cleaned(s, p)
  {
    hide RunDown, RunLocked, RegistryKey;
    RunDownThen(t, p, how, 5, 0);
    RunDownLocked(t, p, how);
    CleanedIsRun(t, p, how.connecting);
    assert t.workers - {p} == s.workers - {p};
    Returned(Cleaned(t, p), p, how);
  }

  lemma RegisteredClient(s: State, rk: string)
    requires RegistrySafety.RegistryInv(s) && s.holder.None? && IsStarted(s.registry, rk)
    ensures rk in s.registry.clients && s.registry.clients[rk] in s.clients
  {
    assert RegistrySafety.Logical(s) == s.registry.clients;
  }

  // The state after the connection.
  ghost predicate HasClient(s: State, u: State, key: NamespacedName, m: Monitor, ref: ConfigMapRef, found: Found,
                            how: Course) {
    var rk := key.ns + "/" + key.name;
    && u.store == s.store && u.holder.None?
    && rk in u.registry.clients && IsStarted(u.registry, rk) && u.registry.clients[rk] in u.clients
    && var c := u.registry.clients[rk];
       if IsStarted(s.registry, rk) then u.registry == s.registry
       else c == how.connecting.newClient && IsNew(u.clients[c], s, key, m, ref, found)
  }

  lemma ClientAfter(s: State, t: State, p: Id, key: NamespacedName, m: Monitor, ref: ConfigMapRef, found: Found,
                    how: Course)
    requires RegistrySafety.RegistryInv(s) && s.holder.None? && p in s.workers
    requires t == s.(workers := s.workers[p := Worker(key, EnsureLock(m, ref, found))])
    requires !CannotConnect(s, key, m, how.connecting)
    ensures var u := Ensured(t, p, how.connecting);
            HasClient(s, u, key, m, ref, found, how) && u.workers == s.workers[p := Worker(key, Lookup(m, ref))]
  {
    hide BuildConfig, Credential, Headers, Identifies, Authenticates, RegistrySafety.RegistryInv;
    var rk := key.ns + "/" + key.name;
    RegistryKeyInjective(key, key);
    var u := Ensured(t, p, how.connecting);
    assert t.workers[p := Worker(key, Lookup(m, ref))] == s.workers[p := Worker(key, Lookup(m, ref))];
    if IsStarted(s.registry, rk) {
      RegisteredClient(s, rk);
    } else {
      var credential := Credential(m.spec, key.ns, s.store.secrets, s.defaultSecretKey);
      BuildIdentifies(key, m, ref, found, credential);
      HeadersAuthenticate(m.spec, key.ns, s.store.secrets, s.defaultSecretKey);
    }
  }

  // The report and the commit.
  lemma ReportsAndCommits(s: State, u: State, p: Id, key: NamespacedName, m: Monitor, ref: ConfigMapRef, found: Found,
                          how: Course)
    requires HasClient(s, u, key, m, ref, found, how) && u.workers == s.workers[p := Worker(key, Lookup(m, ref))]
    requires ref.at in s.store.configMaps && key in s.store.monitors && s.store.monitors[key] == m
    ensures Through(s, RunDown(u, p, how, 0), p, key, m, ref, found, how)
  {
    hide RunDown, Identifies, Authenticates, BuildConfig, Committed;
    var v := RunDown(u, p, how, 1);
    RunDownThen(u, p, how, 1, 0);
    ReportRuns(u, p, how);
    CommitRuns(v, p, how);
    assert v.workers - {p} == s.workers - {p};
  }

  // From the critical section on.
  lemma Connects(s: State, t: State, p: Id, key: NamespacedName, m: Monitor, ref: ConfigMapRef, found: Found,
                 how: Course)
    requires RegistrySafety.RegistryInv(s) && s.holder.None? && p in s.workers && how.connecting.newClient !in s.clients
    requires t == s.(workers := s.workers[p := Worker(key, EnsureLock(m, ref, found))])
    requires ref.at in s.store.configMaps && key in s.store.monitors && s.store.monitors[key] == m
    ensures if CannotConnect(s, key, m, how.connecting) then RunDown(t, p, how, 0) == s.(workers := s.workers - {p})
            else Through(s, RunDown(t, p, how, 0), p, key, m, ref, found, how)
  {
    hide RunDown, Selects, Discover, BuildConfig, Credential, Headers, Identifies, Authenticates;
    hide RegistrySafety.RegistryInv;
    RegistryKeyInjective(key, key);
    RunDownThen(t, p, how, 5, 0);
    RunDownLocked(t, p, how);
    EnsuredIsRun(t, p, how.connecting);
    var u := Ensured(t, p, how.connecting);
    if CannotConnect(s, key, m, how.connecting) {
      assert t.workers - {p} == s.workers - {p};
      Returned(u, p, how);
    } else {
      ClientAfter(s, t, p, key, m, ref, found, how);
      ReportsAndCommits(s, u, p, key, m, ref, found, how);
    }
  }
}
