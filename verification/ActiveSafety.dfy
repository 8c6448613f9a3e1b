// An Active monitor has a live registered client, unless a cleanup of it
// overlapped with a Reconcile that had read it; and a run in which this happens.
module ActiveSafety {
  import opened Wrappers
  import opened Cluster
  import opened Discovery
  import opened Connection
  import opened Operator
  import opened RegistrySafety
  import StatusSafety

  ghost predicate Connected(s: State, k: NamespacedName) {
    && RegistryKey(k) in s.registry.clients
    && s.registry.clients[RegistryKey(k)] in s.clients
    && s.clients[s.registry.clients[RegistryKey(k)]].live
  }

  predicate PastEnsure(pc: Pc) {
    pc.Lookup? || pc.SendHealth? || pc.ReadConfig? || pc.SendConfig? || pc.Commit?
  }

  predicate Cleaning(pc: Pc) {
    pc.CleanLock? || pc.CleanStop? || pc.CleanClients? || pc.CleanStarted?
  }

  ghost predicate IsActive(store: Store, k: NamespacedName) {
    k in store.monitors && store.monitors[k].status.phase == "Active"
  }

  // A Reconcile that holds a copy of its monitor.
  predicate Holding(pc: Pc) {
    !pc.Fetch? && !Cleaning(pc)
  }

  // No Reconcile that found k deleted cleans up beside one that holds a copy
  // of k. Other Reconciles of k may overlap.
  ghost predicate CleanupAlone(s: State, k: NamespacedName) {
    forall p, q ::
      p in s.workers && q in s.workers && s.workers[p].key == k && s.workers[q].key == k && Cleaning(s.workers[p].pc)
      ==> !Holding(s.workers[q].pc)
  }

  ghost predicate ActiveInv(s: State, k: NamespacedName) {
    && (IsActive(s.store, k) ==> Connected(s, k))
    && (forall p :: p in s.workers && s.workers[p].key == k && PastEnsure(s.workers[p].pc) ==> Connected(s, k))
    && (forall p :: p in s.workers && s.workers[p].key == k && Cleaning(s.workers[p].pc) ==> !IsActive(s.store, k))
  }

  // A Reconcile that goes on past ensureOpAMPConnection is connected.
  lemma EntersConnected(s: State, p: Id, o: Outcome)
    requires RegistryInv(s) && WorkEnabled(s, p, o) && ActiveInv(s, s.workers[p].key)
    requires var next := Decide(s, s.workers[p], o).next; next.Some? && PastEnsure(next.value)
    ensures Connected(s, s.workers[p].key)
  {
    var pc, rk := s.workers[p].pc, RegistryKey(s.workers[p].key);
    if !PastEnsure(pc) {
      assert pc.EnsureLock? || pc.PutStarted?;
      assert Logical(s) == s.registry.clients;
      assert rk in s.registry.clients;
    }
  }

  lemma PerformKeeps(s: State, p: Id, key: NamespacedName, e: Effect, k: NamespacedName)
    requires Connected(s, k)
    requires e.StopClient? ==> e.c != s.registry.clients[RegistryKey(k)]
    requires e.ForgetClient? || e.RememberClient? ==> key != k
    requires e.StartClient? ==> e.c !in s.clients
    ensures Connected(Perform(s, p, key, e), k)
  {
    RegistryKeyInjective(k, key);
  }

  // Only cleanup disconnects, and only its own key.
  lemma OnlyCleanupDisconnects(s: State, p: Id, o: Outcome, k: NamespacedName)
    requires RegistryInv(s) && WorkEnabled(s, p, o) && Connected(s, k)
    requires Cleaning(s.workers[p].pc) ==> s.workers[p].key != k
    ensures Connected(ApplyWork(s, p, o), k)
  {
    hide BuildConfig, Credential, ConfigMapKey, Discover, LegalListing, ActiveStatus, RegistryKey;
    hide Holder, WellPaired;
    var w := s.workers[p];
    var e := Decide(s, w, o).effect;
    RegistryKeyInjective(k, w.key);
    OwnedByKey(s, k);
    if e.StopClient? {
      assert w.pc.CleanStop? && s.holder == Some(p);
      assert Logical(s) == s.registry.clients;
    } else if e.RememberClient? {
      assert w.pc.PutClient? && s.holder == Some(p);
    } else if e.ForgetClient? {
      assert w.pc.CleanClients?;
    }
    PerformKeeps(s, p, w.key, e, k);
    assert ApplyWork(s, p, o).clients == Perform(s, p, w.key, e).clients;
    assert ApplyWork(s, p, o).registry == Perform(s, p, w.key, e).registry;
  }

  // The client registered for a key that is connected is its own.
  lemma OwnedByKey(s: State, k: NamespacedName)
    requires RegistryInv(s) && Connected(s, k)
    ensures s.clients[s.registry.clients[RegistryKey(k)]].captured.owner == k
  {
    var rk := RegistryKey(k);
    var c := s.registry.clients[rk];
    RegistryKeyInjective(k, s.clients[c].captured.owner);
    assert rk in Logical(s) && Logical(s)[rk] == c;
  }

  lemma CleaningStarts(s: State, w: Worker, o: Outcome)
    requires Decide(s, w, o).next.Some? && Cleaning(Decide(s, w, o).next.value)
    ensures Cleaning(w.pc) || (w.pc.Fetch? && w.key !in s.store.monitors)
    ensures !PastEnsure(w.pc)
  {
  }

  lemma ActiveWork(s: State, p: Id, o: Outcome, k: NamespacedName)
    requires RegistryInv(s) && WorkEnabled(s, p, o) && ActiveInv(s, k) && CleanupAlone(s, k)
    ensures ActiveInv(ApplyWork(s, p, o), k)
  {
    hide BuildConfig, Credential, SecretExists, ConfigMapKey, Discover, LegalListing, ActiveStatus;
    hide RegistryKey, Holder, WellPaired, RegistryInv, Connected;
    var w, s' := s.workers[p], ApplyWork(s, p, o);
    var d := Decide(s, w, o);
    WorkStore(s, p, o);
    assert s'.workers == Moved(s.workers, p, w.key, d.next);
    assert d.effect.CommitStatus? ==> w.pc.Commit?;
    if Connected(s, k) && !(Cleaning(w.pc) && w.key == k) {
      OnlyCleanupDisconnects(s, p, o, k);
    }
    forall q | q in s'.workers && s'.workers[q].key == k && PastEnsure(s'.workers[q].pc)
      ensures Connected(s', k)
    {
      if q == p {
        EntersConnected(s, p, o);
        CleaningLeads(s, w, o);
      } else {
        assert Holding(s.workers[q].pc);
      }
    }
    forall q | q in s'.workers && s'.workers[q].key == k && Cleaning(s'.workers[q].pc)
      ensures !IsActive(s'.store, k)
    {
      if q == p {
        CleaningStarts(s, w, o);
      }
    }
  }

  lemma CleaningLeads(s: State, w: Worker, o: Outcome)
    ensures Cleaning(w.pc) && Decide(s, w, o).next.Some? ==> !PastEnsure(Decide(s, w, o).next.value)
  {
  }

  lemma ActiveOther(s: State, a: Action, k: NamespacedName)
    requires ActiveInv(s, k) && Enabled(s, a) && !a.Work?
    ensures ActiveInv(Apply(s, a), k)
  {
    OtherMonitors(s, a);
    var s' := Apply(s, a);
    if a.Handle? {
      HandlerFrame(s, a.h, a.o);
    } else {
      EnvironmentFrame(s, a);
    }
    assert Connected(s, k) <==> Connected(s', k);
    assert IsActive(s'.store, k) ==> IsActive(s.store, k);
  }

  lemma ActiveStep(s: State, a: Action, k: NamespacedName)
    requires RegistryInv(s) && ActiveInv(s, k) && CleanupAlone(s, k) && Enabled(s, a)
    ensures ActiveInv(Apply(s, a), k)
  {
    if a.Work? {
      ActiveWork(s, a.p, a.o, k);
    } else {
      ActiveOther(s, a, k);
    }
  }

  lemma {:induction false} ActiveInvHolds(ss: seq<State>, acts: seq<Action>, i: nat, k: NamespacedName)
    requires Run(ss, acts) && i < |ss| && forall n :: 0 <= n < i ==> CleanupAlone(ss[n], k)
    ensures ActiveInv(ss[i], k)
  {
    hide Enabled, Apply;
    if i > 0 {
      ActiveInvHolds(ss, acts, i - 1, k);
      RegistryInvHolds(ss, acts, i - 1);
      ActiveStep(ss[i - 1], acts[i - 1], k);
    }
  }

  // In every run, as long as no cleanup of a monitor coexists with a Reconcile
  // that has read it, the monitor if Active has a live registered client of its
  // own and a resolved ConfigMap in its own namespace, through deletions,
  // re-creations, edits, failing API calls and overlapping Reconciles.
  lemma ActiveImpliesLive(ss: seq<State>, acts: seq<Action>, i: nat, k: NamespacedName)
    requires Run(ss, acts) && i < |ss| && forall n :: 0 <= n < i ==> CleanupAlone(ss[n], k)
    requires IsActive(ss[i].store, k)
    ensures Connected(ss[i], k)
    ensures ss[i].clients[ss[i].registry.clients[RegistryKey(k)]].captured.owner == k
    ensures var ref := ss[i].store.monitors[k].status.configMapRef; ref.Some? && ref.value.at.ns == k.ns
  {
    hide Enabled, Apply;
    ActiveInvHolds(ss, acts, i, k);
    RegistryInvHolds(ss, acts, i);
    StatusSafety.StatusInvHolds(ss, acts, i);
    OwnedByKey(ss[i], k);
  }

  // The runtime's promise is more than enough.
  lemma ActiveImpliesLiveIfSerialised(ss: seq<State>, acts: seq<Action>, i: nat, k: NamespacedName)
    requires Run(ss, acts) && i < |ss| && forall n :: 0 <= n < i ==> Serialised(ss[n])
    requires IsActive(ss[i].store, k)
    ensures Connected(ss[i], k) && ss[i].clients[ss[i].registry.clients[RegistryKey(k)]].captured.owner == k
  {
    hide Enabled, Apply;
    assert forall n :: 0 <= n < i ==> CleanupAlone(ss[n], k);
    ActiveImpliesLive(ss, acts, i, k);
  }

  // Wherever a run has an Active monitor without a live registered client, a
  // cleanup of that monitor overlapped, at some earlier moment, with a
  // Reconcile that held a copy of it.
  lemma DisconnectedHasCause(ss: seq<State>, acts: seq<Action>, i: nat, k: NamespacedName)
    requires Run(ss, acts) && i < |ss| && IsActive(ss[i].store, k) && !Connected(ss[i], k)
    ensures exists n, p, q ::
      && 0 <= n < i && p in ss[n].workers && q in ss[n].workers
      && ss[n].workers[p].key == k && ss[n].workers[q].key == k
      && Cleaning(ss[n].workers[p].pc) && Holding(ss[n].workers[q].pc)
  {
    hide Enabled, Apply, Connected, IsActive;
    if forall n :: 0 <= n < i ==> CleanupAlone(ss[n], k) {
      ActiveImpliesLive(ss, acts, i, k);
    }
  }

  // ---------- when a cleanup overlaps ----------

  ghost predicate Reachable(s: State) {
    exists ss: seq<State>, acts: seq<Action> :: Run(ss, acts) && ss[|ss| - 1] == s
  }

  lemma Reach(s: State, a: Action)
    requires Reachable(s) && Enabled(s, a)
    ensures Reachable(Apply(s, a))
  {
    hide Enabled, Apply;
    var ss: seq<State>, acts: seq<Action> :| Run(ss, acts) && ss[|ss| - 1] == s;
    var ss', acts' := ss + [Apply(s, a)], acts + [a];
    assert forall i :: 0 <= i < |acts'| ==> Enabled(ss'[i], acts'[i]) && ss'[i + 1] == Apply(ss'[i], acts'[i]);
    assert Run(ss', acts');
  }

  ghost predicate Running(s: State) {
    Reachable(s) && !s.crashed
  }

  // One step of Reconcile p that only moves it on.
  lemma Moves(s: State, p: Id, w: Worker, o: Outcome, next: Pc) returns (t: State)
    requires Running(s) && p in s.workers && s.workers[p] == w
    requires WorkEnabled(s, p, o) && Decide(s, w, o) == Decision(Nothing, Some(next))
    ensures Running(t) && t == s.(workers := s.workers[p := Worker(w.key, next)])
  {
    Reach(s, Work(p, o));
    t := ApplyWork(s, p, o);
  }

  // One step that does more.
  lemma Acts(s: State, p: Id, w: Worker, o: Outcome, d: Decision) returns (t: State)
    requires Running(s) && p in s.workers && s.workers[p] == w
    requires WorkEnabled(s, p, o) && Decide(s, w, o) == d
    ensures Running(t) && t == Perform(s, p, w.key, d.effect).(workers := Moved(s.workers, p, w.key, d.next))
  {
    Reach(s, Work(p, o));
    t := ApplyWork(s, p, o);
  }

  // A monitor without a secret whose ConfigMap exists, with the answers that
  // lead to its workload.
  ghost predicate Plain(m: Monitor, ref: ConfigMapRef, found: Found, o: Outcome) {
    && m.spec.secretRef.None?
    && m.spec.configMapSelector == Some(ConfigMapSelector(ref.at.name, ref.key)) && ref.at.name != "" && ref.key != ""
    && o.ok && o.newClient == 0 && LegalListing(m.spec.workloadSelector, ref.at.ns, o.listing)
    && Discover(m.spec.workloadSelector, o.listing) == Success(found)
  }

  // From the reading of the monitor to the resolved ConfigMap.
  lemma Resolves(s: State, p: Id, k: NamespacedName, m: Monitor, ref: ConfigMapRef, found: Found, o: Outcome)
    returns (t: State)
    requires Running(s) && p in s.workers && s.workers[p] == Worker(k, FindWorkload(m))
    requires Plain(m, ref, found, o) && ref.at.ns == k.ns && ref.at in s.store.configMaps
    ensures Running(t) && t == s.(workers := s.workers[p := Worker(k, EnsureLock(m, ref, found))])
  {
    t := Moves(s, p, s.workers[p], o, FindConfigMap(m, found));
    assert NamespacedName(k.ns, ref.at.name) == ref.at;
    t := Moves(t, p, Worker(k, FindConfigMap(m, found)), o, EnsureLock(m, ref, found));
  }

  // Into the critical section, up to the started client.
  lemma Dials(s: State, p: Id, k: NamespacedName, m: Monitor, ref: ConfigMapRef, found: Found, o: Outcome)
    returns (t: State)
    requires Running(s) && p in s.workers && s.workers[p] == Worker(k, EnsureLock(m, ref, found))
    requires Plain(m, ref, found, o)
    requires s.holder.None? && s.registry == Registry(map[], map[]) && s.clients == map[]
    ensures Running(t) && t.holder == Some(p) && t.store == s.store && t.registry == s.registry
    ensures t.workers == s.workers[p := Worker(k, PutClient(m, ref, 0))]
  {
    hide BuildConfig, Discover, ConfigMapKey, ActiveStatus, RegistryKey, PutMonitor, Credential, Run;
    var credential := Credential(m.spec, k.ns, s.store.secrets, s.defaultSecretKey);
    t := Acts(s, p, s.workers[p], o, Decision(Acquire, Some(LoadAuth(m, ref, found))));
    t := Moves(t, p, Worker(k, LoadAuth(m, ref, found)), o, Dial(m, ref, found, credential));
    t := Acts(t, p, Worker(k, Dial(m, ref, found, credential)), o,
      Decision(StartClient(0, m, ref, found, credential), Some(PutClient(m, ref, 0))));
  }

  // Out of it, with the client registered.
  lemma Registers(s: State, p: Id, k: NamespacedName, m: Monitor, ref: ConfigMapRef, o: Outcome) returns (t: State)
    requires Running(s) && p in s.workers && s.workers[p] == Worker(k, PutClient(m, ref, 0))
    ensures Running(t) && t.holder.None? && t.store == s.store
    ensures t.workers == s.workers[p := Worker(k, Lookup(m, ref))]
    ensures RegistryKey(k) in t.registry.clients
  {
    hide BuildConfig, Discover, ConfigMapKey, ActiveStatus, RegistryKey, PutMonitor, LegalListing, Credential, Run;
    t := Acts(s, p, s.workers[p], o, Decision(RememberClient(0), Some(PutStarted(m, ref))));
    t := Acts(t, p, Worker(k, PutStarted(m, ref)), o, Decision(RememberStartedAndRelease, Some(Lookup(m, ref))));
  }

  // To the commit, with a failing health report.
  lemma Commits(s: State, p: Id, k: NamespacedName, m: Monitor, ref: ConfigMapRef, o: Outcome) returns (t: State)
    requires Running(s) && p in s.workers && s.workers[p] == Worker(k, Lookup(m, ref)) && o.ok
    requires s.holder.None? && RegistryKey(k) in s.registry.clients
    requires k in s.store.monitors && s.store.monitors[k].version == m.version
    ensures Running(t) && IsActive(t.store, k)
    ensures t.workers == s.workers - {p} && t.registry == s.registry && t.holder.None?
  {
    hide BuildConfig, Discover, ConfigMapKey, RegistryKey, LegalListing, Credential, Run;
    var c := s.registry.clients[RegistryKey(k)];
    t := Moves(s, p, s.workers[p], o, SendHealth(m, ref, c));
    t := Moves(t, p, Worker(k, SendHealth(m, ref, c)), o.(ok := false), Commit(m, ref));
    t := Acts(t, p, Worker(k, Commit(m, ref)), o, Decision(CommitStatus(m, ref, o.now), None));
  }

  // The late cleanup of another Reconcile.
  lemma Disconnects(s: State, p: Id, k: NamespacedName, o: Outcome) returns (t: State)
    requires Running(s) && p in s.workers && s.workers[p] == Worker(k, CleanLock)
    requires s.holder.None? && RegistryKey(k) in s.registry.clients
    ensures Running(t) && t.store == s.store && t.holder.None? && !Connected(t, k)
  {
    hide BuildConfig, Discover, ConfigMapKey, ActiveStatus, RegistryKey, PutMonitor, LegalListing, Credential, Run;
    var c := s.registry.clients[RegistryKey(k)];
    t := Acts(s, p, s.workers[p], o, Decision(Acquire, Some(CleanStop)));
    t := Acts(t, p, Worker(k, CleanStop), o, Decision(StopClient(c), Some(CleanClients)));
    t := Acts(t, p, Worker(k, CleanClients), o, Decision(ForgetClient, Some(CleanStarted)));
    t := Acts(t, p, Worker(k, CleanStarted), o, Decision(ForgetStartedAndRelease, None));
  }

  // One Reconcile finds no monitor.
  lemma Missing(k: NamespacedName, at: NamespacedName, o: Outcome) returns (t: State)
    requires o.ok
    ensures Running(t) && t.workers == map[0 := Worker(k, CleanLock)]
    ensures t.store == Store(map[], map[at := ConfigMap(map["k" := ""], 0)], map[], map[], 0)
    ensures t.registry == Registry(map[], map[]) && t.clients == map[] && t.holder.None?
  {
    var store := Store(map[], map[at := ConfigMap(map["k" := ""], 0)], map[], map[], 0);
    t := State(store, Registry(map[], map[]), None, map[], map[], map[], [], "", false);
    assert Run([t], []);
    assert [t][|[t]| - 1] == t;
    Reach(t, Spawn(0, k));
    t := Apply(t, Spawn(0, k));
    t := Moves(t, 0, Worker(k, Fetch), o, CleanLock);
  }

  // Then the monitor is created and a second Reconcile reads it.
  lemma Recreated(s: State, k: NamespacedName, spec: MonitorSpec, o: Outcome) returns (t: State, m: Monitor)
    requires Running(s) && o.ok && s.workers == map[0 := Worker(k, CleanLock)] && s.store.monitors == map[]
    ensures Running(t) && m.spec == spec && t.store.monitors == map[k := m] && t.store.configMaps == s.store.configMaps
    ensures t.workers == map[0 := Worker(k, CleanLock), 1 := Worker(k, FindWorkload(m))]
    ensures t.registry == s.registry && t.clients == s.clients && t.holder == s.holder
  {
    m := Monitor(map[], spec, NEW_STATUS, s.store.revision + 1);
    Reach(s, CreateMonitor(k, map[], spec));
    t := PutMonitor(s, k, m);
    Reach(t, Spawn(1, k));
    t := t.(workers := t.workers[1 := Worker(k, Fetch)]);
    t := Moves(t, 1, Worker(k, Fetch), o, FindWorkload(m));
  }

  // The overlap does break it: every monitor has a run that leaves it Active
  // without a registered client. A Reconcile that found it deleted cleans up
  // after a second one has read the new monitor, connected and committed.
  lemma LateCleanupDisconnects(k: NamespacedName)
    ensures exists s :: Reachable(s) && s.holder.None? && IsActive(s.store, k) && !Connected(s, k)
  {
    hide Reachable, Connected, IsActive, RegistryKey;
    var ref := ConfigMapRef(NamespacedName(k.ns, "c"), "k");
    var selector := WorkloadSelector(map[], "DaemonSet", "");
    var spec := MonitorSpec(selector, Some(ConfigMapSelector("c", "k")), "", None, None, None);
    var fleet := Workload(k.ns, "w", map[], map[]);
    var listing := Listing(Success([fleet]), Success([]), Success([]));
    var o, found := Outcome(true, false, listing, 0, "", 0), Found(fleet, "DaemonSet");
    assert Calls(listing)[0] == ListCall("DaemonSet", Success([fleet]));
    assert LegalListing(selector, k.ns, listing);
    SearchUnfolds(selector, listing);
    var s := Missing(k, ref.at, o);
    var m;
    s, m := Recreated(s, k, spec, o);
    assert Plain(m, ref, found, o);
    s := Resolves(s, 1, k, m, ref, found, o);
    s := Dials(s, 1, k, m, ref, found, o);
    s := Registers(s, 1, k, m, ref, o);
    s := Commits(s, 1, k, m, ref, o);
    s := Disconnects(s, 0, k, o);
  }
}
