// What the operator commits to the status of its monitors, in every run.
module StatusSafety {
  import opened Wrappers
  import opened Cluster
  import opened Conditions
  import opened Discovery
  import Connection
  import opened Operator

  function LocalMonitor(pc: Pc): Option<Monitor> {
    if pc.Fetch? || pc.CleanLock? || pc.CleanStop? || pc.CleanClients? || pc.CleanStarted? then None else Some(pc.m)
  }

  function LocalRef(pc: Pc): Option<ConfigMapRef> {
    if LocalMonitor(pc).None? || pc.FindWorkload? || pc.FindConfigMap? then None else Some(pc.ref)
  }

  function ActiveCondition(time: nat): Condition {
    Condition("Active", true, time, "ActiveSucceeded", "Monitoring collector fleet")
  }

  // The two kinds of status a monitor can have: untouched, or Active with a
  // reference into its own namespace and the condition Active alone.
  ghost predicate ActiveIn(st: Status, ns: Name) {
    && st.phase == "Active"
    && st.configMapRef.Some? && st.configMapRef.value.at.ns == ns
    && exists t :: st.conditions == [ActiveCondition(t)]
  }

  ghost predicate WellFormed(st: Status, ns: Name) {
    st == NEW_STATUS || ActiveIn(st, ns)
  }

  ghost predicate StatusInv(s: State) {
    && (forall k :: k in s.store.monitors ==>
          WellFormed(s.store.monitors[k].status, k.ns) && s.store.monitors[k].version <= s.store.revision)
    && (forall p :: p in s.workers ==> LocalInv(s.store, s.workers[p]))
  }

  // The local copy is well formed, and as long as its version is the stored
  // one it is the stored monitor.
  ghost predicate LocalInv(store: Store, w: Worker) {
    && (LocalMonitor(w.pc).Some? ==>
          var m := LocalMonitor(w.pc).value;
          && WellFormed(m.status, w.key.ns) && m.version <= store.revision
          && (w.key in store.monitors && store.monitors[w.key].version == m.version ==> store.monitors[w.key] == m))
    && (LocalRef(w.pc).Some? ==> LocalRef(w.pc).value.at.ns == w.key.ns)
  }

  // Setting the condition Active again changes nothing.
  lemma ActiveUpsert(st: Status, ns: Name, now: nat)
    requires WellFormed(st, ns)
    ensures var cs := Upserted(st.conditions, Call(now, "Active", true, "Monitoring collector fleet"));
            && (st == NEW_STATUS ==> cs == [ActiveCondition(now)])
            && (ActiveIn(st, ns) ==> cs == st.conditions)
  {
    assert ReasonOf("Active", true) == "ActiveSucceeded";
  }

  lemma DecisionLocal(s: State, w: Worker, o: Outcome)
    requires StatusInv(s) && LocalInv(s.store, w)
    ensures Decide(s, w, o).next.Some? ==> LocalInv(s.store, w.(pc := Decide(s, w, o).next.value))
  {
  }

  // Any write of a monitor takes a version no local copy has.
  lemma PutKeeps(s: State, key: NamespacedName, m: Monitor)
    requires StatusInv(s) && WellFormed(m.status, key.ns)
    ensures StatusInv(PutMonitor(s, key, m))
  {
  }

  lemma StatusMoves(s: State, p: Id, key: NamespacedName, next: Option<Pc>)
    requires StatusInv(s) && (next.Some? ==> LocalInv(s.store, Worker(key, next.value)))
    ensures StatusInv(s.(workers := Moved(s.workers, p, key, next)))
  {
    hide LocalInv, WellFormed;
  }

  lemma StatusWork(s: State, p: Id, o: Outcome)
    requires StatusInv(s) && WorkEnabled(s, p, o)
    ensures StatusInv(ApplyWork(s, p, o))
  {
    hide Decide, Perform, Upserted, RegistryKey;
    var w := s.workers[p];
    var d := Decide(s, w, o);
    var s1 := s.(workers := Moved(s.workers, p, w.key, d.next));
    DecisionLocal(s, w, o);
    StatusMoves(s, p, w.key, d.next);
    WorkStore(s, p, o);
    if d.effect.CommitStatus? {
      var committed := s.store.monitors[w.key].(status := ActiveStatus(d.effect.m, d.effect.ref, d.effect.now));
      ActiveCommit(w.key, d.effect.m, d.effect.ref, d.effect.now);
      PutKeeps(s1, w.key, committed);
      SameStore(PutMonitor(s1, w.key, committed), ApplyWork(s, p, o));
    } else {
      SameStore(s1, ApplyWork(s, p, o));
    }
  }

  lemma ActiveCommit(key: NamespacedName, m: Monitor, ref: ConfigMapRef, now: nat)
    requires WellFormed(m.status, key.ns) && ref.at.ns == key.ns
    ensures ActiveIn(ActiveStatus(m, ref, now), key.ns)
  {
    hide Upserted;
    ActiveUpsert(m.status, key.ns, now);
  }

  lemma SameStore(s: State, t: State)
    requires StatusInv(s) && s.store == t.store && s.workers == t.workers
    ensures StatusInv(t)
  {
    hide LocalInv, WellFormed;
  }

  lemma StatusStep(s: State, a: Action)
    requires StatusInv(s) && Enabled(s, a)
    ensures StatusInv(Apply(s, a))
  {
    match a
    case Work(p, o) => StatusWork(s, p, o);
    case CreateMonitor(key, labels, spec) => PutKeeps(s, key, Monitor(labels, spec, NEW_STATUS, 0));
    case EditMonitor(key, labels, spec) => PutKeeps(s, key, s.store.monitors[key].(labels := labels, spec := spec));
    case _ => StatusOther(s, a);
  }

  lemma StatusOther(s: State, a: Action)
    requires StatusInv(s) && Enabled(s, a) && !a.Work? && !a.CreateMonitor? && !a.EditMonitor?
    ensures StatusInv(Apply(s, a))
  {
    hide Connection.Credential, ConfigMapKey, Discover, RegistryKey, Connection.BuildConfig, Upserted;
    OtherMonitors(s, a);
  }

  lemma {:induction false} StatusInvHolds(ss: seq<State>, acts: seq<Action>, i: nat)
    requires Run(ss, acts) && i < |ss|
    ensures StatusInv(ss[i])
  {
    hide Enabled, Apply;
    if i > 0 {
      StatusInvHolds(ss, acts, i - 1);
      StatusStep(ss[i - 1], acts[i - 1]);
    }
  }

  // ---------- the theorems ----------

  // Whatever fails in a run, a stored status is that of a new monitor or has
  // the phase Active, a resolved ConfigMap in the monitor's own namespace and
  // the one condition Active. The conditions Discovered, ConfigMapResolved and
  // OpAMPConnected that failing Reconciles set are never stored.
  lemma StoredStatuses(ss: seq<State>, acts: seq<Action>, i: nat, k: NamespacedName)
    requires Run(ss, acts) && i < |ss| && k in ss[i].store.monitors
    ensures WellFormed(ss[i].store.monitors[k].status, k.ns)
    ensures forall c :: c in ss[i].store.monitors[k].status.conditions ==> c.ctype == "Active" && c.status
  {
    hide Enabled, Apply;
    StatusInvHolds(ss, acts, i);
  }

  // Once Active, and until it is deleted, a monitor keeps its condition as it
  // is: LastTransitionTime stays the time of the first commit.
  lemma {:induction false} TransitionTimeKept(ss: seq<State>, acts: seq<Action>, i: nat, j: nat, k: NamespacedName)
    requires Run(ss, acts) && i <= j < |ss|
    requires forall n :: i <= n <= j ==> k in ss[n].store.monitors
    requires ss[i].store.monitors[k].status.phase == "Active"
    ensures ss[j].store.monitors[k].status.phase == "Active"
    ensures ss[j].store.monitors[k].status.conditions == ss[i].store.monitors[k].status.conditions
    decreases j
  {
    hide Enabled, Apply;
    if i < j {
      TransitionTimeKept(ss, acts, i, j - 1, k);
      StatusInvHolds(ss, acts, j - 1);
      assert ss[j] == Apply(ss[j - 1], acts[j - 1]);
      ConditionsKept(ss[j - 1], acts[j - 1], k);
    }
  }

  lemma ConditionsKept(s: State, a: Action, k: NamespacedName)
    requires StatusInv(s) && Enabled(s, a)
    requires k in s.store.monitors && k in Apply(s, a).store.monitors && s.store.monitors[k].status.phase == "Active"
    ensures Apply(s, a).store.monitors[k].status.conditions == s.store.monitors[k].status.conditions
    ensures Apply(s, a).store.monitors[k].status.phase == "Active"
  {
    hide Connection.Credential, ConfigMapKey, Discover, RegistryKey, Connection.BuildConfig, Upserted;
    if a.Work? {
      WorkStore(s, a.p, a.o);
      var w := s.workers[a.p];
      var d := Decide(s, w, a.o);
      if d.effect.CommitStatus? && w.key == k {
        assert s.store.monitors[k] == d.effect.m;
        ActiveUpsert(d.effect.m.status, k.ns, d.effect.now);
      }
    } else {
      OtherMonitors(s, a);
    }
  }

  // The watch covers every committed reference: an event on the ConfigMap a
  // monitor committed requests that monitor exactly once, from any listing of
  // the namespace of the ConfigMap.
  lemma WatchCoversCommitted(ss: seq<State>, acts: seq<Action>, i: nat, list: seq<Listed>, cm: NamespacedName,
                             k: NamespacedName)
    requires Run(ss, acts) && i < |ss| && ListsNamespace(ss[i].store, cm.ns, list)
    requires k in ss[i].store.monitors && ss[i].store.monitors[k].status.configMapRef.Some?
    requires ss[i].store.monitors[k].status.configMapRef.value.at == cm
    ensures multiset(Requests(list, cm))[k] == 1
  {
    hide Enabled, Apply;
    StatusInvHolds(ss, acts, i);
    assert k.ns == cm.ns;
    var n :| 0 <= n < |list| && list[n] == Listed(k, ss[i].store.monitors[k]);
    assert list[n].key == k && ConcernedBy(list[n].monitor, cm);
    RequestedOnce(list, cm, k);
  }

  // List, restricted to a namespace: every monitor there once, in any order.
  ghost predicate ListsNamespace(store: Store, ns: Name, list: seq<Listed>) {
    && DistinctKeys(list)
    && (forall x :: x in list ==> x.key.ns == ns && x.key in store.monitors && x.monitor == store.monitors[x.key])
    && (forall k :: k in store.monitors && k.ns == ns ==> Listed(k, store.monitors[k]) in list)
  }
}
