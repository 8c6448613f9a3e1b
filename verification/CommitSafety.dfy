// The reference that a monitor's status holds is one that was resolved.
module CommitSafety {
  import opened Wrappers
  import opened Cluster
  import opened Operator
  import SnapshotSafety

  // Some monitor was read under the key, and then ref was resolved for it, at
  // moments up to n.
  ghost predicate RefSourced(ss: seq<State>, n: nat, k: NamespacedName, ref: ConfigMapRef) {
    exists m :: SnapshotSafety.Resolved(ss, n, k, m, ref)
  }

  lemma RefSourcedLater(ss: seq<State>, n: nat, k: NamespacedName, ref: ConfigMapRef)
    requires RefSourced(ss, n, k, ref) && n + 1 < |ss|
    ensures RefSourced(ss, n + 1, k, ref)
  {
    var m :| SnapshotSafety.Resolved(ss, n, k, m, ref);
    assert SnapshotSafety.Resolved(ss, n + 1, k, m, ref);
  }

  // A step leaves the reference of a stored monitor as it is, clears it with a
  // new monitor, or is the commit of a Reconcile that resolved it.
  lemma RefMoves(s: State, a: Action, k: NamespacedName)
    requires Enabled(s, a) && k in Apply(s, a).store.monitors
    ensures var ref := Apply(s, a).store.monitors[k].status.configMapRef;
            || ref.None?
            || (k in s.store.monitors && s.store.monitors[k].status.configMapRef == ref)
            || (a.Work? && a.p in s.workers && s.workers[a.p].key == k && s.workers[a.p].pc.Commit?
                && ref == Some(s.workers[a.p].pc.ref))
  {
    hide ApplyWork, Decide, ActiveStatus;
    if a.Work? {
      WorkStore(s, a.p, a.o);
      CommittedRef(s, a.p, a.o);
    } else {
      OtherMonitors(s, a);
    }
  }

  lemma CommittedRef(s: State, p: Id, o: Outcome)
    requires WorkEnabled(s, p, o)
    ensures var e := Decide(s, s.workers[p], o).effect;
            e.CommitStatus? ==> ActiveStatus(e.m, e.ref, e.now).configMapRef == Some(e.ref)
  {
    hide Decide;
  }

  lemma {:induction false} RefSourcedHolds(ss: seq<State>, acts: seq<Action>, i: nat, k: NamespacedName)
    requires Run(ss, acts) && i < |ss| && k in ss[i].store.monitors
    requires ss[i].store.monitors[k].status.configMapRef.Some?
    ensures i > 0 && RefSourced(ss, i - 1, k, ss[i].store.monitors[k].status.configMapRef.value)
  {
    hide Enabled, Apply, RefSourced, SnapshotSafety.Resolved;
    if i > 0 {
      var s, a, ref := ss[i - 1], acts[i - 1], ss[i].store.monitors[k].status.configMapRef.value;
      RefMoves(s, a, k);
      if k in s.store.monitors && s.store.monitors[k].status.configMapRef == Some(ref) {
        RefSourcedHolds(ss, acts, i - 1, k);
        RefSourcedLater(ss, i - 2, k, ref);
      } else {
        SnapshotSafety.SourcedHolds(ss, acts, i - 1, a.p);
        WitnessRef(ss, i - 1, k, s.workers[a.p].pc.m, ref);
      }
    }
  }

  lemma WitnessRef(ss: seq<State>, n: nat, k: NamespacedName, m: Monitor, ref: ConfigMapRef)
    requires SnapshotSafety.Resolved(ss, n, k, m, ref)
    ensures RefSourced(ss, n, k, ref)
  {
  }

  // In every run, the reference in a stored status was resolved: at a moment a
  // the monitor was stored, and at a moment b, no earlier and before the
  // status, the ConfigMap existed that the monitor of moment a selects. The
  // reference has its namespace and name; its key is the one that monitor
  // selects, or else the first of the common keys that the data of moment b
  // had, "config.yaml" if it had none.
  lemma StoredReferenceResolved(ss: seq<State>, acts: seq<Action>, i: nat, k: NamespacedName) returns (a: nat, b: nat)
    requires Run(ss, acts) && i < |ss| && k in ss[i].store.monitors
    requires ss[i].store.monitors[k].status.configMapRef.Some?
    ensures a <= b < i && k in ss[a].store.monitors
    ensures var m, ref := ss[a].store.monitors[k], ss[i].store.monitors[k].status.configMapRef.value;
            && m.spec.configMapSelector.Some? && m.spec.configMapSelector.value.name != ""
            && ref.at == NamespacedName(k.ns, m.spec.configMapSelector.value.name)
            && ref.at in ss[b].store.configMaps
            && var data := ss[b].store.configMaps[ref.at].data;
               ref.key == if m.spec.configMapSelector.value.key != "" then m.spec.configMapSelector.value.key
                          else if "relay.yaml" in data then "relay.yaml"
                          else if "config.yaml" in data then "config.yaml"
                          else if "otelcol.yaml" in data then "otelcol.yaml"
                          else "config.yaml"
  {
    hide Enabled, Apply;
    RefSourcedHolds(ss, acts, i, k);
    var ref := ss[i].store.monitors[k].status.configMapRef.value;
    var m :| SnapshotSafety.Resolved(ss, i - 1, k, m, ref);
    b :| b <= i - 1 < |ss| && SnapshotSafety.ResolvedAt(ss[b], k, m, ref) && SnapshotSafety.Read(ss, b, k, m);
    a :| a <= b < |ss| && SnapshotSafety.ReadAt(ss[a], k, m);
  }
}
