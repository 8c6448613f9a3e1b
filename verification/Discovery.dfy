// How a Reconcile finds the workload, the configuration key and the monitors
// concerned by a ConfigMap event.
module Discovery {
  import opened Wrappers
  import opened Cluster

  // What the three List calls of discoverWorkload return.
  datatype Listing = Listing(
    daemonSets: Result<seq<Workload>>,
    deployments: Result<seq<Workload>>,
    statefulSets: Result<seq<Workload>>)

  datatype Found = Found(workload: Workload, kind: string)

  datatype ListCall = ListCall(kind: string, items: Result<seq<Workload>>)

  function Calls(l: Listing): seq<ListCall> {
    [ListCall("DaemonSet", l.daemonSets), ListCall("Deployment", l.deployments),
     ListCall("StatefulSet", l.statefulSets)]
  }

  // List filters by namespace and labels.
  ghost predicate LegalListing(sel: WorkloadSelector, ns: Name, l: Listing) {
    forall call, w :: call in Calls(l) && call.items.Success? && w in call.items.value ==>
      w.ns == ns && MatchesLabels(sel.matchLabels, w.labels)
  }

  predicate KindWanted(sel: WorkloadSelector, kind: string) {
    sel.kind == "" || sel.kind == kind
  }

  predicate NameWanted(sel: WorkloadSelector, w: Workload) {
    sel.name == "" || w.name == sel.name
  }

  const NO_WORKLOAD := "no workload found matching selector"

  // The workloads the selector admits, in search order, among calls that all
  // succeeded.
  ghost function Candidates(sel: WorkloadSelector, calls: seq<ListCall>): seq<Found>
    requires forall c :: c in calls ==> c.items.Success?
  {
    if calls == [] then []
    else Candidates(sel, calls[..|calls| - 1]) + Admitted(sel, calls[|calls| - 1])
  }

  ghost function Admitted(sel: WorkloadSelector, call: ListCall): seq<Found>
    requires call.items.Success?
  {
    if sel.kind == "" || sel.kind == call.kind then Named(sel, call.kind, call.items.value) else []
  }

  ghost function Named(sel: WorkloadSelector, kind: string, ws: seq<Workload>): seq<Found> {
    if ws == [] then []
    else (if sel.name == "" || ws[0].name == sel.name then [Found(ws[0], kind)] else []) + Named(sel, kind, ws[1..])
  }

  // The search itself: kind by kind, stopping at the first match or failure.
  function Search(sel: WorkloadSelector, calls: seq<ListCall>): Result<Found> {
    if calls == [] then Failure(NO_WORKLOAD)
    else if !KindWanted(sel, calls[0].kind) then Search(sel, calls[1..])
    else if calls[0].items.Failure? then Failure(calls[0].items.error)
    else match FirstNamed(sel, calls[0].items.value)
      case Some(w) => Success(Found(w, calls[0].kind))
      case None => Search(sel, calls[1..])
  }

  function FirstNamed(sel: WorkloadSelector, ws: seq<Workload>): Option<Workload> {
    if ws == [] then None
    else if NameWanted(sel, ws[0]) then Some(ws[0])
    else FirstNamed(sel, ws[1..])
  }

  function Discover(sel: WorkloadSelector, l: Listing): Result<Found> {
    Search(sel, Calls(l))
  }

  // The three steps of the search.
  lemma SearchUnfolds(sel: WorkloadSelector, l: Listing)
    ensures Discover(sel, l) ==
            var s3 := SearchKind(sel, "StatefulSet", l.statefulSets, Failure(NO_WORKLOAD));
            var s2 := SearchKind(sel, "Deployment", l.deployments, s3);
            SearchKind(sel, "DaemonSet", l.daemonSets, s2)
  {
    var calls := Calls(l);
    assert calls[1..][1..] == calls[2..] && calls[2..][1..] == [];
    var s3 := SearchKind(sel, "StatefulSet", l.statefulSets, Failure(NO_WORKLOAD));
    assert Search(sel, calls[2..]) == s3;
    assert Search(sel, calls[1..]) == SearchKind(sel, "Deployment", l.deployments, s3);
  }

  // One step, with the outcome of the later ones.
  ghost function SearchKind(sel: WorkloadSelector, kind: string, items: Result<seq<Workload>>,
                            later: Result<Found>): Result<Found> {
    if !KindWanted(sel, kind) then later
    else if items.Failure? then Failure(items.error)
    else match FirstNamed(sel, items.value)
      case Some(w) => Success(Found(w, kind))
      case None => later
  }

  method FindNamed(sel: WorkloadSelector, ws: seq<Workload>) returns (r: Option<Workload>)
    ensures r == FirstNamed(sel, ws)
  {
    for i := 0 to |ws|
      invariant FirstNamed(sel, ws) == FirstNamed(sel, ws[i..])
    {
      if sel.name == "" || ws[i].name == sel.name {
        return Some(ws[i]);
      }
    }
    r := None;
  }

  method DiscoverWorkload(sel: WorkloadSelector, l: Listing) returns (r: Result<Found>)
    ensures r == Discover(sel, l)
  {
    SearchUnfolds(sel, l);
    if sel.kind == "" || sel.kind == "DaemonSet" {
      if l.daemonSets.Failure? {
        return Failure(l.daemonSets.error);
      }
      var ds := FindNamed(sel, l.daemonSets.value);
      if ds.Some? {
        return Success(Found(ds.value, "DaemonSet"));
      }
    }
    if sel.kind == "" || sel.kind == "Deployment" {
      if l.deployments.Failure? {
        return Failure(l.deployments.error);
      }
      var dep := FindNamed(sel, l.deployments.value);
      if dep.Some? {
        return Success(Found(dep.value, "Deployment"));
      }
    }
    if sel.kind == "" || sel.kind == "StatefulSet" {
      if l.statefulSets.Failure? {
        return Failure(l.statefulSets.error);
      }
      var sts := FindNamed(sel, l.statefulSets.value);
      if sts.Some? {
        return Success(Found(sts.value, "StatefulSet"));
      }
    }
    r := Failure(NO_WORKLOAD);
  }

  lemma {:induction false} FirstNamedHeads(sel: WorkloadSelector, kind: string, ws: seq<Workload>)
    ensures FirstNamed(sel, ws).None? <==> Named(sel, kind, ws) == []
    ensures FirstNamed(sel, ws).Some? ==> Named(sel, kind, ws)[0] == Found(FirstNamed(sel, ws).value, kind)
  {
    if ws != [] {
      FirstNamedHeads(sel, kind, ws[1..]);
    }
  }

  // Kinds that succeed without an admitted workload are passed over.
  lemma {:induction false} SearchSkips(sel: WorkloadSelector, calls: seq<ListCall>, n: nat)
    requires n <= |calls| && forall c :: c in calls[..n] ==> c.items.Success?
    requires Candidates(sel, calls[..n]) == []
    ensures Search(sel, calls) == Search(sel, calls[n..])
  {
    if n > 0 {
      assert calls[..n][..n - 1] == calls[..n - 1];
      SearchSkips(sel, calls, n - 1);
      var call := calls[n - 1];
      assert call in calls[..n];
      FirstNamedHeads(sel, call.kind, call.items.value);
      assert calls[n - 1..][1..] == calls[n..];
    }
  }

  // Whatever follows them, the first n calls decide the search if they succeed
  // and admit a workload; and if they admit none, the next wanted call decides
  // it by failing. So a failed List matters only if no earlier kind matched.
  lemma {:induction false} SearchDecidedBy(sel: WorkloadSelector, calls: seq<ListCall>, n: nat)
    requires n <= |calls| && forall c :: c in calls[..n] ==> c.items.Success?
    ensures Candidates(sel, calls[..n]) != [] ==> Search(sel, calls) == Success(Candidates(sel, calls[..n])[0])
    ensures
      Candidates(sel, calls[..n]) == [] && n < |calls| && sel.kind in {"", calls[n].kind} && calls[n].items.Failure? ==>
      Search(sel, calls) == Failure(calls[n].items.error)
  {
    if n > 0 {
      assert calls[..n][..n - 1] == calls[..n - 1];
      SearchDecidedBy(sel, calls, n - 1);
      if Candidates(sel, calls[..n - 1]) == [] {
        SearchSkips(sel, calls, n - 1);
        var call := calls[n - 1];
        assert call in calls[..n];
        FirstNamedHeads(sel, call.kind, call.items.value);
      }
    }
    if Candidates(sel, calls[..n]) == [] {
      SearchSkips(sel, calls, n);
    }
  }

  // When every List succeeds, discovery returns the first admitted workload of
  // DaemonSets ++ Deployments ++ StatefulSets, and fails iff there is none.
  lemma DiscoverIsFirstMatch(sel: WorkloadSelector, l: Listing)
    requires l.daemonSets.Success? && l.deployments.Success? && l.statefulSets.Success?
    ensures var cs := Candidates(sel, [ListCall("DaemonSet", l.daemonSets), ListCall("Deployment", l.deployments),
                                       ListCall("StatefulSet", l.statefulSets)]);
            Discover(sel, l) == if cs == [] then Failure("no workload found matching selector") else Success(cs[0])
  {
    assert Calls(l)[..3] == Calls(l);
    SearchDecidedBy(sel, Calls(l), 3);
    if Candidates(sel, Calls(l)) == [] {
      SearchSkips(sel, Calls(l), 3);
    }
  }

  // What is found was listed, has the kind of its list and satisfies the selector.
  lemma {:induction false} FoundWasListed(sel: WorkloadSelector, calls: seq<ListCall>)
    requires Search(sel, calls).Success?
    ensures var f := Search(sel, calls).value;
            && sel.kind in {"", f.kind} && sel.name in {"", f.workload.name}
            && exists call :: call in calls && call.kind == f.kind && call.items.Success?
                 && f.workload in call.items.value
  {
    if !KindWanted(sel, calls[0].kind) || FirstNamed(sel, calls[0].items.value).None? {
      FoundWasListed(sel, calls[1..]);
    } else {
      FirstNamedIn(sel, calls[0].items.value);
      assert calls[0] in calls;
    }
  }

  lemma {:induction false} FirstNamedIn(sel: WorkloadSelector, ws: seq<Workload>)
    ensures var w := FirstNamed(sel, ws); w.Some? ==> w.value in ws && NameWanted(sel, w.value)
  {
    if ws != [] {
      FirstNamedIn(sel, ws[1..]);
    }
  }

  // ---------- the configuration key ----------

  const COMMON_KEYS := ["relay.yaml", "config.yaml", "otelcol.yaml"]

  function FirstPresent(keys: seq<string>, data: map<string, string>): (r: Option<string>)
    ensures r.None? <==> forall k :: k in keys ==> k !in data
    ensures r.Some? ==> r.value in data
    ensures r.Some? ==> exists i :: 0 <= i < |keys| && keys[i] == r.value && forall j :: 0 <= j < i ==> keys[j] !in data
  {
    if keys == [] then None
    else if keys[0] in data then Some(keys[0])
    else
      var r := FirstPresent(keys[1..], data);
      assert r.Some? ==>
        exists i ::
          0 <= i < |keys| - 1 && keys[1..][i] == r.value && forall j :: 0 <= j < i + 1 ==> keys[j] !in data
      by {
        if r.Some? {
          var i :| 0 <= i < |keys[1..]| && keys[1..][i] == r.value && forall j :: 0 <= j < i ==> keys[1..][j] !in data;
          assert forall j :: 0 < j < i + 1 ==> keys[j] == keys[1..][j - 1];
        }
      }
      r
  }

  function ConfigMapKey(sel: Option<ConfigMapSelector>, data: map<string, string>): string {
    if sel.Some? && sel.value.key != "" then sel.value.key
    else match FirstPresent(COMMON_KEYS, data)
      case Some(k) => k
      case None => "config.yaml"
  }

  // A selected key is taken as it is; else the first of the common keys that
  // the data has, else "config.yaml".
  lemma ConfigMapKeyIs(sel: Option<ConfigMapSelector>, data: map<string, string>)
    ensures ConfigMapKey(sel, data) ==
            if sel.Some? && sel.value.key != "" then sel.value.key
            else if "relay.yaml" in data then "relay.yaml"
            else if "config.yaml" in data then "config.yaml"
            else if "otelcol.yaml" in data then "otelcol.yaml"
            else "config.yaml"
  {
    var keys := COMMON_KEYS;
    assert keys[0] == "relay.yaml" && keys[1..][0] == "config.yaml" && keys[1..][1..][0] == "otelcol.yaml";
    assert keys[1..][1..][1..] == [];
  }

  // configMapKey, with its loop over the common keys.
  method FindConfigMapKey(sel: Option<ConfigMapSelector>, data: map<string, string>) returns (key: string)
    ensures key == ConfigMapKey(sel, data)
  {
    if sel.Some? && sel.value.key != "" {
      return sel.value.key;
    }
    var keys := COMMON_KEYS;
    for i := 0 to |keys|
      invariant FirstPresent(keys, data) == FirstPresent(keys[i..], data)
    {
      if keys[i] in data {
        return keys[i];
      }
    }
    key := "config.yaml";
  }

  // ---------- ConfigMap events ----------

  datatype Listed = Listed(key: NamespacedName, monitor: Monitor)

  predicate ConcernedBy(m: Monitor, cm: NamespacedName) {
    || (m.status.configMapRef.Some? && m.status.configMapRef.value.at.name == cm.name)
    || (m.spec.configMapSelector.Some? && m.spec.configMapSelector.value.name == cm.name)
  }

  ghost function Requests(list: seq<Listed>, cm: NamespacedName): seq<NamespacedName> {
    if list == [] then []
    else
      var last := list[|list| - 1];
      Requests(list[..|list| - 1], cm) + if ConcernedBy(last.monitor, cm) then [last.key] else []
  }

  // The requests for an event on ConfigMap cm; list is what List returned for
  // the namespace of cm.
  method MapConfigMapToMonitors(cm: NamespacedName, list: Result<seq<Listed>>) returns (requests: seq<NamespacedName>)
    ensures requests == if list.Success? then Requests(list.value, cm) else []
  {
    requests := [];
    if list.Failure? {
      return;
    }
    for i := 0 to |list.value|
      invariant requests == Requests(list.value[..i], cm)
    {
      var monitor := list.value[i].monitor;
      assert list.value[..i + 1][..i] == list.value[..i];
      if monitor.status.configMapRef.Some? && monitor.status.configMapRef.value.at.name == cm.name {
        requests := requests + [list.value[i].key];
        continue;
      }
      if monitor.spec.configMapSelector.Some? && monitor.spec.configMapSelector.value.name == cm.name {
        requests := requests + [list.value[i].key];
      }
    }
    assert list.value[..|list.value|] == list.value;
  }

  ghost predicate DistinctKeys(list: seq<Listed>) {
    forall i, j :: 0 <= i < j < |list| ==> list[i].key != list[j].key
  }

  // Each concerned monitor of the list is requested exactly once, no other is.
  lemma {:induction false} RequestedOnce(list: seq<Listed>, cm: NamespacedName, k: NamespacedName)
    requires DistinctKeys(list)
    ensures multiset(Requests(list, cm))[k]
            == if exists i ::
                    && 0 <= i < |list| && list[i].key == k
                    && var m := list[i].monitor;
                       || (m.status.configMapRef.Some? && m.status.configMapRef.value.at.name == cm.name)
                       || (m.spec.configMapSelector.Some? && m.spec.configMapSelector.value.name == cm.name)
               then 1 else 0
  {
    if list != [] {
      var before, last := list[..|list| - 1], list[|list| - 1];
      RequestedOnce(before, cm, k);
      assert list == before + [last];
      if last.key == k && ConcernedBy(last.monitor, cm) {
        assert list[|list| - 1].key == k;
      }
      assert forall i :: 0 <= i < |before| ==> list[i] == before[i];
    }
  }

  // The keys are those found at the increasing positions `at` of the list.
  ghost predicate PickedAt(keys: seq<NamespacedName>, list: seq<Listed>, at: seq<nat>) {
    && |at| == |keys|
    && (forall i :: 0 <= i < |at| ==> at[i] < |list| && list[at[i]].key == keys[i])
    && (forall i, j :: 0 <= i < j < |at| ==> at[i] < at[j])
  }

  ghost function Positions(list: seq<Listed>, cm: NamespacedName): seq<nat> {
    if list == [] then []
    else
      var n := |list| - 1;
      Positions(list[..n], cm) + if ConcernedBy(list[n].monitor, cm) then [n] else []
  }

  // The requests keep the order of the list.
  lemma {:induction false} RequestsInListOrder(list: seq<Listed>, cm: NamespacedName)
    ensures PickedAt(Requests(list, cm), list, Positions(list, cm))
    ensures forall i :: 0 <= i < |list| ==> (i in Positions(list, cm) <==> ConcernedBy(list[i].monitor, cm))
  {
    if list != [] {
      RequestsInListOrder(list[..|list| - 1], cm);
    }
  }
}
