// What the operator reports about a fleet, and when it raises a drift alarm.
module Fleet {
  import opened Wrappers
  import opened GoText
  import opened Cluster
  import opened Opamp
  import Sequences

  predicate IsPodReady(pod: Pod) {
    exists c | c in pod.conditions :: c.ctype == "Ready" && c.status == "True"
  }

  function HealthOf(pod: Pod): PodHealth {
    PodHealth(pod.name, pod.node, if pod.ip == "" then "Pending" else pod.ip, IsPodReady(pod), pod.phase)
  }

  function HealthsOf(pods: seq<Pod>): (hs: seq<PodHealth>)
    ensures |hs| == |pods| && forall i :: 0 <= i < |hs| ==> hs[i] == HealthOf(pods[i])
  {
    seq(|pods|, i requires 0 <= i < |pods| => HealthOf(pods[i]))
  }

  function Aggregate(ready: nat, total: nat): HealthStatus {
    if total == 0 then HealthUnknown
    else if ready == total then HealthHealthy
    else if ready > 0 then HealthDegraded
    else HealthUnhealthy
  }

  function FleetStatus(pods: seq<PodHealth>): HealthStatus {
    Aggregate(ReadyCount(pods), |pods|)
  }

  function FleetReport(pods: seq<Pod>): ComponentHealth {
    HealthTree(FleetStatus(HealthsOf(pods)), HealthsOf(pods))
  }

  // The loop over the listed pods.
  method CollectPods(items: seq<Pod>) returns (podsHealth: seq<PodHealth>, ready: nat)
    ensures podsHealth == HealthsOf(items) && ready == ReadyCount(podsHealth)
  {
    podsHealth, ready := [], 0;
    for i := 0 to |items|
      invariant podsHealth == HealthsOf(items[..i])
      invariant ready == ReadyCount(podsHealth)
    {
      var pod := items[i];
      var isReady := IsPodReady(pod);
      if isReady {
        ready := ready + 1;
      }
      var podIP := pod.ip;
      if podIP == "" {
        podIP := "Pending";
      }
      ghost var before := podsHealth;
      podsHealth := podsHealth + [PodHealth(pod.name, pod.node, podIP, isReady, pod.phase)];
      assert podsHealth[..i] == before;
    }
    assert items[..|items|] == items;
  }

  // reportFleetHealth, for the client registered for the monitor, if any: one
  // health report, then one configuration report if the ConfigMap can be read
  // and has the key. The flags say which calls succeed. A monitor without a
  // client is reported to nobody, which is no failure.
  method ReportFleetHealth(registered: Option<Client>, pods: Result<seq<Pod>>, okHealth: bool,
                           ref: Option<ConfigMapRef>, read: Option<map<string, string>>, okConfig: bool)
    returns (ok: bool)
    requires registered.Some? ==> registered.value.created
    modifies (set c | registered == Some(c))`sent, (set c | registered == Some(c))`effectiveConfig
    ensures registered.None? ==> ok
    ensures registered.Some? && !(pods.Success? && okHealth) ==>
      var c := registered.value;
      !ok && c.sent == old(c.sent) && c.effectiveConfig == old(c.effectiveConfig)
    ensures registered.Some? && pods.Success? && okHealth ==>
      var c, found := registered.value, ref.Some? && read.Some? && ref.value.key in read.value;
      && ok == (found ==> okConfig)
      && c.effectiveConfig == (if found then read.value[ref.value.key] else old(c.effectiveConfig))
      && c.sent == old(c.sent) + [Health(FleetReport(pods.value))]
                   + (if found && okConfig then [EffectiveConfigChanged] else [])
  {
    hide HealthTree;
    if registered.None? {
      return true;
    }
    var c := registered.value;
    if pods.Failure? {
      return false;
    }
    var podsHealth, ready := CollectPods(pods.value);
    var total := |pods.value|;
    var health := if total == 0 then HealthUnknown
                  else if ready == total then HealthHealthy
                  else if ready > 0 then HealthDegraded
                  else HealthUnhealthy;
    var sentHealth := c.SetHealth(health, podsHealth, okHealth);
    if !sentHealth {
      return false;
    }
    if ref.Some? && read.Some? && ref.value.key in read.value {
      var sentConfig := c.SetEffectiveConfig(read.value[ref.value.key], okConfig);
      return sentConfig;
    }
    ok := true;
  }

  // ---------- what the report conserves ----------

  lemma {:induction false} ReadyCountBounds(pods: seq<PodHealth>)
    ensures ReadyCount(pods) <= |pods|
    ensures ReadyCount(pods) == |pods| <==> forall p :: p in pods ==> p.ready
    ensures ReadyCount(pods) == 0 <==> forall p :: p in pods ==> !p.ready
  {
    if pods != [] {
      var n := |pods| - 1;
      ReadyCountBounds(pods[..n]);
      assert pods == pods[..n] + [pods[n]];
    }
  }

  // Unknown, Healthy, Degraded, Unhealthy: exactly the empty fleet, all ready,
  // some but not all, none.
  lemma FleetStatusMeaning(pods: seq<PodHealth>)
    ensures FleetStatus(pods) == HealthUnknown <==> pods == []
    ensures FleetStatus(pods) == HealthHealthy <==> pods != [] && forall p :: p in pods ==> p.ready
    ensures FleetStatus(pods) == HealthUnhealthy <==> pods != [] && forall p :: p in pods ==> !p.ready
    ensures FleetStatus(pods) == HealthDegraded <==>
      (exists p :: p in pods && p.ready) && exists p :: p in pods && !p.ready
  {
    ReadyCountBounds(pods);
  }

  lemma {:induction false} ReadyCountIsCount(pods: seq<PodHealth>)
    ensures ReadyCount(pods) == Sequences.Count((p: PodHealth) => p.ready, pods, true)
  {
    if pods != [] {
      ReadyCountIsCount(pods[..|pods| - 1]);
    }
  }

  // The status does not depend on the order in which the pods are listed.
  lemma FleetStatusPermutes(pods: seq<PodHealth>, other: seq<PodHealth>)
    requires multiset(pods) == multiset(other)
    ensures ReadyCount(pods) == ReadyCount(other) && FleetStatus(pods) == FleetStatus(other)
  {
    hide ReadyCount;
    assert |pods| == |multiset(pods)| == |multiset(other)| == |other|;
    ReadyCountIsCount(pods);
    ReadyCountIsCount(other);
    Sequences.CountPermutes((p: PodHealth) => p.ready, pods, other, true);
  }

  ghost predicate DistinctNames(pods: seq<PodHealth>) {
    forall i, j :: 0 <= i < j < |pods| ==> pods[i].name != pods[j].name
  }

  ghost predicate LastOfName(pods: seq<PodHealth>, i: int) {
    0 <= i < |pods| && forall j :: i < j < |pods| ==> pods[j].name != pods[i].name
  }

  // The entries of the health map, with or without repeated names: one per
  // name, that of the last pod of the name.
  lemma PodEntriesByName(pods: seq<PodHealth>)
    ensures forall k :: k in PodEntries(pods) ==> exists i :: LastOfName(pods, i) && k == PodKey(pods[i].name)
    ensures forall i :: LastOfName(pods, i) ==>
      PodKey(pods[i].name) in PodEntries(pods) && PodEntries(pods)[PodKey(pods[i].name)] == PodEntry(pods[i])
  {
    forall k | k in PodEntries(pods)
      ensures exists i :: LastOfName(pods, i) && k == PodKey(pods[i].name)
    {
      var i := EntryOrigin(pods, k);
    }
    forall i | LastOfName(pods, i)
      ensures PodKey(pods[i].name) in PodEntries(pods) && PodEntries(pods)[PodKey(pods[i].name)] == PodEntry(pods[i])
    {
      EntryOfLast(pods, i);
    }
  }

  lemma {:induction false} EntryOrigin(pods: seq<PodHealth>, k: string) returns (i: int)
    requires k in PodEntries(pods)
    ensures LastOfName(pods, i) && k == PodKey(pods[i].name)
  {
    var n := |pods| - 1;
    if k == PodKey(pods[n].name) {
      i := n;
    } else {
      i := EntryOrigin(pods[..n], k);
      assert forall j :: i < j < n ==> pods[j] == pods[..n][j];
    }
  }

  lemma {:induction false} EntryOfLast(pods: seq<PodHealth>, i: int)
    requires LastOfName(pods, i)
    ensures PodKey(pods[i].name) in PodEntries(pods) && PodEntries(pods)[PodKey(pods[i].name)] == PodEntry(pods[i])
  {
    var n := |pods| - 1;
    if i < n {
      assert forall j :: i < j < n ==> pods[j] == pods[..n][j];
      EntryOfLast(pods[..n], i);
      assert pods[n].name != pods[i].name;
      assert PodKey(pods[n].name)[4..] != PodKey(pods[i].name)[4..];
    }
  }

  ghost function HealthyPodKeys(m: map<string, ComponentHealth>): set<string> {
    set k | k in m && HasPrefix(k, "pod/") && m[k].healthy
  }

  lemma HealthyPodKeysAdd(m: map<string, ComponentHealth>, key: string, e: ComponentHealth)
    requires key !in m
    ensures |m[key := e]| == |m| + 1
    ensures |HealthyPodKeys(m[key := e])| == |HealthyPodKeys(m)| + if HasPrefix(key, "pod/") && e.healthy then 1 else 0
  {
    assert HealthyPodKeys(m[key := e]) == HealthyPodKeys(m) + if HasPrefix(key, "pod/") && e.healthy then {key} else {};
  }

  lemma NewName(pods: seq<PodHealth>, n: nat)
    requires DistinctNames(pods) && n + 1 == |pods|
    ensures PodKey(pods[n].name) !in PodEntries(pods[..n])
  {
    PodEntriesByName(pods[..n]);
  }

  // With distinct pod names: one pod/ entry per pod, and as many healthy ones
  // as there are ready pods.
  lemma {:induction false} PodEntriesCounted(pods: seq<PodHealth>)
    requires DistinctNames(pods)
    ensures |PodEntries(pods)| == |pods|
    ensures |HealthyPodKeys(PodEntries(pods))| == ReadyCount(pods)
  {
    if pods != [] {
      var n := |pods| - 1;
      PodEntriesCounted(pods[..n]);
      NewName(pods, n);
      HealthyPodKeysAdd(PodEntries(pods[..n]), PodKey(pods[n].name), PodEntry(pods[n]));
    }
  }

  lemma FleetIsNoPod(pods: seq<PodHealth>)
    ensures "fleet" !in PodEntries(pods)
  {
    hide PodEntries;
    PodEntriesByName(pods);
  }

  lemma TreeIsEntriesAndFleet(health: HealthStatus, pods: seq<PodHealth>)
    ensures "fleet" !in PodEntries(pods)
    ensures HealthTree(health, pods).components
            == PodEntries(pods)["fleet" := FleetEntry(health, ReadyCount(pods), |pods|)]
  {
    hide PodEntries, FleetEntry, ReadyCount;
    FleetIsNoPod(pods);
    AddedFirst("fleet", FleetEntry(health, ReadyCount(pods), |pods|), PodEntries(pods));
  }

  // An entry of a key of its own can be added before the others or after.
  lemma AddedFirst<K, V>(k: K, v: V, m: map<K, V>)
    requires k !in m
    ensures map[k := v] + m == m[k := v]
  {
  }

  // Conservation of the whole report: for every fleet with distinct pod names,
  // one entry per pod besides "fleet"; the healthy pod entries number the ready
  // pods, which is the number written in ready_pods; and the flags of
  // ready_pods and fleet agree exactly when the fleet is not empty.
  lemma ReportConserves(pods: seq<Pod>)
    requires DistinctNames(HealthsOf(pods))
    ensures var tree := FleetReport(pods).components;
            var ready := ReadyCount(HealthsOf(pods));
            && |tree| == |pods| + 1
            && |HealthyPodKeys(tree)| == ready
            && "fleet" in tree
            && tree["fleet"].healthy == FleetReport(pods).healthy
            && var counts := tree["fleet"].components;
            && "ready_pods" in counts && "total_pods" in counts
            && ParseDecimal(counts["ready_pods"].status) == ready
            && ParseDecimal(counts["total_pods"].status) == |pods|
            && (counts["ready_pods"].healthy == tree["fleet"].healthy <==> pods != [])
  {
    var hs := HealthsOf(pods);
    PodEntriesCounted(hs);
    TreeIsEntriesAndFleet(FleetStatus(hs), hs);
    HealthyPodKeysAdd(PodEntries(hs), "fleet", FleetEntry(FleetStatus(hs), ReadyCount(hs), |hs|));
    assert "fleet"[0] != 'p';
    DecimalRoundTrip(ReadyCount(hs));
    DecimalRoundTrip(|hs|);
  }

  // The report as a whole is independent of the listing order.
  lemma ReportPermutes(pods: seq<PodHealth>, other: seq<PodHealth>)
    requires multiset(pods) == multiset(other) && DistinctNames(pods)
    ensures HealthTree(FleetStatus(pods), pods) == HealthTree(FleetStatus(other), other)
  {
    FleetStatusPermutes(pods, other);
    assert |pods| == |multiset(pods)| == |multiset(other)| == |other|;
    DistinctNamesPermute(pods, other);
    var a, b := PodEntries(pods), PodEntries(other);
    EntriesIncluded(pods, other);
    EntriesIncluded(other, pods);
    assert a == b;
  }

  lemma EntriesIncluded(pods: seq<PodHealth>, other: seq<PodHealth>)
    requires multiset(pods) == multiset(other) && DistinctNames(pods) && DistinctNames(other)
    ensures forall k :: k in PodEntries(pods) ==> k in PodEntries(other) && PodEntries(other)[k] == PodEntries(pods)[k]
  {
    PodEntriesByName(pods);
    PodEntriesByName(other);
    forall k | k in PodEntries(pods)
      ensures k in PodEntries(other) && PodEntries(other)[k] == PodEntries(pods)[k]
    {
      var i :| LastOfName(pods, i) && k == PodKey(pods[i].name);
      assert pods[i] in multiset(other);
      var j :| 0 <= j < |other| && other[j] == pods[i];
      assert LastOfName(other, j);
    }
  }

  lemma DistinctNamesPermute(pods: seq<PodHealth>, other: seq<PodHealth>)
    requires multiset(pods) == multiset(other) && DistinctNames(pods)
    ensures DistinctNames(other)
  {
    Sequences.PermutedNoDuplicates(pods, other);
    forall i, j | 0 <= i < j < |other|
      ensures other[i].name != other[j].name
    {
      assert other[i] in multiset(pods) && other[j] in multiset(pods);
    }
  }

  // ---------- the report, in terms of the pods' conditions ----------

  ghost function ReadyIndices(pods: seq<PodHealth>): set<int> {
    set i | 0 <= i < |pods| && pods[i].ready
  }

  lemma {:induction false} ReadyCountIsSize(pods: seq<PodHealth>)
    ensures ReadyCount(pods) == |ReadyIndices(pods)|
  {
    if pods == [] {
      assert ReadyIndices(pods) == {};
    } else {
      var n := |pods| - 1;
      ReadyCountIsSize(pods[..n]);
      assert ReadyIndices(pods) == ReadyIndices(pods[..n]) + if pods[n].ready then {n} else {};
    }
  }

  // A pod is ready if one of its conditions is Ready with status True.
  lemma ReadyMeans(pods: seq<Pod>, i: nat)
    requires i < |pods|
    ensures HealthsOf(pods)[i].ready <==>
      exists c :: c in pods[i].conditions && c.ctype == "Ready" && c.status == "True"
  {
    assert HealthsOf(pods)[i] == HealthOf(pods[i]);
  }

  lemma ReadyPods(pods: seq<Pod>)
    ensures (forall h :: h in HealthsOf(pods) ==> h.ready) <==>
      forall p :: p in pods ==> exists c :: c in p.conditions && c.ctype == "Ready" && c.status == "True"
    ensures (forall h :: h in HealthsOf(pods) ==> !h.ready) <==>
      forall p, c :: p in pods && c in p.conditions ==> !(c.ctype == "Ready" && c.status == "True")
  {
    var hs := HealthsOf(pods);
    forall p | p in pods
      ensures exists h :: h in hs && h == HealthOf(p)
    {
      var i :| 0 <= i < |pods| && pods[i] == p;
      assert hs[i] in hs;
    }
    forall h | h in hs
      ensures exists p :: p in pods && h == HealthOf(p)
    {
      var i :| 0 <= i < |pods| && hs[i] == h;
      assert pods[i] in pods;
    }
  }

  // The status that is reported for a fleet: Unknown if it is empty, Healthy if
  // every pod has the condition Ready with status True, Unhealthy if none has
  // it, Degraded otherwise.
  lemma FleetStatusOfPods(pods: seq<Pod>)
    ensures FleetStatus(HealthsOf(pods)) == HealthUnknown <==> pods == []
    ensures FleetStatus(HealthsOf(pods)) == HealthHealthy <==>
      && pods != []
      && forall p :: p in pods ==> exists c :: c in p.conditions && c.ctype == "Ready" && c.status == "True"
    ensures FleetStatus(HealthsOf(pods)) == HealthUnhealthy <==>
      && pods != []
      && forall p, c :: p in pods && c in p.conditions ==> !(c.ctype == "Ready" && c.status == "True")
    ensures FleetReport(pods).healthy <==>
      && pods != []
      && forall p :: p in pods ==> exists c :: c in p.conditions && c.ctype == "Ready" && c.status == "True"
  {
    hide FleetStatus, ReadyCount, PodEntries, FleetEntry, IsPodReady;
    var hs := HealthsOf(pods);
    FleetStatusMeaning(hs);
    ReadyPods(pods);
  }

  // The entries of a report: one per pod, under its name, healthy if the pod
  // has the condition Ready with status True; and one for the fleet.
  lemma ReportOfPods(pods: seq<Pod>)
    requires forall i, j :: 0 <= i < j < |pods| ==> pods[i].name != pods[j].name
    ensures var tree := FleetReport(pods).components;
            && tree.Keys == {"fleet"} + (set p | p in pods :: "pod/" + p.name)
            && forall i :: 0 <= i < |pods| ==>
                 && "pod/" + pods[i].name in tree
                 && var entry := tree["pod/" + pods[i].name];
                 && (entry.healthy <==> exists c :: c in pods[i].conditions && c.ctype == "Ready" && c.status == "True")
                 && entry.status == "node=" + pods[i].node + " ip="
                                    + (if pods[i].ip == "" then "Pending" else pods[i].ip) + " phase=" + pods[i].phase
                 && entry.components == map[]
  {
    hide FleetEntry, HealthTree, PodEntries, FleetStatus, ReadyCount;
    var hs := HealthsOf(pods);
    EntriesOfPods(pods);
    TreeIsEntriesAndFleet(FleetStatus(hs), hs);
    var tree := FleetReport(pods).components;
    forall i | 0 <= i < |pods|
      ensures "pod/" + pods[i].name in tree && tree["pod/" + pods[i].name] == PodEntry(HealthOf(pods[i]))
    {
      assert PodKey(pods[i].name) == "pod/" + pods[i].name != "fleet";
    }
  }

  // The entry of the fleet tells the number of pods and the number of those
  // that have the condition Ready with status True.
  lemma FleetEntryOfPods(pods: seq<Pod>)
    ensures var ready := set i | 0 <= i < |pods|
                           && exists c :: c in pods[i].conditions && c.ctype == "Ready" && c.status == "True";
            && "fleet" in FleetReport(pods).components
            && FleetReport(pods).components["fleet"]
               == ComponentHealth(FleetReport(pods).healthy, "", map[
                    "total_pods" := ComponentHealth(true, Decimal(|pods|), map[]),
                    "ready_pods" := ComponentHealth(|ready| == |pods|, Decimal(|ready|), map[])])
  {
    hide PodEntries, FleetStatus, ReadyCount, Decimal;
    var hs := HealthsOf(pods);
    TreeIsEntriesAndFleet(FleetStatus(hs), hs);
    ReadyCountIsSize(hs);
    forall i | 0 <= i < |pods|
      ensures hs[i].ready <==> exists c :: c in pods[i].conditions && c.ctype == "Ready" && c.status == "True"
    {
      ReadyMeans(pods, i);
    }
    assert ReadyIndices(hs)
        == set i | 0 <= i < |pods| && exists c :: c in pods[i].conditions && c.ctype == "Ready" && c.status == "True";
  }

  lemma EntriesOfPods(pods: seq<Pod>)
    requires forall i, j :: 0 <= i < j < |pods| ==> pods[i].name != pods[j].name
    ensures PodEntries(HealthsOf(pods)).Keys == set p | p in pods :: "pod/" + p.name
    ensures forall i :: 0 <= i < |pods| ==>
      && "pod/" + pods[i].name in PodEntries(HealthsOf(pods))
      && PodEntries(HealthsOf(pods))["pod/" + pods[i].name] == PodEntry(HealthOf(pods[i]))
    ensures "fleet" !in PodEntries(HealthsOf(pods))
  {
    hide PodEntries;
    var hs := HealthsOf(pods);
    FleetIsNoPod(hs);
    PodEntriesByName(hs);
    forall i | 0 <= i < |pods|
      ensures "pod/" + pods[i].name in PodEntries(hs)
        && PodEntries(hs)["pod/" + pods[i].name] == PodEntry(HealthOf(pods[i]))
    {
      assert LastOfName(hs, i) && PodKey(hs[i].name) == "pod/" + pods[i].name;
    }
    forall k
      ensures k in PodEntries(hs) <==> k in set p | p in pods :: "pod/" + p.name
    {
      if k in PodEntries(hs) {
        var i :| LastOfName(hs, i) && k == PodKey(hs[i].name);
        assert pods[i] in pods && k == "pod/" + pods[i].name;
      }
    }
  }

  // ---------- drift ----------

  datatype DriftEvent = DriftEvent(pod: string, expected: string, got: string)

  function FirstReady(pods: seq<Pod>): Option<Pod> {
    if pods == [] then None
    else if IsPodReady(pods[0]) then Some(pods[0])
    else FirstReady(pods[1..])
  }

  // Pod number i is the first with the condition Ready with status True.
  ghost predicate IsFirstReady(pods: seq<Pod>, i: int) {
    && 0 <= i < |pods|
    && (exists c :: c in pods[i].conditions && c.ctype == "Ready" && c.status == "True")
    && forall j, c :: 0 <= j < i && c in pods[j].conditions ==> !(c.ctype == "Ready" && c.status == "True")
  }

  lemma {:induction false} FirstReadyIs(pods: seq<Pod>)
    ensures FirstReady(pods).Some? ==> exists i :: IsFirstReady(pods, i) && pods[i] == FirstReady(pods).value
    ensures FirstReady(pods).None? ==>
      forall j, c :: 0 <= j < |pods| && c in pods[j].conditions ==> !(c.ctype == "Ready" && c.status == "True")
  {
    if pods != [] {
      if IsPodReady(pods[0]) {
        assert IsFirstReady(pods, 0);
      } else {
        FirstReadyIs(pods[1..]);
        assert forall j :: 0 < j < |pods| ==> pods[j] == pods[1..][j - 1];
        if FirstReady(pods).Some? {
          var i :| IsFirstReady(pods[1..], i) && pods[1..][i] == FirstReady(pods).value;
          assert IsFirstReady(pods, i + 1);
        }
      }
    }
  }

  lemma OneFirstReady(pods: seq<Pod>, i: int, j: int)
    requires IsFirstReady(pods, i) && IsFirstReady(pods, j)
    ensures i == j
  {
  }

  // Pod number i is the pod that is checked, if the check gets that far.
  ghost predicate Checked(key: string, data: map<string, string>, selector: map<string, string>,
                          pods: Result<seq<Pod>>, i: int) {
    && key in data && data[key] != ""
    && selector != map[]
    && pods.Success?
    && IsFirstReady(pods.value, i)
  }

  // An absent annotation reads as "".
  function Annotation(pod: Pod): string {
    if "collectorctrl.io/config-hash" in pod.annotations then pod.annotations["collectorctrl.io/config-hash"] else ""
  }

  // detectDrift; sha256 stands for the hash function, pods for what List
  // returned for the labels of the monitor's workload selector. For a pod that
  // is annotated with the digest of the text it runs, in whatever letter case,
  // an alarm is sound, and complete up to collisions.
  method DetectDrift(key: string, data: map<string, string>, selector: map<string, string>,
                     pods: Result<seq<Pod>>, sha256: string -> seq<byte>)
    returns (r: Result<Option<DriftEvent>>)
    ensures r.Success? <==> exists i :: Checked(key, data, selector, pods, i)
    ensures forall i, event :: Checked(key, data, selector, pods, i) ==>
      var pod, expected := pods.value[i], Hex(sha256(data[key]));
      r == Success(Some(event)) <==>
        && "collectorctrl.io/config-hash" in pod.annotations
        && var got := pod.annotations["collectorctrl.io/config-hash"];
        && got != "" && !EqualFold(got, expected)
        && event == DriftEvent(pod.name, expected, got)
    ensures forall i, running :: Checked(key, data, selector, pods, i) && Runs(pods.value[i], running, sha256) ==>
      && (r.Success? && r.value.Some? <==> sha256(running) != sha256(data[key]))
      && (r.Success? && r.value.Some? ==> running != data[key])
  {
    var expectedConfig := if key in data then data[key] else "";
    if expectedConfig == "" {
      return Failure("config key not found in ConfigMap");
    }
    var expectedHashStr := Hex(sha256(expectedConfig));
    if |selector| == 0 {
      return Failure("no workload selector matchLabels defined");
    }
    if pods.Failure? {
      return Failure(pods.error);
    }
    var items := pods.value;
    var targetPod: Option<Pod> := None;
    for i := 0 to |items|
      invariant targetPod.None? && FirstReady(items) == FirstReady(items[i..])
    {
      if IsPodReady(items[i]) {
        targetPod := Some(items[i]);
        break;
      }
    }
    assert targetPod == FirstReady(items);
    FirstReadyIs(items);
    if targetPod.None? {
      return Failure("no ready pod found for drift check");
    }
    ghost var n :| IsFirstReady(items, n) && items[n] == targetPod.value;
    assert Checked(key, data, selector, pods, n);
    forall i | Checked(key, data, selector, pods, i)
      ensures i == n
    {
      OneFirstReady(items, i, n);
    }
    var podHash := Annotation(targetPod.value);
    forall running | Runs(targetPod.value, running, sha256)
      ensures !EqualFold(podHash, expectedHashStr) <==> sha256(running) != sha256(expectedConfig)
    {
      DriftComparesHashes(podHash, running, expectedConfig, sha256);
    }
    if podHash == "" {
      return Success(None);
    }
    if !EqualFold(podHash, expectedHashStr) {
      return Success(Some(DriftEvent(targetPod.value.name, expectedHashStr, podHash)));
    }
    r := Success(None);
  }

  // The pod is annotated with the digest of the text it runs, in some mixture
  // of letter cases.
  ghost predicate Runs(pod: Pod, running: string, sha256: string -> seq<byte>) {
    && "collectorctrl.io/config-hash" in pod.annotations && pod.annotations["collectorctrl.io/config-hash"] != ""
    && EqualFold(pod.annotations["collectorctrl.io/config-hash"], Hex(sha256(running)))
  }

  // When the pod is annotated, in either letter case, with the hash of the
  // configuration it runs, the annotation differs from the expected digest
  // exactly when the two hashes differ; no assumption on the hash is needed.
  lemma DriftComparesHashes(annotation: string, running: string, expected: string, sha256: string -> seq<byte>)
    requires EqualFold(annotation, Hex(sha256(running)))
    ensures EqualFold(annotation, Hex(sha256(expected))) <==> sha256(running) == sha256(expected)
    ensures !EqualFold(annotation, Hex(sha256(expected))) ==> running != expected
  {
    EqualFoldThrough(annotation, Hex(sha256(running)), Hex(sha256(expected)));
    HexInjective(sha256(running), sha256(expected));
  }
}
