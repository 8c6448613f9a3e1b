// The Kubernetes objects the operator reads and writes.
module Cluster {
  import opened Wrappers
  import Conditions
  import GoText

  // Namespaces and object names hold no slash.
  type Name = s: string | '/' !in s witness ""

  datatype NamespacedName = NamespacedName(ns: Name, name: Name)

  datatype WorkloadSelector = WorkloadSelector(matchLabels: map<string, string>, kind: string, name: string)

  datatype ConfigMapSelector = ConfigMapSelector(name: Name, key: string)

  // A secret is looked up under the namespace and name that a monitor gives.
  datatype SecretId = SecretId(ns: string, name: string)

  datatype SecretRef = SecretRef(name: string, ns: string, key: string)

  datatype MonitorSpec = MonitorSpec(
    workloadSelector: WorkloadSelector,
    configMapSelector: Option<ConfigMapSelector>,
    opampServer: string,
    secretRef: Option<SecretRef>,
    driftEnabled: Option<bool>,
    emergencyEnabled: Option<bool>)

  datatype ConfigMapRef = ConfigMapRef(at: NamespacedName, key: string)

  datatype Status = Status(phase: string, configMapRef: Option<ConfigMapRef>, conditions: seq<Conditions.Condition>)

  const NEW_STATUS := Status("", None, [])

  // A CollectorMonitor. Its name is the key it is stored under; the version
  // is its resourceVersion.
  datatype Monitor = Monitor(labels: map<string, string>, spec: MonitorSpec, status: Status, version: nat)

  // What the emergency callback of a connected monitor goes by.
  datatype Captured = Captured(owner: NamespacedName, spec: MonitorSpec, target: ConfigMapRef)

  // A ConfigMap with its resourceVersion.
  datatype ConfigMap = ConfigMap(data: map<string, string>, version: nat)

  datatype Workload = Workload(ns: Name, name: string, labels: map<string, string>, podLabels: map<string, string>)

  datatype PodCondition = PodCondition(ctype: string, status: string)

  datatype Pod = Pod(
    name: string, node: string, ip: string, phase: string,
    conditions: seq<PodCondition>, annotations: map<string, string>)

  predicate MatchesLabels(wanted: map<string, string>, labels: map<string, string>) {
    forall k | k in wanted :: k in labels && labels[k] == wanted[k]
  }

  // The key of the registry maps: fmt.Sprintf("%s/%s", ns, name).
  function RegistryKey(k: NamespacedName): string {
    k.ns + "/" + k.name
  }

  // Since a namespace holds no slash, different monitors have different keys.
  lemma RegistryKeyInjective(a: NamespacedName, b: NamespacedName)
    ensures RegistryKey(a) == RegistryKey(b) <==> a == b
    ensures RegistryKey(a) == a.ns + "/" + a.name
  {
    if RegistryKey(a) == RegistryKey(b) {
      FirstSlash(a.ns, a.name, b.ns, b.name);
    }
  }

  lemma FirstSlash(a: string, x: string, b: string, y: string)
    requires '/' !in a && '/' !in b && a + "/" + x == b + "/" + y
    ensures a == b && x == y
  {
    GoText.BeforeOfJoin(a, '/', x);
    GoText.BeforeOfJoin(b, '/', y);
    assert x == (a + "/" + x)[|a| + 1..] && y == (b + "/" + y)[|b| + 1..];
  }

  // fmt.Sprintf("k8s://%s/%s/%s/%s", cluster, ns, kind, name).
  function AgentID(cluster: string, ns: string, kind: string, name: string): string {
    "k8s://" + cluster + "/" + ns + "/" + kind + "/" + name
  }

  // Agent ids identify workloads as long as all components but the last are
  // free of slashes.
  lemma AgentIDInjective(c: string, n: string, k: string, w: string, c': string, n': string, k': string, w': string)
    requires '/' !in c && '/' !in n && '/' !in k && '/' !in c' && '/' !in n' && '/' !in k'
    ensures AgentID(c, n, k, w) == AgentID(c', n', k', w') <==> (c, n, k, w) == (c', n', k', w')
  {
    var p := "k8s://";
    var r, r' := n + "/" + (k + "/" + w), n' + "/" + (k' + "/" + w');
    if AgentID(c, n, k, w) == AgentID(c', n', k', w') {
      assert AgentID(c, n, k, w) == p + (c + "/" + r);
      assert AgentID(c', n', k', w') == p + (c' + "/" + r');
      assert (p + (c + "/" + r))[6..] == c + "/" + r;
      assert (p + (c' + "/" + r'))[6..] == c' + "/" + r';
      FirstSlash(c, r, c', r');
      FirstSlash(n, k + "/" + w, n', k' + "/" + w');
      FirstSlash(k, w, k', w');
    }
  }
}
