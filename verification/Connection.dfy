// The configuration a monitor's OpAMP client is built from.
module Connection {
  import opened Wrappers
  import opened Cluster
  import Discovery
  import opened Opamp

  function ClusterName(labels: map<string, string>): string {
    if "k8s.cluster.name" in labels then labels["k8s.cluster.name"] else "unknown"
  }

  function SecretKeyName(ref: SecretRef): string {
    if ref.key == "" then "secret-key" else ref.key
  }

  // The secret a monitor of namespace ns names: of its own namespace unless it
  // says otherwise.
  function SecretOf(ref: SecretRef, ns: string): SecretId {
    SecretId(if ref.ns == "" then ns else ref.ns, ref.name)
  }

  type Secrets = map<SecretId, map<string, string>>

  // The credential of a monitor, given the secrets: the entry of the secret it
  // names (an absent entry reads as ""), else the operator's default, else none.
  function Credential(spec: MonitorSpec, ns: string, secrets: Secrets, defaultSecretKey: string): Option<string>
    requires SecretExists(spec, ns, secrets)
  {
    if spec.secretRef.Some? then
      var secret := secrets[SecretOf(spec.secretRef.value, ns)];
      var k := SecretKeyName(spec.secretRef.value);
      Some(if k in secret then secret[k] else "")
    else if defaultSecretKey != "" then Some(defaultSecretKey)
    else None
  }

  // Whether the secret it names, if any, exists.
  predicate SecretExists(spec: MonitorSpec, ns: string, secrets: Secrets) {
    spec.secretRef.Some? ==> SecretOf(spec.secretRef.value, ns) in secrets
  }

  function Headers(credential: Option<string>): map<string, string> {
    match credential
    case Some(v) => map["Authorization" := "Secret-Key " + v]
    case None => map[]
  }

  function BuildConfig(key: NamespacedName, m: Monitor, ref: ConfigMapRef, f: Discovery.Found,
                       credential: Option<string>): ClientConfig {
    var cluster := ClusterName(m.labels);
    ClientConfig(
      m.spec.opampServer,
      Headers(credential),
      AgentID(cluster, key.ns, f.kind, f.workload.name),
      "kubernetes",
      map[ "k8s.cluster.name" := cluster, "k8s.namespace" := key.ns,
           "k8s.workload.type" := f.kind, "k8s.workload.name" := f.workload.name ],
      Some(K8sContext(cluster, key.ns, f.kind, f.workload.name, ref.at.name, ref.key)))
  }

  // The headers that authenticate a monitor of namespace ns, in terms of the
  // stored secrets: the entry under the named key, "secret-key" by default, of
  // the secret of that name in the named namespace, ns by default; an absent
  // entry reads as "". Without a secret reference, the operator's default key
  // if there is one.
  ghost predicate Authenticates(headers: map<string, string>, spec: MonitorSpec, ns: string, secrets: Secrets,
                                defaultSecretKey: string) {
    match spec.secretRef
    case Some(ref) =>
      var id := SecretId(if ref.ns == "" then ns else ref.ns, ref.name);
      var key := if ref.key == "" then "secret-key" else ref.key;
      && id in secrets
      && headers == map["Authorization" := "Secret-Key " + if key in secrets[id] then secrets[id][key] else ""]
    case None =>
      headers == if defaultSecretKey != "" then map["Authorization" := "Secret-Key " + defaultSecretKey] else map[]
  }

  lemma HeadersAuthenticate(spec: MonitorSpec, ns: string, secrets: Secrets, defaultSecretKey: string)
    requires SecretExists(spec, ns, secrets)
    ensures Authenticates(Headers(Credential(spec, ns, secrets, defaultSecretKey)), spec, ns, secrets, defaultSecretKey)
  {
  }

  // All of a configuration but its headers, in terms of the monitor, the
  // workload and the reference.
  ghost predicate Identifies(config: ClientConfig, key: NamespacedName, m: Monitor, ref: ConfigMapRef,
                             f: Discovery.Found) {
    var cluster := if "k8s.cluster.name" in m.labels then m.labels["k8s.cluster.name"] else "unknown";
    && config.endpoint == m.spec.opampServer
    && config.agentID == "k8s://" + cluster + "/" + key.ns + "/" + f.kind + "/" + f.workload.name
    && config.agentType == "kubernetes"
    && config.labels == map["k8s.cluster.name" := cluster, "k8s.namespace" := key.ns,
                            "k8s.workload.type" := f.kind, "k8s.workload.name" := f.workload.name]
    && config.k8sContext
       == Some(K8sContext(cluster, key.ns, f.kind, f.workload.name, ref.at.name, ref.key))
  }

  lemma BuildIdentifies(key: NamespacedName, m: Monitor, ref: ConfigMapRef, f: Discovery.Found,
                        credential: Option<string>)
    ensures Identifies(BuildConfig(key, m, ref, f, credential), key, m, ref, f)
    ensures BuildConfig(key, m, ref, f, credential).headers == Headers(credential)
  {
  }

  lemma BuiltIf(config: ClientConfig, key: NamespacedName, m: Monitor, ref: ConfigMapRef, f: Discovery.Found,
                credential: Option<string>)
    requires Identifies(config, key, m, ref, f) && config.headers == Headers(credential)
    ensures config == BuildConfig(key, m, ref, f, credential)
  {
    BuildIdentifies(key, m, ref, f, credential);
  }

  ghost function Attributes(kvs: seq<KeyVal>): set<KeyVal> {
    set kv | kv in kvs
  }

  lemma ContextKeysDiffer(kc: K8sContext)
    ensures forall i, j :: 0 <= i < j < 6 ==> ContextAttributes(kc)[i].key != ContextAttributes(kc)[j].key
  {
    var c := ContextAttributes(kc);
    assert |c[0].key| == 16 && |c[1].key| == 13 && |c[4].key| == 18;
    assert c[2].key[13] == 't' && c[3].key[13] == 'n' && c[5].key[13] == '.';
  }

  // Each label is one of the first four attributes of the context.
  lemma LabelsComeFromContext(key: NamespacedName, m: Monitor, ref: ConfigMapRef, f: Discovery.Found,
                              credential: Option<string>)
    ensures var config := BuildConfig(key, m, ref, f, credential);
            var context := ContextAttributes(config.k8sContext.value);
            && |config.labels| == 4
            && forall k :: k in config.labels ==> exists i :: 0 <= i < 4 && context[i] == KeyVal(k, config.labels[k])
  {
    hide Headers, AgentID, ClusterName;
    var config := BuildConfig(key, m, ref, f, credential);
    var context := ContextAttributes(config.k8sContext.value);
    ContextKeysDiffer(config.k8sContext.value);
    assert config.labels.Keys == {context[0].key, context[1].key, context[2].key, context[3].key};
    forall k | k in config.labels
      ensures exists i :: 0 <= i < 4 && context[i] == KeyVal(k, config.labels[k])
    {
      var i :| 0 <= i < 4 && context[i].key == k;
    }
  }

  // The labels repeat attributes of the context; they never disagree. In every
  // enumeration order of the labels the non-identifying list is the same map
  // of six attributes.
  lemma AttributesAreAMap(key: NamespacedName, m: Monitor, ref: ConfigMapRef, f: Discovery.Found,
                          credential: Option<string>)
    ensures var config := BuildConfig(key, m, ref, f, credential);
            var cluster := if "k8s.cluster.name" in m.labels then m.labels["k8s.cluster.name"] else "unknown";
            forall kvs: seq<KeyVal> :: IsNonIdentifying(config, kvs) ==>
              && Attributes(kvs) == {KeyVal("k8s.cluster.name", cluster), KeyVal("k8s.namespace", key.ns),
                                     KeyVal("k8s.workload.type", f.kind), KeyVal("k8s.workload.name", f.workload.name),
                                     KeyVal("k8s.configmap.name", ref.at.name), KeyVal("k8s.configmap.key", ref.key)}
              && (forall a, b :: a in kvs && b in kvs && a.key == b.key ==> a == b)
              && |kvs| == 10
  {
    var config := BuildConfig(key, m, ref, f, credential);
    var context := ContextAttributes(config.k8sContext.value);
    LabelsComeFromContext(key, m, ref, f, credential);
    ContextKeysDiffer(config.k8sContext.value);
    assert Attributes(context) == {context[0], context[1], context[2], context[3], context[4], context[5]};
    forall kvs: seq<KeyVal> | IsNonIdentifying(config, kvs)
      ensures && Attributes(kvs) == Attributes(context)
              && (forall a, b :: a in kvs && b in kvs && a.key == b.key ==> a == b)
              && |kvs| == 10
    {
      ListedAfterLabels(config.labels, context, kvs);
    }
  }

  lemma ListedAfterLabels(labels: map<string, string>, context: seq<KeyVal>, kvs: seq<KeyVal>)
    requires forall k :: k in labels ==> exists i :: 0 <= i < |context| && context[i] == KeyVal(k, labels[k])
    requires forall i, j :: 0 <= i < j < |context| ==> context[i].key != context[j].key
    requires exists ls: seq<KeyVal> :: Enumerates(ls, labels) && kvs == ls + context
    ensures Attributes(kvs) == Attributes(context)
    ensures forall a, b :: a in kvs && b in kvs && a.key == b.key ==> a == b
    ensures |kvs| == |labels| + |context|
  {
    var ls: seq<KeyVal> :| Enumerates(ls, labels) && kvs == ls + context;
    assert forall kv :: kv in ls ==> kv in context;
    assert forall kv :: kv in kvs <==> kv in context;
  }
}
