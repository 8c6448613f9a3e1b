// The fleet-level OpAMP client wrapper.
module Opamp {
  import opened Wrappers
  import Cluster
  import opened GoText
  import opened Wire

  datatype K8sContext = K8sContext(
    clusterName: string, namespace: string, workloadType: string, workloadName: string,
    configMapName: string, configMapKey: string)

  datatype ClientConfig = ClientConfig(
    endpoint: string, headers: map<string, string>, agentID: string, agentType: string,
    labels: map<string, string>, k8sContext: Option<K8sContext>)

  datatype KeyVal = KeyVal(key: string, value: string)

  datatype ComponentHealth = ComponentHealth(healthy: bool, status: string, components: map<string, ComponentHealth>)

  datatype HealthStatus = HealthUnknown | HealthHealthy | HealthDegraded | HealthUnhealthy

  datatype PodHealth = PodHealth(name: string, node: string, ip: string, ready: bool, phase: string)

  // What reaches the opamp-go library, in the order of the calls.
  datatype Outgoing =
    | Description(identifying: seq<KeyVal>, nonIdentifying: seq<KeyVal>)
    | Health(health: ComponentHealth)
    | Connect(endpoint: string, headers: map<string, string>)
    | Disconnect
    | EffectiveConfigChanged
    | Custom(message: CustomMessage)

  // ---------- agent description ----------

  function ContextAttributes(kc: K8sContext): seq<KeyVal> {
    [ KeyVal("k8s.cluster.name", kc.clusterName), KeyVal("k8s.namespace", kc.namespace),
      KeyVal("k8s.workload.type", kc.workloadType), KeyVal("k8s.workload.name", kc.workloadName),
      KeyVal("k8s.configmap.name", kc.configMapName), KeyVal("k8s.configmap.key", kc.configMapKey) ]
  }

  // The list is some enumeration of the labels followed by the attributes of
  // the context.
  ghost predicate IsNonIdentifying(config: ClientConfig, kvs: seq<KeyVal>) {
    exists labels: seq<KeyVal> ::
      && Enumerates(labels, config.labels)
      && kvs == labels + if config.k8sContext.Some? then ContextAttributes(config.k8sContext.value) else []
  }

  ghost predicate Enumerates(kvs: seq<KeyVal>, m: map<string, string>) {
    && |kvs| == |m|
    && (forall kv :: kv in kvs ==> kv.key in m && m[kv.key] == kv.value)
    && (forall i, j :: 0 <= i < j < |kvs| ==> kvs[i].key != kvs[j].key)
    && (forall k :: k in m ==> KeyVal(k, m[k]) in kvs)
  }

  ghost predicate IsDescription(config: ClientConfig, d: Outgoing) {
    && d.Description?
    && d.identifying == [KeyVal("service.name", config.agentType), KeyVal("service.instance.id", config.agentID)]
    && IsNonIdentifying(config, d.nonIdentifying)
  }

  // ---------- health ----------

  function ReadyCount(pods: seq<PodHealth>): nat {
    if pods == [] then 0
    else ReadyCount(pods[..|pods| - 1]) + if pods[|pods| - 1].ready then 1 else 0
  }

  function PodEntry(p: PodHealth): ComponentHealth {
    ComponentHealth(p.ready, "node=" + p.node + " ip=" + p.ip + " phase=" + p.phase, map[])
  }

  // The key of a pod in the health map; no pod can take the key "fleet".
  function PodKey(name: string): (k: string)
    ensures HasPrefix(k, "pod/") && k[4..] == name && k != "fleet"
  {
    assert "fleet"[0] != 'p';
    "pod/" + name
  }

  function PodEntries(pods: seq<PodHealth>): map<string, ComponentHealth> {
    if pods == [] then map[]
    else
      var last := pods[|pods| - 1];
      PodEntries(pods[..|pods| - 1])[PodKey(last.name) := PodEntry(last)]
  }

  function FleetEntry(health: HealthStatus, ready: nat, total: nat): ComponentHealth {
    ComponentHealth(health == HealthHealthy, "", map[
      "total_pods" := ComponentHealth(true, Decimal(total), map[]),
      "ready_pods" := ComponentHealth(ready == total, Decimal(ready), map[])])
  }

  function HealthTree(health: HealthStatus, pods: seq<PodHealth>): ComponentHealth {
    ComponentHealth(health == HealthHealthy, "",
      map["fleet" := FleetEntry(health, ReadyCount(pods), |pods|)] + PodEntries(pods))
  }

  const INITIAL_HEALTH :=
    ComponentHealth(false, "", map["fleet" := ComponentHealth(false, "initializing", map[])])

  // ---------- effective configuration ----------

  datatype AgentConfigFile = AgentConfigFile(body: string, contentType: string)

  function EffectiveConfigFiles(text: string): map<string, AgentConfigFile> {
    map["" := AgentConfigFile(text, "text/yaml")]
  }

  // ---------- messages ----------

  datatype RemoteConfig = RemoteConfig(files: map<string, string>, hash: seq<byte>)

  datatype CustomMessage = CustomMessage(capability: string, ctype: string, data: string)

  datatype MessageData = MessageData(remoteConfig: Option<RemoteConfig>, custom: Option<CustomMessage>)

  datatype HandlerCall =
    | ConfigUpdate(configYAML: string, configHash: string)
    | Emergency(command: EmergencyCommand)
    | FetchLogs(podName: string)

  // The acknowledgements a client sends.
  function EmergencyAck(success: bool, errMsg: string): Outgoing {
    Custom(CustomMessage("collectorctrl", "emergency_ack", RenderEmergencyAck(success, errMsg)))
  }

  function LogsAck(podName: string, logs: string, success: bool, errMsg: string): Outgoing {
    Custom(CustomMessage("collectorctrl", "fetch_logs_response", RenderLogsAck(podName, logs, success, errMsg)))
  }

  // The handler calls a custom message leads to.
  function DispatchCustom(emergency: bool, logs: bool, msg: CustomMessage): seq<HandlerCall> {
    if !EqualFold(msg.capability, "collectorctrl") then []
    else if EqualFold(msg.ctype, "emergency") && emergency then [Emergency(ParseEmergency(msg.data))]
    else if EqualFold(msg.ctype, "fetch_logs") && logs then [FetchLogs(msg.data)]
    else []
  }

  // One call, for an arbitrary file, if there is a handler and a file.
  ghost predicate IsUpdatePart(handler: bool, remote: Option<RemoteConfig>, calls: seq<HandlerCall>) {
    if !handler || remote.None? || remote.value.files.Keys == {} then calls == []
    else exists f :: f in remote.value.files && calls == [ConfigUpdate(remote.value.files[f], Hex(remote.value.hash))]
  }

  ghost predicate IsEmergencyMessage(msg: CustomMessage) {
    EqualFold(msg.capability, "collectorctrl") && EqualFold(msg.ctype, "emergency")
  }

  // A custom message makes one emergency call or one logs call, if its
  // capability is "collectorctrl" and its type is "emergency" or "fetch_logs",
  // up to letter case, and if there is a handler for it; any other makes none.
  lemma DispatchExactlyOnce(emergency: bool, logs: bool, msg: CustomMessage)
    ensures var calls, ours := DispatchCustom(emergency, logs, msg), EqualFold(msg.capability, "collectorctrl");
            && (ours && EqualFold(msg.ctype, "emergency") && emergency ==>
                  calls == [Emergency(ParseEmergency(msg.data))])
            && (ours && EqualFold(msg.ctype, "fetch_logs") && logs ==> calls == [FetchLogs(msg.data)])
            && (calls != [] ==>
                  && ours
                  && (|| (EqualFold(msg.ctype, "emergency") && emergency)
                      || (EqualFold(msg.ctype, "fetch_logs") && logs)))
    ensures IsEmergencyMessage(msg) <==> EqualFold(msg.capability, "collectorctrl") && EqualFold(msg.ctype, "emergency")
  {
    assert |"fetch_logs"| != |"emergency"|;
  }

  class Client {
    const config: ClientConfig
    var created: bool             // the library client exists
    var running: bool             // it was started and not stopped since
    var effectiveConfig: string
    var onConfigUpdate: bool                // the registered handlers, by what they captured:
    var onEmergencyCmd: Option<Cluster.Captured>    // the monitor and its ConfigMap
    var onFetchLogs: Option<Cluster.Name>           // the namespace of the pods
    var sent: seq<Outgoing>

    constructor (config: ClientConfig)
      ensures this.config == config && !created && !running && effectiveConfig == "" && sent == []
      ensures !onConfigUpdate && onEmergencyCmd.None? && onFetchLogs.None?
    {
      this.config := config;
      created, running, effectiveConfig, sent := false, false, "", [];
      onConfigUpdate, onEmergencyCmd, onFetchLogs := false, None, None;
    }

    method OnHandlers(captured: Cluster.Captured)
      modifies this`onConfigUpdate, this`onEmergencyCmd, this`onFetchLogs
      ensures onConfigUpdate && onEmergencyCmd == Some(captured) && onFetchLogs == Some(captured.owner.ns)
    {
      onConfigUpdate, onEmergencyCmd, onFetchLogs := true, Some(captured), Some(captured.owner.ns);
    }

    method AgentDescription() returns (d: Outgoing)
      ensures IsDescription(config, d)
    {
      var kvs: seq<KeyVal> := [];
      var rest := config.labels.Keys;
      while rest != {}
        invariant rest <= config.labels.Keys
        invariant |kvs| + |rest| == |config.labels|
        invariant forall kv :: kv in kvs ==> kv.key in config.labels && config.labels[kv.key] == kv.value
        invariant forall kv :: kv in kvs ==> kv.key !in rest
        invariant forall i, j :: 0 <= i < j < |kvs| ==> kvs[i].key != kvs[j].key
        invariant forall k :: k in config.labels && k !in rest ==> KeyVal(k, config.labels[k]) in kvs
      {
        var k :| k in rest;
        rest := rest - {k};
        kvs := kvs + [KeyVal(k, config.labels[k])];
      }
      assert Enumerates(kvs, config.labels);
      d := Description(
        [KeyVal("service.name", config.agentType), KeyVal("service.instance.id", config.agentID)],
        kvs + if config.k8sContext.Some? then ContextAttributes(config.k8sContext.value) else []);
    }

    // The flags say which of the three library calls succeed. The initial
    // health is always reported before the connection is made.
    method Start(okDescription: bool, okHealth: bool, okConnect: bool) returns (ok: bool)
      modifies this
      ensures created && effectiveConfig == old(effectiveConfig)
      ensures onConfigUpdate == old(onConfigUpdate) && onEmergencyCmd == old(onEmergencyCmd)
        && onFetchLogs == old(onFetchLogs)
      ensures ok == (okDescription && okHealth && okConnect)
      ensures running == (old(running) || ok)
      ensures exists d: Outgoing ::
        var initial := ComponentHealth(false, "", map["fleet" := ComponentHealth(false, "initializing", map[])]);
        && IsDescription(config, d)
        && sent == old(sent) + if !okDescription then []
                               else if !okHealth then [d]
                               else if !okConnect then [d, Health(initial)]
                               else [d, Health(initial), Connect(config.endpoint, config.headers)]
    {
      created := true;
      var d := AgentDescription();
      if !okDescription {
        return false;
      }
      sent := sent + [d];
      if !okHealth {
        return false;
      }
      sent := sent + [Health(INITIAL_HEALTH)];
      if !okConnect {
        return false;
      }
      sent := sent + [Connect(config.endpoint, config.headers)];
      running := true;
      ok := true;
    }

    method Stop()
      modifies this`running, this`sent
      ensures created ==> !running && sent == old(sent) + [Disconnect]
      ensures !created ==> running == old(running) && sent == old(sent)
    {
      if created {
        sent := sent + [Disconnect];
        running := false;
      }
    }

    // The counting loop of SetHealth.
    static method CountReady(pods: seq<PodHealth>) returns (ready: nat)
      ensures ready == ReadyCount(pods)
    {
      ready := 0;
      for i := 0 to |pods|
        invariant ready == ReadyCount(pods[..i])
      {
        if pods[i].ready {
          ready := ready + 1;
        }
        assert pods[..i + 1][..i] == pods[..i];
      }
      assert pods[..|pods|] == pods;
    }

    // Its loop that fills the map.
    static method AddPods(fleet: map<string, ComponentHealth>, pods: seq<PodHealth>)
      returns (componentHealthMap: map<string, ComponentHealth>)
      ensures componentHealthMap == fleet + PodEntries(pods)
    {
      componentHealthMap := fleet;
      for i := 0 to |pods|
        invariant componentHealthMap == fleet + PodEntries(pods[..i])
      {
        var p := pods[i];
        var status := "node=" + p.node + " ip=" + p.ip + " phase=" + p.phase;
        componentHealthMap := componentHealthMap["pod/" + p.name := ComponentHealth(p.ready, status, map[])];
        assert pods[..i + 1][..i] == pods[..i];
      }
      assert pods[..|pods|] == pods;
    }

    method SetHealth(health: HealthStatus, pods: seq<PodHealth>, okSend: bool) returns (ok: bool)
      modifies this`sent
      ensures ok == (created && okSend)
      ensures sent == if ok then old(sent) + [Health(HealthTree(health, pods))] else old(sent)
    {
      if !created {
        return false;
      }
      var ready := CountReady(pods);
      var total := |pods|;
      var healthy := health == HealthHealthy;
      var componentHealthMap := map["fleet" := ComponentHealth(healthy, "", map[
        "total_pods" := ComponentHealth(true, Decimal(total), map[]),
        "ready_pods" := ComponentHealth(ready == total, Decimal(ready), map[])])];
      componentHealthMap := AddPods(componentHealthMap, pods);
      ok := okSend;
      if okSend {
        sent := sent + [Health(ComponentHealth(healthy, "", componentHealthMap))];
      }
    }

    // The text is stored before the server is told, so it is kept even when
    // telling the server fails.
    method SetEffectiveConfig(configYAML: string, okSend: bool) returns (ok: bool)
      modifies this`effectiveConfig, this`sent
      ensures ok == (created && okSend)
      ensures effectiveConfig == if created then configYAML else old(effectiveConfig)
      ensures created ==> GetEffectiveConfig() == map["" := AgentConfigFile(configYAML, "text/yaml")]
      ensures sent == if ok then old(sent) + [EffectiveConfigChanged] else old(sent)
    {
      if !created {
        return false;
      }
      effectiveConfig := configYAML;
      ok := okSend;
      if okSend {
        sent := sent + [EffectiveConfigChanged];
      }
    }

    method SendEmergencyAck(success: bool, errMsg: string, okSend: bool) returns (ok: bool)
      modifies this`sent
      ensures ok == (created && okSend)
      ensures sent == old(sent) + if ok then [EmergencyAck(success, errMsg)] else []
      ensures ok ==> sent[|sent| - 1] == Custom(CustomMessage("collectorctrl", "emergency_ack",
                       "emergency_ack:" + (if success then "true" else "false") + ":" + errMsg))
    {
      ok := created && okSend;
      if ok {
        var data := "emergency_ack:" + ShowBool(success) + ":" + errMsg;
        sent := sent + [Custom(CustomMessage("collectorctrl", "emergency_ack", data))];
      }
    }

    method SendPodLogs(podName: string, logs: string, success: bool, errMsg: string, okSend: bool) returns (ok: bool)
      modifies this`sent
      ensures ok == (created && okSend)
      ensures sent == old(sent) + if ok then [LogsAck(podName, logs, success, errMsg)] else []
      ensures ok ==> sent[|sent| - 1] == Custom(CustomMessage("collectorctrl", "fetch_logs_response",
                       if success then "fetch_logs_ack:" + podName + ":true:" + logs
                       else "fetch_logs_ack:" + podName + ":false:" + errMsg))
    {
      ok := created && okSend;
      if ok {
        var data := if success then "fetch_logs_ack:" + podName + ":true:" + logs
                    else "fetch_logs_ack:" + podName + ":false:" + errMsg;
        sent := sent + [Custom(CustomMessage("collectorctrl", "fetch_logs_response", data))];
      }
    }

    function GetEffectiveConfig(): map<string, AgentConfigFile>
      reads this
    {
      EffectiveConfigFiles(effectiveConfig)
    }

    // The handler calls made for one message: at most one for an arbitrary
    // file of a remote configuration, then those of the custom message.
    method OnMessage(msg: MessageData) returns (calls: seq<HandlerCall>)
      ensures exists updates: seq<HandlerCall> ::
        && IsUpdatePart(onConfigUpdate, msg.remoteConfig, updates)
        && calls == updates + if msg.custom.None? then []
                             else DispatchCustom(onEmergencyCmd.Some?, onFetchLogs.Some?, msg.custom.value)
    {
      calls := [];
      if msg.remoteConfig.Some? && onConfigUpdate {
        var files := msg.remoteConfig.value.files;
        if files.Keys != {} {
          var f :| f in files.Keys;
          calls := [ConfigUpdate(files[f], Hex(msg.remoteConfig.value.hash))];
        }
      }
      ghost var updates := calls;
      if msg.custom.Some? {
        var cm := msg.custom.value;
        if EqualFold(cm.capability, "collectorctrl") {
          if EqualFold(cm.ctype, "emergency") && onEmergencyCmd.Some? {
            var data := cm.data;
            var reason, configYAML := "emergency override", data;
            var cut := IndexOf(data, SEPARATOR);
            if cut.Some? {
              reason := TrimSpace(TrimPrefix(data[..cut.value], "emergency:"));
              configYAML := data[cut.value + |SEPARATOR|..];
            }
            calls := calls + [Emergency(EmergencyCommand(configYAML, reason))];
          } else if EqualFold(cm.ctype, "fetch_logs") && onFetchLogs.Some? {
            calls := calls + [FetchLogs(cm.data)];
          }
        }
      }
      assert IsUpdatePart(onConfigUpdate, msg.remoteConfig, updates);
      assert calls == updates + (if msg.custom.None? then []
                                 else DispatchCustom(onEmergencyCmd.Some?, onFetchLogs.Some?, msg.custom.value));
    }
  }
}
