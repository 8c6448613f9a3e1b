// The texts exchanged with the management server: emergency commands in,
// acknowledgements out.
module Wire {
  import opened Wrappers
  import opened GoText

  datatype EmergencyCommand = EmergencyCommand(configYAML: string, reason: string)

  const SEPARATOR := "\n---\n"
  const EMERGENCY_PREFIX := "emergency:"

  // What onMessage makes of the data of an emergency message: it is cut at the
  // first separator.
  function ParseEmergency(data: string): EmergencyCommand {
    match IndexOf(data, SEPARATOR)
    case None => EmergencyCommand(data, "emergency override")
    case Some(i) =>
      EmergencyCommand(data[i + |SEPARATOR|..], TrimSpace(TrimPrefix(data[..i], EMERGENCY_PREFIX)))
  }

  // What the server sends.
  function EncodeEmergency(reason: string, yaml: string): string {
    EMERGENCY_PREFIX + reason + SEPARATOR + yaml
  }

  // The separator overlaps itself in its outer line feeds and nowhere else, so
  // an occurrence that starts before the one written by the encoder lies in
  // the reason, or ends in the encoder's first line feed.
  lemma EarlierOccurrence(reason: string, yaml: string, i: int)
    requires i < |EMERGENCY_PREFIX + reason|
    ensures OccursAt(EncodeEmergency(reason, yaml), SEPARATOR, i) <==>
            || OccursAt(reason, SEPARATOR, i - |EMERGENCY_PREFIX|)
            || (HasSuffix(reason, "\n---") && i == |EMERGENCY_PREFIX + reason| - 4)
  {
    var s, n, k := EncodeEmergency(reason, yaml), |EMERGENCY_PREFIX|, i - |EMERGENCY_PREFIX|;
    assert s[n + |reason|..n + |reason| + 5] == SEPARATOR;
    if 0 <= i {
      var t := s[i..i + 5];
      if i < n {
        assert t[0] == EMERGENCY_PREFIX[i];
      } else if k + 5 <= |reason| {
        assert t == reason[k..k + 5];
      } else if k + 4 == |reason| {
        assert t == reason[k..] + "\n";
        assert SEPARATOR == "\n---" + "\n";
        assert t == SEPARATOR ==> t[..4] == reason[k..] && SEPARATOR[..4] == "\n---";
      } else {
        assert t[|reason| - k] == '\n';
      }
    }
  }

  // Parsing returns exactly what was sent, for every configuration text
  // (further separators included), if and only if the reason is trimmed, holds
  // no separator and does not end in the overlap.
  lemma EmergencyRoundTrip(reason: string, yaml: string)
    ensures ParseEmergency("emergency:" + reason + "\n---\n" + yaml) == EmergencyCommand(yaml, reason) <==>
      TrimSpace(reason) == reason && !Contains(reason, "\n---\n") && !HasSuffix(reason, "\n---")
  {
    var s, n := EncodeEmergency(reason, yaml), |EMERGENCY_PREFIX|;
    var first := IndexOf(s, SEPARATOR);
    assert OccursAt(s, SEPARATOR, n + |reason|);
    if first.value < n + |reason| {
      EarlierOccurrence(reason, yaml, first.value);
    }
    assert first.value >= n ==> TrimPrefix(s[..first.value], EMERGENCY_PREFIX) == s[n..first.value];
    assert s[n..n + |reason|] == reason;
    assert s[n + |reason| + 5..] == yaml;
    if HasSuffix(reason, "\n---") {
      EarlierOccurrence(reason, yaml, n + |reason| - 4);
    }
    if Contains(reason, SEPARATOR) {
      var i :| OccursAt(reason, SEPARATOR, i);
      EarlierOccurrence(reason, yaml, i + n);
    }
  }

  // The whole data is the configuration exactly if there is no separator; else
  // the configuration is what follows the first one.
  lemma EmergencyCutAtFirst(data: string)
    ensures ParseEmergency(data).configYAML == data <==> !Contains(data, "\n---\n")
    ensures !Contains(data, "\n---\n") ==> ParseEmergency(data).reason == "emergency override"
    ensures Contains(data, "\n---\n") ==> exists head :: CutsAt(data, head, ParseEmergency(data))
  {
    var first := IndexOf(data, SEPARATOR);
    if first.Some? {
      var head := data[..first.value];
      assert data == head + SEPARATOR + ParseEmergency(data).configYAML;
      assert |"emergency:"| == 10;
      assert CutsAt(data, head, ParseEmergency(data));
    }
  }

  // The data is head, the first separator and the configuration; the reason is
  // the trimmed head, without the prefix if it has it.
  ghost predicate CutsAt(data: string, head: string, command: EmergencyCommand) {
    && data == head + "\n---\n" + command.configYAML
    && (forall i :: OccursAt(data, "\n---\n", i) ==> |head| <= i)
    && command.reason == TrimSpace(if HasPrefix(head, "emergency:") then head[10..] else head)
  }

  // ---------- acknowledgements ----------

  function ShowBool(b: bool): string {
    if b then "true" else "false"
  }

  const EMERGENCY_ACK := "emergency_ack:"
  const FETCH_LOGS_ACK := "fetch_logs_ack:"

  function RenderEmergencyAck(success: bool, errMsg: string): string {
    EMERGENCY_ACK + ShowBool(success) + ":" + errMsg
  }

  function RenderLogsAck(podName: string, logs: string, success: bool, errMsg: string): string {
    if success then FETCH_LOGS_ACK + podName + ":true:" + logs
    else FETCH_LOGS_ACK + podName + ":false:" + errMsg
  }

  // How a server reads them: field by field, the payload last.
  function ReadFlag(s: string): Option<(bool, string)> {
    var flag := Before(s, ':');
    if |flag| == |s| || flag !in {"true", "false"} then None
    else Some((flag == "true", s[|flag| + 1..]))
  }

  function ReadEmergencyAck(s: string): Option<(bool, string)> {
    if HasPrefix(s, EMERGENCY_ACK) then ReadFlag(s[|EMERGENCY_ACK|..]) else None
  }

  function ReadLogsAck(s: string): Option<(string, bool, string)> {
    if !HasPrefix(s, FETCH_LOGS_ACK) then None
    else
      var rest := s[|FETCH_LOGS_ACK|..];
      var pod := Before(rest, ':');
      if |pod| == |rest| then None
      else match ReadFlag(rest[|pod| + 1..])
        case None => None
        case Some((ok, payload)) => Some((pod, ok, payload))
  }

  lemma ReadFlagBack(b: bool, payload: string)
    ensures ReadFlag(ShowBool(b) + ":" + payload) == Some((b, payload))
  {
    var s := ShowBool(b) + ":" + payload;
    BeforeOfJoin(ShowBool(b), ':', payload);
    assert s == ShowBool(b) + [':'] + payload;
    assert s[|ShowBool(b)| + 1..] == payload;
  }

  // Every emergency acknowledgement is uniquely decodable, whatever colons or
  // texts "true:" and "false:" its error message holds.
  lemma EmergencyAckRoundTrip(success: bool, errMsg: string)
    ensures ReadEmergencyAck(RenderEmergencyAck(success, errMsg)) == Some((success, errMsg))
  {
    var s := RenderEmergencyAck(success, errMsg);
    assert s[|EMERGENCY_ACK|..] == ShowBool(success) + ":" + errMsg;
    ReadFlagBack(success, errMsg);
  }

  // A log acknowledgement is read back if and only if its pod name has no colon.
  lemma LogsAckRoundTrip(podName: string, logs: string, success: bool, errMsg: string)
    ensures ReadLogsAck(RenderLogsAck(podName, logs, success, errMsg))
            == Some((podName, success, if success then logs else errMsg))
            <==> ':' !in podName
  {
    var s := RenderLogsAck(podName, logs, success, errMsg);
    var payload := if success then logs else errMsg;
    var tail := ShowBool(success) + ":" + payload;
    var rest := podName + [':'] + tail;
    assert s == FETCH_LOGS_ACK + rest;
    assert s[|FETCH_LOGS_ACK|..] == rest;
    if ':' !in podName {
      BeforeOfJoin(podName, ':', tail);
      assert rest[|podName| + 1..] == tail;
      ReadFlagBack(success, payload);
    }
  }

  // With colons in pod names no decoder could tell the logs apart: whatever it
  // is, it misreads one of two acknowledgements, for every name and payload.
  // onFetchLogs passes on whatever name the server sent.
  lemma NoLogsDecoder(decode: string -> Option<(string, bool, string)>, podName: string, logs: string)
    ensures || decode(RenderLogsAck(podName + ":true", logs, true, "")) != Some((podName + ":true", true, logs))
            || decode(RenderLogsAck(podName, "true:" + logs, true, "")) != Some((podName, true, "true:" + logs))
  {
    assert podName + ":true" + ":true:" + logs == podName + ":true:" + ("true:" + logs);
    assert RenderLogsAck(podName + ":true", logs, true, "") == RenderLogsAck(podName, "true:" + logs, true, "");
    assert |podName + ":true"| != |podName|;
  }
}
