// What emergency messages do, in every run: the story of each handler call,
// what it may change, and the configuration that comes back in reports.
module EmergencySafety {
  import opened Wrappers
  import opened Cluster
  import opened Discovery
  import GoText
  import Wire
  import opened Opamp
  import Connection
  import opened Operator
  import RegistrySafety
  import SnapshotSafety

  // ---------- the story of one handler call ----------

  predicate About(e: Event, h: Id) {
    (e.Delivered? || e.Wrote? || e.Restarted? || e.Acked?) && e.h == h
  }

  ghost function Story(trace: seq<Event>, h: Id): seq<Event> {
    if trace == [] then []
    else
      var n := |trace| - 1;
      Story(trace[..n], h) + if About(trace[n], h) then [trace[n]] else []
  }

  lemma StoryAppended(trace: seq<Event>, e: Event)
    ensures forall h :: Story(trace + [e], h) == Story(trace, h) + if About(e, h) then [e] else []
  {
    assert (trace + [e])[..|trace|] == trace;
  }

  // The workload is one the captured selector admits, in the monitor's namespace.
  ghost predicate Suits(captured: Captured, f: Found) {
    var sel := captured.spec.workloadSelector;
    && sel.kind in {"", f.kind} && sel.name in {"", f.workload.name} && f.workload.ns == captured.owner.ns
    && forall k :: k in sel.matchLabels ==> k in f.workload.labels && f.workload.labels[k] == sel.matchLabels[k]
  }

  function IdOf(f: Found): WorkloadId {
    WorkloadId(f.kind, f.workload.ns, f.workload.name)
  }

  ghost predicate Disabled(captured: Captured) {
    captured.spec.emergencyEnabled == Some(false)
  }

  // The events of a call that has patched a workload.
  ghost predicate Patched(events: seq<Event>, d: Event, w: Event, h: Id, captured: Captured) {
    exists f :: Suits(captured, f) && events == [d, w, Restarted(h, IdOf(f))]
  }

  // What the history holds about call h, at each point of the call.
  ghost predicate Tells(events: seq<Event>, h: Id, handler: Handler, captured: Captured) {
    var d := Delivered(h, handler.c, handler.data);
    var w := Wrote(h, captured.target, handler.command.configYAML);
    match handler.pc
    case Gate => events == [d]
    case ReadMap => !Disabled(captured) && events == [d]
    case WriteMap(_) => !Disabled(captured) && events == [d]
    case FindTarget => !Disabled(captured) && events == [d, w]
    case Restart(f) => !Disabled(captured) && events == [d, w] && Suits(captured, f)
    case Ack(success) =>
      !Disabled(captured) && (Patched(events, d, w, h, captured) || (!success && events in {[d], [d, w]}))
    case Closed =>
      if Disabled(captured) then events == [d]
      else Finished(events, d, w, h, captured)
    case Panicked => !Disabled(captured) && events == [d]
  }

  // A finished call made exactly one acknowledgement: a positive one after the
  // write and then the restart; a negative one at any point, even after both if
  // the response to the restart was lost.
  ghost predicate Finished(events: seq<Event>, d: Event, w: Event, h: Id, captured: Captured) {
    || events == [d, Acked(h, false)]
    || events == [d, w, Acked(h, false)]
    || exists f ::
         Suits(captured, f)
         && var restarted := Restarted(h, WorkloadId(f.kind, f.workload.ns, f.workload.name));
            events == [d, w, restarted, Acked(h, true)] || events == [d, w, restarted, Acked(h, false)]
  }

  // What the history says of one call.
  ghost predicate CallInv(s: State, h: Id) {
    if h in s.handlers then
      && s.handlers[h].c in s.clients
      && s.handlers[h].command == Wire.ParseEmergency(s.handlers[h].data)
      && Tells(Story(s.trace, h), h, s.handlers[h], s.clients[s.handlers[h].c].captured)
    else Story(s.trace, h) == []
  }

  ghost predicate HandlersInv(s: State) {
    forall h :: CallInv(s, h)
  }

  lemma FoundSuits(captured: Captured, l: Listing)
    requires LegalListing(captured.spec.workloadSelector, captured.owner.ns, l)
    ensures var r := Discover(captured.spec.workloadSelector, l); r.Success? ==> Suits(captured, r.value)
  {
    var sel := captured.spec.workloadSelector;
    if Discover(sel, l).Success? {
      FoundWasListed(sel, Calls(l));
    }
  }

  ghost function EventsOf(e: HandlerEffect, h: Id, captured: Captured, yaml: string): seq<Event> {
    match e
    case NoEffect => []
    case WriteConfig(_) => [Wrote(h, captured.target, yaml)]
    case StampWorkload(id, _) => [Restarted(h, id)]
    case SendAck(success) => [Acked(h, success)]
    case Crash => []
  }

  // One step of the call extends its story.
  lemma TellsOn(s: State, events: seq<Event>, h: Id, handler: Handler, captured: Captured, o: Outcome)
    requires Tells(events, h, handler, captured) && !handler.pc.Closed?
    requires handler.pc.FindTarget? ==> LegalListing(captured.spec.workloadSelector, captured.owner.ns, o.listing)
    ensures var d := DecideHandle(s, handler, captured, o);
            var added := EventsOf(d.effect, h, captured, handler.command.configYAML);
            Tells(events + added, h, handler.(pc := d.next), captured)
  {
    var d, w := Delivered(h, handler.c, handler.data), Wrote(h, captured.target, handler.command.configYAML);
    match DecideHandle(s, handler, captured, o).effect
    case WriteConfig(_) =>
      assert events + [w] == [d, w];
    case StampWorkload(id, _) =>
      var f := handler.pc.found;
      assert id == IdOf(f) && Suits(captured, f) && events + [Restarted(h, id)] == [d, w, Restarted(h, IdOf(f))];
    case SendAck(success) =>
      AckFinishes(events, d, w, h, captured, success);
    case _ =>
      assert events + [] == events;
      if handler.pc.FindTarget? {
        FoundSuits(captured, o.listing);
      }
  }

  lemma AckFinishes(events: seq<Event>, d: Event, w: Event, h: Id, captured: Captured, success: bool)
    requires Patched(events, d, w, h, captured) || (!success && events in {[d], [d, w]})
    ensures Finished(events + [Acked(h, success)], d, w, h, captured)
  {
    var ack := Acked(h, success);
    if Patched(events, d, w, h, captured) {
      var f :| Suits(captured, f) && events == [d, w, Restarted(h, IdOf(f))];
      assert events + [ack] == [d, w, Restarted(h, IdOf(f)), ack];
    }
  }

  lemma HandleTrace(s: State, h: Id, o: Outcome)
    requires HandleEnabled(s, h, o)
    ensures var handler := s.handlers[h];
            var captured := s.clients[handler.c].captured;
            var d := DecideHandle(s, handler, captured, o);
            && ApplyHandle(s, h, o).trace == s.trace + EventsOf(d.effect, h, captured, handler.command.configYAML)
            && ApplyHandle(s, h, o).handlers == s.handlers[h := handler.(pc := d.next)]
  {
  }

  lemma EventsOfCall(e: HandlerEffect, h: Id, captured: Captured, yaml: string)
    ensures |EventsOf(e, h, captured, yaml)| <= 1
    ensures forall x :: x in EventsOf(e, h, captured, yaml) ==> About(x, h) && forall h' :: h' != h ==> !About(x, h')
  {
  }

  lemma StoriesAfter(trace: seq<Event>, events: seq<Event>, h: Id)
    requires |events| <= 1 && forall x :: x in events ==> About(x, h) && forall h' :: h' != h ==> !About(x, h')
    ensures Story(trace + events, h) == Story(trace, h) + events
    ensures forall h' :: h' != h ==> Story(trace + events, h') == Story(trace, h')
  {
    if events == [] {
      assert trace + events == trace;
    } else {
      assert events == [events[0]];
      StoryAppended(trace, events[0]);
    }
  }

  lemma HandlersHandle(s: State, h: Id, o: Outcome)
    requires HandlersInv(s) && HandleEnabled(s, h, o)
    ensures HandlersInv(ApplyHandle(s, h, o))
  {
    hide ApplyHandle, DecideHandle, Tells, LegalListing, Discover, Story, Wire.ParseEmergency, EventsOf;
    var handler := s.handlers[h];
    var captured := s.clients[handler.c].captured;
    var e := DecideHandle(s, handler, captured, o).effect;
    RegistrySafety.HandlerFrame(s, h, o);
    HandleTrace(s, h, o);
    EventsOfCall(e, h, captured, handler.command.configYAML);
    StoriesAfter(s.trace, EventsOf(e, h, captured, handler.command.configYAML), h);
    assert CallInv(s, h);
    TellsOn(s, Story(s.trace, h), h, handler, captured, o);
    forall h'
      ensures CallInv(ApplyHandle(s, h, o), h')
    {
      assert CallInv(s, h');
    }
  }

  // An emergency message to a live client makes exactly one call; any other
  // message makes none and changes nothing here.
  lemma DeliveryMakesOneCall(s: State, c: Id, h: Id, msg: CustomMessage)
    requires Enabled(s, Deliver(c, h, msg))
    ensures var s' := Apply(s, Deliver(c, h, msg));
            if IsEmergencyMessage(msg) then
              && s'.handlers == s.handlers[h := Handler(c, msg.data, Wire.ParseEmergency(msg.data), Gate)]
              && s' == Log(s, Delivered(h, c, msg.data)).(handlers := s'.handlers)
            else s' == s
  {
    DispatchExactlyOnce(true, true, msg);
  }

  lemma HandlersDeliver(s: State, c: Id, h: Id, msg: CustomMessage)
    requires HandlersInv(s) && Enabled(s, Deliver(c, h, msg))
    ensures HandlersInv(Apply(s, Deliver(c, h, msg)))
  {
    hide Apply, Story, Wire.ParseEmergency;
    var s' := Apply(s, Deliver(c, h, msg));
    var d := Delivered(h, c, msg.data);
    DeliveryMakesOneCall(s, c, h, msg);
    OthersKeepClients(s, Deliver(c, h, msg));
    if IsEmergencyMessage(msg) {
      StoryAppended(s.trace, d);
      forall h'
        ensures CallInv(s', h')
      {
        assert CallInv(s, h');
        if h' == h {
          assert Story(s'.trace, h) == [] + [d];
        } else {
          assert Story(s'.trace, h') == Story(s.trace, h') + [];
          assert Story(s'.trace, h') == Story(s.trace, h');
        }
      }
    }
  }

  lemma HandlersQuiet(s: State, a: Action)
    requires HandlersInv(s) && Enabled(s, a) && !a.Handle? && !a.Deliver?
    ensures HandlersInv(Apply(s, a))
  {
    hide Apply, Enabled, Tells;
    var s' := Apply(s, a);
    NotAboutCalls(s, a);
    TraceGrows(s, a);
    if s'.trace != s.trace {
      StoryAppended(s.trace, s'.trace[|s.trace|]);
    }
    forall h
      ensures CallInv(s', h)
    {
      assert CallInv(s, h);
      assert Story(s'.trace, h) == Story(s.trace, h);
      if h in s.handlers {
        var c := s.handlers[h].c;
        ClientsFrozen(s, a, c);
      }
    }
  }

  lemma NotAboutCalls(s: State, a: Action)
    requires Enabled(s, a) && !a.Handle? && !a.Deliver?
    ensures var s' := Apply(s, a);
            && s'.handlers == s.handlers
            && GrowsByOne(s.trace, s'.trace)
            && (s'.trace != s.trace ==> forall h :: !About(s'.trace[|s.trace|], h))
  {
    hide ApplyWork, ApplyHandle, ApplyDeliver;
    if a.Work? {
      WorkTrace(s, a.p, a.o);
      WorkKeepsHandlers(s, a.p, a.o);
    }
  }

  lemma WorkKeepsHandlers(s: State, p: Id, o: Outcome)
    requires WorkEnabled(s, p, o)
    ensures ApplyWork(s, p, o).handlers == s.handlers
  {
    hide Decide, Perform;
    PerformKeepsHandlers(s, p, s.workers[p].key, Decide(s, s.workers[p], o).effect);
  }

  lemma PerformKeepsHandlers(s: State, p: Id, key: NamespacedName, e: Effect)
    ensures Perform(s, p, key, e).handlers == s.handlers
  {
    hide Connection.BuildConfig, RegistryKey, ActiveStatus;
  }

  lemma HandlersStep(s: State, a: Action)
    requires HandlersInv(s) && Enabled(s, a)
    ensures HandlersInv(Apply(s, a))
  {
    if a.Handle? {
      HandlersHandle(s, a.h, a.o);
    } else if a.Deliver? {
      HandlersDeliver(s, a.c, a.h, a.msg);
    } else {
      HandlersQuiet(s, a);
    }
  }

  lemma {:induction false} HandlersInvHolds(ss: seq<State>, acts: seq<Action>, i: nat)
    requires Run(ss, acts) && i < |ss|
    ensures HandlersInv(ss[i])
  {
    hide Enabled, Apply;
    if i > 0 {
      HandlersInvHolds(ss, acts, i - 1);
      HandlersStep(ss[i - 1], acts[i - 1]);
    }
  }

  // In every run: each emergency message a client received made one call, and
  // the history of that call is its delivery alone (no acknowledgement, no
  // write) when the captured monitor disables emergency mode, and otherwise,
  // once the call has ended, one of the three stories of Finished.
  lemma EmergencyAccounting(ss: seq<State>, acts: seq<Action>, i: nat, h: Id)
    requires Run(ss, acts) && i < |ss| && h in ss[i].handlers
    ensures var handler := ss[i].handlers[h];
            handler.c in ss[i].clients &&
            var captured := ss[i].clients[handler.c].captured;
            var d := Delivered(h, handler.c, handler.data);
            var w := Wrote(h, captured.target, Wire.ParseEmergency(handler.data).configYAML);
            if captured.spec.emergencyEnabled == Some(false) then Story(ss[i].trace, h) == [d]
            else handler.pc.Closed? ==> Finished(Story(ss[i].trace, h), d, w, h, captured)
  {
    hide Enabled, Apply;
    HandlersInvHolds(ss, acts, i);
    assert CallInv(ss[i], h);
  }

  // ---------- what a call may change ----------

  // Reads for update are of the current version or refused.
  ghost predicate VersionsInv(s: State) {
    && (forall at :: at in s.store.configMaps ==> s.store.configMaps[at].version <= s.store.revision)
    && (forall h :: h in s.handlers && s.handlers[h].pc.WriteMap? && s.handlers[h].c in s.clients ==>
          var cm, at := s.handlers[h].pc.cm, s.clients[s.handlers[h].c].captured.target.at;
          && cm.version <= s.store.revision
          && (at in s.store.configMaps && s.store.configMaps[at].version == cm.version ==>
               s.store.configMaps[at] == cm))
  }

  // Every step leaves a ConfigMap alone, removes it, or gives it a new version.
  lemma ConfigMapsMove(s: State, a: Action)
    requires Enabled(s, a)
    ensures MapsMove(s.store, Apply(s, a).store)
  {
    hide ApplyWork, ApplyHandle, ApplyDeliver, IsEmergencyMessage;
    if a.Work? {
      hide Decide, ActiveStatus;
      WorkStore(s, a.p, a.o);
    } else if a.Handle? {
      HandleMovesMaps(s, a.h, a.o);
    } else if a.Deliver? {
      DeliveryMakesOneCall(s, a.c, a.h, a.msg);
    }
  }

  ghost predicate MapsMove(a: Store, b: Store) {
    && a.revision <= b.revision
    && forall at :: at in b.configMaps ==>
         || (at in a.configMaps && b.configMaps[at] == a.configMaps[at])
         || a.revision < b.configMaps[at].version <= b.revision
  }

  lemma PutMovesMaps(s: State, at: NamespacedName, data: map<string, string>)
    ensures MapsMove(s.store, PutData(s, at, data).store)
  {
  }

  lemma HandleMovesMaps(s: State, h: Id, o: Outcome)
    requires HandleEnabled(s, h, o)
    ensures MapsMove(s.store, ApplyHandle(s, h, o).store)
  {
    hide DecideHandle, LegalListing, MapsMove, PutData;
    var captured := s.clients[s.handlers[h].c].captured;
    var e := DecideHandle(s, s.handlers[h], captured, o).effect;
    if e.WriteConfig? {
      var yaml := s.handlers[h].command.configYAML;
      PutMovesMaps(s, captured.target.at, e.cm.data[captured.target.key := yaml]);
    } else {
      SameMapsMove(s.store, ApplyHandle(s, h, o).store);
    }
  }

  lemma SameMapsMove(a: Store, b: Store)
    requires a.configMaps == b.configMaps && a.revision == b.revision
    ensures MapsMove(a, b)
  {
  }

  lemma HandlersMove(s: State, a: Action, h: Id)
    requires Enabled(s, a) && h in Apply(s, a).handlers && Apply(s, a).handlers[h].pc.WriteMap?
    ensures var s' := Apply(s, a);
            && h in s.handlers && s'.handlers[h].c == s.handlers[h].c
            && (|| s'.handlers[h] == s.handlers[h]
                || (s.handlers[h].c in s.clients && s'.store == s.store && s'.clients == s.clients
                    && var at := s.clients[s.handlers[h].c].captured.target.at;
                       at in s.store.configMaps && s'.handlers[h].pc.cm == s.store.configMaps[at]))
  {
    hide ApplyWork, ApplyHandle, ApplyDeliver, IsEmergencyMessage, DecideHandle;
    if a.Handle? {
      HandleTrace(s, a.h, a.o);
      RegistrySafety.HandlerFrame(s, a.h, a.o);
      if a.h == h {
        ReadsToWrite(s, h, a.o);
      }
    } else if a.Deliver? {
      DeliveryMakesOneCall(s, a.c, a.h, a.msg);
    } else {
      NotAboutCalls(s, a);
    }
  }

  // A call that is about to write has just read.
  lemma ReadsToWrite(s: State, h: Id, o: Outcome)
    requires HandleEnabled(s, h, o)
    ensures var captured := s.clients[s.handlers[h].c].captured;
            var next := DecideHandle(s, s.handlers[h], captured, o).next;
            next.WriteMap? ==>
              && captured.target.at in s.store.configMaps && next.cm == s.store.configMaps[captured.target.at]
              && ApplyHandle(s, h, o).store == s.store
  {
    hide Discover, LegalListing;
  }

  lemma VersionsStep(s: State, a: Action)
    requires VersionsInv(s) && HandlersInv(s) && Enabled(s, a)
    ensures VersionsInv(Apply(s, a))
  {
    hide Apply, Enabled;
    var s' := Apply(s, a);
    ConfigMapsMove(s, a);
    forall h | h in s'.handlers && s'.handlers[h].pc.WriteMap? && s'.handlers[h].c in s'.clients
      ensures var cm, at := s'.handlers[h].pc.cm, s'.clients[s'.handlers[h].c].captured.target.at;
              && cm.version <= s'.store.revision
              && (at in s'.store.configMaps && s'.store.configMaps[at].version == cm.version ==>
                   s'.store.configMaps[at] == cm)
    {
      HandlersMove(s, a, h);
      assert CallInv(s, h);
      ClientsFrozen(s, a, s.handlers[h].c);
    }
  }

  lemma {:induction false} VersionsInvHolds(ss: seq<State>, acts: seq<Action>, i: nat)
    requires Run(ss, acts) && i < |ss|
    ensures VersionsInv(ss[i])
  {
    hide Enabled, Apply;
    if i > 0 {
      VersionsInvHolds(ss, acts, i - 1);
      HandlersInvHolds(ss, acts, i - 1);
      VersionsStep(ss[i - 1], acts[i - 1]);
    }
  }

  // Two stores that differ in one entry of one ConfigMap at most.
  ghost predicate SameButEntry(a: map<NamespacedName, ConfigMap>, b: map<NamespacedName, ConfigMap>, ref: ConfigMapRef,
                               yaml: string) {
    && a.Keys == b.Keys && ref.at in a
    && (forall at :: at in a && at != ref.at ==> a[at] == b[at])
    && b[ref.at].data == a[ref.at].data[ref.key := yaml]
  }

  // A step of a handler call writes nothing; or the command under the captured
  // key of the captured ConfigMap, keeping all its other keys and every other
  // ConfigMap; or the restart annotation of one workload the captured selector
  // admits. Each write is on record, and monitors and registry are not touched.
  lemma HandlerStepFrame(ss: seq<State>, acts: seq<Action>, i: nat, h: Id, o: Outcome)
    requires Run(ss, acts) && i < |acts| && acts[i] == Handle(h, o)
    ensures ss[i].handlers[h].c in ss[i].clients
    ensures var s, s', handler := ss[i], ss[i + 1], ss[i].handlers[h];
            var captured, yaml := s.clients[handler.c].captured, Wire.ParseEmergency(handler.data).configYAML;
            && s'.store.monitors == s.store.monitors && s'.store.secrets == s.store.secrets
            && s'.registry == s.registry && s'.clients == s.clients
            && if s'.store.configMaps != s.store.configMaps then
                 && SameButEntry(s.store.configMaps, s'.store.configMaps, captured.target, yaml)
                 && s'.store.workloads == s.store.workloads && s'.trace == s.trace + [Wrote(h, captured.target, yaml)]
               else if s'.store.workloads != s.store.workloads then
                 exists f ::
                   Suits(captured, f)
                   && var id := WorkloadId(f.kind, f.workload.ns, f.workload.name);
                      id in s.store.workloads && s'.store.workloads == s.store.workloads[id := o.stamp]
                      && s'.trace == s.trace + [Restarted(h, id)]
               else true
  {
    hide Connection.BuildConfig, Connection.Credential, ConfigMapKey, RegistryKey, ApplyWork, DispatchCustom;
    HandlersInvHolds(ss, acts, i);
    VersionsInvHolds(ss, acts, i);
    var s, handler := ss[i], ss[i].handlers[h];
    assert CallInv(s, h);
    var captured := s.clients[handler.c].captured;
    var d := DecideHandle(s, handler, captured, o);
    RegistrySafety.HandlerFrame(s, h, o);
    OtherMonitors(s, Handle(h, o));
    if d.effect.WriteConfig? {
      assert handler.pc == WriteMap(d.effect.cm) && s.store.configMaps[captured.target.at] == d.effect.cm;
    } else if d.effect.StampWorkload? {
      assert handler.pc.Restart? && Suits(captured, handler.pc.found) && d.effect.id == IdOf(handler.pc.found);
    }
  }

  // ---------- the override, end to end ----------

  predicate Touches(e: Event, at: NamespacedName) {
    (e.Wrote? && e.target.at == at) || (e.Edited? && e.at == at)
  }

  // The last event on a ConfigMap.
  ghost function LastTouch(trace: seq<Event>, at: NamespacedName): Option<Event> {
    if trace == [] then None
    else
      var n := |trace| - 1;
      if Touches(trace[n], at) then Some(trace[n]) else LastTouch(trace[..n], at)
  }

  // A ConfigMap last touched by an emergency write holds what was written.
  ghost predicate OverrideInv(s: State) {
    forall at :: Holds(s, at)
  }

  ghost predicate Holds(s: State, at: NamespacedName) {
    var e := LastTouch(s.trace, at);
    e.Some? && e.value.Wrote? ==>
      && at in s.store.configMaps
      && Find(s.store.configMaps[at].data, e.value.target.key) == Some(e.value.yaml)
  }

  lemma TouchAppended(trace: seq<Event>, e: Event)
    ensures forall at :: LastTouch(trace + [e], at) == if Touches(e, at) then Some(e) else LastTouch(trace, at)
  {
    assert (trace + [e])[..|trace|] == trace;
  }

  // A ConfigMap that changes is touched by the event of the step.
  ghost predicate TouchedOrSame(s: State, s': State, at: NamespacedName) {
    GrowsByOne(s.trace, s'.trace) &&
    if s'.trace != s.trace && Touches(s'.trace[|s.trace|], at) then
      s'.trace[|s.trace|].Wrote? ==>
        at in s'.store.configMaps
        && Find(s'.store.configMaps[at].data, s'.trace[|s.trace|].target.key) == Some(s'.trace[|s.trace|].yaml)
    else Find(s'.store.configMaps, at) == Find(s.store.configMaps, at)
  }

  lemma StepTouches(s: State, a: Action, at: NamespacedName)
    requires Enabled(s, a)
    ensures TouchedOrSame(s, Apply(s, a), at)
  {
    hide ApplyWork, ApplyHandle, ApplyDeliver, IsEmergencyMessage;
    if a.Work? {
      hide Decide, ActiveStatus;
      WorkStore(s, a.p, a.o);
      WorkTrace(s, a.p, a.o);
    } else if a.Handle? {
      HandleTouches(s, a.h, a.o, at);
    } else if a.Deliver? {
      DeliveryMakesOneCall(s, a.c, a.h, a.msg);
    }
  }

  lemma HandleTouches(s: State, h: Id, o: Outcome, at: NamespacedName)
    requires HandleEnabled(s, h, o)
    ensures TouchedOrSame(s, ApplyHandle(s, h, o), at)
  {
    hide DecideHandle, LegalListing;
  }

  lemma {:induction false} OverrideInvHolds(ss: seq<State>, acts: seq<Action>, i: nat)
    requires Run(ss, acts) && i < |ss|
    ensures OverrideInv(ss[i])
  {
    hide Enabled, Apply;
    if i > 0 {
      OverrideInvHolds(ss, acts, i - 1);
      var s, a := ss[i - 1], acts[i - 1];
      var s' := Apply(s, a);
      TraceGrows(s, a);
      forall at
        ensures Holds(s', at)
      {
        assert Holds(s, at);
        StepTouches(s, a, at);
        if s'.trace != s.trace {
          TouchAppended(s.trace, s'.trace[|s.trace|]);
        }
      }
    }
  }

  // Nothing touched the ConfigMap after call h wrote it.
  ghost predicate UntouchedSince(trace: seq<Event>, h: Id, at: NamespacedName) {
    forall n, m :: 0 <= n < m < |trace| && trace[n].Wrote? && trace[n].h == h ==> !Touches(trace[m], at)
  }

  lemma {:induction false} LastTouchIs(trace: seq<Event>, e: Event)
    requires e.Wrote? && e in trace && UntouchedSince(trace, e.h, e.target.at)
    requires forall f :: f in trace && f.Wrote? && f.h == e.h ==> f == e
    ensures LastTouch(trace, e.target.at) == Some(e)
  {
    var n := |trace| - 1;
    if trace[n] != e {
      var k :| 0 <= k < |trace| && trace[k] == e;
      assert !Touches(trace[n], e.target.at);
      assert e == trace[..n][k];
      LastTouchIs(trace[..n], e);
    }
  }

  lemma {:induction false} StoryMembers(trace: seq<Event>, h: Id)
    ensures forall e :: e in Story(trace, h) <==> e in trace && About(e, h)
  {
    if trace != [] {
      var n := |trace| - 1;
      StoryMembers(trace[..n], h);
      assert trace == trace[..n] + [trace[n]];
    }
  }

  // The conditions of the end-to-end promise: call h came from a message that
  // encodes (reason, yaml), its positive acknowledgement is on record, and
  // nothing touched the ConfigMap since.
  ghost predicate Overridden(s: State, h: Id, reason: string, yaml: string) {
    && h in s.handlers && s.handlers[h].c in s.clients
    && s.handlers[h].data == "emergency:" + reason + "\n---\n" + yaml
    && GoText.TrimSpace(reason) == reason && !GoText.Contains(reason, "\n---\n") && !GoText.HasSuffix(reason, "\n---")
    && Acked(h, true) in s.trace
    && UntouchedSince(s.trace, h, s.clients[s.handlers[h].c].captured.target.at)
  }

  // Then the captured ConfigMap holds exactly yaml under the captured key.
  lemma OverrideStored(ss: seq<State>, acts: seq<Action>, i: nat, h: Id, reason: string, yaml: string)
    requires Run(ss, acts) && i < |ss| && Overridden(ss[i], h, reason, yaml)
    ensures var target := ss[i].clients[ss[i].handlers[h].c].captured.target;
            && target.at in ss[i].store.configMaps
            && Find(ss[i].store.configMaps[target.at].data, target.key) == Some(yaml)
  {
    hide Enabled, Apply;
    var s := ss[i];
    var handler := s.handlers[h];
    var captured := s.clients[handler.c].captured;
    HandlersInvHolds(ss, acts, i);
    assert CallInv(s, h);
    OverrideInvHolds(ss, acts, i);
    Wire.EmergencyRoundTrip(reason, yaml);
    StoryMembers(s.trace, h);
    var d, w := Delivered(h, handler.c, handler.data), Wrote(h, captured.target, yaml);
    assert Acked(h, true) in Story(s.trace, h);
    WroteBeforeAck(Story(s.trace, h), h, handler, captured);
    LastTouchIs(s.trace, w);
    assert Holds(s, captured.target.at);
  }

  lemma WroteBeforeAck(events: seq<Event>, h: Id, handler: Handler, captured: Captured)
    requires Tells(events, h, handler, captured) && Acked(h, true) in events
    ensures Wrote(h, captured.target, handler.command.configYAML) in events
    ensures forall e :: e in events && e.Wrote? ==> e == Wrote(h, captured.target, handler.command.configYAML)
  {
  }

  // Reconciles report to clients that exist.
  ghost predicate ReportersInv(s: State) {
    forall p :: p in s.workers ==>
      var pc := s.workers[p].pc;
      pc.SendHealth? || pc.ReadConfig? || pc.SendConfig? ==> pc.c in s.clients
  }

  lemma {:induction false} ReportersInvHolds(ss: seq<State>, acts: seq<Action>, i: nat)
    requires Run(ss, acts) && i < |ss|
    ensures ReportersInv(ss[i])
  {
    hide Enabled, Apply;
    if i > 0 {
      var s, a := ss[i - 1], acts[i - 1];
      ReportersInvHolds(ss, acts, i - 1);
      RegistrySafety.RegistryInvHolds(ss, acts, i - 1);
      forall p | p in ss[i].workers
        ensures var pc := ss[i].workers[p].pc;
                pc.SendHealth? || pc.ReadConfig? || pc.SendConfig? ==> pc.c in ss[i].clients
      {
        ReporterMoves(s, a, p);
      }
    }
  }

  lemma ReporterMoves(s: State, a: Action, p: Id)
    requires RegistrySafety.RegistryInv(s) && ReportersInv(s) && Enabled(s, a) && p in Apply(s, a).workers
    ensures var pc := Apply(s, a).workers[p].pc;
            pc.SendHealth? || pc.ReadConfig? || pc.SendConfig? ==> pc.c in Apply(s, a).clients
  {
    hide Connection.BuildConfig, Connection.Credential, ConfigMapKey, Discover, LegalListing, DispatchCustom;
    if a.Work? && a.p == p {
      var w := s.workers[p];
      assert w.pc.Lookup? ==> RegistrySafety.Logical(s) == s.registry.clients;
      ReporterDecides(s, w, a.o);
      var pc := Decide(s, w, a.o).next.value;
      if pc.SendHealth? || pc.ReadConfig? || pc.SendConfig? {
        ClientsFrozen(s, a, pc.c);
      }
    } else if p in s.workers {
      WorkerUntouched(s, a, p);
      var pc := s.workers[p].pc;
      if pc.SendHealth? || pc.ReadConfig? || pc.SendConfig? {
        ClientsFrozen(s, a, pc.c);
      }
    }
  }

  lemma ReporterDecides(s: State, w: Worker, o: Outcome)
    requires w.pc.SendHealth? || w.pc.ReadConfig? || w.pc.SendConfig? ==> w.pc.c in s.clients
    requires w.pc.Lookup? ==> forall k :: k in s.registry.clients ==> s.registry.clients[k] in s.clients
    ensures var next := Decide(s, w, o).next;
            next.Some? && (next.value.SendHealth? || next.value.ReadConfig? || next.value.SendConfig?) ==>
              next.value.c in s.clients
  {
  }

  // A Reconcile between two of its steps.
  lemma {:induction false} WorkerWaits(ss: seq<State>, acts: seq<Action>, i: nat, j: nat, p: Id)
    requires Run(ss, acts) && i <= j < |ss| && p in ss[i].workers
    requires forall n :: i <= n < j ==> !(acts[n].Work? && acts[n].p == p)
    ensures p in ss[j].workers && ss[j].workers[p] == ss[i].workers[p]
    decreases j
  {
    hide Enabled, Apply;
    if i < j {
      WorkerWaits(ss, acts, i, j - 1, p);
      WorkerUntouched(ss[j - 1], acts[j - 1], p);
    }
  }

  // The step that reads the ConfigMap of a report, and the one that sends it.
  lemma ReadsForReport(s: State, p: Id, o: Outcome, yaml: string)
    requires Enabled(s, Work(p, o)) && s.workers[p].pc.ReadConfig? && o.ok
    requires var ref := s.workers[p].pc.ref;
             ref.at in s.store.configMaps && Find(s.store.configMaps[ref.at].data, ref.key) == Some(yaml)
    ensures var w, s' := s.workers[p], Apply(s, Work(p, o));
            p in s'.workers && s'.workers[p] == Worker(w.key, SendConfig(w.pc.m, w.pc.ref, w.pc.c, yaml))
  {
    hide ConfigMapKey, Discover, Connection.BuildConfig, Connection.Credential, RegistryKey, ActiveStatus, LegalListing;
  }

  lemma SendsReport(s: State, p: Id, o: Outcome)
    requires Enabled(s, Work(p, o)) && s.workers[p].pc.SendConfig? && s.workers[p].pc.c in s.clients
    ensures var pc, s' := s.workers[p].pc, Apply(s, Work(p, o));
            && pc.c in s'.clients && s'.clients[pc.c].effectiveConfig == pc.yaml
            && s'.trace == s.trace + [Reported(pc.c, pc.yaml)]
  {
    hide ConfigMapKey, Discover, Connection.BuildConfig, Connection.Credential, RegistryKey, ActiveStatus, LegalListing;
  }

  // The two steps before them: the lookup of the client and the health report.
  lemma LooksUp(s: State, p: Id, o: Outcome)
    requires Enabled(s, Work(p, o)) && s.workers[p].pc.Lookup?
    requires RegistryKey(s.workers[p].key) in s.registry.clients
    ensures var w, s' := s.workers[p], Apply(s, Work(p, o));
            && p in s'.workers
            && s'.workers[p] == Worker(w.key, SendHealth(w.pc.m, w.pc.ref, s.registry.clients[RegistryKey(w.key)]))
  {
    hide ConfigMapKey, Discover, Connection.BuildConfig, Connection.Credential, RegistryKey, ActiveStatus, LegalListing;
  }

  lemma ReportsHealth(s: State, p: Id, o: Outcome)
    requires Enabled(s, Work(p, o)) && s.workers[p].pc.SendHealth? && o.ok
    ensures var w, s' := s.workers[p], Apply(s, Work(p, o));
            p in s'.workers && s'.workers[p] == Worker(w.key, ReadConfig(w.pc.m, w.pc.ref, w.pc.c))
  {
    hide ConfigMapKey, Discover, Connection.BuildConfig, Connection.Credential, RegistryKey, ActiveStatus, LegalListing;
  }

  // Step b is the next step of Reconcile p after step a.
  ghost predicate NextStep(acts: seq<Action>, a: nat, b: nat, p: Id) {
    && a < b < |acts| && acts[a].Work? && acts[a].p == p && acts[b].Work? && acts[b].p == p
    && forall n :: a < n < b ==> !(acts[n].Work? && acts[n].p == p)
  }

  // End to end: a Reconcile looks up the client of its monitor at moment a,
  // sends its health at b, reads the ConfigMap at r and takes its next step at
  // u; others run in between. The monitor has a client, the health send and the
  // read succeed, the resolved reference is the captured one, and at r the
  // override holds. Then the client answers the server with exactly the text
  // that the emergency message carried.
  lemma OverrideReported(ss: seq<State>, acts: seq<Action>, a: nat, b: nat, r: nat, u: nat, p: Id, h: Id,
                         reason: string, yaml: string)
    requires Run(ss, acts) && NextStep(acts, a, b, p) && NextStep(acts, b, r, p) && NextStep(acts, r, u, p)
    requires p in ss[a].workers && ss[a].workers[p].pc.Lookup?
    requires ss[a].workers[p].key.ns + "/" + ss[a].workers[p].key.name in ss[a].registry.clients
    requires acts[b].o.ok && acts[r].o.ok && Overridden(ss[r], h, reason, yaml)
    requires ss[a].workers[p].pc.ref == ss[r].clients[ss[r].handlers[h].c].captured.target
    ensures var c := ss[a].registry.clients[ss[a].workers[p].key.ns + "/" + ss[a].workers[p].key.name];
            && c in ss[u + 1].clients && ss[u + 1].clients[c].effectiveConfig == yaml
            && EffectiveConfigFiles(ss[u + 1].clients[c].effectiveConfig)
                 == map["" := AgentConfigFile(yaml, "text/yaml")]
            && ss[u + 1].trace == ss[u].trace + [Reported(c, yaml)]
  {
    hide Enabled, Apply, RegistryKey;
    var w := ss[a].workers[p];
    RegistryKeyInjective(w.key, w.key);
    LooksUp(ss[a], p, acts[a].o);
    WorkerWaits(ss, acts, a + 1, b, p);
    ReportsHealth(ss[b], p, acts[b].o);
    WorkerWaits(ss, acts, b + 1, r, p);
    OverrideStored(ss, acts, r, h, reason, yaml);
    ReportersInvHolds(ss, acts, r);
    ReadsForReport(ss[r], p, acts[r].o, yaml);
    WorkerWaits(ss, acts, r + 1, u, p);
    SnapshotSafety.RunGrows(ss, acts, r, u);
    SendsReport(ss[u], p, acts[u].o);
  }
}
