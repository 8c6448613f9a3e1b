// What the steps of one Reconcile in the critical section, or of one emergency
// handler call, amount to when nothing else runs between them.
module Uninterrupted {
  import opened Wrappers
  import opened Cluster
  import opened Discovery
  import opened Connection
  import opened Operator
  import EmergencySafety

  // From s to t by steps that are enabled one after the other.
  ghost predicate Path(s: State, acts: seq<Action>, t: State)
    decreases |acts|
  {
    if acts == [] then s == t else Enabled(s, acts[0]) && Path(Apply(s, acts[0]), acts[1..], t)
  }

  lemma PathExtended(s: State, a: Action, acts: seq<Action>, t: State)
    requires Enabled(s, a) && Path(Apply(s, a), acts, t)
    ensures Path(s, [a] + acts, t)
  {
    hide Enabled, Apply;
    assert ([a] + acts)[1..] == acts;
  }

  // What a step that does not list is told.
  const NO_LISTING := Listing(Failure(""), Failure(""), Failure(""))

  // ---------- a handler call ----------

  // How the API calls of an emergency override go, and what the error of a
  // failing one says.
  datatype Override = Override(
    okGet: bool, okUpdate: bool, lostUpdate: bool, listing: Listing, okPatch: bool, lostPatch: bool, stamp: string,
    reason: string)

  function OverrideOutcome(pc: HandlerPc, how: Override): Outcome {
    match pc
    case ReadMap => Outcome(how.okGet, false, NO_LISTING, 0, "", 0)
    case WriteMap(_) => Outcome(how.okUpdate, how.lostUpdate, NO_LISTING, 0, "", 0)
    case FindTarget => Outcome(true, false, how.listing, 0, "", 0)
    case Restart(_) => Outcome(how.okPatch, how.lostPatch, NO_LISTING, 0, how.stamp, 0)
    case _ => Outcome(true, false, NO_LISTING, 0, "", 0)
  }

  function CallStepsLeft(pc: HandlerPc): nat {
    match pc
    case Gate => 6
    case ReadMap => 5
    case WriteMap(_) => 4
    case FindTarget => 3
    case Restart(_) => 2
    case Ack(_) => 1
    case _ => 0
  }

  ghost predicate IsCall(s: State, h: Id) {
    h in s.handlers && s.handlers[h].c in s.clients
  }

  ghost function CallStep(s: State, h: Id, how: Override): State
    requires IsCall(s, h)
  {
    ApplyHandle(s, h, OverrideOutcome(s.handlers[h].pc, how))
  }

  lemma CallGoesOn(s: State, h: Id, how: Override)
    requires IsCall(s, h)
    ensures var t := CallStep(s, h, how);
            && IsCall(t, h) && t.clients == s.clients && t.handlers[h] == s.handlers[h].(pc := t.handlers[h].pc)
            && (CallStepsLeft(s.handlers[h].pc) > 0 ==>
                  CallStepsLeft(t.handlers[h].pc) < CallStepsLeft(s.handlers[h].pc))
  {
    hide Discover;
  }

  // The call, step after step, until it has ended.
  ghost function RunCall(s: State, h: Id, how: Override): State
    requires IsCall(s, h)
    decreases CallStepsLeft(s.handlers[h].pc)
  {
    if CallStepsLeft(s.handlers[h].pc) == 0 then s
    else
      CallGoesOn(s, h, how);
      RunCall(CallStep(s, h, how), h, how)
  }

  lemma {:induction false} RunCallIsPath(s: State, h: Id, how: Override) returns (acts: seq<Action>)
    requires IsCall(s, h) && !s.crashed
    requires var captured := s.clients[s.handlers[h].c].captured;
             LegalListing(captured.spec.workloadSelector, captured.owner.ns, how.listing)
    ensures Path(s, acts, RunCall(s, h, how))
    ensures forall a :: a in acts ==> a.Handle? && a.h == h
    decreases CallStepsLeft(s.handlers[h].pc)
  {
    hide LegalListing, Discover, DecideHandle;
    if CallStepsLeft(s.handlers[h].pc) == 0 {
      acts := [];
    } else {
      var a := Handle(h, OverrideOutcome(s.handlers[h].pc, how));
      CallGoesOn(s, h, how);
      var t := CallStep(s, h, how);
      assert Apply(s, a) == t;
      if t.crashed {
        CrashEnds(s, h, how);
        PathExtended(s, a, [], t);
        acts := [a] + [];
      } else {
        var rest := RunCallIsPath(t, h, how);
        PathExtended(s, a, rest, RunCall(t, h, how));
        acts := [a] + rest;
      }
    }
  }

  lemma CrashEnds(s: State, h: Id, how: Override)
    requires IsCall(s, h) && !s.crashed && CallStep(s, h, how).crashed
    ensures CallStep(s, h, how).handlers[h].pc.Panicked?
  {
    hide Discover;
  }

  // The panic of assigning to a nil map.
  predicate PanicsOn(store: Store, captured: Captured, how: Override) {
    how.okGet && captured.target.at in store.configMaps && store.configMaps[captured.target.at].data == map[]
  }

  datatype Effects = Effects(store: Store, events: seq<Event>, success: bool)

  // applyEmergencyConfig as a whole: what it leaves in the cluster and on
  // record, and whether it reports success.
  ghost function Overriding(store: Store, h: Id, captured: Captured, yaml: string, how: Override): Effects {
    var at, wrote := captured.target.at, Wrote(h, captured.target, yaml);
    if !how.okGet || at !in store.configMaps || !(how.okUpdate || how.lostUpdate) then Effects(store, [], false)
    else
      var cm := ConfigMap(store.configMaps[at].data[captured.target.key := yaml], store.revision + 1);
      var written := store.(configMaps := store.configMaps[at := cm], revision := store.revision + 1);
      if how.okUpdate then Restarting(written, h, captured, wrote, how) else Effects(written, [wrote], false)
  }

  ghost function Restarting(store: Store, h: Id, captured: Captured, wrote: Event, how: Override): Effects {
    match Discover(captured.spec.workloadSelector, how.listing)
    case Failure(_) => Effects(store, [wrote], false)
    case Success(f) =>
      if EmergencySafety.IdOf(f) in store.workloads && (how.okPatch || how.lostPatch) then
        var stamped := store.(workloads := store.workloads[EmergencySafety.IdOf(f) := how.stamp]);
        Effects(stamped, [wrote, Restarted(h, EmergencySafety.IdOf(f))], how.okPatch)
      else Effects(store, [wrote], false)
  }

  // The steps of the call from here on leave this store and these events.
  ghost predicate EndsIn(s: State, h: Id, how: Override, store: Store, events: seq<Event>)
    requires IsCall(s, h)
  {
    RunCall(s, h, how).store == store && RunCall(s, h, how).trace == s.trace + events
  }

  lemma EndsAfterStep(s: State, h: Id, how: Override, first: seq<Event>, store: Store, rest: seq<Event>)
    requires IsCall(s, h) && CallStepsLeft(s.handlers[h].pc) > 0
    requires IsCall(CallStep(s, h, how), h) && CallStep(s, h, how).trace == s.trace + first
    requires EndsIn(CallStep(s, h, how), h, how, store, rest)
    ensures EndsIn(s, h, how, store, first + rest)
  {
    hide CallStep, ApplyHandle;
    assert s.trace + first + rest == s.trace + (first + rest);
  }

  lemma AckRuns(s: State, h: Id, how: Override)
    requires IsCall(s, h) && s.handlers[h].pc.Ack?
    ensures EndsIn(s, h, how, s.store, [Acked(h, s.handlers[h].pc.success)])
  {
    var t := CallStep(s, h, how);
    assert RunCall(t, h, how) == t;
  }

  lemma RestartRuns(s: State, h: Id, how: Override)
    requires IsCall(s, h) && s.handlers[h].pc.Restart?
    ensures var id := EmergencySafety.IdOf(s.handlers[h].pc.found);
            if id in s.store.workloads && (how.okPatch || how.lostPatch) then
              EndsIn(s, h, how, s.store.(workloads := s.store.workloads[id := how.stamp]),
                     [Restarted(h, id), Acked(h, how.okPatch)])
            else EndsIn(s, h, how, s.store, [Acked(h, false)])
  {
    hide RunCall;
    var id := EmergencySafety.IdOf(s.handlers[h].pc.found);
    var t := CallStep(s, h, how);
    AckRuns(t, h, how);
    if id in s.store.workloads && (how.okPatch || how.lostPatch) {
      EndsAfterStep(s, h, how, [Restarted(h, id)], t.store, [Acked(h, how.okPatch)]);
      assert [Restarted(h, id)] + [Acked(h, how.okPatch)] == [Restarted(h, id), Acked(h, how.okPatch)];
    } else {
      EndsAfterStep(s, h, how, [], t.store, [Acked(h, false)]);
      assert [] + [Acked(h, false)] == [Acked(h, false)];
    }
  }

  lemma FindRuns(s: State, h: Id, how: Override, wrote: Event)
    requires IsCall(s, h) && s.handlers[h].pc.FindTarget?
    ensures var e := Restarting(s.store, h, s.clients[s.handlers[h].c].captured, wrote, how);
            |e.events| > 0 && EndsIn(s, h, how, e.store, e.events[1..] + [Acked(h, e.success)])
  {
    hide RunCall, Discover;
    var captured := s.clients[s.handlers[h].c].captured;
    var e := Restarting(s.store, h, captured, wrote, how);
    var t := CallStep(s, h, how);
    var tail := e.events[1..] + [Acked(h, e.success)];
    if Discover(captured.spec.workloadSelector, how.listing).Success? {
      RestartRuns(t, h, how);
      if e.events == [wrote] {
        assert tail == [Acked(h, false)];
      } else {
        assert tail == [e.events[1], Acked(h, how.okPatch)];
      }
    } else {
      AckRuns(t, h, how);
      assert tail == [Acked(h, false)];
    }
    EndsAfterStep(s, h, how, [], e.store, tail);
    assert [] + tail == tail;
  }

  lemma WriteRuns(s: State, h: Id, how: Override)
    requires IsCall(s, h) && s.handlers[h].pc.WriteMap? && how.okGet
    requires var at := s.clients[s.handlers[h].c].captured.target.at;
             at in s.store.configMaps && s.handlers[h].pc.cm == s.store.configMaps[at]
    ensures var handler := s.handlers[h];
            var e := Overriding(s.store, h, s.clients[handler.c].captured, handler.command.configYAML, how);
            EndsIn(s, h, how, e.store, e.events + [Acked(h, e.success)])
  {
    hide RunCall, Restarting;
    var handler, captured := s.handlers[h], s.clients[s.handlers[h].c].captured;
    var e := Overriding(s.store, h, captured, handler.command.configYAML, how);
    var t := CallStep(s, h, how);
    var wrote := Wrote(h, captured.target, handler.command.configYAML);
    if how.okUpdate {
      FindRuns(t, h, how, wrote);
      RestartingWrote(t.store, h, captured, wrote, how);
      EndsAfterStep(s, h, how, [wrote], e.store, e.events[1..] + [Acked(h, e.success)]);
      assert [wrote] + (e.events[1..] + [Acked(h, e.success)]) == e.events + [Acked(h, e.success)];
    } else {
      AckRuns(t, h, how);
      EndsAfterStep(s, h, how, e.events, e.store, [Acked(h, false)]);
    }
  }

  lemma RestartingWrote(store: Store, h: Id, captured: Captured, wrote: Event, how: Override)
    ensures var e := Restarting(store, h, captured, wrote, how); |e.events| > 0 && e.events[0] == wrote
  {
  }

  // A call from its beginning: if the captured spec disables it, it does
  // nothing; if it panics, nothing but that; else it leaves what
  // applyEmergencyConfig leaves, and one acknowledgement.
  lemma RunCallIs(s: State, h: Id, how: Override)
    requires IsCall(s, h) && s.handlers[h].pc.Gate?
    ensures var handler, captured := s.handlers[h], s.clients[s.handlers[h].c].captured;
            var e := Overriding(s.store, h, captured, handler.command.configYAML, how);
            if captured.spec.emergencyEnabled == Some(false) then EndsIn(s, h, how, s.store, [])
            else if PanicsOn(s.store, captured, how) then EndsIn(s, h, how, s.store, []) && RunCall(s, h, how).crashed
            else EndsIn(s, h, how, e.store, e.events + [Acked(h, e.success)])
  {
    hide Overriding, Discover, DecideHandle;
    var handler, captured := s.handlers[h], s.clients[s.handlers[h].c].captured;
    var t := CallStep(s, h, how);
    Opens(s, h, how);
    if captured.spec.emergencyEnabled == Some(false) {
      assert RunCall(t, h, how) == t;
    } else {
      ReadRuns(t, h, how);
      if !PanicsOn(s.store, captured, how) {
        var e := Overriding(s.store, h, captured, handler.command.configYAML, how);
        EndsAfterStep(s, h, how, [], e.store, e.events + [Acked(h, e.success)]);
        assert [] + (e.events + [Acked(h, e.success)]) == e.events + [Acked(h, e.success)];
      }
    }
  }

  lemma Opens(s: State, h: Id, how: Override)
    requires IsCall(s, h) && s.handlers[h].pc.Gate?
    ensures var t, captured := CallStep(s, h, how), s.clients[s.handlers[h].c].captured;
            && t.store == s.store && t.trace == s.trace && t.clients == s.clients && IsCall(t, h)
            && t.handlers[h] == s.handlers[h].(pc := if captured.spec.emergencyEnabled
                 == Some(false) then Closed else ReadMap)
  {
    hide Discover;
  }

  lemma ReadRuns(s: State, h: Id, how: Override)
    requires IsCall(s, h) && s.handlers[h].pc.ReadMap?
    ensures var handler, captured := s.handlers[h], s.clients[s.handlers[h].c].captured;
            var e := Overriding(s.store, h, captured, handler.command.configYAML, how);
            if PanicsOn(s.store, captured, how) then EndsIn(s, h, how, s.store, []) && RunCall(s, h, how).crashed
            else EndsIn(s, h, how, e.store, e.events + [Acked(h, e.success)])
  {
    hide Restarting, Discover;
    var handler, captured := s.handlers[h], s.clients[s.handlers[h].c].captured;
    var t := CallStep(s, h, how);
    if PanicsOn(s.store, captured, how) {
      assert RunCall(t, h, how) == t;
    } else {
      var e := Overriding(s.store, h, captured, handler.command.configYAML, how);
      var events := e.events + [Acked(h, e.success)];
      if how.okGet && captured.target.at in s.store.configMaps {
        WriteRuns(t, h, how);
      } else {
        AckRuns(t, h, how);
        assert events == [Acked(h, false)];
      }
      EndsAfterStep(s, h, how, [], e.store, events);
      assert [] + events == events;
    }
  }

  // ---------- a Reconcile in the critical section ----------

  // How the secret read and the Start of a connecting Reconcile go.
  datatype Connecting = Connecting(okSecret: bool, okStart: bool, newClient: Id)

  function ConnectOutcome(pc: Pc, how: Connecting): Outcome {
    Outcome(if pc.LoadAuth? then how.okSecret else how.okStart, false, NO_LISTING, 0, "", how.newClient)
  }

  // The steps up to the release of the mutex.
  function LockedStepsLeft(pc: Pc): nat {
    match pc
    case EnsureLock(_, _, _) => 5
    case LoadAuth(_, _, _) => 4
    case Dial(_, _, _, _) => 3
    case PutClient(_, _, _) => 2
    case PutStarted(_, _) => 1
    case CleanLock => 4
    case CleanStop => 3
    case CleanClients => 2
    case CleanStarted => 1
    case _ => 0
  }

  ghost function LockedStep(s: State, p: Id, how: Connecting): State
    requires p in s.workers
  {
    ApplyWork(s, p, ConnectOutcome(s.workers[p].pc, how))
  }

  lemma LockedGoesOn(s: State, p: Id, how: Connecting)
    requires p in s.workers && LockedStepsLeft(s.workers[p].pc) > 0
    ensures var t := LockedStep(s, p, how);
            p in t.workers ==> LockedStepsLeft(t.workers[p].pc) < LockedStepsLeft(s.workers[p].pc)
  {
    hide Perform, BuildConfig, RegistryKey, Credential, SecretExists;
  }

  ghost function RunLocked(s: State, p: Id, how: Connecting): State
    decreases if p in s.workers then LockedStepsLeft(s.workers[p].pc) else 0
  {
    if p !in s.workers || LockedStepsLeft(s.workers[p].pc) == 0 then s
    else
      LockedGoesOn(s, p, how);
      RunLocked(LockedStep(s, p, how), p, how)
  }

  lemma {:induction false} RunLockedIsPath(s: State, p: Id, how: Connecting) returns (acts: seq<Action>)
    requires !s.crashed
    requires p in s.workers ==>
      var pc := s.workers[p].pc;
      && (pc.EnsureLock? || pc.CleanLock? ==> s.holder.None?)
      && (pc.EnsureLock? || pc.LoadAuth? || pc.Dial? ==> how.newClient !in s.clients)
    ensures Path(s, acts, RunLocked(s, p, how))
    ensures forall a :: a in acts ==> a.Work? && a.p == p
    decreases if p in s.workers then LockedStepsLeft(s.workers[p].pc) else 0
  {
    if p !in s.workers || LockedStepsLeft(s.workers[p].pc) == 0 {
      acts := [];
    } else {
      var a := Work(p, ConnectOutcome(s.workers[p].pc, how));
      LockedGoesOn(s, p, how);
      LockedNext(s, p, how);
      var t := LockedStep(s, p, how);
      assert Apply(s, a) == t;
      var rest := RunLockedIsPath(t, p, how);
      PathExtended(s, a, rest, RunLocked(t, p, how));
      acts := [a] + rest;
    }
  }

  lemma LockedNext(s: State, p: Id, how: Connecting)
    requires p in s.workers && LockedStepsLeft(s.workers[p].pc) > 0
    ensures var t := LockedStep(s, p, how);
            && t.crashed == s.crashed
            && (p in t.workers ==>
                  var pc := t.workers[p].pc;
                  && !pc.EnsureLock? && !pc.CleanLock?
                  && (pc.LoadAuth? || pc.Dial? ==>
                        (s.workers[p].pc.EnsureLock? || s.workers[p].pc.LoadAuth?) && t.clients == s.clients))
  {
    hide BuildConfig, RegistryKey, Credential, SecretExists, Discover, ConfigMapKey, ActiveStatus, PutMonitor;
  }

  // After a Start that succeeded.
  ghost function Linked(s: State, p: Id, key: NamespacedName, m: Monitor, ref: ConfigMapRef, found: Found,
                           credential: Option<string>, c: Id): State {
    var client := ClientState(Captured(key, m.spec, ref), BuildConfig(key, m, ref, found, credential), true, "");
    s.(workers := s.workers[p := Worker(key, Lookup(m, ref))], holder := None,
       clients := s.clients[c := client],
       registry := Registry(s.registry.clients[RegistryKey(key) := c], s.registry.started[RegistryKey(key) := true]),
       trace := s.trace + [Started(key, c, m, ref, found, credential)])
  }

  // ensureOpAMPConnection as a whole: a started key is left alone; else, if the
  // secret can be read and the client starts, the client is live and in both
  // maps, and in every case the mutex is free again.
  ghost function Ensured(s: State, p: Id, how: Connecting): State
    requires p in s.workers && s.workers[p].pc.EnsureLock?
  {
    var Worker(key, EnsureLock(m, ref, found)) := s.workers[p];
    if IsStarted(s.registry, RegistryKey(key)) then s.(workers := s.workers[p := Worker(key, Lookup(m, ref))])
    else if (m.spec.secretRef.Some? && !how.okSecret) || !SecretExists(m.spec, key.ns, s.store.secrets) || !how.okStart
    then s.(workers := s.workers - {p})
    else
      var credential := Credential(m.spec, key.ns, s.store.secrets, s.defaultSecretKey);
      Linked(s, p, key, m, ref, found, credential, how.newClient)
  }

  lemma EnsuredIsRun(s: State, p: Id, how: Connecting)
    requires p in s.workers && s.workers[p].pc.EnsureLock? && s.holder.None?
    ensures RunLocked(s, p, how) == Ensured(s, p, how)
  {
    hide BuildConfig, RegistryKey, Credential, SecretExists, Discover, ConfigMapKey, ActiveStatus, PutMonitor;
    var t := LockedStep(s, p, how);
    assert RunLocked(s, p, how) == RunLocked(t, p, how);
    if !IsStarted(s.registry, RegistryKey(s.workers[p].key)) {
      LoadsAuth(t, p, how);
      assert t.workers - {p} == s.workers - {p};
    }
  }

  // From the reading of the secret on.
  lemma LoadsAuth(s: State, p: Id, how: Connecting)
    requires p in s.workers && s.workers[p].pc.LoadAuth?
    ensures var Worker(key, LoadAuth(m, ref, found)) := s.workers[p];
            RunLocked(s, p, how) ==
              if (m.spec.secretRef.Some? && !how.okSecret) || !SecretExists(m.spec, key.ns, s.store.secrets)
                || !how.okStart
              then s.(workers := s.workers - {p}, holder := None)
              else Linked(s, p, key, m, ref, found,
                             Credential(m.spec, key.ns, s.store.secrets, s.defaultSecretKey), how.newClient)
  {
    hide BuildConfig, RegistryKey, Credential, SecretExists, Linked;
    var t := LockedStep(s, p, how);
    assert RunLocked(s, p, how) == RunLocked(t, p, how);
    if p in t.workers {
      Dials(t, p, how);
      var Worker(key, LoadAuth(m, ref, found)) := s.workers[p];
      assert t.workers - {p} == s.workers - {p};
      SameLinked(s, t, p, key, m, ref, found, t.workers[p].pc.credential, how.newClient);
    } else {
      assert RunLocked(t, p, how) == t;
    }
  }

  lemma SameLinked(s: State, t: State, p: Id, key: NamespacedName, m: Monitor, ref: ConfigMapRef, found: Found,
                      credential: Option<string>, c: Id)
    requires p in t.workers && t == s.(workers := s.workers[p := t.workers[p]])
    ensures Linked(s, p, key, m, ref, found, credential, c) == Linked(t, p, key, m, ref, found, credential, c)
  {
    hide BuildConfig, RegistryKey;
    assert t.workers[p := Worker(key, Lookup(m, ref))] == s.workers[p := Worker(key, Lookup(m, ref))];
  }

  // From the Start on.
  lemma Dials(s: State, p: Id, how: Connecting)
    requires p in s.workers && s.workers[p].pc.Dial?
    ensures var Worker(key, Dial(m, ref, found, credential)) := s.workers[p];
            RunLocked(s, p, how) ==
              if !how.okStart then s.(workers := s.workers - {p}, holder := None)
              else Linked(s, p, key, m, ref, found, credential, how.newClient)
  {
    hide BuildConfig, RegistryKey, Credential, SecretExists, Discover, ConfigMapKey, ActiveStatus, PutMonitor;
    var t := LockedStep(s, p, how);
    assert RunLocked(s, p, how) == RunLocked(t, p, how);
    if how.okStart {
      var Worker(key, Dial(m, ref, found, credential)) := s.workers[p];
      PutsBoth(t, p, how, m, ref, how.newClient);
      assert t.workers[p := Worker(key, Lookup(m, ref))] == s.workers[p := Worker(key, Lookup(m, ref))];
    } else {
      assert RunLocked(t, p, how) == t;
    }
  }

  // The last two steps.
  lemma PutsBoth(s: State, p: Id, how: Connecting, m: Monitor, ref: ConfigMapRef, c: Id)
    requires p in s.workers && s.workers[p].pc == PutClient(m, ref, c)
    ensures var key, rk := s.workers[p].key, RegistryKey(s.workers[p].key);
            RunLocked(s, p, how)
            == s.(registry := Registry(s.registry.clients[rk := c], s.registry.started[rk := true]), holder := None,
                  workers := s.workers[p := Worker(key, Lookup(m, ref))])
  {
    hide BuildConfig, RegistryKey, Credential, SecretExists, Discover, ConfigMapKey, ActiveStatus, PutMonitor;
    var t := LockedStep(s, p, how);
    PutsStarted(t, p, how, m, ref);
    assert RunLocked(s, p, how) == RunLocked(t, p, how);
    var done := Worker(s.workers[p].key, Lookup(m, ref));
    assert t.workers[p := done] == s.workers[p := done];
  }

  lemma PutsStarted(s: State, p: Id, how: Connecting, m: Monitor, ref: ConfigMapRef)
    requires p in s.workers && s.workers[p].pc == PutStarted(m, ref)
    ensures var key, rk := s.workers[p].key, RegistryKey(s.workers[p].key);
            RunLocked(s, p, how)
            == s.(registry := s.registry.(started := s.registry.started[rk := true]), holder := None,
                  workers := s.workers[p := Worker(key, Lookup(m, ref))])
  {
    hide BuildConfig, RegistryKey, Credential, SecretExists, Discover, ConfigMapKey, ActiveStatus, PutMonitor;
    var t := LockedStep(s, p, how);
    assert RunLocked(t, p, how) == t;
  }

  // cleanupOpAMPClient as a whole: the client of the key, if any, is stopped
  // and forgotten.
  ghost function Cleaned(s: State, p: Id): State
    requires p in s.workers
  {
    var key, rk := s.workers[p].key, RegistryKey(s.workers[p].key);
    var s1 := s.(workers := s.workers - {p},
                 registry := Registry(s.registry.clients - {rk}, s.registry.started - {rk}));
    if rk !in s.registry.clients || s.registry.clients[rk] !in s.clients then s1
    else
      var c := s.registry.clients[rk];
      s1.(clients := s.clients[c := s.clients[c].(live := false)], trace := s.trace + [Stopped(key, c)])
  }

  lemma CleanedIsRun(s: State, p: Id, how: Connecting)
    requires p in s.workers && s.workers[p].pc.CleanLock? && s.holder.None?
    ensures RunLocked(s, p, how) == Cleaned(s, p)
  {
    hide BuildConfig, RegistryKey, Credential, SecretExists, Discover, ConfigMapKey, ActiveStatus, PutMonitor;
    var t := LockedStep(s, p, how);
    Stops(t, p, how);
    assert RunLocked(s, p, how) == RunLocked(t, p, how);
    assert t.workers - {p} == s.workers - {p};
  }

  // From inside the critical section on.
  lemma Stops(s: State, p: Id, how: Connecting)
    requires p in s.workers && s.workers[p].pc.CleanStop?
    ensures RunLocked(s, p, how) == Cleaned(s, p).(holder := None)
  {
    hide BuildConfig, RegistryKey, Credential, SecretExists, Discover, ConfigMapKey, ActiveStatus, PutMonitor;
    var rk := RegistryKey(s.workers[p].key);
    var t := LockedStep(s, p, how);
    assert RunLocked(s, p, how) == RunLocked(t, p, how);
    if rk in s.registry.clients {
      Forgets(t, p, how);
      assert t.workers - {p} == s.workers - {p};
    } else {
      ForgetsStarted(t, p, how);
      assert s.registry.clients - {rk} == s.registry.clients;
      assert t.workers - {p} == s.workers - {p};
    }
  }

  lemma Forgets(s: State, p: Id, how: Connecting)
    requires p in s.workers && s.workers[p].pc.CleanClients?
    ensures var rk := RegistryKey(s.workers[p].key);
            RunLocked(s, p, how)
            == s.(registry := Registry(s.registry.clients - {rk}, s.registry.started - {rk}), holder := None,
                  workers := s.workers - {p})
  {
    hide RegistryKey;
    var t := LockedStep(s, p, how);
    assert RunLocked(s, p, how) == RunLocked(t, p, how);
    ForgetsStarted(t, p, how);
    assert t.workers - {p} == s.workers - {p};
  }

  lemma ForgetsStarted(s: State, p: Id, how: Connecting)
    requires p in s.workers && s.workers[p].pc.CleanStarted?
    ensures RunLocked(s, p, how)
            == s.(registry := s.registry.(started := s.registry.started - {RegistryKey(s.workers[p].key)}),
                 holder := None,
                  workers := s.workers - {p})
  {
    hide RegistryKey;
    assert RunLocked(LockedStep(s, p, how), p, how) == LockedStep(s, p, how);
  }
}
