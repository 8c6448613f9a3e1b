// The two registry maps, the live clients and the Start/Stop history agree, in
// every run, however Reconciles interleave (those of one monitor included).
module RegistrySafety {
  import opened Wrappers
  import opened Cluster
  import opened Discovery
  import opened Connection
  import opened Operator

  // ---------- the Start/Stop history of a key ----------

  // The client that the history leaves running for a key.
  ghost function Holder(trace: seq<Event>, k: NamespacedName): Option<Id> {
    if trace == [] then None
    else
      var e := trace[|trace| - 1];
      if e.Started? && e.key == k then Some(e.c)
      else if e.Stopped? && e.key == k then None
      else Holder(trace[..|trace| - 1], k)
  }

  // Every Start of a key finds no client running for it, every Stop stops the
  // running one.
  ghost predicate WellPaired(trace: seq<Event>) {
    forall i :: 0 <= i < |trace| ==>
      && (trace[i].Started? ==> Holder(trace[..i], trace[i].key).None?)
      && (trace[i].Stopped? ==> Holder(trace[..i], trace[i].key) == Some(trace[i].c))
  }

  ghost function HolderAfter(before: Option<Id>, e: Event, k: NamespacedName): Option<Id> {
    if e.Started? && e.key == k then Some(e.c) else if e.Stopped? && e.key == k then None else before
  }

  lemma Appended(trace: seq<Event>, e: Event)
    ensures forall k :: Holder(trace + [e], k) == HolderAfter(Holder(trace, k), e, k)
    ensures WellPaired(trace + [e]) <==>
      && WellPaired(trace)
      && (e.Started? ==> Holder(trace, e.key).None?)
      && (e.Stopped? ==> Holder(trace, e.key) == Some(e.c))
  {
    var t := trace + [e];
    assert t[..|trace|] == trace;
    assert forall i :: 0 <= i < |trace| ==> t[..i] == trace[..i] && t[i] == trace[i];
    assert t[|trace|] == e;
  }

  ghost function Starts(trace: seq<Event>, k: NamespacedName): nat {
    if trace == [] then 0
    else
      var e := trace[|trace| - 1];
      Starts(trace[..|trace| - 1], k) + if e.Started? && e.key == k then 1 else 0
  }

  ghost function Stops(trace: seq<Event>, k: NamespacedName): nat {
    if trace == [] then 0
    else
      var e := trace[|trace| - 1];
      Stops(trace[..|trace| - 1], k) + if e.Stopped? && e.key == k then 1 else 0
  }

  lemma {:induction false} PairedCounts(trace: seq<Event>, k: NamespacedName)
    requires WellPaired(trace)
    ensures Starts(trace, k) == Stops(trace, k) + if Holder(trace, k).Some? then 1 else 0
  {
    if trace != [] {
      var n := |trace| - 1;
      assert trace == trace[..n] + [trace[n]];
      Appended(trace[..n], trace[n]);
      PairedCounts(trace[..n], k);
    }
  }

  // ---------- the invariant ----------

  // The registry as its critical section is about to leave it, as far as
  // running clients are concerned.
  ghost function Logical(s: State): map<string, Id> {
    if s.holder.Some? && s.holder.value in s.workers then
      var w := s.workers[s.holder.value];
      match w.pc
      case PutClient(_, _, c) => s.registry.clients[RegistryKey(w.key) := c]
      case CleanClients => s.registry.clients - {RegistryKey(w.key)}
      case _ => s.registry.clients
    else s.registry.clients
  }

  ghost predicate MutexHeld(s: State) {
    && (forall p :: p in s.workers && InCritical(s.workers[p].pc) ==> s.holder == Some(p))
    && (s.holder.Some? ==> s.holder.value in s.workers && InCritical(s.workers[s.holder.value].pc))
  }

  // How far opampStarted may be from opampClients: only at the key of the
  // Reconcile in the critical section.
  ghost predicate MapsAgree(s: State) {
    var clients := s.registry.clients;
    && (forall k :: (s.holder.None? || k != HeldKey(s)) ==> (IsStarted(s.registry, k) <==> k in clients))
    && (s.holder.Some? && s.holder.value in s.workers ==>
          var k := HeldKey(s);
          match s.workers[s.holder.value].pc
          case LoadAuth(_, _, _) => k !in clients && !IsStarted(s.registry, k)
          case Dial(_, _, _, _) => k !in clients && !IsStarted(s.registry, k)
          case PutClient(_, _, _) => k !in clients && !IsStarted(s.registry, k)
          case PutStarted(_, _) => k in clients
          case CleanStop => k in clients <==> IsStarted(s.registry, k)
          case CleanClients => k in clients && clients[k] in s.clients && !s.clients[clients[k]].live
          case CleanStarted => k !in clients
          case _ => true)
  }

  ghost function HeldKey(s: State): string {
    if s.holder.Some? && s.holder.value in s.workers then RegistryKey(s.workers[s.holder.value].key) else ""
  }

  // The live clients are those of the logical registry, each under its owner.
  ghost predicate LiveAgree(clients: map<Id, ClientState>, logical: map<string, Id>) {
    && (forall k :: k in logical ==>
          var c := logical[k];
          c in clients && clients[c].live && RegistryKey(clients[c].captured.owner) == k)
    && (forall c :: c in clients && clients[c].live ==>
          var k := RegistryKey(clients[c].captured.owner);
          k in logical && logical[k] == c)
  }

  ghost predicate HistoryAgrees(trace: seq<Event>, logical: map<string, Id>) {
    && WellPaired(trace)
    && forall k :: Holder(trace, k) == Find(logical, RegistryKey(k))
  }

  lemma StartRecorded(trace: seq<Event>, logical: map<string, Id>, e: Event)
    requires HistoryAgrees(trace, logical) && e.Started? && RegistryKey(e.key) !in logical
    ensures HistoryAgrees(trace + [e], logical[RegistryKey(e.key) := e.c])
  {
    Appended(trace, e);
    forall k
      ensures Holder(trace + [e], k) == Find(logical[RegistryKey(e.key) := e.c], RegistryKey(k))
    {
      RegistryKeyInjective(k, e.key);
    }
  }

  lemma StopRecorded(trace: seq<Event>, logical: map<string, Id>, e: Event)
    requires HistoryAgrees(trace, logical) && e.Stopped? && Find(logical, RegistryKey(e.key)) == Some(e.c)
    ensures HistoryAgrees(trace + [e], logical - {RegistryKey(e.key)})
  {
    Appended(trace, e);
    forall k
      ensures Holder(trace + [e], k) == Find(logical - {RegistryKey(e.key)}, RegistryKey(k))
    {
      RegistryKeyInjective(k, e.key);
    }
  }

  ghost predicate RegistryInv(s: State) {
    MutexHeld(s) && MapsAgree(s) && LiveAgree(s.clients, Logical(s)) && HistoryAgrees(s.trace, Logical(s))
  }

  lemma InitRegistry(s: State)
    requires Init(s)
    ensures RegistryInv(s)
  {
  }

  // A step that starts and stops nothing.
  ghost predicate QuietTrace(s: State, s': State) {
    && GrowsByOne(s.trace, s'.trace)
    && (s'.trace != s.trace ==> !s'.trace[|s.trace|].Started? && !s'.trace[|s.trace|].Stopped?)
  }

  ghost predicate SameClients(s: State, s': State) {
    && (forall c :: c in s.clients <==> c in s'.clients)
    && (forall c :: c in s.clients ==>
          s'.clients[c].live == s.clients[c].live && s'.clients[c].captured.owner == s.clients[c].captured.owner)
  }

  ghost predicate SameWorkersInside(s: State, s': State) {
    && (forall p :: p in s'.workers && InCritical(s'.workers[p].pc) ==> p in s.workers && s.workers[p] == s'.workers[p])
    && (forall p :: p in s.workers && InCritical(s.workers[p].pc) ==> p in s'.workers && s.workers[p] == s'.workers[p])
  }

  lemma QuietStep(s: State, s': State)
    requires RegistryInv(s) && s'.registry == s.registry && s'.holder == s.holder
    requires QuietTrace(s, s') && SameClients(s, s') && SameWorkersInside(s, s')
    ensures RegistryInv(s')
  {
    hide RegistryKey;
    if s'.trace != s.trace {
      Appended(s.trace, s'.trace[|s.trace|]);
    }
    assert Logical(s') == Logical(s);
    assert HeldKey(s') == HeldKey(s);
  }

  lemma PerformQuietly(s: State, p: Id, key: NamespacedName, e: Effect)
    requires e.Nothing? || e.StoreEffective? || e.CommitStatus?
    ensures var s' := Perform(s, p, key, e);
            && s'.registry == s.registry && s'.holder == s.holder && s'.workers == s.workers
            && QuietTrace(s, s') && SameClients(s, s')
  {
    hide BuildConfig, ActiveStatus, RegistryKey;
  }

  lemma OutsideDecision(s: State, w: Worker, o: Outcome)
    requires !InCritical(w.pc) && !Decide(s, w, o).effect.Acquire?
    ensures var d := Decide(s, w, o);
            && (d.effect.Nothing? || d.effect.StoreEffective? || d.effect.CommitStatus?)
            && (d.next.Some? ==> !InCritical(d.next.value))
  {
    hide BuildConfig, Credential, ConfigMapKey, Discover, LegalListing, RegistryKey;
  }

  // The steps of a Reconcile outside the critical section.
  lemma QuietWork(s: State, p: Id, o: Outcome)
    requires RegistryInv(s) && WorkEnabled(s, p, o)
    requires !InCritical(s.workers[p].pc) && !Decide(s, s.workers[p], o).effect.Acquire?
    ensures RegistryInv(ApplyWork(s, p, o))
  {
    hide BuildConfig, Credential, ConfigMapKey, Discover, LegalListing, RegistryKey;
    var w := s.workers[p];
    var s', e := ApplyWork(s, p, o), Decide(s, w, o).effect;
    OutsideDecision(s, w, o);
    PerformQuietly(s, p, w.key, e);
    assert s'.trace == Perform(s, p, w.key, e).trace && s'.clients == Perform(s, p, w.key, e).clients;
    QuietStep(s, s');
  }

  lemma LockingWork(s: State, p: Id, o: Outcome)
    requires RegistryInv(s) && WorkEnabled(s, p, o) && Decide(s, s.workers[p], o).effect == Acquire
    ensures RegistryInv(ApplyWork(s, p, o))
  {
    hide BuildConfig, Credential, ConfigMapKey, Discover, LegalListing, ActiveStatus, PutMonitor;
    hide RegistryKey, Holder, WellPaired;
    var s' := ApplyWork(s, p, o);
    assert s.workers[p].pc.CleanLock? || s.workers[p].pc.EnsureLock?;
    assert Logical(s') == Logical(s);
  }

  // The steps inside it that start and stop nothing.

  predicate StartsStopsNothing(e: Effect) {
    !e.StartClient? && !e.StopClient? && !e.Acquire? && !e.StoreEffective? && !e.CommitStatus?
  }

  lemma MutexKept(s: State, p: Id, o: Outcome)
    requires RegistryInv(s) && WorkEnabled(s, p, o) && InCritical(s.workers[p].pc)
    ensures MutexHeld(ApplyWork(s, p, o))
  {
    hide BuildConfig, Credential, ConfigMapKey, Discover, LegalListing, ActiveStatus, PutMonitor;
    hide RegistryKey, Holder, WellPaired, MapsAgree, LiveAgree;
    assert s.holder == Some(p);
  }

  lemma LogicalKept(s: State, p: Id, o: Outcome)
    requires RegistryInv(s) && WorkEnabled(s, p, o) && InCritical(s.workers[p].pc)
    requires StartsStopsNothing(Decide(s, s.workers[p], o).effect)
    ensures var s' := ApplyWork(s, p, o);
            s'.clients == s.clients && s'.trace == s.trace && Logical(s') == Logical(s)
  {
    hide BuildConfig, Credential, ConfigMapKey, Discover, LegalListing, ActiveStatus, PutMonitor;
    hide RegistryKey, Holder, WellPaired, MapsAgree, LiveAgree;
    assert s.holder == Some(p);
  }

  lemma StayingMaps(s: State, p: Id, o: Outcome)
    requires RegistryInv(s) && WorkEnabled(s, p, o) && InCritical(s.workers[p].pc)
    requires var e := Decide(s, s.workers[p], o).effect; e.Nothing? || e.RememberClient? || e.ForgetClient?
    ensures MapsAgree(ApplyWork(s, p, o))
  {
    hide BuildConfig, Credential, ConfigMapKey, Discover, LegalListing, ActiveStatus, PutMonitor;
    hide RegistryKey, Holder, WellPaired, LiveAgree, Logical;
    assert s.holder == Some(p);
  }

  lemma LeavingMaps(s: State, p: Id, o: Outcome)
    requires RegistryInv(s) && WorkEnabled(s, p, o) && InCritical(s.workers[p].pc)
    requires var e := Decide(s, s.workers[p], o).effect;
             e.Release? || e.RememberStartedAndRelease? || e.ForgetStartedAndRelease?
    ensures MapsAgree(ApplyWork(s, p, o))
  {
    hide BuildConfig, Credential, ConfigMapKey, Discover, LegalListing, ActiveStatus, PutMonitor;
    hide RegistryKey, Holder, WellPaired, LiveAgree, Logical;
    assert s.holder == Some(p);
  }

  lemma InsideWork(s: State, p: Id, o: Outcome)
    requires RegistryInv(s) && WorkEnabled(s, p, o) && InCritical(s.workers[p].pc)
    requires StartsStopsNothing(Decide(s, s.workers[p], o).effect)
    ensures RegistryInv(ApplyWork(s, p, o))
  {
    hide Decide, Perform, MutexHeld, MapsAgree, LiveAgree, Logical, HistoryAgrees;
    var e := Decide(s, s.workers[p], o).effect;
    MutexKept(s, p, o);
    LogicalKept(s, p, o);
    if e.Nothing? || e.RememberClient? || e.ForgetClient? {
      StayingMaps(s, p, o);
    } else {
      LeavingMaps(s, p, o);
    }
  }

  // A new live client under a key without one.
  lemma LiveAgreeWith(clients: map<Id, ClientState>, logical: map<string, Id>, c: Id, client: ClientState)
    requires LiveAgree(clients, logical) && c !in clients && client.live
      && RegistryKey(client.captured.owner) !in logical
    ensures LiveAgree(clients[c := client], logical[RegistryKey(client.captured.owner) := c])
  {
    hide RegistryKey;
  }

  // What the Start does to the state, part by part.
  lemma Dialed(s: State, p: Id, o: Outcome)
    requires RegistryInv(s) && WorkEnabled(s, p, o) && s.workers[p].pc.Dial? && o.ok
    ensures var s', rk := ApplyWork(s, p, o), RegistryKey(s.workers[p].key);
            && o.newClient in s'.clients && s'.clients == s.clients[o.newClient := s'.clients[o.newClient]]
            && s'.clients[o.newClient].live && s'.clients[o.newClient].captured.owner == s.workers[p].key
            && rk !in Logical(s) && Logical(s') == Logical(s)[rk := o.newClient]
            && |s'.trace| == |s.trace| + 1 && s'.trace == s.trace + [s'.trace[|s.trace|]]
            && var e := s'.trace[|s.trace|];
               e.Started? && e.key == s.workers[p].key && e.c == o.newClient
  {
    hide BuildConfig, Credential, SecretExists, ConfigMapKey, Discover, LegalListing, ActiveStatus, PutMonitor;
    hide RegistryKey, Holder, WellPaired, LiveAgree;
    assert s.holder == Some(p);
  }

  lemma DialedMaps(s: State, p: Id, o: Outcome)
    requires MutexHeld(s) && MapsAgree(s) && WorkEnabled(s, p, o) && s.workers[p].pc.Dial? && o.ok
    ensures MapsAgree(ApplyWork(s, p, o))
  {
    hide BuildConfig, Credential, SecretExists, ConfigMapKey, Discover, LegalListing, ActiveStatus, PutMonitor;
    hide RegistryKey;
    assert s.holder == Some(p);
  }

  lemma DialingWork(s: State, p: Id, o: Outcome)
    requires RegistryInv(s) && WorkEnabled(s, p, o) && s.workers[p].pc.Dial? && o.ok
    ensures RegistryInv(ApplyWork(s, p, o))
  {
    hide Decide, Perform, ApplyWork, RegistryKey, HistoryAgrees, LiveAgree, MapsAgree, MutexHeld, Logical;
    var s', c := ApplyWork(s, p, o), o.newClient;
    Dialed(s, p, o);
    MutexKept(s, p, o);
    DialedMaps(s, p, o);
    LiveAgreeWith(s.clients, Logical(s), c, s'.clients[c]);
    StartRecorded(s.trace, Logical(s), s'.trace[|s.trace|]);
  }

  lemma StoppingWork(s: State, p: Id, o: Outcome)
    requires RegistryInv(s) && WorkEnabled(s, p, o)
    requires s.workers[p].pc.CleanStop? && RegistryKey(s.workers[p].key) in s.registry.clients
    ensures RegistryInv(ApplyWork(s, p, o))
  {
    hide BuildConfig, Credential, ConfigMapKey, Discover, LegalListing, ActiveStatus, PutMonitor;
    hide RegistryKey, Holder, WellPaired;
    var s', rk := ApplyWork(s, p, o), RegistryKey(s.workers[p].key);
    assert s.holder == Some(p);
    assert Logical(s) == s.registry.clients;
    assert Logical(s') == Logical(s) - {rk};
    StopRecorded(s.trace, Logical(s), s'.trace[|s.trace|]);
  }

  // Handlers, deliveries and the environment do not touch the registry.
  lemma HandlerFrame(s: State, h: Id, o: Outcome)
    requires HandleEnabled(s, h, o)
    ensures var s' := ApplyHandle(s, h, o);
            && s'.registry == s.registry && s'.holder == s.holder && s'.clients == s.clients && s'.workers == s.workers
            && QuietTrace(s, s')
  {
    hide BuildConfig, Credential, ConfigMapKey, Discover, LegalListing, ApplyWork;
  }

  lemma EnvironmentFrame(s: State, a: Action)
    requires Enabled(s, a) && !a.Work? && !a.Handle?
    ensures var s' := Apply(s, a);
            && s'.registry == s.registry && s'.holder == s.holder && s'.clients == s.clients
            && s'.workers == (if a.Spawn? then s.workers[a.p := Worker(a.key, Fetch)] else s.workers)
            && QuietTrace(s, s')
  {
    hide BuildConfig, Credential, ConfigMapKey, Discover, LegalListing, ApplyWork;
  }

  lemma OutsideStep(s: State, a: Action)
    requires RegistryInv(s) && Enabled(s, a) && !a.Work?
    ensures RegistryInv(Apply(s, a))
  {
    hide ApplyHandle, ApplyWork, Perform, Decide, RegistryInv;
    if a.Handle? {
      HandlerFrame(s, a.h, a.o);
    } else {
      EnvironmentFrame(s, a);
    }
    QuietStep(s, Apply(s, a));
  }

  lemma RegistryStep(s: State, a: Action)
    requires RegistryInv(s) && Enabled(s, a)
    ensures RegistryInv(Apply(s, a))
  {
    hide BuildConfig, Credential, ConfigMapKey, Discover, LegalListing, RegistryKey, RegistryInv, Perform;
    if !a.Work? {
      OutsideStep(s, a);
    } else {
      var e, pc := Decide(s, s.workers[a.p], a.o).effect, s.workers[a.p].pc;
      if e.StartClient? {
        DialingWork(s, a.p, a.o);
      } else if e.StopClient? {
        StoppingWork(s, a.p, a.o);
      } else if e.Acquire? {
        LockingWork(s, a.p, a.o);
      } else if InCritical(pc) {
        InsideWork(s, a.p, a.o);
      } else {
        QuietWork(s, a.p, a.o);
      }
    }
  }

  lemma {:induction false} RegistryInvHolds(ss: seq<State>, acts: seq<Action>, i: nat)
    requires Run(ss, acts) && i < |ss|
    ensures RegistryInv(ss[i])
  {
    hide Enabled, Apply;
    if i == 0 {
      InitRegistry(ss[0]);
    } else {
      RegistryInvHolds(ss, acts, i - 1);
      RegistryStep(ss[i - 1], acts[i - 1]);
    }
  }

  // ---------- the theorems ----------

  // In every state of every run in which no Reconcile is inside the critical
  // section: opampStarted is true for exactly the keys of opampClients, the
  // clients started and not stopped are exactly the values, and no two keys
  // share a client.
  lemma RegistryAgreement(ss: seq<State>, acts: seq<Action>, i: nat)
    requires Run(ss, acts) && i < |ss| && ss[i].holder.None?
    ensures var s := ss[i];
            && (forall k :: IsStarted(s.registry, k) <==> k in s.registry.clients)
            && (forall c :: c in s.clients && s.clients[c].live <==> c in s.registry.clients.Values)
            && forall j, k ::
                 j in s.registry.clients && k in s.registry.clients && s.registry.clients[j] == s.registry.clients[k]
                 ==> j == k
  {
    hide Enabled, Apply;
    RegistryInvHolds(ss, acts, i);
    var s := ss[i];
    assert Logical(s) == s.registry.clients;
    forall c
      ensures c in s.clients && s.clients[c].live <==> c in s.registry.clients.Values
    {
      if c in s.clients && s.clients[c].live {
        assert s.registry.clients[RegistryKey(s.clients[c].captured.owner)] == c;
      }
    }
  }

  // For every key, at every moment of every run, the Starts exceed the Stops
  // by zero or one; since this holds of every prefix they alternate strictly,
  // beginning with a Start. Outside the critical section the excess is one iff
  // the key is registered.
  lemma StartsAndStopsAlternate(ss: seq<State>, acts: seq<Action>, i: nat, k: NamespacedName)
    requires Run(ss, acts) && i < |ss|
    ensures forall n :: 0 <= n <= |ss[i].trace| ==>
      Stops(ss[i].trace[..n], k) <= Starts(ss[i].trace[..n], k) <= Stops(ss[i].trace[..n], k) + 1
    ensures ss[i].holder.None? ==>
      Starts(ss[i].trace, k) - Stops(ss[i].trace, k) == if RegistryKey(k) in ss[i].registry.clients then 1 else 0
  {
    hide Enabled, Apply;
    RegistryInvHolds(ss, acts, i);
    var s := ss[i];
    forall n | 0 <= n <= |s.trace|
      ensures Stops(s.trace[..n], k) <= Starts(s.trace[..n], k) <= Stops(s.trace[..n], k) + 1
    {
      var prefix := s.trace[..n];
      assert forall j :: 0 <= j < n ==> prefix[..j] == s.trace[..j] && prefix[j] == s.trace[j];
      PairedCounts(prefix, k);
    }
    PairedCounts(s.trace, k);
  }
}
