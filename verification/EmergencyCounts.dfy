// Emergency messages and acknowledgements, counted over runs; and the one way
// in which a handler call brings the operator down.
module EmergencyCounts {
  import opened Wrappers
  import Cluster
  import Discovery
  import Opamp
  import opened Operator
  import opened EmergencySafety

  // ---------- messages and calls ----------

  // Step n delivered the emergency message that made call h.
  ghost predicate MakesCall(acts: seq<Action>, n: int, h: Id) {
    0 <= n < |acts| && acts[n].Deliver? && acts[n].h == h && Opamp.IsEmergencyMessage(acts[n].msg)
  }

  // Calls are made by emergency messages, and keep their client and text.
  lemma CallsMove(s: State, a: Action, h: Id)
    requires Enabled(s, a)
    ensures var s' := Apply(s, a);
            && (h in s'.handlers <==> h in s.handlers || MakesCall([a], 0, h))
            && (h in s.handlers ==> s'.handlers[h].c == s.handlers[h].c && s'.handlers[h].data == s.handlers[h].data)
            && (MakesCall([a], 0, h) ==>
                  h !in s.handlers && s'.handlers[h].c == a.c && s'.handlers[h].data == a.msg.data)
  {
    hide ApplyWork, ApplyHandle, ApplyDeliver, Opamp.IsEmergencyMessage;
    if a.Deliver? {
      DeliveryMakesOneCall(s, a.c, a.h, a.msg);
    } else if a.Handle? {
      HandleTrace(s, a.h, a.o);
    } else {
      NotAboutCalls(s, a);
    }
  }

  // In every run the handler calls correspond one to one to the emergency
  // messages delivered: each call was made by exactly one of them, to its
  // client, which was live, and with its text.
  lemma {:induction false} CallsAreMessages(ss: seq<State>, acts: seq<Action>, i: nat, h: Id)
    requires Run(ss, acts) && i < |ss|
    ensures h in ss[i].handlers <==> exists n :: n < i && MakesCall(acts, n, h)
    ensures forall n, m :: n < i && m < i && MakesCall(acts, n, h) && MakesCall(acts, m, h) ==> n == m
    ensures forall n :: n < i && MakesCall(acts, n, h) ==>
      && acts[n].c in ss[n].clients && ss[n].clients[acts[n].c].live
      && ss[i].handlers[h].c == acts[n].c && ss[i].handlers[h].data == acts[n].msg.data
  {
    hide Apply, Opamp.IsEmergencyMessage;
    if i == 0 {
      assert ss[0].handlers == map[];
    } else {
      CallsAreMessages(ss, acts, i - 1, h);
      CallsMove(ss[i - 1], acts[i - 1], h);
      assert MakesCall([acts[i - 1]], 0, h) <==> MakesCall(acts, i - 1, h);
    }
  }

  ghost function CallsOf(s: State, c: Id): set<Id> {
    set h | h in s.handlers && s.handlers[h].c == c
  }

  // How many emergency messages were delivered to client c.
  ghost function Messages(acts: seq<Action>, c: Id): nat {
    if acts == [] then 0
    else
      var n := |acts| - 1;
      Messages(acts[..n], c)
      + if acts[n].Deliver? && acts[n].c == c && Opamp.IsEmergencyMessage(acts[n].msg) then 1 else 0
  }

  lemma CallsOfMove(s: State, a: Action, c: Id)
    requires Enabled(s, a)
    ensures CallsOf(Apply(s, a), c)
            == CallsOf(s, c) + if a.Deliver? && a.c == c && Opamp.IsEmergencyMessage(a.msg) then {a.h} else {}
  {
    hide Apply, Enabled, Opamp.IsEmergencyMessage;
    forall h
      ensures h in CallsOf(Apply(s, a), c)
              <==> h in CallsOf(s, c) || (a.Deliver? && a.c == c && Opamp.IsEmergencyMessage(a.msg) && h == a.h)
    {
      CallsMove(s, a, h);
    }
  }

  lemma {:induction false} CallsCounted(ss: seq<State>, acts: seq<Action>, i: nat, c: Id)
    requires Run(ss, acts) && i < |ss|
    ensures |CallsOf(ss[i], c)| == Messages(acts[..i], c)
  {
    hide Apply, Opamp.IsEmergencyMessage;
    if i == 0 {
      assert CallsOf(ss[0], c) == {};
    } else {
      var a := acts[i - 1];
      CallsCounted(ss, acts, i - 1, c);
      CallsOfMove(ss[i - 1], a, c);
      assert acts[..i][..i - 1] == acts[..i - 1];
      assert a.Deliver? ==> a.h !in CallsOf(ss[i - 1], c);
    }
  }

  // ---------- acknowledgements ----------

  ghost predicate IsAck(e: Event, h: Id) {
    e.Acked? && e.h == h
  }

  // How many acknowledgements the calls hs made.
  ghost function Acks(trace: seq<Event>, hs: set<Id>): nat {
    if trace == [] then 0
    else
      var n := |trace| - 1;
      Acks(trace[..n], hs) + if trace[n].Acked? && trace[n].h in hs then 1 else 0
  }

  ghost predicate AcksDiffer(trace: seq<Event>) {
    forall n, m :: 0 <= n < m < |trace| && trace[n].Acked? && trace[m].Acked? ==> trace[n].h != trace[m].h
  }

  ghost predicate HasAck(trace: seq<Event>, h: Id) {
    exists e :: e in trace && IsAck(e, h)
  }

  ghost function Acknowledged(trace: seq<Event>, hs: set<Id>): set<Id> {
    set h | h in hs && HasAck(trace, h)
  }

  lemma AckAppended(trace: seq<Event>, e: Event)
    ensures forall h :: HasAck(trace + [e], h) <==> HasAck(trace, h) || IsAck(e, h)
  {
    forall h
      ensures HasAck(trace + [e], h) <==> HasAck(trace, h) || IsAck(e, h)
    {
      assert e in trace + [e];
      assert forall x :: x in trace + [e] <==> x in trace || x == e;
    }
  }

  lemma {:induction false} AcksAreCalls(trace: seq<Event>, hs: set<Id>)
    requires AcksDiffer(trace)
    ensures Acks(trace, hs) == |Acknowledged(trace, hs)|
  {
    if trace == [] {
      assert Acknowledged(trace, hs) == {};
    } else {
      var n := |trace| - 1;
      var e := trace[n];
      AcksAreCalls(trace[..n], hs);
      assert trace == trace[..n] + [e];
      AckAppended(trace[..n], e);
      assert e.Acked? ==> !HasAck(trace[..n], e.h);
      AddAcknowledged(trace[..n], e, hs);
    }
  }

  lemma AddAcknowledged(trace: seq<Event>, e: Event, hs: set<Id>)
    requires forall h :: HasAck(trace + [e], h) <==> HasAck(trace, h) || IsAck(e, h)
    requires e.Acked? ==> !HasAck(trace, e.h)
    ensures |Acknowledged(trace + [e], hs)| == |Acknowledged(trace, hs)| + if e.Acked? && e.h in hs then 1 else 0
  {
    hide HasAck;
    assert Acknowledged(trace + [e], hs)
        == Acknowledged(trace, hs) + if e.Acked? && e.h in hs then {e.h} else {};
  }

  // Two events about one call come in this order in its story.
  lemma {:induction false} StoryKeepsOrder(trace: seq<Event>, h: Id, n: nat, m: nat) returns (x: nat, y: nat)
    requires n < m < |trace| && About(trace[n], h) && About(trace[m], h)
    ensures x < y < |Story(trace, h)| && Story(trace, h)[x] == trace[n] && Story(trace, h)[y] == trace[m]
  {
    var last := |trace| - 1;
    if m < last {
      x, y := StoryKeepsOrder(trace[..last], h, n, m);
    } else {
      StoryMembers(trace[..last], h);
      assert trace[..last][n] in Story(trace[..last], h);
      x :| 0 <= x < |Story(trace[..last], h)| && Story(trace[..last], h)[x] == trace[n];
      y := |Story(trace, h)| - 1;
    }
  }

  // An acknowledgement ends the story of an enabled call that has ended.
  lemma AckIsLast(events: seq<Event>, h: Id, handler: Handler, captured: Cluster.Captured)
    requires Tells(events, h, handler, captured)
    ensures forall x :: 0 <= x < |events| && events[x].Acked? ==> x == |events| - 1
    ensures HasAck(events, h) <==> handler.pc.Closed? && !Disabled(captured)
  {
    if handler.pc.Closed? && !Disabled(captured) {
      assert events[|events| - 1] in events && IsAck(events[|events| - 1], h);
    }
  }

  lemma AcksOfRun(ss: seq<State>, acts: seq<Action>, i: nat)
    requires Run(ss, acts) && i < |ss|
    ensures AcksDiffer(ss[i].trace)
    ensures forall h :: h in ss[i].handlers ==>
      (HasAck(ss[i].trace, h) <==>
       ss[i].handlers[h].pc.Closed? && ss[i].handlers[h].c in ss[i].clients
         && !Disabled(ss[i].clients[ss[i].handlers[h].c].captured))
  {
    hide Run, Story, Tells;
    HandlersInvHolds(ss, acts, i);
    var s := ss[i];
    forall n, m | 0 <= n < m < |s.trace| && s.trace[n].Acked? && s.trace[m].Acked?
      ensures s.trace[n].h != s.trace[m].h
    {
      var h := s.trace[n].h;
      if s.trace[m].h == h {
        var x, y := StoryKeepsOrder(s.trace, h, n, m);
        assert CallInv(s, h);
        AckIsLast(Story(s.trace, h), h, s.handlers[h], s.clients[s.handlers[h].c].captured);
        assert false;
      }
    }
    forall h | h in s.handlers
      ensures HasAck(s.trace, h) <==>
        s.handlers[h].pc.Closed? && s.handlers[h].c in s.clients && !Disabled(s.clients[s.handlers[h].c].captured)
    {
      assert CallInv(s, h);
      AckIsLast(Story(s.trace, h), h, s.handlers[h], s.clients[s.handlers[h].c].captured);
      StoryMembers(s.trace, h);
      assert HasAck(s.trace, h) <==> HasAck(Story(s.trace, h), h);
    }
  }

  // The calls of c that have ended and that the captured spec did not disable.
  ghost function Answered(s: State, c: Id): set<Id> {
    set h | h in CallsOf(s, c) && c in s.clients && s.handlers[h].pc.Closed?
            && s.clients[c].captured.spec.emergencyEnabled != Some(false)
  }

  // In every run and for every client: as many acknowledgements as calls that
  // ended enabled, hence never more than the emergency messages delivered.
  lemma AcksNeverOutnumberMessages(ss: seq<State>, acts: seq<Action>, i: nat, c: Id)
    requires Run(ss, acts) && i < |ss|
    ensures Acks(ss[i].trace, CallsOf(ss[i], c)) == |Answered(ss[i], c)| <= Messages(acts[..i], c)
  {
    hide Run;
    AcksOfRun(ss, acts, i);
    AcksAreCalls(ss[i].trace, CallsOf(ss[i], c));
    CallsCounted(ss, acts, i, c);
    assert Acknowledged(ss[i].trace, CallsOf(ss[i], c)) == Answered(ss[i], c);
    FewerOf(Answered(ss[i], c), CallsOf(ss[i], c));
  }

  lemma {:induction false} FewerOf(a: set<Id>, b: set<Id>)
    requires a <= b
    ensures |a| <= |b|
  {
    assert b == a + (b - a);
  }

  // ---------- the panic ----------

  // The operator crashes in a step exactly if that step is a handler call,
  // enabled by the captured spec, that reads the captured ConfigMap and finds
  // it without data; and that is its last step.
  lemma CrashesExactly(ss: seq<State>, acts: seq<Action>, i: nat)
    requires Run(ss, acts) && i < |acts|
    ensures ss[i + 1].crashed <==>
      && acts[i].Handle? && ss[i].handlers[acts[i].h].pc.ReadMap? && acts[i].o.ok
      && var target := ss[i].clients[ss[i].handlers[acts[i].h].c].captured.target;
         target.at in ss[i].store.configMaps && ss[i].store.configMaps[target.at].data == map[]
    ensures ss[i + 1].crashed ==>
      && ss[i].clients[ss[i].handlers[acts[i].h].c].captured.spec.emergencyEnabled != Some(false)
      && ss[i + 1].store == ss[i].store
      && |acts| == i + 1
  {
    CrashStep(ss[i], acts[i]);
    if ss[i + 1].crashed {
      HandlersInvHolds(ss, acts, i);
      assert CallInv(ss[i], acts[i].h);
    }
  }

  lemma CrashStep(s: State, a: Action)
    requires Enabled(s, a)
    ensures Apply(s, a).crashed <==>
      && a.Handle? && s.handlers[a.h].pc.ReadMap? && a.o.ok
      && var target := s.clients[s.handlers[a.h].c].captured.target;
         target.at in s.store.configMaps && s.store.configMaps[target.at].data == map[]
    ensures Apply(s, a).crashed ==> Apply(s, a).store == s.store
  {
    hide Discovery.Discover, Discovery.LegalListing, Decide, Opamp.DispatchCustom;
  }
}
