// The status conditions of a CollectorMonitor and setCondition, which keeps
// them up to date in place.
module Conditions {

  // metav1.Condition; times are readings of a clock.
  datatype Condition = Condition(ctype: string, status: bool, lastTransition: nat, reason: string, message: string)

  // The arguments of one setCondition call, with the clock at that moment.
  datatype Call = Call(now: nat, ctype: string, status: bool, message: string)

  function ReasonOf(ctype: string, status: bool): string {
    ctype + if status then "Succeeded" else "Failed"
  }

  function FreshCondition(c: Call): Condition {
    Condition(c.ctype, c.status, c.now, ReasonOf(c.ctype, c.status), c.message)
  }

  // The list after one call.
  function Upserted(cs: seq<Condition>, c: Call): seq<Condition> {
    if cs == [] then [FreshCondition(c)]
    else if cs[0].ctype != c.ctype then [cs[0]] + Upserted(cs[1..], c)
    else if cs[0].status != c.status then [FreshCondition(c)] + cs[1..]
    else [cs[0].(message := c.message)] + cs[1..]
  }

  // Entries of other types are passed over.
  lemma {:induction false} UpsertedSkips(cs: seq<Condition>, n: nat, c: Call)
    requires n <= |cs| && forall j :: 0 <= j < n ==> cs[j].ctype != c.ctype
    ensures Upserted(cs, c) == cs[..n] + Upserted(cs[n..], c)
  {
    if n == 0 {
      assert cs[..0] == [] && cs[0..] == cs;
    } else {
      assert forall j :: 0 <= j < n - 1 ==> cs[1..][j] == cs[j + 1];
      UpsertedSkips(cs[1..], n - 1, c);
      assert cs[1..][n - 1..] == cs[n..];
      assert cs[..n] == [cs[0]] + cs[1..][..n - 1];
      assert Upserted(cs, c) == [cs[0]] + Upserted(cs[1..], c);
    }
  }

  // The status fields that Reconcile changes on its copy of the monitor.
  class MonitorStatus {
    var conditions: seq<Condition>

    constructor ()
      ensures conditions == []
    {
      conditions := [];
    }

    method SetCondition(now: nat, ctype: string, status: bool, message: string)
      modifies this
      ensures conditions == Upserted(old(conditions), Call(now, ctype, status, message))
    {
      var cond := Condition(ctype, true, now, ctype + "Succeeded", message);
      if !status {
        cond := cond.(status := false, reason := ctype + "Failed");
      }
      ghost var call := Call(now, ctype, status, message);
      for i := 0 to |conditions|
        invariant conditions == old(conditions)
        invariant forall j :: 0 <= j < i ==> conditions[j].ctype != ctype
      {
        var existing := conditions[i];
        if existing.ctype == ctype {
          UpsertedSkips(conditions, i, call);
          if existing.status != cond.status {
            conditions := conditions[i := cond];
          } else {
            conditions := conditions[i := existing.(message := message)];
          }
          return;
        }
      }
      UpsertedSkips(conditions, |conditions|, call);
      conditions := conditions + [cond];
    }
  }

  // The list after a history of calls on an empty list.
  ghost function Replay(h: seq<Call>): seq<Condition> {
    if h == [] then [] else Upserted(Replay(h[..|h| - 1]), h[|h| - 1])
  }

  // ---------- what the list means, in terms of the whole history ----------

  ghost predicate Mentions(h: seq<Call>, t: string) {
    exists k :: 0 <= k < |h| && h[k].ctype == t
  }

  // The types in the order of their first appearance.
  ghost function FirstAppearances(h: seq<Call>): seq<string> {
    if h == [] then []
    else
      var before, t := h[..|h| - 1], h[|h| - 1].ctype;
      FirstAppearances(before) + if Mentions(before, t) then [] else [t]
  }

  ghost predicate IsLastCall(h: seq<Call>, t: string, l: int) {
    && 0 <= l < |h| && h[l].ctype == t
    && forall k :: l < k < |h| ==> h[k].ctype != t
  }

  // Call k is the latest call for t before r.
  ghost predicate IsLatestBefore(h: seq<Call>, t: string, r: int, k: int) {
    && 0 <= k < r <= |h| && h[k].ctype == t
    && forall m :: k < m < r ==> h[m].ctype != t
  }

  // Call r opens the final run of calls for t that agree on the status.
  ghost predicate IsRunStart(h: seq<Call>, t: string, r: int, status: bool) {
    && 0 <= r < |h| && h[r].ctype == t
    && (forall k :: r <= k < |h| && h[k].ctype == t ==> h[k].status == status)
    && (forall k :: IsLatestBefore(h, t, r, k) ==> h[k].status != status)
  }

  ghost predicate LastSays(h: seq<Call>, t: string, status: bool, message: string) {
    exists l :: IsLastCall(h, t, l) && h[l].status == status && h[l].message == message
  }

  ghost predicate RunBegan(h: seq<Call>, t: string, status: bool, time: nat) {
    exists r :: IsRunStart(h, t, r, status) && h[r].now == time
  }

  ghost predicate Entry(h: seq<Call>, c: Condition) {
    && LastSays(h, c.ctype, c.status, c.message)
    && RunBegan(h, c.ctype, c.status, c.lastTransition)
    && c.reason == c.ctype + if c.status then "Succeeded" else "Failed"
  }

  ghost predicate Describes(h: seq<Call>, cs: seq<Condition>) {
    && |cs| == |FirstAppearances(h)|
    && (forall i :: 0 <= i < |cs| ==> cs[i].ctype == FirstAppearances(h)[i])
    && (forall i :: 0 <= i < |cs| ==> Entry(h, cs[i]))
  }

  lemma {:induction false} FirstAppearancesUnique(h: seq<Call>)
    ensures forall t :: t in FirstAppearances(h) <==> Mentions(h, t)
    ensures forall i, j :: 0 <= i < j < |FirstAppearances(h)| ==> FirstAppearances(h)[i] != FirstAppearances(h)[j]
  {
    if h != [] {
      var before, c := h[..|h| - 1], h[|h| - 1];
      FirstAppearancesUnique(before);
      assert h == before + [c];
      assert forall t :: Mentions(h, t) <==> Mentions(before, t) || t == c.ctype by {
        assert h[|h| - 1].ctype == c.ctype;
        assert forall k :: 0 <= k < |before| ==> h[k] == before[k];
      }
    }
  }

  // Upserted, entry by entry.
  lemma {:induction false} UpsertedShape(cs: seq<Condition>, c: Call)
    requires forall i, j :: 0 <= i < j < |cs| ==> cs[i].ctype != cs[j].ctype
    ensures (forall i :: 0 <= i < |cs| ==> cs[i].ctype != c.ctype) ==> Upserted(cs, c) == cs + [FreshCondition(c)]
    ensures (exists i :: 0 <= i < |cs| && cs[i].ctype == c.ctype) ==> |Upserted(cs, c)| == |cs|
    ensures forall i :: 0 <= i < |cs| && cs[i].ctype != c.ctype ==> Upserted(cs, c)[i] == cs[i]
    ensures forall i :: 0 <= i < |cs| && cs[i].ctype == c.ctype ==>
      Upserted(cs, c)[i] == if cs[i].status != c.status then FreshCondition(c) else cs[i].(message := c.message)
  {
    if cs != [] {
      UpsertedShape(cs[1..], c);
    }
  }

  // A further call that keeps the run going: of another type, or of the same
  // type and status.
  lemma RunGoesOn(h: seq<Call>, call: Call, t: string, status: bool, time: nat)
    requires RunBegan(h, t, status, time)
    requires call.ctype != t || call.status == status
    ensures RunBegan(h + [call], t, status, time)
  {
    var h' := h + [call];
    var r :| IsRunStart(h, t, r, status) && h[r].now == time;
    forall k | IsLatestBefore(h', t, r, k)
      ensures h'[k].status != status
    {
      assert forall m :: k < m < r ==> h[m] == h'[m];
      assert IsLatestBefore(h, t, r, k);
    }
    assert IsRunStart(h', t, r, status);
  }

  // A further call of the same type and the other status opens a new run.
  lemma RunFlips(h: seq<Call>, call: Call, message: string)
    requires LastSays(h, call.ctype, !call.status, message)
    ensures RunBegan(h + [call], call.ctype, call.status, call.now)
  {
    var h', t := h + [call], call.ctype;
    var l :| IsLastCall(h, t, l) && h[l].status == !call.status && h[l].message == message;
    forall k | IsLatestBefore(h', t, |h|, k)
      ensures h'[k].status != call.status
    {
      assert h'[l] == h[l] && h'[k] == h[k];
      assert k == l;
    }
    assert IsRunStart(h', t, |h|, call.status);
  }

  // A call for another type leaves an entry true.
  lemma EntryOfOtherType(h: seq<Call>, call: Call, c: Condition)
    requires Entry(h, c) && c.ctype != call.ctype
    ensures Entry(h + [call], c)
  {
    var l :| IsLastCall(h, c.ctype, l) && h[l].status == c.status && h[l].message == c.message;
    assert IsLastCall(h + [call], c.ctype, l);
    RunGoesOn(h, call, c.ctype, c.status, c.lastTransition);
  }

  // A call for the type of an entry updates it.
  lemma EntryOfSameType(h: seq<Call>, call: Call, c: Condition)
    requires Entry(h, c) && c.ctype == call.ctype
    ensures Entry(h + [call], if c.status != call.status then FreshCondition(call) else c.(message := call.message))
  {
    assert IsLastCall(h + [call], c.ctype, |h|);
    if c.status != call.status {
      RunFlips(h, call, c.message);
    } else {
      RunGoesOn(h, call, c.ctype, c.status, c.lastTransition);
    }
  }

  lemma EntryOfNewType(h: seq<Call>, call: Call)
    requires !Mentions(h, call.ctype)
    ensures Entry(h + [call], FreshCondition(call))
  {
    var h' := h + [call];
    assert IsLastCall(h', call.ctype, |h|);
    assert IsRunStart(h', call.ctype, |h|, call.status);
  }

  lemma {:induction false} ReplayDescribes(h: seq<Call>)
    ensures Describes(h, Replay(h))
  {
    hide Entry, Upserted;
    if h != [] {
      var before, call := h[..|h| - 1], h[|h| - 1];
      var cs := Replay(before);
      assert h == before + [call];
      ReplayDescribes(before);
      FirstAppearancesUnique(before);
      UpsertedShape(cs, call);
      if !Mentions(before, call.ctype) {
        EntryOfNewType(before, call);
      } else {
        var i :| 0 <= i < |cs| && FirstAppearances(before)[i] == call.ctype;
        assert cs[i].ctype == call.ctype;
      }
      forall i | 0 <= i < |cs|
        ensures Entry(h, Upserted(cs, call)[i])
      {
        if cs[i].ctype == call.ctype {
          EntryOfSameType(before, call, cs[i]);
        } else {
          EntryOfOtherType(before, call, cs[i]);
        }
      }
    }
  }

  lemma EntryUnique(h: seq<Call>, c: Condition, d: Condition)
    requires Entry(h, c) && Entry(h, d) && c.ctype == d.ctype
    ensures c == d
  {
    var t := c.ctype;
    var l :| IsLastCall(h, t, l) && h[l].status == c.status && h[l].message == c.message;
    var l' :| IsLastCall(h, t, l') && h[l'].status == d.status && h[l'].message == d.message;
    assert l == l';
    var r :| IsRunStart(h, t, r, c.status) && h[r].now == c.lastTransition;
    var r' :| IsRunStart(h, t, r', c.status) && h[r'].now == d.lastTransition;
    LatestBeforeExists(h, t, r, r');
    LatestBeforeExists(h, t, r', r);
  }

  // If t occurs before r, it has a latest occurrence there.
  lemma LatestBeforeExists(h: seq<Call>, t: string, first: int, r: int)
    requires 0 <= first < |h| && 0 <= r < |h| && h[first].ctype == t
    ensures first < r ==> exists k :: first <= k && IsLatestBefore(h, t, r, k)
  {
    if first < r {
      var k := r - 1;
      while h[k].ctype != t
        invariant first <= k < r
        invariant forall m :: k < m < r ==> h[m].ctype != t
        decreases k
      {
        k := k - 1;
      }
      assert IsLatestBefore(h, t, r, k);
    }
  }

  // The incrementally kept list is the one and only list that describes the
  // history: types unique and in order of first appearance, status and message
  // of the last call, reason from type and status, transition time of the call
  // that opened the final run of equal statuses.
  lemma HistoryDeterminesConditions(h: seq<Call>, cs: seq<Condition>)
    ensures cs == Replay(h) <==> Describes(h, cs)
  {
    ReplayDescribes(h);
    if Describes(h, cs) {
      forall i | 0 <= i < |cs|
        ensures cs[i] == Replay(h)[i]
      {
        EntryUnique(h, cs[i], Replay(h)[i]);
      }
    }
  }
}
