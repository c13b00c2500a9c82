/** The pulse list as a value: entries newest first, and what its operations keep. */
module PulseList {
  import opened PulseAudit

  /** The fields that all packets of one pulse share. */
  datatype Invariants = Invariants(pulseId: nat, flavor: nat, intraPulseTime: nat, pulseCharge: nat,
                                   cycle: nat, vetoFlags: nat, timingStatus: nat)

  /** One list entry. `serial` is its arrival number, which the source does not store. */
  datatype Entry = Entry(inv: Invariants, good: bool, dupCount: nat, pulseSeq: nat, serial: nat)

  /** The list agrees with the trace: a pulse is good exactly while it has been started
      and not completed, and the list is in reverse order of arrival. */
  ghost predicate Agrees(list: seq<Entry>, trace: seq<Mark>, arrivals: nat) {
    var h := Audit(trace);
    && h.ok && h.newest < arrivals
    && (forall i :: 0 <= i < |list| ==> list[i].serial < arrivals)
    && (forall i, j :: 0 <= i < j < |list| ==> list[i].serial > list[j].serial)
    && (forall i :: 0 <= i < |list| && list[i].good ==>
          list[i].serial in h.started && list[i].serial !in h.completed && list[i].serial > h.newest)
    && (forall s :: s in h.started ==>
          s < arrivals && (s in h.completed || exists i :: 0 <= i < |list| && list[i].serial == s && list[i].good))
  }

  ghost predicate Distinct(list: seq<Entry>) {
    forall i, j :: 0 <= i < j < |list| ==> list[i].inv != list[j].inv
  }

  function MaxId(list: seq<Entry>): nat {
    if list == [] then 0
    else
      var m, id := MaxId(list[..|list| - 1]), list[|list| - 1].inv.pulseId;
      if id > m then id else m
  }

  /** How many entries have this pulse id. */
  function CountId(list: seq<Entry>, pulseId: nat): nat {
    if list == [] then 0
    else CountId(list[..|list| - 1], pulseId) + (if list[|list| - 1].inv.pulseId == pulseId then 1 else 0)
  }

  predicate NoEvents(marks: seq<Mark>) {
    forall m :: m in marks ==> !m.Events?
  }

  predicate NoStarts(marks: seq<Mark>) {
    forall m :: m in marks ==> !m.Start?
  }

  /** Every entry at or beyond `i` is closed. */
  function Closed(list: seq<Entry>, i: nat): (r: seq<Entry>)
    requires i <= |list|
    ensures |r| == |list|
    ensures forall k :: 0 <= k < |list| ==> r[k] == if k < i then list[k] else list[k].(good := false)
  {
    list[..i] + seq(|list| - i, k requires 0 <= k < |list| - i => list[i + k].(good := false))
  }

  predicate NoneGood(list: seq<Entry>, from: nat) {
    forall k :: from <= k < |list| ==> !list[k].good
  }

  /** The calls for a pulse that ends without its own end of pulse. */
  function PartialMarks(e: Entry): seq<Mark> {
    if e.good then [Partial(e.serial), Complete(e.serial)] else []
  }

  /** The same for all entries from the oldest up to and including entry `i`. */
  function Sweep(list: seq<Entry>, i: nat): seq<Mark>
    requires i <= |list|
    decreases |list| - i
  {
    if i == |list| then [] else Sweep(list, i + 1) + PartialMarks(list[i])
  }

  lemma CloseOne(list: seq<Entry>, i: nat)
    requires i < |list| && NoneGood(list, i + 1)
    ensures list[i := list[i].(good := false)] == Closed(list, i)
  {
  }

  /** A mark that neither starts nor completes a pulse. */
  lemma AgreesNote(list: seq<Entry>, trace: seq<Mark>, arrivals: nat, m: Mark)
    requires Agrees(list, trace, arrivals)
    requires m.Partial? || m.EndOfPulse? ||
             (m.Events? && exists i :: 0 <= i < |list| && list[i].serial == m.serial && list[i].good)
    ensures Agrees(list, trace + [m], arrivals)
  {
  }

  /** Completing the oldest good entry. */
  lemma AgreesComplete(list: seq<Entry>, trace: seq<Mark>, arrivals: nat, i: nat)
    requires Agrees(list, trace, arrivals) && i < |list| && list[i].good && NoneGood(list, i + 1)
    requires Audit(trace).partial == list[i].serial || Audit(trace).eop == list[i].serial
    ensures Agrees(list[i := list[i].(good := false)], trace + [Complete(list[i].serial)], arrivals)
  {
    var s := list[i].serial;
    var h, list' := Audit(trace), list[i := list[i].(good := false)];
    AuditAppend(trace, Complete(s));
    forall t | t in h.started && t != s && t !in h.completed
      ensures exists k :: 0 <= k < |list'| && list'[k].serial == t && list'[k].good
    {
      var k :| 0 <= k < |list| && list[k].serial == t && list[k].good;
      assert list'[k] == list[k];
    }
  }

  lemma AgreesPartial(list: seq<Entry>, trace: seq<Mark>, arrivals: nat, i: nat)
    requires Agrees(list, trace, arrivals) && i < |list| && NoneGood(list, i + 1)
    ensures Agrees(list[i := list[i].(good := false)], trace + PartialMarks(list[i]), arrivals)
    ensures Audit(trace + PartialMarks(list[i])).eop == Audit(trace).eop
    ensures Audit(trace + PartialMarks(list[i])).started == Audit(trace).started
    ensures Audit(trace + PartialMarks(list[i])).newest ==
            if list[i].good then list[i].serial else Audit(trace).newest
  {
    var e := list[i];
    if e.good {
      hide Agrees;
      AgreesNote(list, trace, arrivals, Partial(e.serial));
      AuditAppend(trace, Partial(e.serial));
      AuditAppend(trace + [Partial(e.serial)], Complete(e.serial));
      AgreesComplete(list, trace + [Partial(e.serial)], arrivals, i);
      assert trace + PartialMarks(e) == trace + [Partial(e.serial)] + [Complete(e.serial)];
    } else {
      assert list[i := e.(good := false)] == list && trace + PartialMarks(e) == trace;
    }
  }

  /** Where a sweep from the oldest entry down to `k` has brought list and trace. */
  ghost predicate Swept(list0: seq<Entry>, base: seq<Mark>, arrivals: nat, k: nat, list: seq<Entry>, trace: seq<Mark>) {
    && k <= |list0|
    && Agrees(list, trace, arrivals)
    && list == Closed(list0, k)
    && trace == base + Sweep(list0, k)
    && Audit(trace).eop == Audit(base).eop
    && Audit(trace).started == Audit(base).started
  }

  lemma SweepStart(list: seq<Entry>, trace: seq<Mark>, arrivals: nat)
    requires Agrees(list, trace, arrivals)
    ensures Swept(list, trace, arrivals, |list|, list, trace)
  {
  }

  lemma SweepStep(list0: seq<Entry>, base: seq<Mark>, arrivals: nat, k: nat, list: seq<Entry>, trace: seq<Mark>)
    requires Swept(list0, base, arrivals, k + 1, list, trace)
    ensures |list| == |list0| && list[k] == list0[k]
    ensures Swept(list0, base, arrivals, k, list[k := list[k].(good := false)], trace + PartialMarks(list[k]))
  {
    AgreesPartial(list, trace, arrivals, k);
    CloseOne(list, k);
    hide Agrees, Audit;
    assert Closed(list, k) == Closed(list0, k);
    assert trace + PartialMarks(list[k]) == base + (Sweep(list0, k + 1) + PartialMarks(list0[k]));
  }

  lemma SweepEnd(list0: seq<Entry>, base: seq<Mark>, arrivals: nat, k: nat, list: seq<Entry>, trace: seq<Mark>)
    requires Swept(list0, base, arrivals, k, list, trace)
    ensures Agrees(list, trace, arrivals) && |list| == |list0|
    ensures list == Closed(list0, k) && trace == base + Sweep(list0, k) && NoneGood(list, k)
    ensures forall i :: 0 <= i < k ==> list[i] == list0[i]
    ensures Audit(trace).eop == Audit(base).eop && Audit(trace).started == Audit(base).started
  {}

  lemma SameIdentities(list: seq<Entry>, changed: seq<Entry>)
    requires |list| == |changed| && forall k :: 0 <= k < |list| ==> changed[k].inv == list[k].inv
    ensures Distinct(list) ==> Distinct(changed)
    ensures MaxId(changed) == MaxId(list)
  {
  }

  /** A new entry, not yet judged, at the front. */
  lemma AgreesPush(list: seq<Entry>, trace: seq<Mark>, arrivals: nat, e: Entry)
    requires Agrees(list, trace, arrivals) && e.serial == arrivals && !e.good
    ensures Agrees([e] + list, trace, arrivals + 1)
  {
    var h := Audit(trace);
    forall t | t in h.started && t !in h.completed
      ensures exists k :: 0 <= k < |[e] + list| && ([e] + list)[k].serial == t && ([e] + list)[k].good
    {
      var k :| 0 <= k < |list| && list[k].serial == t && list[k].good;
      assert ([e] + list)[k + 1] == list[k];
    }
  }

  lemma AgreesPop(list: seq<Entry>, trace: seq<Mark>, arrivals: nat)
    requires Agrees(list, trace, arrivals) && list != [] && !list[|list| - 1].good
    ensures Agrees(list[..|list| - 1], trace, arrivals)
  {
  }

  /** The front entry is judged good: it starts. */
  lemma AgreesStart(list: seq<Entry>, trace: seq<Mark>, arrivals: nat)
    requires Agrees(list, trace, arrivals) && list != [] && !list[0].good
    requires list[0].serial !in Audit(trace).started && list[0].serial > Audit(trace).newest
    ensures Agrees(list[0 := list[0].(good := true)], trace + [Start(list[0].serial)], arrivals)
  {
    var s := list[0].serial;
    var h, list' := Audit(trace), list[0 := list[0].(good := true)];
    AuditAppend(trace, Start(s));
    AuditCompletedStarted(trace);
    forall t | t in h.started + {s} && t !in h.completed
      ensures exists k :: 0 <= k < |list'| && list'[k].serial == t && list'[k].good
    {
      if t == s {
        assert list'[0].good;
      } else {
        var k :| 0 <= k < |list| && list[k].serial == t && list[k].good;
        assert list'[k] == list[k];
      }
    }
  }

  lemma {:induction false} AuditCompletedStarted(trace: seq<Mark>)
    requires Audit(trace).ok
    ensures Audit(trace).completed <= Audit(trace).started
  {
    if trace != [] {
      AuditCompletedStarted(trace[..|trace| - 1]);
    }
  }

  lemma {:induction false} MaxIdBounds(list: seq<Entry>)
    ensures forall e :: e in list ==> e.inv.pulseId <= MaxId(list)
    ensures MaxId(list) == 0 || exists e :: e in list && e.inv.pulseId == MaxId(list)
  {
    if list != [] {
      var init, last := list[..|list| - 1], list[|list| - 1];
      MaxIdBounds(init);
      assert list == init + [last];
    }
  }

  lemma {:induction false} MaxIdPush(list: seq<Entry>, e: Entry)
    ensures MaxId([e] + list) == if e.inv.pulseId > MaxId(list) then e.inv.pulseId else MaxId(list)
  {
    if list == [] {
      assert [e] + list == [e] && [e][..0] == [];
    } else {
      assert ([e] + list)[..|list|] == [e] + list[..|list| - 1];
      MaxIdPush(list[..|list| - 1], e);
    }
  }

  /** Only ids matter to the maximum. */
  lemma {:induction false} MaxIdSameIds(a: seq<Entry>, b: seq<Entry>)
    requires |a| == |b| && forall k :: 0 <= k < |a| ==> a[k].inv == b[k].inv
    ensures MaxId(a) == MaxId(b)
  {
    if a != [] {
      MaxIdSameIds(a[..|a| - 1], b[..|b| - 1]);
    }
  }

  lemma MaxIdPop(list: seq<Entry>)
    requires list != []
    ensures list[|list| - 1].inv.pulseId != MaxId(list) ==> MaxId(list[..|list| - 1]) == MaxId(list)
  {}

  /** Where evictions have brought list and trace. */
  ghost predicate Trimmed(list0: seq<Entry>, base: seq<Mark>, arrivals: nat, list: seq<Entry>, trace: seq<Mark>) {
    && list != [] && list <= list0
    && Agrees(list, trace, arrivals)
    && trace == base + Sweep(list0, |list|)
    && Audit(trace).started == Audit(base).started
    && (Audit(trace).newest < list0[0].serial || Audit(trace).newest == Audit(base).newest)
  }

  lemma TrimStart(list: seq<Entry>, trace: seq<Mark>, arrivals: nat)
    requires Agrees(list, trace, arrivals) && list != []
    ensures Trimmed(list, trace, arrivals, list, trace)
  {
  }

  lemma TrimStep(list0: seq<Entry>, base: seq<Mark>, arrivals: nat, list: seq<Entry>, trace: seq<Mark>)
    requires Trimmed(list0, base, arrivals, list, trace) && |list| >= 2
    ensures var last := |list| - 1;
            && Agrees(list, trace, arrivals) && NoneGood(list, last + 1)
            && Trimmed(list0, base, arrivals, list[..last], trace + PartialMarks(list[last]))
  {
    var last := |list| - 1;
    assert list[last].serial < list[0].serial;
    AgreesPartial(list, trace, arrivals, last);
    var closed := list[last := list[last].(good := false)];
    AgreesPop(closed, trace + PartialMarks(list[last]), arrivals);
    hide Agrees, Audit;
    assert closed[..last] == list[..last];
    assert trace + PartialMarks(list[last]) == base + (Sweep(list0, last + 1) + PartialMarks(list0[last]));
  }

  lemma TrimEnd(list0: seq<Entry>, base: seq<Mark>, arrivals: nat, list: seq<Entry>, trace: seq<Mark>)
    requires Trimmed(list0, base, arrivals, list, trace)
    ensures list != [] && list <= list0 && Agrees(list, trace, arrivals)
    ensures trace == base + Sweep(list0, |list|)
    ensures Audit(trace).started == Audit(base).started
    ensures Audit(trace).newest < list0[0].serial || Audit(trace).newest == Audit(base).newest
  {}

  lemma ClosedTwice(list: seq<Entry>, i: nat)
    requires i < |list|
    ensures Closed(Closed(list, i + 1), i) == Closed(list, i)
    ensures Closed(list, i + 1)[i] == list[i] && NoneGood(Closed(list, i + 1), i + 1)
  {}

  lemma ClosedFront(list: seq<Entry>, i: nat)
    requires i <= |list|
    ensures Closed(list, i)[..i] == list[..i]
  {}

  lemma {:induction false} SweepOnlyFinishes(list: seq<Entry>, i: nat)
    requires i <= |list|
    ensures NoEvents(Sweep(list, i)) && NoStarts(Sweep(list, i))
    decreases |list| - i
  {
    if i < |list| {
      SweepOnlyFinishes(list, i + 1);
    }
  }
}
