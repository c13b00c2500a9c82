/** The per-source pulse tracker: a bounded list of recent pulses, with eviction, the
    dispatch of finished pulses and a running maximum of pulse times. */
module PulseTracker {
  import opened Options
  import opened PulseAudit
  import opened PulseBook
  import opened PulseList

  const MAX_PULSE_SEQ := 0x8000
  const MAX_SOURCE_SEQ := 0x1_0000
  const NO_SOURCE_SEQ := 0xffff_ffff
  const NO_DUP_COUNT := 0xffff_ffff

  /** The pulse sequence that the list expects next; a pulse that is not known expects 0. */
  function ExpectedSeq(list: seq<Entry>, inv: Invariants): nat {
    if list == [] then 0
    else if list[0].inv == inv then list[0].pulseSeq
    else ExpectedSeq(list[1..], inv)
  }

  /** A checked source sequence of this packet is not the one expected. */
  predicate SourceGap(sourceSeq: nat, pkt: DataPkt, env: Env) {
    env.checkSourceSeq && sourceSeq != NO_SOURCE_SEQ && pkt.sourceSeq != sourceSeq
  }

  function NextSourceSeq(sourceSeq: nat, pkt: DataPkt, env: Env): nat {
    if env.checkSourceSeq then (pkt.sourceSeq + 1) % MAX_SOURCE_SEQ else sourceSeq
  }

  /** A checked pulse sequence is not the one expected. */
  predicate PulseGap(e: Entry, pkt: DataPkt, env: Env) {
    env.checkPulseSeq && pkt.pulseSeq != e.pulseSeq
  }

  /** A packet of a good pulse moves its sequence on if it is checked. */
  function Counted(list: seq<Entry>, i: nat, env: Env): (r: seq<Entry>)
    requires i < |list|
    ensures |r| == |list|
  {
    if list[i].good && env.checkPulseSeq
    then list[i := list[i].(pulseSeq := (list[i].pulseSeq + 1) % MAX_PULSE_SEQ)] else list
  }

  class HWSource {
    var list: seq<Entry>
    var lastPulse: nat
    var maxPulseSeqList: nat
    var sourceSeq: nat
    var arrivals: nat
    var trace: seq<Mark>

    ghost predicate Valid()
      reads this
    {
      && Agrees(list, trace, arrivals)
      && Distinct(list)
      && 1 <= maxPulseSeqList && |list| <= maxPulseSeqList
      && lastPulse == MaxId(list)
    }

    constructor (maxPulseSeqList: nat)
      ensures Valid() && list == [] && trace == [] && arrivals == 0 && sourceSeq == NO_SOURCE_SEQ
      ensures this.maxPulseSeqList == AtLeastOne(maxPulseSeqList)
    {
      this.maxPulseSeqList := if maxPulseSeqList < 1 then 1 else maxPulseSeqList;
      list, lastPulse, sourceSeq, arrivals, trace := [], 0, NO_SOURCE_SEQ, 0, [];
    }

    /** Looks for a pulse, counting the entries with the same pulse id. The count only
        means something for a pulse that is not there; else it is the placeholder that
        the caller's own copy of the pulse carries. */
    method FindPulseSequence(inv: Invariants) returns (found: Option<nat>, dupCount: nat)
      requires Valid()
      ensures found.Some? ==> found.value < |list| && list[found.value].inv == inv
      ensures found.None? ==> forall i :: 0 <= i < |list| ==> list[i].inv != inv
      ensures dupCount == if found.None? then CountId(list, inv.pulseId) else NO_DUP_COUNT
    {
      hide Agrees, MaxId;
      found, dupCount := None, 0;
      for i := 0 to |list|
        invariant found.Some? ==> found.value < i && list[found.value].inv == inv
        invariant found.None? ==> forall k :: 0 <= k < i ==> list[k].inv != inv
        invariant dupCount == CountId(list[..i], inv.pulseId)
      {
        assert list[..i + 1][..i] == list[..i];
        if list[i].inv.pulseId == inv.pulseId {
          dupCount := dupCount + 1;
        }
        if list[i].inv == inv {
          found := Some(i);
        }
      }
      assert list[..|list|] == list;
      if found.Some? {
        dupCount := NO_DUP_COUNT;
      }
    }

    /** The largest pulse id among the first `n` entries. */
    method MaxOfFront(n: nat) returns (m: nat)
      requires n <= |list|
      ensures m == MaxId(list[..n])
    {
      m := 0;
      for i := 0 to n
        invariant m == MaxId(list[..i])
      {
        assert list[..i + 1][..i] == list[..i];
        if list[i].inv.pulseId > m {
          m := list[i].inv.pulseId;
        }
      }
    }

    /** Keeps the list within its maximum, finishing the oldest entries as they go. */
    method Trim()
      requires Agrees(list, trace, arrivals) && Distinct(list) && lastPulse == MaxId(list)
      requires 1 <= maxPulseSeqList && list != []
      modifies this`list, this`trace, this`lastPulse
      ensures Agrees(list, trace, arrivals) && Distinct(list) && lastPulse == MaxId(list)
      ensures list != [] && list <= old(list)
      ensures |list| == if |old(list)| > maxPulseSeqList then maxPulseSeqList else |old(list)|
      ensures trace == old(trace) + Sweep(old(list), |list|)
      ensures Audit(trace).started == Audit(old(trace)).started
      ensures Audit(trace).newest < old(list[0].serial) || Audit(trace).newest == Audit(old(trace)).newest
    {
      hide Agrees, Audit, MaxId, Closed, Sweep, Trimmed;
      ghost var list0, trace0 := list, trace;
      TrimStart(list, trace, arrivals);
      while |list| > maxPulseSeqList
        invariant Trimmed(list0, trace0, arrivals, list, trace)
        invariant Distinct(list) && lastPulse == MaxId(list) && list != []
        invariant |list| == |list0| || |list| >= maxPulseSeqList
      {
        var last := |list| - 1;
        TrimStep(list0, trace0, arrivals, list, trace);
        if list[last].inv.pulseId == lastPulse {
          lastPulse := MaxOfFront(last);
        }
        MaxIdPop(list);
        ClosedFront(list, last);
        EndPulse(last, false);
        list := list[..last];
      }
      TrimEnd(list0, trace0, arrivals, list, trace);
    }

    /** Finds or enters the packet's pulse. `i` is its place in the list. */
    method GetPulse(inv: Invariants, polledMax: Option<nat>) returns (i: nat, isNew: bool)
      requires Valid()
      modifies this
      ensures Valid() && sourceSeq == old(sourceSeq)
      ensures i < |list| && list[i].inv == inv
      ensures isNew <==> forall k :: 0 <= k < |old(list)| ==> old(list)[k].inv != inv
      ensures !isNew ==> list == old(list) && trace == old(trace) && arrivals == old(arrivals)
      ensures !isNew ==> maxPulseSeqList == old(maxPulseSeqList)
      ensures isNew ==>
        && i == 0 && arrivals == old(arrivals) + 1
        && maxPulseSeqList == NewLimit(old(maxPulseSeqList), polledMax)
        && |list| == (if |old(list)| + 1 > maxPulseSeqList then maxPulseSeqList else |old(list)| + 1)
        && list[0].inv == inv && !list[0].good && list[0].serial == old(arrivals) && list[0].pulseSeq == 0
        && list[0].dupCount == CountId(old(list), inv.pulseId)
        && list <= [list[0]] + old(list)
        && trace == old(trace) + Sweep([list[0]] + old(list), |list|)
        && list[0].serial !in Audit(trace).started && list[0].serial > Audit(trace).newest
    {
      hide Audit, Sweep, CountId, Agrees, MaxId, Distinct;
      var found, dupCount := FindPulseSequence(inv);
      if found.Some? {
        return found.value, false;
      }
      var e := Entry(inv, false, dupCount, 0, arrivals);
      NeverSeen(list, trace, arrivals);
      AgreesPush(list, trace, arrivals, e);
      DistinctPush(list, e);
      MaxIdPush(list, e);
      list := [e] + list;
      arrivals := arrivals + 1;
      isNew := true;
      if inv.pulseId > lastPulse {
        lastPulse := inv.pulseId;
      }
      if polledMax.Some? && polledMax.value != maxPulseSeqList {
        maxPulseSeqList := if polledMax.value < 1 then 1 else polledMax.value;
      }
      Trim();
      i := 0;
    }

    /** Marks one pulse partial and complete, if it is still outstanding. */
    method FinishPartial(k: nat)
      requires k < |list|
      modifies this`list, this`trace
      ensures list == old(list)[k := old(list)[k].(good := false)]
      ensures trace == old(trace) + PartialMarks(old(list)[k])
    {
      var e := list[k];
      if e.good {
        trace := trace + [Partial(e.serial)];
        MarkComplete(k);
      }
    }

    /** Dispatches a pulse, once. */
    method MarkComplete(i: nat)
      requires i < |list|
      modifies this`list, this`trace
      ensures list == old(list)[i := old(list)[i].(good := false)]
      ensures trace == old(trace) + if old(list)[i].good then [Complete(old(list)[i].serial)] else []
    {
      if list[i].good {
        trace := trace + [Complete(list[i].serial)];
        list := list[i := list[i].(good := false)];
      }
    }

    /** Finishes every pulse older than the one at `i`, from the oldest on. */
    method FinishOlder(i: nat)
      requires Agrees(list, trace, arrivals) && i < |list|
      modifies this`list, this`trace
      ensures Swept(old(list), old(trace), arrivals, i + 1, list, trace)
    {
      hide Swept, Agrees;
      SweepStart(list, trace, arrivals);
      var k := |list| - 1;
      while k != 0 && k != i
        invariant i <= k < |list| == |old(list)|
        invariant Swept(old(list), old(trace), arrivals, k + 1, list, trace)
      {
        SweepStep(old(list), old(trace), arrivals, k, list, trace);
        FinishPartial(k);
        k := k - 1;
      }
    }

    /** The end of the pulse at `i`: by its own end-of-pulse packet, which also finishes
        every older pulse first, or because the entry has to go. */
    method EndPulse(i: nat, eop: bool)
      requires Agrees(list, trace, arrivals) && i < |list|
      requires eop || NoneGood(list, i + 1)
      modifies this`list, this`trace
      ensures Agrees(list, trace, arrivals)
      ensures list == Closed(old(list), i)
      ensures trace == old(trace) +
        if eop then [EndOfPulse(old(list)[i].serial)] + Sweep(old(list), i + 1)
                    + (if old(list)[i].good then [Complete(old(list)[i].serial)] else [])
        else PartialMarks(old(list)[i])
    {
      hide Agrees, Swept, Closed, NoneGood, Sweep, Audit;
      if !eop {
        AgreesPartial(list, trace, arrivals, i);
        CloseOne(list, i);
        if list[i].good {
          assert trace + PartialMarks(list[i]) == trace + [Partial(list[i].serial)] + [Complete(list[i].serial)];
          trace := trace + [Partial(list[i].serial)];
        } else {
          assert trace + PartialMarks(list[i]) == trace;
        }
      } else {
        AgreesNote(list, trace, arrivals, EndOfPulse(list[i].serial));
        AuditAppend(trace, EndOfPulse(list[i].serial));
        trace := trace + [EndOfPulse(list[i].serial)];
        ghost var base := trace;
        FinishOlder(i);
        SweepEnd(old(list), base, arrivals, i + 1, list, trace);
        CloseOne(list, i);
        ClosedTwice(old(list), i);
        if list[i].good {
          AgreesComplete(list, trace, arrivals, i);
        }
      }
      assert !list[i].good ==> list[i := list[i].(good := false)] == list && trace + [] == trace;
      MarkComplete(i);
    }

    /** Judges a new pulse by its time. */
    method NewPulse(future: int) returns (good: bool)
      requires Valid() && list != [] && !list[0].good
      requires list[0].serial !in Audit(trace).started && list[0].serial > Audit(trace).newest
      modifies this`list, this`trace
      ensures Valid() && good == Plausible(old(list)[0].inv.pulseId, future)
      ensures list == old(list)[0 := old(list)[0].(good := good)]
      ensures trace == old(trace) + if good then [Start(old(list)[0].serial)] else []
    {
      hide Agrees, MaxId, Audit, Distinct;
      var sec := list[0].inv.pulseId / 0x1_0000_0000;
      good := true;
      if sec < FACILITY_START_TIME {
        good := false;
      } else if sec > future {
        good := false;
      }
      if good {
        AgreesStart(list, trace, arrivals);
        trace := trace + [Start(list[0].serial)];
      } else {
        assert list[0 := list[0].(good := good)] == list;
      }
      list := list[0 := list[0].(good := good)];
      SameIdentities(old(list), list);
    }

    method CheckPulseSeq(i: nat, pulseSeq: nat) returns (ok: bool)
      requires Valid() && i < |list|
      modifies this`list
      ensures Valid() && ok == (pulseSeq == old(list)[i].pulseSeq)
      ensures list == old(list)[i := old(list)[i].(pulseSeq := (old(list)[i].pulseSeq + 1) % MAX_PULSE_SEQ)]
    {
      hide Agrees, MaxId, Distinct;
      ok := pulseSeq == list[i].pulseSeq;
      AgreesOnSequence(list, trace, arrivals, i, (list[i].pulseSeq + 1) % MAX_PULSE_SEQ);
      list := list[i := list[i].(pulseSeq := (list[i].pulseSeq + 1) % MAX_PULSE_SEQ)];
      SameIdentities(old(list), list);
    }

    /** The first packet of a source sets the sequence. */
    method CheckSourceSeq(seqNo: nat) returns (ok: bool)
      requires Valid()
      modifies this`sourceSeq
      ensures Valid()
      ensures ok == (seqNo == old(sourceSeq) || old(sourceSeq) == NO_SOURCE_SEQ)
      ensures sourceSeq == (seqNo + 1) % MAX_SOURCE_SEQ
    {
      ok := seqNo == sourceSeq;
      if !ok {
        if sourceSeq == NO_SOURCE_SEQ {
          ok := true;
        }
        sourceSeq := (seqNo + 1) % MAX_SOURCE_SEQ;
      } else {
        sourceSeq := (sourceSeq + 1) % MAX_SOURCE_SEQ;
      }
    }

    /** Hands a packet of a good pulse on, noting a gap in either sequence. */
    method Deliver(i: nat, pkt: DataPkt, env: Env, sourceSeqOk: bool)
      requires Valid() && i < |list| && list[i].good
      modifies this`list, this`trace
      ensures Valid() && list == Counted(old(list), i, env)
      ensures trace == old(trace) + DeliveryMarks(old(list)[i], !sourceSeqOk || PulseGap(old(list)[i], pkt, env))
      ensures EventsOf(trace) == EventsOf(old(trace)) + [list[i].serial]
    {
      hide MaxId, Audit, Distinct, EventsOf;
      AgreesNote(list, trace, arrivals, Events(list[i].serial));
      hide Agrees;
      EventsOfOne(trace, Events(list[i].serial));
      trace := trace + [Events(list[i].serial)];
      var ok := true;
      if env.checkPulseSeq {
        ok := CheckPulseSeq(i, pkt.pulseSeq);
      }
      if !ok || !sourceSeqOk {
        AgreesNote(list, trace, arrivals, Partial(list[i].serial));
        EventsOfOne(trace, Partial(list[i].serial));
        trace := trace + [Partial(list[i].serial)];
      }
    }

    /** The pulse was known and good, or is new and has a plausible time. */
    ghost predicate GoodBefore(inv: Invariants, future: int)
      reads this
    {
      || (exists k :: 0 <= k < |list| && list[k].inv == inv && list[k].good)
      || ((forall k :: 0 <= k < |list| ==> list[k].inv != inv) && Plausible(inv.pulseId, future))
    }

    /** The first half of a packet: find or enter its pulse, and judge a new one. */
    method EnterPulse(pkt: DataPkt, env: Env) returns (i: nat, good: bool, sourceSeqOk: bool)
      requires Valid()
      modifies this
      ensures Valid() && arrivals <= old(arrivals) + 1
      ensures i < |list| && EntersAs(old(list), old(maxPulseSeqList), old(arrivals), pkt.inv, env,
                                     list, maxPulseSeqList, arrivals, i)
      ensures list[i].inv == pkt.inv && list[i].good == good
      ensures list[i].pulseSeq == ExpectedSeq(old(list), pkt.inv)
      ensures sourceSeqOk == !SourceGap(old(sourceSeq), pkt, env)
      ensures sourceSeq == NextSourceSeq(old(sourceSeq), pkt, env)
      ensures good <==> old(GoodBefore(pkt.inv, env.future))
      ensures 1 <= |list| <= |old(list)| + 1
      ensures trace == old(trace) + EntryMarks(old(list), pkt.inv, |list|, list[i])
      ensures NoEvents(trace[|old(trace)|..]) && EventsOf(trace) == EventsOf(old(trace))
      ensures OnlyStarts(old(trace), trace, list[i].serial, good)
    {
      hide Agrees, Audit, MaxId, Sweep, Plausible, CountId, OnlyStarts, EventsOf, ExpectedSeq;
      var isNew;
      ghost var known := list;
      i, isNew := GetPulse(pkt.inv, env.polledMax);
      ghost var evicted, trace1 := trace[|old(trace)|..], trace;
      if isNew {
        SweepOnlyFinishes([list[0]] + known, |list|);
        SweepPush(known, list[0], |list|);
        NotExpected(known, pkt.inv);
        assert evicted == Sweep(known, |list| - 1);
      } else {
        IsExpected(known, i);
      }
      sourceSeqOk := true;
      if env.checkSourceSeq {
        sourceSeqOk := CheckSourceSeq(pkt.sourceSeq);
      }
      if isNew {
        good := NewPulse(env.future);
        assert trace[|old(trace)|..] == evicted + if good then [Start(list[0].serial)] else [];
        EventsStay(old(trace), trace[|old(trace)|..]);
        assert trace == old(trace) + trace[|old(trace)|..];
        StartsNew(old(trace), evicted, trace, list[0].serial, good);
      } else {
        good := list[i].good;
        StartsKnown(list, trace, arrivals, i);
      }
    }

    /** One data packet of a source that is not intermittent. */
    method HandleDataPkt(pkt: DataPkt, env: Env) returns (i: nat, good: bool)
      requires Valid()
      modifies this
      ensures Valid() && arrivals <= old(arrivals) + 1
      ensures i < |list| && list[i].inv == pkt.inv
      // The packet's events are delivered, once, exactly when its pulse is good.
      ensures good <==> old(GoodBefore(pkt.inv, env.future))
      ensures old(trace) <= trace
      ensures good <==> Events(list[i].serial) in trace[|old(trace)|..]
      ensures EventsOf(trace) == EventsOf(old(trace)) + if good then [list[i].serial] else []
      ensures OnlyStarts(old(trace), trace, list[i].serial, good)
      // After an end of pulse, neither this pulse nor any older one is outstanding.
      ensures pkt.endOfPulse && !env.ignoreEop ==> NoneGood(list, i)
      ensures !(pkt.endOfPulse && !env.ignoreEop) ==> list[i].good == good
      // Both sequences move on.
      ensures sourceSeq == NextSourceSeq(old(sourceSeq), pkt, env)
      ensures SequencesGoOn(old(list), list, i, pkt, env, good)
      // The list goes on, and the calls made are, as the book of all arrivals says.
      ensures forall b: Book :: FollowsBook(old(list), old(maxPulseSeqList), old(arrivals), b, pkt, env,
                                            list, maxPulseSeqList, arrivals, list[i].serial, good,
                                            Misses(old(list), old(sourceSeq), pkt, env), trace[|old(trace)|..])
    {
      hide Agrees, Audit, MaxId, Sweep, NoneGood, EventsOf, OnlyStarts, FollowsBook, EntersAs, Distinct, NoEvents, NoStarts,
           HWSource.GoodBefore, ExpectedSeq, EntryMarks, DeliveryMarks, EndMarks, SourceGap, PulseGap, NextSourceSeq,
           SequencesGoOn, Counted, Misses, Closed;
      var sourceSeqOk;
      ghost var list0, trace0, arrivals0, limit0 := list, trace, arrivals, maxPulseSeqList;
      i, good, sourceSeqOk := EnterPulse(pkt, env);
      ghost var list1, trace1 := list, trace;
      if good {
        Deliver(i, pkt, env, sourceSeqOk);
      }
      ghost var list2, trace2 := list, trace;
      NotCounted(list1, i, env);
      ExpectedIsMissed(list0, old(sourceSeq), pkt, env, list1[i]);
      SameButSequence(list1, i, env);
      if !env.ignoreEop && pkt.endOfPulse {
        EndPulse(i, true);
        SameIdentities(list2, list);
        ClosedSame(list2, i);
        EndIs(list2, i);
      }
      PacketCalls(list0, pkt, env, list1, i, list2, Misses(list0, old(sourceSeq), pkt, env),
                  trace0, trace1, trace2, trace);
      StartsStay(trace0, trace1, trace, list1[i].serial, good);
      SequencesMove(list0, limit0, arrivals0, list1, maxPulseSeqList, arrivals, list, i, pkt, env);
      AllFollow(list0, limit0, arrivals0, pkt, env, list1, maxPulseSeqList, arrivals, i, list2, list,
                Misses(list0, old(sourceSeq), pkt, env), trace[|trace0|..]);
    }

    /** The source goes down: every outstanding pulse is finished, oldest first, and the
        list is emptied. */
    method Drain()
      requires Valid()
      modifies this
      ensures list == [] && Agrees(list, trace, arrivals)
      ensures Audit(trace).ok && Audit(trace).started == Audit(old(trace)).started
      ensures trace == old(trace) + Sweep(old(list), 0)
      ensures Audit(trace).completed == Audit(trace).started
    {
      hide Agrees, Swept, Closed, Sweep, NoneGood;
      ghost var list0, trace0 := list, trace;
      SweepStart(list, trace, arrivals);
      if list != [] {
        var i := |list| - 1;
        while true
          invariant 0 <= i < |list| == |list0|
          invariant Swept(list0, trace0, arrivals, i + 1, list, trace)
          decreases i
        {
          SweepStep(list0, trace0, arrivals, i, list, trace);
          SweepEnd(list0, trace0, arrivals, i + 1, list, trace);
          CloseOne(list, i);
          EndPulse(i, false);
          if i == 0 {
            break;
          }
          i := i - 1;
        }
      }
      SweepEnd(list0, trace0, arrivals, 0, list, trace);
      AgreesClear(list, trace, arrivals);
      list := [];
    }
  }

  lemma DistinctPush(list: seq<Entry>, e: Entry)
    requires Distinct(list) && forall i :: 0 <= i < |list| ==> list[i].inv != e.inv
    ensures Distinct([e] + list)
  {
  }

  /** The next arrival has neither been started nor overtaken. */
  lemma NeverSeen(list: seq<Entry>, trace: seq<Mark>, arrivals: nat)
    requires Agrees(list, trace, arrivals)
    ensures arrivals !in Audit(trace).started && Audit(trace).newest < arrivals
  {
  }

  lemma AgreesOnSequence(list: seq<Entry>, trace: seq<Mark>, arrivals: nat, i: nat, n: nat)
    requires Agrees(list, trace, arrivals) && i < |list|
    ensures Agrees(list[i := list[i].(pulseSeq := n)], trace, arrivals)
  {
    var h, list' := Audit(trace), list[i := list[i].(pulseSeq := n)];
    forall t | t in h.started && t !in h.completed
      ensures exists k :: 0 <= k < |list'| && list'[k].serial == t && list'[k].good
    {
      var k :| 0 <= k < |list| && list[k].serial == t && list[k].good;
      assert list'[k].serial == t && list'[k].good;
    }
  }

  lemma AgreesClear(list: seq<Entry>, trace: seq<Mark>, arrivals: nat)
    requires Agrees(list, trace, arrivals) && NoneGood(list, 0)
    ensures Agrees([], trace, arrivals)
    ensures Audit(trace).completed == Audit(trace).started
  {
    AuditCompletedStarted(trace);
  }

  /** Between two points of a trace only pulse `s` starts, and only if it is good; if it
      is good it has started by then. */
  ghost predicate OnlyStarts(before: seq<Mark>, trace: seq<Mark>, s: nat, good: bool) {
    forall t :: Start(t) in trace <==> Start(t) in before || (good && t == s)
  }

  lemma StartsNew(before: seq<Mark>, evicted: seq<Mark>, trace: seq<Mark>, s: nat, good: bool)
    requires NoStarts(evicted) && trace == before + evicted + if good then [Start(s)] else []
    ensures OnlyStarts(before, trace, s, good)
  {
  }

  lemma StartsKnown(list: seq<Entry>, trace: seq<Mark>, arrivals: nat, i: nat)
    requires Agrees(list, trace, arrivals) && i < |list|
    ensures OnlyStarts(trace, trace, list[i].serial, list[i].good)
  {
    StartedIs(trace);
  }

  lemma StartsStay(before: seq<Mark>, entered: seq<Mark>, trace: seq<Mark>, s: nat, good: bool)
    requires OnlyStarts(before, entered, s, good) && entered <= trace && NoStarts(trace[|entered|..])
    ensures OnlyStarts(before, trace, s, good)
  {
    assert trace == entered + trace[|entered|..];
  }

  lemma SameButSequence(list: seq<Entry>, i: nat, env: Env)
    requires i < |list|
    ensures SamePulses(list, Counted(list, i, env)) && Counted(list, i, env)[i].inv == list[i].inv
    ensures Counted(list, i, env)[i].serial == list[i].serial && Counted(list, i, env)[i].good == list[i].good
  {
  }

  lemma NotCounted(list: seq<Entry>, i: nat, env: Env)
    requires i < |list|
    ensures !list[i].good ==> Counted(list, i, env) == list && forall gap :: DeliveryMarks(list[i], gap) == []
  {
  }

  lemma EndIs(list: seq<Entry>, i: nat)
    requires i < |list|
    ensures EndMarks(list, i) == [EndOfPulse(list[i].serial)] + Sweep(list, i + 1)
                                 + if list[i].good then [Complete(list[i].serial)] else []
  {
  }

  lemma ClosedSame(list: seq<Entry>, i: nat)
    requires i < |list|
    ensures |Closed(list, i)| == |list| && NoneGood(Closed(list, i), i)
    ensures Closed(list, i)[i].inv == list[i].inv && Closed(list, i)[i].serial == list[i].serial
  {
  }

  lemma AllFollow(list0: seq<Entry>, limit0: nat, arrivals0: nat, pkt: DataPkt, env: Env,
                  entered: seq<Entry>, limit: nat, arrivals: nat, i: nat, delivered: seq<Entry>, list: seq<Entry>,
                  gap: bool, calls: seq<Mark>)
    requires Distinct(list0) && EntersAs(list0, limit0, arrivals0, pkt.inv, env, entered, limit, arrivals, i)
    requires 1 <= |entered| <= |list0| + 1
    requires SamePulses(entered, delivered)
    requires list == if Ends(pkt, env) then Closed(delivered, i) else delivered
    requires calls == EntryMarks(list0, pkt.inv, |entered|, entered[i]) + DeliveryMarks(entered[i], gap)
                      + if Ends(pkt, env) then EndMarks(delivered, i) else []
    ensures forall b: Book :: FollowsBook(list0, limit0, arrivals0, b, pkt, env, list, limit, arrivals,
                                          entered[i].serial, entered[i].good, gap, calls)
  {
    forall b: Book
      ensures FollowsBook(list0, limit0, arrivals0, b, pkt, env, list, limit, arrivals,
                          entered[i].serial, entered[i].good, gap, calls)
    {
      PacketFollows(list0, limit0, arrivals0, b, pkt, env, entered, limit, arrivals, i, delivered, list, gap, calls);
    }
  }

  // ---- Lost packets ----

  /** This packet shows that one was lost. */
  predicate Misses(list: seq<Entry>, sourceSeq: nat, pkt: DataPkt, env: Env) {
    || SourceGap(sourceSeq, pkt, env)
    || (env.checkPulseSeq && pkt.pulseSeq != ExpectedSeq(list, pkt.inv))
  }

  lemma ExpectedIsMissed(list: seq<Entry>, sourceSeq: nat, pkt: DataPkt, env: Env, e: Entry)
    requires e.pulseSeq == ExpectedSeq(list, pkt.inv)
    ensures Misses(list, sourceSeq, pkt, env) <==> SourceGap(sourceSeq, pkt, env) || PulseGap(e, pkt, env)
  {
  }

  lemma {:induction false} NotExpected(list: seq<Entry>, inv: Invariants)
    requires forall k :: 0 <= k < |list| ==> list[k].inv != inv
    ensures ExpectedSeq(list, inv) == 0
  {
    if list != [] {
      NotExpected(list[1..], inv);
    }
  }

  lemma {:induction false} IsExpected(list: seq<Entry>, i: nat)
    requires Distinct(list) && i < |list|
    ensures ExpectedSeq(list, list[i].inv) == list[i].pulseSeq
  {
    if i > 0 {
      assert list[0].inv != list[i].inv;
      IsExpected(list[1..], i - 1);
    }
  }

  lemma SweepPush(list: seq<Entry>, e: Entry, n: nat)
    requires 1 <= n <= |list| + 1
    ensures Sweep([e] + list, n) == Sweep(list, n - 1)
    decreases |list| - n
  {
    if n <= |list| {
      SweepPush(list, e, n + 1);
    }
  }

  /** A pulse was in the list and expected this. */
  ghost predicate Expected(list: seq<Entry>, serial: nat, pulseSeq: nat) {
    exists j :: 0 <= j < |list| && list[j].serial == serial && list[j].pulseSeq == pulseSeq
  }

  /** Each entry that is still there expects what it did, but for the packet's own. */
  ghost predicate SequencesGoOn(list0: seq<Entry>, list: seq<Entry>, i: nat, pkt: DataPkt, env: Env, good: bool) {
    && i < |list|
    && list[i].pulseSeq == (if good && env.checkPulseSeq then (ExpectedSeq(list0, pkt.inv) + 1) % MAX_PULSE_SEQ
                            else ExpectedSeq(list0, pkt.inv))
    && forall k :: 0 <= k < |list| && k != i ==> Expected(list0, list[k].serial, list[k].pulseSeq)
  }

  lemma SequencesMove(list0: seq<Entry>, limit0: nat, arrivals0: nat, entered: seq<Entry>, limit: nat, arrivals: nat,
                      list: seq<Entry>, i: nat, pkt: DataPkt, env: Env)
    requires EntersAs(list0, limit0, arrivals0, pkt.inv, env, entered, limit, arrivals, i)
    requires entered[i].pulseSeq == ExpectedSeq(list0, pkt.inv)
    requires var counted := Counted(entered, i, env); list == if Ends(pkt, env) then Closed(counted, i) else counted
    ensures SequencesGoOn(list0, list, i, pkt, env, entered[i].good)
  {
    EnteredFrom(list0, limit0, arrivals0, entered, limit, arrivals, i, pkt, env);
    hide ExpectedSeq, EntersAs, Expected;
    forall k | 0 <= k < |list| && k != i
      ensures Expected(list0, list[k].serial, list[k].pulseSeq)
    {
      assert entered[k].serial == list[k].serial && entered[k].pulseSeq == list[k].pulseSeq;
    }
  }

  lemma EnteredFrom(list0: seq<Entry>, limit0: nat, arrivals0: nat, entered: seq<Entry>, limit: nat, arrivals: nat,
                    i: nat, pkt: DataPkt, env: Env)
    requires EntersAs(list0, limit0, arrivals0, pkt.inv, env, entered, limit, arrivals, i)
    ensures forall k :: 0 <= k < |entered| && k != i ==> Expected(list0, entered[k].serial, entered[k].pulseSeq)
  {
    hide Plausible, CountId, NewLimit;
    forall k | 0 <= k < |entered| && k != i
      ensures Expected(list0, entered[k].serial, entered[k].pulseSeq)
    {
      if entered == list0 {
        assert list0[k] == entered[k];
      } else {
        assert entered[1..][k - 1] == list0[k - 1];
      }
    }
  }

  /** The calls of one packet, in three parts of which only the second delivers events. */
  lemma PacketCalls(list0: seq<Entry>, pkt: DataPkt, env: Env, entered: seq<Entry>, i: nat, delivered: seq<Entry>,
                    gap: bool, trace0: seq<Mark>, trace1: seq<Mark>, trace2: seq<Mark>, trace: seq<Mark>)
    requires i < |entered| == |delivered| && 1 <= |entered| <= |list0| + 1
    requires trace1 == trace0 + EntryMarks(list0, pkt.inv, |entered|, entered[i])
    requires trace2 == trace1 + DeliveryMarks(entered[i], gap)
    requires trace == if Ends(pkt, env) then trace2 + EndMarks(delivered, i) else trace2
    requires NoEvents(trace1[|trace0|..])
    requires EventsOf(trace1) == EventsOf(trace0)
    requires EventsOf(trace2) == EventsOf(trace1) + if entered[i].good then [entered[i].serial] else []
    ensures trace0 <= trace1 <= trace && NoStarts(trace[|trace1|..])
    ensures trace[|trace0|..] == EntryMarks(list0, pkt.inv, |entered|, entered[i]) + DeliveryMarks(entered[i], gap)
                                 + if Ends(pkt, env) then EndMarks(delivered, i) else []
    ensures entered[i].good <==> Events(entered[i].serial) in trace[|trace0|..]
    ensures EventsOf(trace) == EventsOf(trace0) + if entered[i].good then [entered[i].serial] else []
  {
    hide EventsOf, EntryMarks, Ends, DeliveryMarks, EndMarks;
    var e, entry, delivery := entered[i], EntryMarks(list0, pkt.inv, |entered|, entered[i]), DeliveryMarks(entered[i], gap);
    var end := if Ends(pkt, env) then EndMarks(delivered, i) else [];
    EndOnlyFinishes(delivered, i);
    EventsStay(trace2, end);
    DeliveryHasEvents(e, gap);
    assert trace == trace0 + entry + delivery + end;
    ThreeParts(trace0, entry, delivery, end);
  }

  lemma EndOnlyFinishes(list: seq<Entry>, i: nat)
    requires i < |list|
    ensures NoEvents(EndMarks(list, i)) && NoStarts(EndMarks(list, i))
  {
    hide Sweep;
    SweepOnlyFinishes(list, i + 1);
  }

  lemma DeliveryHasEvents(e: Entry, gap: bool)
    ensures e.good <==> Events(e.serial) in DeliveryMarks(e, gap)
    ensures NoStarts(DeliveryMarks(e, gap))
  {
    assert e.good ==> DeliveryMarks(e, gap)[0] == Events(e.serial);
  }

  lemma ThreeParts(base: seq<Mark>, a: seq<Mark>, b: seq<Mark>, c: seq<Mark>)
    ensures (base + a + b + c)[|base|..] == a + b + c && (base + a + b + c)[|base + a|..] == b + c
    ensures (base + a)[|base|..] == a && base <= base + a <= base + a + b + c
  {
  }

  /** The sequences expected are those that the packets so far announce. */
  ghost predicate Expects(list: seq<Entry>, sourceSeq: nat, packets: Packets, limit: nat) {
    && sourceSeq == NextSource(packets).GetOr(NO_SOURCE_SEQ)
    && forall k :: 0 <= k < |list| ==>
         list[k].pulseSeq == Checked(packets, Seen(packets, limit), list[k].serial) % MAX_PULSE_SEQ
  }

  lemma {:induction false} NeverChecked(packets: Packets, seen: seq<(nat, bool)>, s: nat)
    requires |seen| == |packets| && forall k :: 0 <= k < |seen| ==> seen[k].0 != s
    ensures Checked(packets, seen, s) == 0
  {
    if packets != [] {
      var last := |packets| - 1;
      NeverChecked(packets[..last], seen[..last], s);
    }
  }

  /** A pulse that is known expects what its entry says, one that is not expects 0. */
  lemma ExpectedOf(list: seq<Entry>, limit: nat, arrivals: nat, b: Book, inv: Invariants) returns (k: nat)
    requires Keeps(list, limit, arrivals, b) && Distinct(list)
    ensures var found := Find(b.arrived, b.kept, inv);
            if found.None? then ExpectedSeq(list, inv) == 0
            else k < |list| && list[k].serial == found.value && ExpectedSeq(list, inv) == list[k].pulseSeq
  {
    FoundInBoth(list, limit, arrivals, b, inv);
    hide Find, ExpectedSeq, Distinct;
    var found := Find(b.arrived, b.kept, inv);
    if found.Some? {
      k := arrivals - 1 - found.value;
      IsExpected(list, k);
    } else {
      k := 0;
      NotExpected(list, inv);
    }
  }

  lemma NewIsUnchecked(packets: Packets, start: nat)
    ensures Checked(packets, Seen(packets, start), |BookAfter(packets, start).arrived|) == 0
  {
    BookTells(packets, start, |packets|);
    assert packets[..|packets|] == packets;
    hide Checked, BookAfter, Seen;
    NeverChecked(packets, Seen(packets, start), |BookAfter(packets, start).arrived|);
  }

  lemma ExpectedIsCount(list: seq<Entry>, limit: nat, arrivals: nat, packets: Packets, start: nat,
                        sourceSeq: nat, inv: Invariants)
    requires Keeps(list, limit, arrivals, BookAfter(packets, start)) && Distinct(list)
    requires Expects(list, sourceSeq, packets, start)
    ensures ExpectedSeq(list, inv)
            == Checked(packets, Seen(packets, start), Serial(BookAfter(packets, start), inv)) % MAX_PULSE_SEQ
  {
    hide Find, Checked, ExpectedSeq, Seen, BookAfter, Keeps, Distinct, NextSource;
    NewIsUnchecked(packets, start);
    var k := ExpectedOf(list, limit, arrivals, BookAfter(packets, start), inv);
  }

  /** A packet is taken to show a loss exactly when it does. */
  lemma MissesIsGap(list: seq<Entry>, limit: nat, arrivals: nat, packets: Packets, start: nat,
                    sourceSeq: nat, pkt: DataPkt, env: Env)
    requires Keeps(list, limit, arrivals, BookAfter(packets, start)) && Distinct(list)
    requires Expects(list, sourceSeq, packets, start)
    ensures Misses(list, sourceSeq, pkt, env) <==> Gap(packets, start, pkt, env)
  {
    ExpectedIsCount(list, limit, arrivals, packets, start, sourceSeq, pkt.inv);
    hide ExpectedSeq, Checked, BookAfter, Keeps, Distinct, Serial, Seen;
  }

  lemma ExpectsNext(list0: seq<Entry>, sourceSeq0: nat, limit0: nat, arrivals0: nat, packets: Packets, start: nat,
                    n: nat, list: seq<Entry>, sourceSeq: nat, limit: nat, arrivals: nat, i: nat, good: bool)
    requires n < |packets|
    requires Keeps(list0, limit0, arrivals0, BookAfter(packets[..n], start)) && Distinct(list0)
    requires Expects(list0, sourceSeq0, packets[..n], start)
    requires Keeps(list, limit, arrivals, BookAfter(packets[..n + 1], start)) && i < |list|
    requires sourceSeq == NextSourceSeq(sourceSeq0, packets[n].0, packets[n].1)
    requires SequencesGoOn(list0, list, i, packets[n].0, packets[n].1, good)
    requires list[i].serial == Serial(BookAfter(packets[..n], start), packets[n].0.inv)
    requires good == Good(BookAfter(packets[..n], start), packets[n].0, packets[n].1)
    ensures Expects(list, sourceSeq, packets[..n + 1], start)
  {
    var before, after := packets[..n], packets[..n + 1];
    ExpectedIsCount(list0, limit0, arrivals0, before, start, sourceSeq0, packets[n].0.inv);
    SeenNext(packets, start, n);
    SerialsApart(list, limit, arrivals, BookAfter(after, start), i);
    SourceNext(packets, n, sourceSeq0);
    hide BookAfter, Seen, Serial, Good, Keeps, Distinct, Checked, NextSource, ExpectedSeq, NextSourceSeq;
    CountsNext(list0, packets, n, Seen(before, start), list, i, good);
  }

  lemma {:induction false} CountsNext(list0: seq<Entry>, packets: Packets, n: nat, seen: seq<(nat, bool)>,
                   list: seq<Entry>, i: nat, good: bool)
    requires n < |packets| && |seen| == n && i < |list|
    requires forall j :: 0 <= j < |list0| ==>
               list0[j].pulseSeq == Checked(packets[..n], seen, list0[j].serial) % MAX_PULSE_SEQ
    requires ExpectedSeq(list0, packets[n].0.inv) == Checked(packets[..n], seen, list[i].serial) % MAX_PULSE_SEQ
    requires SequencesGoOn(list0, list, i, packets[n].0, packets[n].1, good)
    requires forall k :: 0 <= k < |list| && k != i ==> list[k].serial != list[i].serial
    ensures forall k :: 0 <= k < |list| ==>
              list[k].pulseSeq
              == Checked(packets[..n + 1], seen + [(list[i].serial, good)], list[k].serial) % MAX_PULSE_SEQ
  {
    hide Checked, ExpectedSeq;
    forall k | 0 <= k < |list|
      ensures list[k].pulseSeq
              == Checked(packets[..n + 1], seen + [(list[i].serial, good)], list[k].serial) % MAX_PULSE_SEQ
    {
      CheckedNext(packets, n, seen, (list[i].serial, good), list[k].serial);
    }
  }

  lemma SerialsApart(list: seq<Entry>, limit: nat, arrivals: nat, b: Book, i: nat)
    requires Keeps(list, limit, arrivals, b) && i < |list|
    ensures forall k :: 0 <= k < |list| && k != i ==> list[k].serial != list[i].serial
  {
  }

  lemma SourceNext(packets: Packets, n: nat, sourceSeq: nat)
    requires n < |packets| && sourceSeq == NextSource(packets[..n]).GetOr(NO_SOURCE_SEQ)
    ensures NextSourceSeq(sourceSeq, packets[n].0, packets[n].1) == NextSource(packets[..n + 1]).GetOr(NO_SOURCE_SEQ)
  {
    assert packets[..n + 1][..n] == packets[..n];
  }

  lemma CheckedNext(packets: Packets, n: nat, seen: seq<(nat, bool)>, last: (nat, bool), s: nat)
    requires n < |packets| && |seen| == n
    ensures Checked(packets[..n + 1], seen + [last], s)
            == Checked(packets[..n], seen, s) + if last == (s, true) && packets[n].1.checkPulseSeq then 1 else 0
  {
    assert packets[..n + 1][..n] == packets[..n] && (seen + [last])[..n] == seen;
  }

  lemma SeenNext(packets: Packets, start: nat, n: nat)
    requires n < |packets|
    ensures var b := BookAfter(packets[..n], start);
            Seen(packets[..n + 1], start)
            == Seen(packets[..n], start) + [(Serial(b, packets[n].0.inv), Good(b, packets[n].0, packets[n].1))]
  {
    hide Serial, Good;
    assert packets[..n + 1][..n] == packets[..n];
  }

  lemma RunStarts(limit: nat)
    ensures Keeps([], AtLeastOne(limit), 0, BookAfter([], limit))
    ensures Expects([], NO_SOURCE_SEQ, [], limit) && AllCalls([], limit) == []
    ensures EventsOf([]) == GoodSerials(Seen([], limit)) == []
  {
  }

  lemma RunNext(packets: Packets, limit: nat, n: nat)
    requires n < |packets|
    ensures var b, p := BookAfter(packets[..n], limit), packets[n];
            && BookAfter(packets[..n + 1], limit) == Turn(b, p.0, p.1)
            && GoodSerials(Seen(packets[..n + 1], limit))
               == GoodSerials(Seen(packets[..n], limit)) + (if Good(b, p.0, p.1) then [Serial(b, p.0.inv)] else [])
            && AllCalls(packets[..n + 1], limit)
               == AllCalls(packets[..n], limit) + Calls(b, p.0, p.1, Gap(packets[..n], limit, p.0, p.1))
  {
    hide Turn, Good, Serial, Calls, Gap;
    assert packets[..n + 1][..n] == packets[..n];
    var seen := Seen(packets[..n + 1], limit);
    assert seen[..n] == Seen(packets[..n], limit);
  }

  lemma RunEnds(before: seq<Mark>, drained: seq<Mark>, trace: seq<Mark>, good: seq<nat>)
    requires trace == before + drained && NoStarts(drained) && NoEvents(drained)
    requires Audit(trace).ok && Audit(trace).completed == Audit(trace).started
    requires forall s :: Start(s) in before <==> s in good
    ensures EventsOf(trace) == EventsOf(before)
    ensures forall s: nat :: multiset(trace)[Complete(s)] == if s in good then 1 else 0
  {
    EventsStay(before, drained);
    StartedIs(trace);
    forall s: nat ensures multiset(trace)[Complete(s)] == if s in good then 1 else 0 {
      CompletedOnce(trace, s);
    }
  }

  /** A source from its first packet until it goes down. The calls made are those that
      the packets ask for, one by one; so events go, in order, to the pulses that the book
      judges good, and are marked partial at once exactly after a gap in a checked
      sequence (`GapIsMarked`). Each good pulse is completed exactly once, and no other
      one is; and the calls pass the audit, with all it means. */
  method RunSource(maxPulseSeqList: nat, packets: Packets) returns (trace: seq<Mark>)
    ensures trace == AllCalls(packets, maxPulseSeqList) + LastCalls(BookAfter(packets, maxPulseSeqList))
    ensures Audit(trace).ok
    ensures EventsOf(trace) == GoodSerials(Seen(packets, maxPulseSeqList))
    ensures forall s: nat :: multiset(trace)[Complete(s)]
              == if s in GoodSerials(Seen(packets, maxPulseSeqList)) then 1 else 0
  {
    hide Distinct, MaxId, Agrees, HWSource.GoodBefore, Keeps, EventsOf, Turn, Serial, Good, Expects, Misses, Gap,
         NextSourceSeq, SequencesGoOn, Calls, AllCalls, NoneGood, LastCalls, Sweep;
    var source := new HWSource(maxPulseSeqList);
    RunStarts(maxPulseSeqList);
    for n := 0 to |packets|
      invariant fresh(source) && source.Valid()
      invariant Keeps(source.list, source.maxPulseSeqList, source.arrivals, BookAfter(packets[..n], maxPulseSeqList))
      invariant Expects(source.list, source.sourceSeq, packets[..n], maxPulseSeqList)
      invariant source.trace == AllCalls(packets[..n], maxPulseSeqList)
      invariant EventsOf(source.trace) == GoodSerials(Seen(packets[..n], maxPulseSeqList))
      invariant forall s :: Start(s) in source.trace <==> s in GoodSerials(Seen(packets[..n], maxPulseSeqList))
    {
      RunNext(packets, maxPulseSeqList, n);
      var pkt, env := packets[n].0, packets[n].1;
      ghost var list0, limit0, arrivals0, sourceSeq0, trace0 :=
        source.list, source.maxPulseSeqList, source.arrivals, source.sourceSeq, source.trace;
      MissesIsGap(list0, limit0, arrivals0, packets[..n], maxPulseSeqList, sourceSeq0, pkt, env);
      var i, good := source.HandleDataPkt(pkt, env);
      assert FollowsBook(list0, limit0, arrivals0, BookAfter(packets[..n], maxPulseSeqList), pkt, env,
                         source.list, source.maxPulseSeqList, source.arrivals, source.list[i].serial, good,
                         Misses(list0, sourceSeq0, pkt, env), source.trace[|trace0|..]);
      ExpectsNext(list0, sourceSeq0, limit0, arrivals0, packets, maxPulseSeqList, n,
                  source.list, source.sourceSeq, source.maxPulseSeqList, source.arrivals, i, good);
      assert source.trace == trace0 + source.trace[|trace0|..];
    }
    assert packets[..|packets|] == packets;
    ghost var before, list := source.trace, source.list;
    SweepAll(list, source.maxPulseSeqList, source.arrivals, BookAfter(packets, maxPulseSeqList));
    source.Drain();
    trace := source.trace;
    SweepOnlyFinishes(list, 0);
    RunEnds(before, Sweep(list, 0), trace, GoodSerials(Seen(packets, maxPulseSeqList)));
  }

  lemma SweepAll(list: seq<Entry>, limit: nat, arrivals: nat, b: Book)
    requires Keeps(list, limit, arrivals, b)
    ensures b.kept <= |b.arrived| && Sweep(list, 0) == LastCalls(b)
  {
    SweepFinishes(list, limit, arrivals, b, 0);
  }
}
