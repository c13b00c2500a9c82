/** The calls a pulse tracker makes to the control process, and what a careful
    observer of them demands. */
module PulseAudit {

  /** One list entry of the tracker, identified by its arrival number. */
  datatype Mark =
    | Start(serial: nat)       // the pulse was found good when it arrived
    | Events(serial: nat)      // pulseEvents()
    | EndOfPulse(serial: nat)  // a packet carried the pulse's own end-of-pulse flag
    | Partial(serial: nat)     // markPartial()
    | Complete(serial: nat)    // markComplete()

  /** `newest` is the last pulse completed, `eop` the last one with its own end of
      pulse, `partial` the one marked partial by the very last call; -1 if none. */
  datatype History = History(ok: bool, started: set<nat>, completed: set<nat>,
                             newest: int, eop: int, partial: int)

  /** Each pulse is started once and completed once, after it was started; completions
      follow arrival order; no events after completion; a completion not due to the
      pulse's own end of pulse comes right after a partial mark for it. */
  function Observe(h: History, m: Mark): History {
    match m
    case Start(s) => h.(ok := h.ok && s !in h.started, started := h.started + {s}, partial := -1)
    case Events(s) => h.(ok := h.ok && s in h.started && s !in h.completed, partial := -1)
    case EndOfPulse(s) => h.(eop := s, partial := -1)
    case Partial(s) => h.(partial := s)
    case Complete(s) =>
      h.(ok := h.ok && s in h.started && s !in h.completed && s > h.newest && (h.partial == s || h.eop == s),
         completed := h.completed + {s}, newest := s, partial := -1)
  }

  function Audit(trace: seq<Mark>): History {
    if trace == [] then History(true, {}, {}, -1, -1, -1)
    else Observe(Audit(trace[..|trace| - 1]), trace[|trace| - 1])
  }

  lemma AuditAppend(trace: seq<Mark>, m: Mark)
    ensures Audit(trace + [m]) == Observe(Audit(trace), m)
  {
  }

  lemma {:induction false} AuditPrefix(trace: seq<Mark>, n: nat)
    requires Audit(trace).ok && n <= |trace|
    ensures Audit(trace[..n]).ok
    decreases |trace|
  {
    if n < |trace| {
      assert trace[..|trace| - 1][..n] == trace[..n];
      AuditPrefix(trace[..|trace| - 1], n);
    } else {
      assert trace[..n] == trace;
    }
  }

  lemma {:induction false} AuditKnows(trace: seq<Mark>)
    requires Audit(trace).ok
    ensures forall i :: 0 <= i < |trace| && trace[i].Complete? ==>
              trace[i].serial in Audit(trace).completed && trace[i].serial <= Audit(trace).newest
    ensures Audit(trace).partial >= 0 ==> trace != [] && trace[|trace| - 1] == Partial(Audit(trace).partial)
    decreases |trace|
  {
    if trace != [] {
      AuditKnows(trace[..|trace| - 1]);
    }
  }

  /** Each pulse in the account of completions has exactly one completion in the trace,
      and no other pulse has any. */
  lemma {:induction false} CompletedOnce(trace: seq<Mark>, s: nat)
    requires Audit(trace).ok
    ensures multiset(trace)[Complete(s)] == if s in Audit(trace).completed then 1 else 0
  {
    if trace != [] {
      var init, m := trace[..|trace| - 1], trace[|trace| - 1];
      CompletedOnce(init, s);
      assert trace == init + [m];
    }
  }

  /** The account of starts is what the trace says. */
  lemma {:induction false} StartedIs(trace: seq<Mark>)
    ensures forall s :: s in Audit(trace).started <==> Start(s) in trace
  {
    if trace != [] {
      var init, m := trace[..|trace| - 1], trace[|trace| - 1];
      StartedIs(init);
      assert trace == init + [m];
    }
  }

  lemma {:induction false} AuditKnowsStarts(trace: seq<Mark>)
    ensures forall s :: s in Audit(trace).started ==> exists i :: 0 <= i < |trace| && trace[i] == Start(s)
    decreases |trace|
  {
    if trace != [] {
      var init, m := trace[..|trace| - 1], trace[|trace| - 1];
      AuditKnowsStarts(init);
      forall s | s in Audit(trace).started
        ensures exists i :: 0 <= i < |trace| && trace[i] == Start(s)
      {
        if s in Audit(init).started {
          var i :| 0 <= i < |init| && init[i] == Start(s);
          assert trace[i] == Start(s);
        } else {
          assert trace[|trace| - 1] == Start(s);
        }
      }
    }
  }

  /** `i` is the latest end-of-pulse mark of the trace. */
  ghost predicate LatestEnd(trace: seq<Mark>, i: nat, s: nat) {
    i < |trace| && trace[i] == EndOfPulse(s) && forall j :: i < j < |trace| ==> !trace[j].EndOfPulse?
  }

  lemma {:induction false} AuditKnowsEnd(trace: seq<Mark>) returns (i: nat)
    requires Audit(trace).eop >= 0
    ensures LatestEnd(trace, i, Audit(trace).eop)
    decreases |trace|
  {
    var init, m := trace[..|trace| - 1], trace[|trace| - 1];
    if m.EndOfPulse? {
      i := |trace| - 1;
    } else {
      i := AuditKnowsEnd(init);
      assert forall j :: i < j < |init| ==> trace[j] == init[j];
    }
  }

  /** What the audit means, said of the trace itself: completions come in strictly
      increasing arrival order, so none comes twice. */
  lemma CompletionsAreOrdered(trace: seq<Mark>, i: nat, j: nat)
    requires Audit(trace).ok
    requires i < j < |trace| && trace[i].Complete? && trace[j].Complete?
    ensures trace[i].serial < trace[j].serial
  {
    AuditPrefix(trace, j + 1);
    AuditPrefix(trace, j);
    var before := trace[..j];
    AuditKnows(before);
    AuditAppend(before, trace[j]);
    assert trace[..j + 1] == before + [trace[j]];
    assert before[i] == trace[i];
  }

  /** No event reaches a pulse that has been completed. */
  lemma NoEventsAfterCompletion(trace: seq<Mark>, i: nat, j: nat)
    requires Audit(trace).ok
    requires i < j < |trace| && trace[i].Complete? && trace[j].Events?
    ensures trace[i].serial != trace[j].serial
  {
    AuditPrefix(trace, j + 1);
    AuditPrefix(trace, j);
    var before := trace[..j];
    AuditKnows(before);
    AuditAppend(before, trace[j]);
    assert trace[..j + 1] == before + [trace[j]];
    assert before[i] == trace[i];
  }

  /** A completed pulse had been started, and was either marked partial by the call just
      before or owed its completion to the latest end-of-pulse packet, which was its own. */
  lemma CompletionsAreJustified(trace: seq<Mark>, j: nat)
    requires Audit(trace).ok && j < |trace| && trace[j].Complete?
    ensures exists i :: 0 <= i < j && trace[i] == Start(trace[j].serial)
    ensures (j > 0 && trace[j - 1] == Partial(trace[j].serial))
            || exists i :: LatestEnd(trace[..j], i, trace[j].serial)
  {
    AuditPrefix(trace, j + 1);
    AuditPrefix(trace, j);
    var before := trace[..j];
    AuditKnows(before);
    AuditKnowsStarts(before);
    AuditAppend(before, trace[j]);
    assert trace[..j + 1] == before + [trace[j]];
    var i :| 0 <= i < |before| && before[i] == Start(trace[j].serial);
    assert trace[i] == Start(trace[j].serial);
    if Audit(before).partial == trace[j].serial {
      assert before[j - 1] == trace[j - 1];
    } else {
      var e := AuditKnowsEnd(before);
    }
  }
}
