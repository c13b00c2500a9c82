/** Merging the eight marker queues in time order. */
module MarkerMerge {

  /** The starting value of the search for the next entry: 2^64 - 1 nanoseconds. */
  const NEVER: nat := 0xffff_ffff_ffff_ffff
  type Stamp = t: nat | t < NEVER

  const QUEUES: nat := 8

  datatype Queued = Queued(time: Stamp, text: string)

  /** An entry together with the queue it waited in. */
  datatype Ticket = Ticket(queue: nat, entry: Queued)

  predicate TimeSorted(q: seq<Queued>) {
    forall i, j :: 0 <= i < j < |q| ==> q[i].time <= q[j].time
  }

  /** Earlier, or as early and in a queue of higher priority. */
  predicate Before(a: Ticket, b: Ticket) {
    a.entry.time < b.entry.time || (a.entry.time == b.entry.time && a.queue <= b.queue)
  }

  function Total(qs: seq<seq<Queued>>): nat {
    if qs == [] then 0 else Total(qs[..|qs| - 1]) + |qs[|qs| - 1]|
  }

  /** Which of the first `k` queues has the next entry, and its time. */
  function Best(qs: seq<seq<Queued>>, k: nat): (r: (nat, nat))
    requires k <= |qs|
    ensures r.1 <= NEVER
    ensures r.1 < NEVER ==> r.0 < k && qs[r.0] != [] && qs[r.0][0].time == r.1
    ensures r.1 == NEVER <==> forall q :: 0 <= q < k ==> qs[q] == []
    ensures forall q :: 0 <= q < k && qs[q] != [] ==>
              r.1 < qs[q][0].time || (r.1 == qs[q][0].time && r.0 <= q)
  {
    if k == 0 then (0, NEVER)
    else
      var best := Best(qs, k - 1);
      if qs[k - 1] != [] && qs[k - 1][0].time < best.1 then (k - 1, qs[k - 1][0].time) else best
  }

  lemma {:induction false} TotalUpdate(qs: seq<seq<Queued>>, q: nat, s: seq<Queued>)
    requires q < |qs|
    ensures Total(qs[q := s]) == Total(qs) - |qs[q]| + |s|
    ensures Total(qs) >= |qs[q]|
  {
    var last := |qs| - 1;
    if q == last {
      assert qs[q := s][..last] == qs[..last];
    } else {
      assert qs[q := s][..last] == qs[..last][q := s];
      TotalUpdate(qs[..last], q, s);
    }
  }

  predicate Exhausted(qs: seq<seq<Queued>>) {
    forall q :: 0 <= q < |qs| ==> qs[q] == []
  }

  /** The entry that comes next, and the queues without it. */
  function Next(qs: seq<seq<Queued>>): (t: Ticket)
    requires !Exhausted(qs)
    ensures t.queue < |qs| && qs[t.queue] != [] && t.entry == qs[t.queue][0]
  {
    var q := Best(qs, |qs|).0;
    Ticket(q, qs[q][0])
  }

  function After(qs: seq<seq<Queued>>): (r: seq<seq<Queued>>)
    requires !Exhausted(qs)
    ensures |r| == |qs|
  {
    var q := Next(qs).queue;
    qs[q := qs[q][1..]]
  }

  lemma AfterIsSmaller(qs: seq<seq<Queued>>)
    requires !Exhausted(qs)
    ensures Total(After(qs)) < Total(qs)
  {
    var q := Next(qs).queue;
    TotalUpdate(qs, q, qs[q][1..]);
  }

  /** The merge, by repeatedly taking the best head. */
  function Merged(qs: seq<seq<Queued>>): seq<Ticket>
    decreases Total(qs)
  {
    if Exhausted(qs) then []
    else
      AfterIsSmaller(qs);
      [Next(qs)] + Merged(After(qs))
  }

  /** What a merged sequence has from queue `q`. */
  function Of(ts: seq<Ticket>, q: nat): seq<Queued> {
    if ts == [] then []
    else (if ts[0].queue == q then [ts[0].entry] else []) + Of(ts[1..], q)
  }

  /** Every entry of every queue comes out exactly once, and each queue keeps its order. */
  lemma {:induction false} MergedKeepsQueues(qs: seq<seq<Queued>>, q: nat)
    requires q < |qs|
    ensures Of(Merged(qs), q) == qs[q]
    decreases Total(qs)
  {
    if !Exhausted(qs) {
      AfterIsSmaller(qs);
      MergedKeepsQueues(After(qs), q);
      assert Merged(qs)[1..] == Merged(After(qs));
      if q == Next(qs).queue {
        assert [qs[q][0]] + qs[q][1..] == qs[q];
      }
    }
  }

  lemma {:induction false} MergedComesFrom(qs: seq<seq<Queued>>, i: nat)
    requires i < |Merged(qs)|
    ensures var t := Merged(qs)[i]; t.queue < |qs| && t.entry in qs[t.queue]
    decreases Total(qs)
  {
    if i > 0 {
      AfterIsSmaller(qs);
      MergedComesFrom(After(qs), i - 1);
      AfterIsPart(qs, Merged(After(qs))[i - 1]);
    }
  }

  lemma AfterIsPart(qs: seq<seq<Queued>>, t: Ticket)
    requires !Exhausted(qs) && t.queue < |qs|
    ensures t.entry in After(qs)[t.queue] ==> t.entry in qs[t.queue]
  {}

  lemma NextComesFirst(qs: seq<seq<Queued>>, t: Ticket)
    requires t.queue < |qs| && TimeSorted(qs[t.queue]) && t.entry in qs[t.queue]
    ensures !Exhausted(qs) && Before(Next(qs), t)
  {
  }

  /** If every queue is in time order, so is the merge, and entries of equal time come
      in the order of their queues. */
  lemma {:induction false} MergedSorted(qs: seq<seq<Queued>>, i: nat, j: nat)
    requires forall q :: 0 <= q < |qs| ==> TimeSorted(qs[q])
    requires i < j < |Merged(qs)|
    ensures Before(Merged(qs)[i], Merged(qs)[j])
    decreases Total(qs)
  {
    hide Before, TimeSorted, After, Next, Total, Best;
    if i > 0 {
      AfterSorted(qs);
      AfterIsSmaller(qs);
      MergedSorted(After(qs), i - 1, j - 1);
    } else {
      MergedComesFrom(qs, j);
      NextComesFirst(qs, Merged(qs)[j]);
    }
  }

  lemma AfterSorted(qs: seq<seq<Queued>>)
    requires !Exhausted(qs) && forall q :: 0 <= q < |qs| ==> TimeSorted(qs[q])
    ensures forall q :: 0 <= q < |qs| ==> TimeSorted(After(qs)[q])
  {}

  /** `ts` has exactly the entries of the queues, each queue in its order, sorted by
      time and then by queue. */
  ghost predicate Orders(qs: seq<seq<Queued>>, ts: seq<Ticket>) {
    && (forall q :: 0 <= q < |qs| ==> TimeSorted(qs[q]))
    && (forall i :: 0 <= i < |ts| ==> ts[i].queue < |qs|)
    && (forall q :: 0 <= q < |qs| ==> Of(ts, q) == qs[q])
    && (forall i, j :: 0 <= i < j < |ts| ==> Before(ts[i], ts[j]))
  }

  lemma FirstIsNext(qs: seq<seq<Queued>>, ts: seq<Ticket>)
    requires Orders(qs, ts) && ts != []
    ensures !Exhausted(qs) && ts[0] == Next(qs)
  {
    var t := ts[0];
    assert Of(ts, t.queue) == [t.entry] + Of(ts[1..], t.queue);
    assert t.entry in qs[t.queue];
    NextComesFirst(qs, t);
    var b := Next(qs);
    assert b.entry in Of(ts, b.queue) by {
      assert Of(ts, b.queue) == qs[b.queue];
    }
    OfHasPlace(ts, b.queue, b.entry);
    var i :| 0 <= i < |ts| && ts[i] == b;
    assert i == 0 || Before(t, b);
  }

  lemma OrdersRest(qs: seq<seq<Queued>>, ts: seq<Ticket>)
    requires Orders(qs, ts) && ts != [] && !Exhausted(qs) && ts[0] == Next(qs)
    ensures Orders(After(qs), ts[1..])
  {
  }

  /** The two properties leave no other order than the merge. */
  lemma {:induction false} MergedIsTheOnlyOne(qs: seq<seq<Queued>>, ts: seq<Ticket>)
    requires Orders(qs, ts)
    ensures ts == Merged(qs)
    decreases |ts|
  {
    hide Orders, After, Next, Total, Best, Of, Exhausted;
    if ts == [] {
      NothingLeft(qs);
    } else {
      FirstIsNext(qs, ts);
      OrdersRest(qs, ts);
      MergedIsTheOnlyOne(After(qs), ts[1..]);
      assert ts == [ts[0]] + ts[1..];
    }
  }

  lemma NothingLeft(qs: seq<seq<Queued>>)
    requires Orders(qs, [])
    ensures Merged(qs) == []
  {
  }

  lemma {:induction false} OfHasPlace(ts: seq<Ticket>, q: nat, e: Queued)
    requires e in Of(ts, q)
    ensures exists i :: 0 <= i < |ts| && ts[i] == Ticket(q, e)
  {
    if ts[0] != Ticket(q, e) {
      OfHasPlace(ts[1..], q, e);
      var i :| 0 <= i < |ts[1..]| && ts[1..][i] == Ticket(q, e);
      assert ts[i + 1] == Ticket(q, e);
    }
  }

  /** The queues from the iterators on. */
  function Remaining(qs: seq<seq<Queued>>, at: seq<nat>): seq<seq<Queued>>
    requires |at| == |qs| && forall q :: 0 <= q < |qs| ==> at[q] <= |qs[q]|
  {
    seq(|qs|, q requires 0 <= q < |qs| => qs[q][at[q]..])
  }

  /** One round of comparisons, in the fixed order of the queues. */
  method PickNext(qs: seq<seq<Queued>>, at: seq<nat>) returns (pick: nat, next: nat)
    requires |at| == |qs| && forall q :: 0 <= q < |qs| ==> at[q] <= |qs[q]|
    ensures (pick, next) == Best(Remaining(qs, at), |qs|)
  {
    pick, next := 0, NEVER;
    for q := 0 to |qs|
      invariant (pick, next) == Best(Remaining(qs, at), q)
    {
      if at[q] != |qs[q]| && qs[q][at[q]].time < next {
        pick := q;
        next := qs[q][at[q]].time;
      }
    }
  }

  lemma RemainingNext(qs: seq<seq<Queued>>, at: seq<nat>, pick: nat)
    requires |at| == |qs| && forall q :: 0 <= q < |qs| ==> at[q] <= |qs[q]|
    requires var rest := Remaining(qs, at);
             !Exhausted(rest) && Next(rest).queue == pick
    ensures at[pick] < |qs[pick]| && Next(Remaining(qs, at)) == Ticket(pick, qs[pick][at[pick]])
    ensures Remaining(qs, at[pick := at[pick] + 1]) == After(Remaining(qs, at))
  {}

  lemma MergedStep(qs: seq<seq<Queued>>)
    requires !Exhausted(qs)
    ensures Merged(qs) == [Next(qs)] + Merged(After(qs))
  {
    hide Next, After;
  }

  /** The loop over the iterators. */
  method MergeQueues(qs: seq<seq<Queued>>) returns (out: seq<Ticket>)
    ensures out == Merged(qs)
  {
    hide Total, After;
    out := [];
    var at := seq(|qs|, _ => 0);
    assert Remaining(qs, at) == qs;
    while true
      invariant |at| == |qs| && forall q :: 0 <= q < |qs| ==> at[q] <= |qs[q]|
      invariant out + Merged(Remaining(qs, at)) == Merged(qs)
      decreases Total(Remaining(qs, at))
    {
      ghost var rest := Remaining(qs, at);
      var pick, next := PickNext(qs, at);
      if next == NEVER {
        break;
      }
      assert !Exhausted(rest) && Next(rest).queue == pick;
      RemainingNext(qs, at, pick);
      AfterIsSmaller(rest);
      MergedStep(rest);
      hide Next, Best, Remaining, Merged, Exhausted;
      out := out + [Ticket(pick, qs[pick][at[pick]])];
      at := at[pick := at[pick] + 1];
    }
  }
}
