/** Rate-limited logging: a pruned vector of marked call times in place of the full
    history of calls. */
module RateLimiter {
  import opened LogHistory

  type Key = (nat, string)

  /** The commentary put before a message that is logged while thrashing. */
  datatype Info = Info(reset: bool, thrashing: bool, occurrences: nat, unseen: nat)

  datatype Check = Check(v: seq<int>, log: bool, info: Info)

  function Abs(x: int): nat {
    if x < 0 then -x else x
  }

  function OldPrefix(v: seq<int>, now: int, window: nat): (aged: nat)
    ensures aged <= |v|
  {
    if v == [] || now - Abs(v[0]) <= window then 0 else 1 + OldPrefix(v[1..], now, window)
  }

  function Marked(v: seq<int>, aged: nat): seq<int>
    requires aged <= |v|
  {
    seq(aged, i requires 0 <= i < aged => if v[i] < 0 then -1 else 0) + v[aged..]
  }

  predicate IsMark(x: int) {
    x == 0 || x == -1
  }

  /** At most `most` marks taken off the front. */
  function Strip(v: seq<int>, most: nat): (r: seq<int>)
    ensures |r| <= |v|
  {
    if v == [] || !IsMark(v[0]) || most == 0 then v else Strip(v[1..], most - 1)
  }

  function StripChunks(v: seq<int>, aged: nat, rate: nat): (r: seq<int>)
    requires rate > 0
    ensures |r| <= |v|
    decreases aged
  {
    if aged < rate then v else StripChunks(Strip(v, rate), aged - rate, rate)
  }

  function TrailingNew(v: seq<int>): (n: nat)
    ensures n <= |v|
  {
    if v == [] || v[|v| - 1] < 0 then 0 else 1 + TrailingNew(v[..|v| - 1])
  }

  function LastLogged(v: seq<int>): seq<int>
    requires v != []
  {
    v[|v| - 1 := -v[|v| - 1]]
  }

  /** Among thrashing calls, every so many are logged. */
  predicate Due(size: nat, limit: Limit)
    requires limit.rate > 0
  {
    (size - limit.threshold) % limit.rate == 0
  }

  /** One check of a vector of call times, as a function of the clock. */
  function CheckVector(v: seq<int>, now: int, limit: Limit): Check
    requires limit.rate > 0
  {
    var size, aged := |v| + 1, OldPrefix(v + [now], now, limit.window);
    var marked := Marked(v + [now], aged);
    var reset := size >= limit.threshold && size - aged < limit.threshold;
    if size >= limit.threshold && !reset then
      if Due(size, limit) then
        Check(StripChunks(LastLogged(marked), aged, limit.rate), true, Info(reset, true, size - aged, TrailingNew(marked)))
      else
        Check(marked, false, Info(reset, false, 0, 0))
    else
      var rest := Strip(marked, |marked|);
      Check(if rest == [] then rest else LastLogged(rest), true, Info(reset, false, 0, 0))
  }

  // ---- The loops ----

  lemma OldPrefixStep(times: seq<int>, now: int, window: nat, k: nat)
    requires k <= |times|
    ensures OldPrefix(times[k..], now, window) ==
            if k == |times| || now - Abs(times[k]) <= window then 0 else 1 + OldPrefix(times[k + 1..], now, window)
  {
  }

  lemma MarkedStep(times: seq<int>, k: nat)
    requires k < |times|
    ensures |Marked(times, k)| == |times| && Marked(times, k)[k] == times[k]
    ensures Marked(times, k + 1) == Marked(times, k)[k := if times[k] < 0 then -1 else 0]
  {
  }

  lemma MarkedLength(v: seq<int>, aged: nat)
    requires aged <= |v|
    ensures |Marked(v, aged)| == |v|
    ensures aged < |v| ==> Marked(v, aged)[aged] == v[aged]
  {
  }

  method MarkOld(times: seq<int>, now: int, window: nat) returns (v: seq<int>, aged: nat)
    ensures aged == OldPrefix(times, now, window) && v == Marked(times, aged)
  {
    hide Abs, OldPrefix, Marked;
    v, aged := times, 0;
    assert times[0..] == times;
    NothingMarked(times);
    while aged < |v| && now - Abs(v[aged]) > window
      invariant aged <= |times|
      invariant v == Marked(times, aged) && |v| == |times| && (aged < |v| ==> v[aged] == times[aged])
      invariant OldPrefix(times, now, window) == aged + OldPrefix(times[aged..], now, window)
    {
      OldPrefixStep(times, now, window, aged);
      MarkedStep(times, aged);
      v := v[aged := if v[aged] < 0 then -1 else 0];
      aged := aged + 1;
      MarkedLength(times, aged);
    }
    OldPrefixStep(times, now, window, aged);
  }

  lemma NothingMarked(v: seq<int>)
    ensures Marked(v, 0) == v
  {
  }

  method CountNew(v: seq<int>) returns (unseen: nat)
    ensures unseen == TrailingNew(v)
  {
    var ri := |v| - 1;
    unseen := 0;
    assert v[..|v|] == v;
    while ri >= 0 && v[ri] >= 0
      invariant -1 <= ri < |v|
      invariant TrailingNew(v) == unseen + TrailingNew(v[..ri + 1])
    {
      assert v[..ri + 1][..ri] == v[..ri];
      unseen, ri := unseen + 1, ri - 1;
    }
  }

  method EraseChunks(times: seq<int>, count: nat, rate: nat) returns (v: seq<int>)
    requires rate > 0
    ensures v == StripChunks(times, count, rate)
  {
    v := times;
    var aged: nat := count;
    while aged >= rate
      invariant StripChunks(times, count, rate) == StripChunks(v, aged, rate)
    {
      ghost var chunk := v;
      var cnt := 0;
      while |v| > 0 && IsMark(v[0]) && cnt < rate
        invariant cnt <= rate && Strip(chunk, rate) == Strip(v, rate - cnt)
      {
        cnt := cnt + 1;
        v := v[1..];
      }
      aged := aged - rate;
    }
  }

  method EraseOld(times: seq<int>) returns (v: seq<int>)
    ensures v == Strip(times, |times|)
  {
    v := times;
    while |v| > 0 && IsMark(v[0])
      invariant Strip(times, |times|) == Strip(v, |v|)
    {
      v := v[1..];
    }
  }

  // ---- The vector against the full history ----

  /** The entry for one call, and whether it counts as aged. */
  lemma EntryAged(time: int, logged: bool, from: int, now: int, window: nat)
    requires time > 1 && from <= now - window
    ensures (now - Abs(Stored(time, logged, from)) > window) <==> time < now - window
    ensures (if Stored(time, logged, from) < 0 then -1 else 0) == (if logged then -1 else 0)
  {
  }

  lemma {:induction false} OldPrefixSplits(v: seq<int>, times: seq<int>, now: int, window: nat)
    requires |v| == |times|
    requires forall i :: 0 <= i < |v| ==> ((now - Abs(v[i]) > window) <==> times[i] < now - window)
    requires forall i, j :: 0 <= i <= j < |times| ==> times[i] <= times[j]
    ensures forall i :: 0 <= i < OldPrefix(v, now, window) ==> times[i] < now - window
    ensures forall i :: OldPrefix(v, now, window) <= i < |v| ==> times[i] >= now - window
  {
    if v == [] || now - Abs(v[0]) <= window {
      assert v != [] ==> times[0] >= now - window;
    } else {
      OldPrefixSplits(v[1..], times[1..], now, window);
      forall i | OldPrefix(v, now, window) <= i < |v| ensures times[i] >= now - window {
        assert times[i] == times[1..][i - 1];
      }
      forall i | 0 <= i < OldPrefix(v, now, window) ensures times[i] < now - window {
        assert i > 0 ==> times[i] == times[1..][i - 1];
      }
    }
  }

  /** What the vector holds once the new call is appended and the old ones marked. */
  ghost predicate AtHand(v: seq<int>, aged: nat, cs: seq<int>, limit: Limit)
    requires limit.rate > 0 && cs != []
  {
    var from := WindowStart(cs, limit);
    && aged < |v| <= |cs|
    && v == Kept(cs[..|cs| - 1], limit, from, |v| - 1) + [cs[|cs| - 1]]
    && (forall i :: 0 <= i < |cs| - |v| + aged ==> cs[i] < from)
    && (forall i :: |cs| - |v| + aged <= i < |cs| ==> cs[i] >= from)
  }

  lemma PrunesKept(v: seq<int>, calls: seq<int>, limit: Limit)
    requires limit.rate > 0 && Prunes(v, calls, limit) && v != []
    ensures calls != [] && |v| <= |calls| && v == Kept(calls, limit, WindowStart(calls, limit), |v|)
    ensures forall i :: 0 <= i < |calls| - |v| ==> calls[i] < WindowStart(calls, limit)
  {
  }

  lemma PrunesMissing(v: seq<int>, calls: seq<int>, limit: Limit)
    requires limit.rate > 0 && Prunes(v, calls, limit)
    ensures |v| <= |calls|
    ensures calls != [] ==> forall i :: 0 <= i < |calls| - |v| ==> calls[i] < WindowStart(calls, limit)
  {
  }

  lemma WindowMoves(calls: seq<int>, now: int, limit: Limit)
    requires calls != [] && Clock(calls + [now])
    ensures WindowStart(calls, limit) <= now - limit.window
  {
    var cs := calls + [now];
    assert cs[|calls| - 1] <= cs[|calls|];
  }

  /** A kept entry is found aged exactly when its call has left the window, and its
      mark says whether it was logged. */
  lemma KeptAged(v: seq<int>, calls: seq<int>, now: int, limit: Limit, i: nat)
    requires limit.rate > 0 && Prunes(v, calls, limit) && Clock(calls + [now]) && i < |v|
    ensures |v| <= |calls|
    ensures (now - Abs(v[i]) > limit.window) <==> TimeOf(calls, |v|, i) < now - limit.window
    ensures (if v[i] < 0 then -1 else 0) == if LoggedAt(calls, |v|, i, limit) then -1 else 0
    ensures TimeOf(calls, |v|, i) >= now - limit.window ==>
              v[i] == Stored(TimeOf(calls, |v|, i), LoggedAt(calls, |v|, i, limit), now - limit.window)
  {
    PrunesKept(v, calls, limit);
    hide Prunes, LoggedAt;
    WindowMoves(calls, now, limit);
    var time := TimeOf(calls, |v|, i);
    assert time == (calls + [now])[|calls| - |v| + i];
    EntryAged(time, LoggedAt(calls, |v|, i, limit), WindowStart(calls, limit), now, limit.window);
  }

  /** Exactly the kept calls that have left the window are found. */
  lemma Finding(v: seq<int>, calls: seq<int>, now: int, limit: Limit)
    requires limit.rate > 0 && Prunes(v, calls, limit) && Clock(calls + [now])
    ensures |v| <= |calls|
    ensures var aged := OldPrefix(v + [now], now, limit.window);
            && aged <= |v|
            && (forall i :: 0 <= i < |calls| - |v| + aged ==> calls[i] < now - limit.window)
            && (forall i :: |calls| - |v| + aged <= i < |calls| ==> calls[i] >= now - limit.window)
  {
    PrunesMissing(v, calls, limit);
    forall i | 0 <= i < |v| ensures (now - Abs(v[i]) > limit.window) <==> TimeOf(calls, |v|, i) < now - limit.window {
      KeptAged(v, calls, now, limit, i);
    }
    if calls != [] {
      WindowMoves(calls, now, limit);
    }
    hide Prunes;
    OldPrefixIsMissing(v, calls, now, limit);
    hide OldPrefix;
  }

  lemma OldPrefixIsMissing(v: seq<int>, calls: seq<int>, now: int, limit: Limit)
    requires Clock(calls + [now]) && |v| <= |calls|
    requires forall i :: 0 <= i < |v| ==>
               ((now - Abs(v[i]) > limit.window) <==> TimeOf(calls, |v|, i) < now - limit.window)
    ensures var aged := OldPrefix(v + [now], now, limit.window);
            && aged <= |v|
            && (forall i :: |calls| - |v| <= i < |calls| - |v| + aged ==> calls[i] < now - limit.window)
            && (forall i :: |calls| - |v| + aged <= i < |calls| ==> calls[i] >= now - limit.window)
  {
    hide OldPrefix, Abs;
    var times, off := v + [now], |calls| - |v|;
    var tail := calls[off..] + [now];
    AgedAsTail(v, calls, now, limit);
    TailSorted(calls, now, off);
    hide Clock, TimeOf;
    OldPrefixSplits(times, tail, now, limit.window);
    TailIsCalls(calls, now, off, OldPrefix(times, now, limit.window), now - limit.window);
  }

  lemma AgedAsTail(v: seq<int>, calls: seq<int>, now: int, limit: Limit)
    requires Clock(calls + [now]) && |v| <= |calls|
    requires forall i :: 0 <= i < |v| ==>
               ((now - Abs(v[i]) > limit.window) <==> TimeOf(calls, |v|, i) < now - limit.window)
    ensures var times, tail := v + [now], calls[|calls| - |v|..] + [now];
            forall i :: 0 <= i < |times| ==> ((now - Abs(times[i]) > limit.window) <==> tail[i] < now - limit.window)
  {
    var times, tail := v + [now], calls[|calls| - |v|..] + [now];
    AbsOfPositive(now, calls);
    hide Abs, Clock;
    forall i | 0 <= i < |times| ensures (now - Abs(times[i]) > limit.window) <==> tail[i] < now - limit.window {
      assert i < |v| ==> tail[i] == TimeOf(calls, |v|, i);
    }
  }

  lemma TailIsCalls(calls: seq<int>, now: int, off: nat, aged: nat, bound: int)
    requires off <= |calls| && aged <= |calls| - off + 1
    requires var tail := calls[off..] + [now];
             && (forall i :: 0 <= i < aged ==> tail[i] < bound)
             && (forall i :: aged <= i < |tail| ==> tail[i] >= bound)
    requires now >= bound
    ensures off + aged <= |calls|
    ensures forall i :: off <= i < off + aged ==> calls[i] < bound
    ensures forall i :: off + aged <= i < |calls| ==> calls[i] >= bound
  {
    var tail := calls[off..] + [now];
    assert tail[|calls| - off] == now;
    assert forall i :: off <= i < |calls| ==> calls[i] == tail[i - off];
  }

  lemma AbsOfPositive(now: int, calls: seq<int>)
    requires Clock(calls + [now])
    ensures Abs(now) == now
  {
    assert now == (calls + [now])[|calls|];
  }

  lemma TailSorted(calls: seq<int>, now: int, off: nat)
    requires Clock(calls + [now]) && off <= |calls|
    ensures var tail := calls[off..] + [now];
            forall i, j :: 0 <= i <= j < |tail| ==> tail[i] <= tail[j]
  {
    assert calls[off..] + [now] == (calls + [now])[off..];
  }

  lemma MarkedIsKept(v: seq<int>, calls: seq<int>, now: int, limit: Limit, aged: nat)
    requires limit.rate > 0 && Prunes(v, calls, limit) && Clock(calls + [now]) && aged <= |v| <= |calls|
    requires forall i :: 0 <= i < |calls| - |v| + aged ==> calls[i] < now - limit.window
    requires forall i :: |calls| - |v| + aged <= i < |calls| ==> calls[i] >= now - limit.window
    ensures Marked(v + [now], aged) == Kept(calls, limit, now - limit.window, |v|) + [now]
  {
    hide LoggedAt, Prunes, Clock;
    forall i | 0 <= i < |v| ensures Marked(v + [now], aged)[i] == Kept(calls, limit, now - limit.window, |v|)[i] {
      KeptAged(v, calls, now, limit, i);
    }
  }

  lemma Marking(v: seq<int>, calls: seq<int>, now: int, limit: Limit)
    requires limit.rate > 0 && Prunes(v, calls, limit) && Clock(calls + [now])
    ensures var aged := OldPrefix(v + [now], now, limit.window);
            AtHand(Marked(v + [now], aged), aged, calls + [now], limit)
  {
    Finding(v, calls, now, limit);
    var aged := OldPrefix(v + [now], now, limit.window);
    MarkedIsKept(v, calls, now, limit, aged);
    hide Kept, Prunes, OldPrefix, Clock;
    assert (calls + [now])[..|calls|] == calls;
  }

  // ---- The decision ----

  lemma StreakStep(calls: seq<int>, now: int, limit: Limit)
    ensures Streak(calls + [now], limit) ==
            if Thrashing(calls + [now], limit) then 1 + Streak(calls, limit) else 0
  {
  }

  lemma PrunesPhase(v: seq<int>, calls: seq<int>, limit: Limit)
    requires limit.rate > 0 && Prunes(v, calls, limit)
    ensures InPhase(|v|, Streak(calls, limit), Recent(calls, limit), limit)
    ensures Streak(calls, limit) == 0 && calls != [] ==> |v| < limit.threshold
    ensures calls == [] ==> v == []
  {
  }

  /** A call's place in its streak shows in the number of kept calls. */
  lemma PhaseStep(kept: nat, streak: nat, recent: nat, now: nat, first: bool, limit: Limit)
    requires limit.rate > 0 && InPhase(kept, streak, recent, limit)
    requires kept + 1 >= limit.threshold
    requires streak == 0 && !first ==> kept < limit.threshold
    requires first ==> streak == 0 && kept == 0
    ensures InPhase(kept + 1, streak + 1, now, limit)
    ensures (kept + 1 - limit.threshold) % limit.rate == 0 <==>
            (streak + 1 - if limit.threshold == 0 then 0 else 1) % limit.rate == 0
  {
    var place := streak + 1 - if limit.threshold == 0 then 0 else 1;
    var gap := kept + 1 - limit.threshold - place;
    assert gap % limit.rate == 0;
    SameRemainder(kept + 1 - limit.threshold, place, limit.rate);
  }

  /** Counting what the vector holds in the window decides exactly like counting
      the full history. */
  lemma Decides(v: seq<int>, calls: seq<int>, now: int, limit: Limit)
    requires limit.rate > 0 && Prunes(v, calls, limit) && Clock(calls + [now])
    ensures var cs, recent := calls + [now], |v| + 1 - OldPrefix(v + [now], now, limit.window);
            && Recent(cs, limit) == recent
            && (Thrashing(cs, limit) <==> recent >= limit.threshold)
  {
    Finding(v, calls, now, limit);
    hide Prunes, OldPrefix, Clock, CountSince, Recent, Thrashing;
    RecentIs(calls, now, limit, |calls| - |v| + OldPrefix(v + [now], now, limit.window));
  }

  lemma RecentIs(calls: seq<int>, now: int, limit: Limit, missing: nat)
    requires missing <= |calls|
    requires forall i :: 0 <= i < missing ==> calls[i] < now - limit.window
    requires forall i :: missing <= i < |calls| ==> calls[i] >= now - limit.window
    ensures Recent(calls + [now], limit) == |calls| + 1 - missing
    ensures Thrashing(calls + [now], limit) <==> |calls| + 1 - missing >= limit.threshold
  {
    CountSinceSorted(calls + [now], now - limit.window, missing);
    hide CountSince;
  }

  lemma DecidesPhase(v: seq<int>, calls: seq<int>, now: int, limit: Limit)
    requires limit.rate > 0 && Prunes(v, calls, limit)
    requires Thrashing(calls + [now], limit) && |v| + 1 >= limit.threshold
    ensures Logs(calls + [now], limit) <==> Due(|v| + 1, limit)
    ensures InPhase(|v| + 1, Streak(calls + [now], limit), Recent(calls + [now], limit), limit)
  {
    PrunesPhase(v, calls, limit);
    StreakStep(calls, now, limit);
    assert calls == [] ==> Streak(calls, limit) == 0;
    hide Prunes, Streak, InPhase, Thrashing, Recent;
    PhaseStep(|v|, Streak(calls, limit), Recent(calls, limit), Recent(calls + [now], limit), calls == [], limit);
  }

  // ---- Erasing ----

  lemma {:induction false} StripTakes(v: seq<int>, most: nat, marks: nat)
    requires marks <= |v| && forall i :: 0 <= i < marks ==> IsMark(v[i])
    ensures most <= marks ==> Strip(v, most) == v[most..]
    ensures most >= marks && marks < |v| && !IsMark(v[marks]) ==> Strip(v, most) == v[marks..]
  {
    if marks > 0 && most > 0 {
      StripTakes(v[1..], most - 1, marks - 1);
    }
  }

  /** Old entries are erased in whole chunks of `rate`. */
  lemma {:induction false} StripChunksTakes(v: seq<int>, aged: nat, rate: nat) returns (m: nat)
    requires rate > 0 && aged <= |v| && forall i :: 0 <= i < aged ==> IsMark(v[i])
    ensures m <= aged && m % rate == 0 && StripChunks(v, aged, rate) == v[m..]
    decreases aged
  {
    if aged < rate {
      m := 0;
      Remainder(0, rate, 0, 0);
    } else {
      StripTakes(v, rate, aged);
      hide Strip;
      var n := StripChunksTakes(v[rate..], aged - rate, rate);
      m := n + rate;
      SameRemainder(m, n, rate) by {
        Remainder(rate, rate, 1, 0);
      }
      assert v[rate..][n..] == v[m..];
    }
  }

  /** Entries of calls are negative exactly when they were logged. */
  lemma {:induction false} TrailingIsUnlogged(calls: seq<int>, limit: Limit, from: int, kept: nat)
    requires limit.rate > 0 && kept <= |calls| && forall i :: 0 <= i < |calls| ==> calls[i] > 1
    ensures TrailingNew(Kept(calls, limit, from, kept)) ==
            if Unlogged(calls, limit) < kept then Unlogged(calls, limit) else kept
  {
    if kept > 0 {
      var before := calls[..|calls| - 1];
      KeptLast(calls, limit, from, kept);
      hide Kept;
      if !Logs(calls, limit) {
        hide Logs;
        TrailingIsUnlogged(before, limit, from, kept - 1);
      }
    }
  }

  lemma KeptLast(calls: seq<int>, limit: Limit, from: int, kept: nat)
    requires limit.rate > 0 && 0 < kept <= |calls|
    ensures Kept(calls, limit, from, kept) ==
            Kept(calls[..|calls| - 1], limit, from, kept - 1) + [Stored(calls[|calls| - 1], Logs(calls, limit), from)]
  {
    hide Logs;
    var before := calls[..|calls| - 1];
    forall i | 0 <= i < kept - 1
      ensures TimeOf(calls, kept, i) == TimeOf(before, kept - 1, i)
              && LoggedAt(calls, kept, i, limit) == LoggedAt(before, kept - 1, i, limit)
    {
      assert calls[..|calls| - kept + i + 1] == before[..|before| - (kept - 1) + i + 1];
    }
    assert calls[..|calls|] == calls;
  }

  lemma KeptDrop(calls: seq<int>, limit: Limit, from: int, kept: nat, m: nat)
    requires limit.rate > 0 && m <= kept <= |calls|
    ensures Kept(calls, limit, from, kept)[m..] == Kept(calls, limit, from, kept - m)
  {
  }

  // ---- The whole check ----

  lemma AtHandValue(marked: seq<int>, aged: nat, cs: seq<int>, limit: Limit)
    requires limit.rate > 0 && cs != [] && AtHand(marked, aged, cs, limit)
    ensures aged < |marked| <= |cs|
    ensures marked == Kept(cs[..|cs| - 1], limit, WindowStart(cs, limit), |marked| - 1) + [cs[|cs| - 1]]
    ensures forall i :: 0 <= i < |cs| - |marked| + aged ==> cs[i] < WindowStart(cs, limit)
    ensures forall i :: |cs| - |marked| + aged <= i < |cs| ==> cs[i] >= WindowStart(cs, limit)
  {
  }

  lemma AtHandIsKept(marked: seq<int>, aged: nat, cs: seq<int>, limit: Limit)
    requires limit.rate > 0 && cs != [] && AtHand(marked, aged, cs, limit)
    ensures |marked| <= |cs|
    ensures (if Logs(cs, limit) then LastLogged(marked) else marked) == Kept(cs, limit, WindowStart(cs, limit), |marked|)
  {
    hide Kept, Logs, AtHand;
    AtHandValue(marked, aged, cs, limit);
    KeptLast(cs, limit, WindowStart(cs, limit), |marked|);
  }

  /** The aged entries are marks, and the first recent one is not. */
  lemma AtHandMarks(marked: seq<int>, aged: nat, cs: seq<int>, limit: Limit)
    requires limit.rate > 0 && cs != [] && AtHand(marked, aged, cs, limit)
    requires forall i :: 0 <= i < |cs| ==> cs[i] > 1
    ensures aged < |marked|
    ensures forall i :: 0 <= i < aged ==> IsMark(marked[i]) && IsMark(LastLogged(marked)[i])
    ensures !IsMark(marked[aged])
  {
  }

  /** Keeping all or dropping only aged entries keeps the end of the history. */
  lemma PrunesNext(marked: seq<int>, aged: nat, cs: seq<int>, limit: Limit, m: nat)
    requires limit.rate > 0 && cs != [] && AtHand(marked, aged, cs, limit) && m <= aged < |marked|
    requires InPhase(|marked| - m, Streak(cs, limit), Recent(cs, limit), limit)
    requires Unlogged(cs, limit) < |marked| - m
             || (Unlogged(cs, limit) == |marked| - m && |marked| - m == |cs|)
    ensures Prunes((if Logs(cs, limit) then LastLogged(marked) else marked)[m..], cs, limit)
  {
    hide Kept, InPhase, Unlogged, Logs, AtHand, Streak, Recent, LastLogged;
    AtHandValue(marked, aged, cs, limit);
    AtHandIsKept(marked, aged, cs, limit);
    KeptDrop(cs, limit, WindowStart(cs, limit), |marked|, m);
  }

  lemma UnloggedStep(calls: seq<int>, now: int, limit: Limit)
    requires limit.rate > 0
    ensures Unlogged(calls + [now], limit) == if Logs(calls + [now], limit) then 0 else 1 + Unlogged(calls, limit)
  {
  }

  lemma PrunesUnlogged(v: seq<int>, calls: seq<int>, limit: Limit)
    requires limit.rate > 0 && Prunes(v, calls, limit)
    ensures Unlogged(calls, limit) < |v| || (Unlogged(calls, limit) == |v| && |v| == |calls|)
  {
  }

  /** Calm: everything aged goes, and the call is logged. */
  lemma AfterCalm(marked: seq<int>, aged: nat, cs: seq<int>, limit: Limit)
    requires limit.rate > 0 && cs != [] && AtHand(marked, aged, cs, limit)
    requires forall i :: 0 <= i < |cs| ==> cs[i] > 1
    requires !Thrashing(cs, limit) && Recent(cs, limit) == |marked| - aged && Unlogged(cs, limit) == 0
    ensures var rest := Strip(marked, |marked|);
            rest != [] && Prunes(LastLogged(rest), cs, limit)
  {
    CalmIsLogged(cs, limit);
    hide Prunes, Logs, Thrashing, Recent, Unlogged, Streak, AtHand, IsMark, Strip, LastLogged;
    AtHandMarks(marked, aged, cs, limit);
    StripTakes(marked, |marked|, aged);
    PrunesNext(marked, aged, cs, limit, aged);
    LastLoggedDrop(marked, aged);
  }

  lemma LastLoggedDrop(v: seq<int>, m: nat)
    requires m < |v|
    ensures LastLogged(v)[m..] == LastLogged(v[m..]) && |LastLogged(v)| == |v|
  {
  }

  lemma CalmIsLogged(cs: seq<int>, limit: Limit)
    requires limit.rate > 0 && !Thrashing(cs, limit)
    ensures Logs(cs, limit) && Streak(cs, limit) == 0
  {
  }

  lemma PhaseKept(kept: nat, m: nat, streak: nat, recent: nat, limit: Limit)
    requires limit.rate > 0 && m <= kept && m % limit.rate == 0 && streak > 0
    requires InPhase(kept, streak, recent, limit)
    ensures InPhase(kept - m, streak, recent, limit)
  {
    var gap := kept - limit.threshold - (streak - if limit.threshold == 0 then 0 else 1);
    SameRemainder(gap, gap - m, limit.rate);
  }

  /** Thrashing and logged: aged entries go in whole chunks, so the phase stays. */
  lemma AfterLog(marked: seq<int>, aged: nat, cs: seq<int>, limit: Limit)
    requires limit.rate > 0 && cs != [] && AtHand(marked, aged, cs, limit)
    requires forall i :: 0 <= i < |cs| ==> cs[i] > 1
    requires Thrashing(cs, limit) && Logs(cs, limit) && Unlogged(cs, limit) == 0
    requires InPhase(|marked|, Streak(cs, limit), Recent(cs, limit), limit)
    ensures Prunes(StripChunks(LastLogged(marked), aged, limit.rate), cs, limit)
  {
    assert Streak(cs, limit) > 0;
    hide Prunes, Logs, Thrashing, Recent, Unlogged, Streak, AtHand, IsMark, Strip, StripChunks, LastLogged, InPhase;
    AtHandMarks(marked, aged, cs, limit);
    LastLoggedDrop(marked, 0);
    var m := StripChunksTakes(LastLogged(marked), aged, limit.rate);
    PhaseKept(|marked|, m, Streak(cs, limit), Recent(cs, limit), limit);
    PrunesNext(marked, aged, cs, limit, m);
  }

  /** Thrashing and not logged: everything is kept. */
  lemma AfterSkip(marked: seq<int>, aged: nat, cs: seq<int>, limit: Limit)
    requires limit.rate > 0 && cs != [] && AtHand(marked, aged, cs, limit)
    requires !Logs(cs, limit)
    requires Unlogged(cs, limit) < |marked| || (Unlogged(cs, limit) == |marked| && |marked| == |cs|)
    requires InPhase(|marked|, Streak(cs, limit), Recent(cs, limit), limit)
    ensures Prunes(marked, cs, limit)
  {
    hide Prunes, Logs, Recent, Unlogged, Streak, AtHand, InPhase;
    AtHandValue(marked, aged, cs, limit);
    PrunesNext(marked, aged, cs, limit, 0);
    assert marked[0..] == marked;
  }

  lemma TrailingAppend(v: seq<int>, now: int)
    requires now >= 0
    ensures TrailingNew(v + [now]) == 1 + TrailingNew(v)
  {
  }

  lemma AtHandAppended(marked: seq<int>, aged: nat, calls: seq<int>, now: int, limit: Limit)
    requires limit.rate > 0 && AtHand(marked, aged, calls + [now], limit)
    ensures 0 < |marked| <= |calls| + 1
    ensures marked == Kept(calls, limit, now - limit.window, |marked| - 1) + [now]
  {
  }

  /** The calls since the last logged one are all still at hand. */
  lemma AtHandNew(marked: seq<int>, aged: nat, calls: seq<int>, now: int, limit: Limit)
    requires limit.rate > 0 && AtHand(marked, aged, calls + [now], limit) && now > 1
    requires forall i :: 0 <= i < |calls| ==> calls[i] > 1
    requires Unlogged(calls, limit) < |marked|
    ensures TrailingNew(marked) == 1 + Unlogged(calls, limit)
  {
    hide AtHand, Kept, Unlogged, TrailingNew;
    AtHandAppended(marked, aged, calls, now, limit);
    var kept := Kept(calls, limit, now - limit.window, |marked| - 1);
    TrailingIsUnlogged(calls, limit, now - limit.window, |marked| - 1);
    TrailingAppend(kept, now);
  }

  lemma ClockPositive(calls: seq<int>, now: int)
    requires Clock(calls + [now])
    ensures now > 1 && (forall i :: 0 <= i < |calls| ==> calls[i] > 1)
    ensures forall i :: 0 <= i < |calls + [now]| ==> (calls + [now])[i] > 1
  {
    assert now == (calls + [now])[|calls|];
    assert forall i :: 0 <= i < |calls| ==> calls[i] == (calls + [now])[i];
  }

  /** The pruned vector decides every call exactly as the full history does, and
      goes on standing for it. What it says of the calls it let through or held back
      is right: how many fell in the window, and how many since the last one logged. */
  lemma CheckRefinesHistory(v: seq<int>, calls: seq<int>, now: int, limit: Limit)
    requires limit.rate > 0 && Prunes(v, calls, limit) && Clock(calls + [now])
    ensures var c, cs := CheckVector(v, now, limit), calls + [now];
            && c.log == Logs(cs, limit)
            && Prunes(c.v, cs, limit)
            && c.info.thrashing == (Thrashing(cs, limit) && c.log)
            && (c.info.thrashing ==> c.info.occurrences == Recent(cs, limit)
                                     && c.info.unseen == Unlogged(calls, limit) + 1)
            && (c.info.reset <==> |v| + 1 >= limit.threshold && !Thrashing(cs, limit))
  {
    var cs, aged := calls + [now], OldPrefix(v + [now], now, limit.window);
    var marked := Marked(v + [now], aged);
    ClockPositive(calls, now);
    hide Prunes, Clock, OldPrefix, Logs, Thrashing, Recent, Unlogged, Streak, AtHand, InPhase, TrailingNew,
         LastLogged, StripChunks, Strip, Due;
    Marking(v, calls, now, limit);
    Decides(v, calls, now, limit);
    UnloggedStep(calls, now, limit);
    PrunesUnlogged(v, calls, limit);
    if Thrashing(cs, limit) {
      DecidesPhase(v, calls, now, limit);
      AtHandNew(marked, aged, calls, now, limit);
      if Logs(cs, limit) {
        AfterLog(marked, aged, cs, limit);
      } else {
        AfterSkip(marked, aged, cs, limit);
      }
    } else {
      CalmIsLogged(cs, limit);
      AfterCalm(marked, aged, cs, limit);
    }
  }

  /** Before the clock's second second the vector cannot tell a logged call from an
      old one: four calls at time 1, and the last should be held back. */
  lemma FirstSecondMiscounts()
    ensures var limit := Limit(10, 3, 2);
            var v1 := CheckVector([], 1, limit).v;
            var v2 := CheckVector(v1, 1, limit).v;
            var v3 := CheckVector(v2, 1, limit).v;
            v3 == [-1] && CheckVector(v3, 1, limit).log && !Logs([1, 1, 1, 1], limit)
  {
    var limit := Limit(10, 3, 2);
    var calls := [1, 1, 1, 1];
    assert calls[..3] == [1, 1, 1] && [1, 1, 1][..2] == [1, 1] && [1, 1][..1] == [1] && [1][..0] == [];
    assert CountSince([1], -9) == 1 && CountSince([1, 1], -9) == 2 && CountSince([1, 1, 1], -9) == 3;
    assert Streak([1, 1], limit) == 0 && Streak([1, 1, 1], limit) == 1 && Streak(calls, limit) == 2;
    assert CheckVector([], 1, limit).v == [-1];
    assert [-1] + [1] == [-1, 1] && Marked([-1, 1], 0) == [-1, 1] && [-1, 1][1..] == [1];
    assert Strip([-1, 1], 2) == Strip([1], 1) == [1];
    assert CheckVector([-1], 1, limit).v == [-1];
  }

  // ---- The logging class ----

  /** One history for each kind of message. */
  class RateLimitedLogging {
    var history: map<Key, seq<int>>
    ghost var calls: map<Key, seq<int>>
    ghost var limits: map<Key, Limit>

    ghost predicate Valid()
      reads this
    {
      && history.Keys == calls.Keys == limits.Keys
      && forall k :: k in history ==>
           limits[k].rate > 0 && Clock(calls[k]) && Prunes(history[k], calls[k], limits[k])
    }

    constructor ()
      ensures Valid() && history == map[] && calls == map[]
    {
      history, calls, limits := map[], map[], map[];
    }

    ghost function Calls(key: Key): seq<int>
      reads this
    {
      if key in calls then calls[key] else []
    }

    ghost function Vector(key: Key): seq<int>
      reads this
    {
      if key in history then history[key] else []
    }

    /** Whether this message may be logged now. A reset is announced when so many calls
        are still on record as make thrashing, and too few of them are recent. */
    method CheckLog(key: Key, limit: Limit, now: int) returns (log: bool, info: Info)
      requires Valid() && limit.rate > 0
      requires key in limits ==> limits[key] == limit
      requires Clock(Calls(key) + [now])
      modifies this
      ensures Valid() && calls == old(calls)[key := old(Calls(key)) + [now]]
      ensures limits == old(limits)[key := limit]
      ensures log == Logs(calls[key], limit)
      ensures info.thrashing == (log && Thrashing(calls[key], limit))
      ensures info.thrashing ==> info.occurrences == Recent(calls[key], limit)
                                 && info.unseen == Unlogged(old(Calls(key)), limit) + 1
      ensures info.reset <==> |old(Vector(key))| + 1 >= limit.threshold && !Thrashing(calls[key], limit)
    {
      hide Clock, Prunes, Logs, Thrashing, Recent, Unlogged, CheckVector;
      var v := if key in history then history[key] else [];
      ghost var before := Calls(key);
      EmptyPrunes(limit);
      CheckRefinesHistory(v, before, now, limit);
      var check := RunCheck(v, now, limit);
      log, info := check.log, check.info;
      calls, limits := calls[key := before + [now]], limits[key := limit];
      history := history[key := check.v];
    }
  }

  lemma EmptyPrunes(limit: Limit)
    requires limit.rate > 0
    ensures Prunes([], [], limit)
  {
  }

  method RunCheck(times: seq<int>, now: int, limit: Limit) returns (check: Check)
    requires limit.rate > 0
    ensures check == CheckVector(times, now, limit)
  {
    hide OldPrefix, Marked, Strip, StripChunks, TrailingNew;
    var v := times + [now];
    var aged: nat;
    v, aged := MarkOld(v, now, limit.window);
    MarkedLength(times + [now], aged);
    var reset := |v| >= limit.threshold && |v| - aged < limit.threshold;
    if |v| >= limit.threshold && !reset {
      if (|v| - limit.threshold) % limit.rate == 0 {
        var unseen := CountNew(v);
        var info := Info(reset, true, |v| - aged, unseen);
        v := v[|v| - 1 := -v[|v| - 1]];
        v := EraseChunks(v, aged, limit.rate);
        check := Check(v, true, info);
      } else {
        check := Check(v, false, Info(reset, false, 0, 0));
      }
    } else {
      v := EraseOld(v);
      if v != [] {
        v := v[|v| - 1 := -v[|v| - 1]];
      }
      check := Check(v, true, Info(reset, false, 0, 0));
    }
  }
}
