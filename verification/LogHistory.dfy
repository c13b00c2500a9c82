/** What a rate-limited log is meant to do, told from the full history of its calls,
    and what is kept of that history. */
module LogHistory {
  /** `threshold` calls or more in `window` seconds are thrashing; then only every
      `rate`-th call is logged. */
  datatype Limit = Limit(window: nat, threshold: nat, rate: nat)

  /** Call times, oldest first, from a clock past its first second. */
  ghost predicate Clock(calls: seq<int>) {
    && (forall i :: 0 <= i < |calls| ==> calls[i] > 1)
    && (forall i, j :: 0 <= i <= j < |calls| ==> calls[i] <= calls[j])
  }

  function CountSince(calls: seq<int>, from: int): nat {
    if calls == [] then 0
    else CountSince(calls[..|calls| - 1], from) + if calls[|calls| - 1] >= from then 1 else 0
  }

  function WindowStart(calls: seq<int>, limit: Limit): int
    requires calls != []
  {
    calls[|calls| - 1] - limit.window
  }

  /** How many calls fall in the window that ends with the last call. */
  function Recent(calls: seq<int>, limit: Limit): nat {
    if calls == [] then 0 else CountSince(calls, WindowStart(calls, limit))
  }

  predicate Thrashing(calls: seq<int>, limit: Limit) {
    calls != [] && Recent(calls, limit) >= limit.threshold
  }

  /** How many calls in a row, up to the last one, came while thrashing. */
  function Streak(calls: seq<int>, limit: Limit): nat {
    if Thrashing(calls, limit) then 1 + Streak(calls[..|calls| - 1], limit) else 0
  }

  /** Whether the last call is logged: always when calm, and the first and then every
      `rate`-th call of a thrashing streak. (With a threshold of 0 the streak is never
      interrupted and starts one later.) */
  predicate Logs(calls: seq<int>, limit: Limit)
    requires limit.rate > 0
  {
    Thrashing(calls, limit) ==>
      (Streak(calls, limit) - if limit.threshold == 0 then 0 else 1) % limit.rate == 0
  }

  /** How many calls up to the last one were not logged since one was. */
  function Unlogged(calls: seq<int>, limit: Limit): nat
    requires limit.rate > 0
  {
    if calls == [] || Logs(calls, limit) then 0 else 1 + Unlogged(calls[..|calls| - 1], limit)
  }

  // ---- What is kept ----

  /** A kept call: its time, negated when it was logged; only the logged mark stays
      when it has left the window. */
  function Stored(time: int, logged: bool, from: int): int {
    if time < from then (if logged then -1 else 0)
    else if logged then -time else time
  }

  /** The time and the fate of the `i`-th of the last `kept` calls. */
  function TimeOf(calls: seq<int>, kept: nat, i: nat): int
    requires i < kept <= |calls|
  {
    calls[|calls| - kept + i]
  }

  predicate LoggedAt(calls: seq<int>, kept: nat, i: nat, limit: Limit)
    requires limit.rate > 0 && i < kept <= |calls|
  {
    Logs(calls[..|calls| - kept + i + 1], limit)
  }

  /** The last `kept` calls. */
  function Kept(calls: seq<int>, limit: Limit, from: int, kept: nat): (r: seq<int>)
    requires limit.rate > 0 && kept <= |calls|
    ensures |r| == kept
  {
    seq(kept, i requires 0 <= i < kept =>
      Stored(TimeOf(calls, kept, i), LoggedAt(calls, kept, i, limit), from))
  }

  /** The number of kept calls tells the place in a thrashing streak. */
  predicate InPhase(kept: nat, streak: nat, recent: nat, limit: Limit)
    requires limit.rate > 0
  {
    if streak == 0 then kept == recent
    else (kept - limit.threshold - (streak - if limit.threshold == 0 then 0 else 1)) % limit.rate == 0
  }

  /** The vector is the end of the full history: what is missing has left the window
      and is older than the last logged call. */
  ghost predicate Prunes(v: seq<int>, calls: seq<int>, limit: Limit)
    requires limit.rate > 0
  {
    if calls == [] then v == []
    else
      && |v| <= |calls|
      && v == Kept(calls, limit, WindowStart(calls, limit), |v|)
      && (forall i :: 0 <= i < |calls| - |v| ==> calls[i] < WindowStart(calls, limit))
      && InPhase(|v|, Streak(calls, limit), Recent(calls, limit), limit)
      && (Unlogged(calls, limit) < |v| || (Unlogged(calls, limit) == |v| && |v| == |calls|))
  }

  lemma SameRemainder(a: int, b: int, rate: nat)
    requires rate > 0 && (a - b) % rate == 0
    ensures a % rate == b % rate
  {
    var q := (a - b) / rate;
    assert (q + b / rate) * rate == q * rate + b / rate * rate;
    Remainder(a, rate, q + b / rate, b % rate);
  }

  lemma Remainder(x: int, rate: nat, q: int, rest: int)
    requires rate > 0 && x == q * rate + rest && 0 <= rest < rate
    ensures x % rate == rest
  {
    var d := x / rate - q;
    assert d * rate == x / rate * rate - q * rate;
    assert d * rate == rest - x % rate;
    SmallMultiple(d, rate);
  }

  lemma SmallMultiple(d: int, rate: int)
    requires rate > 0 && -rate < d * rate < rate
    ensures d == 0
  {
  }

  /** The calls in the window are the last ones. */
  lemma {:induction false} CountSinceSorted(calls: seq<int>, from: int, aged: nat)
    requires aged <= |calls|
    requires forall i :: 0 <= i < aged ==> calls[i] < from
    requires forall i :: aged <= i < |calls| ==> calls[i] >= from
    ensures CountSince(calls, from) == |calls| - aged
  {
    if calls != [] {
      var n := |calls| - 1;
      CountSinceSorted(calls[..n], from, if aged <= n then aged else n);
    }
  }

  lemma {:induction false} UnloggedIsPlace(calls: seq<int>, limit: Limit)
    requires limit.rate > 0
    ensures Unlogged(calls, limit) ==
            if Streak(calls, limit) == 0 then 0
            else (Streak(calls, limit) - if limit.threshold == 0 then 0 else 1) % limit.rate
    ensures limit.threshold == 0 ==> Streak(calls, limit) == |calls|
  {
    if calls != [] {
      var before := calls[..|calls| - 1];
      UnloggedIsPlace(before, limit);
      if Thrashing(calls, limit) {
        hide Thrashing;
        var place := Streak(calls, limit) - if limit.threshold == 0 then 0 else 1;
        NextRemainder(place, limit.rate);
      }
    }
  }

  lemma NextRemainder(place: int, rate: nat)
    requires rate > 0
    ensures place % rate == if (place - 1) % rate == rate - 1 then 0 else (place - 1) % rate + 1
  {
    var q, rest := (place - 1) / rate, (place - 1) % rate;
    if rest == rate - 1 {
      Remainder(place, rate, q + 1, 0);
    } else {
      Remainder(place, rate, q, rest + 1);
    }
  }

  /** However hard a message thrashes, of `rate` calls in a row one is logged. */
  lemma NeverSilentForLong(calls: seq<int>, limit: Limit)
    requires limit.rate > 0
    ensures Unlogged(calls, limit) < limit.rate
  {
    UnloggedIsPlace(calls, limit);
  }
}
