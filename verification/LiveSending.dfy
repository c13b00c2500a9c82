/** Sending as a value: what one round, and one call of the loop in `writable`, make of a
    sender, and that it gets on when the socket takes bytes. */
module LiveSending {
  import opened LiveFiles
  import opened Options
  import opened Words

  /** What one round of sending meets: a new reading of the "send paused data"
      setting, whether the file opens, and what `sendfile` answers. */
  datatype Turn = Turn(poll: Option<bool>, opens: bool, outcome: Outcome)

  datatype Outcome = Wrote(count: nat) | TryAgain | Broken

  /** The rounds an event has ahead of it; past the last one the socket is full. */
  function TurnAt(turns: seq<Turn>, i: nat): Turn {
    if i < |turns| then turns[i] else Turn(None, true, TryAgain)
  }

  datatype Round = Next | Idle | More | Dead

  /** The socket stays up and every file opens. */
  predicate Smooth(turns: seq<Turn>) {
    forall i :: 0 <= i < |turns| ==> !turns[i].outcome.Broken? && turns[i].opens
  }

  /** Pause data was wanted before these rounds, or one of them may read that it is. */
  predicate TurnsOn(wanted: bool, turns: seq<Turn>) {
    wanted || exists i :: 0 <= i < |turns| && turns[i].poll == Some(true)
  }

  /** No round reads that pause data is unwanted after it has been wanted. */
  predicate Steady(wanted: bool, turns: seq<Turn>) {
    forall i :: 0 <= i < |turns| && turns[i].poll == Some(false) ==> !TurnsOn(wanted, turns[..i])
  }

  /** The same over the rounds of many events. */
  predicate WantedAfter(wanted: bool, lists: seq<seq<Turn>>) {
    if lists == [] then wanted else TurnsOn(WantedAfter(wanted, lists[..|lists| - 1]), lists[|lists| - 1])
  }

  predicate SteadyAll(wanted: bool, lists: seq<seq<Turn>>) {
    lists == [] ||
    (SteadyAll(wanted, lists[..|lists| - 1])
     && Steady(WantedAfter(wanted, lists[..|lists| - 1]), lists[|lists| - 1]))
  }

  lemma {:induction false} SteadyAt(wanted: bool, lists: seq<seq<Turn>>, n: nat)
    requires SteadyAll(wanted, lists) && n < |lists|
    ensures Steady(WantedAfter(wanted, lists[..n]), lists[n])
    ensures WantedAfter(wanted, lists[..n + 1]) == TurnsOn(WantedAfter(wanted, lists[..n]), lists[n])
  {
    var last := |lists| - 1;
    assert lists[..n + 1][..n] == lists[..n];
    if n < last {
      assert lists[..last][..n] == lists[..n] && lists[..last][..n + 1] == lists[..n + 1];
      SteadyAt(wanted, lists[..last], n);
    }
  }

  lemma {:induction false} WantedStays(wanted: bool, lists: seq<seq<Turn>>, n: nat)
    requires n <= |lists| && WantedAfter(wanted, lists[..n])
    ensures WantedAfter(wanted, lists)
  {
    if n < |lists| {
      var last := |lists| - 1;
      assert lists[..last][..n] == lists[..n];
      WantedStays(wanted, lists[..last], n);
    } else {
      assert lists[..n] == lists;
    }
  }

  lemma {:induction false} SteadySplit(wanted: bool, a: seq<seq<Turn>>, b: seq<seq<Turn>>)
    requires SteadyAll(wanted, a + b)
    ensures SteadyAll(wanted, a) && SteadyAll(WantedAfter(wanted, a), b)
    ensures WantedAfter(wanted, a + b) == WantedAfter(WantedAfter(wanted, a), b)
  {
    hide Steady, TurnsOn;
    if b == [] {
      assert a + b == a;
    } else {
      assert (a + b)[..|a + b| - 1] == a + b[..|b| - 1];
      SteadySplit(wanted, a, b[..|b| - 1]);
    }
  }

  /** What `n` bytes read from an offset are: none past the end. */
  function ReadAt(content: seq<Byte>, offset: nat, n: nat): seq<Byte> {
    if offset + n <= |content| then content[offset..offset + n] else []
  }

  /** A client's settings. */
  datatype Mode = Mode(maxSendChunk: nat, sendPausedFlag: bool, noPausedFlag: bool)

  /** How much of a file one call sends: at most a chunk, what is left of the file,
      and what the socket takes. */
  function ChunkOf(max: nat, p: Pending, taken: nat, store: Store): nat
    requires Within(p, store)
  {
    var left := |store[p.file].content| - p.offset;
    var len := if left > max then max else left;
    if taken < len then taken else len
  }

  /** How much of it there is to read in the open file, which may be another one. */
  function ReadCountOf(max: nat, p: Pending, taken: nat, open: FileId, store: Store): nat
    requires Within(p, store) && open in store
  {
    var n, size := ChunkOf(max, p, taken, store), |store[open].content|;
    if p.offset + n <= size then n else if p.offset <= size then size - p.offset else 0
  }

  predicate Fit(s: Sender, store: Store) {
    AllWithin(s.files, store) && (s.fd.Some? ==> s.fd.value in store)
  }

  /** One `sendfile` through the open descriptor. */
  function Send(s: Sender, max: nat, count: nat, store: Store): (t: Sender)
    requires Fit(s, store) && s.files != [] && s.fd.Some?
    ensures Fit(t, store) && |t.files| == |s.files|
  {
    var front := s.files[0];
    assert Within(front, store);
    var n := ReadCountOf(max, front, count, s.fd.value, store);
    var files := [Pending(front.file, front.offset + n)] + s.files[1..];
    assert forall i :: 0 < i < |files| ==> files[i] == s.files[i];
    s.(files := files, sent := s.sent + ReadAt(store[s.fd.value].content, front.offset, n))
  }

  /** The front file after `sendfile` has answered. */
  function FrontStep(s: Sender, max: nat, outcome: Outcome, store: Store): (r: (Sender, Round))
    requires Fit(s, store) && s.files != [] && s.fd.Some?
    ensures Fit(r.0, store) && |r.0.files| == if r.1 == Next then |s.files| - 1 else |s.files|
  {
    match outcome
    case TryAgain => (s, More)
    case Broken => (s, Dead)
    case Wrote(count) =>
      var t := Send(s, max, count, store);
      var front := t.files[0];
      assert Within(front, store);
      assert |t.files| > 1 ==> Within(t.files[1], store);
      if front.offset != |store[front.file].content| then (t, More)
      else if store[front.file].active then (t, Idle)
      else (Drop(t.(fd := None), Finished, store), Next)
  }

  function Polled(mode: Mode, wanted: bool, turn: Turn): bool {
    if mode.sendPausedFlag then wanted else turn.poll.GetOr(wanted)
  }

  predicate Skips(s: Sender, mode: Mode, wanted: bool, store: Store)
    requires Fit(s, store) && s.files != []
  {
    assert Within(s.files[0], store);
    && !mode.sendPausedFlag && store[s.files[0].file].paused && s.files[0].offset == 0
    && (!wanted || mode.noPausedFlag)
  }

  /** One round: skip the front file, or open it and send. */
  function Step(s: Sender, mode: Mode, wanted: bool, turn: Turn, store: Store): (r: (Sender, Round))
    requires Fit(s, store) && s.files != []
    ensures Fit(r.0, store) && |r.0.files| == if r.1 == Next then |s.files| - 1 else |s.files|
  {
    assert Within(s.files[0], store) && (|s.files| > 1 ==> Within(s.files[1], store));
    if Skips(s, mode, wanted, store) then (Drop(s, Skipped, store), Next)
    else if s.fd.None? && !turn.opens then (s, Dead)
    else FrontStep(if s.fd.Some? then s else s.(fd := Some(s.files[0].file)), mode.maxSendChunk, turn.outcome, store)
  }

  /** The loop, from round `i` on: the sender, the pause-data setting, and how it ends. */
  function Pump(s: Sender, mode: Mode, wanted: bool, turns: seq<Turn>, i: nat, store: Store): (r: (Sender, bool, Round))
    requires Fit(s, store)
    ensures Fit(r.0, store) && r.2 != Next
    decreases |s.files|
  {
    if s.files == [] then (s, wanted, Idle)
    else
      var wanted' := Polled(mode, wanted, TurnAt(turns, i));
      var (t, round) := Step(s, mode, wanted', TurnAt(turns, i), store);
      if round == Next then Pump(t, mode, wanted', turns, i + 1, store) else (t, wanted', round)
  }

  lemma PumpNext(s: Sender, mode: Mode, wanted: bool, turns: seq<Turn>, i: nat, store: Store)
    requires Fit(s, store)
    ensures s.files == [] ==> Pump(s, mode, wanted, turns, i, store) == (s, wanted, Idle)
    ensures s.files != [] ==>
              var wanted' := Polled(mode, wanted, TurnAt(turns, i));
              var (t, round) := Step(s, mode, wanted', TurnAt(turns, i), store);
              Pump(s, mode, wanted, turns, i, store)
              == if round == Next then Pump(t, mode, wanted', turns, i + 1, store) else (t, wanted', round)
  {
    hide Step;
  }

  /** The end of a notification: nothing while waiting for room in the socket. */
  function Serve(s: Sender, waiting: bool, mode: Mode, wanted: bool, turns: seq<Turn>, store: Store):
      (r: (Sender, bool, Round))
    requires Fit(s, store)
    ensures Fit(r.0, store) && r.2 != Next
  {
    if waiting then (s, wanted, More) else Pump(s, mode, wanted, turns, 0, store)
  }

  /** Several files queued one after the other. */
  function QueueAll(s: Sender, ps: seq<Pending>, store: Store): Sender
    requires AllWithin(ps, store)
  {
    s.(files := s.files + ps, queued := s.queued + ps,
       updates := if s.files == [] && s.updates.None? && ps != [] then
                    assert Within(ps[0], store);
                    if store[ps[0].file].active then Some(ps[0].file) else None
                  else s.updates)
  }

  lemma QueueAllOn(s: Sender, a: seq<Pending>, b: seq<Pending>, store: Store)
    requires AllWithin(a, store) && AllWithin(b, store)
    ensures AllWithin(a + b, store) && QueueAll(QueueAll(s, a, store), b, store) == QueueAll(s, a + b, store)
    ensures QueueAll(s, [], store) == s
    ensures forall p :: b == [p] ==> Within(p, store) && QueueAll(s, b, store) == Queue(s, p, store)
  {
    if b != [] {
      assert Within(b[0], store);
    }
    assert s.files + [] == s.files && s.queued + [] == s.queued;
    assert s.files + a + b == s.files + (a + b) && s.queued + a + b == s.queued + (a + b);
  }

  lemma FitQueue(s: Sender, p: Pending, store: Store)
    requires Fit(s, store) && Within(p, store)
    ensures Fit(Queue(s, p, store), store)
  {
  }

  /** An ended front file is no longer subscribed to. */
  function Heard(s: Sender, store: Store): Sender
    requires s.updates.Some? ==> s.updates.value in store
  {
    if s.updates.Some? && !store[s.updates.value].active then s.(updates := None) else s
  }

  /** The files of a client's history, each queued and served in turn. */
  function Greets(s: Sender, waiting: bool, mode: Mode, wanted: bool, history: seq<Pending>, turns: seq<seq<Turn>>,
                  store: Store): (r: (Sender, bool, Round))
    requires Fit(s, store) && AllWithin(history, store)
    ensures Fit(r.0, store) && r.2 != Next
  {
    if history == [] then (s, wanted, if waiting then More else Idle)
    else
      var n := |history| - 1;
      assert Within(history[n], store) && AllWithin(history[..n], store);
      var (t, now, round) := Greets(s, waiting, mode, wanted, history[..n], turns, store);
      if round == Dead then (t, now, round)
      else
        FitQueue(t, history[n], store);
        Serve(Queue(t, history[n], store), round == More, mode, now, if n < |turns| then turns[n] else [], store)
  }

  lemma GreetsNone(s: Sender, waiting: bool, mode: Mode, wanted: bool, history: seq<Pending>, turns: seq<seq<Turn>>,
                   store: Store)
    requires Fit(s, store)
    ensures history[..0] == [] && AllWithin([], store)
    ensures Greets(s, waiting, mode, wanted, [], turns, store) == (s, wanted, if waiting then More else Idle)
  {
  }

  lemma GreetsNext(s: Sender, waiting: bool, mode: Mode, wanted: bool, history: seq<Pending>, n: nat,
                   turns: seq<seq<Turn>>, store: Store)
    requires Fit(s, store) && AllWithin(history, store) && n < |history|
    ensures AllWithin(history[..n], store) && AllWithin(history[..n + 1], store) && Within(history[n], store)
    ensures var (t, now, round) := Greets(s, waiting, mode, wanted, history[..n], turns, store);
            && Fit(Queue(t, history[n], store), store)
            && Greets(s, waiting, mode, wanted, history[..n + 1], turns, store)
               == if round == Dead then (t, now, round)
                  else Serve(Queue(t, history[n], store), round == More, mode, now,
                             if n < |turns| then turns[n] else [], store)
  {
    hide Serve;
    assert history[..n + 1][..n] == history[..n];
    assert Within(history[n], store);
    FitQueue(Greets(s, waiting, mode, wanted, history[..n], turns, store).0, history[n], store);
  }

  /** Once the connection is gone nothing more happens. */
  lemma {:induction false} GreetsEnds(s: Sender, waiting: bool, mode: Mode, wanted: bool, history: seq<Pending>, n: nat,
                                      turns: seq<seq<Turn>>, store: Store)
    requires Fit(s, store) && AllWithin(history, store) && n <= |history| && AllWithin(history[..n], store)
    requires Greets(s, waiting, mode, wanted, history[..n], turns, store).2 == Dead
    ensures Greets(s, waiting, mode, wanted, history, turns, store)
            == Greets(s, waiting, mode, wanted, history[..n], turns, store)
    decreases |history| - n
  {
    if n < |history| {
      GreetsNext(s, waiting, mode, wanted, history, n, turns, store);
      hide Greets, Serve;
      GreetsEnds(s, waiting, mode, wanted, history, n + 1, turns, store);
    } else {
      assert history[..n] == history;
    }
  }

  function Cut(lists: seq<seq<Turn>>, n: nat): seq<seq<Turn>> {
    if n <= |lists| then lists[..n] else lists
  }

  lemma NeverWanted(wanted: bool, lists: seq<seq<Turn>>)
    ensures WantedAfter(wanted, Cut(lists, 0)) == wanted
    ensures wanted ==> WantedAfter(wanted, lists)
  {
    if wanted {
      WantedStays(wanted, lists, 0);
    }
  }

  lemma TurnsOnMore(before: bool, wanted: bool, turns: seq<Turn>)
    requires before ==> wanted
    ensures TurnsOn(before, turns) ==> TurnsOn(wanted, turns)
  {
  }

  /** The rounds of one file of the history; past the last list there are none. */
  lemma TurnsOfHello(wanted: bool, lists: seq<seq<Turn>>, n: nat)
    ensures var ts := if n < |lists| then lists[n] else [];
            && WantedAfter(wanted, Cut(lists, n + 1)) == TurnsOn(WantedAfter(wanted, Cut(lists, n)), ts)
            && (SteadyAll(wanted, lists) ==> Steady(WantedAfter(wanted, Cut(lists, n)), ts))
            && (WantedAfter(wanted, Cut(lists, n + 1)) ==> WantedAfter(wanted, lists))
            && ((forall i :: 0 <= i < |lists| ==> Smooth(lists[i])) ==> Smooth(ts))
  {
    hide Steady;
    if n < |lists| {
      assert lists[..n + 1][..n] == lists[..n];
      if SteadyAll(wanted, lists) {
        SteadyAt(wanted, lists, n);
      }
      if WantedAfter(wanted, lists[..n + 1]) {
        WantedStays(wanted, lists, n + 1);
      }
    } else {
      NothingIsSteady(WantedAfter(wanted, lists));
      assert n == |lists| ==> lists[..n] == lists;
    }
  }

  lemma NothingIsSteady(wanted: bool)
    ensures Steady(wanted, []) && Smooth([]) && TurnsOn(wanted, []) == wanted
  {
  }

  // ---- What sending keeps ----

  /** An open pause file of which nothing has been sent is wanted. */
  predicate OpenWanted(s: Sender, mode: Mode, wanted: bool, store: Store)
    requires Fit(s, store)
  {
    s.files != [] ==>
      assert Within(s.files[0], store);
      s.fd.Some? && store[s.files[0].file].paused && s.files[0].offset == 0 && !mode.sendPausedFlag ==>
        wanted && !mode.noPausedFlag
  }

  /** The front file is open and yet to be skipped. */
  predicate SkipsOpen(s: Sender, mode: Mode, wanted: bool, store: Store)
    requires Fit(s, store)
  {
    s.files != [] && s.fd.Some? && Skips(s, mode, wanted, store)
  }

  lemma FrontStepKeeps(s: Sender, max: nat, outcome: Outcome, store: Store)
    requires Fit(s, store) && s.files != [] && s.fd.Some? && Faithful(s, store)
    ensures Faithful(FrontStep(s, max, outcome, store).0, store)
  {
    hide Faithful;
    DescriptorIsFront(s, store);
    if outcome.Wrote? {
      var t := Send(s, max, outcome.count, store);
      assert Within(s.files[0], store);
      WriteKeepsFaithful(s, ChunkOf(max, s.files[0], outcome.count, store), store);
      assert t == Write(s, ChunkOf(max, s.files[0], outcome.count, store), store);
      if t.files[0].offset == |store[t.files[0].file].content| && !store[t.files[0].file].active {
        FinishKeepsFaithful(t, store);
      }
    }
  }

  lemma StepKeeps(s: Sender, mode: Mode, wanted: bool, turn: Turn, store: Store)
    requires Fit(s, store) && s.files != []
    ensures var (t, round) := Step(s, mode, wanted, turn, store);
            && (Faithful(s, store) && !SkipsOpen(s, mode, wanted, store) ==> Faithful(t, store))
            && (!SkipsOpen(s, mode, wanted, store) && round == Next ==> t.fd.None?)
  {
    hide Faithful, FrontStep;
    FrontNext(if s.fd.Some? then s else s.(fd := Some(s.files[0].file)), mode.maxSendChunk, turn.outcome, store);
    if Faithful(s, store) {
      if Skips(s, mode, wanted, store) {
        if s.fd.None? {
          SkipKeepsFaithful(s, store);
        }
      } else if s.fd.Some? {
        FrontStepKeeps(s, mode.maxSendChunk, turn.outcome, store);
      } else {
        OpenKeepsFaithful(s, store);
        FrontStepKeeps(s.(fd := Some(s.files[0].file)), mode.maxSendChunk, turn.outcome, store);
      }
    }
  }

  /** A front file that stays keeps its place or moves on; one that goes is closed. */
  lemma FrontNext(s: Sender, max: nat, outcome: Outcome, store: Store)
    requires Fit(s, store) && s.files != [] && s.fd.Some?
    ensures var (t, round) := FrontStep(s, max, outcome, store);
            && (round == Next ==> t.fd.None?)
            && (round == Dead <==> outcome.Broken?)
            && (round != Next ==>
                  t.files != [] && t.files[0].file == s.files[0].file && t.files[0].offset >= s.files[0].offset)
  {
  }

  /** What a round leaves behind, besides the bytes. */
  lemma StepSays(s: Sender, mode: Mode, wanted: bool, turn: Turn, store: Store)
    requires Fit(s, store) && s.files != []
    ensures var (t, round) := Step(s, mode, wanted, turn, store);
            && t.gone == s.gone + (if round != Next then []
                                   else if Skips(s, mode, wanted, store) then [Skipped] else [Finished])
            && (Skips(s, mode, wanted, store) ==> round == Next)
            && (round == Dead <==>
                  !Skips(s, mode, wanted, store) && (turn.outcome.Broken? || (s.fd.None? && !turn.opens)))
            && (round == More ==> turn.outcome.TryAgain? || (t.files != [] && Unsent(t.files[0], store)))
            && (round == Idle ==> t.files != [] && Within(t.files[0], store) && store[t.files[0].file].active
                                  && !Unsent(t.files[0], store))
  {
  }

  predicate Unsent(p: Pending, store: Store) {
    p.file in store && p.offset < |store[p.file].content|
  }

  lemma StepWants(s: Sender, mode: Mode, wanted: bool, turn: Turn, store: Store)
    requires Fit(s, store) && s.files != []
    ensures var (t, round) := Step(s, mode, wanted, turn, store);
            && (!SkipsOpen(s, mode, wanted, store) && round != Dead ==> OpenWanted(t, mode, wanted, store))
            && (round == Dead ==> turn.outcome.Broken? || !turn.opens)
  {
    hide FrontStep;
    FrontNext(if s.fd.Some? then s else s.(fd := Some(s.files[0].file)), mode.maxSendChunk, turn.outcome, store);
  }

  /** A call keeps the account of bytes unless it skips an open file, and says what it
      has read of the setting. */
  lemma {:induction false} PumpKeeps(s: Sender, mode: Mode, wanted: bool, turns: seq<Turn>, i: nat, store: Store)
    requires Fit(s, store)
    ensures var (t, wanted', round) := Pump(s, mode, wanted, turns, i, store);
            var open := SkipsOpen(s, mode, Polled(mode, wanted, TurnAt(turns, i)), store);
            && (Faithful(s, store) && !open ==> Faithful(t, store))
            && (!open && round != Dead ==> OpenWanted(t, mode, wanted', store))
            && (wanted' ==> TurnsOn(wanted, turns))
            && (Smooth(turns) ==> round != Dead)
    decreases |s.files|
  {
    hide Step, Faithful, Skips;
    if s.files != [] {
      var turn := TurnAt(turns, i);
      var now := Polled(mode, wanted, turn);
      var (t, round) := Step(s, mode, now, turn, store);
      StepKeeps(s, mode, now, turn, store);
      StepWants(s, mode, now, turn, store);
      assert turn.poll == Some(true) ==> i < |turns| && turns[i].poll == Some(true);
      if round == Next {
        PumpKeeps(t, mode, now, turns, i + 1, store);
      }
    }
  }

  /** What the hello has read of the setting, and that a smooth socket survives it. */
  lemma {:induction false} GreetsWants(s: Sender, waiting: bool, mode: Mode, wanted: bool, history: seq<Pending>, n: nat,
                                       turns: seq<seq<Turn>>, store: Store)
    requires Fit(s, store) && AllWithin(history, store) && n <= |history|
    ensures AllWithin(history[..n], store)
    ensures var (_, now, round) := Greets(s, waiting, mode, wanted, history[..n], turns, store);
            && (now ==> WantedAfter(wanted, Cut(turns, n)) && WantedAfter(wanted, turns))
            && ((forall i :: 0 <= i < |turns| ==> Smooth(turns[i])) ==> round != Dead)
  {
    NeverWanted(wanted, turns);
    hide Smooth, TurnsOn, WantedAfter, Cut, Serve, SteadyAll, Steady;
    if n == 0 {
      GreetsNone(s, waiting, mode, wanted, history, turns, store);
    } else {
      GreetsWants(s, waiting, mode, wanted, history, n - 1, turns, store);
      GreetsNext(s, waiting, mode, wanted, history, n - 1, turns, store);
      TurnsOfHello(wanted, turns, n - 1);
      hide Greets, Queue, Fit;
      var (t, now, round) := Greets(s, waiting, mode, wanted, history[..n - 1], turns, store);
      if round != Dead {
        var ts := if n - 1 < |turns| then turns[n - 1] else [];
        ServeWants(Queue(t, history[n - 1], store), round == More, mode, now, WantedAfter(wanted, Cut(turns, n - 1)), ts,
                   store);
      } else if now {
        WantedMore(wanted, turns, n - 1);
      }
    }
  }

  lemma ServeWants(s: Sender, waiting: bool, mode: Mode, now: bool, wanted: bool, turns: seq<Turn>, store: Store)
    requires Fit(s, store) && (now ==> wanted)
    ensures var (_, now', round) := Serve(s, waiting, mode, now, turns, store);
            && (now' ==> TurnsOn(wanted, turns))
            && (Smooth(turns) ==> round != Dead)
  {
    hide Pump, Smooth;
    PumpKeeps(s, mode, now, turns, 0, store);
    TurnsOnMore(now, wanted, turns);
  }

  lemma WantedMore(wanted: bool, lists: seq<seq<Turn>>, n: nat)
    requires WantedAfter(wanted, Cut(lists, n))
    ensures WantedAfter(wanted, Cut(lists, n + 1)) && WantedAfter(wanted, lists)
  {
    TurnsOfHello(wanted, lists, n);
  }

  // ---- Getting on ----

  /** Bytes left to send, and files to be done with. */
  function Left(files: seq<Pending>, store: Store): nat
    requires AllWithin(files, store)
  {
    if files == [] then 0
    else
      assert Within(files[0], store);
      assert AllWithin(files[1..], store);
      |store[files[0].file].content| - files[0].offset + 1 + Left(files[1..], store)
  }

  /** The descriptor, when open, is that of the front file. */
  predicate Own(s: Sender) {
    s.fd.Some? ==> s.files != [] && s.fd.value == s.files[0].file
  }

  /** The first round finds its file and a socket that takes something. */
  predicate Pushes(turns: seq<Turn>) {
    turns != [] && turns[0].opens && turns[0].outcome.Wrote? && turns[0].outcome.count > 0
  }

  lemma SendLeaves(s: Sender, max: nat, count: nat, store: Store)
    requires Fit(s, store) && s.files != [] && s.fd.Some?
    ensures var t := Send(s, max, count, store);
            && Within(t.files[0], store) && Left(t.files, store) <= Left(s.files, store)
            && (Own(s) && max > 0 && count > 0 && t.files[0].offset != |store[t.files[0].file].content| ==>
                  Left(t.files, store) < Left(s.files, store))
  {
    var t := Send(s, max, count, store);
    assert Within(s.files[0], store) && Within(t.files[0], store);
    assert t.files[1..] == s.files[1..];
  }

  lemma StepLeaves(s: Sender, mode: Mode, wanted: bool, turn: Turn, store: Store)
    requires Fit(s, store) && s.files != []
    ensures var (t, round) := Step(s, mode, wanted, turn, store);
            && Left(t.files, store) <= Left(s.files, store)
            && (round == Next ==> Left(t.files, store) < Left(s.files, store))
            && (round == More && Own(s) && mode.maxSendChunk > 0 && turn.outcome.Wrote? && turn.outcome.count > 0 ==>
                  Left(t.files, store) < Left(s.files, store))
  {
    assert Within(s.files[0], store);
    var o := if s.fd.Some? then s else s.(fd := Some(s.files[0].file));
    if turn.outcome.Wrote? {
      SendLeaves(o, mode.maxSendChunk, turn.outcome.count, store);
    }
    hide Send;
  }

  lemma {:induction false} PumpLeaves(s: Sender, mode: Mode, wanted: bool, turns: seq<Turn>, i: nat, store: Store)
    requires Fit(s, store)
    ensures Left(Pump(s, mode, wanted, turns, i, store).0.files, store) <= Left(s.files, store)
    decreases |s.files|
  {
    if s.files != [] {
      hide Step, Left;
      var wanted' := Polled(mode, wanted, TurnAt(turns, i));
      var (t, round) := Step(s, mode, wanted', TurnAt(turns, i), store);
      StepLeaves(s, mode, wanted', TurnAt(turns, i), store);
      if round == Next {
        PumpLeaves(t, mode, wanted', turns, i + 1, store);
      }
    }
  }

  /** A call whose first round can send leaves less to send, or nothing to wait for. */
  lemma PumpGetsOn(s: Sender, mode: Mode, wanted: bool, turns: seq<Turn>, store: Store)
    requires Fit(s, store) && Own(s) && mode.maxSendChunk > 0 && Pushes(turns)
    ensures var (t, _, round) := Pump(s, mode, wanted, turns, 0, store);
            round == More ==> Left(t.files, store) < Left(s.files, store)
  {
    if s.files != [] {
      hide Step, Left;
      var wanted' := Polled(mode, wanted, turns[0]);
      var (t, round) := Step(s, mode, wanted', turns[0], store);
      StepLeaves(s, mode, wanted', turns[0], store);
      if round == Next {
        PumpLeaves(t, mode, wanted', turns, 1, store);
      }
    }
  }

  lemma {:induction false} LeftAppend(a: seq<Pending>, b: seq<Pending>, store: Store)
    requires AllWithin(a, store) && AllWithin(b, store)
    ensures AllWithin(a + b, store) && Left(a + b, store) == Left(a, store) + Left(b, store)
  {
    if a == [] {
      assert a + b == b;
    } else {
      assert Within(a[0], store) && AllWithin(a[1..], store);
      assert (a + b)[1..] == a[1..] + b;
      LeftAppend(a[1..], b, store);
    }
  }

  /** No more is left of the queue than of all that was ever queued. */
  lemma LeftOfQueue(s: Sender, store: Store)
    requires InOrder(s, store)
    ensures Left(s.files, store) <= Left(s.queued, store)
  {
    var n := |s.gone|;
    var rest := s.queued[n..];
    assert AllWithin(s.queued[..n], store) && AllWithin(rest, store);
    LeftAppend(s.queued[..n], rest, store);
    assert s.queued[..n] + rest == s.queued;
    if s.files != [] {
      assert s.files[1..] == rest[1..];
      assert Within(s.files[0], store) && Within(rest[0], store);
    }
  }

  lemma LeftOfFront(front: seq<Pending>, all: seq<Pending>, store: Store)
    requires front <= all && AllWithin(all, store)
    ensures AllWithin(front, store) && Left(front, store) <= Left(all, store)
  {
    var rest := all[|front|..];
    assert all == front + rest;
    assert forall i :: 0 <= i < |rest| ==> rest[i] == all[|front| + i];
    assert AllWithin(front, store) && AllWithin(rest, store);
    hide AllWithin, Left;
    LeftAppend(front, rest, store);
  }

  lemma OrderedIsOwn(s: Sender, store: Store)
    requires Faithful(s, store)
    ensures InOrder(s, store) && Own(s)
  {
  }
}
