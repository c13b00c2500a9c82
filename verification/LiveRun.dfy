/** Whole runs of a live client against a storage that opens, fills and closes
    containers in any order. */
module LiveRun {
  import opened LiveClientModel
  import opened LiveFiles
  import opened LiveSending
  import opened LiveWorld
  import opened Options
  import opened Words

  /** What can happen after the hello: a container starts or closes, a file is added
      to an open container, an active file grows or ends, the socket has room. */
  datatype Step =
    | Started(name: Name)
    | Closed(name: Name)
    | Added(name: Name, id: FileId, file: StoredFile)
    | Grown(id: FileId, bytes: seq<Byte>)
    | Ended(id: FileId)
    | Ready

  datatype Event = Event(step: Step, turns: seq<Turn>)

  /** A container is announced once and before its first file, and file names are
      never reused. */
  predicate Possible(step: Step, w: World, store: Store) {
    match step
    case Started(c) => c !in w.started
    case Closed(c) => c in w.open
    case Added(c, f, _) => c in w.open && c in w.added && f !in store
    case Grown(f, _) => f in store && store[f].active
    case Ended(f) => f in store && store[f].active
    case Ready => true
  }

  function WorldAfter(w: World, step: Step, store: Store): World
    requires Possible(step, w, store)
  {
    match step
    case Started(c) => Start(w, c)
    case Closed(c) => Close(w, c)
    case Added(c, f, _) => AddFile(w, c, f)
    case _ => w
  }

  function StoreAfter(w: World, step: Step, store: Store): Store
    requires Possible(step, w, store)
  {
    match step
    case Added(_, f, file) => store[f := file]
    case Grown(f, bytes) => store[f := store[f].(content := store[f].content + bytes)]
    case Ended(f) => store[f := store[f].(active := false)]
    case _ => store
  }

  predicate AllPossible(events: seq<Event>, w: World, store: Store) {
    events == [] ||
    (&& Possible(events[0].step, w, store)
     && AllPossible(events[1..], WorldAfter(w, events[0].step, store), StoreAfter(w, events[0].step, store)))
  }

  /** Storage after the first `n` events. */
  function After(events: seq<Event>, n: nat, w: World, store: Store): (World, Store)
    requires n <= |events| && AllPossible(events, w, store)
    decreases n
  {
    if n == 0 then (w, store)
    else After(events[1..], n - 1, WorldAfter(w, events[0].step, store), StoreAfter(w, events[0].step, store))
  }

  lemma {:induction false} AfterStep(events: seq<Event>, n: nat, w: World, store: Store)
    requires n < |events| && AllPossible(events, w, store)
    ensures var (w1, store1) := After(events, n, w, store);
            && Possible(events[n].step, w1, store1)
            && After(events, n + 1, w, store)
               == (WorldAfter(w1, events[n].step, store1), StoreAfter(w1, events[n].step, store1))
    decreases n
  {
    hide Possible, WorldAfter, StoreAfter;
    if n > 0 {
      AfterStep(events[1..], n - 1, WorldAfter(w, events[0].step, store), StoreAfter(w, events[0].step, store));
    }
  }

  lemma StepExtends(w: World, step: Step, store: Store)
    requires Valid(w) && Listed(w, store) && Possible(step, w, store)
    ensures Extends(StoreAfter(w, step, store), store)
    ensures Valid(WorldAfter(w, step, store))
    ensures Listed(WorldAfter(w, step, store), StoreAfter(w, step, store))
  {
  }

  /** Each file has one place in storage's account. */
  ghost predicate Single(w: World, store: Store) {
    NoRepeats(w) && HistoryStored(w, store)
  }

  lemma StepKeepsSingle(w: World, step: Step, store: Store)
    requires Valid(w) && Listed(w, store) && Single(w, store) && Possible(step, w, store)
    ensures Single(WorldAfter(w, step, store), StoreAfter(w, step, store))
  {
    if step.Added? {
      hide NoRepeats;
      NewFileKeepsNoRepeats(w, store, step.name, step.id);
    }
  }

  // ---- When an event throws ----

  /** Said of storage alone: the event closes a container and that strands the client. */
  ghost predicate Throws(step: Step, w: World) {
    step.Closed? && Strands(w, step.name)
  }

  /** No container is closed before its first file. */
  ghost predicate FilledFirst(events: seq<Event>, w: World, store: Store)
    requires AllPossible(events, w, store)
  {
    forall n :: 0 <= n < |events| && events[n].step.Closed? ==> HasFile(After(events, n, w, store).0, events[n].step.name)
  }

  predicate HasFile(w: World, c: Name) {
    c in w.added && w.added[c] != []
  }

  lemma {:induction false} FilledNeverThrows(events: seq<Event>, n: nat, w: World, store: Store)
    requires AllPossible(events, w, store) && FilledFirst(events, w, store) && n <= |events|
    requires Valid(w) && Listed(w, store) && NoneEmpty(w)
    ensures var (w1, store1) := After(events, n, w, store);
            Valid(w1) && Listed(w1, store1) && NoneEmpty(w1) && (n < |events| ==> !Throws(events[n].step, w1))
  {
    if n > 0 {
      FilledNeverThrows(events, n - 1, w, store);
      AfterStep(events, n - 1, w, store);
      var (w1, store1) := After(events, n - 1, w, store);
      StepExtends(w1, events[n - 1].step, store1);
      FilledStep(w1, events[n - 1].step, store1);
    }
    hide After, AllPossible, FilledFirst, Valid, NoneEmpty, Strands;
    var (w2, _) := After(events, n, w, store);
    if n < |events| && events[n].step.Closed? {
      NoneEmptyNeverStrands(w2, events[n].step.name);
    }
  }

  lemma FilledStep(w: World, step: Step, store: Store)
    requires Valid(w) && NoneEmpty(w) && Possible(step, w, store) && (step.Closed? ==> HasFile(w, step.name))
    ensures NoneEmpty(WorldAfter(w, step, store))
  {
  }

  /** Of the first `done` events the last one throws, if any does. */
  ghost predicate ThrowsLast(events: seq<Event>, done: nat, threw: bool, w: World, store: Store)
    requires done <= |events| && AllPossible(events, w, store)
  {
    && (threw <==> done > 0 && Throws(events[done - 1].step, After(events, done - 1, w, store).0))
    && forall n :: 0 <= n < done - 1 ==> !Throws(events[n].step, After(events, n, w, store).0)
  }

  lemma ThrowsNone(events: seq<Event>, w: World, store: Store)
    requires AllPossible(events, w, store)
    ensures ThrowsLast(events, 0, false, w, store)
  {
  }

  lemma ThrowsNext(events: seq<Event>, done: nat, threw: bool, w: World, store: Store)
    requires done < |events| && AllPossible(events, w, store) && ThrowsLast(events, done, false, w, store)
    requires threw <==> Throws(events[done].step, After(events, done, w, store).0)
    ensures ThrowsLast(events, done + 1, threw, w, store)
  {
    hide After, Throws, AllPossible;
  }

  lemma FilledThrowsNone(events: seq<Event>, done: nat, threw: bool, w: World, store: Store)
    requires done <= |events| && AllPossible(events, w, store) && ThrowsLast(events, done, threw, w, store)
    requires FilledFirst(events, w, store) && Valid(w) && Listed(w, store) && NoneEmpty(w)
    ensures !threw
  {
    hide After, Throws, AllPossible, FilledFirst, NoneEmpty, Valid, Listed;
    if done > 0 {
      FilledNeverThrows(events, done - 1, w, store);
    }
  }

  // ---- One event ----

  /** A client that stands right: its list, its subscriptions and its queue follow
      storage, and it only pauses with nothing left to send. */
  ghost predicate Standing(client: LiveClient, w: World, store: Store)
    reads client
  {
    && Valid(w) && Listed(w, store) && Single(w, store)
    && client.alive
    && client.Bounded(store)
    && Follows(client.conts, client.container, client.queued, w)
    && (!client.waiting ==> client.CaughtUp(store))
  }

  /** Storage moves on before the client is told. */
  lemma StorageMoves(client: LiveClient, w: World, step: Step, store: Store)
    requires Standing(client, w, store) && Possible(step, w, store)
    ensures client.Bounded(StoreAfter(w, step, store))
    ensures Faithful(client.Out(), store) ==> Faithful(client.Out(), StoreAfter(w, step, store))
    ensures client.OpenIsWanted(store) ==> client.OpenIsWanted(StoreAfter(w, step, store))
    ensures client.CaughtUp(store) && !(step.Grown? || step.Ended?) ==> client.CaughtUp(StoreAfter(w, step, store))
    ensures client.CaughtUp(store) && (step.Grown? || step.Ended?) && client.updates != Some(step.id)
            ==> client.CaughtUp(StoreAfter(w, step, store))
  {
    hide Faithful, Follows, Reached, Single;
    var later := StoreAfter(w, step, store);
    StepExtends(w, step, store);
    WithinLater(client.files, store, later);
    if client.files != [] {
      FrontWithin(client.files, store);
    }
    if Faithful(client.Out(), store) {
      StorageKeepsFaithful(client.Out(), store, later);
    }
  }

  /** One event: storage changes, and tells the client what it listens to. `stale` says
      that the client met an open pause file which it is to skip. */
  method Handle(client: LiveClient, event: Event, w: World, store: Store) returns (threw: bool, stale: bool)
    requires Standing(client, w, store) && Possible(event.step, w, store)
    modifies client
    ensures !threw && client.alive ==>
              Standing(client, WorldAfter(w, event.step, store), StoreAfter(w, event.step, store))
    ensures threw <==> Throws(event.step, w)
    // A ready socket is written to; what the client is told of, it queues and goes on with.
    ensures event.step.Ready? ==>
              && Fit(old(client.Out()), store)
              && if old(client.waiting)
                 then client.StandsAt(Pump(old(client.Out()), client.Settings(), old(client.sendPausedData), event.turns,
                                           0, store))
                 else client.Out() == old(client.Out()) && client.alive && !client.waiting
    ensures event.step.Added? && old(client.container) == Some(event.step.name) ==>
              var later := StoreAfter(w, event.step, store);
              var queued := Queue(old(client.Out()), Pending(event.step.id, 0), later);
              && Fit(queued, later)
              && client.StandsAt(Serve(queued, old(client.waiting), client.Settings(), old(client.sendPausedData),
                                       event.turns, later))
    ensures (event.step.Grown? || event.step.Ended?) && old(client.updates) == Some(event.step.id) ==>
              var later := StoreAfter(w, event.step, store);
              && Fit(old(client.Out()), later)
              && client.StandsAt(Serve(Heard(old(client.Out()), later), old(client.waiting), client.Settings(),
                                       old(client.sendPausedData), event.turns, later))
    ensures stale <==> old(client.Bounded(StoreAfter(w, event.step, store))
                           && client.SkipsOpenFile(event.turns, StoreAfter(w, event.step, store)))
    ensures old(client.OpenIsWanted(store))
            && (client.sendPausedFlag || client.noPausedFlag || Steady(old(client.sendPausedData), event.turns))
            ==> !stale
    ensures Faithful(old(client.Out()), store) && !stale ==> Faithful(client.Out(), StoreAfter(w, event.step, store))
    ensures Faithful(old(client.Out()), store) && !stale && old(client.OpenIsWanted(store)) && client.alive
            ==> client.Bounded(StoreAfter(w, event.step, store)) && client.OpenIsWanted(StoreAfter(w, event.step, store))
    ensures client.sendPausedData ==> TurnsOn(old(client.sendPausedData), event.turns)
    ensures Smooth(event.turns) ==> client.alive
  {
    hide Faithful, Follows, Reached, Within, Listed, Valid, Single, Strands, Steady, LiveClient.OpenIsWanted,
         LiveClient.SkipsOpenFile, Pump, Serve, Queue, Heard, Subscribed, LiveClient.StandsAt, LiveClient.CaughtUp, Smooth,
         Stuck, ListedNames;
    StorageMoves(client, w, event.step, store);
    StepExtends(w, event.step, store);
    StepKeepsSingle(w, event.step, store);
    var next, later := WorldAfter(w, event.step, store), StoreAfter(w, event.step, store);
    if client.OpenIsWanted(store)
       && (client.sendPausedFlag || client.noPausedFlag || Steady(client.sendPausedData, event.turns)) {
      client.NeverSkipsOpenFile(event.turns, client.sendPausedData, later);
    }
    stale := client.SkipsOpenFile(event.turns, later);
    threw := false;
    match event.step
    case Started(_) =>
      threw := client.ContainerChange(event.step.name, true, w, next, event.turns, later);
    case Closed(c) =>
      StuckIsStranded(client.conts, client.container, client.queued, w, c);
      threw := client.ContainerChange(c, false, w, next, event.turns, later);
    case Added(c, f, _) =>
      FollowsAddFile(client.conts, client.container, client.queued, w, c, f);
      if client.container == Some(c) {
        client.FileAdded(f, event.turns, later);
      }
    case Ready =>
      if client.waiting {
        var _ := client.Writable(event.turns, later);
      }
    case _ =>
      if client.updates == Some(event.step.id) {
        client.FileUpdated(event.turns, later);
      }
  }

  // ---- A whole run ----

  /** The rounds of sending that the hello and the events have ahead of them. */
  function AllTurns(hello: seq<seq<Turn>>, events: seq<Event>): seq<seq<Turn>> {
    hello + seq(|events|, i requires 0 <= i < |events| => events[i].turns)
  }

  /** A whole run: however containers start, fill and close, and however the socket
      behaves, a client that is still connected has queued exactly the files of the
      containers it has reached, in the order they started, and has sent exactly what
      those files owe. It handles the events in order, `done` of them: all, unless the
      connection ends or an event throws. */
  method Run(client: LiveClient, history: seq<Pending>, current: Option<Name>, hello: seq<seq<Turn>>,
             events: seq<Event>, store: Store)
    returns (w: World, later: Store, done: nat, threw: bool, stale: bool)
    requires client.alive && client.conts == [] && client.container == None
    requires client.Out() == Sender([], None, None, [], [], [])
    requires AllWithin(history, store)
    requires AllPossible(events, Greeted(history, current), store)
    modifies client
    ensures done <= |events| && (w, later) == After(events, done, Greeted(history, current), store)
    ensures done == |events| || threw || !client.alive
    ensures client.alive && !threw ==> Standing(client, w, later) && (!stale ==> client.OpenIsWanted(later))
    ensures Extends(later, store)
    ensures !stale ==> Faithful(client.Out(), later)
    ensures ThrowsLast(events, done, threw, Greeted(history, current), store)
    ensures FilledFirst(events, Greeted(history, current), store) ==> !threw
    // No open file is skipped when the client or a steady setting decides on pause data.
    ensures client.sendPausedFlag || client.noPausedFlag || SteadyAll(old(client.sendPausedData), AllTurns(hello, events))
            ==> !stale
    ensures client.sendPausedData ==> WantedAfter(old(client.sendPausedData), AllTurns(hello, events)[..|hello| + done])
    // The connection only ends when a round so far found the socket broken or a file missing.
    ensures (forall i :: 0 <= i < |hello| + done ==> Smooth(AllTurns(hello, events)[i])) ==> client.alive
  {
    hide Faithful, Follows, Within, Listed, Valid, Possible, WorldAfter, StoreAfter, Extends, AllPossible, After, Throws,
         FilledFirst, NoneEmpty, Single, Steady, SteadyAll, WantedAfter, TurnsOn, Smooth, LiveClient.OpenIsWanted,
         ThrowsLast, Greets, AllWithin, LiveClient.Bounded, LiveClient.CaughtUp;
    w, later, done, threw := Greeted(history, current), store, 0, false;
    ghost var lists, wanted0 := AllTurns(hello, events), client.sendPausedData;
    HelloTurns(wanted0, hello, events);
    stale := client.Hello(history, current, hello, store);
    GreetedIsValid(history, current, store);
    ExtendsItself(store);
    AfterNone(events, w, store);
    ThrowsNone(events, Greeted(history, current), store);
    while done < |events| && client.alive && !threw
      invariant done <= |events| && (w, later) == After(events, done, Greeted(history, current), store)
      invariant Extends(later, store)
      invariant !stale ==> Faithful(client.Out(), later)
      invariant client.alive && !threw ==> Standing(client, w, later) && (!stale ==> client.OpenIsWanted(later))
      invariant ThrowsLast(events, done, threw, Greeted(history, current), store)
      invariant client.sendPausedData ==> WantedAfter(wanted0, lists[..|hello| + done])
      invariant client.sendPausedFlag || client.noPausedFlag || SteadyAll(wanted0, lists) ==> !stale
      invariant (forall i :: 0 <= i < |hello| + done ==> Smooth(lists[i])) ==> client.alive
      decreases |events| - done
    {
      StandingIsValid(client, w, later);
      AfterStep(events, done, Greeted(history, current), store);
      StepExtends(w, events[done].step, later);
      ExtendsOn(StoreAfter(w, events[done].step, later), later, store);
      EventTurns(wanted0, client.sendPausedData, hello, events, done);
      var off: bool;
      threw, off := Handle(client, events[done], w, later);
      stale := stale || off;
      ThrowsNext(events, done, threw, Greeted(history, current), store);
      w, later := WorldAfter(w, events[done].step, later), StoreAfter(w, events[done].step, later);
      done := done + 1;
    }
    if FilledFirst(events, Greeted(history, current), store) {
      FilledThrowsNone(events, done, threw, Greeted(history, current), store);
    }
  }

  lemma HelloTurns(wanted: bool, hello: seq<seq<Turn>>, events: seq<Event>)
    ensures var lists := AllTurns(hello, events);
            && lists[..|hello|] == hello
            && (SteadyAll(wanted, lists) ==> SteadyAll(wanted, hello))
            && forall i :: 0 <= i < |hello| ==> lists[i] == hello[i]
  {
    var lists := AllTurns(hello, events);
    assert lists[..|hello|] == hello;
    if SteadyAll(wanted, lists) {
      SteadyBefore(wanted, lists, |hello|);
    }
  }

  lemma {:induction false} SteadyBefore(wanted: bool, lists: seq<seq<Turn>>, n: nat)
    requires n <= |lists| && SteadyAll(wanted, lists)
    ensures SteadyAll(wanted, lists[..n])
  {
    if n < |lists| {
      var last := |lists| - 1;
      assert lists[..last][..n] == lists[..n];
      SteadyBefore(wanted, lists[..last], n);
    } else {
      assert lists[..n] == lists;
    }
  }

  lemma EventTurns(wanted: bool, now: bool, hello: seq<seq<Turn>>, events: seq<Event>, n: nat)
    requires n < |events| && (now ==> WantedAfter(wanted, AllTurns(hello, events)[..|hello| + n]))
    ensures var lists := AllTurns(hello, events);
            && lists[|hello| + n] == events[n].turns
            && (SteadyAll(wanted, lists) ==> Steady(now, events[n].turns))
            && (TurnsOn(now, events[n].turns) ==> WantedAfter(wanted, lists[..|hello| + n + 1]))
  {
    var lists := AllTurns(hello, events);
    var wanted' := WantedAfter(wanted, lists[..|hello| + n]);
    assert lists[|hello| + n] == events[n].turns;
    WantedNext(wanted, lists, |hello| + n);
    if SteadyAll(wanted, lists) {
      SteadyAt(wanted, lists, |hello| + n);
    }
    TurnsOnMore(now, wanted', events[n].turns);
  }

  lemma WantedNext(wanted: bool, lists: seq<seq<Turn>>, n: nat)
    requires n < |lists|
    ensures WantedAfter(wanted, lists[..n + 1]) == TurnsOn(WantedAfter(wanted, lists[..n]), lists[n])
  {
    assert lists[..n + 1][..n] == lists[..n];
  }

  lemma AfterNone(events: seq<Event>, w: World, store: Store)
    requires AllPossible(events, w, store)
    ensures After(events, 0, w, store) == (w, store)
  {
  }

  lemma GreetedIsValid(history: seq<Pending>, current: Option<Name>, store: Store)
    requires AllWithin(history, store)
    ensures var w := Greeted(history, current); Valid(w) && Listed(w, store) && Single(w, store) && NoneEmpty(w)
  {
  }

  lemma StandingIsValid(client: LiveClient, w: World, store: Store)
    requires Standing(client, w, store)
    ensures Valid(w) && Listed(w, store)
  {
  }

  lemma ExtendsItself(store: Store)
    ensures Extends(store, store)
  {
  }

  lemma ExtendsOn(last: Store, later: Store, store: Store)
    requires Extends(last, later) && Extends(later, store)
    ensures Extends(last, store)
  {
  }

  // ---- Running dry ----

  /** What a client may have to send of all that was announced. */
  ghost function Load(w: World, store: Store): nat
    requires Valid(w) && AllWithin(Reached(w, |w.started|), store)
  {
    Left(Reached(w, |w.started|), store)
  }

  ghost function LoadAfter(s: (World, Store)): nat {
    if Valid(s.0) && AllWithin(Reached(s.0, |s.0.started|), s.1) then Load(s.0, s.1) else 0
  }

  lemma LoadOf(client: LiveClient, w: World, store: Store)
    requires Standing(client, w, store) && Faithful(client.Out(), store)
    ensures AllWithin(Reached(w, |w.started|), store)
    ensures Left(client.files, store) <= Load(w, store)
    ensures Own(client.Out())
  {
    hide Reached, Left, Faithful, InOrder, Follows, Listed, NoRepeats, AllWithin, LiveClient.CaughtUp;
    ReachedWithin(w, store, |w.started|);
    FollowsReached(client.conts, client.container, client.queued, w);
    OrderedIsOwn(client.Out(), store);
    LeftOfQueue(client.Out(), store);
    LeftOfFront(client.queued, Reached(w, |w.started|), store);
  }

  /** One ready socket that takes something: there is less to send afterwards, or nothing
      to wait for. */
  method Flush(client: LiveClient, turns: seq<Turn>, w: World, store: Store) returns (stale: bool)
    requires Standing(client, w, store) && Faithful(client.Out(), store) && client.OpenIsWanted(store)
    modifies client
    ensures client.alive ==> Standing(client, w, store)
    ensures !stale ==> Faithful(client.Out(), store) && (client.alive ==> client.OpenIsWanted(store))
    ensures client.sendPausedFlag || client.noPausedFlag || Steady(old(client.sendPausedData), turns) ==> !stale
    ensures client.sendPausedData ==> TurnsOn(old(client.sendPausedData), turns)
    ensures Smooth(turns) ==> client.alive
    ensures Pushes(turns) && client.maxSendChunk > 0 && client.alive && client.waiting ==>
              client.Bounded(store) && old(client.Bounded(store) && client.waiting)
              && Left(client.files, store) < old(Left(client.files, store))
  {
    hide Faithful, Follows, Reached, Within, Listed, Valid, Single, Steady, Left, Own, Pump, Pushes, LiveClient.OpenIsWanted;
    LoadOf(client, w, store);
    if Pushes(turns) && client.maxSendChunk > 0 {
      PumpGetsOn(client.Out(), client.Settings(), client.sendPausedData, turns, store);
    }
    var threw;
    threw, stale := Handle(client, Event(Ready, turns), w, store);
  }

  /** More ready sockets that take something than there is to send: the client comes to
      rest. */
  method Drain(client: LiveClient, ready: seq<seq<Turn>>, ghost wanted: bool, w: World, store: Store) returns (stale: bool)
    requires Standing(client, w, store) && Faithful(client.Out(), store) && client.OpenIsWanted(store)
    requires client.sendPausedData ==> wanted
    modifies client
    ensures !stale ==> Faithful(client.Out(), store)
    ensures !stale && client.alive ==> Standing(client, w, store)
    ensures client.sendPausedFlag || client.noPausedFlag || SteadyAll(wanted, ready) ==> !stale
    ensures (forall i :: 0 <= i < |ready| ==> Smooth(ready[i])) && !stale ==> client.alive
    ensures (forall i :: 0 <= i < |ready| ==> Pushes(ready[i])) && |ready| > LoadAfter((w, store))
            && client.maxSendChunk > 0 && !stale && client.alive
            ==> !client.waiting
  {
    hide Faithful, Steady, SteadyAll, WantedAfter, TurnsOn, Smooth, Pushes, Standing, LiveClient.OpenIsWanted, Left, Load,
         Reached, AllWithin;
    stale := false;
    StandingFacts(client, w, store);
    LoadOf(client, w, store);
    DrainStarts(wanted, ready);
    ghost var load := Left(client.files, store);
    for i := 0 to |ready|
      invariant !stale && client.alive && Standing(client, w, store) && client.Bounded(store)
      invariant Faithful(client.Out(), store) && client.OpenIsWanted(store)
      invariant client.sendPausedData ==> WantedAfter(wanted, ready[..i])
      invariant (forall k :: 0 <= k < i ==> Pushes(ready[k])) && client.maxSendChunk > 0 && client.waiting ==>
                  Left(client.files, store) + i <= load
    {
      DrainTurn(wanted, client.sendPausedData, ready, i);
      var off := Flush(client, ready[i], w, store);
      if off || !client.alive {
        stale := off;
        return;
      }
      StandingFacts(client, w, store);
    }
  }

  lemma StandingFacts(client: LiveClient, w: World, store: Store)
    requires Standing(client, w, store)
    ensures client.alive && client.Bounded(store) && Valid(w)
  {
  }

  lemma DrainStarts(wanted: bool, ready: seq<seq<Turn>>)
    ensures WantedAfter(wanted, ready[..0]) == wanted
  {
  }

  lemma DrainTurn(wanted: bool, now: bool, ready: seq<seq<Turn>>, n: nat)
    requires n < |ready| && (now ==> WantedAfter(wanted, ready[..n]))
    ensures SteadyAll(wanted, ready) ==> Steady(now, ready[n])
    ensures TurnsOn(now, ready[n]) ==> WantedAfter(wanted, ready[..n + 1])
  {
    WantedNext(wanted, ready, n);
    if SteadyAll(wanted, ready) {
      SteadyAt(wanted, ready, n);
    }
    TurnsOnMore(now, WantedAfter(wanted, ready[..n]), ready[n]);
  }

  /** Once every container is closed, every file has ended and the socket has taken
      everything, nothing announced is left behind: all files of all containers were
      queued in order, each of them once, and all of them were sent or rightly skipped. */
  lemma NothingLeftBehind(client: LiveClient, w: World, store: Store)
    requires Standing(client, w, store) && Faithful(client.Out(), store)
    requires w.open == {} && !client.waiting && forall f :: f in store ==> !store[f].active
    ensures client.conts == [] && client.container == None && client.files == []
    ensures client.queued == Reached(w, |w.started|) && |client.gone| == |client.queued|
    ensures forall n: nat, f :: n < |w.started| && f in w.added[w.started[n]] ==>
              multiset(client.queued)[Pending(f, 0)] == 1
    ensures client.sent == Transcript(client.queued, client.gone, store)
  {
    hide Reached, Transcript, NoRepeats;
    assert client.files == [];
    assert client.queued[..|client.gone|] == client.queued;
    forall n: nat, f | n < |w.started| && f in w.added[w.started[n]]
      ensures multiset(client.queued)[Pending(f, 0)] == 1
    {
      QueuedOnce(w, n, f);
    }
  }

  /** All that storage announces is delivered. If in the end every container is closed and
      every file has ended, no container was closed before its first file, the socket
      stays up and is ready more often than there is left to send, taking something each
      time, and the client chooses on pause data or the setting is steady, then every
      file was queued, once and in order, and everything it owes has been sent. */
  method Deliver(client: LiveClient, history: seq<Pending>, current: Option<Name>, hello: seq<seq<Turn>>,
                 events: seq<Event>, ready: seq<seq<Turn>>, store: Store)
    returns (w: World, later: Store)
    requires client.alive && client.conts == [] && client.container == None
    requires client.Out() == Sender([], None, None, [], [], [])
    requires AllWithin(history, store)
    requires AllPossible(events, Greeted(history, current), store)
    requires Settles(After(events, |events|, Greeted(history, current), store))
    requires FilledFirst(events, Greeted(history, current), store) && client.maxSendChunk > 0
    requires forall i :: 0 <= i < |hello| + |events| ==> Smooth(AllTurns(hello, events)[i])
    requires client.sendPausedFlag || client.noPausedFlag || SteadyAll(client.sendPausedData, AllTurns(hello, events) + ready)
    requires forall i :: 0 <= i < |ready| ==> Smooth(ready[i]) && Pushes(ready[i])
    requires |ready| > LoadAfter(After(events, |events|, Greeted(history, current), store))
    modifies client
    ensures (w, later) == After(events, |events|, Greeted(history, current), store)
    ensures client.alive && client.conts == [] && client.files == []
    ensures Valid(w) && client.queued == Reached(w, |w.started|) && |client.gone| == |client.queued|
    ensures forall n: nat, f :: n < |w.started| && f in w.added[w.started[n]] ==>
              multiset(client.queued)[Pending(f, 0)] == 1
    ensures Faithful(client.Out(), later) && client.sent == Transcript(client.queued, client.gone, later)
  {
    hide Faithful, Steady, SteadyAll, WantedAfter, Smooth, Pushes, Standing, LiveClient.OpenIsWanted, Left, Load, Reached,
         AllWithin, FilledFirst, After, AllPossible, AllTurns, ThrowsLast, Transcript, Greeted, Extends, Settles;
    ghost var lists, wanted := AllTurns(hello, events), client.sendPausedData;
    AllTurnsAre(hello, events);
    if SteadyAll(wanted, lists + ready) {
      SteadySplit(wanted, lists, ready);
    }
    var done, threw, stale;
    w, later, done, threw, stale := Run(client, history, current, hello, events, store);
    assert lists[..|lists|] == lists;
    StandingFacts(client, w, later);
    LoadOf(client, w, later);
    stale := Drain(client, ready, WantedAfter(wanted, lists), w, later);
    StandingFacts(client, w, later);
    AtRest(w, later);
    NothingLeftBehind(client, w, later);
  }

  /** Every container is closed and every file has ended. */
  ghost predicate Settles(s: (World, Store)) {
    s.0.open == {} && forall f :: f in s.1 ==> !s.1[f].active
  }

  lemma AtRest(w: World, store: Store)
    requires Settles((w, store))
    ensures w.open == {} && forall f :: f in store ==> !store[f].active
  {
  }

  lemma AllTurnsAre(hello: seq<seq<Turn>>, events: seq<Event>)
    ensures |AllTurns(hello, events)| == |hello| + |events|
  {
  }
}
