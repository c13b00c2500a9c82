/** A client of the live data stream: it follows the containers storage opens and
    closes, queues their files, and copies the files to its socket. */
module LiveClientModel {
  import opened Options
  import opened LiveFiles
  import opened LiveSending
  import opened LiveWorld
  import opened Words

  class LiveClient {
    const maxSendChunk: nat
    const sendPausedFlag: bool
    const noPausedFlag: bool
    var sendPausedData: bool
    var conts: seq<Entry>
    var container: Option<Name>
    var files: seq<Pending>
    var updates: Option<FileId>
    var fd: Option<FileId>
    var waiting: bool
    var alive: bool
    ghost var queued: seq<Pending>
    ghost var gone: seq<Ending>
    ghost var sent: seq<Byte>

    constructor (maxSendChunk: nat, sendPausedData: bool, sendPausedFlag: bool, noPausedFlag: bool)
      ensures Out() == Sender([], None, None, [], [], []) && conts == [] && container == None
      ensures alive && !waiting
      ensures this.maxSendChunk == maxSendChunk && this.sendPausedData == sendPausedData
      ensures this.sendPausedFlag == sendPausedFlag && this.noPausedFlag == noPausedFlag
    {
      this.maxSendChunk, this.sendPausedData := maxSendChunk, sendPausedData;
      this.sendPausedFlag, this.noPausedFlag := sendPausedFlag, noPausedFlag;
      conts, container, files, updates, fd := [], None, [], None, None;
      waiting, alive := false, true;
      queued, gone, sent := [], [], [];
    }

    ghost function Out(): Sender
      reads this
    {
      Sender(files, fd, updates, queued, gone, sent)
    }

    /** The queue's offsets lie inside the files, and the client hears of every
        change to an active file at its front. */
    predicate Bounded(store: Store)
      reads this`files, this`fd, this`updates
    {
      && AllWithin(files, store)
      && Subscribed(files, updates, store)
      && (fd.Some? ==> fd.value in store)
    }

    /** Nothing more can be sent now: the queue is empty, or all there is of the
        growing front file is sent. */
    predicate CaughtUp(store: Store)
      requires Bounded(store)
      reads this`files, this`fd, this`updates
    {
      files == [] || (store[files[0].file].active && files[0].offset == |store[files[0].file].content|)
    }

    predicate SkipsFront(turn: Turn, store: Store)
      requires Bounded(store)
      reads this`files, this`fd, this`updates, this`sendPausedData
    {
      && !sendPausedFlag && files != []
      && store[files[0].file].paused && files[0].offset == 0
      && (!turn.poll.GetOr(sendPausedData) || noPausedFlag)
    }

    /** The front is a pause file, already opened but still at offset 0, and pause
        data is no longer wanted. */
    predicate SkipsOpenFile(turns: seq<Turn>, store: Store)
      requires Bounded(store)
      reads this`files, this`fd, this`updates, this`sendPausedData
    {
      fd.Some? && SkipsFront(TurnAt(turns, 0), store)
    }

    /** A pause file that has been opened, but of which nothing has been sent, is wanted. */
    predicate OpenIsWanted(store: Store)
      requires Bounded(store)
      reads this`files, this`fd, this`updates, this`sendPausedData
    {
      fd.Some? && files != [] && store[files[0].file].paused && files[0].offset == 0 && !sendPausedFlag ==>
        sendPausedData && !noPausedFlag
    }

    /** Pause data is a client's own choice, or the setting never changes to unwanted:
        then no opened file is skipped. */
    lemma NeverSkipsOpenFile(turns: seq<Turn>, wanted: bool, store: Store)
      requires Bounded(store) && OpenIsWanted(store) && (sendPausedData ==> wanted)
      requires sendPausedFlag || noPausedFlag || Steady(wanted, turns)
      ensures !SkipsOpenFile(turns, store)
    {
    }

    /** Puts one more file on the queue. */
    method Push(f: Pending, store: Store)
      requires Within(f, store) && Bounded(store)
      modifies this`files, this`updates, this`queued
      ensures Out() == Queue(old(Out()), f, store)
      ensures Bounded(store)
    {
      files := files + [f];
      queued := queued + [f];
      if |files| == 1 {
        if updates.None? && store[f.file].active {
          updates := Some(f.file);
        }
      }
    }

    /** Takes the front file off the queue and turns to the next one. */
    method DropFront(ghost ending: Ending, store: Store)
      requires files != [] && Bounded(store)
      modifies this`files, this`updates, this`gone
      ensures Out() == Drop(old(Out()), ending, store)
      ensures Bounded(store)
    {
      updates := None;
      files := files[1..];
      gone := gone + [ending];
      if files != [] {
        assert Within(files[0], store);
        if store[files[0].file].active {
          updates := Some(files[0].file);
        }
      }
    }

    /** How much of a file one call sends: at most a chunk, what is left of the file,
        and what the socket takes. */
    function Chunk(p: Pending, taken: nat, store: Store): nat
      requires Within(p, store)
    {
      ChunkOf(maxSendChunk, p, taken, store)
    }

    /** How much of it there is to read in the open file, which may be another one. */
    function ReadCount(p: Pending, taken: nat, open: FileId, store: Store): nat
      requires Within(p, store) && open in store
    {
      ReadCountOf(maxSendChunk, p, taken, open, store)
    }

    function Settings(): Mode {
      Mode(maxSendChunk, sendPausedFlag, noPausedFlag)
    }

    /** Where sending has left the client: its sender, its pause-data setting, and whether
        it is idle, waits for room in the socket, or is gone. */
    ghost predicate StandsAt(r: (Sender, bool, Round))
      reads this
    {
      && Out() == r.0 && sendPausedData == r.1
      && (alive <==> r.2 != Dead) && (alive ==> (waiting <==> r.2 == More))
    }

    /** Copies up to one chunk of the open file to the socket. */
    method SendFile(outcome: Outcome, store: Store)
      requires files != [] && fd.Some? && Bounded(store) && outcome.Wrote?
      modifies this`files, this`sent
      ensures Bounded(store)
      ensures var front := old(files[0]);
              var n := ReadCount(front, outcome.count, fd.value, store);
              && files == [Pending(front.file, front.offset + n)] + old(files)[1..]
              && sent == old(sent) + ReadAt(store[fd.value].content, front.offset, n)
      ensures Out() == Send(old(Out()), maxSendChunk, outcome.count, store)
      ensures fd.value == old(files[0].file) ==>
                Out() == Write(old(Out()), Chunk(old(files[0]), outcome.count, store), store)
    {
      var front := files[0];
      assert Within(front, store);
      var len := |store[front.file].content| - front.offset;
      if len > maxSendChunk {
        len := maxSendChunk;
      }
      var source := store[fd.value].content;
      var rc := if outcome.count < len then outcome.count else len;
      if front.offset + rc > |source| {
        rc := if front.offset > |source| then 0 else |source| - front.offset;
      }
      files := [Pending(front.file, front.offset + rc)] + files[1..];
      if rc > 0 {
        sent := sent + source[front.offset..front.offset + rc];
      }
      assert AllWithin(files, store) by {
        forall i | 0 <= i < |files| ensures Within(files[i], store) {
          assert i > 0 ==> Within(old(files)[i], store);
        }
      }
      assert fd.value == front.file ==> rc == Chunk(front, outcome.count, store);
    }

    /** Sends a chunk of the front file, and takes it off the queue once all of it is
        sent and no more can come. */
    method SendFront(outcome: Outcome, store: Store) returns (round: Round)
      requires alive && files != [] && fd.Some? && Bounded(store)
      modifies this`files, this`fd, this`updates, this`gone, this`sent, this`alive
      ensures Bounded(store) && alive == (round != Dead)
      ensures (Out(), round) == FrontStep(old(Out()), maxSendChunk, outcome, store)
      ensures round == Next ==> |files| < |old(files)| && fd.None?
      ensures gone == if round == Next then old(gone) + [Finished] else old(gone)
      ensures round == Dead <==> outcome.Broken?
      ensures round != Next ==> |files| == |old(files)| && fd == old(fd)
      ensures round != Next ==> files[0].file == old(files[0].file) && files[0].offset >= old(files[0].offset)
      ensures round == More ==> outcome.TryAgain? || (files != [] && Unsent(files[0], store))
      ensures outcome.Wrote? && old(fd.value == files[0].file) ==>
                |sent| == |old(sent)| + Chunk(old(files[0]), outcome.count, store)
      ensures round == Idle ==> files != [] && CaughtUp(store)
      ensures Faithful(old(Out()), store) ==> Faithful(Out(), store)
    {
      hide Faithful, AllWithin;
      ghost var before := Out();
      match outcome
      case TryAgain =>
        return More;
      case Broken =>
        alive := false;
        return Dead;
      case Wrote(_) =>
        FrontWithin(files, store);
        SendFile(outcome, store);
        ghost var written := Out();
        if Faithful(before, store) {
          DescriptorIsFront(before, store);
          WriteKeepsFaithful(before, Chunk(before.files[0], outcome.count, store), store);
        }
        FrontWithin(files, store);
        if files[0].offset != |store[files[0].file].content| {
          return More;
        }
        if store[files[0].file].active {
          return Idle;
        }
        fd := None;
        DropFront(Finished, store);
        if Faithful(written, store) {
          FinishKeepsFaithful(written, store);
        }
        return Next;
    }

    /** One round of the loop in `writable`: skip the front file, or open it and send.
        What it keeps is said of `Step`. */
    method SendRound(turn: Turn, store: Store) returns (round: Round)
      requires alive && files != [] && Bounded(store)
      modifies this`files, this`fd, this`updates, this`gone, this`sent, this`sendPausedData, this`alive
      ensures Bounded(store) && alive == (round != Dead)
      ensures sendPausedData == Polled(Settings(), old(sendPausedData), turn)
      ensures (Out(), round) == Step(old(Out()), Settings(), sendPausedData, turn, store)
      ensures round == Idle ==> files != [] && CaughtUp(store)
      ensures old(SkipsFront(turn, store)) == Skips(old(Out()), Settings(), sendPausedData, store)
    {
      hide Faithful, AllWithin, FrontStep, Subscribed;
      FrontWithin(files, store);
      if !sendPausedFlag {
        sendPausedData := turn.poll.GetOr(sendPausedData);
        if store[files[0].file].paused && files[0].offset == 0 && (!sendPausedData || noPausedFlag) {
          DropFront(Skipped, store);
          return Next;
        }
      }
      if fd.None? {
        if !turn.opens {
          alive := false;
          return Dead;
        }
        fd := Some(files[0].file);
      }
      round := SendFront(turn.outcome, store);
    }

    /** The loop over the queue. */
    method SendAll(turns: seq<Turn>, store: Store) returns (rounds: nat)
      requires alive && Bounded(store)
      modifies this`files, this`fd, this`updates, this`gone, this`sent, this`sendPausedData,
               this`alive, this`waiting
      ensures Bounded(store)
      ensures StandsAt(Pump(old(Out()), Settings(), old(sendPausedData), turns, 0, store))
      // Every round but the last takes one file off the queue; the last one found nothing
      // more to send, or the socket full, or the connection gone.
      ensures |gone| == |old(gone)| + if files == [] then rounds else rounds - 1
      ensures alive && !waiting ==> CaughtUp(store)
      ensures alive && waiting ==>
                rounds > 0 && files != []
                && (TurnAt(turns, rounds - 1).outcome.TryAgain? || Unsent(files[0], store))
      ensures !alive ==>
                rounds > 0 && (TurnAt(turns, rounds - 1).outcome.Broken? || !TurnAt(turns, rounds - 1).opens)
    {
      hide Faithful, AllWithin, CaughtUp, SkipsFront, Step, Pump, Subscribed, Polled, LiveClient.OpenIsWanted;
      rounds := 0;
      while files != []
        invariant alive && Bounded(store)
        invariant |gone| == |old(gone)| + rounds
        invariant Pump(Out(), Settings(), sendPausedData, turns, rounds, store)
                  == Pump(old(Out()), Settings(), old(sendPausedData), turns, 0, store)
        decreases |files|
      {
        PumpNext(Out(), Settings(), sendPausedData, turns, rounds, store);
        StepSays(Out(), Settings(), Polled(Settings(), sendPausedData, TurnAt(turns, rounds)), TurnAt(turns, rounds), store);
        var round := SendRound(TurnAt(turns, rounds), store);
        rounds := rounds + 1;
        if round == Dead {
          return;
        }
        if round != Next {
          waiting := round == More;
          return;
        }
      }
      PumpNext(Out(), Settings(), sendPausedData, turns, rounds, store);
      waiting := false;
      assert CaughtUp(store) by {
        EmptyIsCaughtUp(store);
      }
    }

    /** Sends until the socket is full or there is nothing left to send. */
    method Writable(turns: seq<Turn>, store: Store) returns (rounds: nat)
      requires alive && Bounded(store)
      modifies this`files, this`fd, this`updates, this`gone, this`sent, this`sendPausedData,
               this`alive, this`waiting
      ensures Bounded(store)
      ensures StandsAt(Pump(old(Out()), Settings(), old(sendPausedData), turns, 0, store))
      // Every round but the last takes one file off the queue; the last one found nothing
      // more to send, or the socket full, or the connection gone.
      ensures |gone| == |old(gone)| + if files == [] then rounds else rounds - 1
      ensures alive && !waiting ==> CaughtUp(store)
      ensures alive && waiting ==>
                rounds > 0 && files != []
                && (TurnAt(turns, rounds - 1).outcome.TryAgain? || Unsent(files[0], store))
      ensures !alive ==>
                rounds > 0 && (TurnAt(turns, rounds - 1).outcome.Broken? || !TurnAt(turns, rounds - 1).opens)
      ensures Faithful(old(Out()), store) && !old(SkipsOpenFile(turns, store)) ==> Faithful(Out(), store)
      ensures sendPausedData ==> TurnsOn(old(sendPausedData), turns)
      ensures Smooth(turns) ==> alive
      ensures alive && !old(SkipsOpenFile(turns, store)) ==> OpenIsWanted(store)
    {
      SameSkips(turns, store);
      PumpKeeps(Out(), Settings(), sendPausedData, turns, 0, store);
      hide Faithful, Pump, Smooth, TurnsOn, SkipsOpen, OpenWanted, LiveClient.SkipsOpenFile, LiveClient.OpenIsWanted,
           LiveClient.CaughtUp, AllWithin, Subscribed;
      rounds := SendAll(turns, store);
      SameSkips(turns, store);
    }

    /** The client's own view of its settings is that of its sender. */
    lemma SameSkips(turns: seq<Turn>, store: Store)
      requires Bounded(store)
      ensures SkipsOpenFile(turns, store)
              == SkipsOpen(Out(), Settings(), Polled(Settings(), sendPausedData, TurnAt(turns, 0)), store)
      ensures OpenIsWanted(store) == OpenWanted(Out(), Settings(), sendPausedData, store)
    {
    }

    /** The end of every notification: send what is new unless already waiting for
        room in the socket. */
    method SendIfIdle(turns: seq<Turn>, store: Store)
      requires alive && Bounded(store)
      modifies this`files, this`fd, this`updates, this`gone, this`sent, this`sendPausedData,
               this`alive, this`waiting
      ensures StandsAt(Serve(old(Out()), old(waiting), Settings(), old(sendPausedData), turns, store))
      ensures Bounded(store)
      ensures alive && !waiting ==> CaughtUp(store)
      ensures Faithful(old(Out()), store) && !old(SkipsOpenFile(turns, store)) ==> Faithful(Out(), store)
      ensures sendPausedData ==> TurnsOn(old(sendPausedData), turns)
      ensures Smooth(turns) ==> alive
      ensures Faithful(old(Out()), store) && !old(SkipsOpenFile(turns, store)) && old(OpenIsWanted(store)) && alive
              ==> OpenIsWanted(store)
    {
      hide Faithful, AllWithin, CaughtUp, SkipsOpenFile, Pump;
      if !waiting {
        var _ := Writable(turns, store);
      }
    }

    method Enqueue(f: Pending, turns: seq<Turn>, store: Store)
      requires alive && Within(f, store) && Bounded(store)
      modifies this`files, this`fd, this`updates, this`queued, this`gone, this`sent, this`sendPausedData,
               this`alive, this`waiting
      ensures Fit(Queue(old(Out()), f, store), store)
      ensures StandsAt(Serve(Queue(old(Out()), f, store), old(waiting), Settings(), old(sendPausedData), turns, store))
      ensures Bounded(store) && queued == old(queued) + [f]
      ensures alive && !waiting ==> CaughtUp(store)
      ensures Faithful(old(Out()), store) && !old(SkipsOpenFile(turns, store)) ==> Faithful(Out(), store)
      ensures sendPausedData ==> TurnsOn(old(sendPausedData), turns)
      ensures Smooth(turns) ==> alive
      ensures Faithful(old(Out()), store) && !old(SkipsOpenFile(turns, store)) && old(OpenIsWanted(store)) && alive
              ==> OpenIsWanted(store)
    {
      hide Faithful, AllWithin, CaughtUp, Within, Serve;
      ghost var before := Out();
      FitQueue(before, f, store);
      Push(f, store);
      if Faithful(before, store) {
        QueueKeepsFaithful(before, f, store);
        if fd.Some? {
          DescriptorIsFront(before, store);
        }
      }
      SendIfIdle(turns, store);
    }

    /** A file from storage's history, announced while saying hello. */
    method HistoricalFile(f: Pending, turns: seq<Turn>, store: Store)
      requires alive && Within(f, store) && Bounded(store)
      modifies this`files, this`fd, this`updates, this`queued, this`gone, this`sent, this`sendPausedData,
               this`alive, this`waiting
      ensures Fit(Queue(old(Out()), f, store), store)
      ensures StandsAt(Serve(Queue(old(Out()), f, store), old(waiting), Settings(), old(sendPausedData), turns, store))
      ensures Bounded(store) && queued == old(queued) + [f]
      ensures alive && !waiting ==> CaughtUp(store)
      ensures Faithful(old(Out()), store) && !old(SkipsOpenFile(turns, store)) ==> Faithful(Out(), store)
      ensures sendPausedData ==> TurnsOn(old(sendPausedData), turns)
      ensures Smooth(turns) ==> alive
      ensures Faithful(old(Out()), store) && !old(SkipsOpenFile(turns, store)) && old(OpenIsWanted(store)) && alive
              ==> OpenIsWanted(store)
    {
      Enqueue(f, turns, store);
    }

    /** The container listened to has a new file. */
    method FileAdded(f: FileId, turns: seq<Turn>, store: Store)
      requires alive && f in store && Bounded(store)
      modifies this`files, this`fd, this`updates, this`queued, this`gone, this`sent, this`sendPausedData,
               this`alive, this`waiting
      ensures Fit(Queue(old(Out()), Pending(f, 0), store), store)
      ensures StandsAt(Serve(Queue(old(Out()), Pending(f, 0), store), old(waiting), Settings(), old(sendPausedData), turns, store))
      ensures Bounded(store) && queued == old(queued) + [Pending(f, 0)]
      ensures alive && !waiting ==> CaughtUp(store)
      ensures Faithful(old(Out()), store) && !old(SkipsOpenFile(turns, store)) ==> Faithful(Out(), store)
      ensures sendPausedData ==> TurnsOn(old(sendPausedData), turns)
      ensures Smooth(turns) ==> alive
      ensures Faithful(old(Out()), store) && !old(SkipsOpenFile(turns, store)) && old(OpenIsWanted(store)) && alive
              ==> OpenIsWanted(store)
    {
      Enqueue(Pending(f, 0), turns, store);
    }

    /** The file subscribed to has grown or ended. */
    method FileUpdated(turns: seq<Turn>, store: Store)
      requires alive && Bounded(store) && updates.Some?
      modifies this`files, this`fd, this`updates, this`gone, this`sent, this`sendPausedData,
               this`alive, this`waiting
      ensures StandsAt(Serve(Heard(old(Out()), store), old(waiting), Settings(), old(sendPausedData), turns, store))
      ensures Bounded(store)
      ensures alive && !waiting ==> CaughtUp(store)
      ensures Faithful(old(Out()), store) && !old(SkipsOpenFile(turns, store)) ==> Faithful(Out(), store)
      ensures sendPausedData ==> TurnsOn(old(sendPausedData), turns)
      ensures Smooth(turns) ==> alive
      ensures Faithful(old(Out()), store) && !old(SkipsOpenFile(turns, store)) && old(OpenIsWanted(store)) && alive
              ==> OpenIsWanted(store)
    {
      hide Faithful, AllWithin, CaughtUp;
      ghost var before := Out();
      FrontWithin(files, store);
      if !store[updates.value].active {
        updates := None;
        if Faithful(before, store) {
          UnsubscribeKeepsFaithful(before, store);
        }
      }
      assert SkipsOpenFile(turns, store) == old(SkipsOpenFile(turns, store));
      SendIfIdle(turns, store);
    }

    /** Queues the files of the next container without sending yet. */
    method PushAll(added: seq<FileId>, store: Store)
      requires Bounded(store) && forall i :: 0 <= i < |added| ==> added[i] in store
      modifies this`files, this`updates, this`queued
      ensures AllWithin(Whole(added), store) && Out() == QueueAll(old(Out()), Whole(added), store)
      ensures Bounded(store) && old(files) <= files && queued == old(queued) + Whole(added)
      ensures Faithful(old(Out()), store) ==> Faithful(Out(), store)
    {
      hide Faithful, AllWithin, QueueAll;
      NothingPushed(Out(), store);
      for i := 0 to |added|
        invariant Bounded(store) && old(files) <= files && queued == old(queued) + Whole(added[..i])
        invariant AllWithin(Whole(added[..i]), store) && Out() == QueueAll(old(Out()), Whole(added[..i]), store)
        invariant Faithful(old(Out()), store) ==> Faithful(Out(), store)
      {
        ghost var before := Out();
        WholeAppend(added[..i], added[i]);
        OneWithin(Pending(added[i], 0), store);
        QueueAllOn(before, [], [Pending(added[i], 0)], store);
        QueueAllOn(old(Out()), Whole(added[..i]), [Pending(added[i], 0)], store);
        assert added[..i] + [added[i]] == added[..i + 1];
        Push(Pending(added[i], 0), store);
        if Faithful(before, store) {
          QueueKeepsFaithful(before, Pending(added[i], 0), store);
        }
      }
      assert added[..|added|] == added;
    }

    /** Goes on from a container that was closed to the next open one, queueing the
        files of every container passed. Asking a closed container that never got a
        file for its files throws. */
    method NextContainers(w: World, store: Store) returns (threw: bool)
      requires Valid(w) && Listed(w, store) && Bounded(store)
      requires conts != [] && Between(conts, container, queued, w)
      modifies this`conts, this`container, this`files, this`updates, this`queued
      ensures ListedNames(old(conts), w) && threw == Blocked(old(conts), w)
      ensures Bounded(store) && old(files) <= files
      ensures old(queued) <= queued && AllWithin(queued[|old(queued)|..], store)
      ensures Out() == QueueAll(old(Out()), queued[|old(queued)|..], store)
      ensures !threw ==> Follows(conts, container, queued, w)
      ensures Faithful(old(Out()), store) ==> Faithful(Out(), store)
    {
      hide Faithful, AllWithin, Between, Follows, Whole, Listed, Valid, QueueAll;
      NothingPushed(Out(), store);
      ghost var added: seq<Pending> := [];
      BetweenListensToNone(conts, container, queued, w);
      threw := false;
      BetweenNames(conts, queued, w);
      var more := true;
      while more
        invariant Bounded(store) && old(files) <= files
        invariant queued == old(queued) + added && AllWithin(added, store)
        invariant Out() == QueueAll(old(Out()), added, store)
        invariant Faithful(old(Out()), store) ==> Faithful(Out(), store)
        invariant ListedNames(old(conts), w) && ListedNames(conts, w)
        invariant Blocked(old(conts), w) == (more && Blocked(conts, w))
        invariant more ==> conts != [] && container == None && Between(conts, None, queued, w)
        invariant !more ==> Follows(conts, container, queued, w)
        decreases more, |conts|
      {
        BetweenNames(conts, queued, w);
        var next := conts[0];
        if next.name !in w.open && w.added[next.name] == [] {
          threw := true;
          return;
        }
        ListedInStore(w, store, next.name);
        if next.starting {
          BetweenOpen(conts, queued, w);
        } else {
          BetweenClosed(conts, queued, w);
        }
        PushAll(w.added[next.name], store);
        QueueAllOn(old(Out()), added, Whole(w.added[next.name]), store);
        added := added + Whole(w.added[next.name]);
        if next.starting {
          container := Some(next.name);
          more := false;
        } else {
          conts := conts[1..];
          more := conts != [];
          if !more {
            BetweenAll(queued, w);
          }
        }
      }
    }

    /** Marks the listed container of that name closed. */
    method MarkClosed(c: Name) returns (found: Option<nat>)
      modifies this`conts
      ensures found.None? ==> conts == old(conts) && forall i :: 0 <= i < |conts| ==> conts[i].name != c
      ensures found.Some? ==>
                && found.value < |old(conts)| && old(conts)[found.value].name == c
                && (forall i :: 0 <= i < found.value ==> old(conts)[i].name != c)
                && conts == old(conts)[found.value := Entry(c, false)]
    {
      for i := 0 to |conts|
        invariant conts == old(conts) && forall j :: 0 <= j < i ==> conts[j].name != c
      {
        if conts[i].name == c {
          conts := conts[i := Entry(conts[i].name, false)];
          return Some(i);
        }
      }
      return None;
    }

    /** Storage has opened or closed a container; `w` is storage afterwards. */
    method ContainerChange(c: Name, starting: bool, ghost before: World, w: World, turns: seq<Turn>, store: Store)
      returns (threw: bool)
      requires alive && Bounded(store) && Follows(conts, container, queued, before)
      requires Valid(w) && Listed(w, store)
      requires if starting then c !in before.started && w == Start(before, c)
               else c in before.open && w == Close(before, c)
      modifies this`conts, this`container, this`files, this`fd, this`updates, this`queued, this`gone,
               this`sent, this`sendPausedData, this`alive, this`waiting
      // What it queues, and whether it goes on to send.
      ensures old(queued) <= queued && AllWithin(queued[|old(queued)|..], store)
      ensures Fit(QueueAll(old(Out()), queued[|old(queued)|..], store), store)
      ensures var added := QueueAll(old(Out()), queued[|old(queued)|..], store);
              if !starting && |old(conts)| > 1 && old(conts)[0].name == c && !threw
              then StandsAt(Serve(added, old(waiting), Settings(), old(sendPausedData), turns, store))
              else Out() == added && alive && waiting == old(waiting) && sendPausedData == old(sendPausedData)
      ensures Bounded(store)
      ensures starting ==> !threw
      ensures !starting ==> ListedNames(old(conts), w) && threw == Stuck(old(conts), w, c)
      ensures !threw ==> Follows(conts, container, queued, w)
      ensures !threw && old(!waiting ==> CaughtUp(store)) && alive && !waiting ==> CaughtUp(store)
      ensures Faithful(old(Out()), store) && !old(SkipsOpenFile(turns, store)) ==> Faithful(Out(), store)
      ensures sendPausedData ==> TurnsOn(old(sendPausedData), turns)
      ensures Smooth(turns) ==> alive
      ensures Faithful(old(Out()), store) && !old(SkipsOpenFile(turns, store)) && old(OpenIsWanted(store)) && alive
              ==> OpenIsWanted(store)
    {
      hide Faithful, AllWithin, CaughtUp, Follows, Between, Listed, Valid, QueueAll, Serve;
      NothingPushed(Out(), store);
      assert queued[|queued|..] == [];
      ghost var listed, queuedBefore := conts, queued;
      threw := false;
      if starting {
        FollowsStart(listed, container, queued, before, c);
        conts := conts + [Entry(c, true)];
        if container.None? {
          container := Some(c);
        }
      } else {
        FollowsNames(listed, container, queued, before, w);
        ghost var at := OpenIsFollowed(listed, container, queued, before, c);
        var found := MarkClosed(c);
        if found == Some(0) {
          FollowsFrontClose(listed, container, queued, before);
          container := None;
          conts := conts[1..];
          assert conts == listed[1..];
          if conts != [] {
            if Faithful(old(Out()), store) && fd.Some? {
              DescriptorIsFront(old(Out()), store);
            }
            threw := NextContainers(w, store);
            if !threw {
              SendIfIdle(turns, store);
            }
          } else {
            BetweenAll(queued, w);
          }
        } else {
          FollowsLaterClose(listed, container, queued, before, at);
        }
      }
    }

    /** One file of the history; `off` says that an open pause file is to be skipped. */
    method GreetFile(f: Pending, turns: seq<Turn>, ghost wanted: bool, store: Store) returns (off: bool)
      requires alive && Within(f, store) && Bounded(store) && (sendPausedData ==> wanted)
      modifies this`files, this`fd, this`updates, this`queued, this`gone, this`sent, this`sendPausedData,
               this`alive, this`waiting
      ensures Bounded(store) && queued == old(queued) + [f]
      ensures Fit(Queue(old(Out()), f, store), store)
      ensures StandsAt(Serve(Queue(old(Out()), f, store), old(waiting), Settings(), old(sendPausedData), turns, store))
      ensures old(OpenIsWanted(store)) && (sendPausedFlag || noPausedFlag || Steady(wanted, turns)) ==> !off
      ensures Faithful(old(Out()), store) && !off ==> Faithful(Out(), store)
      ensures Faithful(old(Out()), store) && !off && old(OpenIsWanted(store)) && alive ==> OpenIsWanted(store)
    {
      hide Faithful, Serve, Queue, TurnsOn, Steady, Smooth, Subscribed, AllWithin, LiveClient.SkipsOpenFile,
           LiveClient.OpenIsWanted, LiveClient.StandsAt, LiveClient.CaughtUp;
      if OpenIsWanted(store) && (sendPausedFlag || noPausedFlag || Steady(wanted, turns)) {
        NeverSkipsOpenFile(turns, wanted, store);
      }
      off := SkipsOpenFile(turns, store);
      HistoricalFile(f, turns, store);
    }

    /** Every file of the history asked for is queued and served in turn. */
    method GreetHistory(history: seq<Pending>, turns: seq<seq<Turn>>, store: Store) returns (stale: bool)
      requires alive && AllWithin(history, store)
      requires Out() == Sender([], None, None, [], [], []) && conts == [] && container == None
      modifies this`files, this`fd, this`updates, this`queued, this`gone, this`sent, this`sendPausedData,
               this`alive, this`waiting
      ensures Bounded(store) && (alive ==> queued == history)
      ensures StandsAt(Greets(old(Out()), old(waiting), Settings(), old(sendPausedData), history, turns, store))
      ensures !stale ==> Faithful(Out(), store) && (alive ==> OpenIsWanted(store))
      ensures sendPausedFlag || noPausedFlag || SteadyAll(old(sendPausedData), turns) ==> !stale
    {
      hide Faithful, SkipsOpenFile, CaughtUp, Steady, SteadyAll, TurnsOn, OpenIsWanted, WantedAfter, Smooth, Cut, Serve,
           Greets, Fit, AllWithin, Queue, LiveClient.Bounded;
      stale := false;
      ghost var s, waits, wanted := Out(), waiting, sendPausedData;
      NothingOpened(store);
      NothingIsFaithful(store);
      GreetsNone(s, waits, Settings(), wanted, history, turns, store);
      for i := 0 to |history|
        invariant alive && Bounded(store)
        invariant queued == history[..i] && AllWithin(history[..i], store)
        invariant StandsAt(Greets(s, waits, Settings(), wanted, history[..i], turns, store))
        invariant !stale ==> Faithful(Out(), store) && OpenIsWanted(store)
        invariant sendPausedFlag || noPausedFlag || SteadyAll(wanted, turns) ==> !stale
      {
        var ts := if i < |turns| then turns[i] else [];
        GreetsWants(s, waits, Settings(), wanted, history, i, turns, store);
        TurnsOfHello(wanted, turns, i);
        GreetsNext(s, waits, Settings(), wanted, history, i, turns, store);
        var off := GreetFile(history[i], ts, WantedAfter(wanted, Cut(turns, i)), store);
        stale := stale || off;
        if !alive {
          GreetsEnds(s, waits, Settings(), wanted, history, i + 1, turns, store);
          return;
        }
      }
      assert history[..|history|] == history;
    }

    /** The client's hello: queue the history asked for, then follow the current
        container, and wait for room in the socket. */
    method Hello(history: seq<Pending>, current: Option<Name>, turns: seq<seq<Turn>>, store: Store)
      returns (stale: bool)
      requires alive && AllWithin(history, store)
      requires Out() == Sender([], None, None, [], [], []) && conts == [] && container == None
      modifies this
      ensures Bounded(store)
      ensures var (sender, wanted, round) :=
                Greets(old(Out()), old(waiting), Settings(), old(sendPausedData), history, turns, store);
              Out() == sender && sendPausedData == wanted && (alive <==> round != Dead)
      ensures alive ==> waiting && Follows(conts, container, queued, Greeted(history, current))
      ensures !stale ==> Faithful(Out(), store) && (alive ==> OpenIsWanted(store))
      ensures sendPausedData ==> WantedAfter(old(sendPausedData), turns)
      ensures sendPausedFlag || noPausedFlag || SteadyAll(old(sendPausedData), turns) ==> !stale
      ensures (forall i :: 0 <= i < |turns| ==> Smooth(turns[i])) ==> alive
    {
      hide Faithful, Follows, CaughtUp, SteadyAll, OpenIsWanted, WantedAfter, Smooth, Valid, Lists, Reached, Greeted,
           Greets, AllWithin, Subscribed;
      assert history[..|history|] == history;
      NothingOpened(store);
      GreetsWants(Out(), waiting, Settings(), sendPausedData, history, |history|, turns, store);
      stale := GreetHistory(history, turns, store);
      if !alive {
        return;
      }
      if current.Some? {
        conts := conts + [Entry(current.value, true)];
        if container.None? {
          container := current;
        }
      }
      assert container == current;
      assert conts == if current.Some? then [Entry(current.value, true)] else [];
      FollowsGreeting(history, current);
      waiting := true;
    }

    lemma NothingOpened(store: Store)
      requires files == [] && updates.None? && fd.None?
      ensures Bounded(store) && OpenIsWanted(store) && Fit(Out(), store)
    {
    }

    lemma EmptyIsCaughtUp(store: Store)
      requires Bounded(store) && files == []
      ensures CaughtUp(store)
    {
    }
  }

  lemma OneWithin(p: Pending, store: Store)
    requires Within(p, store)
    ensures AllWithin([p], store)
  {
  }

  lemma NothingPushed(s: Sender, store: Store)
    ensures Whole([]) == [] && AllWithin([], store) && QueueAll(s, [], store) == s
  {
    QueueAllOn(s, [], [], store);
  }

  lemma FrontWithin(files: seq<Pending>, store: Store)
    requires files != [] && AllWithin(files, store)
    ensures Within(files[0], store)
  {
  }
}
