/** The values a live client works on: stored files, the queue of files it still
    has to send, and what it has written to its socket so far. */
module LiveFiles {
  import opened Words
  import opened Options

  type FileId = nat

  /** A data file in storage. Only an active file grows. */
  datatype StoredFile = StoredFile(content: seq<Byte>, active: bool, paused: bool)

  type Store = map<FileId, StoredFile>

  /** A file waiting to be sent, from an offset on. */
  datatype Pending = Pending(file: FileId, offset: nat)

  /** How a queued file left the queue. */
  datatype Ending = Finished | Skipped

  /** What one client holds for sending. The queue `files`, the descriptor `fd`
      and the update subscription are the client's own fields; `queued`, `gone`
      and `sent` record every file ever queued, how each left, and every byte
      written to the socket. */
  datatype Sender = Sender(
    files: seq<Pending>,
    fd: Option<FileId>,
    updates: Option<FileId>,
    queued: seq<Pending>,
    gone: seq<Ending>,
    sent: seq<Byte>)

  predicate Within(p: Pending, store: Store) {
    p.file in store && p.offset <= |store[p.file].content|
  }

  predicate AllWithin(ps: seq<Pending>, store: Store) {
    forall i :: 0 <= i < |ps| ==> Within(ps[i], store)
  }

  /** The bytes owed for a file that left the queue: all of them from its
      starting offset, or none when it was skipped. */
  function Due(p: Pending, ending: Ending, store: Store): seq<Byte>
    requires Within(p, store)
  {
    if ending == Skipped then [] else store[p.file].content[p.offset..]
  }

  /** The bytes owed for all files that left the queue, in queueing order. */
  function Transcript(queued: seq<Pending>, gone: seq<Ending>, store: Store): seq<Byte>
    requires |queued| == |gone| && AllWithin(queued, store)
  {
    if gone == [] then []
    else
      var n := |gone| - 1;
      Transcript(queued[..n], gone[..n], store) + Due(queued[n], gone[n], store)
  }

  /** The bytes of the front file written so far. */
  function Partial(s: Sender, store: Store): seq<Byte>
    requires |s.gone| < |s.queued| && s.files != []
    requires Within(s.files[0], store) && s.queued[|s.gone|].offset <= s.files[0].offset
  {
    store[s.files[0].file].content[s.queued[|s.gone|].offset..s.files[0].offset]
  }

  /** The queue is what is left of everything queued, first in first out; only
      the front file can be partly sent. */
  ghost predicate FirstInFirstOut(s: Sender) {
    && |s.gone| + |s.files| == |s.queued|
    && (forall i :: 0 < i < |s.files| ==> s.files[i] == s.queued[|s.gone| + i])
    && (s.files != [] ==>
          && s.files[0].file == s.queued[|s.gone|].file
          && s.queued[|s.gone|].offset <= s.files[0].offset)
  }

  /** A finished file will never grow; a skipped one is a pause file of which
      nothing was sent. */
  predicate EndedRightly(p: Pending, ending: Ending, store: Store)
    requires Within(p, store)
  {
    match ending
    case Finished => !store[p.file].active
    case Skipped => store[p.file].paused && p.offset == 0
  }

  /** The update subscription belongs to the front file, and an active front file
      is subscribed to. */
  predicate Subscribed(files: seq<Pending>, updates: Option<FileId>, store: Store)
    requires AllWithin(files, store)
  {
    && (updates.Some? ==> files != [] && updates.value == files[0].file)
    && (files != [] && store[files[0].file].active ==> updates.Some?)
  }

  /** The queue is in order and each file that left it did so rightly. */
  ghost predicate InOrder(s: Sender, store: Store) {
    && AllWithin(s.queued, store)
    && AllWithin(s.files, store)
    && FirstInFirstOut(s)
    && (forall i :: 0 <= i < |s.gone| ==> EndedRightly(s.queued[i], s.gone[i], store))
    && Subscribed(s.files, s.updates, store)
    && (s.fd.Some? ==> s.files != [] && s.fd.value == s.files[0].file)
  }

  /** What the queued files owe, up to the current position in the front file. */
  ghost function Owed(s: Sender, store: Store): seq<Byte>
    requires InOrder(s, store)
  {
    Transcript(s.queued[..|s.gone|], s.gone, store) + if s.files == [] then [] else Partial(s, store)
  }

  /** Everything written to the socket is exactly what the queued files owe, in order. */
  ghost predicate Faithful(s: Sender, store: Store) {
    InOrder(s, store) && s.sent == Owed(s, store)
  }

  // ---- The changes a client makes ----

  /** Queue one more file; the first in the queue is subscribed to if active. */
  function Queue(s: Sender, p: Pending, store: Store): Sender
    requires p.file in store
  {
    s.(files := s.files + [p], queued := s.queued + [p],
       updates := if s.files == [] && s.updates.None? && store[p.file].active then Some(p.file)
                  else s.updates)
  }

  /** Take the front file off, end its subscription and subscribe to the next. */
  function Drop(s: Sender, ending: Ending, store: Store): Sender
    requires |s.files| > 1 ==> s.files[1].file in store
    requires s.files != []
  {
    s.(files := s.files[1..], gone := s.gone + [ending],
       updates := if |s.files| > 1 && store[s.files[1].file].active then Some(s.files[1].file)
                  else None)
  }

  /** Write `count` bytes through the open descriptor. */
  function Write(s: Sender, count: nat, store: Store): Sender
    requires s.files != [] && s.fd.Some? && s.fd.value in store
    requires s.files[0].offset + count <= |store[s.fd.value].content|
  {
    var from := s.files[0].offset;
    s.(files := [Pending(s.files[0].file, from + count)] + s.files[1..],
       sent := s.sent + store[s.fd.value].content[from..from + count])
  }

  lemma TranscriptStep(queued: seq<Pending>, gone: seq<Ending>, ending: Ending, store: Store)
    requires |gone| < |queued| && AllWithin(queued, store)
    ensures Transcript(queued[..|gone| + 1], gone + [ending], store)
            == Transcript(queued[..|gone|], gone, store) + Due(queued[|gone|], ending, store)
  {
    var n := |gone|;
    assert (gone + [ending])[..n] == gone && queued[..n + 1][..n] == queued[..n];
  }

  lemma NothingIsFaithful(store: Store)
    ensures Faithful(Sender([], None, None, [], [], []), store)
  {
  }

  lemma QueueKeepsFaithful(s: Sender, p: Pending, store: Store)
    requires Faithful(s, store) && Within(p, store)
    ensures Faithful(Queue(s, p, store), store)
  {
    hide Transcript;
    var t := Queue(s, p, store);
    assert t.queued[..|t.gone|] == s.queued[..|s.gone|];
    if s.files == [] {
      assert Partial(t, store) == [];
    } else {
      assert Partial(t, store) == Partial(s, store);
    }
  }

  lemma DropKeepsOrder(s: Sender, ending: Ending, store: Store)
    requires InOrder(s, store) && s.files != [] && s.fd.None?
    requires EndedRightly(s.queued[|s.gone|], ending, store)
    ensures InOrder(Drop(s, ending, store), store)
  {
  }

  lemma DropOwes(s: Sender, ending: Ending, store: Store)
    requires InOrder(s, store) && s.files != [] && InOrder(Drop(s, ending, store), store)
    requires Partial(s, store) == Due(s.queued[|s.gone|], ending, store)
    ensures Owed(Drop(s, ending, store), store) == Owed(s, store)
  {
    var t := Drop(s, ending, store);
    hide InOrder, AllWithin, Subscribed, EndedRightly, Transcript, Due;
    DropFacts(s, store);
    DropFacts(t, store);
    TranscriptStep(s.queued, s.gone, ending, store);
    if t.files != [] {
      NothingOfNext(s, ending, store);
    }
  }

  lemma NothingOfNext(s: Sender, ending: Ending, store: Store)
    requires |s.files| > 1 && AllWithin(s.files, store) && FirstInFirstOut(s)
    ensures var t := Drop(s, ending, store);
            t.files[0] == t.queued[|t.gone|] && Within(t.files[0], store) && Partial(t, store) == []
  {
    assert s.files[1] == s.queued[|s.gone| + 1] && Within(s.files[1], store);
  }

  lemma DropFacts(s: Sender, store: Store)
    requires InOrder(s, store)
    ensures AllWithin(s.queued, store) && AllWithin(s.files, store) && FirstInFirstOut(s)
  {
  }

  lemma FinishKeepsFaithful(s: Sender, store: Store)
    requires Faithful(s, store) && s.files != []
    requires !store[s.files[0].file].active && s.files[0].offset == |store[s.files[0].file].content|
    ensures Faithful(Drop(s.(fd := None), Finished, store), store)
  {
    hide Transcript;
    DropKeepsOrder(s.(fd := None), Finished, store);
    DropOwes(s.(fd := None), Finished, store);
  }

  /** A pause file can be skipped safely when no descriptor is open. */
  lemma SkipKeepsFaithful(s: Sender, store: Store)
    requires Faithful(s, store) && s.files != [] && s.fd.None?
    requires store[s.files[0].file].paused && s.files[0].offset == 0
    ensures Faithful(Drop(s, Skipped, store), store)
  {
    hide Transcript;
    DropKeepsOrder(s, Skipped, store);
    DropOwes(s, Skipped, store);
  }

  /** Skipping it with its descriptor open always breaks the client's account of
      what it sends. */
  lemma SkipWithOpenDescriptor(s: Sender, store: Store)
    requires Faithful(s, store) && s.files != [] && s.fd.Some?
    requires |s.files| > 1 ==> s.files[1].file != s.files[0].file
    ensures !Faithful(Drop(s, Skipped, store), store)
  {
  }

  /** How that shows: an opened pause file is skipped, and the bytes of the file
      behind it are then read from the pause file. */
  lemma SkippedFileIsSent() returns (s: Sender, t: Sender, store: Store)
    ensures store == map[1 := StoredFile([10, 11], true, true), 2 := StoredFile([20, 21], false, false)]
    ensures Faithful(s, store) && s.files == [Pending(1, 0), Pending(2, 0)] && s.fd == Some(1)
    ensures t == Write(Drop(s, Skipped, store), 2, store)
    ensures t.files == [Pending(2, 2)] && t.sent == [10, 11]
  {
    store := map[1 := StoredFile([10, 11], true, true), 2 := StoredFile([20, 21], false, false)];
    s := Sender([Pending(1, 0), Pending(2, 0)], Some(1), Some(1), [Pending(1, 0), Pending(2, 0)], [], []);
    t := Write(Drop(s, Skipped, store), 2, store);
  }

  lemma OpenKeepsFaithful(s: Sender, store: Store)
    requires Faithful(s, store) && s.files != []
    ensures Faithful(s.(fd := Some(s.files[0].file)), store)
  {
  }

  lemma UnsubscribeKeepsFaithful(s: Sender, store: Store)
    requires Faithful(s, store) && s.files != [] && !store[s.files[0].file].active
    ensures Faithful(s.(updates := None), store)
  {
  }

  /** A faithful sender with an open descriptor reads the front file through it. */
  lemma DescriptorIsFront(s: Sender, store: Store)
    requires Faithful(s, store) && s.fd.Some?
    ensures s.files != [] && s.fd.value == s.files[0].file
  {
  }

  lemma WriteKeepsFaithful(s: Sender, count: nat, store: Store)
    requires Faithful(s, store) && s.files != [] && s.fd.Some?
    requires s.files[0].offset + count <= |store[s.fd.value].content|
    ensures Faithful(Write(s, count, store), store)
  {
    hide Transcript;
    var t := Write(s, count, store);
    assert Partial(t, store) == Partial(s, store) + store[s.fd.value].content[s.files[0].offset..s.files[0].offset + count];
  }

  // ---- Storage moving on ----

  /** Files only appear, grow while active, and become inactive for good. */
  ghost predicate Extends(later: Store, store: Store) {
    forall f :: f in store ==>
      && f in later
      && later[f].paused == store[f].paused
      && store[f].content <= later[f].content
      && (!store[f].active ==> later[f] == store[f])
  }

  lemma WithinLater(ps: seq<Pending>, store: Store, later: Store)
    requires AllWithin(ps, store) && Extends(later, store)
    ensures AllWithin(ps, later)
  {
  }

  /** What was owed for files that left the queue stays the same. */
  lemma {:induction false} TranscriptStays(queued: seq<Pending>, gone: seq<Ending>, store: Store, later: Store)
    requires |queued| == |gone| && AllWithin(queued, store) && AllWithin(queued, later)
    requires Extends(later, store)
    requires forall i :: 0 <= i < |gone| ==> EndedRightly(queued[i], gone[i], store)
    ensures Transcript(queued, gone, later) == Transcript(queued, gone, store)
  {
    if gone != [] {
      var n := |gone| - 1;
      TranscriptStays(queued[..n], gone[..n], store, later);
      assert EndedRightly(queued[n], gone[n], store);
    }
  }

  /** Storage may change under the client as long as the active front file stays
      subscribed to. */
  lemma StorageKeepsFaithful(s: Sender, store: Store, later: Store)
    requires Faithful(s, store) && Extends(later, store)
    ensures Faithful(s, later)
  {
    hide Transcript;
    WithinLater(s.queued, store, later);
    WithinLater(s.files, store, later);
    var n := |s.gone|;
    assert AllWithin(s.queued[..n], store) && AllWithin(s.queued[..n], later);
    forall i | 0 <= i < n ensures EndedRightly(s.queued[i], s.gone[i], later) {
      assert EndedRightly(s.queued[i], s.gone[i], store);
    }
    TranscriptStays(s.queued[..n], s.gone, store, later);
    if s.files != [] {
      assert Within(s.files[0], store);
      assert store[s.files[0].file].content <= later[s.files[0].file].content;
      assert Partial(s, later) == Partial(s, store);
    }
  }
}
