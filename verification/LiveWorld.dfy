/** Which containers storage has announced to a client, and which files it has put in them. */
module LiveWorld {
  import opened LiveFiles
  import opened Options

  type Name = nat

  /** A container on a client's list, and whether it was still open when last heard of. */
  datatype Entry = Entry(name: Name, starting: bool)

  /** Storage as seen since the client's hello: what was queued from history, the
      containers announced, in order, the ones still open, and the files added to each. */
  datatype World = World(
    history: seq<Pending>, started: seq<Name>, open: set<Name>, added: map<Name, seq<FileId>>)

  ghost predicate Valid(w: World) {
    && (forall i, j :: 0 <= i < j < |w.started| ==> w.started[i] != w.started[j])
    && (forall c :: c in w.added <==> c in w.started)
    && (forall c :: c in w.open ==> c in w.started)
  }

  /** A whole container's files, each to be sent from its start. */
  function Whole(files: seq<FileId>): seq<Pending> {
    seq(|files|, i requires 0 <= i < |files| => Pending(files[i], 0))
  }

  /** The files of the first `k` containers, container by container. */
  function Reached(w: World, k: nat): seq<Pending>
    requires k <= |w.started| && forall c :: c in w.started ==> c in w.added
  {
    if k == 0 then w.history else Reached(w, k - 1) + Whole(w.added[w.started[k - 1]])
  }

  function Start(w: World, c: Name): World {
    w.(started := w.started + [c], open := w.open + {c}, added := w.added[c := []])
  }

  function AddFile(w: World, c: Name, f: FileId): World
    requires c in w.added
  {
    w.(added := w.added[c := w.added[c] + [f]])
  }

  function Close(w: World, c: Name): World {
    w.(open := w.open - {c})
  }

  /** Closing container `c` will stop at a closed container without files. */
  predicate Stuck(conts: seq<Entry>, w: World, c: Name)
    requires ListedNames(conts, w)
  {
    conts != [] && conts[0].name == c && Blocked(conts[1..], w)
  }

  predicate ListedNames(conts: seq<Entry>, w: World) {
    forall i :: 0 <= i < |conts| ==> conts[i].name in w.added
  }

  /** Going on to the next open container stops at a closed one without files. */
  predicate Blocked(conts: seq<Entry>, w: World)
    requires ListedNames(conts, w)
  {
    conts != [] && conts[0].name !in w.open
    && (w.added[conts[0].name] == [] || Blocked(conts[1..], w))
  }

  /** Closing container `c` strands a client, said of storage alone: `c` is the first open
      container, and going on from it meets a closed one without files before an open one. */
  ghost predicate Strands(w: World, c: Name) {
    exists i, j :: StrandsAt(w, c, i, j)
  }

  predicate StrandsAt(w: World, c: Name, i: nat, j: nat) {
    && i < j < |w.started| && w.started[i] == c
    && (forall k :: 0 <= k <= j && k != i ==> w.started[k] !in w.open)
    && w.started[j] in w.added && w.added[w.started[j]] == []
  }

  predicate BlockedBy(conts: seq<Entry>, w: World, m: nat)
    requires ListedNames(conts, w)
  {
    && m < |conts| && w.added[conts[m].name] == []
    && forall k :: 0 <= k <= m ==> conts[k].name !in w.open
  }

  lemma {:induction false} BlockedMeans(conts: seq<Entry>, w: World)
    requires ListedNames(conts, w)
    ensures Blocked(conts, w) <==> exists m :: BlockedBy(conts, w, m)
  {
    if conts != [] && conts[0].name !in w.open {
      var rest := conts[1..];
      BlockedMeans(rest, w);
      if Blocked(rest, w) {
        var m: nat :| BlockedBy(rest, w, m);
        assert forall k :: 0 < k <= m + 1 ==> conts[k] == rest[k - 1];
        assert BlockedBy(conts, w, m + 1);
      } else if w.added[conts[0].name] == [] {
        assert BlockedBy(conts, w, 0);
      }
      if m: nat :| BlockedBy(conts, w, m) && m > 0 {
        assert forall k :: 0 <= k < m ==> rest[k] == conts[k + 1];
        assert BlockedBy(rest, w, m - 1);
      }
    }
  }

  /** The list's front is the first open container, number `k`. */
  ghost predicate Fronts(conts: seq<Entry>, w: World, k: nat) {
    && conts != [] && k + |conts| == |w.started| && w.started[k] in w.open
    && (forall i, j :: 0 <= i < j < |w.started| ==> w.started[i] != w.started[j])
    && (forall i :: 0 <= i < k ==> w.started[i] !in w.open)
    && (forall i :: 0 <= i < |conts| ==> conts[i].name == w.started[k + i])
  }

  lemma FollowsFronts(conts: seq<Entry>, container: Option<Name>, queued: seq<Pending>, w: World, c: Name)
    requires Follows(conts, container, queued, w) && c in w.open
    ensures c in w.started && |conts| <= |w.started| && Fronts(conts, w, |w.started| - |conts|)
  {
    hide Reached;
    var n: nat :| n < |w.started| && w.started[n] == c;
  }

  lemma StuckStrands(conts: seq<Entry>, w: World, c: Name, k: nat, m: nat)
    requires Fronts(conts, w, k) && conts[0].name == c && ListedNames(conts[1..], Close(w, c))
    requires BlockedBy(conts[1..], Close(w, c), m)
    ensures StrandsAt(w, c, k, k + 1 + m)
  {
    forall x | 0 <= x <= k + 1 + m && x != k
      ensures w.started[x] !in w.open
    {
      if x > k {
        assert conts[1..][x - k - 1].name == w.started[x] != c;
      }
    }
  }

  lemma StrandsStuck(conts: seq<Entry>, w: World, c: Name, k: nat, i: nat, j: nat)
    requires Fronts(conts, w, k) && c in w.open && ListedNames(conts[1..], Close(w, c)) && StrandsAt(w, c, i, j)
    ensures i == k < j && conts[0].name == c && BlockedBy(conts[1..], Close(w, c), j - k - 1)
  {
    assert forall m :: 0 <= m <= j - k - 1 ==> conts[1..][m].name == w.started[k + 1 + m];
  }

  /** What a client's list says of its next close is what storage says. */
  lemma StuckIsStranded(conts: seq<Entry>, container: Option<Name>, queued: seq<Pending>, w: World, c: Name)
    requires Follows(conts, container, queued, w) && c in w.open
    ensures ListedNames(conts, Close(w, c))
    ensures Stuck(conts, Close(w, c), c) <==> Strands(w, c)
  {
    hide Reached, Blocked, BlockedBy, StrandsAt, Fronts;
    FollowsNames(conts, container, queued, w, Close(w, c));
    FollowsFronts(conts, container, queued, w, c);
    hide Follows;
    var k := |w.started| - |conts|;
    assert conts != [] by { FrontsSome(conts, w, k); }
    assert ListedNames(conts[1..], Close(w, c));
    BlockedMeans(conts[1..], Close(w, c));
    if Stuck(conts, Close(w, c), c) {
      var m: nat :| BlockedBy(conts[1..], Close(w, c), m);
      StuckStrands(conts, w, c, k, m);
    }
    if Strands(w, c) {
      var i: nat, j: nat :| StrandsAt(w, c, i, j);
      StrandsStuck(conts, w, c, k, i, j);
    }
  }

  lemma FrontsSome(conts: seq<Entry>, w: World, k: nat)
    requires Fronts(conts, w, k)
    ensures conts != []
  {
  }

  /** Every container that was closed had got a file before; then no close strands a client. */
  ghost predicate NoneEmpty(w: World) {
    forall c :: c in w.added && c in w.started && c !in w.open ==> w.added[c] != []
  }

  lemma NoneEmptyNeverStrands(w: World, c: Name)
    requires Valid(w) && NoneEmpty(w)
    ensures !Strands(w, c)
  {
  }

  /** A container that is closed before its first file stops the client for good once
      the container ahead of it closes. */
  lemma EmptyContainerStops()
    ensures var w := World([], [1, 2], {1, 2}, map[1 := [7], 2 := []]);
            && !Strands(w, 1) && Strands(Close(w, 2), 1)
            && Stuck([Entry(1, false), Entry(2, false)], Close(w, 2), 1)
            && !Stuck([Entry(1, false), Entry(2, true)], w, 1)
  {
    var w := World([], [1, 2], {1, 2}, map[1 := [7], 2 := []]);
    assert StrandsAt(Close(w, 2), 1, 0, 1);
    assert w.started[1] in w.open;
  }

  lemma {:induction false} ReachedLater(w: World, later: World, k: nat)
    requires k <= |w.started| <= |later.started| && Valid(w) && Valid(later)
    requires later.history == w.history
    requires forall i :: 0 <= i < k ==> later.started[i] == w.started[i]
                                        && later.added[w.started[i]] == w.added[w.started[i]]
    ensures Reached(later, k) == Reached(w, k)
  {
    if k > 0 {
      ReachedLater(w, later, k - 1);
    }
  }

  /** A file added to a container is the last of that container's files, and
      changes nothing for the containers before it. */
  lemma ReachedAddFile(w: World, k: nat, f: FileId)
    requires k < |w.started| && Valid(w)
    ensures Reached(AddFile(w, w.started[k], f), k + 1) == Reached(w, k + 1) + [Pending(f, 0)]
  {
    var later := AddFile(w, w.started[k], f);
    ReachedLater(w, later, k);
    WholeAppend(w.added[w.started[k]], f);
    hide Whole;
  }

  lemma WholeAppend(files: seq<FileId>, f: FileId)
    ensures Whole(files + [f]) == Whole(files) + [Pending(f, 0)]
  {
  }

  lemma ReachedStart(w: World, c: Name, k: nat)
    requires k <= |w.started| && Valid(w) && c !in w.started
    ensures Reached(Start(w, c), k) == Reached(w, k)
    ensures Reached(Start(w, c), |w.started| + 1) == Reached(w, |w.started|)
  {
    StartIsValid(w, c);
    ReachedLater(w, Start(w, c), k);
    ReachedLater(w, Start(w, c), |w.started|);
    hide Valid;
    assert Whole([]) == [];
  }

  // ---- Where a client stands ----

  /** The client's list is the containers announced from number `k` on, each with
      its present state, and all containers before them are closed. */
  ghost predicate Lists(conts: seq<Entry>, w: World, k: nat) {
    && k + |conts| == |w.started|
    && (forall i :: 0 <= i < k ==> w.started[i] !in w.open)
    && (forall i :: 0 <= i < |conts| ==>
          conts[i] == Entry(w.started[k + i], w.started[k + i] in w.open))
  }

  /** The client listens to the open container at the front of its list, exactly
      when the list is not empty, and has queued exactly the files of the
      containers it has reached, in the order the containers started. */
  ghost predicate Follows(conts: seq<Entry>, container: Option<Name>, queued: seq<Pending>, w: World) {
    && Valid(w)
    && |conts| <= |w.started|
    && Lists(conts, w, |w.started| - |conts|)
    && if conts == [] then
         container == None && queued == Reached(w, |w.started|)
       else
         && container == Some(conts[0].name) && conts[0].starting
         && queued == Reached(w, |w.started| - |conts| + 1)
  }

  /** Storage as a client first sees it. */
  function Greeted(history: seq<Pending>, current: Option<Name>): World {
    match current
    case None => World(history, [], {}, map[])
    case Some(c) => World(history, [c], {c}, map[c := []])
  }

  lemma FollowsGreeting(history: seq<Pending>, current: Option<Name>)
    ensures Valid(Greeted(history, current))
    ensures Follows(if current.Some? then [Entry(current.value, true)] else [], current, history, Greeted(history, current))
  {
  }

  lemma FollowsStart(conts: seq<Entry>, container: Option<Name>, queued: seq<Pending>, w: World, c: Name)
    requires Follows(conts, container, queued, w) && c !in w.started
    ensures Valid(Start(w, c))
    ensures Follows(conts + [Entry(c, true)], if container.None? then Some(c) else container, queued, Start(w, c))
  {
    hide Reached;
    var k := |w.started| - |conts|;
    ReachedStart(w, c, if conts == [] then k else k + 1);
    StartIsValid(w, c);
    hide Valid;
  }

  lemma StartIsValid(w: World, c: Name)
    requires Valid(w) && c !in w.started
    ensures Valid(Start(w, c))
  {
  }

  /** Only files of the container listened to are queued when they are added. */
  lemma FollowsAddFile(conts: seq<Entry>, container: Option<Name>, queued: seq<Pending>, w: World,
                       c: Name, f: FileId)
    requires Follows(conts, container, queued, w) && c in w.open
    ensures Valid(AddFile(w, c, f))
    ensures Follows(conts, container, if container == Some(c) then queued + [Pending(f, 0)] else queued, AddFile(w, c, f))
  {
    hide Reached;
    var k := |w.started| - |conts|;
    if container == Some(c) {
      ReachedAddFile(w, k, f);
    } else {
      ReachedLater(w, AddFile(w, c, f), if conts == [] then k else k + 1);
    }
  }

  /** Closing a container that is not at the front only marks it. */
  lemma FollowsLaterClose(conts: seq<Entry>, container: Option<Name>, queued: seq<Pending>, w: World, i: nat)
    requires Follows(conts, container, queued, w)
    requires 0 < i < |conts|
    ensures Follows(conts[i := Entry(conts[i].name, false)], container, queued, Close(w, conts[i].name))
  {
    hide Reached;
    var k := |w.started| - |conts|;
    ReachedLater(w, Close(w, conts[i].name), k + 1);
  }

  /** Between containers: the one listened to was closed and taken off the list, all
      before those listed are closed and queued, and the client listens to none. */
  ghost predicate Between(conts: seq<Entry>, container: Option<Name>, queued: seq<Pending>, w: World) {
    && Valid(w)
    && |conts| <= |w.started|
    && Lists(conts, w, |w.started| - |conts|)
    && container == None
    && queued == Reached(w, |w.started| - |conts|)
  }

  /** Closing the front container leaves the client between containers. */
  lemma FollowsFrontClose(conts: seq<Entry>, container: Option<Name>, queued: seq<Pending>, w: World)
    requires Follows(conts, container, queued, w) && conts != []
    ensures Between(conts[1..], None, queued, Close(w, conts[0].name))
  {
    hide Reached;
    var k := |w.started| - |conts|;
    ReachedLater(w, Close(w, conts[0].name), k + 1);
  }

  /** With no container left the client waits for the next start. */
  lemma BetweenAll(queued: seq<Pending>, w: World)
    requires Between([], None, queued, w)
    ensures Follows([], None, queued, w)
  {
  }

  lemma BetweenListensToNone(conts: seq<Entry>, container: Option<Name>, queued: seq<Pending>, w: World)
    requires Between(conts, container, queued, w)
    ensures container == None
  {
  }

  lemma BetweenNames(conts: seq<Entry>, queued: seq<Pending>, w: World)
    requires Between(conts, None, queued, w)
    ensures ListedNames(conts, w)
    ensures forall i :: 0 <= i < |conts| ==> conts[i].starting == (conts[i].name in w.open)
  {
  }

  /** An open container is listened to once its files are queued. */
  lemma BetweenOpen(conts: seq<Entry>, queued: seq<Pending>, w: World)
    requires Between(conts, None, queued, w) && conts != [] && conts[0].starting
    ensures conts[0].name in w.added
    ensures Follows(conts, Some(conts[0].name), queued + Whole(w.added[conts[0].name]), w)
  {
  }

  /** A closed container is done with once its files are queued. */
  lemma BetweenClosed(conts: seq<Entry>, queued: seq<Pending>, w: World)
    requires Between(conts, None, queued, w) && conts != [] && !conts[0].starting
    ensures conts[0].name in w.added
    ensures Between(conts[1..], None, queued + Whole(w.added[conts[0].name]), w)
  {
    ReachedNext(w, |w.started| - |conts|);
    hide Reached, Whole;
  }

  lemma ReachedNext(w: World, k: nat)
    requires Valid(w) && k < |w.started|
    ensures Reached(w, k + 1) == Reached(w, k) + Whole(w.added[w.started[k]])
  {
  }

  /** Every file that storage added exists. */
  ghost predicate Listed(w: World, store: Store) {
    forall c, i :: c in w.added && 0 <= i < |w.added[c]| ==> w.added[c][i] in store
  }

  lemma ListedInStore(w: World, store: Store, c: Name)
    requires Listed(w, store) && c in w.added
    ensures forall i :: 0 <= i < |w.added[c]| ==> w.added[c][i] in store
  {
  }

  lemma FollowsNames(conts: seq<Entry>, container: Option<Name>, queued: seq<Pending>, w: World, later: World)
    requires Follows(conts, container, queued, w) && later.added == w.added
    ensures ListedNames(conts, later)
  {
  }

  /** An announced container that is still open is on the client's list. */
  lemma OpenIsFollowed(conts: seq<Entry>, container: Option<Name>, queued: seq<Pending>, w: World, c: Name)
    returns (i: nat)
    requires Follows(conts, container, queued, w) && c in w.open
    ensures i < |conts| && conts[i].name == c && conts[i].starting
    ensures forall j :: 0 <= j < |conts| && conts[j].name == c ==> j == i
  {
    hide Reached;
    var n: nat :| n < |w.started| && w.started[n] == c;
    i := n - (|w.started| - |conts|);
  }

  /** Every file of a reached container is queued, once if storage never repeats a
      file, and no other file is. */
  lemma {:induction false} ReachedExactly(w: World, k: nat, f: FileId)
    requires k <= |w.started| && Valid(w)
    ensures multiset(Reached(w, k))[Pending(f, 0)] ==
            multiset(w.history)[Pending(f, 0)] + Copies(w, k, f)
  {
    if k > 0 {
      ReachedExactly(w, k - 1, f);
      WholeCopies(w.added[w.started[k - 1]], f);
    }
  }

  /** How often the first `k` containers hold a file. */
  ghost function Copies(w: World, k: nat, f: FileId): nat
    requires k <= |w.started| && forall c :: c in w.started ==> c in w.added
  {
    if k == 0 then 0 else Copies(w, k - 1, f) + multiset(w.added[w.started[k - 1]])[f]
  }

  /** No file has two places in the containers, or one there and one in the history. */
  ghost predicate NoRepeats(w: World) {
    && (forall c, d, i, j ::
          c in w.added && d in w.added && 0 <= i < |w.added[c]| && 0 <= j < |w.added[d]| ==>
            (w.added[c][i] == w.added[d][j] ==> c == d && i == j))
    && (forall h, c :: 0 <= h < |w.history| && c in w.added ==> w.history[h].file !in w.added[c])
  }

  ghost predicate HistoryStored(w: World, store: Store) {
    AllWithin(w.history, store)
  }

  lemma NewFileKeepsNoRepeats(w: World, store: Store, c: Name, f: FileId)
    requires NoRepeats(w) && HistoryStored(w, store) && Listed(w, store) && c in w.added && f !in store
    ensures NoRepeats(AddFile(w, c, f))
  {
    var later := AddFile(w, c, f);
    assert forall h :: 0 <= h < |w.history| ==> Within(w.history[h], store);
    assert forall d, i :: d in w.added && 0 <= i < |w.added[d]| ==> later.added[d][i] == w.added[d][i] != f;
  }

  lemma {:induction false} NoOtherCopy(w: World, k: nat, f: FileId)
    requires k <= |w.started| && Valid(w)
    requires forall i :: 0 <= i < k ==> f !in w.added[w.started[i]]
    ensures Copies(w, k, f) == 0
  {
    if k > 0 {
      NoOtherCopy(w, k - 1, f);
    }
  }

  lemma {:induction false} OneCopy(w: World, k: nat, n: nat, f: FileId)
    requires n < k <= |w.started| && Valid(w) && NoRepeats(w) && f in w.added[w.started[n]]
    ensures Copies(w, k, f) == 1
  {
    var files := w.added[w.started[k - 1]];
    if k - 1 == n {
      NoOtherCopy(w, n, f);
      OnceInFiles(files, f);
    } else {
      OneCopy(w, k - 1, n, f);
    }
  }

  lemma OnceInFiles(files: seq<FileId>, f: FileId)
    requires forall i, j :: 0 <= i < |files| && 0 <= j < |files| && files[i] == files[j] ==> i == j
    requires f in files
    ensures multiset(files)[f] == 1
  {
    var i :| 0 <= i < |files| && files[i] == f;
    assert files == files[..i] + [f] + files[i + 1..];
    assert f !in files[..i] && f !in files[i + 1..];
  }

  /** Every file added to a container that has been reached is queued once, from its start. */
  lemma QueuedOnce(w: World, n: nat, f: FileId)
    requires Valid(w) && NoRepeats(w) && n < |w.started| && f in w.added[w.started[n]]
    ensures forall k :: n < k <= |w.started| ==> multiset(Reached(w, k))[Pending(f, 0)] == 1
  {
    forall k | n < k <= |w.started|
      ensures multiset(Reached(w, k))[Pending(f, 0)] == 1
    {
      ReachedExactly(w, k, f);
      OneCopy(w, k, n, f);
      assert Pending(f, 0) !in w.history;
    }
  }

  lemma {:induction false} WholeCopies(files: seq<FileId>, f: FileId)
    ensures multiset(Whole(files))[Pending(f, 0)] == multiset(files)[f]
  {
    if files == [] {
    } else {
      var n := |files| - 1;
      WholeCopies(files[..n], f);
      assert files == files[..n] + [files[n]];
      WholeAppend(files[..n], files[n]);
    }
  }

  /** Everything announced exists. */
  lemma {:induction false} ReachedWithin(w: World, store: Store, k: nat)
    requires k <= |w.started| && Valid(w) && Listed(w, store) && HistoryStored(w, store)
    ensures AllWithin(Reached(w, k), store)
  {
    if k > 0 {
      ReachedWithin(w, store, k - 1);
      ListedInStore(w, store, w.started[k - 1]);
    }
  }

  /** What is reached later comes behind. */
  lemma {:induction false} ReachedGrows(w: World, k: nat, n: nat)
    requires k <= n <= |w.started| && Valid(w)
    ensures Reached(w, k) <= Reached(w, n)
  {
    if k < n {
      ReachedGrows(w, k, n - 1);
    }
  }

  lemma FollowsReached(conts: seq<Entry>, container: Option<Name>, queued: seq<Pending>, w: World)
    requires Follows(conts, container, queued, w)
    ensures queued <= Reached(w, |w.started|)
  {
    var k := |w.started| - |conts|;
    ReachedGrows(w, if conts == [] then k else k + 1, |w.started|);
    hide Reached;
  }
}
