/** Whole histories of markers: what their operations queue, said of the operations
    alone, and that all of it is said once, by the end of its run. */
module MarkerRun {
  import opened MarkerAccounts
  import opened MarkerMerge
  import opened MarkerModel
  import opened MarkerText
  import opened MarkerTrace
  import opened Options

  datatype Op =
    | Annotation(ts: Stamp, mode: PassThru, ptScan: nat, ptComment: string, pv: Option<string>)
    | SystemComment(ts: Stamp, index: nat, text: string)
    | ScanComment(ts: Stamp, mode: PassThru, ptScan: nat, ptComment: string, pv: Option<string>)
    | Notes(ts: Stamp, mode: PassThru, ptScan: nat, ptComment: string, pv: Option<string>)
    | PauseRun(ts: Stamp, mode: PassThru, ptScan: nat, ptComment: string, prologues: seq<Prologue>)
    | ResumeRun(ts: Stamp, mode: PassThru, ptScan: nat, ptComment: string, prologues: seq<Prologue>)
    | StartScan(ts: Stamp, mode: PassThru, ptScan: nat, ptComment: string, pvIndex: nat)
    | StopScan(ts: Stamp, mode: PassThru, ptScan: nat, ptComment: string)
    | NewRun(number: nat, ts: Stamp, pausedPV: bool, notesPV: Option<(string, Stamp)>, prologues: seq<Prologue>)
    | StopRun(ts: Stamp, pausedPV: bool, prologues: seq<Prologue>)
    | NewFile(p: Prologue)

  /** The announcement of a run is stamped a nanosecond after it. */
  predicate Possible(op: Op) {
    op.NewRun? ==> op.ts + 1 < NEVER
  }

  const START := RunState(false, false, false, 0, 0, false)

  /** The run state after an operation. Notes wait until a live run dumps them. */
  function After(s: RunState, op: Op): RunState {
    match op
    case Annotation(_, _, _, _, _) => s
    case SystemComment(_, _, _) => s
    case ScanComment(_, _, _, _, _) => s
    case Notes(_, _, _, _, _) => if s.Live() then s else s.(notes := true)
    case PauseRun(_, mode, _, _, _) => if mode.PassOnly? then s.(isPausedPT := true) else s.(isPaused := true)
    case ResumeRun(_, mode, _, _, ps) =>
      if mode.PassOnly? then s.(isPausedPT := false)
      else s.(isPaused := false, notes := s.notes && !(s.inRun && Dumps(ps)))
    case StartScan(_, mode, _, _, pvIndex) => if mode.Ignore? then s.(scanIndex := pvIndex) else s
    case StopScan(_, mode, _, _) => if mode.Ignore? then s.(scanIndex := 0) else s
    case NewRun(number, _, pausedPV, notesPV, ps) =>
      s.(inRun := true, isPaused := false, runNumber := number, scanIndex := 0,
         notes := if s.inRun then s.notes && !((s.isPaused || pausedPV) && Dumps(ps)) else s.notes || notesPV.Some?)
    case StopRun(_, _, _) => s.(inRun := false, isPaused := false, scanIndex := 0, notes := s.notes && !s.inRun)
    case NewFile(p) => s.(notes := s.notes && !(s.Live() && !p.captureLast))
  }

  function One(q: nat, ts: Stamp, text: string): multiset<Ticket> {
    multiset{Ticket(q, Queued(ts, text))}
  }

  /** What an operation puts on the queues: comments and scan markers outside a live run,
      pauses and resumes outside any run, and what the start of a run has to say in it. */
  function QueuedBy(s: RunState, op: Op): multiset<Ticket>
    requires Possible(op)
  {
    match op
    case Annotation(ts, mode, _, ptComment, pv) =>
      if s.Live() then multiset{} else One(ANNOTATIONS, ts, s.Label() + CommentOf(mode, ptComment, pv))
    case SystemComment(ts, _, text) =>
      if s.Live() then multiset{} else One(SYSTEMS, ts, s.Label() + text)
    case ScanComment(ts, mode, ptScan, ptComment, pv) =>
      var index := if mode.Ignore? then s.scanIndex else ptScan;
      if s.Live() then multiset{}
      else One(SCAN_COMMENTS, ts, Tagged(index, s.Label() + ScanPhrase(index) + CommentOf(mode, ptComment, pv)))
    case Notes(ts, mode, _, ptComment, pv) =>
      if s.Live() then multiset{} else One(NOTES, ts, CommentOf(mode, ptComment, pv))
    case PauseRun(ts, mode, _, ptComment, _) =>
      if s.inRun then multiset{}
      else One(PAUSES, ts, PreRun(s.RunPhrase() + PausedText(), if mode.Ignore? then "" else ptComment))
    case ResumeRun(ts, mode, _, ptComment, _) =>
      if s.inRun then multiset{}
      else One(RESUMES, ts, PreRun(s.RunPhrase() + ResumedRunText(), if mode.Ignore? then "" else ptComment))
    case StartScan(ts, mode, ptScan, _, pvIndex) =>
      var index := if mode.Ignore? then pvIndex else ptScan;
      if s.Live() then multiset{} else One(SCAN_STARTS, ts, Tagged(index, s.ScanText(index, " Started.")))
    case StopScan(ts, mode, ptScan, _) =>
      var index := if mode.Ignore? then s.scanIndex else ptScan;
      if s.Live() then multiset{} else One(SCAN_STOPS, ts, Tagged(index, s.ScanText(index, " Stopped.")))
    case NewRun(number, ts, pausedPV, notesPV, _) =>
      (if s.isPaused || pausedPV then One(RESUMES, ts, PreRun(ResumedText(), "")) else multiset{})
      + (if s.scanIndex != 0 then One(SCAN_STOPS, ts, Tagged(s.scanIndex, PreRun(HangingScanText(true), "")))
         else multiset{})
      + One(ANNOTATIONS, ts + 1, StartedText(number))
      + (if notesPV.Some? && !s.inRun && !s.notes then One(NOTES, notesPV.value.1, notesPV.value.0) else multiset{})
    case StopRun(_, _, _) => multiset{}
    case NewFile(_) => multiset{}
  }

  function StateAfter(ops: seq<Op>): RunState {
    if ops == [] then START else After(StateAfter(ops[..|ops| - 1]), ops[|ops| - 1])
  }

  function QueuedIn(ops: seq<Op>): multiset<Ticket>
    requires forall op :: op in ops ==> Possible(op)
  {
    if ops == [] then multiset{}
    else
      var init, last := ops[..|ops| - 1], ops[|ops| - 1];
      QueuedIn(init) + QueuedBy(StateAfter(init), last)
  }

  /** The trace up to a place has taken no entry more often than it was queued. */
  ghost predicate TakesOnlyQueued(trace: seq<Item>, end: nat, queued: multiset<Ticket>) {
    end <= |trace| && forall t :: TakenCount(trace[..end], t) <= queued[t]
  }

  /** Right before this end of a run, every entry has been taken as often as it was queued. */
  ghost predicate AllTaken(trace: seq<Item>, end: nat, queued: multiset<Ticket>) {
    && 0 < end <= |trace| && trace[end - 1] == RunStopped
    && forall t :: TakenCount(trace[..end - 1], t) == queued[t]
  }

  ghost function NowOf(m: Markers): RunState
    requires |m.queues| == QUEUES
    reads m
  {
    m.State(m.queues[NOTES] != [])
  }

  lemma JoinedNotes(w: Waiting, q: nat, e: Queued)
    requires |w.queues| == QUEUES && q < QUEUES
    ensures Join(w, q, e).entered == w.entered + multiset{Ticket(q, e)}
    ensures q != NOTES ==> Join(w, q, e).queues[NOTES] == w.queues[NOTES]
    ensures q == NOTES ==> Join(w, q, e).queues[NOTES] != []
  {
  }

  lemma CleanUpQueues(w: Waiting, dumped: bool, hanging: bool, scanIndex: nat, ts: Stamp)
    requires |w.queues| == QUEUES
    ensures var r := CleanedUp(w, dumped, hanging, scanIndex, ts);
            && r.entered == w.entered
                 + (if hanging then One(RESUMES, ts, PreRun(ResumedText(), "")) else multiset{})
                 + (if scanIndex != 0 then One(SCAN_STOPS, ts, Tagged(scanIndex, PreRun(HangingScanText(true), "")))
                    else multiset{})
            && r.queues[NOTES] == if hanging && dumped then [] else w.queues[NOTES]
  {
    hide PreRun, ResumedText, Tagged, HangingScanText, Join;
    var resumed := Queued(ts, PreRun(ResumedText(), ""));
    var stopped := Queued(ts, Tagged(scanIndex, PreRun(HangingScanText(true), "")));
    var base := if hanging && dumped then Cleared(w) else w;
    JoinedNotes(base, RESUMES, resumed);
    JoinedNotes(if hanging then Join(base, RESUMES, resumed) else w, SCAN_STOPS, stopped);
  }

  lemma AnnounceQueues(w: Waiting, live: bool, number: nat, ts: Stamp, notesPV: Option<(string, Stamp)>)
    requires |w.queues| == QUEUES && ts + 1 < NEVER
    ensures var r, noted := Announced(w, live, number, ts, notesPV), notesPV.Some? && w.queues[NOTES] == [] && !live;
            && r.entered == w.entered + One(ANNOTATIONS, ts + 1, StartedText(number))
                 + (if noted then One(NOTES, notesPV.value.1, notesPV.value.0) else multiset{})
            && (r.queues[NOTES] != []) == (w.queues[NOTES] != [] || noted)
  {
    hide StartedText, Join;
    var announced := Queued(ts + 1, StartedText(number));
    JoinedNotes(w, ANNOTATIONS, announced);
    if notesPV.Some? {
      JoinedNotes(Join(w, ANNOTATIONS, announced), NOTES, Queued(notesPV.value.1, notesPV.value.0));
    }
  }

  lemma NewRunQueues(w: Waiting, s: RunState, op: Op)
    requires |w.queues| == QUEUES && op.NewRun? && Possible(op) && s.notes == (w.queues[NOTES] != [])
    ensures var hanging := s.isPaused || op.pausedPV;
            var r := Announced(CleanedUp(w, s.inRun && Dumps(op.prologues), hanging, s.scanIndex, op.ts),
                               s.inRun, op.number, op.ts, op.notesPV);
            && r.entered == w.entered + QueuedBy(s, op)
            && (r.queues[NOTES] != []) == After(s, op).notes
  {
    hide PreRun, ResumedText, Tagged, HangingScanText, StartedText, Dumps, CleanedUp, Announced, One;
    var dumped, hanging := s.inRun && Dumps(op.prologues), s.isPaused || op.pausedPV;
    var cleaned := CleanedUp(w, dumped, hanging, s.scanIndex, op.ts);
    CleanUpQueues(w, dumped, hanging, s.scanIndex, op.ts);
    AnnounceQueues(cleaned, s.inRun, op.number, op.ts, op.notesPV);
  }

  lemma NothingHeld(m: Markers, t: Ticket)
    requires m.Valid() && m.queues == EMPTY
    ensures TakenCount(m.trace, t) == m.entered[t]
  {
    if t.queue < QUEUES {
      assert EMPTY[t.queue] == [];
    }
  }

  lemma StopTakesNothing(trace: seq<Item>, t: Ticket)
    requires trace != [] && trace[|trace| - 1] == RunStopped
    ensures TakenCount(trace, t) == TakenCount(trace[..|trace| - 1], t)
  {
  }

  method SayComment(m: Markers, op: Op)
    requires op.Annotation? || op.SystemComment? || op.ScanComment?
    requires m.Valid() && |m.queues| == QUEUES
    modifies m
    ensures m.Valid() && |m.queues| == QUEUES && old(m.trace) <= m.trace
    ensures NowOf(m) == After(old(NowOf(m)), op)
    ensures m.entered == old(m.entered) + QueuedBy(old(NowOf(m)), op)
  {
    hide Accounts, MakePacket, Tagged, LabelOf, CommentOf, ScanPhrase, Join;
    var s, w := NowOf(m), m.Waits();
    match op
    case Annotation(ts, mode, ptScan, ptComment, pv) =>
      JoinedNotes(w, ANNOTATIONS, Queued(ts, s.Label() + CommentOf(mode, ptComment, pv)));
      m.AddAnnotationComment(ts, mode, ptScan, ptComment, pv);
    case SystemComment(ts, index, text) =>
      JoinedNotes(w, SYSTEMS, Queued(ts, s.Label() + text));
      m.AddSystemComment(ts, index, text);
    case ScanComment(ts, mode, ptScan, ptComment, pv) =>
      var index := if mode.Ignore? then s.scanIndex else ptScan;
      JoinedNotes(w, SCAN_COMMENTS,
                  Queued(ts, Tagged(index, s.Label() + ScanPhrase(index) + CommentOf(mode, ptComment, pv))));
      m.AddScanComment(ts, mode, ptScan, ptComment, pv);
  }

  method SayNotes(m: Markers, op: Op)
    requires op.Notes?
    requires m.Valid() && |m.queues| == QUEUES
    modifies m
    ensures m.Valid() && |m.queues| == QUEUES && old(m.trace) <= m.trace
    ensures NowOf(m) == After(old(NowOf(m)), op)
    ensures m.entered == old(m.entered) + QueuedBy(old(NowOf(m)), op)
  {
    hide Accounts, MakePacket, CommentOf, Join;
    JoinedNotes(m.Waits(), NOTES, Queued(op.ts, CommentOf(op.mode, op.ptComment, op.pv)));
    m.AddNotesComment(op.ts, op.mode, op.ptScan, op.ptComment, op.pv);
  }

  method SayStartScan(m: Markers, op: Op)
    requires op.StartScan?
    requires m.Valid() && |m.queues| == QUEUES
    modifies m
    ensures m.Valid() && |m.queues| == QUEUES && old(m.trace) <= m.trace
    ensures NowOf(m) == After(old(NowOf(m)), op)
    ensures m.entered == old(m.entered) + QueuedBy(old(NowOf(m)), op)
  {
    hide Accounts, MakePacket, Tagged, ScanTextOf, Join;
    var s, index := NowOf(m), if op.mode.Ignore? then op.pvIndex else op.ptScan;
    JoinedNotes(m.Waits(), SCAN_STARTS, Queued(op.ts, Tagged(index, s.ScanText(index, " Started."))));
    m.StartScan(op.ts, op.mode, op.ptScan, op.ptComment, op.pvIndex);
  }

  method SayStopScan(m: Markers, op: Op)
    requires op.StopScan?
    requires m.Valid() && |m.queues| == QUEUES
    modifies m
    ensures m.Valid() && |m.queues| == QUEUES && old(m.trace) <= m.trace
    ensures NowOf(m) == After(old(NowOf(m)), op)
    ensures m.entered == old(m.entered) + QueuedBy(old(NowOf(m)), op)
  {
    hide Accounts, MakePacket, Tagged, ScanTextOf, Join;
    var s := NowOf(m);
    var index := if op.mode.Ignore? then s.scanIndex else op.ptScan;
    JoinedNotes(m.Waits(), SCAN_STOPS, Queued(op.ts, Tagged(index, s.ScanText(index, " Stopped."))));
    m.StopScan(op.ts, op.mode, op.ptScan, op.ptComment);
  }

  method SayPause(m: Markers, op: Op)
    requires op.PauseRun?
    requires m.Valid() && |m.queues| == QUEUES
    modifies m
    ensures m.Valid() && |m.queues| == QUEUES && old(m.trace) <= m.trace
    ensures NowOf(m) == After(old(NowOf(m)), op)
    ensures m.entered == old(m.entered) + QueuedBy(old(NowOf(m)), op)
  {
    hide Accounts, MakePacket, PreRun, PhraseOf, PausedText, ResumedRunText, Dumps, Join, AllFiles;
    var said := PreRun(NowOf(m).RunPhrase() + PausedText(), if op.mode.Ignore? then "" else op.ptComment);
    JoinedNotes(m.Waits(), PAUSES, Queued(op.ts, said));
    m.PauseRun(op.ts, op.mode, op.ptScan, op.ptComment, op.prologues);
  }

  method SayResume(m: Markers, op: Op)
    requires op.ResumeRun?
    requires m.Valid() && |m.queues| == QUEUES
    modifies m
    ensures m.Valid() && |m.queues| == QUEUES && old(m.trace) <= m.trace
    ensures NowOf(m) == After(old(NowOf(m)), op)
    ensures m.entered == old(m.entered) + QueuedBy(old(NowOf(m)), op)
  {
    hide Accounts, MakePacket, PreRun, PhraseOf, PausedText, ResumedRunText, Dumps, Join, AllFiles;
    var said := PreRun(NowOf(m).RunPhrase() + ResumedRunText(), if op.mode.Ignore? then "" else op.ptComment);
    JoinedNotes(m.Waits(), RESUMES, Queued(op.ts, said));
    m.ResumeRun(op.ts, op.mode, op.ptScan, op.ptComment, op.prologues);
  }

  method StartRun(m: Markers, op: Op)
    requires op.NewRun? && Possible(op)
    requires m.Valid() && |m.queues| == QUEUES
    modifies m
    ensures m.Valid() && |m.queues| == QUEUES && old(m.trace) <= m.trace
    ensures NowOf(m) == After(old(NowOf(m)), op)
    ensures m.entered == old(m.entered) + QueuedBy(old(NowOf(m)), op)
  {
    hide Accounts, MakePacket, StartedText, CleanedUp, Announced, Dumps, QueuedBy;
    NewRunQueues(m.Waits(), NowOf(m), op);
    m.BeforeNewRun(op.number, op.ts, op.pausedPV, op.notesPV, op.prologues);
  }

  method StopRun(m: Markers, op: Op)
    requires op.StopRun?
    requires m.Valid() && |m.queues| == QUEUES
    modifies m
    ensures m.Valid() && |m.queues| == QUEUES && old(m.trace) <= m.trace
    ensures NowOf(m) == After(old(NowOf(m)), op)
    ensures m.entered == old(m.entered) + QueuedBy(old(NowOf(m)), op)
    ensures old(m.inRun) ==> AllTaken(m.trace, |m.trace|, old(m.entered))
  {
    hide Accounts, MakePacket, AllOut, AllTaken;
    m.RunStop(op.ts, op.pausedPV, op.prologues);
    StopAccounts(m);
  }

  method NewFileBegins(m: Markers, op: Op)
    requires op.NewFile?
    requires m.Valid() && |m.queues| == QUEUES
    modifies m
    ensures m.Valid() && |m.queues| == QUEUES && old(m.trace) <= m.trace
    ensures NowOf(m) == After(old(NowOf(m)), op)
    ensures m.entered == old(m.entered) + QueuedBy(old(NowOf(m)), op)
  {
    hide Accounts, MakePacket, AllOut, Continued, Dumped, Merged, OneFile;
    m.OnPrologue(op.p);
  }

  /** Any one operation: it queues what is said of it, and the end of an active run leaves
      nothing that was queued before unsaid. */
  method Perform(m: Markers, op: Op)
    requires Possible(op)
    requires m.Valid() && |m.queues| == QUEUES
    modifies m
    ensures m.Valid() && |m.queues| == QUEUES && old(m.trace) <= m.trace
    ensures NowOf(m) == After(old(NowOf(m)), op)
    ensures m.entered == old(m.entered) + QueuedBy(old(NowOf(m)), op)
    ensures op.StopRun? && old(m.inRun) ==> AllTaken(m.trace, |m.trace|, old(m.entered))
  {
    hide Accounts, After, QueuedBy, AllTaken;
    match op
    case Annotation(_, _, _, _, _) => SayComment(m, op);
    case SystemComment(_, _, _) => SayComment(m, op);
    case ScanComment(_, _, _, _, _) => SayComment(m, op);
    case Notes(_, _, _, _, _) => SayNotes(m, op);
    case StartScan(_, _, _, _, _) => SayStartScan(m, op);
    case StopScan(_, _, _, _) => SayStopScan(m, op);
    case PauseRun(_, _, _, _, _) => SayPause(m, op);
    case ResumeRun(_, _, _, _, _) => SayResume(m, op);
    case NewRun(_, _, _, _, _) => StartRun(m, op);
    case StopRun(_, _, _) => StopRun(m, op);
    case NewFile(p) => NewFileBegins(m, op);
  }

  lemma StopAccounts(m: Markers)
    requires m.Valid() && m.trace != [] && m.trace[|m.trace| - 1] == RunStopped
    ensures m.queues == EMPTY ==> AllTaken(m.trace, |m.trace|, m.entered)
  {
    hide Accounts;
    if m.queues == EMPTY {
      forall t ensures TakenCount(m.trace[..|m.trace| - 1], t) == m.entered[t] {
        NothingHeld(m, t);
        StopTakesNothing(m.trace, t);
      }
    }
  }

  /** How far the trace had come after each operation, and what it had taken by then. */
  ghost predicate Kept(trace: seq<Item>, ends: seq<nat>, ops: seq<Op>)
    requires forall op :: op in ops ==> Possible(op)
  {
    |ends| <= |ops| && forall i :: 0 <= i < |ends| ==> KeptAt(trace, ends, ops, i)
  }

  ghost predicate KeptAt(trace: seq<Item>, ends: seq<nat>, ops: seq<Op>, i: nat)
    requires i < |ends| <= |ops| && forall op :: op in ops ==> Possible(op)
  {
    && TakesOnlyQueued(trace, ends[i], QueuedIn(ops[..i + 1]))
    && (ops[i].StopRun? && StateAfter(ops[..i]).inRun ==> AllTaken(trace, ends[i], QueuedIn(ops[..i])))
  }

  /** From the first operation on, whatever the order: entries are queued exactly as the
      operations say; each that waits when an active run is stopped, and each before it,
      has been taken exactly once before the stop is said, by a packet with its text and
      time; nothing is taken that was not queued; and the run notes are in order. */
  method Run(updates: bool, ops: seq<Op>) returns (trace: seq<Item>, ghost ends: seq<nat>)
    requires forall op :: op in ops ==> Possible(op)
    ensures |ends| == |ops| && Kept(trace, ends, ops)
    ensures forall i, j :: 0 <= i < j < |ends| ==> ends[i] <= ends[j]
    ensures AllTrue(trace) && AuditNotes(updates, trace).ok
  {
    hide Accounts, After, QueuedBy, AllTaken, TakesOnlyQueued, AllTrue, AuditNotes, Kept, StateAfter, QueuedIn;
    NothingYet(ops);
    var m := new Markers(updates);
    ends := [];
    for n := 0 to |ops|
      invariant fresh(m) && m.Valid() && |m.queues| == QUEUES && m.updates == updates
      invariant NowOf(m) == StateAfter(ops[..n]) && m.entered == QueuedIn(ops[..n])
      invariant |ends| == n && Kept(m.trace, ends, ops)
      invariant forall i :: 0 <= i < n ==> ends[i] <= |m.trace|
      invariant forall i, j :: 0 <= i < j < n ==> ends[i] <= ends[j]
    {
      ghost var before := m.trace;
      OpsStep(ops, n);
      Perform(m, ops[n]);
      KeptOn(before, m.trace, ends, ops);
      AccountsBound(m);
      KeptNext(m.trace, ends, ops);
      ends := ends + [|m.trace|];
    }
    assert ops[..|ops|] == ops;
    AccountsSay(m);
    trace := m.trace;
  }

  lemma NothingYet(ops: seq<Op>)
    requires forall op :: op in ops ==> Possible(op)
    ensures StateAfter(ops[..0]) == START && QueuedIn(ops[..0]) == multiset{} && Kept([], [], ops)
  {
  }

  lemma OpsStep(ops: seq<Op>, n: nat)
    requires n < |ops| && forall op :: op in ops ==> Possible(op)
    ensures StateAfter(ops[..n + 1]) == After(StateAfter(ops[..n]), ops[n])
    ensures QueuedIn(ops[..n + 1]) == QueuedIn(ops[..n]) + QueuedBy(StateAfter(ops[..n]), ops[n])
  {
    hide After, QueuedBy;
    assert ops[..n + 1][..n] == ops[..n];
  }

  lemma KeptOn(before: seq<Item>, trace: seq<Item>, ends: seq<nat>, ops: seq<Op>)
    requires forall op :: op in ops ==> Possible(op)
    requires before <= trace && Kept(before, ends, ops)
    ensures Kept(trace, ends, ops)
  {
    hide StateAfter, QueuedIn, TakenCount;
    forall i | 0 <= i < |ends| ensures KeptAt(trace, ends, ops, i) {
      assert KeptAt(before, ends, ops, i);
      assert trace[..ends[i]] == before[..ends[i]];
      if 0 < ends[i] {
        assert trace[..ends[i] - 1] == before[..ends[i] - 1];
      }
    }
  }

  lemma KeptNext(trace: seq<Item>, ends: seq<nat>, ops: seq<Op>)
    requires (forall op :: op in ops ==> Possible(op)) && |ends| < |ops| && Kept(trace, ends, ops)
    requires TakesOnlyQueued(trace, |trace|, QueuedIn(ops[..|ends| + 1]))
    requires ops[|ends|].StopRun? && StateAfter(ops[..|ends|]).inRun ==>
               AllTaken(trace, |trace|, QueuedIn(ops[..|ends|]))
    ensures Kept(trace, ends + [|trace|], ops)
  {
    hide StateAfter, QueuedIn, TakesOnlyQueued, AllTaken;
    var more := ends + [|trace|];
    forall i | 0 <= i < |more| ensures KeptAt(trace, more, ops, i) {
      assert i < |ends| ==> KeptAt(trace, ends, ops, i);
    }
  }

  lemma AccountsBound(m: Markers)
    requires m.Valid()
    ensures TakesOnlyQueued(m.trace, |m.trace|, m.entered)
  {
    assert m.trace[..|m.trace|] == m.trace;
  }

  lemma AccountsSay(m: Markers)
    requires m.Valid()
    ensures AllTrue(m.trace) && AuditNotes(m.updates, m.trace).ok
  {
  }
}
