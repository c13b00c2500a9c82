/** Run, pause and scan markers: what is said now, what is queued for the run to come,
    and what a prologue or the end of a run makes of the queues. */
module MarkerModel {
  import opened MarkerMerge
  import opened Options
  import opened MarkerText
  import opened MarkerTrace
  import opened MarkerAccounts

  /** Whether a call comes from a local PV, is only passed through, or is carried out
      for a passed-through annotation. */
  datatype PassThru = Ignore | PassOnly | Execute

  /** One prologue callback that a change of recording triggers. */
  datatype Prologue = Prologue(captureLast: bool, now: Stamp)

  const NO_COMMENT := "(No Comment)"

  /** What a marker's text and its fate depend on; `notes` says that run notes wait. */
  datatype RunState = RunState(
    inRun: bool, isPaused: bool, isPausedPT: bool, runNumber: nat, scanIndex: nat, notes: bool)
  {
    predicate Live() {
      inRun && !isPaused
    }

    function Label(): string {
      LabelOf(inRun, isPaused || isPausedPT, runNumber)
    }

    function RunPhrase(): string {
      PhraseOf(inRun, runNumber)
    }

    function ScanText(index: nat, verb: string): string {
      ScanTextOf(inRun, isPaused || isPausedPT, runNumber, index, verb)
    }
  }

  /** What is put before a comment that waits: nothing in a live run. */
  function LabelOf(inRun: bool, paused: bool, number: nat): (front: string)
    ensures front == "" <==> inRun && !paused
    ensures front == "[PRE-RUN] " <==> !inRun
    ensures inRun && paused ==> front == "[PAUSED Run " + Decimal(number) + "] "
  {
    if !inRun then "[PRE-RUN] "
    else if paused then "[PAUSED Run " + Decimal(number) + "] "
    else ""
  }

  function PhraseOf(inRun: bool, number: nat): (phrase: string)
    ensures !inRun ==> phrase == "Data Collection "
    ensures inRun ==> phrase == "Run " + Decimal(number) + " "
  {
    if inRun then "Run " + Decimal(number) + " " else "Data Collection "
  }

  /** A scan marker always says which run it belongs to. */
  function ScanTextOf(inRun: bool, paused: bool, number: nat, index: nat, verb: string): (text: string)
    ensures inRun && !paused ==> text == "[Run " + Decimal(number) + "] " + "Scan #" + Decimal(index) + verb
    ensures !inRun ==> text == "[PRE-RUN] " + "Scan #" + Decimal(index) + verb
    ensures inRun && paused ==> text == "[PAUSED Run " + Decimal(number) + "] " + "Scan #" + Decimal(index) + verb
  {
    var front := LabelOf(inRun, paused, number);
    (if front == "" then "[Run " + Decimal(number) + "] " else front) + "Scan #" + Decimal(index) + verb
  }

  /** The queues, and every entry that was ever put on one. */
  datatype Waiting = Waiting(queues: seq<seq<Queued>>, entered: multiset<Ticket>)

  function Join(w: Waiting, q: nat, e: Queued): (r: Waiting)
    requires q < |w.queues|
    ensures |r.queues| == |w.queues|
  {
    Waiting(w.queues[q := w.queues[q] + [e]], w.entered + multiset{Ticket(q, e)})
  }

  function Cleared(w: Waiting): Waiting {
    w.(queues := EMPTY)
  }

  /** One of these callbacks is not a capture. */
  predicate Dumps(prologues: seq<Prologue>) {
    exists i :: 0 <= i < |prologues| && !prologues[i].captureLast
  }

  /** All that a file's prologue goes by, besides what waits. */
  datatype View = View(
    inRun: bool, isPaused: bool, isPausedPT: bool, runNumber: nat, scanIndex: nat, lastInRun: bool, lastIsPaused: bool,
    lastRunNumber: nat, lastScanIndex: nat, useFirstNotes: bool, updates: bool)
  {
    predicate Live() {
      inRun && !isPaused
    }

    /** The state a dump or prologue goes by: as it is, or as it last was. */
    function Last(capture: bool): (bool, bool, nat, nat) {
      if capture then (lastInRun, lastIsPaused, lastScanIndex, lastRunNumber)
      else (inRun, isPaused, scanIndex, runNumber)
    }
  }

  /** What a new file says of a scan or a pause that goes on in it. */
  function Continued(v: View, p: Prologue): seq<Item> {
    var (run, paused, index, number) := v.Last(p.captureLast);
    (if index == 0 then []
     else [Emitted(MakePacket(p.now, ScanStart, v.scanIndex, "",
                              ContinuedScan(run, paused || v.isPausedPT, number, index), true),
                   Direct, v.inRun, v.isPaused)])
    + (if !paused then []
       else [Emitted(MakePacket(p.now, Pause, v.scanIndex, "", ContinuedPause(run, number), true),
                     Direct, v.inRun, v.isPaused)])
  }

  /** Whether the note of the run has been said once all is dumped. */
  predicate NoteSaid(v: View, queues: seq<seq<Queued>>, notesSet: bool)
    requires |queues| == QUEUES
  {
    notesSet || (v.Live() && queues[NOTES] != [])
  }

  /** What waits after a number of new files, and what has been said in them. */
  datatype Files = Files(queues: seq<seq<Queued>>, notesSet: bool, said: seq<Item>)

  /** The prologue of one more file: a dump of a live run, or a copy of what waited in the
      last one, and then what goes on. */
  function OneFile(v: View, f: Files, p: Prologue): (r: Files)
    requires |f.queues| == QUEUES
    ensures |r.queues| == QUEUES
  {
    var (run, paused, index, _) := v.Last(true);
    if p.captureLast then
      var copied := if run && !paused then Dumped(Merged(f.queues), index, true, true, v.inRun, v.isPaused) else [];
      f.(said := f.said + copied + Continued(v, p))
    else
      var dumped := if v.Live() then AllOut(f.queues, !f.notesSet || v.updates, v.useFirstNotes, v.scanIndex, true) else [];
      Files(if v.Live() then EMPTY else f.queues, NoteSaid(v, f.queues, f.notesSet), f.said + dumped + Continued(v, p))
  }

  function AllFiles(v: View, prologues: seq<Prologue>, queues: seq<seq<Queued>>, notesSet: bool): (r: Files)
    requires |queues| == QUEUES
    ensures |r.queues| == QUEUES
  {
    if prologues == [] then Files(queues, notesSet, [])
    else
      var last := |prologues| - 1;
      OneFile(v, AllFiles(v, prologues[..last], queues, notesSet), prologues[last])
  }

  class Markers {
    /** `getRunNotesUpdatesEnabled()`, taken not to change. */
    const updates: bool
    var queues: seq<seq<Queued>>
    var inRun: bool
    var isPaused: bool
    var isPausedPT: bool
    var lastInRun: bool
    var lastIsPaused: bool
    var notesSet: bool
    var useFirstNotes: bool
    var runNumber: nat
    var lastRunNumber: nat
    var scanIndex: nat
    var lastScanIndex: nat
    var trace: seq<Item>
    ghost var entered: multiset<Ticket>

    ghost predicate Valid()
      reads this
    {
      Accounts(queues, trace, entered, updates, notesSet)
    }

    constructor (updates: bool)
      ensures Valid() && this.updates == updates && trace == [] && Waits() == Waiting(EMPTY, multiset{})
      ensures Sight() == View(false, false, false, 0, 0, false, false, 0, 0, false, updates) && !notesSet
    {
      this.updates := updates;
      queues := EMPTY;
      inRun, isPaused, isPausedPT, lastInRun, lastIsPaused := false, false, false, false, false;
      notesSet, useFirstNotes := false, false;
      runNumber, lastRunNumber, scanIndex, lastScanIndex := 0, 0, 0, 0;
      trace, entered := [], multiset{};
      AccountsStart(updates);
    }

    /** Markers go out now; otherwise they wait. */
    predicate Live()
      reads this`inRun, this`isPaused, this`isPausedPT, this`runNumber
    {
      inRun && !isPaused
    }

    function State(notes: bool): RunState
      reads this`inRun, this`isPaused, this`isPausedPT, this`runNumber, this`scanIndex
    {
      RunState(inRun, isPaused, isPausedPT, runNumber, scanIndex, notes)
    }

    function Label(): string
      reads this`inRun, this`isPaused, this`isPausedPT, this`runNumber
    {
      LabelOf(inRun, isPaused || isPausedPT, runNumber)
    }

    function RunPhrase(): string
      reads this`inRun, this`isPaused, this`isPausedPT, this`runNumber
    {
      PhraseOf(inRun, runNumber)
    }

    function Sight(): View
      reads this`inRun, this`isPaused, this`isPausedPT, this`runNumber, this`scanIndex, this`lastInRun,
            this`lastIsPaused, this`lastRunNumber, this`lastScanIndex, this`useFirstNotes
    {
      View(inRun, isPaused, isPausedPT, runNumber, scanIndex, lastInRun, lastIsPaused, lastRunNumber, lastScanIndex,
           useFirstNotes, updates)
    }

    ghost function Waits(): Waiting
      reads this`queues, this`entered
    {
      Waiting(queues, entered)
    }

    /** `emitPacket` for anything but a run note. */
    method Emit(time: nat, kind: Kind, scanIndex: nat, prefix: string, comment: string, prologue: bool)
      requires Valid() && !kind.OverallRunComment?
      modifies this`trace
      ensures Valid()
      ensures trace == old(trace) +
        [Emitted(MakePacket(time, kind, scanIndex, prefix, comment, prologue), Direct, inRun, isPaused)]
      ensures var p := trace[|old(trace)|].packet;
              && p.time == time && p.kind == kind && p.scanIndex == scanIndex && p.prologue == prologue
              && SentOf(prefix + comment, p.text)
    {
      hide Accounts;
      var item := Emitted(MakePacket(time, kind, scanIndex, prefix, comment, prologue), Direct, inRun, isPaused);
      AccountsItem(queues, trace, entered, updates, notesSet, item);
      trace := trace + [item];
    }

    method Enqueue(q: nat, time: Stamp, text: string)
      requires Valid() && q < QUEUES && |queues| == QUEUES
      modifies this`queues, this`entered
      ensures Valid() && |queues| == QUEUES
      ensures Waits() == Join(old(Waits()), q, Queued(time, text))
      ensures q != NOTES ==> queues[NOTES] == old(queues)[NOTES]
    {
      hide Accounts;
      AccountsEnqueue(queues, trace, entered, updates, notesSet, q, Queued(time, text));
      queues := queues[q := queues[q] + [Queued(time, text)]];
      entered := entered + multiset{Ticket(q, Queued(time, text))};
    }

    /** A comment that goes out at once in a running, unpaused run and waits otherwise. */
    method SayOrQueue(q: nat, time: Stamp, kind: Kind, scanIndex: nat, prefix: string, comment: string, queued: string)
      requires Valid() && q < QUEUES && |queues| == QUEUES && !kind.OverallRunComment?
      modifies this`queues, this`entered, this`trace
      ensures Valid() && |queues| == QUEUES
      ensures if Live() then (Waits() == old(Waits()) && trace == old(trace) +
                [Emitted(MakePacket(time, kind, scanIndex, prefix, comment, false), Direct, true, false)])
              else trace == old(trace) && Waits() == Join(old(Waits()), q, Queued(time, queued))
    {
      if inRun && !isPaused {
        Emit(time, kind, scanIndex, prefix, comment, false);
      } else {
        Enqueue(q, time, queued);
      }
    }

    /** `addAnnotationComment`, and the deprecated `annotate`. */
    method AddAnnotationComment(ts: Stamp, mode: PassThru, ptScan: nat, ptComment: string, pv: Option<string>)
      requires Valid() && |queues| == QUEUES
      modifies this`queues, this`entered, this`trace
      ensures Valid() && |queues| == QUEUES
      ensures var comment := CommentOf(mode, ptComment, pv);
              if Live() then Waits() == old(Waits()) && trace == old(trace) +
                [Emitted(MakePacket(ts, Generic, if mode.Ignore? then scanIndex else ptScan, "", comment, false),
                         Direct, true, false)]
              else trace == old(trace) && Waits() == Join(old(Waits()), ANNOTATIONS, Queued(ts, Label() + comment))
    {
      var comment, index := ptComment, ptScan;
      if mode.Ignore? {
        comment := if pv.Some? then pv.value else NO_COMMENT;
        index := scanIndex;
      }
      SayOrQueue(ANNOTATIONS, ts, Generic, index, "", comment, Label() + comment);
    }

    method AddSystemComment(ts: Stamp, index: nat, comment: string)
      requires Valid() && |queues| == QUEUES
      modifies this`queues, this`entered, this`trace
      ensures Valid() && |queues| == QUEUES
      ensures if Live() then Waits() == old(Waits()) && trace == old(trace) +
                [Emitted(MakePacket(ts, System, index, "", comment, false), Direct, true, false)]
              else trace == old(trace) && Waits() == Join(old(Waits()), SYSTEMS, Queued(ts, Label() + comment))
    {
      SayOrQueue(SYSTEMS, ts, System, index, "", comment, Label() + comment);
    }

    method AddScanComment(ts: Stamp, mode: PassThru, ptScan: nat, ptComment: string, pv: Option<string>)
      requires Valid() && |queues| == QUEUES
      modifies this`queues, this`entered, this`trace
      ensures Valid() && |queues| == QUEUES
      ensures var comment := CommentOf(mode, ptComment, pv);
              var index := if mode.Ignore? then scanIndex else ptScan;
              if Live() then Waits() == old(Waits()) && trace == old(trace) +
                [Emitted(MakePacket(ts, Generic, index, ScanPhrase(index), comment, false), Direct, true, false)]
              else trace == old(trace) && Waits() == Join(old(Waits()), SCAN_COMMENTS,
                     Queued(ts, Tagged(index, Label() + ScanPhrase(index) + comment)))
    {
      var comment, index := ptComment, ptScan;
      if mode.Ignore? {
        comment := if pv.Some? then pv.value else NO_COMMENT;
        index := scanIndex;
      }
      SayOrQueue(SCAN_COMMENTS, ts, Generic, index, ScanPhrase(index), comment,
                 Tagged(index, Label() + ScanPhrase(index) + comment));
    }

    /** `addNotesComment`, and the deprecated `addRunComment`. */
    method AddNotesComment(ts: Stamp, mode: PassThru, ptScan: nat, ptComment: string, pv: Option<string>)
      requires Valid() && |queues| == QUEUES
      modifies this`queues, this`entered, this`trace, this`notesSet, this`useFirstNotes
      ensures Valid() && |queues| == QUEUES
      ensures var comment := CommentOf(mode, ptComment, pv);
              var index := if mode.Ignore? then scanIndex else ptScan;
              if Live() then
                && Waits() == old(Waits()) && notesSet && useFirstNotes == old(useFirstNotes)
                && trace == old(trace) +
                   [Emitted(if !old(notesSet) || updates then MakePacket(ts, OverallRunComment, index, "", comment, false)
                            else MakePacket(ts, Generic, index, DISCARDED, comment, false), Direct, true, false)]
              else
                && trace == old(trace) && notesSet == old(notesSet) && useFirstNotes == inRun
                && Waits() == Join(old(Waits()), NOTES, Queued(ts, comment))
    {
      hide Accounts, Join, Markers.Label;
      var comment, index := ptComment, ptScan;
      if mode.Ignore? {
        comment := if pv.Some? then pv.value else NO_COMMENT;
        index := scanIndex;
      }
      if inRun && !isPaused {
        if !notesSet || updates {
          var item := Emitted(MakePacket(ts, OverallRunComment, index, "", comment, false), Direct, inRun, isPaused);
          AccountsNote(queues, trace, entered, updates, notesSet, item);
          trace := trace + [item];
          notesSet := true;
        } else {
          Emit(ts, Generic, index, DISCARDED, comment, false);
        }
      } else {
        if !inRun {
          useFirstNotes := false;
        } else if isPaused || isPausedPT {
          useFirstNotes := true;
        }
        Enqueue(NOTES, ts, comment);
      }
    }

    /** The note of the run, from the front or the back of the notes queue. */
    method DumpRunNotesComment(prologue: bool)
      requires Valid() && |queues| == QUEUES
      modifies this`queues, this`trace, this`notesSet
      ensures Valid() && |queues| == QUEUES
      ensures if Live() && (!old(notesSet) || updates) && old(queues)[NOTES] != [] then
          var notes := old(queues)[NOTES];
          var e := if useFirstNotes then notes[0] else notes[|notes| - 1];
          && queues == old(queues)[NOTES := if useFirstNotes then notes[1..] else notes[..|notes| - 1]]
          && trace == old(trace) + [Emitted(MakePacket(e.time, OverallRunComment, scanIndex, "", e.text, prologue),
                                            Taken(Ticket(NOTES, e)), true, false)]
          && notesSet
        else queues == old(queues) && trace == old(trace) && notesSet == old(notesSet)
    {
      hide Accounts, Clip;
      if !inRun || isPaused {
        return;
      }
      var notes := queues[NOTES];
      if (!notesSet || updates) && notes != [] {
        var e := if useFirstNotes then notes[0] else notes[|notes| - 1];
        var item := Emitted(MakePacket(e.time, OverallRunComment, scanIndex, "", e.text, prologue),
                            Taken(Ticket(NOTES, e)), inRun, isPaused);
        assert "" + e.text == e.text;
        AccountsTakeNote(queues, trace, entered, updates, notesSet, useFirstNotes, item);
        trace := trace + [item];
        queues := queues[NOTES := if useFirstNotes then notes[1..] else notes[..|notes| - 1]];
        notesSet := true;
      }
    }

    /** The state a dump or prologue goes by: as it is, or as it last was. */
    function DumpState(capture: bool): (s: (bool, bool, nat, nat))
      reads this`lastInRun, this`lastIsPaused, this`lastScanIndex, this`lastRunNumber,
            this`inRun, this`isPaused, this`scanIndex, this`runNumber
    {
      if capture then (lastInRun, lastIsPaused, lastScanIndex, lastRunNumber)
      else (inRun, isPaused, scanIndex, runNumber)
    }

    /** All queues in time order; a captured prologue leaves them as they are. */
    method DumpQueuedComments(prologue: bool, capture: bool)
      requires Valid() && |queues| == QUEUES
      modifies this`queues, this`trace
      ensures Valid() && |queues| == QUEUES
      ensures var (run, paused, index, _) := DumpState(capture);
              if run && !paused then
                && trace == old(trace) + Dumped(Merged(old(queues)), index, prologue, capture, inRun, isPaused)
                && queues == (if capture then old(queues) else EMPTY)
              else trace == old(trace) && queues == old(queues)
    {
      hide Accounts, Merged, Dumped;
      var (run, paused, index, _) := DumpState(capture);
      if !run || paused {
        return;
      }
      AccountsDump(queues, trace, entered, updates, notesSet, index, prologue, capture, inRun, isPaused);
      var ts := MergeQueues(queues);
      EmitDump(ts, index, prologue, capture);
      if !capture {
        queues := EMPTY;
      }
    }

    method EmitDump(ts: seq<Ticket>, index: nat, prologue: bool, capture: bool)
      modifies this`trace
      ensures trace == old(trace) + Dumped(ts, index, prologue, capture, inRun, isPaused)
    {
      hide DumpItem, Dumped;
      DumpedStep(ts, index, prologue, capture, inRun, isPaused, 0);
      for i := 0 to |ts|
        invariant trace == old(trace) + Dumped(ts[..i], index, prologue, capture, inRun, isPaused)
      {
        DumpedStep(ts, index, prologue, capture, inRun, isPaused, i);
        trace := trace + [DumpItem(ts[i], index, prologue, capture, inRun, isPaused)];
      }
      assert ts[..|ts|] == ts;
    }

    /** `dumpRunNotesComment` and then `dumpQueuedComments`. */
    method DumpAll(prologue: bool)
      requires Valid() && |queues| == QUEUES
      modifies this`queues, this`trace, this`notesSet
      ensures Valid() && |queues| == QUEUES && old(trace) <= trace
      ensures if Live() then
                && queues == EMPTY
                && trace == old(trace) + AllOut(old(queues), !old(notesSet) || updates, useFirstNotes, scanIndex, prologue)
              else queues == old(queues) && trace == old(trace)
      ensures notesSet == NoteSaid(Sight(), old(queues), old(notesSet))
    {
      hide Accounts, MakePacket, Merged, Dumped;
      DumpRunNotesComment(prologue);
      DumpQueuedComments(prologue, false);
    }

    method SayContinued(p: Prologue)
      requires Valid()
      modifies this`trace
      ensures Valid() && trace == old(trace) + Continued(Sight(), p)
    {
      hide Accounts, MakePacket, ContinuedScan, ContinuedPause;
      var (run, paused, index, number) := DumpState(p.captureLast);
      if index != 0 {
        Emit(p.now, ScanStart, scanIndex, "", ContinuedScan(run, paused || isPausedPT, number, index), true);
      }
      if paused {
        Emit(p.now, Pause, scanIndex, "", ContinuedPause(run, number), true);
      }
    }

    /** The callback for a new file. */
    method OnPrologue(p: Prologue)
      requires Valid() && |queues| == QUEUES
      modifies this`queues, this`trace, this`notesSet
      ensures Valid() && |queues| == QUEUES && old(trace) <= trace
      ensures Files(queues, notesSet, trace) == OneFile(Sight(), Files(old(queues), old(notesSet), old(trace)), p)
      ensures queues == if Live() && !p.captureLast then EMPTY else old(queues)
    {
      hide Accounts, Merged, Dumped, Continued, AllOut;
      if !p.captureLast {
        DumpAll(true);
      } else {
        DumpQueuedComments(true, true);
      }
      SayContinued(p);
    }

    /** `pauseRecording` and `resumeRecording` of the control process, as far as they
        come back here: any number of prologue callbacks. */
    method ChangeRecording(prologues: seq<Prologue>)
      requires Valid() && |queues| == QUEUES
      modifies this`queues, this`trace, this`notesSet
      ensures Valid() && |queues| == QUEUES && old(trace) <= trace
      ensures var files := AllFiles(Sight(), prologues, old(queues), old(notesSet));
              queues == files.queues && notesSet == files.notesSet && trace == old(trace) + files.said
      ensures queues == if Live() && Dumps(prologues) then EMPTY else old(queues)
    {
      hide Accounts, OneFile, Dumps, FilesAre, Markers.Sight;
      ghost var queues0, notesSet0, trace0 := queues, notesSet, trace;
      NoFiles(Sight(), prologues, queues, notesSet, trace);
      for i := 0 to |prologues|
        invariant Valid() && |queues| == QUEUES
        invariant FilesAre(Sight(), prologues[..i], queues0, notesSet0, trace0, queues, notesSet, trace)
        invariant queues == if Live() && Dumps(prologues[..i]) then EMPTY else queues0
      {
        DumpsStep(prologues, i);
        FilesNext(Sight(), prologues, i, queues0, notesSet0, trace0, queues, notesSet, trace);
        OnPrologue(prologues[i]);
      }
      assert prologues[..|prologues|] == prologues;
      FilesSay(Sight(), prologues, queues0, notesSet0, trace0, queues, notesSet, trace);
    }

    /** A change of pause keeps the state before it for captured prologues. */
    method SetPaused(paused: bool, index: nat)
      modifies this`lastRunNumber, this`lastIsPaused, this`lastScanIndex, this`lastInRun, this`isPaused
      ensures lastRunNumber == runNumber && lastIsPaused == old(isPaused) && lastScanIndex == index
      ensures lastInRun == inRun && isPaused == paused
    {
      lastRunNumber := runNumber;
      lastIsPaused := isPaused;
      lastScanIndex := index;
      lastInRun := inRun;
      isPaused := paused;
    }

    /** Before a run, what was said is queued for it as well. */
    method EnqueuePreRun(q: nat, ts: Stamp, text: string)
      requires Valid() && q < QUEUES && |queues| == QUEUES
      modifies this`queues, this`entered
      ensures Valid() && |queues| == QUEUES
      ensures Waits() == if inRun then old(Waits()) else Join(old(Waits()), q, Queued(ts, text))
    {
      hide Accounts;
      if !inRun {
        Enqueue(q, ts, text);
      }
    }

    /** What a pause or its end changes; one that is passed through only notes itself. */
    method ChangePause(paused: bool, mode: PassThru, index: nat, prologues: seq<Prologue>)
      requires Valid() && |queues| == QUEUES
      modifies this`queues, this`trace, this`notesSet, this`lastRunNumber, this`lastIsPaused, this`lastScanIndex,
               this`lastInRun, this`isPaused, this`isPausedPT
      ensures Valid() && |queues| == QUEUES
      ensures mode.PassOnly? ==> isPausedPT == paused && isPaused == old(isPaused)
      ensures !mode.PassOnly? ==>
                && isPaused == paused && isPausedPT == old(isPausedPT)
                && lastIsPaused == old(isPaused) && lastInRun == inRun
      ensures var files := AllFiles(Sight(), if mode.PassOnly? then [] else prologues, old(queues), old(notesSet));
              queues == files.queues && notesSet == files.notesSet && trace == old(trace) + files.said
      ensures queues == if !mode.PassOnly? && inRun && !paused && Dumps(prologues) then EMPTY else old(queues)
    {
      hide Accounts, AllFiles, Dumps, Markers.Sight;
      if !mode.PassOnly? {
        SetPaused(paused, index);
        ChangeRecording(prologues);
      } else {
        isPausedPT := paused;
        NoFile(Sight(), queues, notesSet);
      }
    }

    method PauseRun(ts: Stamp, mode: PassThru, ptScan: nat, ptComment: string, prologues: seq<Prologue>)
      requires Valid() && |queues| == QUEUES
      modifies this
      ensures Valid() && |queues| == QUEUES && old(trace) <= trace && inRun == old(inRun)
      ensures mode.PassOnly? ==> isPausedPT && isPaused == old(isPaused)
      ensures !mode.PassOnly? ==>
                isPaused && isPausedPT == old(isPausedPT) && lastIsPaused == old(isPaused) && lastInRun == inRun
      ensures runNumber == old(runNumber) && scanIndex == old(scanIndex)
      ensures
        var said := Emitted(MakePacket(ts, Pause, if mode.Ignore? then scanIndex else ptScan,
                                       old(RunPhrase()) + PausedText(), if mode.Ignore? then "" else ptComment, false),
                            Direct, old(inRun), old(isPaused));
        var files := AllFiles(Sight(), if mode.PassOnly? then [] else prologues, old(queues), old(notesSet));
        trace == old(trace) + [said] + files.said && notesSet == files.notesSet
      ensures var said := PreRun(old(RunPhrase()) + PausedText(), if mode.Ignore? then "" else ptComment);
              Waits() == if inRun then old(Waits()) else Join(old(Waits()), PAUSES, Queued(ts, said))
    {
      hide Accounts, MakePacket, Markers.RunPhrase, IsNote, PreRun, PausedText, ResumedRunText, Dumps, Join, AllFiles,
           Markers.Sight;
      var comment := if mode.Ignore? then "" else ptComment;
      var index := if mode.Ignore? then scanIndex else ptScan;
      var phrase := RunPhrase() + PausedText();
      Emit(ts, Pause, index, phrase, comment, false);
      ChangePause(true, mode, index, prologues);
      EnqueuePreRun(PAUSES, ts, PreRun(phrase, comment));
    }

    method ResumeRun(ts: Stamp, mode: PassThru, ptScan: nat, ptComment: string, prologues: seq<Prologue>)
      requires Valid() && |queues| == QUEUES
      modifies this
      ensures Valid() && |queues| == QUEUES && old(trace) <= trace && inRun == old(inRun)
      ensures mode.PassOnly? ==> !isPausedPT && isPaused == old(isPaused)
      ensures !mode.PassOnly? ==>
                !isPaused && isPausedPT == old(isPausedPT) && lastIsPaused == old(isPaused) && lastInRun == inRun
      ensures runNumber == old(runNumber) && scanIndex == old(scanIndex)
      ensures
        var said := Emitted(MakePacket(ts, Resume, if mode.Ignore? then scanIndex else ptScan,
                                       old(RunPhrase()) + ResumedRunText(), if mode.Ignore? then "" else ptComment, false),
                            Direct, inRun, isPaused);
        var files := AllFiles(Sight(), if mode.PassOnly? then [] else prologues, old(queues), old(notesSet));
        trace == old(trace) + files.said + [said] && notesSet == files.notesSet
      ensures var said := PreRun(old(RunPhrase()) + ResumedRunText(), if mode.Ignore? then "" else ptComment);
              Waits() == if !inRun then Join(old(Waits()), RESUMES, Queued(ts, said))
                         else if !mode.PassOnly? && Dumps(prologues) then Cleared(old(Waits()))
                         else old(Waits())
    {
      hide Accounts, MakePacket, Markers.RunPhrase, IsNote, PreRun, PausedText, ResumedRunText, Dumps, Join, AllFiles,
           Markers.Sight;
      var comment := if mode.Ignore? then "" else ptComment;
      var index := if mode.Ignore? then scanIndex else ptScan;
      var phrase := RunPhrase() + ResumedRunText();
      ChangePause(false, mode, index, prologues);
      Emit(ts, Resume, index, phrase, comment, false);
      EnqueuePreRun(RESUMES, ts, PreRun(phrase, comment));
    }

    function ScanText(index: nat, verb: string): string
      reads this`inRun, this`isPaused, this`isPausedPT, this`runNumber
    {
      ScanTextOf(inRun, isPaused || isPausedPT, runNumber, index, verb)
    }

    /** A scan marker always goes out, and is queued as well outside a running run. */
    method EmitScan(ts: Stamp, q: nat, kind: Kind, index: nat, verb: string, comment: string)
      requires Valid() && |queues| == QUEUES
      requires (q == SCAN_STARTS && kind == ScanStart) || (q == SCAN_STOPS && kind == ScanStop)
      modifies this`queues, this`entered, this`trace
      ensures Valid() && |queues| == QUEUES
      ensures trace == old(trace) +
                [Emitted(MakePacket(ts, kind, index, ScanText(index, verb), comment, false), Direct, inRun, isPaused)]
      ensures Waits() == if Live() then old(Waits())
                         else Join(old(Waits()), q, Queued(ts, Tagged(index, ScanText(index, verb))))
    {
      hide MakePacket, Tagged, Accounts, Markers.ScanText;
      var text := ScanText(index, verb);
      Emit(ts, kind, index, text, comment, false);
      if !inRun || isPaused {
        Enqueue(q, ts, Tagged(index, text));
      }
    }

    method StartScan(ts: Stamp, mode: PassThru, ptScan: nat, ptComment: string, pvIndex: nat)
      requires Valid() && |queues| == QUEUES
      modifies this`queues, this`entered, this`trace, this`scanIndex, this`lastScanIndex
      ensures Valid() && |queues| == QUEUES
      ensures if mode.Ignore? then scanIndex == lastScanIndex == pvIndex
              else scanIndex == old(scanIndex) && lastScanIndex == old(lastScanIndex)
      ensures var index := if mode.Ignore? then pvIndex else ptScan;
              && trace == old(trace) +
                 [Emitted(MakePacket(ts, ScanStart, index, ScanText(index, " Started."),
                                     if mode.Ignore? then "" else ptComment, false), Direct, inRun, isPaused)]
              && Waits() == if Live() then old(Waits())
                            else Join(old(Waits()), SCAN_STARTS, Queued(ts, Tagged(index, ScanText(index, " Started."))))
    {
      hide MakePacket, Tagged, Accounts, Markers.ScanText;
      var comment, index := ptComment, ptScan;
      if mode.Ignore? {
        comment := "";
        scanIndex := pvIndex;
        lastScanIndex := scanIndex;
        index := scanIndex;
      }
      EmitScan(ts, SCAN_STARTS, ScanStart, index, " Started.", comment);
    }

    method StopScan(ts: Stamp, mode: PassThru, ptScan: nat, ptComment: string)
      requires Valid() && |queues| == QUEUES
      modifies this`queues, this`entered, this`trace, this`scanIndex, this`lastScanIndex
      ensures Valid() && |queues| == QUEUES
      ensures if mode.Ignore? then scanIndex == lastScanIndex == 0
              else scanIndex == old(scanIndex) && lastScanIndex == old(lastScanIndex)
      ensures var index := if mode.Ignore? then old(scanIndex) else ptScan;
              && trace == old(trace) +
                 [Emitted(MakePacket(ts, ScanStop, index, ScanText(index, " Stopped."),
                                     if mode.Ignore? then "" else ptComment, false), Direct, inRun, isPaused)]
              && Waits() == if Live() then old(Waits())
                            else Join(old(Waits()), SCAN_STOPS, Queued(ts, Tagged(index, ScanText(index, " Stopped."))))
    {
      hide MakePacket, Tagged, Accounts, Markers.ScanText;
      var comment, index := ptComment, ptScan;
      if mode.Ignore? {
        comment := "";
        index := scanIndex;
        scanIndex := 0;
        lastScanIndex := scanIndex;
      }
      EmitScan(ts, SCAN_STOPS, ScanStop, index, " Stopped.", comment);
    }

    /** A scan that hangs when a run starts or stops is stopped; at a start, what is said
        about it is queued for the run as well. */
    method StopHangingScan(ts: Stamp, atStart: bool)
      requires Valid() && |queues| == QUEUES
      modifies this`queues, this`entered, this`trace, this`scanIndex, this`lastScanIndex
      ensures Valid() && |queues| == QUEUES && old(trace) <= trace
      ensures scanIndex == 0 && lastScanIndex == old(scanIndex)
      ensures trace == old(trace) + ScanStopSaid(old(scanIndex), inRun, isPaused, ts, atStart)
      ensures Waits() == if atStart then ScanStopJoined(old(Waits()), old(scanIndex), ts) else old(Waits())
      ensures queues[NOTES] == old(queues)[NOTES]
    {
      hide Accounts, MakePacket, Tagged, PreRun, ScanAtStartText, ScanAtStopText;
      if scanIndex != 0 {
        var comment := ScanAtStopText();
        if atStart {
          comment := ScanAtStartText();
        }
        Emit(ts, ScanStop, scanIndex, "", comment, false);
        if atStart {
          Enqueue(SCAN_STOPS, ts, Tagged(scanIndex, PreRun(comment, "")));
        }
        lastScanIndex := scanIndex;
        scanIndex := 0;
      } else {
        lastScanIndex := 0;
      }
    }

    /** A pause that hangs when a run starts is resumed first. */
    method ResumeHangingPause(ts: Stamp, pausedPV: bool, prologues: seq<Prologue>)
      requires Valid() && |queues| == QUEUES
      modifies this`queues, this`entered, this`trace, this`notesSet, this`isPaused, this`lastIsPaused
      ensures Valid() && |queues| == QUEUES && old(trace) <= trace
      ensures !isPaused && lastIsPaused == (old(isPaused) || pausedPV)
      ensures Waits() == ResumeJoined(old(Waits()), inRun && Dumps(prologues), lastIsPaused, ts)
      ensures trace == old(trace) + ResumeSaid(Sight(), lastIsPaused, ts, prologues, old(queues), old(notesSet))
      ensures var files := AllFiles(Sight(), if lastIsPaused then prologues else [], old(queues), old(notesSet));
              queues[NOTES] == files.queues[NOTES] && notesSet == files.notesSet
    {
      hide Accounts, MakePacket, ResumedText, PreRun, Dumps, AllFiles, Join;
      if isPaused || pausedPV {
        lastIsPaused := true;
        isPaused := false;
        ChangeRecording(prologues);
        var comment := ResumedText();
        Emit(ts, Resume, scanIndex, "", comment, false);
        Enqueue(RESUMES, ts, PreRun(comment, ""));
      } else {
        lastIsPaused := false;
        NoFile(Sight(), queues, notesSet);
      }
    }

    /** Queues the comment that announces the run, a nanosecond after what came before,
        and any run notes kept from the last run. */
    method QueueForRun(ts: Stamp, notesPV: Option<(string, Stamp)>)
      requires Valid() && |queues| == QUEUES && ts + 1 < NEVER
      modifies this`queues, this`entered, this`trace, this`notesSet, this`useFirstNotes
      ensures Valid() && |queues| == QUEUES && old(trace) <= trace
      ensures Waits() == Announced(old(Waits()), Live(), runNumber, ts, notesPV)
      ensures trace == old(trace) + NoteKept(Live(), scanIndex, !old(notesSet) || updates, notesPV, old(queues)[NOTES] == [])
    {
      hide Accounts, StartedText, MakePacket;
      Enqueue(ANNOTATIONS, ts + 1, StartedText(runNumber));
      if notesPV.Some? && queues[NOTES] == [] {
        AddNotesComment(notesPV.value.1, Ignore, 0, "", Some(notesPV.value.0));
      }
    }

    method CleanUp(ts: Stamp, pausedPV: bool, prologues: seq<Prologue>)
      requires Valid() && |queues| == QUEUES
      modifies this`queues, this`entered, this`trace, this`notesSet, this`isPaused, this`lastIsPaused, this`scanIndex,
               this`lastScanIndex
      ensures Valid() && |queues| == QUEUES && old(trace) <= trace
      ensures !isPaused && lastIsPaused == (old(isPaused) || pausedPV)
      ensures scanIndex == 0 && lastScanIndex == old(scanIndex)
      ensures Waits() == CleanedUp(old(Waits()), inRun && Dumps(prologues), lastIsPaused, old(scanIndex), ts)
      ensures trace == old(trace) + CleanUpSaid(Unpaused(old(Sight()), lastIsPaused), lastIsPaused, ts, prologues,
                                                old(queues), old(notesSet))
      ensures var files := AllFiles(Unpaused(old(Sight()), lastIsPaused), if lastIsPaused then prologues else [],
                                    old(queues), old(notesSet));
              queues[NOTES] == files.queues[NOTES] && notesSet == files.notesSet
    {
      hide Accounts, ResumeSaid, ScanStopSaid, ResumeJoined, ScanStopJoined, Dumps, AllFiles;
      ResumeHangingPause(ts, pausedPV, prologues);
      StopHangingScan(ts, true);
    }

    /** What comes before the run flag. */
    method PrepareRun(number: nat, ts: Stamp, pausedPV: bool, notesPV: Option<(string, Stamp)>,
                      prologues: seq<Prologue>)
      requires Valid() && |queues| == QUEUES && ts + 1 < NEVER
      modifies this`queues, this`entered, this`trace, this`notesSet, this`useFirstNotes, this`isPaused,
               this`lastIsPaused, this`scanIndex, this`lastScanIndex, this`runNumber, this`lastRunNumber
      ensures Valid() && |queues| == QUEUES && old(trace) <= trace
      ensures runNumber == number && lastRunNumber == old(runNumber)
      ensures scanIndex == 0 && lastScanIndex == old(scanIndex)
      ensures !isPaused && lastIsPaused == (old(isPaused) || pausedPV)
      ensures Waits() == Announced(CleanedUp(old(Waits()), inRun && Dumps(prologues), lastIsPaused, old(scanIndex), ts),
                                   inRun, number, ts, notesPV)
      ensures
        var v := Unpaused(old(Sight()), lastIsPaused).(runNumber := number, lastRunNumber := old(runNumber));
        trace == old(trace) + PrepareSaid(v, lastIsPaused, ts, prologues, old(queues), old(notesSet), notesPV)
    {
      hide Accounts, CleanedUp, Announced, Join, Dumps, CleanUpSaid, NoteKept, AllFiles, OneFile, PrepareSaid;
      lastRunNumber := runNumber;
      runNumber := number;
      ghost var v, queues0, notesSet0, trace0 := Sight(), queues, notesSet, trace;
      CleanUp(ts, pausedPV, prologues);
      ghost var cleaned, kept := trace[|trace0|..], NoteKept(Live(), 0, !notesSet || updates, notesPV, queues[NOTES] == []);
      PrepareSays(Unpaused(v, lastIsPaused), lastIsPaused, ts, prologues, queues0, notesSet0, notesPV, queues, notesSet);
      QueueForRun(ts, notesPV);
      SaidBehind(trace0, cleaned, kept);
    }

    /** Cleaning up just before a run: a hanging pause is resumed and a hanging scan
        stopped, and what is said about it is queued for the run itself. What was queued
        before the run still is. */
    method BeforeNewRun(number: nat, ts: Stamp, pausedPV: bool, notesPV: Option<(string, Stamp)>,
                        prologues: seq<Prologue>)
      requires Valid() && |queues| == QUEUES && ts + 1 < NEVER
      modifies this
      ensures Valid() && |queues| == QUEUES
      ensures inRun && lastInRun == old(inRun) && runNumber == number && scanIndex == 0
      ensures lastRunNumber == old(runNumber) && lastScanIndex == old(scanIndex) && isPausedPT == old(isPausedPT)
      ensures !isPaused && lastIsPaused == (old(isPaused) || pausedPV)
      ensures old(trace) <= trace && |trace| > 0 && trace[|trace| - 1] == RunStarted
      ensures Waits() == Announced(CleanedUp(old(Waits()), old(inRun) && Dumps(prologues), lastIsPaused, old(scanIndex), ts),
                                   old(inRun), number, ts, notesPV)
      ensures !old(inRun) ==> Grown(old(queues), queues)
      ensures
        var v := Unpaused(old(Sight()), lastIsPaused).(runNumber := number, lastRunNumber := old(runNumber));
        trace == old(trace) + PrepareSaid(v, lastIsPaused, ts, prologues, old(queues), old(notesSet), notesPV)
                 + [RunStarted]
    {
      hide Accounts, CleanedUp, Announced, Join, Grown, Dumps, PrepareSaid;
      PrepareRun(number, ts, pausedPV, notesPV, prologues);
      ReadyKeeps(old(Waits()), lastIsPaused, old(scanIndex), number, ts, notesPV);
      ChangeRun(true);
    }

    /** The run flag itself; after a run, its notes may be set anew. */
    method ChangeRun(start: bool)
      requires Valid()
      modifies this`trace, this`inRun, this`lastInRun, this`notesSet
      ensures Valid() && inRun == start && lastInRun == old(inRun)
      ensures notesSet == (start && old(notesSet))
      ensures trace == old(trace) + [if start then RunStarted else RunStopped]
    {
      hide Accounts;
      if start {
        AccountsItem(queues, trace, entered, updates, notesSet, RunStarted);
        trace := trace + [RunStarted];
      } else {
        AccountsRunStopped(queues, trace, entered, updates, notesSet);
        trace := trace + [RunStopped];
        notesSet := false;
      }
      lastInRun := inRun;
      inRun := start;
    }

    /** The files that the end of a pause starts at the stop of a run do not mention the
        scan that still hangs. */
    method ChangeWithoutScan(prologues: seq<Prologue>)
      requires Valid() && |queues| == QUEUES
      modifies this`queues, this`trace, this`notesSet, this`scanIndex
      ensures Valid() && |queues| == QUEUES && old(trace) <= trace && scanIndex == old(scanIndex)
      ensures var files := AllFiles(Sight().(scanIndex := 0), prologues, old(queues), old(notesSet));
              queues == files.queues && notesSet == files.notesSet && trace == old(trace) + files.said
      ensures queues == if Live() && Dumps(prologues) then EMPTY else old(queues)
    {
      hide Accounts, AllFiles, Dumps;
      var saved := scanIndex;
      scanIndex := 0;
      ChangeRecording(prologues);
      scanIndex := saved;
    }

    method FinishPause(ts: Stamp, prologues: seq<Prologue>)
      requires Valid() && |queues| == QUEUES && !isPaused
      modifies this`queues, this`trace, this`notesSet, this`scanIndex
      ensures Valid() && |queues| == QUEUES && scanIndex == old(scanIndex)
      ensures queues == if inRun then EMPTY else old(queues)
      ensures trace == old(trace) + ResumeAtStopSaid(old(Sight()), ts, prologues, old(queues), old(notesSet))
    {
      hide Accounts, MakePacket, ResumedAtStopText, AllFiles, AllOut, Dumps, NoteSaid;
      ghost var trace0 := trace;
      ChangeWithoutScan(prologues);
      ghost var said := trace[|trace0|..];
      DumpAll(false);
      SaidBehind(trace0, said, trace[|trace0 + said|..]);
      Emit(ts, Resume, scanIndex, "", ResumedAtStopText(), false);
    }

    /** A pause that hangs when a run stops is resumed first, with the queues dumped
        before anything is said about it. */
    method ResumeAtStop(ts: Stamp, pausedPV: bool, prologues: seq<Prologue>)
      requires Valid() && |queues| == QUEUES
      modifies this`queues, this`trace, this`notesSet, this`isPaused, this`lastIsPaused, this`scanIndex
      ensures Valid() && |queues| == QUEUES && old(trace) <= trace && scanIndex == old(scanIndex)
      ensures !isPaused && lastIsPaused == (old(isPaused) || pausedPV)
      ensures queues == if lastIsPaused && inRun then EMPTY else old(queues)
      ensures !lastIsPaused ==> trace == old(trace) && notesSet == old(notesSet)
      ensures lastIsPaused ==> trace == old(trace) + ResumeAtStopSaid(Sight(), ts, prologues, old(queues), old(notesSet))
    {
      hide Accounts, ResumeAtStopSaid;
      if isPaused || pausedPV {
        lastIsPaused := true;
        isPaused := false;
        FinishPause(ts, prologues);
      } else {
        lastIsPaused := false;
      }
    }

    /** The hanging scan, the stop of the run, and the run flag. */
    method SayStopped(ts: Stamp)
      requires Valid() && |queues| == QUEUES
      modifies this`entered, this`queues, this`trace, this`scanIndex, this`lastScanIndex, this`inRun, this`lastInRun,
               this`notesSet
      ensures Valid() && Waits() == old(Waits())
      ensures !inRun && lastInRun == old(inRun) && !notesSet && scanIndex == 0
      ensures trace == old(trace) + Stops(ts, old(scanIndex), runNumber, old(inRun), isPaused)
    {
      hide Accounts, MakePacket, StoppedText, ScanStopSaid;
      StopHangingScan(ts, false);
      Emit(ts, Generic, scanIndex, "", StoppedText(runNumber), false);
      ChangeRun(false);
    }

    /** The end of a run. Nothing is queued, and what was queued for an active run has all
        been taken before the stop is said. */
    method RunStop(ts: Stamp, pausedPV: bool, prologues: seq<Prologue>)
      requires Valid() && |queues| == QUEUES
      modifies this
      ensures Valid() && |queues| == QUEUES
      ensures !inRun && lastInRun == old(inRun) && !isPaused && !notesSet && scanIndex == 0
      ensures lastIsPaused == (old(isPaused) || pausedPV)
      ensures runNumber == old(runNumber) && isPausedPT == old(isPausedPT)
      ensures Waits() == if old(inRun) then Cleared(old(Waits())) else old(Waits())
      ensures trace == old(trace)
        + (if lastIsPaused then ResumeAtStopSaid(Unpaused(old(Sight()), true), ts, prologues, old(queues), old(notesSet))
           else if old(inRun) then AllOut(old(queues), !old(notesSet) || updates, useFirstNotes, old(scanIndex), false)
           else [])
        + Stops(ts, old(scanIndex), runNumber, old(inRun), false)
    {
      hide Accounts, Stops, ResumedAtStopText, MakePacket, AllOut, ResumeAtStopSaid;
      NothingOut(updates, notesSet, useFirstNotes, scanIndex);
      ResumeAtStop(ts, pausedPV, prologues);
      DumpAll(false);
      SayStopped(ts);
    }
  }

  /** What is said of a scan that hangs when a run starts or stops. */
  function ScanStopSaid(scanIndex: nat, inRun: bool, paused: bool, ts: Stamp, atStart: bool): seq<Item> {
    if scanIndex == 0 then []
    else [Emitted(MakePacket(ts, ScanStop, scanIndex, "", HangingScanText(atStart), false), Direct, inRun, paused)]
  }

  /** And what waits for the run because of it, at a start. */
  function ScanStopJoined(w: Waiting, scanIndex: nat, ts: Stamp): (r: Waiting)
    requires |w.queues| == QUEUES
    ensures |r.queues| == QUEUES
  {
    if scanIndex == 0 then w
    else Join(w, SCAN_STOPS, Queued(ts, Tagged(scanIndex, PreRun(HangingScanText(true), ""))))
  }

  /** What waits for the run when a hanging pause is resumed before it. */
  function ResumeJoined(w: Waiting, dumped: bool, hanging: bool, ts: Stamp): (r: Waiting)
    requires |w.queues| == QUEUES
    ensures |r.queues| == QUEUES
  {
    if hanging then Join(if dumped then Cleared(w) else w, RESUMES, Queued(ts, PreRun(ResumedText(), ""))) else w
  }

  /** The sight of a run that is about to start or stop: a pause has just been ended. */
  function Unpaused(v: View, hanging: bool): View {
    v.(isPaused := false, lastIsPaused := hanging)
  }

  /** What is said when a hanging pause is resumed before a run. */
  function ResumeSaid(v: View, hanging: bool, ts: Stamp, prologues: seq<Prologue>, queues: seq<seq<Queued>>,
                      notesSet: bool): seq<Item>
    requires |queues| == QUEUES
  {
    if !hanging then []
    else AllFiles(v, prologues, queues, notesSet).said
         + [Emitted(MakePacket(ts, Resume, v.scanIndex, "", ResumedText(), false), Direct, v.inRun, false)]
  }

  /** And with a hanging scan, too. */
  function CleanUpSaid(v: View, hanging: bool, ts: Stamp, prologues: seq<Prologue>, queues: seq<seq<Queued>>,
                       notesSet: bool): seq<Item>
    requires |queues| == QUEUES
  {
    ResumeSaid(v, hanging, ts, prologues, queues, notesSet) + ScanStopSaid(v.scanIndex, v.inRun, false, ts, true)
  }

  /** Notes that persist are said at once when a run starts inside a live one. */
  function NoteKept(live: bool, scanIndex: nat, due: bool, notesPV: Option<(string, Stamp)>, none: bool): seq<Item> {
    if notesPV.None? || !none || !live then []
    else
      var (text, ts) := notesPV.value;
      [Emitted(if due then MakePacket(ts, OverallRunComment, scanIndex, "", text, false)
               else MakePacket(ts, Generic, scanIndex, DISCARDED, text, false), Direct, true, false)]
  }

  /** All that is said before the run flag. */
  function PrepareSaid(v: View, hanging: bool, ts: Stamp, prologues: seq<Prologue>, queues: seq<seq<Queued>>,
                       notesSet: bool, notesPV: Option<(string, Stamp)>): seq<Item>
    requires |queues| == QUEUES
  {
    var files := AllFiles(v, if hanging then prologues else [], queues, notesSet);
    CleanUpSaid(v, hanging, ts, prologues, queues, notesSet)
    + NoteKept(v.Live(), 0, !files.notesSet || v.updates, notesPV, files.queues[NOTES] == [])
  }

  lemma PrepareSays(v: View, hanging: bool, ts: Stamp, prologues: seq<Prologue>, queues0: seq<seq<Queued>>,
                    notesSet0: bool, notesPV: Option<(string, Stamp)>, queues: seq<seq<Queued>>, notesSet: bool)
    requires |queues0| == QUEUES == |queues|
    requires var files := AllFiles(v, if hanging then prologues else [], queues0, notesSet0);
             queues[NOTES] == files.queues[NOTES] && notesSet == files.notesSet
    ensures PrepareSaid(v, hanging, ts, prologues, queues0, notesSet0, notesPV)
            == CleanUpSaid(v, hanging, ts, prologues, queues0, notesSet0)
               + NoteKept(v.Live(), 0, !notesSet || v.updates, notesPV, queues[NOTES] == [])
  {
  }

  /** What is said in two steps is said one behind the other. */
  lemma SaidBehind(before: seq<Item>, first: seq<Item>, second: seq<Item>)
    ensures before + first + second == before + (first + second)
  {
  }

  /** What is said when a hanging pause is resumed at the stop of a run: the files that
      this starts do not mention the scan; then all that still waits for an active run. */
  function ResumeAtStopSaid(v: View, ts: Stamp, prologues: seq<Prologue>, queues: seq<seq<Queued>>,
                            notesSet: bool): seq<Item>
    requires |queues| == QUEUES
  {
    var files := AllFiles(v.(scanIndex := 0), prologues, queues, notesSet);
    files.said
    + (if v.inRun then AllOut(files.queues, !files.notesSet || v.updates, v.useFirstNotes, v.scanIndex, false) else [])
    + [Emitted(MakePacket(ts, Resume, v.scanIndex, "", ResumedAtStopText(), false), Direct, v.inRun, false)]
  }

  lemma NothingOut(updates: bool, notesSet: bool, first: bool, index: nat)
    ensures forall due :: AllOut(EMPTY, due, first, index, false) == []
  {
  }

  /** What the clean-up before a run puts on the queues. */
  function CleanedUp(w: Waiting, dumped: bool, hanging: bool, scanIndex: nat, ts: Stamp): (r: Waiting)
    requires |w.queues| == QUEUES
    ensures |r.queues| == QUEUES
  {
    ScanStopJoined(ResumeJoined(w, dumped, hanging, ts), scanIndex, ts)
  }

  /** What the announcement of a run does: notes that persist are used again only when
      none wait. */
  function Announced(w: Waiting, live: bool, number: nat, ts: Stamp, notesPV: Option<(string, Stamp)>): (r: Waiting)
    requires |w.queues| == QUEUES && ts + 1 < NEVER
    ensures |r.queues| == QUEUES
  {
    var announced := Join(w, ANNOTATIONS, Queued(ts + 1, StartedText(number)));
    if notesPV.Some? && w.queues[NOTES] == [] && !live
    then Join(announced, NOTES, Queued(notesPV.value.1, notesPV.value.0)) else announced
  }

  /** No queue has lost anything from its front. */
  predicate Grown(before: seq<seq<Queued>>, after: seq<seq<Queued>>) {
    |after| == |before| && forall q :: 0 <= q < |before| ==> before[q] <= after[q]
  }

  lemma ReadyKeeps(w: Waiting, hanging: bool, scanIndex: nat, number: nat, ts: Stamp, notesPV: Option<(string, Stamp)>)
    requires |w.queues| == QUEUES && ts + 1 < NEVER
    ensures var r := Announced(CleanedUp(w, false, hanging, scanIndex, ts), false, number, ts, notesPV);
            Grown(w.queues, r.queues)
  {
    hide PreRun, ResumedText, Tagged, HangingScanText, StartedText;
  }

  /** What waits and has been said after these files, behind what was said before. */
  predicate FilesAre(v: View, prologues: seq<Prologue>, queues0: seq<seq<Queued>>, notesSet0: bool, said0: seq<Item>,
                     queues: seq<seq<Queued>>, notesSet: bool, said: seq<Item>)
    requires |queues0| == QUEUES
  {
    var files := AllFiles(v, prologues, queues0, notesSet0);
    queues == files.queues && notesSet == files.notesSet && said == said0 + files.said
  }

  lemma NoFiles(v: View, prologues: seq<Prologue>, queues: seq<seq<Queued>>, notesSet: bool, said: seq<Item>)
    requires |queues| == QUEUES
    ensures FilesAre(v, prologues[..0], queues, notesSet, said, queues, notesSet, said)
    ensures !Dumps(prologues[..0])
  {
  }

  lemma NoFile(v: View, queues: seq<seq<Queued>>, notesSet: bool)
    requires |queues| == QUEUES
    ensures AllFiles(v, [], queues, notesSet) == Files(queues, notesSet, [])
  {
  }

  lemma FilesSay(v: View, prologues: seq<Prologue>, queues0: seq<seq<Queued>>, notesSet0: bool, said0: seq<Item>,
                 queues: seq<seq<Queued>>, notesSet: bool, said: seq<Item>)
    requires |queues0| == QUEUES
    requires FilesAre(v, prologues, queues0, notesSet0, said0, queues, notesSet, said)
    ensures var files := AllFiles(v, prologues, queues0, notesSet0);
            queues == files.queues && notesSet == files.notesSet && said == said0 + files.said && said0 <= said
  {
  }

  lemma FilesNext(v: View, prologues: seq<Prologue>, i: nat, queues0: seq<seq<Queued>>, notesSet0: bool, said0: seq<Item>,
                  queues: seq<seq<Queued>>, notesSet: bool, said: seq<Item>)
    requires i < |prologues| && |queues0| == QUEUES == |queues|
    requires FilesAre(v, prologues[..i], queues0, notesSet0, said0, queues, notesSet, said)
    ensures var next := OneFile(v, Files(queues, notesSet, said), prologues[i]);
            FilesAre(v, prologues[..i + 1], queues0, notesSet0, said0, next.queues, next.notesSet, next.said)
  {
    assert prologues[..i + 1][..i] == prologues[..i];
    var files := AllFiles(v, prologues[..i], queues0, notesSet0);
    OneFileBehind(v, files, said0, prologues[i]);
    hide OneFile;
  }

  /** What a file says does not depend on what was said before. */
  lemma OneFileBehind(v: View, f: Files, said0: seq<Item>, p: Prologue)
    requires |f.queues| == QUEUES
    ensures OneFile(v, f.(said := said0 + f.said), p) ==
            var r := OneFile(v, f, p); r.(said := said0 + r.said)
  {
    hide AllOut, Continued, Dumped, Merged;
  }

  lemma DumpsStep(prologues: seq<Prologue>, i: nat)
    requires i < |prologues|
    ensures Dumps(prologues[..i + 1]) <==> Dumps(prologues[..i]) || !prologues[i].captureLast
  {
    if Dumps(prologues[..i]) {
      var k :| 0 <= k < i && !prologues[..i][k].captureLast;
      assert !prologues[..i + 1][k].captureLast;
    }
    if Dumps(prologues[..i + 1]) && prologues[i].captureLast {
      var k :| 0 <= k <= i && !prologues[..i + 1][k].captureLast;
      assert !prologues[..i][k].captureLast;
    }
    assert prologues[..i + 1][i] == prologues[i];
  }

  /** What a dump of a live run emits: the run's note, if it is due, and then all that
      still waits, merged by time. */
  function AllOut(queues: seq<seq<Queued>>, due: bool, first: bool, index: nat, prologue: bool): seq<Item>
    requires |queues| == QUEUES
  {
    var notes := queues[NOTES];
    if due && notes != [] then
      var e := if first then notes[0] else notes[|notes| - 1];
      var rest := queues[NOTES := if first then notes[1..] else notes[..|notes| - 1]];
      [Emitted(MakePacket(e.time, OverallRunComment, index, "", e.text, prologue), Taken(Ticket(NOTES, e)), true, false)]
      + Dumped(Merged(rest), index, prologue, false, true, false)
    else Dumped(Merged(queues), index, prologue, false, true, false)
  }

  /** What is said last when a run stops. */
  function Stops(ts: Stamp, scanIndex: nat, runNumber: nat, inRun: bool, paused: bool): seq<Item> {
    ScanStopSaid(scanIndex, inRun, paused, ts, false)
    + [Emitted(MakePacket(ts, Generic, 0, "", StoppedText(runNumber), false), Direct, inRun, paused), RunStopped]
  }

  function CommentOf(mode: PassThru, ptComment: string, pv: Option<string>): string {
    if !mode.Ignore? then ptComment else if pv.Some? then pv.value else NO_COMMENT
  }

  function PreRun(phrase: string, comment: string): string {
    "[PRE-RUN] " + phrase + comment
  }

  function StartedText(number: nat): string {
    "Run " + Decimal(number) + " Started."
  }

  function StoppedText(number: nat): string {
    "Run " + Decimal(number) + " Stopped."
  }

  function PausedText(): string {
    "Paused."
  }

  function ResumedRunText(): string {
    "Resumed."
  }

  function ResumedText(): string {
    "Warning: Run Resumed at New Run Start!"
  }

  function ResumedAtStopText(): string {
    "Warning: Run Resumed at Run Stop!"
  }

  function ScanAtStartText(): string {
    "Warning: Scan Stopped at New Run Start!"
  }

  function ScanAtStopText(): string {
    "Warning: Scan Stopped at Run Stop!"
  }

  function HangingScanText(atStart: bool): string {
    if atStart then ScanAtStartText() else ScanAtStopText()
  }

  const CONTINUED := "[NEW RUN FILE CONTINUATION] "

  /** What a new file says of a scan or a pause that goes on: what its marker said. */
  function ContinuedScan(run: bool, paused: bool, number: nat, index: nat): string {
    CONTINUED + ScanTextOf(run, paused, number, index, " Started.")
  }

  function ContinuedPause(run: bool, number: nat): string {
    CONTINUED + (if run then "" else "[PRE-RUN] ") + PhraseOf(run, number) + PausedText()
  }

  function ScanPhrase(index: nat): (phrase: string)
    ensures index == 0 ==> phrase == "Pre-Scan: "
    ensures index > 0 ==> phrase == "Scan " + Decimal(index) + ": "
  {
    if index != 0 then "Scan " + Decimal(index) + ": " else "Pre-Scan: "
  }
}
