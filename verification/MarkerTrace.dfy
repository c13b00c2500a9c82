/** The packets that markers emit, and two audits of them: that run notes are emitted at
    most once a run, and that every queued entry is emitted exactly once. */
module MarkerTrace {
  import opened MarkerMerge
  import opened MarkerText

  datatype Kind = Generic | ScanStart | ScanStop | Pause | Resume | OverallRunComment | System

  datatype Packet = Packet(time: nat, kind: Kind, scanIndex: nat, text: string, prologue: bool)

  /** Whether a packet was made on the spot, took a queued entry off its queue, or copied
      one for a captured prologue. */
  datatype Origin = Direct | Taken(t: Ticket) | Copied(t: Ticket)

  /** A packet with the run state at the time, or a change of run. */
  datatype Item =
    | Emitted(packet: Packet, origin: Origin, inRun: bool, paused: bool)
    | RunStarted
    | RunStopped

  function MakePacket(time: nat, kind: Kind, scanIndex: nat, prefix: string, comment: string, prologue: bool): (p: Packet)
    ensures p.time == time && p.kind == kind && p.prologue == prologue && SentOf(prefix + comment, p.text)
    ensures p.scanIndex == scanIndex || (kind.OverallRunComment? && p.scanIndex == 0)
    ensures kind.OverallRunComment? ==> p.scanIndex == 0
  {
    Packet(time, kind, if kind.OverallRunComment? then 0 else scanIndex, Clip(prefix + comment), prologue)
  }

  // The eight queues, in the fixed order in which they are compared.
  const PAUSES: nat := 0
  const RESUMES: nat := 1
  const SCAN_STARTS: nat := 2
  const SCAN_STOPS: nat := 3
  const SCAN_COMMENTS: nat := 4
  const NOTES: nat := 5
  const ANNOTATIONS: nat := 6
  const SYSTEMS: nat := 7

  function KindOf(queue: nat): Kind {
    if queue == PAUSES then Pause
    else if queue == RESUMES then Resume
    else if queue == SCAN_STARTS then ScanStart
    else if queue == SCAN_STOPS then ScanStop
    else if queue == SYSTEMS then System
    else Generic
  }

  /** The kind of marker that waits in a queue. */
  predicate IsOf(kind: Kind, queue: nat) {
    && (kind.Pause? <==> queue == PAUSES) && (kind.Resume? <==> queue == RESUMES)
    && (kind.ScanStart? <==> queue == SCAN_STARTS) && (kind.ScanStop? <==> queue == SCAN_STOPS)
    && (kind.System? <==> queue == SYSTEMS) && !kind.OverallRunComment?
  }

  predicate IsScan(queue: nat) {
    queue == SCAN_STARTS || queue == SCAN_STOPS || queue == SCAN_COMMENTS
  }

  const DISCARDED := "[DISCARDED RUN NOTES] "

  /** What a dump emits for one queued entry. */
  function DumpItem(t: Ticket, scanIndex: nat, prologue: bool, capture: bool, inRun: bool, paused: bool): (item: Item)
    ensures item.Emitted? && item.inRun == inRun && item.paused == paused && item.packet.prologue == prologue
    ensures !item.packet.kind.OverallRunComment?
    ensures !IsScan(t.queue) ==> item.packet.scanIndex == scanIndex
  {
    var (index, text) := if IsScan(t.queue) then Untag(t.entry.text, scanIndex) else (scanIndex, t.entry.text);
    Emitted(MakePacket(t.entry.time, KindOf(t.queue), index, if t.queue == NOTES then DISCARDED else "", text, prologue),
            if capture then Copied(t) else Taken(t), inRun, paused)
  }

  function Dumped(ts: seq<Ticket>, scanIndex: nat, prologue: bool, capture: bool, inRun: bool, paused: bool): seq<Item> {
    seq(|ts|, i requires 0 <= i < |ts| => DumpItem(ts[i], scanIndex, prologue, capture, inRun, paused))
  }

  /** A scan marker's text without its index. */
  function TextOf(t: Ticket): string {
    if IsScan(t.queue) then Untag(t.entry.text, 0).1 else t.entry.text
  }

  /** A packet that says what was queued, at the time it was queued for: as the note of a
      run, or as a marker of its queue's kind, and then a scan marker with its own index. */
  ghost predicate Says(p: Packet, t: Ticket) {
    && p.time == t.entry.time
    && if p.kind.OverallRunComment? then t.queue == NOTES && SentOf(t.entry.text, p.text)
       else
         && IsOf(p.kind, t.queue)
         && SentOf((if t.queue == NOTES then "[DISCARDED RUN NOTES] " else "") + TextOf(t), p.text)
         && (IsScan(t.queue) ==>
               forall index, text :: t.entry.text == Tagged(index, text) ==> p.scanIndex == index && SentOf(text, p.text))
  }

  ghost predicate TellsTruth(item: Item) {
    item.Emitted? && !item.origin.Direct? ==> Says(item.packet, item.origin.t)
  }

  ghost predicate AllTrue(trace: seq<Item>) {
    forall i :: 0 <= i < |trace| ==> TellsTruth(trace[i])
  }

  lemma DumpIsTrue(ts: seq<Ticket>, scanIndex: nat, prologue: bool, capture: bool, inRun: bool, paused: bool)
    ensures AllTrue(Dumped(ts, scanIndex, prologue, capture, inRun, paused))
  {
    forall i | 0 <= i < |ts|
      ensures TellsTruth(Dumped(ts, scanIndex, prologue, capture, inRun, paused)[i])
    {
      DumpSays(ts[i], scanIndex, prologue, capture, inRun, paused);
    }
  }

  lemma DumpSays(t: Ticket, scanIndex: nat, prologue: bool, capture: bool, inRun: bool, paused: bool)
    ensures Says(DumpItem(t, scanIndex, prologue, capture, inRun, paused).packet, t)
  {
    hide Clip, FindBar, IsNumber, Parse, Tagged, SentOf;
    var p := DumpItem(t, scanIndex, prologue, capture, inRun, paused).packet;
    assert "" + TextOf(t) == TextOf(t);
    if IsScan(t.queue) {
      forall index, text | t.entry.text == Tagged(index, text)
        ensures p.scanIndex == index && SentOf(text, p.text)
      {
        UntagTagged(index, text, scanIndex);
        UntagTagged(index, text, 0);
      }
    }
  }

  lemma DumpedStep(ts: seq<Ticket>, scanIndex: nat, prologue: bool, capture: bool, inRun: bool, paused: bool, i: nat)
    requires i <= |ts|
    ensures i == 0 ==> Dumped(ts[..i], scanIndex, prologue, capture, inRun, paused) == []
    ensures i < |ts| ==>
              Dumped(ts[..i + 1], scanIndex, prologue, capture, inRun, paused) ==
              Dumped(ts[..i], scanIndex, prologue, capture, inRun, paused)
              + [DumpItem(ts[i], scanIndex, prologue, capture, inRun, paused)]
  {
    hide DumpItem;
  }

  predicate IsNote(item: Item) {
    item.Emitted? && item.packet.kind.OverallRunComment?
  }

  /** Run notes seen since the last run stopped, and whether all of them were in order:
      inside a run, not while paused, and, unless updates are enabled, the first of their run. */
  datatype NoteAudit = NoteAudit(ok: bool, count: nat)

  function AuditNotes(updates: bool, trace: seq<Item>): NoteAudit {
    if trace == [] then NoteAudit(true, 0)
    else
      var a, item := AuditNotes(updates, trace[..|trace| - 1]), trace[|trace| - 1];
      if item.RunStopped? then NoteAudit(a.ok, 0)
      else if IsNote(item) then
        NoteAudit(a.ok && item.inRun && !item.paused && (updates || a.count == 0), a.count + 1)
      else a
  }

  lemma AuditNotesAppend(updates: bool, trace: seq<Item>, item: Item)
    ensures AuditNotes(updates, trace + [item]) ==
      var a := AuditNotes(updates, trace);
      if item.RunStopped? then NoteAudit(a.ok, 0)
      else if IsNote(item) then
        NoteAudit(a.ok && item.inRun && !item.paused && (updates || a.count == 0), a.count + 1)
      else a
  {
  }

  lemma {:induction false} AuditNotesPrefix(updates: bool, trace: seq<Item>, n: nat)
    requires AuditNotes(updates, trace).ok && n <= |trace|
    ensures AuditNotes(updates, trace[..n]).ok
    decreases |trace|
  {
    if n < |trace| {
      assert trace[..|trace| - 1][..n] == trace[..n];
      AuditNotesPrefix(updates, trace[..|trace| - 1], n);
    } else {
      assert trace[..n] == trace;
    }
  }

  lemma {:induction false} NotesCounted(updates: bool, trace: seq<Item>, i: nat)
    requires i < |trace| && IsNote(trace[i])
    requires forall k :: i < k < |trace| ==> !trace[k].RunStopped?
    ensures AuditNotes(updates, trace).count > 0
    decreases |trace|
  {
    if i < |trace| - 1 {
      var init := trace[..|trace| - 1];
      assert init[i] == trace[i] && forall k :: i < k < |init| ==> init[k] == trace[k];
      NotesCounted(updates, init, i);
    }
  }

  /** Every run note is emitted inside a run that is not paused. */
  lemma NotesInsideRuns(updates: bool, trace: seq<Item>, j: nat)
    requires AuditNotes(updates, trace).ok && j < |trace| && IsNote(trace[j])
    ensures trace[j].inRun && !trace[j].paused
    ensures updates || AuditNotes(updates, trace[..j]).count == 0
  {
    AuditNotesPrefix(updates, trace, j + 1);
    assert trace[..j + 1] == trace[..j] + [trace[j]];
    AuditNotesAppend(updates, trace[..j], trace[j]);
  }

  /** With updates disabled, any two run notes belong to different runs. */
  lemma OneNotePerRun(trace: seq<Item>, i: nat, j: nat)
    requires AuditNotes(false, trace).ok
    requires i < j < |trace| && IsNote(trace[i]) && IsNote(trace[j])
    ensures exists k :: i < k < j && trace[k].RunStopped?
  {
    NotesInsideRuns(false, trace, j);
    var before := trace[..j];
    if forall k :: i < k < j ==> !trace[k].RunStopped? {
      assert before[i] == trace[i] && forall k :: i < k < j ==> before[k] == trace[k];
      NotesCounted(false, before, i);
    }
  }

  /** How often a trace takes an entry off its queue. */
  function TakenCount(trace: seq<Item>, t: Ticket): nat {
    if trace == [] then 0
    else TakenCount(trace[..|trace| - 1], t) + (if Takes(trace[|trace| - 1], t) then 1 else 0)
  }

  predicate Takes(item: Item, t: Ticket) {
    item.Emitted? && item.origin == Taken(t)
  }

  lemma TakenAppend(trace: seq<Item>, item: Item, t: Ticket)
    ensures TakenCount(trace + [item], t) == TakenCount(trace, t) + (if Takes(item, t) then 1 else 0)
  {
  }

  function CountIn(s: seq<Queued>, e: Queued): nat {
    if s == [] then 0 else CountIn(s[..|s| - 1], e) + (if s[|s| - 1] == e then 1 else 0)
  }

  /** How often an entry waits in its queue. */
  function HeldCount(qs: seq<seq<Queued>>, t: Ticket): nat {
    if t.queue < |qs| then CountIn(qs[t.queue], t.entry) else 0
  }

  function TicketCount(ts: seq<Ticket>, t: Ticket): nat {
    if ts == [] then 0 else (if ts[0] == t then 1 else 0) + TicketCount(ts[1..], t)
  }

  lemma {:induction false} CountFront(s: seq<Queued>, f: Queued)
    requires s != []
    ensures CountIn(s, f) == CountIn(s[1..], f) + (if s[0] == f then 1 else 0)
  {
    if |s| == 1 {
      assert s[..0] == [] && s[1..] == [];
    } else {
      assert s[1..][..|s| - 2] == s[..|s| - 1][1..];
      CountFront(s[..|s| - 1], f);
    }
  }

  /** The merge takes every waiting entry once. */
  lemma {:induction false} MergedIsHeld(qs: seq<seq<Queued>>, t: Ticket)
    ensures TicketCount(Merged(qs), t) == HeldCount(qs, t)
    decreases Total(qs)
  {
    if !Exhausted(qs) {
      AfterIsSmaller(qs);
      MergedIsHeld(After(qs), t);
      var n := Next(qs);
      assert Merged(qs)[1..] == Merged(After(qs));
      CountFront(qs[n.queue], t.entry);
    } else if t.queue < |qs| {
      assert qs[t.queue] == [];
    }
  }

  /** A dump that is not a capture takes the entries it emits. */
  lemma {:induction false} DumpTakes(before: seq<Item>, ts: seq<Ticket>, scanIndex: nat, prologue: bool,
                                     capture: bool, inRun: bool, paused: bool, t: Ticket)
    ensures TakenCount(before + Dumped(ts, scanIndex, prologue, capture, inRun, paused), t)
            == TakenCount(before, t) + (if capture then 0 else TicketCount(ts, t))
    decreases |ts|
  {
    hide MakePacket, Untag, KindOf;
    var all := Dumped(ts, scanIndex, prologue, capture, inRun, paused);
    if ts == [] {
      assert before + all == before;
    } else {
      var first := DumpItem(ts[0], scanIndex, prologue, capture, inRun, paused);
      var rest := Dumped(ts[1..], scanIndex, prologue, capture, inRun, paused);
      assert all == [first] + rest;
      hide DumpItem, Dumped;
      TakenAppend(before, first, t);
      DumpTakes(before + [first], ts[1..], scanIndex, prologue, capture, inRun, paused, t);
      assert before + all == before + [first] + rest;
    }
  }

  /** And none of it is a run note. */
  lemma {:induction false} DumpHasNoNotes(updates: bool, before: seq<Item>, ts: seq<Ticket>, scanIndex: nat,
                                          prologue: bool, capture: bool, inRun: bool, paused: bool)
    ensures AuditNotes(updates, before + Dumped(ts, scanIndex, prologue, capture, inRun, paused))
            == AuditNotes(updates, before)
    decreases |ts|
  {
    hide MakePacket, Untag, KindOf, IsScan;
    var all := Dumped(ts, scanIndex, prologue, capture, inRun, paused);
    if ts == [] {
      assert before + all == before;
    } else {
      var first := DumpItem(ts[0], scanIndex, prologue, capture, inRun, paused);
      var rest := Dumped(ts[1..], scanIndex, prologue, capture, inRun, paused);
      assert all == [first] + rest;
      hide DumpItem, Dumped;
      AuditNotesAppend(updates, before, first);
      DumpHasNoNotes(updates, before + [first], ts[1..], scanIndex, prologue, capture, inRun, paused);
      assert before + all == before + [first] + rest;
    }
  }

  /** A scan marker queued with its index is dumped with that index and its own text. */
  lemma DumpKeepsScanIndex(t: Ticket, index: nat, text: string, scanIndex: nat, prologue: bool, capture: bool,
                           inRun: bool, paused: bool)
    requires IsScan(t.queue)
    requires t.entry.text == Tagged(index, text)
    ensures DumpItem(t, scanIndex, prologue, capture, inRun, paused).packet ==
            MakePacket(t.entry.time, KindOf(t.queue), index, "", text, prologue)
  {
    UntagTagged(index, text, scanIndex);
  }
}
