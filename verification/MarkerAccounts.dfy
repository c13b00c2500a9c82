/** What every marker operation keeps, as facts about queues and trace. */
module MarkerAccounts {
  import opened MarkerMerge
  import opened MarkerTrace

  /** Every entry ever queued waits or has been taken exactly once, by a packet that says
      what was queued, and the run notes of the trace are in order. */
  ghost predicate Accounts(queues: seq<seq<Queued>>, trace: seq<Item>, entered: multiset<Ticket>,
                           updates: bool, notesSet: bool)
  {
    && |queues| == QUEUES
    && (forall t :: entered[t] == TakenCount(trace, t) + HeldCount(queues, t))
    && AllTrue(trace) && AuditNotes(updates, trace).ok
    && (!notesSet ==> AuditNotes(updates, trace).count == 0)
  }

  lemma AccountsStart(updates: bool)
    ensures Accounts([[], [], [], [], [], [], [], []], [], multiset{}, updates, false)
  {
  }

  /** A packet made on the spot that is not a run note, or the start of a run. */
  lemma AccountsItem(queues: seq<seq<Queued>>, trace: seq<Item>, entered: multiset<Ticket>,
                     updates: bool, notesSet: bool, item: Item)
    requires Accounts(queues, trace, entered, updates, notesSet)
    requires item.RunStarted? || (item.Emitted? && item.origin.Direct? && !IsNote(item))
    ensures Accounts(queues, trace + [item], entered, updates, notesSet)
  {
  }

  /** A run note made on the spot. */
  lemma AccountsNote(queues: seq<seq<Queued>>, trace: seq<Item>, entered: multiset<Ticket>,
                     updates: bool, notesSet: bool, item: Item)
    requires Accounts(queues, trace, entered, updates, notesSet)
    requires IsNote(item) && item.origin.Direct? && item.inRun && !item.paused && (!notesSet || updates)
    ensures Accounts(queues, trace + [item], entered, updates, true)
  {
  }

  /** The end of a run, after which notes may be set again. */
  lemma AccountsRunStopped(queues: seq<seq<Queued>>, trace: seq<Item>, entered: multiset<Ticket>,
                           updates: bool, notesSet: bool)
    requires Accounts(queues, trace, entered, updates, notesSet)
    ensures Accounts(queues, trace + [RunStopped], entered, updates, false)
  {
  }

  lemma AccountsEnqueue(queues: seq<seq<Queued>>, trace: seq<Item>, entered: multiset<Ticket>,
                        updates: bool, notesSet: bool, q: nat, e: Queued)
    requires Accounts(queues, trace, entered, updates, notesSet) && q < QUEUES
    ensures Accounts(queues[q := queues[q] + [e]], trace, entered + multiset{Ticket(q, e)}, updates, notesSet)
  {
  }

  /** Taking one entry out of the notes queue as the note of the run. */
  lemma AccountsTakeNote(queues: seq<seq<Queued>>, trace: seq<Item>, entered: multiset<Ticket>,
                         updates: bool, notesSet: bool, first: bool, item: Item)
    requires Accounts(queues, trace, entered, updates, notesSet) && queues[NOTES] != []
    requires var notes := queues[NOTES];
             item.Emitted? && item.origin == Taken(Ticket(NOTES, if first then notes[0] else notes[|notes| - 1]))
    requires IsNote(item) && item.inRun && !item.paused && (!notesSet || updates) && TellsTruth(item)
    ensures var notes := queues[NOTES];
            Accounts(queues[NOTES := if first then notes[1..] else notes[..|notes| - 1]],
                     trace + [item], entered, updates, true)
  {
    var notes := queues[NOTES];
    AuditNotesAppend(updates, trace, item);
    forall t: Ticket
      ensures var queues' := queues[NOTES := if first then notes[1..] else notes[..|notes| - 1]];
              TakenCount(trace + [item], t) + HeldCount(queues', t) == TakenCount(trace, t) + HeldCount(queues, t)
    {
      TakenAppend(trace, item, t);
      CountFront(notes, t.entry);
    }
  }

  /** A dump: a capture changes no account, a real dump leaves every queue empty. */
  lemma AccountsDump(queues: seq<seq<Queued>>, trace: seq<Item>, entered: multiset<Ticket>, updates: bool,
                     notesSet: bool, scanIndex: nat, prologue: bool, capture: bool, inRun: bool, paused: bool)
    requires Accounts(queues, trace, entered, updates, notesSet)
    ensures var trace' := trace + Dumped(Merged(queues), scanIndex, prologue, capture, inRun, paused);
            Accounts(if capture then queues else EMPTY, trace', entered, updates, notesSet)
  {
    DumpIsTrue(Merged(queues), scanIndex, prologue, capture, inRun, paused);
    DumpHasNoNotes(updates, trace, Merged(queues), scanIndex, prologue, capture, inRun, paused);
    forall t: Ticket
      ensures var trace' := trace + Dumped(Merged(queues), scanIndex, prologue, capture, inRun, paused);
              TakenCount(trace', t) + HeldCount(if capture then queues else EMPTY, t)
              == TakenCount(trace, t) + HeldCount(queues, t)
    {
      DumpTakes(trace, Merged(queues), scanIndex, prologue, capture, inRun, paused, t);
      MergedIsHeld(queues, t);
      if t.queue < QUEUES {
        assert EMPTY[t.queue] == [];
      }
    }
  }

  const EMPTY: seq<seq<Queued>> := [[], [], [], [], [], [], [], []]
}
