/** The cursor over the events of a banked-event packet. */
module BankedEvents {
  import opened BankedPayload
  import opened Options

  class BankedEventPkt {
    const fields: seq<nat>
    var curEvent: Option<nat>
    var lastFieldIndex: nat
    var curFieldIndex: nat
    var bankCount: nat
    var isCorrected: bool
    var bankNum: nat
    var bankStartIndex: nat
    var bankId: nat
    var eventCount: nat

    // What is still to be read, from the current event on.
    ghost var ahead: Ahead

    constructor (fields: seq<nat>)
      requires |fields| >= 4
      ensures this.fields == fields && curEvent == None && lastFieldIndex == |fields| - 1
    {
      this.fields := fields;
      curEvent, lastFieldIndex, curFieldIndex := None, |fields| - 1, 0;
      bankCount, isCorrected, bankNum, bankStartIndex, bankId, eventCount := 0, false, 0, 0, 0, 0;
      ahead := Ahead([], [], []);
    }

    /** The fields from the cursor on are exactly what lies ahead. */
    ghost predicate Synchronous()
      reads this
    {
      && lastFieldIndex + 1 == |fields|
      && curFieldIndex <= |fields|
      && fields[curFieldIndex..] == AheadWords(ahead)
    }

    /** The cursor stands on an event, or past the last one. */
    ghost predicate Valid()
      reads this
    {
      && Synchronous()
      && match curEvent
         case None => ahead == Ahead([], [], [])
         case Some(at) =>
           && at == curFieldIndex
           && ahead.events != []
           && bankNum <= bankCount && bankCount - bankNum == |ahead.banks|
           && bankStartIndex + 2 + 2 * eventCount == curFieldIndex + 2 * |ahead.events|
    }

    /** The events still to be read. */
    ghost function Left(): seq<Hit>
      reads this
    {
      AheadHits(ahead, bankId, isCorrected)
    }

    /** The current event, as the accessors give it. */
    function Current(): Option<Hit>
      reads this
    {
      if curEvent.Some? && curEvent.value + 1 < |fields| then
        Some(Hit(Event(fields[curEvent.value], fields[curEvent.value + 1]), bankId, isCorrected))
      else None
    }

    /** Enters the bank at the cursor. */
    method FirstEventInBank()
      requires Synchronous() && ahead.events == [] && ahead.banks != [] && curEvent == None
      modifies this
      ensures Synchronous() && Left() == old(Left())
      ensures ahead == Ahead(old(ahead.banks)[0].events, old(ahead.banks)[1..], old(ahead.sources))
      ensures curEvent == if ahead.events == [] then None else Some(curFieldIndex)
      ensures bankStartIndex + 2 + 2 * eventCount == curFieldIndex + 2 * |ahead.events|
      ensures bankCount == old(bankCount) && bankNum == old(bankNum) && isCorrected == old(isCorrected)
      ensures lastFieldIndex == old(lastFieldIndex)
    {
      hide AheadWords, AheadHits;
      NextBankAhead(ahead, bankId, isCorrected);
      ghost var words := fields[curFieldIndex..];
      assert fields[curFieldIndex] == words[0] && fields[curFieldIndex + 1] == words[1];
      bankStartIndex := curFieldIndex;
      bankId := fields[bankStartIndex];
      eventCount := fields[bankStartIndex + 1];
      curFieldIndex := bankStartIndex + 2;
      ahead := Ahead(ahead.banks[0].events, ahead.banks[1..], ahead.sources);
      assert fields[curFieldIndex..] == words[2..];
      curEvent := if eventCount > 0 then Some(curFieldIndex) else None;
    }

    /** Skips empty banks up to the next event of the source. */
    method SkipBanks()
      requires Synchronous() && ahead.events == [] && curEvent == None
      requires bankNum <= bankCount + 1 && bankCount + 1 - bankNum == |ahead.banks|
      modifies this
      ensures Synchronous() && Left() == old(Left()) && ahead.sources == old(ahead.sources)
      ensures curEvent.Some? ==> Valid()
      ensures curEvent.None? ==> ahead.events == [] && ahead.banks == []
    {
      hide AheadWords, AheadHits;
      while bankNum <= bankCount && curEvent.None?
        invariant Synchronous() && Left() == old(Left()) && ahead.sources == old(ahead.sources)
        invariant curEvent.None? ==>
                    ahead.events == [] && bankNum <= bankCount + 1 && bankCount + 1 - bankNum == |ahead.banks|
        invariant curEvent.Some? ==> Valid()
        decreases curEvent.None?, |ahead.banks|
      {
        FirstEventInBank();
        if curEvent.None? {
          bankNum := bankNum + 1;
        }
      }
    }

    /** Enters the source section at the cursor. */
    method FirstEventInSource()
      requires Synchronous() && ahead.events == [] && ahead.banks == [] && ahead.sources != [] && curEvent == None
      modifies this
      ensures Synchronous() && Left() == old(Left()) && ahead.sources == old(ahead.sources)[1..]
      ensures curEvent.Some? ==> Valid()
      ensures curEvent.None? ==> ahead.events == [] && ahead.banks == []
    {
      hide AheadWords, AheadHits;
      NextSourceAhead(ahead, bankId, isCorrected);
      ghost var words, source := fields[curFieldIndex..], ahead.sources[0];
      assert fields[curFieldIndex + 2] == words[2] && fields[curFieldIndex + 3] == words[3];
      ghost var rest := Ahead([], source.banks, ahead.sources[1..]);
      assert fields[curFieldIndex + 4..] == words[4..];
      var sourceStartIndex := curFieldIndex;
      bankCount := fields[sourceStartIndex + 3];
      if bankCount > 0 {
        isCorrected := fields[sourceStartIndex + 2] / 0x8000_0000 % 2 == 1;
        bankNum := 1;
        curFieldIndex := sourceStartIndex + 4;
        ahead := rest;
        SkipBanks();
      } else {
        SameWithoutBanks(rest, bankId, isCorrected, source.corrected);
        curFieldIndex := curFieldIndex + 4;
        ahead := rest;
        curEvent := None;
      }
    }

    /** Skips empty sources up to the next event of the packet, while the cursor is
        before `end`: the two callers do not agree on the last field. */
    method SkipSources(end: nat)
      requires Synchronous() && (curEvent.Some? ==> Valid())
      requires end == lastFieldIndex || end == lastFieldIndex + 1
      requires curEvent.None? ==> ahead.events == [] && ahead.banks == []
      modifies this
      ensures Valid() && Left() == old(Left())
    {
      hide AheadWords, AheadHits;
      while curEvent.None? && curFieldIndex < end
        invariant Synchronous() && Left() == old(Left()) && (curEvent.Some? ==> Valid())
        invariant curEvent.None? ==> ahead.events == [] && ahead.banks == []
        invariant end == lastFieldIndex || end == lastFieldIndex + 1
        decreases |ahead.sources|
      {
        NothingAhead(ahead, bankId, isCorrected);
        FirstEventInSource();
      }
      if curEvent.None? {
        NothingAhead(ahead, bankId, isCorrected);
      }
    }

    /** The first event of the packet. */
    method FirstEvent(ghost sources: seq<Source>) returns (event: Option<Hit>)
      requires |fields| >= 4 && lastFieldIndex + 1 == |fields|
      requires fields[4..] == SourceWords(sources)
      modifies this
      ensures Valid() && Left() == SourceHits(sources)
      ensures event == Current() == if Left() == [] then None else Some(Left()[0])
    {
      curEvent := None;
      curFieldIndex := 4;
      ahead := Ahead([], [], sources);
      hide SourceWords, SourceHits;
      assert Left() == SourceHits(sources);
      SkipSources(lastFieldIndex + 1);
      event := Current();
      CurrentIsFirst();
    }

    /** The next event; past the last one, always none. */
    method NextEvent() returns (event: Option<Hit>)
      requires Valid()
      modifies this
      ensures Valid() && Left() == if old(Left()) == [] then [] else old(Left())[1..]
      ensures event == Current() == if Left() == [] then None else Some(Left()[0])
    {
      hide AheadWords, AheadHits;
      CurrentIsFirst();
      if curEvent.Some? {
        NextEventAhead(ahead, bankId, isCorrected);
        ghost var words := fields[curFieldIndex..];
        curEvent := None;
        curFieldIndex := curFieldIndex + 2;
        ahead := ahead.(events := ahead.events[1..]);
        assert fields[curFieldIndex..] == words[2..];
        if curFieldIndex < bankStartIndex + 2 + 2 * eventCount {
          curEvent := Some(curFieldIndex);
        } else {
          bankNum := bankNum + 1;
          SkipBanks();
          SkipSources(lastFieldIndex);
        }
      }
      event := Current();
      CurrentIsFirst();
    }

    lemma CurrentIsFirst()
      requires Valid()
      ensures Current() == if Left() == [] then None else Some(Left()[0])
    {
    }
  }

  /** With no banks, the flag of a source does not matter. */
  lemma SameWithoutBanks(a: Ahead, bankId: nat, corrected: bool, other: bool)
    requires a.events == [] && a.banks == []
    ensures AheadHits(a, bankId, corrected) == AheadHits(a, bankId, other)
  {
  }

  /** Reading a packet from first to last event gives all its events in order, each
      with its own bank and its source's correction flag; after that there are none. */
  method ReadAll(packet: BankedEventPkt, ghost sources: seq<Source>, extra: nat)
    returns (hits: seq<Hit>, after: seq<Option<Hit>>)
    requires |packet.fields| >= 4 && packet.lastFieldIndex + 1 == |packet.fields|
    requires packet.fields[4..] == SourceWords(sources)
    modifies packet
    ensures hits == SourceHits(sources)
    ensures |after| == extra && forall i :: 0 <= i < extra ==> after[i] == None
  {
    hide SourceWords, SourceHits, AheadHits;
    hits, after := [], [];
    var event := packet.FirstEvent(sources);
    while event.Some?
      invariant packet.Valid() && hits + packet.Left() == SourceHits(sources)
      invariant event == if packet.Left() == [] then None else Some(packet.Left()[0])
      decreases |packet.Left()|
    {
      hits := hits + [event.value];
      event := packet.NextEvent();
    }
    for i := 0 to extra
      invariant packet.Valid() && packet.Left() == []
      invariant |after| == i && forall j :: 0 <= j < i ==> after[j] == None
    {
      event := packet.NextEvent();
      after := after + [event];
    }
  }
}
