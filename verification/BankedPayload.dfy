/** The payload of a banked-event packet: four fields, then source sections, each
    holding banks of events. */
module BankedPayload {
  datatype Event = Event(tof: nat, pixel: nat)

  datatype Bank = Bank(id: nat, events: seq<Event>)

  type U31 = x: int | 0 <= x < 0x8000_0000

  /** The times of a source's events have an offset and may be corrected. */
  datatype Source = Source(id: nat, interval: nat, offset: U31, corrected: bool, banks: seq<Bank>)
  {
    /** The third word of a section holds the offset and, in its top bit, the flag. */
    function OffsetWord(): nat {
      offset + if corrected then 0x8000_0000 else 0
    }
  }

  /** An event as a reader sees it. */
  datatype Hit = Hit(event: Event, bankId: nat, corrected: bool)

  function EventWords(events: seq<Event>): seq<nat> {
    if events == [] then [] else [events[0].tof, events[0].pixel] + EventWords(events[1..])
  }

  function BankWords(banks: seq<Bank>): seq<nat> {
    if banks == [] then []
    else [banks[0].id, |banks[0].events|] + EventWords(banks[0].events) + BankWords(banks[1..])
  }

  function SourceWords(sources: seq<Source>): seq<nat> {
    if sources == [] then []
    else
      [sources[0].id, sources[0].interval, sources[0].OffsetWord(), |sources[0].banks|]
      + BankWords(sources[0].banks) + SourceWords(sources[1..])
  }

  function EventHits(events: seq<Event>, bankId: nat, corrected: bool): seq<Hit> {
    if events == [] then [] else [Hit(events[0], bankId, corrected)] + EventHits(events[1..], bankId, corrected)
  }

  function BankHits(banks: seq<Bank>, corrected: bool): seq<Hit> {
    if banks == [] then [] else EventHits(banks[0].events, banks[0].id, corrected) + BankHits(banks[1..], corrected)
  }

  /** All events of a packet, source by source and bank by bank. */
  function SourceHits(sources: seq<Source>): seq<Hit> {
    if sources == [] then []
    else BankHits(sources[0].banks, sources[0].corrected) + SourceHits(sources[1..])
  }

  // ---- What lies ahead of a cursor ----

  /** The rest of a bank, of a source and of the packet. */
  datatype Ahead = Ahead(events: seq<Event>, banks: seq<Bank>, sources: seq<Source>)

  function AheadWords(a: Ahead): seq<nat> {
    EventWords(a.events) + (BankWords(a.banks) + SourceWords(a.sources))
  }

  function AheadHits(a: Ahead, bankId: nat, corrected: bool): seq<Hit> {
    EventHits(a.events, bankId, corrected) + (BankHits(a.banks, corrected) + SourceHits(a.sources))
  }

  lemma NextEventAhead(a: Ahead, bankId: nat, corrected: bool)
    requires a.events != []
    ensures var rest := a.(events := a.events[1..]);
            && AheadWords(a) == [a.events[0].tof, a.events[0].pixel] + AheadWords(rest)
            && AheadHits(a, bankId, corrected) == [Hit(a.events[0], bankId, corrected)] + AheadHits(rest, bankId, corrected)
            && |AheadWords(a)| == 2 + |AheadWords(rest)|
  {
  }

  lemma NextBankAhead(a: Ahead, bankId: nat, corrected: bool)
    requires a.events == [] && a.banks != []
    ensures var bank, rest := a.banks[0], Ahead(a.banks[0].events, a.banks[1..], a.sources);
            && AheadWords(a) == [bank.id, |bank.events|] + AheadWords(rest)
            && AheadHits(a, bankId, corrected) == AheadHits(rest, bank.id, corrected)
            && |AheadWords(a)| == 2 + |AheadWords(rest)|
  {
    hide SourceWords, SourceHits;
    var bank, rest := a.banks[0], Ahead(a.banks[0].events, a.banks[1..], a.sources);
    assert AheadWords(a) == BankWords(a.banks) + SourceWords(a.sources);
    assert AheadHits(a, bankId, corrected) == BankHits(a.banks, corrected) + SourceHits(a.sources);
  }

  lemma NextSourceAhead(a: Ahead, bankId: nat, corrected: bool)
    requires a.events == [] && a.banks == [] && a.sources != []
    ensures var s, rest := a.sources[0], Ahead([], a.sources[0].banks, a.sources[1..]);
            && AheadWords(a) == [s.id, s.interval, s.OffsetWord(), |s.banks|] + AheadWords(rest)
            && AheadHits(a, bankId, corrected) == AheadHits(rest, bankId, s.corrected)
            && |AheadWords(a)| == 4 + |AheadWords(rest)|
  {
  }

  lemma NothingAhead(a: Ahead, bankId: nat, corrected: bool)
    requires a.events == [] && a.banks == []
    ensures a.sources == [] ==> AheadWords(a) == [] && AheadHits(a, bankId, corrected) == []
    ensures a.sources != [] ==> |AheadWords(a)| >= 4
  {
  }
}
