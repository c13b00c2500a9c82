/** Detector bank sets: the packet that announces them, rewritten in place when a set
    changes, and its reader. */
module BankSets {
  import opened BankSetLayout
  import opened Words

  const HEADER := 4
  const DETECTOR_BANK_SETS: U32 := 0x400E_00

  /** Copies words into a packet and leaves the rest of it alone. */
  method Put(packet: array<U32>, at: nat, words: seq<U32>)
    requires at + |words| <= packet.Length
    modifies packet
    ensures packet[..] == old(packet[..at]) + words + old(packet[at + |words|..])
  {
    for k := 0 to |words|
      invariant forall j :: 0 <= j < packet.Length ==>
                  packet[j] == if at <= j < at + k then words[j - at] else old(packet[j])
    {
      packet[at + k] := words[k];
    }
  }

  ghost predicate Written(packet: seq<U32>, before: seq<U32>, offset: nat, words: seq<U32>) {
    && offset + |words| <= |before|
    && packet == before[..offset] + words + before[offset + |words|..]
  }

  lemma WrittenOn(packet: seq<U32>, later: seq<U32>, before: seq<U32>, offset: nat, first: seq<U32>, next: seq<U32>)
    requires Written(packet, before, offset, first) && Written(later, packet, offset + |first|, next)
    ensures Written(later, before, offset, first + next)
  {
  }

  /** Goes on writing behind what is written so far. */
  method PutNext(packet: array<U32>, ghost before: seq<U32>, offset: nat, ghost first: seq<U32>, index: nat,
                 next: seq<U32>)
    requires Written(packet[..], before, offset, first) && index == |first|
    requires offset + |first| + |next| <= packet.Length
    modifies packet
    ensures Written(packet[..], before, offset, first + next)
  {
    hide Written;
    ghost var was := packet[..];
    Put(packet, offset + index, next);
    PutIsWritten(packet[..], was, offset + index, next);
    WrittenOn(was, packet[..], before, offset, first, next);
  }

  lemma PutIsWritten(packet: seq<U32>, was: seq<U32>, at: nat, next: seq<U32>)
    requires at + |next| <= |was| && packet == was[..at] + next + was[at + |next|..]
    ensures Written(packet, was, at, next)
  {
  }

  /** Writes a set's section at its offset and leaves the rest of the packet alone. */
  method UpdatePacket(packet: array<U32>, offset: nat, s: BankSet)
    requires offset + |Section(s)| <= packet.Length
    modifies packet
    ensures Written(packet[..], old(packet[..]), offset, Section(s))
  {
    hide Pack, NameBytes, Wrap32, Written;
    ghost var before := packet[..];
    NothingWritten(before, offset);
    var name, suffix := Pack(NameBytes(s.name)), Pack(NameBytes(s.suffix));
    var counts, numbers := [s.flags, Wrap32(|s.banks|)], [s.tofOffset, s.tofMax, s.tofBin, s.throttle.0, s.throttle.1];
    PutNext(packet, before, offset, [], 0, name);
    PutNext(packet, before, offset, [] + name, 4, counts);
    PutNext(packet, before, offset, [] + name + counts, 6, s.banks);
    PutNext(packet, before, offset, [] + name + counts + s.banks, 6 + |s.banks|, numbers);
    PutNext(packet, before, offset, [] + name + counts + s.banks + numbers, 11 + |s.banks|, suffix);
    assert [] + name + counts + s.banks + numbers + suffix == Section(s);
  }

  lemma NothingWritten(before: seq<U32>, offset: nat)
    requires offset <= |before|
    ensures Written(before, before, offset, [])
  {
  }

  /** The sets in use, where each one's section was laid out, and their packet. */
  class DetectorBankSet {
    var sets: seq<BankSet>
    var offsets: seq<nat>
    const packet: array<U32>
    ghost const laid: seq<BankSet>

    /** Offsets and size are those of the sets that the packet was laid out for. */
    ghost predicate LaidOut()
      reads this
    {
      && |offsets| == |sets| == |laid|
      && (forall i :: 0 <= i < |laid| ==> offsets[i] == HEADER + Start(laid, i))
      && packet.Length == HEADER + |Payload(laid)|
    }

    /** The packet holds exactly the sets' payload behind its header. */
    ghost predicate Valid()
      reads this, packet
    {
      && LaidOut()
      && (forall i :: 0 <= i < |sets| ==> offsets[i] == HEADER + Start(sets, i))
      && packet.Length == HEADER + |Payload(sets)|
      && packet[HEADER..] == Payload(sets)
    }

    /** Lays the sections out one behind the other and writes every set's. */
    constructor (sets: seq<BankSet>, sec: U32, nsec: U32)
      ensures Valid() && this.sets == laid == sets && fresh(packet)
      ensures packet[..HEADER] == [Wrap32(4 * |Payload(sets)|), DETECTOR_BANK_SETS, sec, nsec]
    {
      hide Start, Sections, Section, Wrap32;
      this.sets, laid := sets, sets;
      var offsets, end := Layout(sets);
      var p := new U32[end](_ => 0);
      p[0], p[1], p[2], p[3] := Wrap32((end - HEADER) * 4), DETECTOR_BANK_SETS, sec, nsec;
      p[4] := Wrap32(|sets|);
      this.offsets, packet := offsets, p;
      new;
      FillPacket(p, sets, offsets);
    }

    /** A set changes: its section is rewritten where it was laid out. The packet is again
        that of all sets exactly when the bank list keeps its length; a reader also gets
        them all back when the last one has become shorter. Writing beyond the packet is
        an outcome of its own, after which nothing is said of the packet. */
    method ChangeSet(i: nat, s: BankSet) returns (overran: bool)
      requires LaidOut() && i < |sets|
      modifies this`sets, packet
      ensures LaidOut() && sets == old(sets)[i := s] && offsets == old(offsets)
      ensures overran <==> offsets[i] + |Section(s)| > packet.Length
      ensures !overran ==>
                && Written(packet[..], old(packet[..]), offsets[i], Section(s))
                && packet[..HEADER] == old(packet[..HEADER])
      ensures !overran && old(Valid()) ==> (Valid() <==> |s.banks| == |old(sets)[i].banks|)
      ensures !overran && old(Valid()) && packet.Length - HEADER < TWO32
              && (|s.banks| == |old(sets)[i].banks| || (i == |sets| - 1 && |s.banks| <= |old(sets)[i].banks|))
              ==> ReadsBack(packet[HEADER..], sets)
    {
      hide Start, Sections, Section, Written, Wrap32, ReadsBack;
      overran := offsets[i] + |Section(s)| > packet.Length;
      ghost var before, was := packet[..], sets;
      sets := sets[i := s];
      if overran {
        return;
      }
      StartsBehind(laid, i);
      UpdatePacket(packet, offsets[i], s);
      WrittenBehind(packet[..], before, offsets[i], Section(s), HEADER);
      if old(Valid()) {
        LengthWithChange(was, i, s);
        if |s.banks| == |was[i].banks| {
          forall k | 0 <= k <= |sets| ensures Start(sets, k) == Start(was, k) {
            StartWithChange(was, i, s, k);
          }
          PayloadWithChange(was, i, s, before, packet[..]);
          assert Payload(sets) + [] == Payload(sets);
          if packet.Length - HEADER < TWO32 {
            PayloadReadsBack(sets, []);
          }
        } else if i == |sets| - 1 && |s.banks| <= |was[i].banks| && packet.Length - HEADER < TWO32 {
          ghost var extra := ShorterLast(was, s, before, packet[..]);
          PayloadReadsBack(sets, extra);
        }
      }
    }
  }

  lemma StartsBehind(sets: seq<BankSet>, i: nat)
    requires i < |sets|
    ensures Start(sets, i) >= 1
  {
  }

  lemma WrittenBehind(packet: seq<U32>, before: seq<U32>, offset: nat, words: seq<U32>, n: nat)
    requires Written(packet, before, offset, words) && n <= offset
    ensures |packet| == |before| && packet[..n] == before[..n]
  {
  }

  lemma LengthWithChange(sets: seq<BankSet>, i: nat, s: BankSet)
    requires i < |sets|
    ensures |Payload(sets[i := s])| - |Payload(sets)| == |s.banks| - |sets[i].banks|
  {
    hide Section, Start;
    SectionsLength(sets);
    SectionsLength(sets[i := s]);
    StartsMove(sets, i, s, |sets|);
  }

  /** A last section that has become shorter leaves words behind it and nothing else. */
  lemma ShorterLast(sets: seq<BankSet>, s: BankSet, before: seq<U32>, after: seq<U32>) returns (extra: seq<U32>)
    requires sets != [] && |s.banks| <= |sets[|sets| - 1].banks|
    requires |before| == HEADER + |Payload(sets)| && before[HEADER..] == Payload(sets)
    requires Written(after, before, HEADER + Start(sets, |sets| - 1), Section(s))
    ensures after[HEADER..] == Payload(sets[|sets| - 1 := s]) + extra
  {
    hide Start, Sections, Section, Wrap32;
    var n := |sets| - 1;
    var front := Sections(sets[..n]);
    SectionsStep(sets);
    SectionsStep(sets[n := s]);
    assert sets[n := s][..n] == sets[..n];
    SectionsLength(sets[..n]);
    StartOfPrefix(sets, n, n);
    var lo := HEADER + 1 + |front|;
    extra := before[lo + |Section(s)|..];
    BeforeLast(before[..HEADER], Wrap32(|sets|), front, Section(sets[n]));
    assert before == before[..HEADER] + ([Wrap32(|sets|)] + (front + Section(sets[n])));
    assert after == before[..HEADER] + ([Wrap32(|sets|)] + front + Section(s) + extra);
  }

  lemma BeforeLast<T>(header: seq<T>, first: T, front: seq<T>, last: seq<T>)
    ensures (header + ([first] + (front + last)))[..|header| + 1 + |front|] == header + ([first] + front)
  {
  }

  /** Rewriting one section of a packet gives the packet of the changed sets. */
  lemma PayloadWithChange(sets: seq<BankSet>, i: nat, s: BankSet, before: seq<U32>, after: seq<U32>)
    requires i < |sets| && |s.banks| == |sets[i].banks|
    requires |before| == HEADER + |Payload(sets)| && before[HEADER..] == Payload(sets)
    requires Written(after, before, HEADER + Start(sets, i), Section(s))
    ensures |after| == |before| && after[..HEADER] == before[..HEADER]
    ensures after[HEADER..] == Payload(sets[i := s])
  {
    hide Start, Sections, Section, Wrap32;
    SectionsWithChange(sets, i, s);
    var header := before[..HEADER];
    assert before == header + [Wrap32(|sets|)] + Sections(sets);
    SpliceBehind(header, Wrap32(|sets|), Sections(sets), Start(sets, i) - 1, Section(s));
    assert after == header + [Wrap32(|sets|)] + Sections(sets[i := s]);
  }

  lemma SpliceBehind<T>(header: seq<T>, first: T, words: seq<T>, at: nat, section: seq<T>)
    requires at + |section| <= |words|
    ensures var before, lo := header + [first] + words, |header| + 1 + at;
            before[..lo] + section + before[lo + |section|..]
            == header + [first] + (words[..at] + section + words[at + |section|..])
  {
  }

  /** Where each set's section starts in the packet, and where the packet ends. */
  method Layout(sets: seq<BankSet>) returns (offsets: seq<nat>, end: nat)
    ensures |offsets| == |sets| && end == HEADER + |Payload(sets)| && end > HEADER
    ensures forall i :: 0 <= i < |sets| ==> offsets[i] == HEADER + Start(sets, i)
  {
    offsets, end := [], HEADER + 1;
    for i := 0 to |sets|
      invariant |offsets| == i && end == HEADER + Start(sets, i)
      invariant forall j :: 0 <= j < i ==> offsets[j] == HEADER + Start(sets, j)
    {
      offsets := offsets + [end];
      end := end + BEFORE_BANKS + |sets[i].banks| + AFTER_BANKS;
    }
    SectionsLength(sets);
  }

  method FillPacket(packet: array<U32>, sets: seq<BankSet>, offsets: seq<nat>)
    requires |offsets| == |sets| && packet.Length == HEADER + |Payload(sets)|
    requires forall i :: 0 <= i < |sets| ==> offsets[i] == HEADER + Start(sets, i)
    requires packet[4] == Wrap32(|sets|)
    modifies packet
    ensures packet[..HEADER] == old(packet[..HEADER]) && packet[HEADER..] == Payload(sets)
  {
    hide Start, Sections, Section, Wrap32;
    ghost var header := packet[..5];
    FillNothing(sets);
    for i := 0 to |sets|
      invariant HEADER + Start(sets, i) <= packet.Length && Start(sets, i) == 1 + |Sections(sets[..i])|
      invariant packet[..HEADER + Start(sets, i)] == header + Sections(sets[..i])
    {
      FillStep(sets, i);
      ghost var before, lo := packet[..], HEADER + Start(sets, i);
      UpdatePacket(packet, offsets[i], sets[i]);
      assert packet[..lo + |Section(sets[i])|] == before[..lo] + Section(sets[i]);
    }
    assert sets[..|sets|] == sets;
    assert packet[..] == header + Sections(sets);
  }

  lemma FillNothing(sets: seq<BankSet>)
    ensures Start(sets, 0) == 1 && Sections(sets[..0]) == []
  {
  }

  lemma StartStep(sets: seq<BankSet>, i: nat)
    requires i < |sets|
    ensures Start(sets, i + 1) == Start(sets, i) + |Section(sets[i])|
  {
  }

  lemma NextSection(sets: seq<BankSet>, i: nat)
    requires i < |sets|
    ensures Sections(sets[..i + 1]) == Sections(sets[..i]) + Section(sets[i])
  {
    hide Section, Sections;
    SectionsStep(sets[..i + 1]);
    assert sets[..i + 1][..i] == sets[..i];
  }

  lemma FillStep(sets: seq<BankSet>, i: nat)
    requires i < |sets|
    ensures Sections(sets[..i + 1]) == Sections(sets[..i]) + Section(sets[i])
    ensures Start(sets, i + 1) == Start(sets, i) + |Section(sets[i])|
    ensures Start(sets, i + 1) == 1 + |Sections(sets[..i + 1])|
    ensures Start(sets, i + 1) <= |Payload(sets)|
  {
    hide Section, Sections, Start;
    StartStep(sets, i);
    NextSection(sets, i);
    SectionsLength(sets[..i + 1]);
    StartOfPrefix(sets, i + 1, i + 1);
    SectionsLength(sets);
    if i + 1 < |sets| {
      StartGrows(sets, i + 1, |sets|);
    }
  }

  /** What a reader keeps of a packet: where each section starts, and where its fields
      behind the bank list do. */
  datatype Offsets = TooShort | CountOutside | Offsets(starts: seq<U32>, afterBanks: seq<U32>)

  method ReadOffsets(words: seq<U32>) returns (r: Offsets)
    ensures r.TooShort? <==> words == [] || Scan(words, 1, words[0]).Rejected?
    ensures r.CountOutside? <==> words != [] && Scan(words, 1, words[0]).Outside?
    ensures r.Offsets? ==>
              && words != [] && Scan(words, 1, words[0]) == Found(r.starts) && |r.afterBanks| == |r.starts|
              && forall i :: 0 <= i < |r.starts| ==>
                   CountIndex(r.starts[i]) < |words| && r.afterBanks[i] == AfterBanks(words, r.starts[i])
    // Offsets that are accepted stay inside the payload exactly when no sum wraps.
    ensures r.Offsets? && |words| < TWO32 ==>
              (AllReadable(words, r.starts) <==> NoneWraps(words, r.starts))
    ensures r.Offsets? && |words| < TWO32 && NoneWraps(words, r.starts) ==> InLine(words, 1, r.starts)
  {
    hide Ahead, Wrap32, AllReadable, NoneWraps, InLine;
    if |words| < 1 {
      return TooShort;
    }
    var count: nat, offset: U32 := words[0], 1;
    var starts: seq<U32>, afterBanks: seq<U32> := [], [];
    AheadNone(Scan(words, 1, count));
    for i := 0 to count
      invariant |starts| == |afterBanks| == i
      invariant Scan(words, 1, count) == Ahead(starts, Scan(words, offset, count - i))
      invariant forall j :: 0 <= j < i ==>
                  CountIndex(starts[j]) < |words| && afterBanks[j] == AfterBanks(words, starts[j])
    {
      AheadEnds(starts);
      if |words| < Wrap32(offset + BEFORE_BANKS + AFTER_BANKS) {
        return TooShort;
      }
      if |words| <= CountIndex(offset) {
        return CountOutside;
      }
      AheadOne(starts, offset, Scan(words, NextStart(words, offset), count - i - 1));
      starts := starts + [offset];
      offset := Wrap32(offset + BEFORE_BANKS + words[CountIndex(starts[i])]);
      afterBanks := afterBanks + [offset];
      offset := Wrap32(offset + AFTER_BANKS);
    }
    AheadEnds(starts);
    if |words| < offset {
      return TooShort;
    }
    if |words| < TWO32 {
      ScanIsInside(words, 1, count);
    }
    r := Offsets(starts, afterBanks);
  }

  lemma AheadNone(rest: Scanned)
    ensures Ahead([], rest) == rest
  {
    if rest.Found? {
      assert [] + rest.starts == rest.starts;
    }
  }

  lemma AheadEnds(front: seq<U32>)
    ensures Ahead(front, Rejected) == Rejected && Ahead(front, Outside) == Outside
    ensures Ahead(front, Found([])) == Found(front)
  {
    assert front + [] == front;
  }

  lemma AheadOne(front: seq<U32>, x: U32, rest: Scanned)
    ensures Ahead(front, Ahead([x], rest)) == Ahead(front + [x], rest)
  {
    if rest.Found? {
      assert front + ([x] + rest.starts) == front + [x] + rest.starts;
    }
  }

  /** Whatever sets are announced, a reader of the packet gets them all back, in
      order, with names and suffixes cut to sixteen characters. A packet's length is
      a 32-bit number of bytes. */
  method AnnounceAndRead(sets: seq<BankSet>, sec: U32, nsec: U32) returns (read: seq<BankSet>)
    requires 4 * |Payload(sets)| < TWO32
    ensures |read| == |sets|
    ensures forall i :: 0 <= i < |sets| ==>
              read[i] == sets[i].(name := Short(sets[i].name), suffix := Short(sets[i].suffix))
  {
    hide Start, Sections, Section, Scan, ReadSet, Starts, Readable;
    var announced := new DetectorBankSet(sets, sec, nsec);
    var words := announced.packet[HEADER..];
    assert Payload(sets) + [] == Payload(sets);
    PayloadReadsBack(sets, []);
    var offsets := ReadOffsets(words);
    read := [];
    for i := 0 to |sets|
      invariant |read| == i
      invariant forall j :: 0 <= j < i ==> read[j] == CutToSize(sets[j])
    {
      read := read + [ReadSet(words, offsets.starts[i])];
    }
  }
}
