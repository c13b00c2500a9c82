/** Decoding the (time, string) pairs of a multiple-string packet, each string padded
    to whole words. */
module MultStrings {
  import opened Words

  datatype Entry = Entry(tof: U32, text: seq<Byte>)

  datatype Decoded = Strings(entries: seq<Entry>) | Undersize

  /** How many words hold so many bytes. */
  function RoundUp(size: nat): (n: nat)
    ensures size <= 4 * n < size + 4
  {
    (size + 3) / 4
  }

  function EncodeEntry(e: Entry): seq<Byte>
    requires |e.text| < TWO32
  {
    WordBytes(e.tof) + WordBytes(|e.text|) + e.text + Padding(|e.text|)
  }

  function Padding(size: nat): seq<Byte> {
    seq(4 * RoundUp(size) - size, i => 0)
  }

  predicate AllFit(entries: seq<Entry>) {
    forall i :: 0 <= i < |entries| ==> |entries[i].text| < TWO32
  }

  function Encode(entries: seq<Entry>): seq<Byte>
    requires AllFit(entries)
  {
    if entries == [] then [] else EncodeEntry(entries[0]) + Encode(entries[1..])
  }

  /** What the bytes hold: `count` pairs, the padding being whatever it is. */
  function Parse(bytes: seq<Byte>, count: nat): Decoded {
    if count == 0 then Strings([])
    else if |bytes| < 8 then Undersize
    else
      var size := Word(bytes[4..]);
      if |bytes| < size + 8 || |bytes| < 8 + 4 * RoundUp(size) then Undersize
      else
        match Parse(bytes[8 + 4 * RoundUp(size)..], count - 1)
        case Undersize => Undersize
        case Strings(rest) => Strings([Entry(Word(bytes), bytes[8..8 + size])] + rest)
  }

  function Prepend(front: seq<Entry>, d: Decoded): Decoded {
    match d
    case Undersize => Undersize
    case Strings(rest) => Strings(front + rest)
  }

  lemma PrependOne(front: seq<Entry>, e: Entry, d: Decoded)
    ensures Prepend(front, Prepend([e], d)) == Prepend(front + [e], d)
  {
  }

  /** One step of the parse. */
  lemma ParseStep(bytes: seq<Byte>, count: nat)
    requires |bytes| % 4 == 0
    ensures |bytes| < 8 ==> Parse(bytes, count + 1) == Undersize
    ensures |bytes| >= 8 && |bytes| < Word(bytes[4..]) as int + 8 ==> Parse(bytes, count + 1) == Undersize
    ensures |bytes| >= 8 && |bytes| >= Word(bytes[4..]) as int + 8 ==>
              var size: nat := Word(bytes[4..]);
              && |bytes| >= 8 + 4 * RoundUp(size) && (|bytes| - 8 - 4 * RoundUp(size)) % 4 == 0
              && Parse(bytes, count + 1) ==
                 Prepend([Entry(Word(bytes), bytes[8..8 + size])], Parse(bytes[8 + 4 * RoundUp(size)..], count))
  {
  }

  /** Every pair takes two words, so the check of the whole payload's size rejects
      nothing that the check of each pair would accept. */
  lemma {:induction false} PairsNeedRoom(bytes: seq<Byte>, count: nat)
    requires |bytes| < 8 * count
    ensures Parse(bytes, count) == Undersize
  {
    hide Word;
    if |bytes| >= 8 {
      var size: nat := Word(bytes[4..]);
      if |bytes| >= size + 8 && |bytes| >= 8 + 4 * RoundUp(size) {
        PairsNeedRoom(bytes[8 + 4 * RoundUp(size)..], count - 1);
      }
    }
  }

  /** The decoder's loop. A payload of whole words stays one of whole words, so what
      is left never falls short of the padding of a string that fits. */
  method Decode(payload: seq<Byte>, count: U32) returns (d: Decoded)
    requires |payload| % 4 == 0
    ensures d == Parse(payload, count)
  {
    hide Parse, Word, RoundUp, Prepend;
    if |payload| < Wrap32(count * 8) {
      PairsNeedRoom(payload, count);
      return Undersize;
    }
    var ptr: nat, remaining: nat := 0, |payload|;
    var entries: seq<Entry> := [];
    assert payload[0..] == payload;
    ParseEnds(entries, Parse(payload, count), payload);
    for i := 0 to count
      invariant ptr + remaining == |payload| && remaining % 4 == 0
      invariant Parse(payload, count) == Prepend(entries, Parse(payload[ptr..], count - i))
    {
      ParseStep(payload[ptr..], count - i - 1);
      ParseEnds(entries, Undersize, payload);
      if remaining < 8 {
        return Undersize;
      }
      var tof := Word(payload[ptr..]);
      assert payload[ptr..][4..] == payload[ptr + 4..];
      var size: nat := Word(payload[ptr + 4..]);
      if remaining < size + 8 {
        return Undersize;
      }
      var text := payload[ptr + 8..ptr + 8 + size];
      assert payload[ptr..][8..8 + size] == text;
      assert payload[ptr..][8 + 4 * RoundUp(size)..] == payload[ptr + 8 + 4 * RoundUp(size)..];
      PrependOne(entries, Entry(tof, text), Parse(payload[ptr + 8 + 4 * RoundUp(size)..], count - i - 1));
      entries := entries + [Entry(tof, text)];
      PaddingFits(size, remaining);
      ptr := ptr + 8 + 4 * RoundUp(size);
      remaining := remaining - (RoundUp(size) + 2) * 4;
    }
    ParseEnds(entries, Undersize, payload[ptr..]);
    d := Strings(entries);
  }

  /** Both ends of a parse: nothing found yet, and nothing more to find. */
  lemma ParseEnds(front: seq<Entry>, d: Decoded, bytes: seq<Byte>)
    ensures Prepend([], d) == d
    ensures Parse(bytes, 0) == Strings([])
    ensures Prepend(front, Undersize) == Undersize && Prepend(front, Strings([])) == Strings(front)
  {
  }

  /** Whole words that hold a string hold its padding too. */
  lemma PaddingFits(size: nat, remaining: nat)
    requires remaining % 4 == 0 && remaining >= size + 8
    ensures remaining >= 8 + 4 * RoundUp(size)
    ensures (remaining - 8 - 4 * RoundUp(size)) % 4 == 0
  {
  }

  lemma EntryLength(e: Entry)
    requires |e.text| < TWO32
    ensures |EncodeEntry(e)| == 8 + 4 * RoundUp(|e.text|)
    ensures |EncodeEntry(e)| % 4 == 0
  {
    hide RoundUp, WordBytes;
  }

  lemma {:induction false} EncodeLength(entries: seq<Entry>)
    requires AllFit(entries)
    ensures |Encode(entries)| % 4 == 0
  {
    if entries != [] {
      hide EncodeEntry, Encode, AllFit;
      EncodeStep(entries);
      EncodeLength(entries[1..]);
      EntryIsWords(entries[0]);
      var a, b := |EncodeEntry(entries[0])|, |Encode(entries[1..])|;
      assert |Encode(entries)| == a + b;
      WholeWords(a, b);
    } else {
      assert Encode(entries) == [];
    }
  }

  lemma EntryIsWords(e: Entry)
    requires |e.text| < TWO32
    ensures |EncodeEntry(e)| % 4 == 0
  {
  }

  lemma WholeWords(a: nat, b: nat)
    requires a % 4 == 0 && b % 4 == 0
    ensures (a + b) % 4 == 0
  {
  }

  lemma EncodeStep(entries: seq<Entry>)
    requires AllFit(entries) && entries != []
    ensures |entries[0].text| < TWO32 && AllFit(entries[1..])
    ensures Encode(entries) == EncodeEntry(entries[0]) + Encode(entries[1..])
  {
  }

  /** One encoded pair is read back whatever follows it. */
  lemma ParseEntry(e: Entry, rest: seq<Byte>, count: nat)
    requires |e.text| < TWO32
    ensures Parse(EncodeEntry(e) + rest, count + 1) == Prepend([e], Parse(rest, count))
  {
    var bytes, size := EncodeEntry(e) + rest, |e.text|;
    EntryLength(e);
    EntryFields(e, rest);
    hide EncodeEntry, Word, RoundUp;
    assert bytes[8 + 4 * RoundUp(size)..] == rest;
  }

  lemma EntryFields(e: Entry, rest: seq<Byte>)
    requires |e.text| < TWO32
    ensures var bytes := EncodeEntry(e) + rest;
            && |bytes| >= 8 + |e.text|
            && Word(bytes) == e.tof && Word(bytes[4..]) == |e.text|
            && bytes[8..8 + |e.text|] == e.text
  {
    hide Word, WordBytes, RoundUp, Padding;
    var a, b, pad := WordBytes(e.tof), WordBytes(|e.text|), Padding(|e.text|);
    Slices(a, b, e.text, pad, rest);
    WordOfBytes(e.tof, b + (e.text + (pad + rest)));
    WordOfBytes(|e.text|, e.text + (pad + rest));
  }

  lemma Slices(a: seq<Byte>, b: seq<Byte>, text: seq<Byte>, pad: seq<Byte>, rest: seq<Byte>)
    requires |a| == |b| == 4
    ensures var bytes := a + b + text + pad + rest;
            && bytes == a + (b + (text + (pad + rest)))
            && bytes[4..] == b + (text + (pad + rest))
            && bytes[8..8 + |text|] == text
  {
  }

  /** Decoding an encoded list gives the list, whatever bytes follow it. */
  lemma {:induction false} RoundTrip(entries: seq<Entry>, rest: seq<Byte>)
    requires AllFit(entries)
    ensures Parse(Encode(entries) + rest, |entries|) == Strings(entries)
  {
    if entries != [] {
      hide EncodeEntry, Parse, Encode, AllFit;
      var tail := entries[1..];
      EncodeStep(entries);
      RoundTrip(tail, rest);
      ParseEntry(entries[0], Encode(tail) + rest, |tail|);
      assert Encode(entries) + rest == EncodeEntry(entries[0]) + (Encode(tail) + rest);
      assert [entries[0]] + tail == entries;
    }
  }

  /** Any list of pairs survives the wire. */
  method SendAndDecode(entries: seq<Entry>) returns (d: Decoded)
    requires |entries| < TWO32 && AllFit(entries)
    ensures d == Strings(entries)
  {
    hide EncodeEntry, Parse, Encode;
    EncodeLength(entries);
    RoundTrip(entries, []);
    assert Encode(entries) + [] == Encode(entries);
    d := Decode(Encode(entries), |entries|);
  }
}
