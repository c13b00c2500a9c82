/** The payload of a detector-bank-sets packet: a count and one section a set. */
module BankSetLayout {
  import opened Words

  const NAME_SIZE := 16

  datatype BankSet = BankSet(
    name: seq<Byte>, flags: U32, banks: seq<U32>, tofOffset: U32, tofMax: U32, tofBin: U32,
    throttle: (U32, U32), suffix: seq<Byte>)

  /** A C string ends before its first zero byte. */
  function CString(s: seq<Byte>): (r: seq<Byte>)
    ensures |r| <= |s| && r <= s
    ensures forall i :: 0 <= i < |r| ==> r[i] != 0
  {
    if s == [] || s[0] == 0 then [] else [s[0]] + CString(s[1..])
  }

  /** At most sixteen characters of a name. */
  function Short(name: seq<Byte>): (r: seq<Byte>)
    ensures |r| <= NAME_SIZE
    ensures forall i :: 0 <= i < |r| ==> r[i] != 0
  {
    var s := CString(name);
    if |s| > NAME_SIZE then s[..NAME_SIZE] else s
  }

  /** The sixteen bytes kept of a name, filled up with zeros. */
  function NameBytes(name: seq<Byte>): (bytes: seq<Byte>)
    ensures |bytes| == NAME_SIZE
  {
    Short(name) + seq(NAME_SIZE - |Short(name)|, i => 0)
  }

  function Pack(bytes: seq<Byte>): (words: seq<U32>)
    requires |bytes| == NAME_SIZE
    ensures |words| == 4
  {
    [Word(bytes[..4]), Word(bytes[4..8]), Word(bytes[8..12]), Word(bytes[12..])]
  }

  function Unpack(words: seq<U32>): (bytes: seq<Byte>)
    requires |words| == 4
    ensures |bytes| == NAME_SIZE
  {
    WordBytes(words[0]) + WordBytes(words[1]) + WordBytes(words[2]) + WordBytes(words[3])
  }

  /** A set's section, and the sizes of its two parts around the bank list. */
  const BEFORE_BANKS := 6
  const AFTER_BANKS := 9

  function Section(s: BankSet): (words: seq<U32>)
    ensures |words| == BEFORE_BANKS + |s.banks| + AFTER_BANKS
  {
    Pack(NameBytes(s.name)) + [s.flags, Wrap32(|s.banks|)] + s.banks
    + [s.tofOffset, s.tofMax, s.tofBin, s.throttle.0, s.throttle.1] + Pack(NameBytes(s.suffix))
  }

  function Sections(sets: seq<BankSet>): seq<U32>
  {
    if sets == [] then [] else Sections(sets[..|sets| - 1]) + Section(sets[|sets| - 1])
  }

  function Payload(sets: seq<BankSet>): seq<U32>
  {
    [Wrap32(|sets|)] + Sections(sets)
  }

  /** Where a set's section starts. */
  function Start(sets: seq<BankSet>, i: nat): nat
    requires i <= |sets|
  {
    if i == 0 then 1 else Start(sets, i - 1) + BEFORE_BANKS + |sets[i - 1].banks| + AFTER_BANKS
  }

  lemma UnpackPack(bytes: seq<Byte>)
    requires |bytes| == NAME_SIZE
    ensures Unpack(Pack(bytes)) == bytes
  {
    BytesOfWord(bytes[..4]);
    BytesOfWord(bytes[4..8]);
    BytesOfWord(bytes[8..12]);
    BytesOfWord(bytes[12..]);
    hide Word, WordBytes;
  }

  lemma {:induction false} CStringStops(s: seq<Byte>, rest: seq<Byte>)
    requires forall i :: 0 <= i < |s| ==> s[i] != 0
    requires rest == [] || rest[0] == 0
    ensures CString(s + rest) == s
  {
    if s != [] {
      CStringStops(s[1..], rest);
      assert (s + rest)[1..] == s[1..] + rest;
    } else {
      assert s + rest == rest;
    }
  }

  /** A name read back is the name, cut to sixteen characters. */
  lemma NameSurvives(name: seq<Byte>)
    ensures CString(Unpack(Pack(NameBytes(name)))) == Short(name)
  {
    UnpackPack(NameBytes(name));
    hide Pack, Unpack, Short;
    CStringStops(Short(name), seq(NAME_SIZE - |Short(name)|, i => 0));
  }

  // ---- Sections are disjoint and fill the payload ----

  lemma {:induction false} StartGrows(sets: seq<BankSet>, i: nat, j: nat)
    requires i < j <= |sets|
    ensures Start(sets, i) + BEFORE_BANKS + |sets[i].banks| + AFTER_BANKS <= Start(sets, j)
  {
    if i < j - 1 {
      StartGrows(sets, i, j - 1);
    }
  }

  lemma SliceOfFront<T>(a: seq<T>, b: seq<T>, lo: nat, hi: nat)
    requires lo <= hi <= |a|
    ensures (a + b)[lo..hi] == a[lo..hi]
  {
  }

  lemma SliceAfter<T>(first: T, a: seq<T>, lo: nat, hi: nat)
    requires 1 <= lo <= hi <= |a| + 1
    ensures ([first] + a)[lo..hi] == a[lo - 1..hi - 1]
  {
  }

  lemma SliceOfBack<T>(a: seq<T>, b: seq<T>)
    ensures (a + b)[|a|..|a| + |b|] == b
  {
  }

  ghost predicate SitsAt(sets: seq<BankSet>, i: nat, words: seq<U32>)
    requires i < |sets|
  {
    var lo := Start(sets, i) - 1;
    0 <= lo && lo + |Section(sets[i])| <= |words| && words[lo..lo + |Section(sets[i])|] == Section(sets[i])
  }

  lemma LastSits(sets: seq<BankSet>)
    requires sets != []
    ensures SitsAt(sets, |sets| - 1, Sections(sets))
  {
    hide Section, Start, Sections;
    var n := |sets| - 1;
    SectionsLength(sets[..n]);
    StartOfPrefix(sets, n, n);
    SectionsStep(sets);
    SliceOfBack(Sections(sets[..n]), Section(sets[n]));
  }

  lemma FrontSits(sets: seq<BankSet>, i: nat)
    requires i < |sets| - 1 && SitsAt(sets[..|sets| - 1], i, Sections(sets[..|sets| - 1]))
    ensures SitsAt(sets, i, Sections(sets))
  {
    var n := |sets| - 1;
    hide Section, Start, Sections;
    StartOfPrefix(sets, n, i);
    SectionsStep(sets);
    var lo := Start(sets, i) - 1;
    SliceOfFront(Sections(sets[..n]), Section(sets[n]), lo, lo + |Section(sets[i])|);
  }

  lemma {:induction false} SectionsAt(sets: seq<BankSet>, i: nat)
    requires i < |sets|
    ensures SitsAt(sets, i, Sections(sets))
  {
    hide SitsAt, Sections;
    if i < |sets| - 1 {
      SectionsAt(sets[..|sets| - 1], i);
      FrontSits(sets, i);
    } else {
      LastSits(sets);
    }
  }

  lemma SectionsStep(sets: seq<BankSet>)
    requires sets != []
    ensures Sections(sets) == Sections(sets[..|sets| - 1]) + Section(sets[|sets| - 1])
  {
  }

  /** A set's section lies in the payload, where its start says. */
  lemma PayloadAt(sets: seq<BankSet>, i: nat)
    requires i < |sets|
    ensures Start(sets, i) + |Section(sets[i])| <= |Payload(sets)|
    ensures Payload(sets)[Start(sets, i)..Start(sets, i) + |Section(sets[i])|] == Section(sets[i])
  {
    hide Section, Sections, Start;
    SectionsAt(sets, i);
    SliceAfter(Wrap32(|sets|), Sections(sets), Start(sets, i), Start(sets, i) + |Section(sets[i])|);
  }

  lemma {:induction false} SectionsLength(sets: seq<BankSet>)
    ensures 1 + |Sections(sets)| == Start(sets, |sets|)
  {
    if sets != [] {
      var n := |sets| - 1;
      SectionsLength(sets[..n]);
      StartOfPrefix(sets, n, n);
      hide Section;
    }
  }

  lemma {:induction false} StartOfPrefix(sets: seq<BankSet>, n: nat, i: nat)
    requires i <= n <= |sets|
    ensures Start(sets[..n], i) == Start(sets, i)
  {
    if i > 0 {
      StartOfPrefix(sets, n, i - 1);
    }
  }

  // ---- Changing one set ----

  lemma {:induction false} StartWithChange(sets: seq<BankSet>, i: nat, s: BankSet, k: nat)
    requires i < |sets| && |s.banks| == |sets[i].banks| && k <= |sets|
    ensures Start(sets[i := s], k) == Start(sets, k)
  {
    if k > 0 {
      StartWithChange(sets, i, s, k - 1);
    }
  }

  ghost function Spliced(words: seq<U32>, at: int, section: seq<U32>): seq<U32>
    requires 0 <= at && at + |section| <= |words|
  {
    words[..at] + section + words[at + |section|..]
  }

  lemma LastChange(sets: seq<BankSet>, s: BankSet)
    requires sets != [] && |s.banks| == |sets[|sets| - 1].banks|
    ensures var n, words := |sets| - 1, Sections(sets);
            && 0 <= Start(sets, n) - 1 && Start(sets, n) - 1 + |Section(s)| <= |words|
            && Sections(sets[n := s]) == Spliced(words, Start(sets, n) - 1, Section(s))
  {
    hide Section, Start, Sections;
    var n := |sets| - 1;
    SectionsStep(sets);
    SectionsStep(sets[n := s]);
    assert sets[n := s][..n] == sets[..n];
    SectionsLength(sets[..n]);
    StartOfPrefix(sets, n, n);
    var words := Sections(sets);
    assert words[..Start(sets, n) - 1] == Sections(sets[..n]);
    assert words[Start(sets, n) - 1 + |Section(s)|..] == [];
  }

  lemma FrontChange(sets: seq<BankSet>, i: nat, s: BankSet)
    requires i < |sets| - 1
    requires var front := sets[..|sets| - 1];
             && 0 <= Start(front, i) - 1 && Start(front, i) - 1 + |Section(s)| <= |Sections(front)|
             && Sections(front[i := s]) == Spliced(Sections(front), Start(front, i) - 1, Section(s))
    ensures var words, at := Sections(sets), Start(sets, i) - 1;
            && 0 <= at && at + |Section(s)| <= |words|
            && Sections(sets[i := s]) == Spliced(words, at, Section(s))
  {
    hide Section, Start, Sections;
    var n := |sets| - 1;
    SectionsStep(sets);
    SectionsStep(sets[i := s]);
    assert sets[i := s][..n] == sets[..n][i := s];
    StartOfPrefix(sets, n, i);
    SpliceFront(Sections(sets[..n]), Section(sets[n]), Start(sets, i) - 1, Section(s));
  }

  /** With a bank list of the same length only the set's own section changes. */
  lemma {:induction false} SectionsWithChange(sets: seq<BankSet>, i: nat, s: BankSet)
    requires i < |sets| && |s.banks| == |sets[i].banks|
    ensures var words, at := Sections(sets), Start(sets, i) - 1;
            && 0 <= at && at + |Section(s)| <= |words|
            && Sections(sets[i := s]) == Spliced(words, at, Section(s))
  {
    hide Section, Start, Sections, Spliced;
    if i < |sets| - 1 {
      SectionsWithChange(sets[..|sets| - 1], i, s);
      FrontChange(sets, i, s);
    } else {
      LastChange(sets, s);
    }
  }

  lemma SpliceFront<T>(a: seq<T>, b: seq<T>, lo: nat, mid: seq<T>)
    requires lo + |mid| <= |a|
    ensures (a + b)[..lo] + mid + (a + b)[lo + |mid|..] == a[..lo] + mid + a[lo + |mid|..] + b
  {
  }

  /** The sections behind the changed one stay where they are exactly when the length of
      its bank list does. */
  lemma {:induction false} StartsMove(sets: seq<BankSet>, i: nat, s: BankSet, k: nat)
    requires i < k <= |sets|
    ensures Start(sets[i := s], k) - Start(sets, k) == |s.banks| - |sets[i].banks|
  {
    if k == i + 1 {
      StartBefore(sets, i, s, i);
    } else {
      StartsMove(sets, i, s, k - 1);
    }
  }

  lemma {:induction false} StartBefore(sets: seq<BankSet>, i: nat, s: BankSet, k: nat)
    requires k <= i < |sets|
    ensures Start(sets[i := s], k) == Start(sets, k)
  {
    if k > 0 {
      StartBefore(sets, i, s, k - 1);
    }
  }

  // ---- Reading ----

  /** What walking the sections comes to: the payload is too short, a bank count is read
      outside of it, or where the sections start. */
  datatype Scanned = Rejected | Outside | Found(starts: seq<U32>)

  /** Offsets are 32-bit sums. The index of a section's bank count: */
  function CountIndex(start: U32): U32 {
    Wrap32(start + 5)
  }

  function AfterBanks(words: seq<U32>, start: U32): U32
    requires CountIndex(start) < |words|
  {
    Wrap32(start + BEFORE_BANKS + words[CountIndex(start)])
  }

  function NextStart(words: seq<U32>, start: U32): U32
    requires CountIndex(start) < |words|
  {
    Wrap32(AfterBanks(words, start) + AFTER_BANKS)
  }

  /** The starts of the sections a reader finds. */
  function Scan(words: seq<U32>, offset: U32, count: nat): Scanned
    decreases count
  {
    if count == 0 then
      if |words| < offset then Rejected else Found([])
    else if |words| < Wrap32(offset + BEFORE_BANKS + AFTER_BANKS) then Rejected
    else if |words| <= CountIndex(offset) then Outside
    else Ahead([offset], Scan(words, NextStart(words, offset), count - 1))
  }

  function Ahead(front: seq<U32>, rest: Scanned): Scanned {
    if rest.Found? then Found(front + rest.starts) else rest
  }

  /** Where a section ends, as a sum without wrapping. */
  function SectionEnd(words: seq<U32>, start: U32): nat {
    start + BEFORE_BANKS + (if CountIndex(start) < |words| then words[CountIndex(start)] else 0) + AFTER_BANKS
  }

  predicate Readable(words: seq<U32>, start: nat) {
    start + BEFORE_BANKS <= |words| && start + BEFORE_BANKS + words[start + 5] + AFTER_BANKS <= |words|
  }

  /** The set in the section at `start`, field by field as the accessors give it. */
  function ReadSet(words: seq<U32>, start: nat): BankSet
    requires Readable(words, start)
  {
    var after := start + BEFORE_BANKS + words[start + 5];
    BankSet(CString(Unpack(words[start..start + 4])), words[start + 4], words[start + 6..after],
            words[after], words[after + 1], words[after + 2], (words[after + 3], words[after + 4]),
            CString(Unpack(words[after + 5..after + 9])))
  }

  ghost predicate NoneWraps(words: seq<U32>, starts: seq<U32>) {
    forall i :: 0 <= i < |starts| ==> SectionEnd(words, starts[i]) < TWO32
  }

  ghost predicate AllReadable(words: seq<U32>, starts: seq<U32>) {
    forall i :: 0 <= i < |starts| ==> Readable(words, starts[i])
  }

  /** Each section lies at or behind the offset, and behind the one before it. */
  ghost predicate InLine(words: seq<U32>, offset: U32, starts: seq<U32>) {
    && (forall i :: 0 <= i < |starts| ==> offset <= starts[i])
    && (forall i, j :: 0 <= i < j < |starts| ==> SectionEnd(words, starts[i]) <= starts[j])
  }

  /** The sections of an accepted payload all lie inside it exactly when none of their
      ends reaches 2^32; then each lies behind the one before it. */
  lemma {:induction false} ScanIsInside(words: seq<U32>, offset: U32, count: nat)
    requires |words| < TWO32 && Scan(words, offset, count).Found?
    ensures var starts := Scan(words, offset, count).starts;
            && |starts| == count
            && (AllReadable(words, starts) <==> NoneWraps(words, starts))
            && (NoneWraps(words, starts) ==> offset <= |words| && InLine(words, offset, starts))
    decreases count
  {
    if count > 0 {
      var next := NextStart(words, offset);
      ScanIsInside(words, next, count - 1);
      FirstIsInside(words, offset, Scan(words, next, count - 1).starts);
    }
  }

  lemma FirstIsInside(words: seq<U32>, offset: U32, rest: seq<U32>)
    requires |words| < TWO32 && CountIndex(offset) < |words|
    requires AllReadable(words, rest) <==> NoneWraps(words, rest)
    requires var next := NextStart(words, offset);
             NoneWraps(words, rest) ==> next <= |words| && InLine(words, next, rest)
    ensures var starts := [offset] + rest;
            && (AllReadable(words, starts) <==> NoneWraps(words, starts))
            && (NoneWraps(words, starts) ==> offset <= |words| && InLine(words, offset, starts))
  {
    var starts, next := [offset] + rest, NextStart(words, offset);
    assert forall i :: 0 <= i < |rest| ==> starts[i + 1] == rest[i];
    assert starts[0] == offset;
    assert NoneWraps(words, starts) <==> NoneWraps(words, rest) && SectionEnd(words, offset) < TWO32;
    assert AllReadable(words, starts) <==> AllReadable(words, rest) && Readable(words, offset);
    if NoneWraps(words, starts) {
      assert next == SectionEnd(words, offset);
      assert Readable(words, offset);
      forall i, j | 0 <= i < j < |starts| ensures SectionEnd(words, starts[i]) <= starts[j] {
        assert starts[j] == rest[j - 1];
        assert i > 0 ==> starts[i] == rest[i - 1];
      }
    }
  }

  /** A payload that is accepted although its one section ends, as a sum, beyond 2^32: the
      fields behind the bank list are then looked for far outside. */
  lemma WrappedSection()
    ensures var words: seq<U32> := [1, 0, 0, 0, 0, 0, 0xFFFF_FFF1, 0, 0, 0, 0, 0, 0, 0, 0, 0];
            && Scan(words, 1, words[0]) == Found([1])
            && AfterBanks(words, 1) == 0xFFFF_FFF8 && !Readable(words, 1)
  {
    var words: seq<U32> := [1, 0, 0, 0, 0, 0, 0xFFFF_FFF1, 0, 0, 0, 0, 0, 0, 0, 0, 0];
    assert CountIndex(1) == 6 && NextStart(words, 1) == 1;
    assert Scan(words, 1, 0) == Found([]);
  }

  /** From a section on, the payload is that section and what follows it. */
  lemma PayloadFrom(sets: seq<BankSet>, extra: seq<U32>, i: nat) returns (rest: seq<U32>)
    requires i < |sets|
    ensures Start(sets, i) + |Section(sets[i])| <= |Payload(sets)|
    ensures (Payload(sets) + extra)[Start(sets, i)..] == Section(sets[i]) + rest
  {
    hide Section, Start, Payload;
    PayloadAt(sets, i);
    var words, lo := Payload(sets), Start(sets, i);
    var hi := lo + |Section(sets[i])|;
    rest := words[hi..] + extra;
    assert words[lo..] == words[lo..hi] + words[hi..];
    assert (words + extra)[lo..] == words[lo..] + extra;
  }

  /** The parts of a section at its front. */
  lemma SectionParts(s: BankSet, rest: seq<U32>)
    requires |s.banks| < TWO32
    ensures var words, n := Section(s) + rest, |s.banks|;
            && words[..4] == Pack(NameBytes(s.name)) && words[4] == s.flags && words[5] == n
            && words[6..6 + n] == s.banks
            && words[6 + n] == s.tofOffset && words[7 + n] == s.tofMax && words[8 + n] == s.tofBin
            && words[9 + n] == s.throttle.0 && words[10 + n] == s.throttle.1
            && words[11 + n..15 + n] == Pack(NameBytes(s.suffix))
  {
    hide Pack, NameBytes;
    assert Wrap32(|s.banks|) == |s.banks|;
    var name, suffix := Pack(NameBytes(s.name)), Pack(NameBytes(s.suffix));
    var counts, numbers := [s.flags, Wrap32(|s.banks|)], [s.tofOffset, s.tofMax, s.tofBin, s.throttle.0, s.throttle.1];
    assert Section(s) + rest == name + counts + s.banks + numbers + suffix + rest;
    PartsAt(name, counts, s.banks, numbers, suffix, rest);
  }

  lemma PartsAt(name: seq<U32>, counts: seq<U32>, banks: seq<U32>, numbers: seq<U32>, suffix: seq<U32>, rest: seq<U32>)
    requires |name| == |suffix| == 4 && |counts| == 2 && |numbers| == 5
    ensures var words, n := name + counts + banks + numbers + suffix + rest, |banks|;
            && |words| == 15 + n + |rest|
            && words[..4] == name && words[4] == counts[0] && words[5] == counts[1]
            && words[6..6 + n] == banks
            && words[6 + n] == numbers[0] && words[7 + n] == numbers[1] && words[8 + n] == numbers[2]
            && words[9 + n] == numbers[3] && words[10 + n] == numbers[4]
            && words[11 + n..15 + n] == suffix
  {
  }

  function Starts(sets: seq<BankSet>, k: nat): (r: seq<nat>)
    requires k <= |sets|
    ensures |r| == |sets| - k
    decreases |sets| - k
  {
    if k == |sets| then [] else [Start(sets, k)] + Starts(sets, k + 1)
  }

  lemma CountAt(sets: seq<BankSet>, extra: seq<U32>, k: nat)
    requires k < |sets| && |sets[k].banks| < TWO32
    ensures var words, lo := Payload(sets) + extra, Start(sets, k);
            && lo + BEFORE_BANKS + AFTER_BANKS <= |words| && words[lo + 5] == |sets[k].banks|
            && Start(sets, k + 1) == lo + BEFORE_BANKS + words[lo + 5] + AFTER_BANKS
  {
    hide Section, Payload;
    var words, lo := Payload(sets) + extra, Start(sets, k);
    var rest := PayloadFrom(sets, extra, k);
    SectionParts(sets[k], rest);
    assert words[lo..][5] == words[lo + 5];
  }

  lemma StartFits(sets: seq<BankSet>, k: nat)
    requires k <= |sets|
    ensures Start(sets, k) <= |Payload(sets)|
    ensures k < |sets| ==> Start(sets, k) + |Section(sets[k])| <= |Payload(sets)|
  {
    hide Section, Start, Sections;
    SectionsLength(sets);
    if k < |sets| {
      PayloadAt(sets, k);
    }
  }

  lemma ScanNext(words: seq<U32>, offset: U32, count: nat)
    requires count > 0 && offset + 5 < |words| < TWO32
    requires offset + BEFORE_BANKS + words[offset + 5] + AFTER_BANKS <= |words|
    ensures Scan(words, offset, count)
            == Ahead([offset], Scan(words, offset + BEFORE_BANKS + words[offset + 5] + AFTER_BANKS, count - 1))
  {
    var end := offset + BEFORE_BANKS + words[offset + 5];
    assert CountIndex(offset) == offset + 5;
    assert Wrap32(end) == end && Wrap32(end + AFTER_BANKS) == end + AFTER_BANKS;
    assert Wrap32(offset + BEFORE_BANKS + AFTER_BANKS) == offset + BEFORE_BANKS + AFTER_BANKS;
    hide Ahead, Wrap32, CountIndex;
  }

  lemma ScanNone(words: seq<U32>, offset: U32)
    requires offset <= |words|
    ensures Scan(words, offset, 0) == Found([])
  {
  }

  /** A reader finds every section, whatever follows the payload. */
  lemma {:induction false} ScanFindsSets(sets: seq<BankSet>, extra: seq<U32>, k: nat)
    requires k <= |sets| && |Payload(sets) + extra| < TWO32
    ensures Start(sets, k) < TWO32
    ensures var r := Scan(Payload(sets) + extra, Start(sets, k), |sets| - k); r.Found? && r.starts == Starts(sets, k)
    decreases |sets| - k
  {
    hide Section, Payload, Start, Scan;
    StartFits(sets, k);
    if k < |sets| {
      StartFits(sets, k + 1);
      ScanFindsSets(sets, extra, k + 1);
      CountAt(sets, extra, k);
      ScanNext(Payload(sets) + extra, Start(sets, k), |sets| - k);
    } else {
      ScanNone(Payload(sets) + extra, Start(sets, k));
    }
  }

  function CutToSize(s: BankSet): BankSet {
    s.(name := Short(s.name), suffix := Short(s.suffix))
  }

  /** A reader of this payload gets these sets, in order, with names and suffixes cut to
      size. */
  ghost predicate ReadsBack(words: seq<U32>, sets: seq<BankSet>) {
    && words != []
    && var r := Scan(words, 1, words[0]);
    && r.Found? && |r.starts| == |sets|
    && forall i :: 0 <= i < |sets| ==> Readable(words, r.starts[i]) && ReadSet(words, r.starts[i]) == CutToSize(sets[i])
  }

  lemma PayloadReadsBack(sets: seq<BankSet>, extra: seq<U32>)
    requires |Payload(sets) + extra| < TWO32
    ensures ReadsBack(Payload(sets) + extra, sets)
  {
    hide Section, Sections, Start, Scan, ReadSet, CutToSize;
    CountFits(sets);
    assert (Payload(sets) + extra)[0] == |sets|;
    ScanFindsSets(sets, extra, 0);
    FirstStart(sets);
    forall i | 0 <= i < |sets|
      ensures Readable(Payload(sets) + extra, Starts(sets, 0)[i])
      ensures ReadSet(Payload(sets) + extra, Starts(sets, 0)[i]) == CutToSize(sets[i])
    {
      StartFits(sets, i);
      StartsAt(sets, 0, i);
      ReadFindsSet(sets, extra, i);
    }
  }

  lemma FirstStart(sets: seq<BankSet>)
    ensures Start(sets, 0) == 1
  {
  }

  lemma {:induction false} CountFits(sets: seq<BankSet>)
    ensures |sets| < |Payload(sets)|
  {
    if sets != [] {
      CountFits(sets[..|sets| - 1]);
    }
  }

  lemma {:induction false} StartsAt(sets: seq<BankSet>, k: nat, i: nat)
    requires k <= |sets| && i < |sets| - k
    ensures Starts(sets, k)[i] == Start(sets, k + i)
    decreases |sets| - k
  {
    hide Start;
    if i > 0 {
      StartsAt(sets, k + 1, i - 1);
    } else if k + 1 < |sets| {
      StartsAt(sets, k + 1, 0);
    }
  }

  // ---- Bank lists that change their length ----

  function Plain(flags: U32, banks: seq<U32>): BankSet {
    BankSet([], flags, banks, 0, 0, 0, (0, 0), [])
  }

  lemma PlainSection(flags: U32, banks: seq<U32>)
    requires |banks| < TWO32
    ensures var words := Section(Plain(flags, banks));
            words[3] == 0 && words[4] == flags && words[5] == |banks|
  {
    assert NameBytes([]) == [0, 0, 0, 0, 0, 0, 0, 0, 0, 0, 0, 0, 0, 0, 0, 0];
    assert Word([0, 0, 0, 0]) == 0;
    assert Pack(NameBytes([])) == [0, 0, 0, 0];
    hide Pack, NameBytes, Word;
  }

  lemma TwoSets(a: BankSet, b: BankSet)
    ensures Payload([a, b]) == [2] + Section(a) + Section(b)
    ensures Start([a, b], 0) == 1 && Start([a, b], 1) == 1 + |Section(a)|
  {
    hide Section;
    SectionsStep([a, b]);
    assert [a, b][..1] == [a];
    SectionsStep([a]);
    assert [a][..0] == [];
  }

  /** A payload of two sections with `m` and `n` banks. */
  lemma ScanTwo(words: seq<U32>, m: nat, n: nat)
    requires 31 + m + n <= |words| < TWO32 && words[6] == m && words[21 + m] == n
    ensures Scan(words, 1, 2) == Found([1, 16 + m])
  {
    ScanNext(words, 1, 2);
    ScanNext(words, 16 + m, 1);
    ScanNone(words, 31 + m + n);
    hide Scan;
  }

  /** Two sections, of which the first is rewritten shorter or longer. */
  lemma RewrittenWords(a: seq<U32>, b: seq<U32>, s: seq<U32>)
    requires |a| >= 15 && |b| == 15 && 15 <= |s| <= |a| + 1
    ensures var words := [2] + a + b; var after := Spliced(words, 1, s);
            && words[0] == 2 && words[6] == a[5] && words[6 + |a|] == b[5]
            && |after| == |words| == 16 + |a| && after[0] == 2 && after[6] == s[5]
            && after[4 + |a|] == b[3] && after[5 + |a|] == b[4] && after[6 + |a|] == b[5]
  {
  }

  lemma MisreadSet(words: seq<U32>)
    requires |words| == 32 && words[20] == 0 && words[21] == 1 && words[22] == 0
    ensures Readable(words, 16) && ReadSet(words, 16).flags == 0 && ReadSet(words, 16).banks == [0]
  {
    hide CString, Unpack;
    assert words[22..23] == [0];
  }

  lemma NotReadBack(words: seq<U32>, sets: seq<BankSet>, start: U32)
    requires |sets| == 2 && |words| > 0 && words[0] == 2 && Scan(words, 1, 2) == Found([1, start])
    requires Readable(words, start) && ReadSet(words, start).flags != sets[1].flags
    ensures !ReadsBack(words, sets)
  {
    hide Scan, Readable, ReadSet;
  }

  lemma ScanTooLong(words: seq<U32>, offset: U32)
    requires |words| < offset + BEFORE_BANKS + AFTER_BANKS < TWO32
    ensures Scan(words, offset, 1) == Rejected
  {
  }

  lemma NotAccepted(words: seq<U32>, sets: seq<BankSet>)
    requires |words| > 0 && words[0] == 2 && Scan(words, 1, 2) == Rejected
    ensures !ReadsBack(words, sets)
  {
  }

  /** The first of two sets loses its one bank. The packet is still accepted, but the
      second set is looked for one word early and read wrongly. */
  lemma ShorterListMisread()
    ensures var sets, s := [Plain(0, [7]), Plain(1, [])], Plain(0, []);
            && Start(sets, 0) == 1 && 1 + |Section(s)| <= |Payload(sets)|
            && var after := Spliced(Payload(sets), 1, Section(s));
            && Scan(Payload(sets), 1, 2) == Found([1, 17]) && Scan(after, 1, 2) == Found([1, 16])
            && Readable(after, 16) && ReadSet(after, 16).flags == 0 && ReadSet(after, 16).banks == [0]
            && !ReadsBack(after, sets[0 := s])
  {
    hide Section, Sections, Payload, Start, Scan, ReadSet, Readable, Spliced, ReadsBack, Wrap32;
    var a, b, s := Plain(0, [7]), Plain(1, []), Plain(0, []);
    PlainSection(0, [7]);
    PlainSection(1, []);
    PlainSection(0, []);
    TwoSets(a, b);
    RewrittenWords(Section(a), Section(b), Section(s));
    var words := Payload([a, b]);
    var after := Spliced(words, 1, Section(s));
    ScanTwo(words, 1, 0);
    ScanTwo(after, 0, 1);
    MisreadSet(after);
    NotReadBack(after, [a, b][0 := s], 16);
  }

  /** The first of two sets gets a bank: its section runs into the second one's, and the
      packet is rejected. */
  lemma LongerListRejected()
    ensures var sets, s := [Plain(0, []), Plain(1, [])], Plain(0, [7]);
            && Start(sets, 0) == 1 && 1 + |Section(s)| <= |Payload(sets)|
            && var after := Spliced(Payload(sets), 1, Section(s));
            && Scan(Payload(sets), 1, 2) == Found([1, 16]) && Scan(after, 1, 2) == Rejected
            && !ReadsBack(after, sets[0 := s])
  {
    hide Section, Sections, Payload, Start, Scan, ReadSet, Readable, Spliced, ReadsBack, Wrap32;
    var a, b, s := Plain(0, []), Plain(1, []), Plain(0, [7]);
    PlainSection(0, [7]);
    PlainSection(1, []);
    PlainSection(0, []);
    TwoSets(a, b);
    RewrittenWords(Section(a), Section(b), Section(s));
    var words := Payload([a, b]);
    var after := Spliced(words, 1, Section(s));
    ScanTwo(words, 0, 0);
    ScanNext(after, 1, 2);
    ScanTooLong(after, 17);
    NotAccepted(after, [a, b][0 := s]);
  }

  /** Every set is read back as it was, with its name and suffix cut to size. */
  lemma ReadFindsSet(sets: seq<BankSet>, extra: seq<U32>, i: nat)
    requires i < |sets| && |sets[i].banks| < TWO32
    ensures Readable(Payload(sets) + extra, Start(sets, i))
    ensures ReadSet(Payload(sets) + extra, Start(sets, i)) == CutToSize(sets[i])
  {
    hide Section, Payload, Start, ReadSet, CutToSize;
    var rest := PayloadFrom(sets, extra, i);
    ReadSection(Payload(sets) + extra, Start(sets, i), sets[i], rest);
  }

  lemma ReadSection(words: seq<U32>, lo: nat, s: BankSet, rest: seq<U32>)
    requires |s.banks| < TWO32 && lo <= |words| && words[lo..] == Section(s) + rest
    ensures Readable(words, lo)
    ensures ReadSet(words, lo) == CutToSize(s)
  {
    hide Section, Pack, NameBytes, Short, CString, Unpack;
    SectionParts(s, rest);
    NameSurvives(s.name);
    NameSurvives(s.suffix);
    var tail, n := words[lo..], |s.banks|;
    assert forall k :: 0 <= k < |tail| ==> tail[k] == words[lo + k];
    assert words[lo + 5] == tail[5] == n;
    assert words[lo..lo + 4] == tail[..4];
    assert words[lo + 6..lo + 6 + n] == tail[6..6 + n];
    assert words[lo + 11 + n..lo + 15 + n] == tail[11 + n..15 + n];
    assert words[lo + 6 + n] == tail[6 + n] && words[lo + 7 + n] == tail[7 + n] && words[lo + 8 + n] == tail[8 + n];
    assert words[lo + 9 + n] == tail[9 + n] && words[lo + 10 + n] == tail[10 + n];
  }
}
