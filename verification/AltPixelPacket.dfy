/** The writer of the alternate pixel mapping packet: one pass over the map that
    gathers runs of constant step into shorthand sections. */
module AltPixelPacket {
  import opened Words
  import opened PixelTypes
  import opened AltPixelWire
  import opened AltPixelSections

  /** The difference of two ids as an `int32_t`. */
  function Step(from: U32, to: U32): int {
    Signed32(Wrap32(to - from))
  }

  predicate StepOverflow(a: Pixel, b: Pixel) {
    !SmallStep(Step(a.physical, b.physical)) || !SmallStep(Step(a.logical, b.logical))
  }

  /** Many-to-one maps never put a repeated logical id in a run. */
  predicate Repeats(manyToOne: bool, a: Pixel, b: Pixel) {
    manyToOne && a.logical == b.logical
  }

  /** Entry `i` does not belong to the section that began at `head` and goes up to `i`. */
  predicate Breaks(manyToOne: bool, pixels: seq<Pixel>, head: nat, i: nat)
    requires head < i < |pixels|
  {
    var p, q := pixels[i - 1], pixels[i];
    || q.bank != p.bank
    || (head < i - 1 &&
        (|| q.physical != Wrap32(p.physical + Step(pixels[head].physical, pixels[head + 1].physical))
         || q.logical != Wrap32(p.logical + Step(pixels[head].logical, pixels[head + 1].logical))))
    || Repeats(manyToOne, p, q)
    || i - head >= MAX_COUNT
    || (head == i - 1 && StepOverflow(p, q))
  }

  /** Where the section holding entry `i` begins. */
  function Head(manyToOne: bool, pixels: seq<Pixel>, i: nat): (h: nat)
    requires i < |pixels|
    ensures h <= i
  {
    if i == 0 then 0
    else
      var h := Head(manyToOne, pixels, i - 1);
      if Breaks(manyToOne, pixels, h, i) then i else h
  }

  /** An unmapped entry that is written all the same: it is alone in its section when
      the next unmapped entry arrives, and the step to that one overflows 16 bits.
      That branch writes a direct section without looking at the bank. */
  predicate Leaks(manyToOne: bool, pixels: seq<Pixel>, k: nat)
    requires k < |pixels|
  {
    && k + 1 < |pixels|
    && pixels[k].bank == UNMAPPED_BANK == pixels[k + 1].bank
    && Head(manyToOne, pixels, k) == k
    && !Repeats(manyToOne, pixels[k], pixels[k + 1])
    && StepOverflow(pixels[k], pixels[k + 1])
  }

  /** Of the first `n` entries, those that are written. */
  function Sent(manyToOne: bool, pixels: seq<Pixel>, n: nat): seq<Pixel>
    requires n <= |pixels|
  {
    if n == 0 then []
    else
      Sent(manyToOne, pixels, n - 1) +
      (if pixels[n - 1].bank != UNMAPPED_BANK || Leaks(manyToOne, pixels, n - 1) then [pixels[n - 1]] else [])
  }

  lemma {:induction false} SentMapped(manyToOne: bool, pixels: seq<Pixel>, n: nat)
    requires n <= |pixels|
    ensures Mapped(Sent(manyToOne, pixels, n)) == Mapped(pixels[..n])
    ensures forall p :: p in Sent(manyToOne, pixels, n) ==> p in pixels
  {
    hide Leaks;
    if n > 0 {
      SentMapped(manyToOne, pixels, n - 1);
      assert pixels[..n] == pixels[..n - 1] + [pixels[n - 1]];
      MappedAppend(pixels[..n - 1], pixels[n - 1]);
      var s := Sent(manyToOne, pixels, n - 1);
      MappedAppend(s, pixels[n - 1]);
      assert s + [] == s;
    }
  }

  /** Unmapped pixels stay off the wire exactly when no entry leaks. */
  lemma {:induction false} SentUnmapped(manyToOne: bool, pixels: seq<Pixel>, n: nat)
    requires n <= |pixels|
    ensures (forall p :: p in Sent(manyToOne, pixels, n) ==> p.bank != UNMAPPED_BANK)
            <==> (forall k :: 0 <= k < n ==> !Leaks(manyToOne, pixels, k))
  {
    if n > 0 {
      SentUnmapped(manyToOne, pixels, n - 1);
      var s, p := Sent(manyToOne, pixels, n - 1), pixels[n - 1];
      assert forall q :: q in s + [p] <==> q in s || q == p;
      assert s + [] == s;
      if Leaks(manyToOne, pixels, n - 1) {
        assert p in Sent(manyToOne, pixels, n);
      }
    }
  }

  /** A map whose neighbouring unmapped entries are at most 32767 apart never leaks. */
  lemma SmallGapsNeverLeak(manyToOne: bool, pixels: seq<Pixel>, k: nat)
    requires forall i :: 0 < i < |pixels| && pixels[i - 1].bank == UNMAPPED_BANK == pixels[i].bank ==>
               !StepOverflow(pixels[i - 1], pixels[i])
    requires k < |pixels|
    ensures !Leaks(manyToOne, pixels, k)
  {
  }

  /** Two unmapped pixels 40000 apart: the first is put on the wire. */
  lemma UnmappedPixelOnTheWire()
    ensures var pixels := [Pixel(0, 0, UNMAPPED_BANK), Pixel(40000, 1, UNMAPPED_BANK)];
            && InMapOrder(pixels) && DistinctLogicals(pixels)
            && Sent(false, pixels, 2) == [pixels[0]]
  {
    var pixels := [Pixel(0, 0, UNMAPPED_BANK), Pixel(40000, 1, UNMAPPED_BANK)];
    assert StepOverflow(pixels[0], pixels[1]);
    assert Head(false, pixels, 0) == 0;
    assert Leaks(false, pixels, 0) && !Leaks(false, pixels, 1);
    assert Sent(false, pixels, 0) == [];
    assert Sent(false, pixels, 1) == [pixels[0]];
  }

  /** All of a section's entries have its bank and none but the last can leak. */
  lemma {:induction false} SentSection(manyToOne: bool, pixels: seq<Pixel>, first: nat, i: nat)
    requires first < i <= |pixels|
    requires forall k :: first <= k < i ==> Head(manyToOne, pixels, k) == first
    requires forall k :: first <= k < i ==> pixels[k].bank == pixels[first].bank
    requires !Leaks(manyToOne, pixels, i - 1)
    ensures Sent(manyToOne, pixels, i) == Sent(manyToOne, pixels, first) +
              (if pixels[first].bank == UNMAPPED_BANK then [] else pixels[first..i])
    decreases i
  {
    hide Repeats, StepOverflow;
    assert pixels[first..i] == pixels[first..i - 1] + [pixels[i - 1]];
    if first < i - 1 {
      assert Head(manyToOne, pixels, i - 1) == first;
      assert !Leaks(manyToOne, pixels, i - 2);
      SentSection(manyToOne, pixels, first, i - 1);
    }
  }

  /** What the writer emits for a section when it ends. */
  function SectionWords(start: Pixel, stop: Pixel, physicalStep: int, logicalStep: int, entries: nat): seq<U32>
    requires entries < 0x8000
  {
    if start.physical != stop.physical && physicalStep != 0 && start.logical != stop.logical && logicalStep != 0
    then ShorthandWords(start, stop, physicalStep, logicalStep, entries)
    else DirectWords(start, entries)
  }

  /** The bookkeeping between two entries, as the variables of the loop hold it. */
  ghost predicate Open(manyToOne: bool, pixels: seq<Pixel>, first: nat, i: nat,
                       physicalStep: int, logicalStep: int)
  {
    && first < i <= |pixels| && i - first <= MAX_COUNT
    && (forall k :: first <= k < i ==> Head(manyToOne, pixels, k) == first)
    && Run(pixels[first..i], physicalStep, logicalStep)
    && (i - first == 1 ==> physicalStep == 0 && logicalStep == 0)
    && (i - first > 1 ==>
          && physicalStep == Step(pixels[first].physical, pixels[first + 1].physical)
          && logicalStep == Step(pixels[first].logical, pixels[first + 1].logical)
          && SmallStep(physicalStep) && SmallStep(logicalStep)
          && physicalStep != 0 && logicalStep != 0)
  }

  lemma OpenSingle(manyToOne: bool, pixels: seq<Pixel>, i: nat)
    requires i < |pixels| && Head(manyToOne, pixels, i) == i
    ensures Open(manyToOne, pixels, i, i + 1, 0, 0)
  {}

  lemma RunExtends(run: seq<Pixel>, p: Pixel, ps: int, ls: int)
    requires run != [] && Run(run, ps, ls) && p.bank == run[|run| - 1].bank
    requires Follows(run[|run| - 1], p, ps, ls)
    ensures Run(run + [p], ps, ls)
  {
    hide Follows;
    assert run[|run| - 1].bank == run[0].bank;
    forall k | 0 < k < |run| + 1
      ensures FollowsAt(run + [p], k, ps, ls)
    {
      if k < |run| {
        assert FollowsAt(run, k, ps, ls);
      }
    }
  }

  lemma RunNext(manyToOne: bool, pixels: seq<Pixel>, first: nat, i: nat, ps: int, ls: int, ps': int, ls': int)
    requires Open(manyToOne, pixels, first, i, ps, ls) && i < |pixels|
    requires !Breaks(manyToOne, pixels, first, i)
    requires ps' == Step(pixels[first].physical, pixels[first + 1].physical)
    requires ls' == Step(pixels[first].logical, pixels[first + 1].logical)
    ensures Run(pixels[first..i + 1], ps', ls')
  {
    var run := pixels[first..i];
    assert run[|run| - 1] == pixels[i - 1];
    StepLeads(pixels[i - 1].physical, pixels[i].physical);
    StepLeads(pixels[i - 1].logical, pixels[i].logical);
    hide Head, Step, Wrap32, StepOverflow;
    assert Follows(pixels[i - 1], pixels[i], ps', ls');
    assert Run(run, ps', ls');
    hide Run;
    RunExtends(run, pixels[i], ps', ls');
    assert pixels[first..i + 1] == run + [pixels[i]];
  }

  lemma OpenNext(manyToOne: bool, pixels: seq<Pixel>, first: nat, i: nat, ps: int, ls: int, ps': int, ls': int)
    requires Open(manyToOne, pixels, first, i, ps, ls) && i < |pixels|
    requires !Breaks(manyToOne, pixels, first, i)
    requires ps' == Step(pixels[first].physical, pixels[first + 1].physical) && ps' != 0 && SmallStep(ps')
    requires ls' == Step(pixels[first].logical, pixels[first + 1].logical) && ls' != 0 && SmallStep(ls')
    ensures Open(manyToOne, pixels, first, i + 1, ps', ls')
  {
    hide Run, Step, Wrap32, StepOverflow, Repeats;
    RunNext(manyToOne, pixels, first, i, ps, ls, ps', ls');
    assert Head(manyToOne, pixels, i - 1) == first;
    assert Head(manyToOne, pixels, i) == first;
    hide Head;
  }

  lemma StepLeads(from: U32, to: U32)
    ensures Wrap32(from + Step(from, to)) == to
    ensures from != to ==> Step(from, to) != 0
  {}

  /** Closing a section appends it to what a reader sees, if its bank is mapped. */
  lemma CloseSection(manyToOne: bool, pixels: seq<Pixel>, first: nat, i: nat, ps: int, ls: int, words: seq<U32>)
    requires Open(manyToOne, pixels, first, i, ps, ls)
    requires Canonical(words) && OnTheWire(words) == Sent(manyToOne, pixels, first)
    requires !Leaks(manyToOne, pixels, i - 1)
    ensures var w := SectionWords(pixels[first], pixels[i - 1], ps, ls, i - first);
            var words' := if pixels[i - 1].bank == UNMAPPED_BANK then words else words + w;
            Canonical(words') && OnTheWire(words') == Sent(manyToOne, pixels, i)
  {
    hide Head, Leaks, Canonical, OnTheWire, Step, SmallStep, DirectWords, ShorthandWords;
    var run := pixels[first..i];
    forall k | first <= k < i
      ensures pixels[k].bank == pixels[first].bank
    {
      assert run[k - first].bank == run[0].bank;
    }
    SentSection(manyToOne, pixels, first, i);
    var w := SectionWords(pixels[first], pixels[i - 1], ps, ls, i - first);
    if i - first == 1 {
      DirectSection(pixels[first]);
      assert run == [pixels[first]];
    } else {
      RunGoesOn(run, ps, ls, 0);
      ShorthandSection(run, ps, ls);
    }
    WireAppend(words, w);
  }

  /** The branch for a step that overflows: the lone entry goes out as a direct section,
      whatever its bank. */
  lemma DumpOverflow(manyToOne: bool, pixels: seq<Pixel>, i: nat, words: seq<U32>)
    requires 0 < i < |pixels| && Head(manyToOne, pixels, i - 1) == i - 1
    requires Canonical(words) && OnTheWire(words) == Sent(manyToOne, pixels, i - 1)
    requires pixels[i].bank == pixels[i - 1].bank && !Repeats(manyToOne, pixels[i - 1], pixels[i])
    requires StepOverflow(pixels[i - 1], pixels[i])
    ensures var words' := words + DirectWords(pixels[i - 1], 1);
            Canonical(words') && OnTheWire(words') == Sent(manyToOne, pixels, i)
    ensures Head(manyToOne, pixels, i) == i
  {
    hide Canonical, OnTheWire, DirectWords;
    DirectSection(pixels[i - 1]);
    WireAppend(words, DirectWords(pixels[i - 1], 1));
    assert pixels[i - 1].bank == UNMAPPED_BANK ==> Leaks(manyToOne, pixels, i - 1);
  }

  lemma FirstSection(manyToOne: bool, pixels: seq<Pixel>)
    requires pixels != []
    ensures Open(manyToOne, pixels, 0, 1, 0, 0)
    ensures Canonical([]) && OnTheWire([]) == Sent(manyToOne, pixels, 0)
    ensures !Leaks(manyToOne, pixels, |pixels| - 1)
  {
  }

  /** The writer's test for a new section. */
  predicate SeesBreak(manyToOne: bool, entries: nat, last: Pixel, p: Pixel, nextPhysical: U32, nextLogical: U32) {
    || p.bank != last.bank
    || (entries > 1 && (p.physical != nextPhysical || p.logical != nextLogical))
    || Repeats(manyToOne, last, p)
    || entries >= MAX_COUNT
  }

  lemma SectionEnds(manyToOne: bool, pixels: seq<Pixel>, first: nat, i: nat, ps: int, ls: int)
    requires Open(manyToOne, pixels, first, i, ps, ls) && i < |pixels|
    requires SeesBreak(manyToOne, i - first, pixels[i - 1], pixels[i],
                       Wrap32(pixels[i - 1].physical + ps), Wrap32(pixels[i - 1].logical + ls))
    ensures Head(manyToOne, pixels, i) == i && !Leaks(manyToOne, pixels, i - 1)
  {
  }

  lemma StepsToNext(manyToOne: bool, pixels: seq<Pixel>, first: nat, i: nat, ps: int, ls: int, ps': int, ls': int)
    requires Open(manyToOne, pixels, first, i, ps, ls) && i < |pixels|
    requires !Repeats(manyToOne, pixels[i - 1], pixels[i])
    requires InMapOrder(pixels) && (manyToOne || DistinctLogicals(pixels))
    requires ps' == if i - first > 1 then ps else Step(pixels[i - 1].physical, pixels[i].physical)
    requires ls' == if i - first > 1 then ls else Step(pixels[i - 1].logical, pixels[i].logical)
    ensures ps' == Step(pixels[first].physical, pixels[first + 1].physical) && ps' != 0
    ensures ls' == Step(pixels[first].logical, pixels[first + 1].logical) && ls' != 0
    ensures i - first > 1 ==> SmallStep(ps') && SmallStep(ls')
  {
  }

  /** Without a break, the section goes on, or its lone entry meets an overflowing step. */
  lemma SectionGoesOn(manyToOne: bool, pixels: seq<Pixel>, first: nat, i: nat, ps: int, ls: int, ps': int, ls': int)
    requires Open(manyToOne, pixels, first, i, ps, ls) && i < |pixels|
    requires !SeesBreak(manyToOne, i - first, pixels[i - 1], pixels[i],
                        Wrap32(pixels[i - 1].physical + ps), Wrap32(pixels[i - 1].logical + ls))
    requires InMapOrder(pixels) && (manyToOne || DistinctLogicals(pixels))
    requires ps' == if i - first > 1 then ps else Step(pixels[i - 1].physical, pixels[i].physical)
    requires ls' == if i - first > 1 then ls else Step(pixels[i - 1].logical, pixels[i].logical)
    ensures if SmallStep(ps') && SmallStep(ls') then Open(manyToOne, pixels, first, i + 1, ps', ls')
            else first == i - 1 && Head(manyToOne, pixels, i - 1) == i - 1
                 && StepOverflow(pixels[i - 1], pixels[i])
  {
    hide Wrap32, Step, Run, InMapOrder, DistinctLogicals;
    StepsToNext(manyToOne, pixels, first, i, ps, ls, ps', ls');
    assert Head(manyToOne, pixels, i - 1) == first;
    hide Head;
    if SmallStep(ps') && SmallStep(ls') {
      OpenNext(manyToOne, pixels, first, i, ps, ls, ps', ls');
    }
  }

  /** `section_words` of the source. In one-to-one mode the logical ids are distinct,
      as the reader of the map file guarantees. */
  method GenAltSections(pixels: seq<Pixel>, manyToOne: bool) returns (words: seq<U32>)
    requires pixels != [] && InMapOrder(pixels)
    requires manyToOne || DistinctLogicals(pixels)
    ensures Canonical(words)
    ensures OnTheWire(words) == Sent(manyToOne, pixels, |pixels|)
    ensures ReadByClient(words) == Mapped(pixels)
  {
    hide Canonical, OnTheWire, Head, Leaks, Step, StepOverflow, Wrap32, Open, SectionWords, Sent, Mapped,
      ReadByClient, InMapOrder, DistinctLogicals;
    words := [];
    ghost var first := 0;
    var start, last := pixels[0], pixels[0];
    var physicalStep, logicalStep, stepsSet := 0, 0, false;
    var nextPhysical: U32, nextLogical: U32 := 0xffff_ffff, 0xffff_ffff;
    var entries: nat := 1;
    FirstSection(manyToOne, pixels);

    for i := 1 to |pixels|
      invariant Open(manyToOne, pixels, first, i, physicalStep, logicalStep)
      invariant first < i && start == pixels[first] && last == pixels[i - 1]
      invariant entries == i - first <= MAX_COUNT && stepsSet == (entries > 1)
      invariant stepsSet ==> nextPhysical == Wrap32(last.physical + physicalStep)
      invariant stepsSet ==> nextLogical == Wrap32(last.logical + logicalStep)
      invariant Canonical(words) && OnTheWire(words) == Sent(manyToOne, pixels, first)
    {
      var p := pixels[i];
      ghost var ps, ls := physicalStep, logicalStep;
      if p.bank != last.bank
         || (stepsSet && (p.physical != nextPhysical || p.logical != nextLogical))
         || (manyToOne && p.logical == last.logical)
         || entries >= MAX_COUNT
      {
        SectionEnds(manyToOne, pixels, first, i, physicalStep, logicalStep);
        CloseSection(manyToOne, pixels, first, i, physicalStep, logicalStep, words);
        if last.bank != UNMAPPED_BANK {
          words := words + SectionWords(start, last, physicalStep, logicalStep, entries);
        }
        physicalStep, logicalStep, stepsSet := 0, 0, false;
        entries := 0;
        start := p;
        first := i;
        OpenSingle(manyToOne, pixels, i);
      } else if !stepsSet {
        physicalStep := Step(last.physical, p.physical);
        logicalStep := Step(last.logical, p.logical);
        stepsSet := true;
      }

      if stepsSet {
        SectionGoesOn(manyToOne, pixels, first, i, ps, ls, physicalStep, logicalStep);
        if !SmallStep(physicalStep) || !SmallStep(logicalStep) {
          DumpOverflow(manyToOne, pixels, i, words);
          words := words + DirectWords(start, entries);
          start := p;
          physicalStep, logicalStep, stepsSet := 0, 0, false;
          nextPhysical, nextLogical := 0xffff_ffff, 0xffff_ffff;
          entries := 0;
          first := i;
          OpenSingle(manyToOne, pixels, i);
        } else {
          nextPhysical := Wrap32(p.physical + physicalStep);
          nextLogical := Wrap32(p.logical + logicalStep);
        }
      }
      last := p;
      entries := entries + 1;
    }

    CloseSection(manyToOne, pixels, first, |pixels|, physicalStep, logicalStep, words);
    if last.bank != UNMAPPED_BANK {
      words := words + SectionWords(start, last, physicalStep, logicalStep, entries);
    }
    ClientReadsMapped(words);
    SentMapped(manyToOne, pixels, |pixels|);
    assert pixels[..|pixels|] == pixels;
  }
}
