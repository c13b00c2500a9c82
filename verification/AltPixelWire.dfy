/** The alternate pixel mapping packet as its readers see it: sections of a base
    physical id, a word of bank, shorthand flag and 15-bit count, and then either
    the logical ids themselves or a stop/start/step description of both sequences. */
module AltPixelWire {
  import opened Words
  import opened PixelTypes

  function Signed16(x: U16): int {
    if x < 0x8000 then x else x - 0x1_0000
  }

  function BankOf(w: U32): U16 {
    w / 0x1_0000
  }

  predicate IsShorthand(w: U32) {
    w / 0x8000 % 2 == 1
  }

  function CountOf(w: U32): nat {
    w % 0x8000
  }

  function BankAndCount(bank: U16, shorthand: bool, count: nat): U32
    requires count < 0x8000
  {
    bank * 0x1_0000 + (if shorthand then 0x8000 else 0) + count
  }

  /** `physical_step << 16 | logical_step & 0xFFFF`. */
  function StepsWord(physicalStep: int, logicalStep: int): U32 {
    Wrap32(physicalStep * 0x1_0000) + logicalStep % 0x1_0000
  }

  /** C division, which truncates towards zero. */
  function TruncDiv(x: int, d: int): int
    requires d != 0
  {
    if (x >= 0) == (d > 0) then (if d > 0 then x / d else (-x) / (-d))
    else -((if x >= 0 then x else -x) / (if d > 0 then d else -d))
  }

  /** The reader's recount of a shorthand sequence, in 32-bit signed arithmetic. */
  function Recount(start: U32, stop: U32, step: int): int
    requires step != 0
  {
    TruncDiv(Signed32(Wrap32(stop - start + step)), step)
  }

  function FrontSize(w: seq<U32>): nat
    requires |w| >= 2
  {
    if IsShorthand(w[1]) then 6 else 2 + CountOf(w[1])
  }

  /** A section at the front of `w`, all of its words present, no zero step. */
  predicate HasFront(w: seq<U32>) {
    && |w| >= 2 && |w| >= FrontSize(w)
    && (IsShorthand(w[1]) ==> Signed16(w[4] / 0x1_0000) != 0 && Signed16(w[4] % 0x1_0000) != 0)
  }

  /** The reader's walk from start to stop; both ends are included. */
  function Walk(p: U32, physicalStep: int, physicalStop: U32,
                l: U32, logicalStep: int, logicalStop: U32, bank: U16, steps: nat): seq<Pixel>
    decreases steps
  {
    if p == physicalStop || l == logicalStop || steps == 0
    then [Pixel(physicalStop, logicalStop, bank)]
    else [Pixel(p, l, bank)] +
         Walk(Wrap32(p + physicalStep), physicalStep, physicalStop,
              Wrap32(l + logicalStep), logicalStep, logicalStop, bank, steps - 1)
  }

  function Direct(physical: U32, logicals: seq<U32>, bank: U16): seq<Pixel>
    decreases |logicals|
  {
    if logicals == [] then []
    else [Pixel(physical, logicals[0], bank)] + Direct(Wrap32(physical + 1), logicals[1..], bank)
  }

  /** What the front section describes; a shorthand section whose recounts disagree
      with its count is skipped. */
  function FrontPixels(w: seq<U32>): seq<Pixel>
    requires HasFront(w)
  {
    var bank, count := BankOf(w[1]), CountOf(w[1]);
    if IsShorthand(w[1]) then
      var physicalStep, logicalStep := Signed16(w[4] / 0x1_0000), Signed16(w[4] % 0x1_0000);
      if Recount(w[0], w[2], physicalStep) != count || Recount(w[3], w[5], logicalStep) != count then []
      else Walk(w[0], physicalStep, w[2], w[3], logicalStep, w[5], bank, count)
    else Direct(w[0], w[2..2 + count], bank)
  }

  /** Everything the section words describe, up to a section the reader bails out on. */
  function OnTheWire(w: seq<U32>): seq<Pixel>
    decreases |w|
  {
    if HasFront(w) then FrontPixels(w) + OnTheWire(w[FrontSize(w)..]) else []
  }

  /** What the translation client enters in its banks: sections of the unmapped bank
      are skipped. */
  function ReadByClient(w: seq<U32>): seq<Pixel>
    decreases |w|
  {
    if HasFront(w) then
      (if BankOf(w[1]) == UNMAPPED_BANK then [] else FrontPixels(w)) + ReadByClient(w[FrontSize(w)..])
    else []
  }

  /** A direct section holds one pixel, a shorthand one at least two, and its stops
      are where its steps lead. */
  predicate CanonicalFront(w: seq<U32>)
    requires HasFront(w)
  {
    if IsShorthand(w[1]) then
      && CountOf(w[1]) >= 2
      && w[2] == Wrap32(w[0] + (CountOf(w[1]) - 1) * Signed16(w[4] / 0x1_0000))
      && w[5] == Wrap32(w[3] + (CountOf(w[1]) - 1) * Signed16(w[4] % 0x1_0000))
    else CountOf(w[1]) == 1
  }

  /** Only whole sections, each canonical. */
  predicate Canonical(w: seq<U32>)
    decreases |w|
  {
    w == [] || (HasFront(w) && CanonicalFront(w) && Canonical(w[FrontSize(w)..]))
  }

  lemma FrontStays(w: seq<U32>, more: seq<U32>)
    requires HasFront(w)
    ensures HasFront(w + more) && FrontSize(w + more) == FrontSize(w)
    ensures FrontPixels(w + more) == FrontPixels(w) && CanonicalFront(w + more) == CanonicalFront(w)
    ensures (w + more)[FrontSize(w)..] == w[FrontSize(w)..] + more
  {
    hide Walk, Direct, Recount, BankOf, Wrap32, Signed16;
    if !IsShorthand(w[1]) {
      assert (w + more)[2..2 + CountOf(w[1])] == w[2..2 + CountOf(w[1])];
    }
  }

  /** Sections can be appended one at a time. */
  lemma {:induction false} WireAppend(w: seq<U32>, more: seq<U32>)
    requires Canonical(w)
    ensures OnTheWire(w + more) == OnTheWire(w) + OnTheWire(more)
    ensures Canonical(more) ==> Canonical(w + more)
    decreases |w|
  {
    if w == [] {
      assert w + more == more;
    } else {
      hide FrontPixels, IsShorthand, CountOf, Signed16, HasFront, CanonicalFront;
      FrontStays(w, more);
      WireAppend(w[FrontSize(w)..], more);
    }
  }

  lemma {:induction false} WalkKeepsBank(p: U32, ps: int, pe: U32, l: U32, ls: int, le: U32, bank: U16, steps: nat)
    ensures forall q :: q in Walk(p, ps, pe, l, ls, le, bank, steps) ==> q.bank == bank
    decreases steps
  {
    if steps > 0 {
      WalkKeepsBank(Wrap32(p + ps), ps, pe, Wrap32(l + ls), ls, le, bank, steps - 1);
    }
  }

  lemma {:induction false} DirectKeepsBank(p: U32, logicals: seq<U32>, bank: U16)
    ensures forall q :: q in Direct(p, logicals, bank) ==> q.bank == bank
    decreases |logicals|
  {
    if logicals != [] {
      DirectKeepsBank(Wrap32(p + 1), logicals[1..], bank);
    }
  }

  lemma {:induction false} MappedOneBank(pixels: seq<Pixel>, bank: U16)
    requires forall q :: q in pixels ==> q.bank == bank
    ensures Mapped(pixels) == if bank == UNMAPPED_BANK then [] else pixels
  {
    if pixels != [] {
      assert pixels == pixels[..|pixels| - 1] + [pixels[|pixels| - 1]];
      MappedOneBank(pixels[..|pixels| - 1], bank);
    }
  }

  /** The client's view is the mapped part of what is on the wire. */
  lemma {:induction false} ClientReadsMapped(w: seq<U32>)
    ensures ReadByClient(w) == Mapped(OnTheWire(w))
    decreases |w|
  {
    if HasFront(w) {
      var bank, count := BankOf(w[1]), CountOf(w[1]);
      ClientReadsMapped(w[FrontSize(w)..]);
      MappedConcat(FrontPixels(w), OnTheWire(w[FrontSize(w)..]));
      if IsShorthand(w[1]) {
        WalkKeepsBank(w[0], Signed16(w[4] / 0x1_0000), w[2], w[3], Signed16(w[4] % 0x1_0000), w[5], bank, count);
      } else {
        DirectKeepsBank(w[0], w[2..2 + count], bank);
      }
      MappedOneBank(FrontPixels(w), bank);
    }
  }
}
