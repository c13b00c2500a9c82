/** The pixel map as the C++ `std::map` presents it to its readers. */
module PixelTypes {
  import opened Words

  /** One map entry: physical id -> (logical id, bank). */
  datatype Pixel = Pixel(physical: U32, logical: U32, bank: U16)

  const UNMAPPED_BANK: U16 := 0xffff
  const ERROR_BANK: U16 := 0xfffe
  const ERROR_BIT: U32 := 0x8000_0000

  /** Iteration order of the map, whose keys never carry the error bit. */
  predicate InMapOrder(pixels: seq<Pixel>) {
    && (forall i :: 0 <= i < |pixels| ==> pixels[i].physical < ERROR_BIT)
    && (forall i, j :: 0 <= i < j < |pixels| ==> pixels[i].physical < pixels[j].physical)
  }

  predicate DistinctLogicals(pixels: seq<Pixel>) {
    forall i, j :: 0 <= i < j < |pixels| ==> pixels[i].logical != pixels[j].logical
  }

  /** The entries that belong to a detector bank, in order. */
  function Mapped(pixels: seq<Pixel>): seq<Pixel> {
    if pixels == [] then []
    else
      var init, last := pixels[..|pixels| - 1], pixels[|pixels| - 1];
      Mapped(init) + (if last.bank == UNMAPPED_BANK then [] else [last])
  }

  lemma MappedAppend(pixels: seq<Pixel>, p: Pixel)
    ensures Mapped(pixels + [p]) == Mapped(pixels) + (if p.bank == UNMAPPED_BANK then [] else [p])
  {
  }

  lemma {:induction false} MappedConcat(a: seq<Pixel>, b: seq<Pixel>)
    ensures Mapped(a + b) == Mapped(a) + Mapped(b)
    decreases |b|
  {
    if b == [] {
      assert a + b == a;
    } else {
      var init, last := b[..|b| - 1], b[|b| - 1];
      assert a + b == (a + init) + [last];
      MappedAppend(a + init, last);
      MappedConcat(a, init);
    }
  }
}
