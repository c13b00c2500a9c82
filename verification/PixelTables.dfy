/** The two lookup tables built from the map for the data path. */
module PixelTables {
  import opened Words
  import opened PixelTypes

  const NO_LOGICAL: U32 := 0xffff_ffff

  /** `physical | 0x80000000`. */
  function WithErrorBit(physical: U32): (r: U32)
    ensures 0x8000_0000 <= r && r % 0x8000_0000 == physical % 0x8000_0000
  {
    if physical < ERROR_BIT then physical + ERROR_BIT else physical
  }

  /** What the map says of a physical id: the entry written last for it, if any. */
  function EntryOf(pixels: seq<Pixel>, physical: U32): (U32, U16) {
    if pixels == [] then (WithErrorBit(physical), UNMAPPED_BANK)
    else
      var last := pixels[|pixels| - 1];
      if last.physical == physical then (last.logical, last.bank)
      else EntryOf(pixels[..|pixels| - 1], physical)
  }

  /** And of a logical id. */
  function BankOf(pixels: seq<Pixel>, logical: U32): U16 {
    if pixels == [] then UNMAPPED_BANK
    else
      var last := pixels[|pixels| - 1];
      if last.logical == logical then last.bank else BankOf(pixels[..|pixels| - 1], logical)
  }

  lemma {:induction false} EntryOfMapped(pixels: seq<Pixel>, i: nat)
    requires InMapOrder(pixels) && i < |pixels|
    ensures EntryOf(pixels, pixels[i].physical) == (pixels[i].logical, pixels[i].bank)
  {
    if i < |pixels| - 1 {
      var init := pixels[..|pixels| - 1];
      assert init[i] == pixels[i];
      EntryOfMapped(init, i);
    }
  }

  lemma {:induction false} EntryOfUnmapped(pixels: seq<Pixel>, physical: U32)
    requires forall p :: p in pixels ==> p.physical != physical
    ensures EntryOf(pixels, physical) == (WithErrorBit(physical), UNMAPPED_BANK)
  {
    if pixels != [] {
      EntryOfUnmapped(pixels[..|pixels| - 1], physical);
    }
  }

  lemma {:induction false} BankOfMapped(pixels: seq<Pixel>, i: nat)
    requires DistinctLogicals(pixels) && i < |pixels|
    ensures BankOf(pixels, pixels[i].logical) == pixels[i].bank
  {
    if i < |pixels| - 1 {
      var init := pixels[..|pixels| - 1];
      assert init[i] == pixels[i];
      BankOfMapped(init, i);
    }
  }

  lemma {:induction false} BankOfUnmapped(pixels: seq<Pixel>, logical: U32)
    requires forall p :: p in pixels ==> p.logical != logical
    ensures BankOf(pixels, logical) == UNMAPPED_BANK
  {
    if pixels != [] {
      BankOfUnmapped(pixels[..|pixels| - 1], logical);
    }
  }

  class LookupTables {
    var table: seq<(U32, U16)>
    var banks: seq<U16>
    var numBanks: nat
    const pixels: seq<Pixel>

    ghost predicate Valid()
      reads this
    {
      && InMapOrder(pixels)
      && |table| <= ERROR_BIT && |banks| <= NO_LOGICAL
      && (forall x: U32 :: x < |table| ==> table[x] == EntryOf(pixels, x))
      && (forall x: U32 :: x < |banks| ==> banks[x] == BankOf(pixels, x))
      && (forall p :: p in pixels ==> p.physical < |table|)
      && (forall p :: p in pixels && p.logical != NO_LOGICAL ==> p.logical < |banks|)
    }

    constructor (pixels: seq<Pixel>)
      requires pixels != [] && InMapOrder(pixels)
      ensures Valid() && this.pixels == pixels
      ensures numBanks >= 1
      ensures forall p :: p in pixels && p.bank != UNMAPPED_BANK ==> p.bank < numBanks
      ensures numBanks > 1 ==> exists p :: p in pixels && p.bank != UNMAPPED_BANK && p.bank + 1 == numBanks
    {
      this.pixels := pixels;
      var maxPhysical: U32, maxLogical: U32, maxBank: U16 := 0, 0, 0;
      for k := 0 to |pixels|
        invariant maxPhysical < ERROR_BIT && maxLogical < NO_LOGICAL && maxBank != UNMAPPED_BANK
        invariant forall p :: p in pixels[..k] ==> p.physical <= maxPhysical
        invariant forall p :: p in pixels[..k] && p.logical != NO_LOGICAL ==> p.logical <= maxLogical
        invariant forall p :: p in pixels[..k] && p.bank != UNMAPPED_BANK ==> p.bank <= maxBank
        invariant maxBank > 0 ==> exists p :: p in pixels[..k] && p.bank == maxBank
      {
        var p := pixels[k];
        assert pixels[..k + 1] == pixels[..k] + [p];
        if p.physical > maxPhysical {
          maxPhysical := p.physical;
        }
        if p.logical != NO_LOGICAL && p.logical > maxLogical {
          maxLogical := p.logical;
        }
        if p.bank != UNMAPPED_BANK && p.bank > maxBank {
          maxBank := p.bank;
          assert p in pixels[..k + 1];
        }
      }
      assert pixels[..|pixels|] == pixels;
      var t := FillTable(pixels, maxPhysical);
      var b := FillBanks(pixels, maxLogical);
      table, banks, numBanks := t, b, maxBank + 1;
    }

    function MapEvent(physical: U32): (r: (U32, U16, bool))
      requires Valid()
      reads this
      ensures (r.0, r.1) == EntryOf(pixels, physical) && r.2 == (r.1 == UNMAPPED_BANK)
    {
      if physical < |table| then
        var entry := table[physical];
        (entry.0, entry.1, entry.1 == UNMAPPED_BANK)
      else
        EntryOfUnmapped(pixels, physical);
        (WithErrorBit(physical), UNMAPPED_BANK, true)
    }

    function MapEventBank(logical: U32): (r: (U16, bool))
      requires Valid()
      reads this
      ensures logical != NO_LOGICAL ==> r.0 == BankOf(pixels, logical)
      ensures logical == NO_LOGICAL ==> r.0 == UNMAPPED_BANK
      ensures r.1 == (r.0 == UNMAPPED_BANK)
    {
      if logical < |banks| then (banks[logical], banks[logical] == UNMAPPED_BANK)
      else
        assert logical != NO_LOGICAL ==> BankOf(pixels, logical) == UNMAPPED_BANK by {
          if logical != NO_LOGICAL {
            BankOfUnmapped(pixels, logical);
          }
        }
        (UNMAPPED_BANK, true)
    }
  }

  /** The tables against the sparse map, on every 32-bit id. Looking up the bank of a
      mapped event by its logical id agrees with the map except for the one id that the
      constructor sets aside as "no logical id". */
  lemma TablesAgreeWithMap(t: LookupTables, i: nat)
    requires t.Valid() && i < |t.pixels|
    ensures t.MapEvent(t.pixels[i].physical) ==
            (t.pixels[i].logical, t.pixels[i].bank, t.pixels[i].bank == UNMAPPED_BANK)
    ensures DistinctLogicals(t.pixels) ==>
      (t.MapEventBank(t.MapEvent(t.pixels[i].physical).0).0 == t.pixels[i].bank
       <==> t.pixels[i].logical != NO_LOGICAL || t.pixels[i].bank == UNMAPPED_BANK)
  {
    EntryOfMapped(t.pixels, i);
    if DistinctLogicals(t.pixels) {
      BankOfMapped(t.pixels, i);
    }
  }

  lemma TablesElsewhere(t: LookupTables, id: U32)
    requires t.Valid()
    ensures (forall p :: p in t.pixels ==> p.physical != id) ==>
              t.MapEvent(id) == (WithErrorBit(id), UNMAPPED_BANK, true)
    ensures (forall p :: p in t.pixels ==> p.logical != id) ==>
              t.MapEventBank(id) == (UNMAPPED_BANK, true)
  {
    if forall p :: p in t.pixels ==> p.physical != id {
      EntryOfUnmapped(t.pixels, id);
    }
    if forall p :: p in t.pixels ==> p.logical != id {
      BankOfUnmapped(t.pixels, id);
    }
  }

  /** A pixel mapped to that id: its events get the pixel's bank, but a lookup of the
      bank by the logical id they carry says that it is unmapped. */
  method ReservedLogicalId() returns (t: LookupTables)
    ensures t.Valid() && t.pixels == [Pixel(5, NO_LOGICAL, 3)]
    ensures t.MapEvent(5) == (NO_LOGICAL, 3, false) && t.MapEventBank(NO_LOGICAL) == (UNMAPPED_BANK, true)
  {
    t := new LookupTables([Pixel(5, NO_LOGICAL, 3)]);
    EntryOfMapped(t.pixels, 0);
  }

  method FillTable(pixels: seq<Pixel>, maxPhysical: U32) returns (table: seq<(U32, U16)>)
    requires maxPhysical < ERROR_BIT && forall p :: p in pixels ==> p.physical <= maxPhysical
    ensures |table| == maxPhysical + 1
    ensures forall x: U32 :: x < |table| ==> table[x] == EntryOf(pixels, x)
  {
    table := [];
    for i := 0 to maxPhysical + 1
      invariant |table| == i
      invariant forall x: U32 :: x < |table| ==> table[x] == (WithErrorBit(x), UNMAPPED_BANK)
    {
      table := table + [(WithErrorBit(i), UNMAPPED_BANK)];
    }
    for k := 0 to |pixels|
      invariant |table| == maxPhysical + 1
      invariant forall x: U32 :: x < |table| ==> table[x] == EntryOf(pixels[..k], x)
    {
      assert pixels[..k + 1][..k] == pixels[..k];
      assert pixels[k] in pixels;
      table := table[pixels[k].physical := (pixels[k].logical, pixels[k].bank)];
    }
    assert pixels[..|pixels|] == pixels;
  }

  method FillBanks(pixels: seq<Pixel>, maxLogical: U32) returns (banks: seq<U16>)
    requires maxLogical < NO_LOGICAL
    requires forall p :: p in pixels && p.logical != NO_LOGICAL ==> p.logical <= maxLogical
    ensures |banks| == maxLogical + 1
    ensures forall x: U32 :: x < |banks| ==> banks[x] == BankOf(pixels, x)
  {
    banks := [];
    for i := 0 to maxLogical + 1
      invariant |banks| == i
      invariant forall x: U32 :: x < |banks| ==> banks[x] == UNMAPPED_BANK
    {
      banks := banks + [UNMAPPED_BANK];
    }
    for k := 0 to |pixels|
      invariant |banks| == maxLogical + 1
      invariant forall x: U32 :: x < |banks| ==> banks[x] == BankOf(pixels[..k], x)
    {
      assert pixels[..k + 1][..k] == pixels[..k];
      assert pixels[k] in pixels;
      if pixels[k].logical != NO_LOGICAL {
        banks := banks[pixels[k].logical := pixels[k].bank];
      }
    }
    assert pixels[..|pixels|] == pixels;
  }
}
