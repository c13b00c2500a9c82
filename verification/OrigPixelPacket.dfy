/** The original pixel mapping packet: the map inverted to logical order, cut into
    sections of consecutive logical ids in one bank, each listing physical ids. */
module OrigPixelPacket {
  import opened Words
  import opened PixelTypes

  const MAX_SECTION := 0xffff

  predicate LogicalOrder(inv: seq<Pixel>) {
    forall i, j :: 0 <= i < j < |inv| ==> inv[i].logical < inv[j].logical
  }

  /** Where `logical` belongs in a map ordered by logical id. */
  function Position(inv: seq<Pixel>, logical: U32): (k: nat)
    requires LogicalOrder(inv)
    ensures k <= |inv|
    ensures forall i :: 0 <= i < k ==> inv[i].logical < logical
    ensures k < |inv| ==> logical <= inv[k].logical
    decreases |inv|
  {
    if inv == [] || inv[|inv| - 1].logical < logical then |inv|
    else Position(inv[..|inv| - 1], logical)
  }

  /** `std::map::insert`: an id already present keeps its entry. */
  function Insert(inv: seq<Pixel>, p: Pixel): (r: seq<Pixel>)
    requires LogicalOrder(inv)
    ensures LogicalOrder(r)
    ensures forall q :: q in r ==> q in inv || q == p
    ensures (forall q :: q in inv ==> q.logical != p.logical) ==> multiset(r) == multiset(inv) + multiset{p}
    ensures |r| > 0
  {
    var k := Position(inv, p.logical);
    assert inv == inv[..k] + inv[k..];
    if k < |inv| && inv[k].logical == p.logical then
      assert inv[k] in inv;
      inv
    else inv[..k] + [p] + inv[k..]
  }

  /** The inverted map, in its iteration order. */
  function Invert(pixels: seq<Pixel>): (r: seq<Pixel>)
    ensures LogicalOrder(r)
  {
    if pixels == [] then [] else Insert(Invert(pixels[..|pixels| - 1]), pixels[|pixels| - 1])
  }

  /** Inverting a one-to-one map only reorders it. */
  lemma {:induction false} InvertPermutes(pixels: seq<Pixel>)
    ensures forall q :: q in Invert(pixels) ==> q in pixels
    ensures DistinctLogicals(pixels) ==> multiset(Invert(pixels)) == multiset(pixels)
    ensures pixels != [] ==> Invert(pixels) != []
  {
    if pixels != [] {
      var init, last := pixels[..|pixels| - 1], pixels[|pixels| - 1];
      assert pixels == init + [last];
      InvertPermutes(init);
      hide Insert, Position, LogicalOrder, Invert;
      if DistinctLogicals(pixels) {
        forall q | q in Invert(init)
          ensures q.logical != last.logical
        {
          var i :| 0 <= i < |init| && init[i] == q;
          assert pixels[i] == q;
        }
        assert DistinctLogicals(init);
      }
    }
  }

  /** `n` entries from `from` that one section can describe. */
  predicate OneSection(inv: seq<Pixel>, from: nat, n: nat) {
    && from + n <= |inv| && 1 <= n <= MAX_SECTION
    && forall k :: from <= k < from + n ==>
         inv[k].bank == inv[from].bank && inv[k].logical == inv[from].logical + (k - from)
  }

  function Sum(counts: seq<nat>): nat {
    if counts == [] then 0 else counts[0] + Sum(counts[1..])
  }

  predicate Cuts(inv: seq<Pixel>, from: nat, counts: seq<nat>)
    decreases |counts|
  {
    counts == [] || (OneSection(inv, from, counts[0]) && Cuts(inv, from + counts[0], counts[1..]))
  }

  lemma {:induction false} CutsAppend(inv: seq<Pixel>, from: nat, counts: seq<nat>, n: nat)
    requires Cuts(inv, from, counts) && OneSection(inv, from + Sum(counts), n)
    ensures Cuts(inv, from, counts + [n]) && Sum(counts + [n]) == Sum(counts) + n
    decreases |counts|
  {
    if counts == [] {
      assert counts + [n] == [n] && [n][1..] == [];
    } else {
      hide OneSection;
      assert (counts + [n])[1..] == counts[1..] + [n];
      CutsAppend(inv, from + counts[0], counts[1..], n);
    }
  }

  lemma CutsNothing(inv: seq<Pixel>, from: nat)
    ensures Cuts(inv, from, []) && Sum([]) == 0
  {}

  /** What a reader makes of the words: section by section, consecutive logical ids. */
  function Expand(logical: U32, bank: U16, physicals: seq<U32>): seq<Pixel>
    decreases |physicals|
  {
    if physicals == [] then []
    else [Pixel(physicals[0], logical, bank)] + Expand(Wrap32(logical + 1), bank, physicals[1..])
  }

  function Read(w: seq<U32>): seq<Pixel>
    decreases |w|
  {
    if |w| < 2 || |w| < 2 + w[1] % 0x1_0000 then []
    else
      var n := 2 + w[1] % 0x1_0000;
      Expand(w[0], w[1] / 0x1_0000, w[2..n]) + Read(w[n..])
  }

  /** What the client makes of them: it skips the sections of the unmapped bank. */
  function ReadByClient(w: seq<U32>): seq<Pixel>
    decreases |w|
  {
    if |w| < 2 || |w| < 2 + w[1] % 0x1_0000 then []
    else
      var n, bank := 2 + w[1] % 0x1_0000, w[1] / 0x1_0000;
      (if bank == UNMAPPED_BANK then [] else Expand(w[0], bank, w[2..n])) + ReadByClient(w[n..])
  }

  lemma {:induction false} MappedRun(logical: U32, bank: U16, physicals: seq<U32>)
    ensures Mapped(Expand(logical, bank, physicals))
            == if bank == UNMAPPED_BANK then [] else Expand(logical, bank, physicals)
    decreases |physicals|
  {
    if physicals != [] {
      var rest := Expand(Wrap32(logical + 1), bank, physicals[1..]);
      MappedRun(Wrap32(logical + 1), bank, physicals[1..]);
      MappedConcat([Pixel(physicals[0], logical, bank)], rest);
      MappedAppend([], Pixel(physicals[0], logical, bank));
      assert [] + [Pixel(physicals[0], logical, bank)] == [Pixel(physicals[0], logical, bank)];
    }
  }

  /** The client gets the mapped part of what was sent. */
  lemma {:induction false} ClientReadsMapped(w: seq<U32>)
    ensures ReadByClient(w) == Mapped(Read(w))
    decreases |w|
  {
    hide Expand;
    if !(|w| < 2 || |w| < 2 + w[1] % 0x1_0000) {
      var n, bank := 2 + w[1] % 0x1_0000, w[1] / 0x1_0000;
      ClientReadsMapped(w[n..]);
      MappedConcat(Expand(w[0], bank, w[2..n]), Read(w[n..]));
      MappedRun(w[0], bank, w[2..n]);
    }
  }

  lemma {:induction false} MappedCounts(pixels: seq<Pixel>, p: Pixel)
    ensures multiset(Mapped(pixels))[p] == if p.bank == UNMAPPED_BANK then 0 else multiset(pixels)[p]
  {
    if pixels != [] {
      var init, last := pixels[..|pixels| - 1], pixels[|pixels| - 1];
      assert pixels == init + [last];
      MappedCounts(init, p);
    }
  }

  lemma MappedPermutes(a: seq<Pixel>, b: seq<Pixel>)
    requires multiset(a) == multiset(b)
    ensures multiset(Mapped(a)) == multiset(Mapped(b))
  {
    forall p ensures multiset(Mapped(a))[p] == multiset(Mapped(b))[p] {
      MappedCounts(a, p);
      MappedCounts(b, p);
    }
  }

  function Physicals(inv: seq<Pixel>): seq<U32> {
    seq(|inv|, i requires 0 <= i < |inv| => inv[i].physical)
  }

  /** The words of one section. */
  function Section(inv: seq<Pixel>, from: nat, n: nat): (w: seq<U32>)
    requires OneSection(inv, from, n)
    ensures |w| == 2 + n
  {
    [inv[from].logical, inv[from].bank * 0x1_0000 + n] + Physicals(inv[from..from + n])
  }

  function AllSections(inv: seq<Pixel>, from: nat, counts: seq<nat>): seq<U32>
    requires Cuts(inv, from, counts)
    decreases |counts|
  {
    if counts == [] then []
    else Section(inv, from, counts[0]) + AllSections(inv, from + counts[0], counts[1..])
  }

  lemma {:induction false} ExpandSection(inv: seq<Pixel>, from: nat, n: nat)
    requires from + n <= |inv| && n > 0
    requires forall k :: from <= k < from + n ==>
               inv[k].bank == inv[from].bank && inv[k].logical == inv[from].logical + (k - from)
    ensures Expand(inv[from].logical, inv[from].bank, Physicals(inv[from..from + n])) == inv[from..from + n]
    decreases n
  {
    var ps := Physicals(inv[from..from + n]);
    assert inv[from..from + n] == [inv[from]] + inv[from + 1..from + n];
    assert ps[1..] == Physicals(inv[from + 1..from + n]);
    if n > 1 {
      assert inv[from + 1].logical == inv[from].logical + 1 == Wrap32(inv[from].logical + 1);
      ExpandSection(inv, from + 1, n - 1);
    }
  }

  lemma ReadSection(inv: seq<Pixel>, from: nat, n: nat, rest: seq<U32>)
    requires OneSection(inv, from, n)
    ensures Read(Section(inv, from, n) + rest) == inv[from..from + n] + Read(rest)
  {
    var bank: int := inv[from].bank;
    var w := Section(inv, from, n) + rest;
    assert w[1] == bank * 0x1_0000 + n;
    assert w[1] % 0x1_0000 == n && w[1] / 0x1_0000 == bank;
    assert w[2..2 + n] == Physicals(inv[from..from + n]) && w[2 + n..] == rest;
    ExpandSection(inv, from, n);
  }

  lemma {:induction false} ReadSections(inv: seq<Pixel>, from: nat, counts: seq<nat>)
    requires Cuts(inv, from, counts) && from + Sum(counts) == |inv|
    ensures Read(AllSections(inv, from, counts)) == inv[from..]
    ensures |AllSections(inv, from, counts)| == 2 * |counts| + Sum(counts)
    decreases |counts|
  {
    hide OneSection, Read, Section, Expand;
    if counts == [] {
      ReadNothing();
    } else {
      var n, rest := counts[0], counts[1..];
      SectionFits(inv, from, n);
      ReadSection(inv, from, n, AllSections(inv, from + n, rest));
      ReadSections(inv, from + n, rest);
      assert inv[from..] == inv[from..from + n] + inv[from + n..];
    }
  }

  lemma SectionFits(inv: seq<Pixel>, from: nat, n: nat)
    requires OneSection(inv, from, n)
    ensures from + n <= |inv|
  {
  }

  /** First pass: the section counts, and from them the length of the payload, before a
      word of it is written. */
  method CountSections(inv: seq<Pixel>) returns (counts: seq<nat>, payload: nat)
    requires inv != [] && LogicalOrder(inv)
    ensures Cuts(inv, 0, counts) && Sum(counts) == |inv|
    ensures payload == 4 * |AllSections(inv, 0, counts)|
  {
    hide Cuts, Sum, AllSections;
    CutsNothing(inv, 0);
    counts := [];
    var expected := Wrap32(inv[0].logical + 1);
    var entries: nat, bank := 1, inv[0].bank;
    ghost var first := 0;
    for i := 1 to |inv|
      invariant entries == i - first && first < i && bank == inv[first].bank
      invariant Cuts(inv, 0, counts) && Sum(counts) == first
      invariant OneSection(inv, first, entries)
      invariant expected == Wrap32(inv[i - 1].logical + 1)
    {
      if inv[i].logical != expected || inv[i].bank != bank || entries >= MAX_SECTION {
        CutsAppend(inv, 0, counts, entries);
        counts := counts + [entries];
        entries := 0;
        bank := inv[i].bank;
        first := i;
      }
      entries := entries + 1;
      expected := Wrap32(inv[i].logical + 1);
    }
    CutsAppend(inv, 0, counts, entries);
    counts := counts + [entries];
    payload := |counts| * 8;
    payload := payload + |inv| * 4;
    ReadSections(inv, 0, counts);
  }

  /** The section header and then its physical ids, one word at a time: words that read
      as exactly that run of the map. */
  method AppendSection(words: seq<U32>, inv: seq<Pixel>, next: nat, entries: nat) returns (r: seq<U32>)
    requires OneSection(inv, next, entries)
    ensures r == words + Section(inv, next, entries)
    ensures Read(r[|words|..]) == inv[next..next + entries]
  {
    hide Read, Expand;
    r := words + [inv[next].logical, inv[next].bank * 0x1_0000 + entries];
    ghost var start := r;
    for i := 0 to entries
      invariant r == start + Physicals(inv[next..next + i])
    {
      assert Physicals(inv[next..next + i + 1]) == Physicals(inv[next..next + i]) + [inv[next + i].physical];
      r := r + [inv[next + i].physical];
    }
    assert r[|words|..] == Section(inv, next, entries);
    ReadSection(inv, next, entries, []);
    assert Section(inv, next, entries) + [] == Section(inv, next, entries);
    ReadNothing();
  }

  lemma ReadNothing()
    ensures Read([]) == []
  {
  }

  /** Second pass: section by section. */
  method WriteSections(inv: seq<Pixel>, sections: seq<nat>) returns (words: seq<U32>)
    requires Cuts(inv, 0, sections) && Sum(sections) == |inv|
    ensures words == AllSections(inv, 0, sections)
  {
    hide Read, OneSection, Section;
    words := [];
    var next: nat := 0;
    for j := 0 to |sections|
      invariant Cuts(inv, next, sections[j..]) && next + Sum(sections[j..]) == |inv|
      invariant words + AllSections(inv, next, sections[j..]) == AllSections(inv, 0, sections)
    {
      var entries := sections[j];
      assert sections[j..][1..] == sections[j + 1..];
      words := AppendSection(words, inv, next, entries);
      next := next + entries;
    }
    assert words + [] == words;
  }

  /** Both passes over the inverted map. */
  method GenPacket(pixels: seq<Pixel>) returns (words: seq<U32>, payload: nat, sections: seq<nat>)
    requires pixels != [] && DistinctLogicals(pixels)
    ensures Read(words) == Invert(pixels)
    ensures multiset(Read(words)) == multiset(pixels)
    ensures ReadByClient(words) == Mapped(Invert(pixels))
    ensures multiset(ReadByClient(words)) == multiset(Mapped(pixels))
    ensures payload == 4 * |words|
    ensures Cuts(Invert(pixels), 0, sections) && Sum(sections) == |pixels|
  {
    var inv := Invert(pixels);
    InvertPermutes(pixels);
    MappedPermutes(inv, pixels);
    hide LogicalOrder, Read, ReadByClient, Mapped, Invert, Cuts, Sum, AllSections, DistinctLogicals;
    assert |inv| == |multiset(inv)| && |pixels| == |multiset(pixels)|;
    sections, payload := CountSections(inv);
    words := WriteSections(inv, sections);
    ReadSections(inv, 0, sections);
    assert inv[0..] == inv;
    ClientReadsMapped(words);
  }
}
