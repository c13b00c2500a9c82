/** Reading the map file, from the parsed fields of its lines: the shorthand expander
    over wrapping 32-bit ids and the checks made on every pixel. */
module PixelMapFile {
  import opened Words
  import opened PixelTypes

  type PixelTable = map<U32, (U32, U16)>

  /** A plain id, or `start:stop:step` with a signed step. */
  datatype IdSpec = Single(id: U32) | Shorthand(start: U32, stop: U32, step: int)
  {
    function First(): U32 { if Single? then id else start }
    function By(): int { if Single? then 1 else step }
    /** One step past the last id, where the loop stops. */
    function End(): U32 { if Single? then Wrap32(id + 1) else Wrap32(stop + step) }
    function At(k: nat): U32 { Wrap32(First() + k * By()) }
  }

  datatype Line = Line(physical: IdSpec, logical: IdSpec, bank: U32)

  datatype ReadError = ErrorBitSet | DuplicatePhysical | DuplicateLogical | ReservedBank | BankRange | Misaligned

  /** What a line does: all of its pixels are entered, or an exception is thrown. */
  datatype Verdict = Accepted | Rejected(error: ReadError)

  datatype ReadResult = Read(table: PixelTable) | Failed(error: ReadError) | Empty

  const GAP: U32 := 0xffff_ffff

  function NextLogical(line: Line, manyToOne: bool, logical: U32, nextPhysical: U32): U32 {
    var next := Wrap32(logical + line.logical.By());
    if manyToOne && next == line.logical.End() && nextPhysical != line.physical.End()
    then line.logical.First() else next
  }

  /** The logical id paired with physical id number `k`: in a many-to-one map the
      logical sequence starts over when it is used up before the physical one. */
  function LogicalAt(line: Line, manyToOne: bool, k: nat): U32 {
    if k == 0 then line.logical.First()
    else NextLogical(line, manyToOne, LogicalAt(line, manyToOne, k - 1), line.physical.At(k))
  }

  /** Without restarts it is the closed form. */
  lemma {:induction false} LogicalOneToOne(line: Line, k: nat)
    ensures LogicalAt(line, false, k) == line.logical.At(k)
  {
    if k > 0 {
      LogicalOneToOne(line, k - 1);
      NextId(line.logical, k - 1);
    }
  }

  /** The sequence of ids reaches its end after `n` of them, and not before. */
  ghost predicate EndsAfter(spec: IdSpec, n: nat) {
    spec.At(n) == spec.End() && forall k: nat :: k < n ==> spec.At(k) != spec.End()
  }

  lemma PlainId(id: U32)
    ensures EndsAfter(Single(id), 1) && Single(id).At(0) == id
  {
  }

  lemma StepsBetween(step: int, k: nat, n: nat)
    requires k <= n
    ensures 0 <= k * step <= n * step || n * step <= k * step <= 0
    ensures (n - k) * step == n * step - k * step
  {
    if step >= 0 {
      assert 0 <= (n - k) * step;
    } else {
      assert (n - k) * step <= 0 && k * step <= 0;
    }
  }

  lemma SameWord(x: int, y: int)
    requires 0 <= x < TWO32
    ensures Wrap32(x) == x
    ensures -TWO32 < y < TWO32 && y != 0 ==> Wrap32(x) != Wrap32(x + y)
  {
  }

  /** What `start:stop:step` describes when the steps from start to stop are whole: those
      ids in turn, except that steps once around all 2^32 ids describe none at all. */
  lemma ShorthandIds(start: U32, step: int, n: nat)
    requires n > 0 && step != 0 && -0x8000_0000 <= step < 0x8000_0000 && 0 <= start + (n - 1) * step < TWO32
    ensures var spec := Shorthand(start, start + (n - 1) * step, step);
            && (forall k: nat :: k < n ==> spec.At(k) == start + k * step)
            && (EndsAfter(spec, n) <==> n * step != TWO32 && n * step != -TWO32)
  {
    hide Wrap32;
    var spec := Shorthand(start, start + (n - 1) * step, step);
    assert n * step == (n - 1) * step + step;
    assert spec.At(n) == spec.End() == Wrap32(start + n * step);
    forall k: nat | k < n
      ensures spec.At(k) == start + k * step
      ensures k > 0 ==> spec.At(k) != spec.End()
    {
      StepsBetween(step, k, n - 1);
      SameWord(start + k * step, 0);
      StepsBetween(step, 1, n);
      StepsBetween(step, k, n);
      if k > 0 {
        StepsBetween(step, n - k, n - 1);
        assert (n - k) * step != 0;
        SameWord(start + k * step, (n - k) * step);
      }
    }
    assert spec.At(0) == start;
    WholeTurn(start, n * step);
  }

  lemma WholeTurn(start: U32, turn: int)
    requires -TWO32 - 0x8000_0000 <= turn < TWO32 + 0x8000_0000 && turn != 0
    ensures Wrap32(start + turn) == start <==> turn == TWO32 || turn == -TWO32
  {
  }

  /** In a many-to-one map the logical ids start over each time they are used up. */
  lemma {:induction false} LogicalStartsOver(line: Line, m: nat, k: nat)
    requires EndsAfter(line.logical, m) && m > 0
    requires forall j: nat :: j <= k ==> line.physical.At(j) != line.physical.End()
    ensures LogicalAt(line, true, k) == line.logical.At(k % m)
  {
    hide IdSpec.First, IdSpec.By, IdSpec.At, IdSpec.End, Wrap32;
    FirstIsAt(line.logical);
    if k == 0 {
      ModIs(0, m, 0, 0);
    } else {
      LogicalStartsOver(line, m, k - 1);
      var r := (k - 1) % m;
      NextId(line.logical, r);
      NextPlace(k - 1, m);
      assert r + 1 != m ==> line.logical.At(r + 1) != line.logical.End();
    }
  }

  /** Another quotient is a whole divisor away. */
  lemma QuotientsApart(m: nat, q: nat, more: nat)
    requires more >= 1
    ensures m * (q + more) >= m * q + m
  {
    assert m * (q + more) == m * q + m * more;
    assert m * more == m + m * (more - 1);
  }

  lemma SameRest(m: nat, q: nat, r: nat, q': nat, r': nat)
    requires r < m && r' < m && m * q + r == m * q' + r'
    ensures r == r'
  {
    if q < q' {
      QuotientsApart(m, q, q' - q);
    } else if q' < q {
      QuotientsApart(m, q', q - q');
    }
  }

  lemma ModIs(x: nat, m: nat, q: nat, r: nat)
    requires r < m && x == m * q + r
    ensures x % m == r
  {
    SameRest(m, x / m, x % m, q, r);
  }

  lemma NextPlace(k: nat, m: nat)
    requires m > 0
    ensures (k + 1) % m == if k % m + 1 == m then 0 else k % m + 1
  {
    var q, r := k / m, k % m;
    assert k == m * q + r;
    if r + 1 == m {
      assert m * (q + 1) == m * q + m;
      ModIs(k + 1, m, q + 1, 0);
    } else {
      ModIs(k + 1, m, q, r + 1);
    }
  }

  /** A line of a many-to-one map is whole exactly when the logical ids go into the
      physical ones; then each is used as often. */
  lemma ManyToOneLine(line: Line, m: nat, n: nat)
    requires EndsAfter(line.logical, m) && EndsAfter(line.physical, n)
    ensures m > 0 ==> forall k: nat :: k < n ==> LogicalAt(line, true, k) == line.logical.At(k % m)
    ensures WholeLine(line, true, n) <==> if m == 0 then n == 0 else n > 0 && n % m == 0
  {
    hide IdSpec.First, IdSpec.By, IdSpec.At, IdSpec.End, Wrap32, LogicalAt;
    FirstLogical(line);
    if m == 0 {
      if n > 0 {
        assert LogicalAt(line, true, 0) == line.logical.End();
        assert !GoesOn(line, true, n);
      }
    } else {
      forall k: nat | k < n
        ensures LogicalAt(line, true, k) == line.logical.At(k % m) && k % m < m
      {
        LogicalStartsOver(line, m, k);
      }
      if n > 0 {
        LastLogical(line, m, n);
      }
    }
  }

  /** A line of any other map is whole exactly when both sequences are equally long. */
  lemma OneToOneLine(line: Line, m: nat, n: nat)
    requires EndsAfter(line.logical, m) && EndsAfter(line.physical, n)
    ensures WholeLine(line, false, n) <==> m == n
  {
    hide IdSpec.First, IdSpec.By, IdSpec.At, IdSpec.End, LogicalAt;
    LogicalOneToOne(line, m);
    LogicalOneToOne(line, n);
    forall k: nat ensures LogicalAt(line, false, k) == line.logical.At(k) {
      LogicalOneToOne(line, k);
    }
  }

  lemma FirstLogical(line: Line)
    ensures LogicalAt(line, true, 0) == line.logical.At(0)
  {
  }

  /** Where the physical ids end the logical ones do not start over. */
  lemma LastLogical(line: Line, m: nat, n: nat)
    requires EndsAfter(line.logical, m) && m > 0 && EndsAfter(line.physical, n) && n > 0
    ensures LogicalAt(line, true, n) == line.logical.End() <==> n % m == 0
  {
    hide IdSpec.First, IdSpec.By, IdSpec.At, IdSpec.End, Wrap32;
    LogicalStartsOver(line, m, n - 1);
    var r := (n - 1) % m;
    NextId(line.logical, r);
    NextPlace(n - 1, m);
    assert r + 1 != m ==> line.logical.At(r + 1) != line.logical.End();
  }

  lemma FirstIsAt(spec: IdSpec)
    ensures spec.At(0) == spec.First()
  {
  }

  lemma NextId(spec: IdSpec, k: nat)
    ensures spec.At(k + 1) == Wrap32(spec.At(k) + spec.By())
  {
    var id, step := spec.First() + k * spec.By(), spec.By();
    assert spec.First() + (k + 1) * spec.By() == id + step;
    hide IdSpec.First, IdSpec.By;
    WrapAgain(id, step);
  }

  lemma WrapAgain(x: int, y: int)
    ensures Wrap32(Wrap32(x) + y) == Wrap32(x + y)
  {
  }

  /** The bank stored for a line: -1 marks a gap. */
  function StoredBank(bank: U32): U16 {
    if bank == GAP then UNMAPPED_BANK else bank % 0x1_0000
  }

  /** The table after `n` pixels of a line. */
  function Added(table: PixelTable, line: Line, manyToOne: bool, bank: U16, n: nat): PixelTable {
    if n == 0 then table
    else Added(table, line, manyToOne, bank, n - 1)
           [line.physical.At(n - 1) := (LogicalAt(line, manyToOne, n - 1), bank)]
  }

  /** Neither sequence has ended before pixel `n`. */
  predicate GoesOn(line: Line, manyToOne: bool, n: nat) {
    forall k: nat :: k < n ==>
      (line.physical.At(k) != line.physical.End() && LogicalAt(line, manyToOne, k) != line.logical.End())
  }

  /** What a finished table promises to its users. */
  ghost predicate Sound(table: PixelTable, manyToOne: bool) {
    && (forall p :: p in table ==> p < ERROR_BIT && table[p].1 != ERROR_BANK)
    && (!manyToOne ==> forall p, q :: p in table && q in table && p != q ==> table[p].0 != table[q].0)
  }

  /** `output_pixels` holds exactly the logical ids of the table. */
  ghost predicate LogicalsOf(table: PixelTable, used: set<U32>) {
    && (forall p :: p in table ==> table[p].0 in used)
    && (forall l :: l in used ==> exists p :: p in table && table[p].0 == l)
  }

  lemma SoundInsert(table: PixelTable, used: set<U32>, manyToOne: bool, physical: U32, logical: U32, bank: U16)
    requires Sound(table, manyToOne) && LogicalsOf(table, used)
    requires physical < ERROR_BIT && physical !in table && bank != ERROR_BANK
    requires manyToOne || logical !in used
    ensures Sound(table[physical := (logical, bank)], manyToOne)
    ensures LogicalsOf(table[physical := (logical, bank)], used + {logical})
    ensures FreePhysicals(table[physical := (logical, bank)]) < FreePhysicals(table)
  {
    var table' := table[physical := (logical, bank)];
    forall l | l in used + {logical}
      ensures exists p :: p in table' && table'[p].0 == l
    {
      if l == logical {
        assert table'[physical].0 == l;
      } else {
        var p :| p in table && table[p].0 == l;
        assert table'[p].0 == l;
      }
    }
    assert physical in FreePhysicals(table);
  }

  ghost function FreePhysicals(table: PixelTable): set<int> {
    set x: int | 0 <= x < ERROR_BIT && x !in table
  }

  /** The variable `bank` at pixel `n`: the first pixel of a gap line overwrites it. */
  function BankAt(line: Line, n: nat): U32 {
    if n > 0 && line.bank == GAP then UNMAPPED_BANK else line.bank
  }

  /** The checks made on one pixel, in order. */
  function Check(manyToOne: bool, table: PixelTable, used: set<U32>, physical: U32, logical: U32, bank: U32): Verdict {
    if physical >= ERROR_BIT then Rejected(ErrorBitSet)
    else if physical in table then Rejected(DuplicatePhysical)
    else if !manyToOne && logical in used then Rejected(DuplicateLogical)
    else if bank == UNMAPPED_BANK || bank == ERROR_BANK then Rejected(ReservedBank)
    else if bank != GAP && bank >= 0x1_0000 then Rejected(BankRange)
    else Accepted
  }

  /** A pixel passes when its physical id is new and below 2^31, its logical id new or
      allowed again, and its bank -1 or a 16-bit number below the two reserved ones. */
  lemma CheckPassed(manyToOne: bool, table: PixelTable, used: set<U32>, physical: U32, logical: U32, bank: U32)
    ensures Check(manyToOne, table, used, physical, logical, bank) == Accepted <==>
              && physical < 0x8000_0000 && physical !in table && (manyToOne || logical !in used)
              && (bank == 0xffff_ffff || bank < 0xfffe)
  {}

  /** The logical ids in use after `n` pixels of a line. */
  function Logicals(used: set<U32>, line: Line, manyToOne: bool, n: nat): set<U32> {
    if n == 0 then used else Logicals(used, line, manyToOne, n - 1) + {LogicalAt(line, manyToOne, n - 1)}
  }

  /** The checks on pixel `n` of a line, when the pixels before it have been entered. */
  function CheckAt(table: PixelTable, used: set<U32>, line: Line, manyToOne: bool, n: nat): Verdict {
    Check(manyToOne, Added(table, line, manyToOne, StoredBank(line.bank), n), Logicals(used, line, manyToOne, n),
          line.physical.At(n), LogicalAt(line, manyToOne, n), BankAt(line, n))
  }

  /** Each of the first `n` pixels passes its checks when its turn comes. */
  ghost predicate Passed(table: PixelTable, used: set<U32>, line: Line, manyToOne: bool, n: nat) {
    forall k: nat :: k < n ==> CheckAt(table, used, line, manyToOne, k) == Accepted
  }

  /** What becomes of a line once `n` of its pixels are in the table: it is accepted when
      both sequences end together; otherwise the exception is the one due at pixel `n`. */
  function VerdictAt(table: PixelTable, used: set<U32>, line: Line, manyToOne: bool, n: nat): Verdict {
    if line.physical.At(n) == line.physical.End() || LogicalAt(line, manyToOne, n) == line.logical.End() then
      if line.physical.At(n) == line.physical.End() && LogicalAt(line, manyToOne, n) == line.logical.End()
      then Accepted else Rejected(Misaligned)
    else CheckAt(table, used, line, manyToOne, n)
  }

  /** The pixels of a whole line: both sequences end after `n`, and not before. */
  ghost predicate WholeLine(line: Line, manyToOne: bool, n: nat) {
    && GoesOn(line, manyToOne, n)
    && line.physical.At(n) == line.physical.End() && LogicalAt(line, manyToOne, n) == line.logical.End()
  }

  /** A line that is accepted, as a property of the line and what was read before it. */
  ghost predicate Accepts(table: PixelTable, used: set<U32>, line: Line, manyToOne: bool) {
    exists n :: WholeLine(line, manyToOne, n) && Passed(table, used, line, manyToOne, n)
  }

  /** The table and the logical ids in use after the first `counts[i]` pixels of each line. */
  function Table(lines: seq<Line>, manyToOne: bool, counts: seq<nat>): PixelTable
    requires |counts| <= |lines|
  {
    if counts == [] then map[]
    else
      var i := |counts| - 1;
      Added(Table(lines, manyToOne, counts[..i]), lines[i], manyToOne, StoredBank(lines[i].bank), counts[i])
  }

  function Used(lines: seq<Line>, manyToOne: bool, counts: seq<nat>): set<U32>
    requires |counts| <= |lines|
  {
    if counts == [] then {}
    else
      var i := |counts| - 1;
      Logicals(Used(lines, manyToOne, counts[..i]), lines[i], manyToOne, counts[i])
  }

  function Total(counts: seq<nat>): nat {
    if counts == [] then 0 else Total(counts[..|counts| - 1]) + counts[|counts| - 1]
  }

  /** Line `i` reached pixel number `counts[i]`, and all its pixels before that passed. */
  ghost predicate LinePassed(lines: seq<Line>, manyToOne: bool, counts: seq<nat>, i: nat)
    requires i < |counts| <= |lines|
  {
    && GoesOn(lines[i], manyToOne, counts[i])
    && Passed(Table(lines, manyToOne, counts[..i]), Used(lines, manyToOne, counts[..i]), lines[i], manyToOne, counts[i])
  }

  ghost predicate LinesPassed(lines: seq<Line>, manyToOne: bool, counts: seq<nat>) {
    |counts| <= |lines| && forall i :: 0 <= i < |counts| ==> LinePassed(lines, manyToOne, counts, i)
  }

  /** Every pixel of the first `counts[i]` of each line has its own entry, and there are
      no others. */
  ghost predicate Complete(lines: seq<Line>, manyToOne: bool, counts: seq<nat>, table: PixelTable)
    requires |counts| <= |lines|
  {
    && |table| == Total(counts)
    && forall i, k: nat :: 0 <= i < |counts| && k < counts[i] ==> Entered(table, lines[i], manyToOne, k)
  }

  predicate Entered(table: PixelTable, line: Line, manyToOne: bool, k: nat) {
    && line.physical.At(k) in table
    && table[line.physical.At(k)] == (LogicalAt(line, manyToOne, k), StoredBank(line.bank))
  }

  // ---- Accepting a line ----

  /** A line stops at one place only: where it ends, or at its first pixel in error. */
  lemma AcceptedOrNot(table: PixelTable, used: set<U32>, line: Line, manyToOne: bool, n: nat)
    requires GoesOn(line, manyToOne, n) && Passed(table, used, line, manyToOne, n)
    requires VerdictAt(table, used, line, manyToOne, n) == Accepted ==> WholeLine(line, manyToOne, n)
    ensures Accepts(table, used, line, manyToOne) <==> VerdictAt(table, used, line, manyToOne, n) == Accepted
  {
    hide CheckAt;
    if Accepts(table, used, line, manyToOne) {
      var m: nat :| WholeLine(line, manyToOne, m) && Passed(table, used, line, manyToOne, m);
      assert m < n ==> line.physical.At(m) != line.physical.End();
      assert n < m ==> CheckAt(table, used, line, manyToOne, n) == Accepted;
    }
  }

  /** A gap line is accepted only if it describes at most one pixel: the bank that the
      first pixel leaves behind is a reserved one to the second. */
  lemma GapLine(table: PixelTable, used: set<U32>, line: Line, manyToOne: bool)
    requires line.bank == GAP
    ensures Accepts(table, used, line, manyToOne) <==>
              || WholeLine(line, manyToOne, 0)
              || (WholeLine(line, manyToOne, 1) && CheckAt(table, used, line, manyToOne, 0) == Accepted)
  {
    hide GoesOn, Added, Logicals;
    assert CheckAt(table, used, line, manyToOne, 1) != Accepted;
    if Accepts(table, used, line, manyToOne) {
      var n: nat :| WholeLine(line, manyToOne, n) && Passed(table, used, line, manyToOne, n);
      assert n < 2;
      assert n == 1 ==> CheckAt(table, used, line, manyToOne, 0) == Accepted;
    }
    if WholeLine(line, manyToOne, 0) {
      assert Passed(table, used, line, manyToOne, 0);
    }
    if WholeLine(line, manyToOne, 1) && CheckAt(table, used, line, manyToOne, 0) == Accepted {
      assert Passed(table, used, line, manyToOne, 1);
    }
  }

  const TWO_IDS := Shorthand(0, 1, 1)

  lemma TwoPixels(bank: U32)
    ensures var line := Line(TWO_IDS, TWO_IDS, bank);
            && WholeLine(line, false, 2) && line.physical.At(0) == LogicalAt(line, false, 0) == 0
            && line.physical.At(1) == LogicalAt(line, false, 1) == 1
  {
    var line := Line(TWO_IDS, TWO_IDS, bank);
    assert TWO_IDS.At(0) == 0 && TWO_IDS.At(1) == 1 && TWO_IDS.At(2) == 2 == TWO_IDS.End();
    LogicalOneToOne(line, 0);
    LogicalOneToOne(line, 1);
    LogicalOneToOne(line, 2);
  }

  /** A gap of two pixels is rejected, though the same line with a bank is accepted. */
  lemma GapOfTwo()
    ensures !Accepts(map[], {}, Line(TWO_IDS, TWO_IDS, GAP), false)
    ensures Accepts(map[], {}, Line(TWO_IDS, TWO_IDS, 5), false)
  {
    hide Wrap32, LogicalAt, GoesOn, IdSpec.At, IdSpec.End;
    var gap, banked := Line(TWO_IDS, TWO_IDS, GAP), Line(TWO_IDS, TWO_IDS, 5);
    TwoPixels(GAP);
    TwoPixels(5);
    GapLine(map[], {}, gap, false);
    assert WholeLine(gap, false, 2) ==> !WholeLine(gap, false, 0) && !WholeLine(gap, false, 1) by {
      TwoPixelsOnly(gap);
    }
    assert CheckAt(map[], {}, banked, false, 0) == Accepted;
    assert Added(map[], banked, false, 5, 1) == map[0 := (0, 5)] && Logicals({}, banked, false, 1) == {0};
    assert CheckAt(map[], {}, banked, false, 1) == Accepted;
    assert Passed(map[], {}, banked, false, 2);
  }

  lemma TwoPixelsOnly(line: Line)
    requires WholeLine(line, false, 2)
    ensures !WholeLine(line, false, 0) && !WholeLine(line, false, 1)
  {
    hide LogicalAt, IdSpec.At, IdSpec.End;
    assert line.physical.At(0) != line.physical.End() && line.physical.At(1) != line.physical.End();
  }

  const REPEATED := Line(Shorthand(0, 3, 1), Shorthand(10, 11, 1), 1)

  /** Two logical ids for four physical ones: each is used twice, in turn. */
  lemma RepeatedIds()
    ensures WholeLine(REPEATED, true, 4) && Accepts(map[], {}, REPEATED, true)
    ensures LogicalAt(REPEATED, true, 0) == LogicalAt(REPEATED, true, 2) == 10
    ensures LogicalAt(REPEATED, true, 1) == LogicalAt(REPEATED, true, 3) == 11
    ensures !Accepts(map[], {}, REPEATED, false)
  {
    ShorthandIds(0, 1, 4);
    ShorthandIds(10, 1, 2);
    hide Wrap32, LogicalAt, GoesOn, IdSpec.At, IdSpec.End, EndsAfter, Added, Logicals;
    ManyToOneLine(REPEATED, 2, 4);
    OneToOneLine(REPEATED, 2, 4);
    forall k: nat | k < 4
      ensures CheckAt(map[], {}, REPEATED, true, k) == Accepted
    {
      AddedBelow(REPEATED, k);
    }
    assert Passed(map[], {}, REPEATED, true, 4);
    forall n: nat ensures !WholeLine(REPEATED, false, n) {
      WholeOnce(REPEATED, false, n, 4);
    }
  }

  lemma WholeOnce(line: Line, manyToOne: bool, n: nat, m: nat)
    requires EndsAfter(line.physical, m)
    ensures WholeLine(line, manyToOne, n) ==> n == m
  {
  }

  lemma {:induction false} AddedBelow(line: Line, n: nat)
    requires line.physical == Shorthand(0, 3, 1) && n < 4
    ensures forall p :: p in Added(map[], line, true, StoredBank(line.bank), n) ==> p < n
    ensures line.physical.At(n) == n
  {
    if n > 0 {
      AddedBelow(line, n - 1);
    }
  }

  // ---- No pixel is lost ----

  lemma {:induction false} AddedGrows(table: PixelTable, used: set<U32>, line: Line, manyToOne: bool, n: nat)
    requires Passed(table, used, line, manyToOne, n)
    ensures var after := Added(table, line, manyToOne, StoredBank(line.bank), n);
            && |after| == |table| + n
            && (forall p :: p in table ==> p in after && after[p] == table[p])
            && forall k: nat :: k < n ==> Entered(after, line, manyToOne, k)
  {
    if n > 0 {
      var before := Added(table, line, manyToOne, StoredBank(line.bank), n - 1);
      assert CheckAt(table, used, line, manyToOne, n - 1) == Accepted;
      assert line.physical.At(n - 1) !in before;
      hide CheckAt, LogicalAt, Logicals;
      AddedGrows(table, used, line, manyToOne, n - 1);
      var after := Added(table, line, manyToOne, StoredBank(line.bank), n);
      forall k: nat | k < n ensures Entered(after, line, manyToOne, k) {
        if k < n - 1 {
          assert Entered(before, line, manyToOne, k);
        }
      }
    }
  }

  lemma {:induction false} NothingIsLost(lines: seq<Line>, manyToOne: bool, counts: seq<nat>)
    requires LinesPassed(lines, manyToOne, counts)
    ensures Complete(lines, manyToOne, counts, Table(lines, manyToOne, counts))
  {
    if counts != [] {
      var i := |counts| - 1;
      var before := counts[..i];
      LinesPassedBefore(lines, manyToOne, counts);
      NothingIsLost(lines, manyToOne, before);
      assert LinePassed(lines, manyToOne, counts, i);
      hide LinesPassed, Passed, GoesOn, Used;
      AddedGrows(Table(lines, manyToOne, before), Used(lines, manyToOne, before), lines[i], manyToOne, counts[i]);
      hide Added, LogicalAt;
      var table, small := Table(lines, manyToOne, counts), Table(lines, manyToOne, before);
      forall j, k: nat | 0 <= j < |counts| && k < counts[j] ensures Entered(table, lines[j], manyToOne, k) {
        if j < i {
          assert before[j] == counts[j];
          assert Entered(small, lines[j], manyToOne, k);
        }
      }
    }
  }

  lemma LinesPassedBefore(lines: seq<Line>, manyToOne: bool, counts: seq<nat>)
    requires LinesPassed(lines, manyToOne, counts) && counts != []
    ensures LinesPassed(lines, manyToOne, counts[..|counts| - 1])
  {
    var before := counts[..|counts| - 1];
    hide Passed, GoesOn, Table, Used;
    forall i | 0 <= i < |before| ensures LinePassed(lines, manyToOne, before, i) {
      assert LinePassed(lines, manyToOne, counts, i);
      assert before[..i] == counts[..i];
    }
  }

  // ---- Reading ----

  /** Where a sequence starts, where it stops, one past the last id, and its step. */
  method Bounds(spec: IdSpec) returns (start: U32, stop: U32, step: int)
    ensures start == spec.First() && stop == spec.End() && step == spec.By()
  {
    match spec
    case Shorthand(first, last, gap) =>
      start, stop, step := first, last, gap;
      stop := Wrap32(stop + step);
    case Single(id) =>
      start, step := id, 1;
      stop := Wrap32(start + step);
  }

  /** The checks on one pixel, each of which may throw. */
  method CheckPixel(manyToOne: bool, table: PixelTable, used: set<U32>, physical: U32, logical: U32, bank: U32)
    returns (v: Verdict)
    ensures v == Check(manyToOne, table, used, physical, logical, bank)
  {
    if physical / 0x8000_0000 % 2 != 0 {
      return Rejected(ErrorBitSet);
    }
    if physical in table {
      return Rejected(DuplicatePhysical);
    }
    if !manyToOne && logical in used {
      return Rejected(DuplicateLogical);
    }
    if bank == UNMAPPED_BANK {
      return Rejected(ReservedBank);
    }
    if bank == ERROR_BANK {
      return Rejected(ReservedBank);
    }
    if bank != GAP && bank >= 0x1_0000 {
      return Rejected(BankRange);
    }
    return Accepted;
  }

  /** One line. `n` pixels had been entered when the loop ended or an exception left it. */
  method ExpandLine(line: Line, manyToOne: bool, table0: PixelTable, used0: set<U32>)
    returns (table: PixelTable, used: set<U32>, n: nat, v: Verdict)
    requires Sound(table0, manyToOne) && LogicalsOf(table0, used0)
    ensures Sound(table, manyToOne) && LogicalsOf(table, used)
    ensures GoesOn(line, manyToOne, n) && Passed(table0, used0, line, manyToOne, n)
    ensures table == Added(table0, line, manyToOne, StoredBank(line.bank), n)
    ensures used == Logicals(used0, line, manyToOne, n)
    ensures v == VerdictAt(table0, used0, line, manyToOne, n)
    ensures v == Accepted ==> WholeLine(line, manyToOne, n)
    ensures v == Accepted <==> Accepts(table0, used0, line, manyToOne)
  {
    assert line.physical.At(0) == line.physical.First();
    hide Sound, LogicalsOf, FreePhysicals, Wrap32, GoesOn, Check, NextLogical, LogicalAt, Added, StoredBank, Logicals,
         Passed, Accepts, IdSpec.First, IdSpec.By, IdSpec.End, IdSpec.At, VerdictAt, CheckAt, BankAt;
    table, used, n := table0, used0, 0;
    var physicalStart, physicalStop, physicalStep := Bounds(line.physical);
    var logicalStart, logicalStop, logicalStep := Bounds(line.logical);
    var physical, logical, bank := physicalStart, logicalStart, line.bank;
    LineStarts(table0, used0, line, manyToOne);
    while physical != physicalStop && logical != logicalStop
      invariant Sound(table, manyToOne) && LogicalsOf(table, used)
      invariant physical == line.physical.At(n) && logical == LogicalAt(line, manyToOne, n)
      invariant GoesOn(line, manyToOne, n) && Passed(table0, used0, line, manyToOne, n) && bank == BankAt(line, n)
      invariant table == Added(table0, line, manyToOne, StoredBank(line.bank), n)
      invariant used == Logicals(used0, line, manyToOne, n)
      decreases FreePhysicals(table)
    {
      var check := CheckPixel(manyToOne, table, used, physical, logical, bank);
      VerdictIs(table0, used0, line, manyToOne, n);
      if check.Rejected? {
        AcceptedOrNot(table0, used0, line, manyToOne, n);
        return table, used, n, check;
      }
      CheckPassed(manyToOne, table, used, physical, logical, bank);
      if bank == GAP {
        bank := UNMAPPED_BANK;
      }
      SoundInsert(table, used, manyToOne, physical, logical, bank);
      used := used + {logical};
      table := table[physical := (logical, bank)];
      NextId(line.physical, n);
      PixelEntered(table0, used0, line, manyToOne, n, bank);
      logical := StartOver(line, manyToOne, physical, logical);
      physical, logical := Wrap32(physical + physicalStep), Wrap32(logical + logicalStep);
      n := n + 1;
    }
    v := if physical != physicalStop || logical != logicalStop then Rejected(Misaligned) else Accepted;
    VerdictIs(table0, used0, line, manyToOne, n);
    AcceptedOrNot(table0, used0, line, manyToOne, n);
  }

  /** A used-up logical sequence starts over by going back to one step before its start. */
  method StartOver(line: Line, manyToOne: bool, physical: U32, logical: U32) returns (r: U32)
    ensures Wrap32(r + line.logical.By())
            == NextLogical(line, manyToOne, logical, Wrap32(physical + line.physical.By()))
  {
    hide Wrap32, IdSpec.First, IdSpec.By, IdSpec.End;
    var _, physicalStop, physicalStep := Bounds(line.physical);
    var logicalStart, logicalStop, logicalStep := Bounds(line.logical);
    r := logical;
    if manyToOne && Wrap32(logical + logicalStep) == logicalStop && Wrap32(physical + physicalStep) != physicalStop {
      WrapAgain(logicalStart - logicalStep, logicalStep);
      SameWord(logicalStart, 0);
      r := Wrap32(logicalStart - logicalStep);
    }
  }

  lemma VerdictIs(table: PixelTable, used: set<U32>, line: Line, manyToOne: bool, n: nat)
    ensures VerdictAt(table, used, line, manyToOne, n) ==
              if line.physical.At(n) != line.physical.End() && LogicalAt(line, manyToOne, n) != line.logical.End() then
                Check(manyToOne, Added(table, line, manyToOne, StoredBank(line.bank), n), Logicals(used, line, manyToOne, n),
                      line.physical.At(n), LogicalAt(line, manyToOne, n), BankAt(line, n))
              else if line.physical.At(n) == line.physical.End() && LogicalAt(line, manyToOne, n) == line.logical.End() then
                Accepted
              else Rejected(Misaligned)
    ensures BankAt(line, 0) == line.bank
    ensures BankAt(line, n + 1) == if line.bank == GAP then UNMAPPED_BANK else line.bank
  {
    hide Added, Logicals, LogicalAt, Check, StoredBank;
  }

  lemma LineStarts(table: PixelTable, used: set<U32>, line: Line, manyToOne: bool)
    ensures Added(table, line, manyToOne, StoredBank(line.bank), 0) == table && Logicals(used, line, manyToOne, 0) == used
    ensures LogicalAt(line, manyToOne, 0) == line.logical.First()
    ensures GoesOn(line, manyToOne, 0) && Passed(table, used, line, manyToOne, 0)
  {}

  lemma PixelEntered(table: PixelTable, used: set<U32>, line: Line, manyToOne: bool, n: nat, bank: U32)
    requires bank == if line.bank == GAP then UNMAPPED_BANK else line.bank
    requires line.bank == GAP || line.bank < 0x1_0000
    requires GoesOn(line, manyToOne, n) && Passed(table, used, line, manyToOne, n)
    requires line.physical.At(n) != line.physical.End() && LogicalAt(line, manyToOne, n) != line.logical.End()
    requires CheckAt(table, used, line, manyToOne, n) == Accepted
    ensures GoesOn(line, manyToOne, n + 1) && Passed(table, used, line, manyToOne, n + 1)
    ensures var stored := StoredBank(line.bank);
            && stored == bank
            && Added(table, line, manyToOne, stored, n + 1)
               == Added(table, line, manyToOne, stored, n)
                  [line.physical.At(n) := (LogicalAt(line, manyToOne, n), stored)]
    ensures Logicals(used, line, manyToOne, n + 1)
            == Logicals(used, line, manyToOne, n) + {LogicalAt(line, manyToOne, n)}
    ensures LogicalAt(line, manyToOne, n + 1)
            == NextLogical(line, manyToOne, LogicalAt(line, manyToOne, n), line.physical.At(n + 1))
  {
    hide Wrap32, NextLogical, CheckAt;
  }

  /** The whole file: either every pixel of every line has its own entry in the table,
      or the first pixel in error decides, or there is none. */
  method ReadMap(lines: seq<Line>, manyToOne: bool) returns (r: ReadResult, ghost counts: seq<nat>)
    ensures LinesPassed(lines, manyToOne, counts)
    ensures !r.Failed? ==>
              && |counts| == |lines| && (forall i :: 0 <= i < |lines| ==> WholeLine(lines[i], manyToOne, counts[i]))
              && Complete(lines, manyToOne, counts, if r.Empty? then map[] else r.table)
    ensures r.Read? ==> Sound(r.table, manyToOne) && r.table != map[]
    ensures r.Failed? ==>
              var last := |counts| - 1;
              && 0 <= last && (forall i :: 0 <= i < last ==> WholeLine(lines[i], manyToOne, counts[i]))
              && VerdictAt(Table(lines, manyToOne, counts[..last]), Used(lines, manyToOne, counts[..last]), lines[last],
                           manyToOne, counts[last]) == Rejected(r.error)
  {
    hide Sound, LogicalsOf, VerdictAt, GoesOn, Added, Logicals, Passed, Accepts, Complete, WholeLine;
    var table: PixelTable, used: set<U32> := map[], {};
    counts := [];
    NothingRead(manyToOne);
    for i := 0 to |lines|
      invariant Sound(table, manyToOne) && LogicalsOf(table, used)
      invariant |counts| == i && table == Table(lines, manyToOne, counts) && used == Used(lines, manyToOne, counts)
      invariant LinesPassed(lines, manyToOne, counts)
      invariant forall j :: 0 <= j < i ==> WholeLine(lines[j], manyToOne, counts[j])
    {
      var n, v;
      table, used, n, v := ExpandLine(lines[i], manyToOne, table, used);
      LineRead(lines, manyToOne, counts, n);
      assert (counts + [n])[..i] == counts;
      counts := counts + [n];
      if v.Rejected? {
        return Failed(v.error), counts;
      }
    }
    NothingIsLost(lines, manyToOne, counts);
    r := if table == map[] then Empty else Read(table);
  }

  lemma LineRead(lines: seq<Line>, manyToOne: bool, counts: seq<nat>, n: nat)
    requires LinesPassed(lines, manyToOne, counts) && |counts| < |lines|
    requires GoesOn(lines[|counts|], manyToOne, n)
    requires Passed(Table(lines, manyToOne, counts), Used(lines, manyToOne, counts), lines[|counts|], manyToOne, n)
    ensures LinesPassed(lines, manyToOne, counts + [n])
    ensures var line := lines[|counts|];
            && Table(lines, manyToOne, counts + [n])
               == Added(Table(lines, manyToOne, counts), line, manyToOne, StoredBank(line.bank), n)
            && Used(lines, manyToOne, counts + [n]) == Logicals(Used(lines, manyToOne, counts), line, manyToOne, n)
  {
    hide Passed, GoesOn, Added, Logicals;
    var more := counts + [n];
    forall i | 0 <= i < |more| ensures LinePassed(lines, manyToOne, more, i) {
      assert i < |counts| ==> LinePassed(lines, manyToOne, counts, i);
      assert more[..i] == counts[..i];
      assert counts[..|counts|] == counts;
    }
    assert more[..|counts|] == counts;
  }

  lemma NothingRead(manyToOne: bool)
    ensures Sound(map[], manyToOne) && LogicalsOf(map[], {})
  {}

  /** `pixels` lists the table in key order, as iteration does. */
  ghost predicate Lists(table: PixelTable, pixels: seq<Pixel>) {
    && (forall i, j :: 0 <= i < j < |pixels| ==> pixels[i].physical < pixels[j].physical)
    && (forall i :: 0 <= i < |pixels| ==>
          pixels[i].physical in table && table[pixels[i].physical] == (pixels[i].logical, pixels[i].bank))
  }

  /** A table that was read meets what the packet writers and lookup tables ask for. */
  lemma ReadMapServesUsers(table: PixelTable, manyToOne: bool, pixels: seq<Pixel>)
    requires Sound(table, manyToOne) && Lists(table, pixels)
    ensures InMapOrder(pixels) && (manyToOne || DistinctLogicals(pixels))
  {
  }
}
