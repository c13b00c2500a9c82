/** One section of the alternate packet: what the writer packs is what a reader
    unpacks, on 32-bit wrapping ids and 16-bit signed steps. */
module AltPixelSections {
  import opened Words
  import opened PixelTypes
  import opened AltPixelWire

  const MAX_STEP := 32767
  const MAX_COUNT := 0x7fff

  predicate SmallStep(step: int) {
    -MAX_STEP <= step <= MAX_STEP
  }

  predicate Follows(p: Pixel, q: Pixel, physicalStep: int, logicalStep: int) {
    && q.physical == Wrap32(p.physical + physicalStep)
    && q.logical == Wrap32(p.logical + logicalStep)
  }

  /** Pixels of one bank at constant wrapping steps. */
  predicate Run(run: seq<Pixel>, physicalStep: int, logicalStep: int) {
    && (forall k :: 0 <= k < |run| ==> run[k].bank == run[0].bank)
    && (forall k {:trigger FollowsAt(run, k, physicalStep, logicalStep)} :: 0 < k < |run| ==>
          FollowsAt(run, k, physicalStep, logicalStep))
  }

  predicate FollowsAt(run: seq<Pixel>, k: nat, physicalStep: int, logicalStep: int)
    requires 0 < k < |run|
  {
    Follows(run[k - 1], run[k], physicalStep, logicalStep)
  }

  function DirectWords(p: Pixel, count: nat): seq<U32>
    requires count < 0x8000
  {
    [p.physical, BankAndCount(p.bank, false, count), p.logical]
  }

  function ShorthandWords(start: Pixel, stop: Pixel, physicalStep: int, logicalStep: int, count: nat): seq<U32>
    requires count < 0x8000
  {
    [start.physical, BankAndCount(start.bank, true, count), stop.physical,
     start.logical, StepsWord(physicalStep, logicalStep), stop.logical]
  }

  lemma WrapSum(a: int, b: int)
    ensures Wrap32(Wrap32(a) + b) == Wrap32(a + b)
    ensures Wrap32(b + Wrap32(a)) == Wrap32(a + b)
  {
  }

  lemma SignedOfWrap(x: int)
    requires -0x8000_0000 <= x < 0x8000_0000
    ensures Signed32(Wrap32(x)) == x
  {
  }

  lemma WrapDiffers(a: int, d: int)
    requires 0 < d < TWO32 || -TWO32 < d < 0
    ensures Wrap32(a) != Wrap32(a + d)
  {
  }

  lemma UnpackBankAndCount(bank: U16, shorthand: bool, count: nat)
    requires count < 0x8000
    ensures var w := BankAndCount(bank, shorthand, count);
            BankOf(w) == bank && IsShorthand(w) == shorthand && CountOf(w) == count
  {
    var w := BankAndCount(bank, shorthand, count);
    var b: int := bank;
    assert w / 0x8000 == b * 2 + (if shorthand then 1 else 0);
  }

  lemma UnpackSteps(physicalStep: int, logicalStep: int)
    requires SmallStep(physicalStep) && SmallStep(logicalStep)
    ensures var w := StepsWord(physicalStep, logicalStep);
            Signed16(w / 0x1_0000) == physicalStep && Signed16(w % 0x1_0000) == logicalStep
  {
  }

  lemma {:induction false} ProductBounds(n: nat, step: int)
    requires SmallStep(step)
    ensures -MAX_STEP * n <= n * step <= MAX_STEP * n
    ensures step > 0 ==> n * step >= n
    ensures step < 0 ==> n * step <= 0 - n
  {
    if n > 0 {
      ProductBounds(n - 1, step);
      assert n * step == (n - 1) * step + step;
    }
  }

  lemma ProductAtLeast(d: int, t: int)
    requires d > 0 && t >= 1
    ensures d * t >= d
    decreases t
  {
  }

  lemma QuotientOfProduct(n: int, d: int)
    requires d > 0
    ensures n * d / d == n
  {
    var x := n * d;
    var q, r := x / d, x % d;
    assert x == d * q + r;
    assert d * (n - q) == r by {
      assert d * (n - q) == d * n - d * q;
    }
    assert d * (q - n) == -(d * (n - q));
    if n - q >= 1 {
      ProductAtLeast(d, n - q);
    } else if q - n >= 1 {
      ProductAtLeast(d, q - n);
    }
  }

  lemma ExactDivision(n: nat, step: int)
    requires SmallStep(step) && step != 0
    ensures TruncDiv(n * step, step) == n
  {
    ProductBounds(n, step);
    if step > 0 {
      QuotientOfProduct(n, step);
    } else {
      QuotientOfProduct(n, -step);
      assert n * -step == -(n * step);
    }
  }

  lemma RecountIsExact(start: U32, step: int, n: nat)
    requires 1 <= n <= MAX_COUNT && SmallStep(step) && step != 0
    ensures Recount(start, Wrap32(start + (n - 1) * step), step) == n
  {
    hide TruncDiv;
    var t := n * step;
    assert start + (n - 1) * step + (step - start) == t;
    WrapSum(start + (n - 1) * step, step - start);
    ProductBounds(n, step);
    SignedOfWrap(t);
    ExactDivision(n, step);
  }

  /** A run in closed form. */
  lemma {:induction false} RunAt(run: seq<Pixel>, physicalStep: int, logicalStep: int, k: nat)
    requires Run(run, physicalStep, logicalStep) && k < |run|
    ensures run[k].physical == Wrap32(run[0].physical + k * physicalStep)
    ensures run[k].logical == Wrap32(run[0].logical + k * logicalStep)
  {
    if k > 0 {
      assert FollowsAt(run, k, physicalStep, logicalStep);
      RunAt(run, physicalStep, logicalStep, k - 1);
      WrapSum(run[0].physical + (k - 1) * physicalStep, physicalStep);
      WrapSum(run[0].logical + (k - 1) * logicalStep, logicalStep);
      assert (k - 1) * physicalStep + physicalStep == k * physicalStep;
      assert (k - 1) * logicalStep + logicalStep == k * logicalStep;
    }
  }

  /** A sequence with a small nonzero step does not meet its own end early. */
  lemma EndMetOnce(start: U32, step: int, k: nat, n: nat)
    requires k < n <= MAX_COUNT && SmallStep(step) && step != 0
    ensures Wrap32(start + k * step) != Wrap32(start + n * step)
  {
    ProductBounds(n - k, step);
    assert k * step + (n - k) * step == n * step;
    WrapDiffers(start + k * step, (n - k) * step);
  }

  lemma RunGoesOn(run: seq<Pixel>, physicalStep: int, logicalStep: int, k: nat)
    requires Run(run, physicalStep, logicalStep) && k < |run| - 1 < MAX_COUNT
    requires SmallStep(physicalStep) && physicalStep != 0 && SmallStep(logicalStep) && logicalStep != 0
    ensures run[k].physical != run[|run| - 1].physical && run[k].logical != run[|run| - 1].logical
  {
    hide Wrap32, Run;
    var last := |run| - 1;
    RunAt(run, physicalStep, logicalStep, k);
    RunAt(run, physicalStep, logicalStep, last);
    EndMetOnce(run[0].physical, physicalStep, k, last);
    EndMetOnce(run[0].logical, logicalStep, k, last);
  }

  /** From any pixel of the run, the reader's walk yields the rest of it. */
  lemma {:induction false} WalkRun(run: seq<Pixel>, physicalStep: int, logicalStep: int, k: nat, steps: nat)
    requires Run(run, physicalStep, logicalStep) && k < |run| <= MAX_COUNT
    requires SmallStep(physicalStep) && physicalStep != 0 && SmallStep(logicalStep) && logicalStep != 0
    requires |run| - k <= steps
    ensures var stop := run[|run| - 1];
            Walk(run[k].physical, physicalStep, stop.physical, run[k].logical, logicalStep, stop.logical,
                 run[0].bank, steps) == run[k..]
    decreases |run| - k
  {
    hide Wrap32;
    if k < |run| - 1 {
      RunGoesOn(run, physicalStep, logicalStep, k);
      assert FollowsAt(run, k + 1, physicalStep, logicalStep);
      WalkRun(run, physicalStep, logicalStep, k + 1, steps - 1);
      assert run[k..] == [run[k]] + run[k + 1..];
    } else {
      assert run[k..] == [run[k]];
    }
  }

  lemma ShorthandFront(run: seq<Pixel>, physicalStep: int, logicalStep: int)
    requires Run(run, physicalStep, logicalStep) && 2 <= |run| <= MAX_COUNT
    requires SmallStep(physicalStep) && physicalStep != 0 && SmallStep(logicalStep) && logicalStep != 0
    ensures var w := ShorthandWords(run[0], run[|run| - 1], physicalStep, logicalStep, |run|);
            HasFront(w) && FrontSize(w) == 6 && CanonicalFront(w) && FrontPixels(w) == run
  {
    var n := |run|;
    UnpackBankAndCount(run[0].bank, true, n);
    UnpackSteps(physicalStep, logicalStep);
    RunAt(run, physicalStep, logicalStep, n - 1);
    RecountIsExact(run[0].physical, physicalStep, n);
    RecountIsExact(run[0].logical, logicalStep, n);
    WalkRun(run, physicalStep, logicalStep, 0, n);
    hide BankAndCount, StepsWord, BankOf, IsShorthand, CountOf, Signed16, Recount, Walk, Run, Wrap32, SmallStep;
    assert run[0..] == run;
  }

  lemma ShorthandSection(run: seq<Pixel>, physicalStep: int, logicalStep: int)
    requires Run(run, physicalStep, logicalStep) && 2 <= |run| <= MAX_COUNT
    requires SmallStep(physicalStep) && physicalStep != 0 && SmallStep(logicalStep) && logicalStep != 0
    ensures var w := ShorthandWords(run[0], run[|run| - 1], physicalStep, logicalStep, |run|);
            Canonical(w) && OnTheWire(w) == run
  {
    var w := ShorthandWords(run[0], run[|run| - 1], physicalStep, logicalStep, |run|);
    ShorthandFront(run, physicalStep, logicalStep);
    hide HasFront, FrontSize, CanonicalFront, FrontPixels, ShorthandWords, Run;
    assert |w| == 6 ==> w[6..] == [];
    assert OnTheWire([]) == [] && Canonical([]);
    assert run + [] == run;
  }

  lemma DirectSection(p: Pixel)
    ensures var w := DirectWords(p, 1);
            Canonical(w) && OnTheWire(w) == [p]
  {
    var w := DirectWords(p, 1);
    UnpackBankAndCount(p.bank, false, 1);
    assert w[2..3] == [p.logical] && w[3..] == [];
    assert Direct(p.physical, [p.logical], p.bank) == [p] + Direct(Wrap32(p.physical + 1), [], p.bank);
    assert FrontPixels(w) == [p];
  }
}
