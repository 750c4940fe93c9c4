/** The impulse table of Blip_Synth: 64 sub-sample phases of a symmetric kernel share one table, and
    adjust_impulse makes every one of them sum to exactly the kernel unit. */
module BlipKernel {
  import opened Arith

  const RES: nat := 64

  /** Conversion to a 16-bit short. */
  function Int16(x: int): int {
    if x % 0x1_0000 < 0x8000 then x % 0x1_0000 else x % 0x1_0000 - 0x1_0000
  }

  /** Table size for a kernel of 2 * half points. */
  function Size(half: nat): nat {
    64 * half + 1
  }

  function Total(s: seq<int>): int {
    if s == [] then 0 else Total(s[..|s| - 1]) + s[|s| - 1]
  }

  // ---------------------------------------------------------------- phases of the table

  /** The sum of every 64th entry, from entry 1 + column on. */
  ghost function ColumnSum(imp: seq<int>, n: nat, column: int): int
    requires -1 <= column <= 63 && |imp| >= Size(n)
  {
    if n == 0 then 0 else ColumnSum(imp, n - 1, column) + imp[64 * (n - 1) + 1 + column]
  }

  /** The kernel a transition at the given phase is drawn with: one column forwards, then the mirrored
      column backwards. */
  ghost function Taps(imp: seq<int>, half: nat, phase: nat): (taps: seq<int>)
    requires |imp| == Size(half) && phase < 64
    ensures |taps| == 2 * half
  {
    seq(2 * half, i requires 0 <= i < 2 * half =>
      if i < half then imp[64 - phase + 64 * i] else imp[phase + 64 * (2 * half - 1 - i)])
  }

  /** The whole impulse: the table, and its mirror image from the middle on. */
  ghost function Impulse(imp: seq<int>, half: nat, j: nat): int
    requires |imp| == Size(half) && j <= 128 * half
  {
    if j <= 64 * half then imp[j] else imp[128 * half - j]
  }

  /** All 64 kernels are the same symmetric impulse, taken every 64 entries and delayed by the phase. */
  lemma TapsAreImpulse(imp: seq<int>, half: nat, phase: nat, i: nat)
    requires |imp| == Size(half) && phase < 64 && i < 2 * half
    ensures 64 * (i + 1) - phase <= 128 * half
    ensures Taps(imp, half, phase)[i] == Impulse(imp, half, 64 * (i + 1) - phase)
  {
  }

  ghost function PhaseSum(imp: seq<int>, half: nat, phase: nat): int
    requires |imp| == Size(half) && phase < 64
  {
    ColumnSum(imp, half, 63 - phase) + ColumnSum(imp, half, phase - 1)
  }

  lemma {:induction false} TotalForward(imp: seq<int>, half: nat, phase: nat, n: nat)
    requires |imp| == Size(half) && phase < 64 && n <= half
    ensures Total(Taps(imp, half, phase)[..n]) == ColumnSum(imp, n, 63 - phase)
  {
    if n > 0 {
      TotalForward(imp, half, phase, n - 1);
      assert Taps(imp, half, phase)[..n][..n - 1] == Taps(imp, half, phase)[..n - 1];
    }
  }

  lemma {:induction false} ColumnTail(imp: seq<int>, half: nat, phase: nat, n: nat)
    requires |imp| == Size(half) && phase < 64 && n <= half
    ensures Total(Taps(imp, half, phase)[..half + n])
            == ColumnSum(imp, half, 63 - phase) + ColumnSum(imp, half, phase - 1) - ColumnSum(imp, half - n, phase - 1)
  {
    if n == 0 {
      TotalForward(imp, half, phase, half);
    } else {
      ColumnTail(imp, half, phase, n - 1);
      assert Taps(imp, half, phase)[..half + n][..half + n - 1] == Taps(imp, half, phase)[..half + n - 1];
    }
  }

  /** The weight of a kernel is the sum of its two columns. */
  lemma TapsTotal(imp: seq<int>, half: nat, phase: nat)
    requires |imp| == Size(half) && phase < 64
    ensures Total(Taps(imp, half, phase)) == PhaseSum(imp, half, phase)
  {
    ColumnTail(imp, half, phase, half);
    assert Taps(imp, half, phase)[..half + half] == Taps(imp, half, phase);
  }

  // ---------------------------------------------------------------- adjust_impulse

  /** What is missing from the pair of columns p and 62 - p; column 31 is its own mirror image. */
  ghost function Error(imp: seq<int>, half: nat, p: nat, kernelUnit: int): int
    requires |imp| == Size(half) && 31 <= p <= 63
  {
    var error := kernelUnit - ColumnSum(imp, half, p) - ColumnSum(imp, half, 62 - p);
    if p == 31 then TruncDiv(error, 2) else error
  }

  /** The entry that receives the correction. */
  function Cell(half: nat, p: nat): int {
    64 * half - 63 + p
  }

  /** Every corrected entry takes its error, in 16-bit arithmetic; nothing else changes. */
  ghost predicate Adjusted(imp: seq<int>, after: seq<int>, half: nat, kernelUnit: int)
    requires |imp| == Size(half) && half > 0
  {
    && |after| == |imp|
    && (forall i :: 0 <= i < |imp| && i < Cell(half, 31) ==> after[i] == imp[i])
    && (forall p: nat :: 31 <= p <= 63 ==>
          after[Cell(half, p)] == Int16(imp[Cell(half, p)] + Int16(Error(imp, half, p, kernelUnit))))
  }

  lemma {:induction false} ColumnSumFrame(a: seq<int>, b: seq<int>, n: nat, column: int)
    requires -1 <= column <= 63 && |a| >= Size(n) && |b| >= Size(n)
    requires forall j: nat :: j < n ==> a[64 * j + 1 + column] == b[64 * j + 1 + column]
    ensures ColumnSum(a, n, column) == ColumnSum(b, n, column)
  {
    if n > 0 {
      ColumnSumFrame(a, b, n - 1, column);
    }
  }

  /** Correcting column p changes its sum by the correction, and no other column's sum. */
  lemma ColumnAfter(imp: seq<int>, after: seq<int>, half: nat, kernelUnit: int, column: int)
    requires half > 0 && |imp| == Size(half) && Adjusted(imp, after, half, kernelUnit) && -1 <= column <= 63
    ensures ColumnSum(after, half, column) == ColumnSum(imp, half, column)
              + if column < 31 then 0 else after[Cell(half, column)] - imp[Cell(half, column)]
  {
    ColumnSumFrame(imp, after, half - 1, column);
  }

  /** The phases that use columns p and 62 - p sum to the kernel unit exactly when the correction did
      not overflow 16 bits. */
  lemma PhaseExact(imp: seq<int>, after: seq<int>, half: nat, kernelUnit: int, phase: nat)
    requires half > 0 && |imp| == Size(half) && Adjusted(imp, after, half, kernelUnit)
    requires kernelUnit % 2 == 0 && phase < 64
    ensures var p := if phase <= 32 then 63 - phase else phase - 1;
            PhaseSum(after, half, phase) == kernelUnit
            <==> -0x8000 <= imp[Cell(half, p)] + Error(imp, half, p, kernelUnit) <= 0x7FFF
  {
    hide Int16;
    ColumnAfter(imp, after, half, kernelUnit, 63 - phase);
    ColumnAfter(imp, after, half, kernelUnit, phase - 1);
    var p := if phase <= 32 then 63 - phase else phase - 1;
    Int16Add(imp[Cell(half, p)], Error(imp, half, p, kernelUnit));
  }

  /** No correction of adjust_impulse overflows 16 bits. */
  ghost predicate CorrectionsFit(imp: seq<int>, half: nat, kernelUnit: int)
    requires |imp| == Size(half) && half > 0
  {
    forall p: nat :: 31 <= p <= 63 ==> -0x8000 <= imp[Cell(half, p)] + Error(imp, half, p, kernelUnit) <= 0x7FFF
  }

  /** All 64 phases sum to the kernel unit if and only if every correction of the table fitted. */
  lemma AllPhasesExact(imp: seq<int>, after: seq<int>, half: nat, kernelUnit: int)
    requires half > 0 && |imp| == Size(half) && Adjusted(imp, after, half, kernelUnit) && kernelUnit % 2 == 0
    ensures (forall phase: nat :: phase < 64 ==> PhaseSum(after, half, phase) == kernelUnit)
            <==> CorrectionsFit(imp, half, kernelUnit)
  {
    hide PhaseSum, Error;
    forall phase: nat | phase < 64
      ensures var p := if phase <= 32 then 63 - phase else phase - 1;
              PhaseSum(after, half, phase) == kernelUnit
              <==> -0x8000 <= imp[Cell(half, p)] + Error(imp, half, p, kernelUnit) <= 0x7FFF
    {
      PhaseExact(imp, after, half, kernelUnit, phase);
    }
    if forall phase: nat :: phase < 64 ==> PhaseSum(after, half, phase) == kernelUnit {
      forall p: nat | 31 <= p <= 63
        ensures -0x8000 <= imp[Cell(half, p)] + Error(imp, half, p, kernelUnit) <= 0x7FFF
      {
        assert PhaseSum(after, half, 63 - p) == kernelUnit;
      }
    }
  }

  /** An empty table and the full-scale unit: the correction does not fit, and phase 0 weighs the
      opposite of what it should. */
  lemma CorrectionOverflows(after: seq<int>)
    requires Adjusted(Empty(1), after, 1, 0x8000)
    ensures PhaseSum(after, 1, 0) == -0x8000 && !CorrectionsFit(Empty(1), 1, 0x8000)
  {
    EmptyColumn(63);
    EmptyColumn(-1);
    assert Error(Empty(1), 1, 63, 0x8000) == 0x8000;
    ColumnAfter(Empty(1), after, 1, 0x8000, 63);
    ColumnAfter(Empty(1), after, 1, 0x8000, -1);
  }

  ghost function Empty(half: nat): (imp: seq<int>)
    ensures |imp| == Size(half) && forall i :: 0 <= i < |imp| ==> imp[i] == 0
  {
    seq(Size(half), _ => 0)
  }

  lemma EmptyColumn(column: int)
    requires -1 <= column <= 63
    ensures ColumnSum(Empty(1), 1, column) == 0
  {
    assert ColumnSum(Empty(1), 0, column) == 0;
  }

  lemma Int16Add(a: int, e: int)
    ensures Int16(a + Int16(e)) == a + e <==> -0x8000 <= a + e <= 0x7FFF
  {
    var k := if e % 0x1_0000 < 0x8000 then e / 0x1_0000 else e / 0x1_0000 + 1;
    assert Int16(e) == e - 0x1_0000 * k;
    DivShift(a + e, -k, 0x1_0000);
  }

  method AdjustImpulse(impulses: array<int>, half: nat, kernelUnit: int)
    requires half > 0 && impulses.Length == Size(half)
    modifies impulses
    ensures Adjusted(old(impulses[..]), impulses[..], half, kernelUnit)
  {
    hide Int16, TruncDiv;
    ghost var was := impulses[..];
    var p := 64;
    while p > 31
      invariant 31 <= p <= 64
      invariant forall i :: 0 <= i < |was| && i < Cell(half, p) ==> impulses[i] == was[i]
      invariant forall q: nat :: p <= q <= 63 ==>
                  impulses[Cell(half, q)] == Int16(was[Cell(half, q)] + Int16(Error(was, half, q, kernelUnit)))
    {
      p := p - 1;
      var error := ColumnError(impulses, half, p, kernelUnit);
      ColumnSumFrame(was, impulses[..], half, p);
      ColumnSumFrame(was, impulses[..], half, 62 - p);
      if p == 62 - p {
        error := TruncDiv(error, 2);
      }
      impulses[64 * half + 1 - 64 + p] := Int16(impulses[64 * half + 1 - 64 + p] + Int16(error));
    }
  }

  /** The inner loop of adjust_impulse. */
  method ColumnError(impulses: array<int>, half: nat, p: nat, kernelUnit: int) returns (error: int)
    requires impulses.Length == Size(half) && 31 <= p <= 63
    ensures error == kernelUnit - ColumnSum(impulses[..], half, p) - ColumnSum(impulses[..], half, 62 - p)
  {
    error := kernelUnit;
    var i := 1;
    ghost var j := 0;
    while i < impulses.Length
      invariant 0 <= j <= half && i == 64 * j + 1
      invariant error == kernelUnit - ColumnSum(impulses[..], j, p) - ColumnSum(impulses[..], j, 62 - p)
    {
      error := error - impulses[i + p];
      error := error - impulses[i + (62 - p)];
      i := i + 64;
      j := j + 1;
    }
  }
}
