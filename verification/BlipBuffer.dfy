/** Blip_Buffer: transitions are added to a buffer of differences, and samples are read off its front
    as a leaky running sum. The buffer is a window on an endless stream of differences. */
module BlipBuffer {
  import opened Arith
  import opened BlipKernel

  const WIDEST: nat := 16
  const EXTRA: nat := 18              // blip_buffer_extra_

  // ---------------------------------------------------------------- the stream

  /** The reader's accumulator after k differences: each is added and a 2^-bass part leaks away. */
  function Accum(d: seq<int>, bass: nat, k: nat): int
    requires k <= |d|
  {
    if k == 0 then 0
    else
      var a := Accum(d, bass, k - 1);
      a + d[k - 1] - a / Pow2(bass)
  }

  /** The source's clamp to 16 bits: a value that does not fit becomes 0x7FFF minus its sign. */
  function Clamped(s: int): int {
    if Int16(s) != s then Int16(0x7FFF - s / 0x100_0000) else s
  }

  /** The sample read from an accumulator. */
  function OutSample(accum: int): int {
    Clamped(accum / 0x4000)
  }

  /** The k-th sample after the first from. */
  function Sample(d: seq<int>, bass: nat, from: nat, k: nat): int
    requires from + k <= |d|
  {
    OutSample(Accum(d, bass, from + k))
  }

  /** The clamp gives the nearest 16-bit value as long as its argument has at most 25 bits; for 32-bit
      accumulators it always has. */
  lemma ClampedIsNearest(s: int)
    requires -0x100_0000 <= s < 0x100_0000
    ensures Clamped(s) == if s < -0x8000 then -0x8000 else if s > 0x7FFF then 0x7FFF else s
  {
    assert s / 0x100_0000 == if s < 0 then -1 else 0;
    assert Int16(0x7FFF) == 0x7FFF && Int16(0x8000) == -0x8000;
    assert -0x8000 <= s < 0x8000 <==> Int16(s) == s;
  }

  lemma OutSampleClamps(accum: int)
    requires -0x8000_0000 <= accum < 0x8000_0000
    ensures var s := accum / 0x4000;
            OutSample(accum) == if s < -0x8000 then -0x8000 else if s > 0x7FFF then 0x7FFF else s
  {
    ClampedIsNearest(accum / 0x4000);
  }

  /** What has been read depends only on what had been read: later transitions cannot change it. */
  lemma {:induction false} AccumPrefix(d: seq<int>, e: seq<int>, bass: nat, k: nat)
    requires k <= |d| && k <= |e| && d[..k] == e[..k]
    ensures Accum(d, bass, k) == Accum(e, bass, k)
  {
    if k > 0 {
      assert d[..k - 1] == d[..k][..k - 1] && e[..k - 1] == e[..k][..k - 1];
      assert d[k - 1] == d[..k][k - 1] && e[k - 1] == e[..k][k - 1];
      AccumPrefix(d, e, bass, k - 1);
    }
  }

  function Zeros(n: nat): seq<int> {
    seq(n, _ => 0)
  }

  lemma AccumNext(d: seq<int>, bass: nat, from: nat, n: nat)
    requires from + n < |d|
    ensures var accum := Accum(d, bass, from + n);
            && Accum(d, bass, from + n + 1) == accum + d[from + n] - accum / Pow2(bass)
            && Sample(d, bass, from, n) == OutSample(accum)
  {
  }

  /** The sum of the first k accumulators: what has leaked away until then, times 2^bass and before rounding. */
  function Leaked(d: seq<int>, bass: nat, k: nat): int
    requires k <= |d|
  {
    if k == 0 then 0 else Leaked(d, bass, k - 1) + Accum(d, bass, k - 1)
  }

  /** Nothing but the leak is lost of the differences read: each accumulator gives up its 2^bass-th part, to
      within less than 1. */
  lemma {:induction false} LeakAddsUp(d: seq<int>, bass: nat, k: nat)
    requires k <= |d|
    ensures var lost := Total(d[..k]) - Accum(d, bass, k);
            lost * Pow2(bass) <= Leaked(d, bass, k) <= lost * Pow2(bass) + k * (Pow2(bass) - 1)
  {
    if k > 0 {
      LeakAddsUp(d, bass, k - 1);
      assert d[..k][..k - 1] == d[..k - 1];
      LeakNext(Accum(d, bass, k - 1), d[k - 1], Total(d[..k - 1]), k - 1, Pow2(bass), Leaked(d, bass, k - 1));
    }
  }

  lemma LeakNext(a: int, x: int, total: int, k: nat, p: int, leaked: int)
    requires p > 0 && (total - a) * p <= leaked <= (total - a) * p + k * (p - 1)
    ensures var lost := total + x - (a + x - a / p);
            lost * p <= leaked + a <= lost * p + (k + 1) * (p - 1)
  {
    DivBounds(a, p);
    assert (total - a + a / p) * p == (total - a) * p + a / p * p;
    assert (k + 1) * (p - 1) == k * (p - 1) + p - 1;
  }

  lemma {:induction false} TotalZeros(n: nat)
    ensures Total(Zeros(n)) == 0
  {
    if n > 0 {
      assert Zeros(n)[..n - 1] == Zeros(n - 1);
      TotalZeros(n - 1);
    }
  }

  lemma {:induction false} TotalMoreZeros(d: seq<int>, n: nat)
    ensures Total(d + Zeros(n)) == Total(d)
  {
    if n == 0 {
      assert d + Zeros(0) == d;
    } else {
      assert (d + Zeros(n))[..|d| + n - 1] == d + Zeros(n - 1);
      TotalMoreZeros(d, n - 1);
    }
  }

  /** The stream with a kernel added from index at on. */
  ghost function AddKernel(d: seq<int>, at: nat, taps: seq<int>): seq<int>
    requires at + |taps| <= |d|
  {
    seq(|d|, i requires 0 <= i < |d| => if at <= i < at + |taps| then d[i] + taps[i - at] else d[i])
  }

  ghost function Scaled(taps: seq<int>, k: int): (s: seq<int>)
    ensures |s| == |taps|
  {
    seq(|taps|, i requires 0 <= i < |taps| => taps[i] * k)
  }

  lemma {:induction false} TotalScaled(taps: seq<int>, k: int)
    ensures Total(Scaled(taps, k)) == Total(taps) * k
  {
    if taps != [] {
      var m := |taps| - 1;
      assert Scaled(taps, k)[..m] == Scaled(taps[..m], k);
      TotalScaled(taps[..m], k);
      assert (Total(taps[..m]) + taps[m]) * k == Total(taps[..m]) * k + taps[m] * k;
    }
  }

  /** A kernel adds exactly its own total. */
  lemma {:induction false} TotalAddKernel(d: seq<int>, at: nat, taps: seq<int>)
    requires at + |taps| <= |d|
    ensures Total(AddKernel(d, at, taps)) == Total(d) + Total(taps)
    decreases |d|
  {
    var n := |d| - 1;
    var e := AddKernel(d, at, taps);
    if d == [] {
    } else if at + |taps| < |d| {
      assert e[..n] == AddKernel(d[..n], at, taps);
      TotalAddKernel(d[..n], at, taps);
    } else if taps == [] {
      assert e == d;
    } else {
      var m := |taps| - 1;
      assert e[..n] == AddKernel(d[..n], at, taps[..m]);
      TotalAddKernel(d[..n], at, taps[..m]);
    }
  }

  /** A transition: where its kernel goes, its phase, and its size. */
  datatype Transition = Transition(at: nat, phase: nat, delta: int)

  ghost predicate Fits(events: seq<Transition>, length: nat, half: nat) {
    forall i :: 0 <= i < |events| ==> events[i].phase < 64 && events[i].at + 2 * half <= length
  }

  ghost function AddAll(d: seq<int>, imp: seq<int>, half: nat, events: seq<Transition>): (e: seq<int>)
    requires |imp| == Size(half) && Fits(events, |d|, half)
    ensures |e| == |d|
  {
    if events == [] then d
    else
      var n := |events| - 1;
      AddKernel(AddAll(d, imp, half, events[..n]), events[n].at,
        Scaled(Taps(imp, half, events[n].phase), events[n].delta))
  }

  function Deltas(events: seq<Transition>): int {
    if events == [] then 0 else Deltas(events[..|events| - 1]) + events[|events| - 1].delta
  }

  /** Conservation: with an adjusted table any sequence of transitions, at any sub-sample times, adds
      exactly the sum of their sizes times the kernel unit to the stream's total. */
  lemma {:induction false} Conservation(d: seq<int>, imp: seq<int>, half: nat, kernelUnit: int, events: seq<Transition>)
    requires |imp| == Size(half) && Fits(events, |d|, half)
    requires forall phase: nat :: phase < 64 ==> PhaseSum(imp, half, phase) == kernelUnit
    ensures Total(AddAll(d, imp, half, events)) == Total(d) + Deltas(events) * kernelUnit
  {
    hide Taps, Scaled, AddKernel, PhaseSum;
    if events != [] {
      var n := |events| - 1;
      var last := events[n];
      Conservation(d, imp, half, kernelUnit, events[..n]);
      var taps := Taps(imp, half, last.phase);
      TapsTotal(imp, half, last.phase);
      TotalScaled(taps, last.delta);
      TotalAddKernel(AddAll(d, imp, half, events[..n]), last.at, Scaled(taps, last.delta));
      assert (Deltas(events[..n]) + last.delta) * kernelUnit
             == Deltas(events[..n]) * kernelUnit + last.delta * kernelUnit;
    }
  }

  /** From the table before adjustment to the total of the stream: whatever transitions are drawn, if no
      correction overflowed. */
  lemma AdjustedConserves(imp: seq<int>, after: seq<int>, half: nat, kernelUnit: int, d: seq<int>,
                          events: seq<Transition>)
    requires half > 0 && |imp| == Size(half) && Adjusted(imp, after, half, kernelUnit) && kernelUnit % 2 == 0
    requires CorrectionsFit(imp, half, kernelUnit) && Fits(events, |d|, half)
    ensures Total(AddAll(d, after, half, events)) == Total(d) + Deltas(events) * kernelUnit
  {
    hide CorrectionsFit, PhaseSum, Deltas;
    AllPhasesExact(imp, after, half, kernelUnit);
    Conservation(d, after, half, kernelUnit, events);
  }

  /** The first n samples of a stream. */
  ghost function Heard(d: seq<int>, bass: nat, n: nat): (samples: seq<int>)
    requires n <= |d|
    ensures |samples| == n
  {
    seq(n, k requires 0 <= k < n => OutSample(Accum(d, bass, k)))
  }

  /** They depend on nothing beyond them: not on what is written later, not on what follows. */
  lemma HeardPrefix(d: seq<int>, e: seq<int>, bass: nat, m: nat, n: nat)
    requires m <= n <= |e| && m <= |d| && d[..m] == e[..m]
    ensures Heard(d, bass, m) == Heard(e, bass, n)[..m]
    ensures Accum(d, bass, m) == Accum(e, bass, m)
  {
    hide Accum, OutSample;
    forall k: nat | k <= m ensures Accum(d, bass, k) == Accum(e, bass, k) {
      assert d[..k] == d[..m][..k] && e[..k] == e[..m][..k];
      AccumPrefix(d, e, bass, k);
    }
  }

  lemma SamplesHeard(d: seq<int>, bass: nat, from: nat, count: nat)
    requires from + count <= |d|
    ensures forall k: nat :: k < count ==> Sample(d, bass, from, k) == Heard(d, bass, from + count)[from + k]
  {
    hide Accum, OutSample;
  }

  /** Reading count samples from index from on, when zeros follow the stream behind them. */
  lemma ReadFacts(d: seq<int>, bass: nat, from: nat, count: nat)
    requires from + count <= |d|
    ensures var e, heard := d + Zeros(count), Heard(d + Zeros(count), bass, from + count);
      && Heard(d, bass, from) == heard[..from] && Accum(e, bass, from + count) == Accum(d, bass, from + count)
      && Total(e) == Total(d)
      && forall k: nat :: k < count ==> Sample(d, bass, from, k) == heard[from + k]
  {
    hide Accum, Sample, Total;
    var e := d + Zeros(count);
    HeardPrefix(d, e, bass, from + count, from + count);
    HeardPrefix(d, e, bass, from, from + count);
    TotalMoreZeros(d, count);
    SamplesHeard(d, bass, from, count);
  }

  /** What mix_samples adds: the steps between samples, from silence and back to it. */
  function StepsOf(input: seq<int>): (steps: seq<int>)
    ensures |steps| == |input| + 1
  {
    seq(|input| + 1, i requires 0 <= i <= |input| =>
      (if i < |input| then input[i] * 0x4000 else 0) - (if i > 0 then input[i - 1] * 0x4000 else 0))
  }

  /** Their running sum is the input at full scale, and in the end nothing is left. */
  lemma {:induction false} StepsSum(input: seq<int>, k: nat)
    requires k <= |input|
    ensures Total(StepsOf(input)[..k + 1]) == if k < |input| then input[k] * 0x4000 else 0
  {
    var s := StepsOf(input)[..k + 1];
    if k == 0 {
      assert s == [s[0]] && s[..0] == [];
    } else {
      StepsSum(input, k - 1);
      assert s[..k] == StepsOf(input)[..k];
    }
  }

  // ---------------------------------------------------------------- frame lengths

  /** count_clocks, before the division's result is cast. */
  function ClocksFor(count: nat, offset: nat, factor: nat): int
    requires factor > 0
  {
    (count * 0x1_0000 - offset + factor - 1) / factor
  }

  /** The least number of clocks after which count samples are there. */
  lemma ClocksForLeast(count: nat, offset: nat, factor: nat)
    requires factor > 0 && offset <= count * 0x1_0000
    ensures ClocksFor(count, offset, factor) >= 0
    ensures forall t: int :: t >= 0 ==>
              (t * factor + offset >= count * 0x1_0000 <==> t >= ClocksFor(count, offset, factor))
  {
    var need := count * 0x1_0000 - offset;
    var t0 := ClocksFor(count, offset, factor);
    DivMono(0, need + factor - 1, factor);
    DivBounds(need + factor - 1, factor);
    forall t: int | t >= 0
      ensures t * factor >= need <==> t >= t0
    {
      if t >= t0 {
        MulMono(t0, t, factor);
      } else {
        MulMono(t, t0 - 1, factor);
        assert (t0 - 1) * factor == t0 * factor - factor;
      }
    }
  }

  /** A frame of that many clocks ends with exactly count samples, wherever it starts, if and only if
      a clock is no longer than a sample. */
  lemma ExactFrame(count: nat, factor: nat)
    requires factor > 0 && count > 0
    ensures (forall offset: nat :: offset <= count * 0x1_0000 ==>
               (ClocksFor(count, offset, factor) * factor + offset) / 0x1_0000 == count)
            <==> factor <= 0x1_0000
  {
    if factor <= 0x1_0000 {
      forall offset: nat | offset <= count * 0x1_0000
        ensures (ClocksFor(count, offset, factor) * factor + offset) / 0x1_0000 == count
      {
        DivBounds(count * 0x1_0000 - offset + factor - 1, factor);
      }
    } else {
      var offset := count * 0x1_0000 - 1;
      DivIs(factor, factor, 1);
      assert (ClocksFor(count, offset, factor) * factor + offset) / 0x1_0000 != count;
    }
  }

  lemma AddKernelBehind(past: seq<int>, d: seq<int>, at: nat, taps: seq<int>)
    requires at + |taps| <= |d|
    ensures past + AddKernel(d, at, taps) == AddKernel(past + d, |past| + at, taps)
    ensures forall k: nat :: k <= |past| ==> AddKernel(past + d, |past| + at, taps)[..k] == (past + d)[..k]
  {
  }

  lemma FrameMono(offset: nat, factor: nat, t: nat, u: nat)
    requires t <= u
    ensures (t * factor + offset) / 0x1_0000 <= (u * factor + offset) / 0x1_0000
  {
    MulMono(t, u, factor);
    DivMono(t * factor + offset, u * factor + offset, 0x1_0000);
  }

  // ---------------------------------------------------------------- the buffer

  function StepSum(steps: seq<(nat, int)>, n: nat): int
    requires n <= |steps|
  {
    if n == 0 then 0 else StepSum(steps, n - 1) + steps[n - 1].1
  }

  lemma SumStep(sum: int, step: int, factor: int, unit: int)
    ensures (sum + step) * factor * unit == sum * factor * unit + unit * (step * factor)
  {
    assert (sum + step) * factor == sum * factor + step * factor;
    assert (sum * factor + step * factor) * unit == sum * factor * unit + step * factor * unit;
  }

  /** Any partition: a buffer read in pieces while transitions came in has given the same samples as one
      whose finished stream was read later or in one go. */
  lemma ReadsPartition(a: Buffer, b: Buffer)
    requires a.Valid() && b.Valid() && a.bassShift == b.bassShift
    requires |a.past| <= |b.past| && a.Stream()[..|a.past|] == b.Stream()[..|a.past|]
    ensures a.heard == b.heard[..|a.heard|]
  {
    hide Accum, Heard, Total;
    HeardPrefix(a.Stream(), b.Stream(), a.bassShift, |a.past|, |b.past|);
  }

  /** Where the k-th sample goes: every other place for one channel of stereo. */
  function Slot(stereo: bool, k: nat): nat {
    if stereo then 2 * k else k
  }

  class Buffer {
    const bufferSize: nat
    const buffer: array<int>
    const factor: nat                // samples per clock, in 1/65536
    const bassShift: nat
    var offset: nat                  // start of the current frame, in 1/65536 samples from the buffer's front
    var readerAccum: int

    ghost var past: seq<int>         // differences already read
    ghost var extent: nat            // every cell from here on is zero
    ghost var heard: seq<int>        // samples already read
    ghost var charge: int            // what transitions have added to the stream's total

    ghost predicate Valid()
      reads this, buffer
    {
      && Shape()
      && readerAccum == Accum(Stream(), bassShift, |past|)
      && heard == Heard(Stream(), bassShift, |past|)
      && Total(Stream()) == charge
    }

    ghost predicate Shape()
      reads this, buffer
    {
      && buffer.Length == bufferSize + EXTRA && factor > 0
      && SamplesAvail() <= bufferSize
      && (forall i :: extent <= i < buffer.Length ==> buffer[i] == 0)
    }

    /** Nothing reaches beyond what is kept when samples are removed, as between frames. */
    ghost predicate Settled()
      reads this`extent, this`offset
    {
      extent <= SamplesAvail() + EXTRA
    }

    /** Everything ever written, read or not; it goes on with zeros. */
    ghost function Stream(): seq<int>
      reads this, buffer
    {
      past + buffer[..]
    }

    function SamplesAvail(): nat
      reads this`offset
    {
      offset / 0x1_0000
    }

    function ResampledTime(t: nat): nat
      reads this`offset
    {
      t * factor + offset
    }

    constructor (bufferSize: nat, factor: nat, bassShift: nat)
      requires factor > 0
      ensures Valid() && Settled() && fresh(buffer) && heard == past == [] && offset == 0 && charge == 0
      ensures extent == 0
      ensures this.bufferSize == bufferSize && this.factor == factor && this.bassShift == bassShift
    {
      this.bufferSize, this.factor, this.bassShift := bufferSize, factor, bassShift;
      buffer := new int[bufferSize + EXTRA](_ => 0);
      offset, readerAccum := 0, 0;
      past, heard, extent, charge := [], [], 0, 0;
      new;
      TotalZeros(buffer.Length);
      assert Stream() == Zeros(buffer.Length);
    }

    /** offset: adds a transition at clock t of the current frame. The stream's total grows by the
        transition times the weight of its phase; what has been read stays as it was. */
    method Offset(t: nat, delta: int, deltaFactor: int, impulses: array<int>, half: nat)
      requires Valid() && 0 < half <= 8 && impulses.Length == Size(half) && impulses != buffer
      requires ResampledTime(t) / 0x1_0000 < bufferSize
      modifies buffer, this`extent, this`charge
      ensures Valid()
      ensures var pos := ResampledTime(t) / 0x1_0000;
              extent == if pos + WIDEST > old(extent) then pos + WIDEST else old(extent)
      ensures var time := ResampledTime(t);
              Stream() == AddKernel(old(Stream()), |past| + time / 0x1_0000 + (8 - half),
                                    Scaled(Taps(impulses[..], half, time / 0x400 % 64), delta * deltaFactor))
      ensures charge == old(charge)
                + PhaseSum(impulses[..], half, ResampledTime(t) / 0x400 % 64) * (delta * deltaFactor)
    {
      hide AddKernel, Taps, Accum, Heard, Total, PhaseSum, Scaled;
      var time := ResampledTime(t);
      ghost var pos, phase := time / 0x1_0000, time / 0x400 % 64;
      OffsetResampled(time, delta, deltaFactor, impulses, half);
      extent := if pos + WIDEST > extent then pos + WIDEST else extent;
      Drawn(old(Stream()), old(buffer[..]), pos + (8 - half), impulses[..], half, phase, delta * deltaFactor);
      charge := charge + PhaseSum(impulses[..], half, phase) * (delta * deltaFactor);
    }

    /** A kernel added in the buffer, seen in the stream. */
    lemma Drawn(was: seq<int>, cells: seq<int>, at: nat, imp: seq<int>, half: nat, phase: nat, k: int)
      requires |imp| == Size(half) && phase < 64 && at + 2 * half <= |cells| && was == past + cells
      requires buffer[..] == AddKernel(cells, at, Scaled(Taps(imp, half, phase), k))
      ensures Stream() == AddKernel(was, |past| + at, Scaled(Taps(imp, half, phase), k))
      ensures Heard(Stream(), bassShift, |past|) == Heard(was, bassShift, |past|)
      ensures Accum(Stream(), bassShift, |past|) == Accum(was, bassShift, |past|)
      ensures Total(Stream()) == Total(was) + PhaseSum(imp, half, phase) * k
    {
      hide Accum, Heard, AddKernel, Taps, Scaled, Total, PhaseSum;
      ghost var taps := Taps(imp, half, phase);
      AddKernelBehind(past, cells, at, Scaled(taps, k));
      HeardPrefix(Stream(), was, bassShift, |past|, |past|);
      TotalAddKernel(was, |past| + at, Scaled(taps, k));
      TotalScaled(taps, k);
      TapsTotal(imp, half, phase);
    }

    /** A voice's run: any number of offset calls with one table. With a table adjusted without overflow
        the stream's total grows by exactly the sum of the steps, at whatever times they come. */
    method DrawAll(steps: seq<(nat, int)>, deltaFactor: int, impulses: array<int>, half: nat,
                   ghost imp: seq<int>, ghost kernelUnit: int)
      requires Valid() && 0 < half <= 8 && impulses.Length == Size(half) == |imp| && impulses != buffer
      requires Adjusted(imp, impulses[..], half, kernelUnit) && kernelUnit % 2 == 0
      requires CorrectionsFit(imp, half, kernelUnit)
      requires forall i :: 0 <= i < |steps| ==> ResampledTime(steps[i].0) / 0x1_0000 < bufferSize
      modifies buffer, this`extent, this`charge
      ensures Valid() && Total(Stream()) == old(Total(Stream())) + StepSum(steps, |steps|) * deltaFactor * kernelUnit
    {
      hide Accum, Heard, Total, Adjusted, CorrectionsFit, PhaseSum, AddKernel, Taps, Scaled;
      AllPhasesExact(imp, impulses[..], half, kernelUnit);
      ghost var table := impulses[..];
      for i := 0 to |steps|
        invariant Valid() && impulses[..] == table
        invariant charge == old(charge) + StepSum(steps, i) * deltaFactor * kernelUnit
      {
        Offset(steps[i].0, steps[i].1, deltaFactor, impulses, half);
        SumStep(StepSum(steps, i), steps[i].1, deltaFactor, kernelUnit);
      }
    }

    /** offset_resampled for a kernel of 2 * half points, its unrolled taps written as two loops. */
    method OffsetResampled(time: nat, delta: int, deltaFactor: int, impulses: array<int>, half: nat)
      requires 0 < half <= 8 && impulses.Length == Size(half) && impulses != buffer
      requires buffer.Length == bufferSize + EXTRA && time / 0x1_0000 < bufferSize
      modifies buffer
      ensures buffer[..] == AddKernel(old(buffer[..]), time / 0x1_0000 + (8 - half),
                                      Scaled(Taps(impulses[..], half, time / 0x400 % 64), delta * deltaFactor))
      ensures forall c :: time / 0x1_0000 + WIDEST <= c < buffer.Length ==> buffer[c] == old(buffer[c])
    {
      var pos, phase := time / 0x1_0000, time / 0x400 % 64;
      var fwd := (WIDEST - 2 * half) / 2;
      var scaled := delta * deltaFactor;
      ForwardTaps(pos + fwd, phase, scaled, impulses, half);
      ReverseTaps(pos + fwd + 2 * half - 2, phase, scaled, impulses, half);
    }

    method ForwardTaps(at: nat, phase: nat, delta: int, impulses: array<int>, half: nat)
      requires 0 < half && impulses.Length == Size(half) && impulses != buffer
      requires phase < 64 && at + 2 * half <= buffer.Length
      modifies buffer
      ensures var taps := Scaled(Taps(impulses[..], half, phase), delta);
              forall c :: 0 <= c < buffer.Length ==>
                buffer[c] == old(buffer[c]) + if at <= c < at + half then taps[c - at] else 0
    {
      ghost var taps := Scaled(Taps(impulses[..], half, phase), delta);
      for i := 0 to half
        invariant forall c :: 0 <= c < buffer.Length ==>
                    buffer[c] == old(buffer[c]) + if at <= c < at + i then taps[c - at] else 0
      {
        assert taps[i] == impulses[RES - phase + RES * i] * delta;
        buffer[at + i] := buffer[at + i] + impulses[RES - phase + RES * i] * delta;
      }
    }

    method ReverseTaps(rev: nat, phase: nat, delta: int, impulses: array<int>, half: nat)
      requires 0 < half && impulses.Length == Size(half) && impulses != buffer
      requires phase < 64 && 2 * half - 2 <= rev && rev + 2 <= buffer.Length
      modifies buffer
      ensures var at, taps := rev + 2 - 2 * half, Scaled(Taps(impulses[..], half, phase), delta);
              forall c :: 0 <= c < buffer.Length ==>
                buffer[c] == old(buffer[c]) + if at + half <= c < at + 2 * half then taps[c - at] else 0
    {
      ghost var at, taps := rev + 2 - 2 * half, Scaled(Taps(impulses[..], half, phase), delta);
      var r := half;
      while r > 0
        invariant 0 <= r <= half
        invariant forall c :: 0 <= c < buffer.Length ==>
                    buffer[c] == old(buffer[c]) + if at + half <= c < at + 2 * half - r then taps[c - at] else 0
      {
        r := r - 1;
        assert taps[2 * half - 1 - r] == impulses[phase + RES * r] * delta;
        buffer[rev + 1 - r] := buffer[rev + 1 - r] + impulses[phase + RES * r] * delta;
      }
    }

    /** Ends the frame, late enough for all its transitions: its samples become readable. */
    method EndFrame(t: nat)
      requires Valid() && ResampledTime(t) / 0x1_0000 <= bufferSize
      requires extent <= ResampledTime(t) / 0x1_0000 + EXTRA
      modifies this`offset
      ensures Valid() && Settled() && offset == old(ResampledTime(t))
    {
      hide Accum, Heard, Total;
      offset := offset + t * factor;
    }

    /** Transitions at or before the frame's end are early enough. */
    lemma WithinFrame(t: nat, end: nat)
      requires t <= end
      ensures ResampledTime(t) / 0x1_0000 + WIDEST <= ResampledTime(end) / 0x1_0000 + EXTRA
    {
      FrameMono(offset, factor, t, end);
    }

    /** mix_samples: adds ready-made samples, delayed like a kernel's centre. */
    method MixSamples(input: seq<int>)
      requires Valid() && offset / 0x1_0000 + WIDEST / 2 + |input| < buffer.Length
      modifies buffer, this`extent
      ensures Valid()
      ensures var end := offset / 0x1_0000 + WIDEST / 2 + |input| + 1;
              extent == if end > old(extent) then end else old(extent)
      ensures Stream() == AddKernel(old(Stream()), |past| + offset / 0x1_0000 + WIDEST / 2, StepsOf(input))
    {
      hide Accum, Heard, AddKernel, Total, StepsOf;
      var at := offset / 0x1_0000 + WIDEST / 2;
      MixAt(input, at);
      extent := if at + |input| + 1 > extent then at + |input| + 1 else extent;
      AddKernelBehind(past, old(buffer[..]), at, StepsOf(input));
      HeardPrefix(Stream(), old(Stream()), bassShift, |past|, |past|);
      TotalAddKernel(old(Stream()), |past| + at, StepsOf(input));
      StepsSum(input, |input|);
      assert StepsOf(input)[..|input| + 1] == StepsOf(input);
    }

    method MixAt(input: seq<int>, at: nat)
      requires at + |input| < buffer.Length
      modifies buffer
      ensures buffer[..] == AddKernel(old(buffer[..]), at, StepsOf(input))
      ensures forall c :: at + |input| + 1 <= c < buffer.Length ==> buffer[c] == old(buffer[c])
    {
      var prev := 0;
      ghost var steps := StepsOf(input);
      for i := 0 to |input|
        invariant prev == if i > 0 then input[i - 1] * 0x4000 else 0
        invariant forall c :: 0 <= c < buffer.Length ==>
                    buffer[c] == old(buffer[c]) + if at <= c < at + i then steps[c - at] else 0
      {
        var s := input[i] * 0x4000;
        assert steps[i] == s - prev;
        buffer[at + i] := buffer[at + i] + s - prev;
        prev := s;
      }
      assert steps[|input|] == -prev;
      buffer[at + |input|] := buffer[at + |input|] - prev;
    }

    /** Removes the first count samples, between frames. */
    method RemoveSamples(count: nat)
      requires Shape() && Settled() && count <= SamplesAvail()
      modifies this`offset, this`past, this`extent, buffer
      ensures Shape() && Settled() && offset == old(offset) - count * 0x1_0000
      ensures past == old(Stream()[..|past| + count]) && Stream() == old(Stream()) + Zeros(count)
    {
      if count > 0 {
        DivShift(offset, -(count as int), 0x1_0000);
        offset := offset - count * 0x1_0000;
        past := past + buffer[..count];
        extent := if extent < count then 0 else extent - count;
        MoveDown(count, SamplesAvail() + EXTRA);
      }
    }

    /** memmove of the remaining cells, memset of the cells they leave. */
    method MoveDown(count: nat, remain: nat)
      requires remain + count <= buffer.Length
      requires forall i :: remain + count <= i < buffer.Length ==> buffer[i] == 0
      modifies buffer
      ensures buffer[..] == old(buffer[count..]) + Zeros(count)
    {
      for i := 0 to remain
        invariant forall j :: 0 <= j < i ==> buffer[j] == old(buffer[j + count])
        invariant forall j :: i <= j < buffer.Length ==> buffer[j] == old(buffer[j])
      {
        buffer[i] := buffer[i + count];
      }
      for i := remain to remain + count
        invariant forall j :: 0 <= j < remain ==> buffer[j] == old(buffer[j + count])
        invariant forall j :: remain <= j < i ==> buffer[j] == 0
        invariant forall j :: remain + count <= j < buffer.Length ==> buffer[j] == 0
      {
        buffer[i] := 0;
      }
    }

    /** Reads at most maxSamples: the k-th is a function of the stream and its own position alone, so
        everything read so far is what one read of the final stream would have given. */
    method ReadSamples(out: array<int>, maxSamples: nat, stereo: bool) returns (count: nat)
      requires Valid() && Settled() && out != buffer
      requires out.Length >= (if stereo then 2 else 1) * maxSamples
      modifies this`offset, this`past, this`extent, this`readerAccum, this`heard, buffer, out
      ensures Valid() && Settled()
      ensures count == if old(SamplesAvail()) < maxSamples then old(SamplesAvail()) else maxSamples
      ensures |past| == |old(past)| + count && Stream() == old(Stream()) + Zeros(count)
      ensures offset == old(offset) - count * 0x1_0000
      ensures old(heard) <= heard && |heard| == |old(heard)| + count
      ensures forall k: nat :: k < count ==> out[Slot(stereo, k)] == heard[|old(heard)| + k]
      ensures !stereo ==> out[..count] == heard[|old(heard)|..]
      ensures stereo ==> forall i: nat :: i < 2 * count && i % 2 == 0 ==> out[i] == heard[|old(heard)| + i / 2]
      ensures forall i :: 0 <= i < out.Length && (if stereo then i % 2 == 1 || i >= 2 * count else i >= count) ==>
                out[i] == old(out[i])
    {
      hide Accum, Sample, Heard, Total;
      count := if SamplesAvail() < maxSamples then SamplesAvail() else maxSamples;
      ghost var d, from := Stream(), |past|;
      var accum := ReadOut(out, count, stereo);
      PassOver(count, accum);
      ghost var samples := heard[from..];
      forall k: nat | k < count
        ensures out[Slot(stereo, k)] == samples[k]
      {
        assert Sample(d, bassShift, from, k) == heard[from + k];
      }
      InPlace(out, stereo, samples);
    }

    /** Takes away what has been read, accum being what reading it made of the accumulator. */
    method PassOver(count: nat, accum: int)
      requires Valid() && Settled() && count <= SamplesAvail()
      requires accum == Accum(Stream(), bassShift, |past| + count)
      modifies this`offset, this`past, this`extent, this`readerAccum, this`heard, buffer
      ensures Valid() && Settled()
      ensures |past| == |old(past)| + count && Stream() == old(Stream()) + Zeros(count)
      ensures offset == old(offset) - count * 0x1_0000
      ensures old(heard) <= heard && |heard| == |old(heard)| + count
      ensures forall k: nat :: k < count ==> Sample(old(Stream()), bassShift, |old(past)|, k) == heard[|old(past)| + k]
    {
      hide Accum, Sample, Heard, Total;
      ghost var d, from := Stream(), |past|;
      readerAccum := accum;
      RemoveSamples(count);
      ReadFacts(d, bassShift, from, count);
      heard := Heard(Stream(), bassShift, |past|);
    }

    /** One channel of stereo has every other place, the first one first. */
    lemma InPlace(out: array<int>, stereo: bool, samples: seq<int>)
      requires out.Length >= (if stereo then 2 else 1) * |samples|
      requires forall k: nat :: k < |samples| ==> out[Slot(stereo, k)] == samples[k]
      ensures !stereo ==> out[..|samples|] == samples
      ensures stereo ==> forall i: nat :: i < 2 * |samples| && i % 2 == 0 ==> out[i] == samples[i / 2]
    {
      if stereo {
        forall i: nat | i < 2 * |samples| && i % 2 == 0
          ensures out[i] == samples[i / 2]
        {
          assert out[Slot(true, i / 2)] == samples[i / 2];
        }
      } else {
        forall k: nat | k < |samples|
          ensures out[k] == samples[k]
        {
          assert out[Slot(false, k)] == samples[k];
        }
      }
    }

    method ReadOut(out: array<int>, count: nat, stereo: bool) returns (accum: int)
      requires Valid() && count <= SamplesAvail() && out != buffer
      requires out.Length >= (if stereo then 2 else 1) * count
      modifies out
      ensures accum == Accum(Stream(), bassShift, |past| + count)
      ensures forall k: nat :: k < count ==> out[Slot(stereo, k)] == Sample(Stream(), bassShift, |past|, k)
      ensures forall i :: 0 <= i < out.Length && (if stereo then i % 2 == 1 || i >= 2 * count else i >= count) ==>
                out[i] == old(out[i])
    {
      hide Accum, Sample, OutSample, Pow2, Total, Heard;
      ghost var d, from := Stream(), |past|;
      accum := readerAccum;
      for n := 0 to count
        invariant accum == Accum(d, bassShift, from + n)
        invariant forall k: nat :: k < n ==> out[Slot(stereo, k)] == Sample(d, bassShift, from, k)
        invariant forall i :: 0 <= i < out.Length && (if stereo then i % 2 == 1 || i >= 2 * n else i >= n) ==>
                    out[i] == old(out[i])
        modifies out
      {
        AccumNext(d, bassShift, from, n);
        out[Slot(stereo, n)] := OutSample(accum);
        accum := accum + buffer[n] - accum / Pow2(bassShift);
      }
    }

    /** Clocks until count samples, or a full buffer, are available. */
    method CountClocks(count: nat) returns (t: nat)
      requires Valid() && offset <= (if count > bufferSize then bufferSize else count) * 0x1_0000
      ensures var n := if count > bufferSize then bufferSize else count;
              && ResampledTime(t) >= n * 0x1_0000
              && (forall u: nat :: ResampledTime(u) >= n * 0x1_0000 ==> u >= t)
              && (factor <= 0x1_0000 && n > 0 ==> ResampledTime(t) / 0x1_0000 == n)
    {
      var n := count;
      if n > bufferSize {
        n := bufferSize;
      }
      ClocksForLeast(n, offset, factor);
      if factor <= 0x1_0000 && n > 0 {
        ExactFrame(n, factor);
      }
      var time := n * 0x1_0000;
      t := (time - offset + factor - 1) / factor;
    }
  }

  /** What a voice draws its steps with: a scale and a table of kernels. */
  datatype Synth = Synth(deltaFactor: int, impulses: array<int>, half: nat)
  {
    ghost predicate Fits(b: Buffer)
      reads b
    {
      0 < half <= 8 && impulses.Length == Size(half) && impulses != b.buffer
    }
  }

  /** The Blip_Buffer's side of one play_frame_: the sound chip, run for the clocks asked for, emits its
      steps; then exactly count samples are there, all are read, and less than one is left. */
  method PlayFrame(b: Buffer, count: nat, chip: nat -> seq<(nat, int)>, synth: Synth, out: array<int>)
    requires b.Valid() && b.Settled() && b.SamplesAvail() == 0 && b.factor <= 0x1_0000 && synth.Fits(b)
    requires 0 < count < b.bufferSize && out.Length == count && out != b.buffer
    requires forall t: nat, i: nat :: i < |chip(t)| ==> chip(t)[i].0 <= t
    modifies b, b.buffer, out
    ensures b.Valid() && b.Settled() && b.SamplesAvail() == 0
    ensures b.heard == old(b.heard) + out[..]
  {
    hide Buffer.Valid, Buffer.Stream, Zeros;
    var t := b.CountClocks(count);
    assert b.ResampledTime(t) / 0x1_0000 == count;
    DrawFrame(b, t, chip(t), synth);
    b.EndFrame(t);
    ghost var heard := b.heard;
    var n := b.ReadSamples(out, count, false);
    ReadIsAppended(heard, b.heard, out[..]);
  }

  lemma ReadIsAppended(before: seq<int>, after: seq<int>, out: seq<int>)
    requires before <= after && |after| == |before| + |out|
    requires forall k: nat :: k < |out| ==> out[Slot(false, k)] == after[|before| + k]
    ensures after == before + out
  {
    forall k: nat | k < |out|
      ensures out[k] == after[|before| + k]
    {
      assert out[Slot(false, k)] == after[|before| + k];
    }
  }

  /** The steps of a frame of t clocks. */
  method DrawFrame(b: Buffer, t: nat, steps: seq<(nat, int)>, synth: Synth)
    requires b.Valid() && b.Settled() && synth.Fits(b) && b.ResampledTime(t) / 0x1_0000 < b.bufferSize
    requires forall i: nat :: i < |steps| ==> steps[i].0 <= t
    modifies b`extent, b`charge, b.buffer
    ensures b.Valid() && b.extent <= b.ResampledTime(t) / 0x1_0000 + EXTRA
  {
    hide Buffer.Valid;
    b.WithinFrame(0, t);
    for i := 0 to |steps|
      invariant b.Valid() && b.extent <= b.ResampledTime(t) / 0x1_0000 + EXTRA
    {
      b.WithinFrame(steps[i].0, t);
      FrameMono(b.offset, b.factor, steps[i].0, t);
      b.Offset(steps[i].0, steps[i].1, synth.deltaFactor, synth.impulses, synth.half);
    }
  }

  /** Any number of frames: every one takes exactly count samples, and together they are what the buffer
      has given out. */
  method PlayFrames(b: Buffer, count: nat, frames: nat, chip: (nat, nat) -> seq<(nat, int)>, synth: Synth)
    returns (blips: seq<seq<int>>)
    requires b.Valid() && b.Settled() && b.SamplesAvail() == 0 && b.factor <= 0x1_0000 && synth.Fits(b)
    requires 0 < count < b.bufferSize
    requires forall k: nat, t: nat, i: nat :: i < |chip(k, t)| ==> chip(k, t)[i].0 <= t
    modifies b, b.buffer
    ensures b.Valid() && b.Settled() && b.SamplesAvail() == 0
    ensures |blips| == frames && forall k :: 0 <= k < frames ==> |blips[k]| == count
    ensures b.heard == old(b.heard) + Joined(blips)
  {
    hide Buffer.Valid, Joined;
    JoinedNone();
    blips := [];
    for k := 0 to frames
      invariant b.Valid() && b.Settled() && b.SamplesAvail() == 0
      invariant |blips| == k && forall j :: 0 <= j < k ==> |blips[j]| == count
      invariant b.heard == old(b.heard) + Joined(blips)
    {
      var out := new int[count];
      PlayFrame(b, count, t => chip(k, t), synth, out);
      JoinedNext(blips, out[..]);
      blips := blips + [out[..]];
    }
  }

  function Joined(frames: seq<seq<int>>): seq<int> {
    if frames == [] then [] else Joined(frames[..|frames| - 1]) + frames[|frames| - 1]
  }

  lemma JoinedNone()
    ensures Joined([]) == []
  {
  }

  lemma JoinedNext(frames: seq<seq<int>>, frame: seq<int>)
    ensures Joined(frames + [frame]) == Joined(frames) + frame
  {
    assert (frames + [frame])[..|frames|] == frames;
  }
}
