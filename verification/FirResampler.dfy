/** Fir_Resampler: a polyphase filter that is fed and read in pieces. Filter phase, skip pattern and
    leftover input carry over between calls. */
module FirResampler {
  import opened Arith
  import opened BlipKernel

  /** What time_ratio sets up: res filter phases of width points, and the input step between outputs,
      lengthened by one pair at the phases whose bit is set in skipBits. */
  datatype Filter = Filter(width: nat, res: nat, step: nat, skipBits: nat, impulses: seq<int>)
  {
    /** No step may pass over input that has not been written yet. */
    ghost predicate Valid() {
      && width >= 4 && width % 2 == 0 && 0 < res <= 32 && |impulses| == res * width
      && step % 2 == 0 && step + 2 <= 2 * width
    }

    function Bit(phase: nat): nat {
      skipBits / Pow2(phase) % 2
    }

    /** Where in the input the k-th output's window begins. */
    ghost function Pos(k: nat): nat
      requires res > 0
    {
      if k == 0 then 0 else Pos(k - 1) + step + 2 * Bit((k - 1) % res)
    }

    /** The first n points of filter phase p against one channel of the input from position at. */
    ghost function Dot(p: nat, input: seq<int>, at: nat, channel: nat, n: nat): int
      requires channel < 2 && p * width + n <= |impulses|
      requires at + 2 * n <= |input|
    {
      if n == 0 then 0
      else Dot(p, input, at, channel, n - 1) + impulses[p * width + n - 1] * input[at + 2 * (n - 1) + channel]
    }

    ghost predicate Ready(input: seq<int>, k: nat)
      requires Valid()
    {
      Pos(k) + 2 * width <= |input|
    }

    /** The k-th output: the dot product of its phase with its window, scaled and cut to 16 bits. */
    ghost function Out(input: seq<int>, k: nat, channel: nat): int
      requires Valid() && Ready(input, k) && channel < 2
    {
      RowFits(k % res);
      Int16(Dot(k % res, input, Pos(k), channel, width) / 0x8000)
    }

    /** Of the dot product the upper part is taken, as a 16-bit number. */
    lemma OutIs(input: seq<int>, k: nat, channel: nat) returns (product: int, high: int)
      requires Valid() && Ready(input, k) && channel < 2
      ensures k % res * width + width <= |impulses|
      ensures product == Dot(k % res, input, Pos(k), channel, width)
      ensures high * 0x8000 <= product < high * 0x8000 + 0x8000
      ensures -0x8000 <= Out(input, k, channel) < 0x8000 && (high - Out(input, k, channel)) % 0x1_0000 == 0
    {
      RowFits(k % res);
      product := Dot(k % res, input, Pos(k), channel, width);
      high := product / 0x8000;
      var q := high / 0x1_0000;
      DivIs(high - Int16(high), 0x1_0000, if high % 0x1_0000 < 0x8000 then q else q + 1);
    }

    lemma PosNext(k: nat)
      requires k < res
      ensures Pos(k + 1) == Pos(k) + step + 2 * Bit(k)
      ensures Ones(skipBits, k + 1) == Ones(skipBits, k) + Bit(k)
    {
      hide Ones;
      OnesNext(skipBits, k);
      ModIs(k, res, 0);
    }

    lemma RoundNext(k: nat)
      requires k < res && Pos(k) == k * step + 2 * Ones(skipBits, k)
      ensures Pos(k + 1) == (k + 1) * step + 2 * Ones(skipBits, k + 1)
    {
      hide Ones, Bit, Pos;
      PosNext(k);
    }

    /** One round through the phases takes a step for each, and a pair more for each bit set. */
    lemma {:induction false} PosInRound(k: nat)
      requires res > 0 && k <= res
      ensures Pos(k) == k * step + 2 * Ones(skipBits, k)
    {
      if k > 0 {
        hide Ones, Bit, Pos;
        PosInRound(k - 1);
        RoundNext(k - 1);
      }
    }

    lemma RowFits(p: nat)
      requires Valid() && p < res
      ensures p * width + width <= |impulses|
    {
      MulMono(p + 1, res, width);
      assert (p + 1) * width == p * width + width;
    }

    lemma {:induction false} PosMono(j: nat, k: nat)
      requires res > 0 && j <= k
      ensures Pos(j) <= Pos(k)
    {
      if j < k {
        PosMono(j, k - 1);
      }
    }

    /** The skip pattern repeats every res outputs. */
    lemma {:induction false} PosPeriodic(k: nat)
      requires res > 0
      ensures Pos(k + res) == Pos(res) + Pos(k)
    {
      if k > 0 {
        PosPeriodic(k - 1);
        ModWhole(k - 1, res);
      }
    }

    /** So the window of output cycle * res + p lies exactly cycle periods after that of output p: the
        fractional ratio does not drift. */
    lemma {:induction false} PosClosedForm(cycle: nat, p: nat)
      requires res > 0
      ensures cycle * res + p >= 0 && Pos(cycle * res + p) == cycle * Pos(res) + Pos(p)
    {
      if cycle > 0 {
        PosClosedForm(cycle - 1, p);
        assert cycle * res + p == (cycle - 1) * res + p + res;
        PosPeriodic((cycle - 1) * res + p);
        assert cycle * Pos(res) == (cycle - 1) * Pos(res) + Pos(res);
      }
    }

    lemma {:induction false} DotPrefix(p: nat, input: seq<int>, later: seq<int>, shift: nat, at: nat, channel: nat,
        n: nat)
      requires channel < 2 && p * width + n <= |impulses| && at + 2 * n <= |input| && shift + |input| <= |later|
      requires forall i :: 0 <= i < |input| ==> later[shift + i] == input[i]
      ensures Dot(p, later, shift + at, channel, n) == Dot(p, input, at, channel, n)
    {
      if n > 0 {
        DotPrefix(p, input, later, shift, at, channel, n - 1);
        assert later[shift + (at + 2 * (n - 1) + channel)] == input[at + 2 * (n - 1) + channel];
      }
    }

    /** Input that arrives later cannot change an output. */
    lemma OutPrefix(input: seq<int>, later: seq<int>, k: nat, channel: nat)
      requires Valid() && channel < 2 && input <= later && Ready(input, k)
      ensures Ready(later, k) && Out(later, k, channel) == Out(input, k, channel)
    {
      RowFits(k % res);
      DotPrefix(k % res, input, later, 0, Pos(k), channel, width);
    }
  }

  /** The bits set among the n lowest. */
  function Ones(bits: nat, n: nat): nat {
    if n == 0 then 0 else bits % 2 + Ones(bits / 2, n - 1)
  }

  lemma {:induction false} OnesNext(bits: nat, n: nat)
    ensures Ones(bits, n + 1) == Ones(bits, n) + bits / Pow2(n) % 2
  {
    if n > 0 {
      OnesNext(bits / 2, n - 1);
      ShiftNext(bits, n - 1);
    } else {
      assert Pow2(0) == 1;
    }
  }

  lemma ModWhole(a: nat, m: nat)
    requires m > 0
    ensures (a + m) % m == a % m
  {
    DivShift(a, 1, m);
  }

  class Resampler {
    const filter: Filter
    const buf: array<int>
    var writePos: nat
    var impPhase: nat
    ghost var input: seq<int>        // everything written, after the silence put in front
    ghost var outputs: nat           // pairs read

    /** The buffer holds the input from the next output's window on. */
    ghost predicate Valid()
      reads this, buf
    {
      && filter.Valid() && writePos <= buf.Length
      && impPhase == outputs % filter.res
      && filter.Pos(outputs) + writePos == |input|
      && buf[..writePos] == input[filter.Pos(outputs)..]
    }

    /** buffer_size and clear: one pair short of a window of silence. */
    constructor (filter: Filter, newSize: nat)
      requires filter.Valid()
      ensures Valid() && fresh(buf) && this.filter == filter && outputs == 0
      ensures input == seq(2 * filter.width - 2, _ => 0) && buf.Length == newSize + 2 * filter.width - 2
    {
      hide Filter.Bit, Filter.Dot;
      this.filter := filter;
      var offset := 2 * filter.width - 2;
      buf := new int[newSize + offset](_ => 0);
      writePos, impPhase := offset, 0;
      input, outputs := seq(offset, _ => 0), 0;
      new;
      assert buf[..writePos] == input;
    }

    /** The caller's stores behind buffer(), then write. */
    method Write(samples: seq<int>)
      requires Valid() && writePos + |samples| <= buf.Length
      modifies this`writePos, this`input, buf
      ensures Valid() && input == old(input) + samples && writePos == old(writePos) + |samples|
    {
      forall i | 0 <= i < |samples| {
        buf[writePos + i] := samples[i];
      }
      writePos := writePos + |samples|;
      input := input + samples;
      assert buf[..writePos] == old(buf[..writePos]) + samples;
    }

    /** The inner loop: two filter points and two pairs a pass. */
    method Convolve(imp: nat, at: nat, ghost p: nat) returns (l: int, r: int)
      requires filter.Valid() && imp == p * filter.width && p < filter.res
               && at + 2 * filter.width <= writePos <= buf.Length
      ensures imp + filter.width <= |filter.impulses|
      ensures l == filter.Dot(p, buf[..writePos], at, 0, filter.width)
      ensures r == filter.Dot(p, buf[..writePos], at, 1, filter.width)
    {
      filter.RowFits(p);
      l, r := 0, 0;
      ghost var s := buf[..writePos];
      var i := at;
      var point := imp;
      for n := 0 to filter.width / 2
        invariant i == at + 4 * n && point == imp + 2 * n
        invariant l == filter.Dot(p, s, at, 0, 2 * n) && r == filter.Dot(p, s, at, 1, 2 * n)
      {
        var pt0 := filter.impulses[point];
        l := l + pt0 * buf[i];
        r := r + pt0 * buf[i + 1];
        assert l == filter.Dot(p, s, at, 0, 2 * n + 1) && r == filter.Dot(p, s, at, 1, 2 * n + 1);
        var pt1 := filter.impulses[point + 1];
        point := point + 2;
        l := l + pt1 * buf[i + 2];
        r := r + pt1 * buf[i + 3];
        i := i + 4;
      }
    }

    /** One output pair, given the filter's and the skip pattern's present state. */
    method ReadPair(imp: nat, skip: nat, at: nat, ghost k: nat) returns (l: int, r: int, next: nat)
      requires filter.Valid() && writePos <= buf.Length && at + 2 * filter.width <= writePos
      requires imp == k % filter.res * filter.width && skip == filter.skipBits / Pow2(k % filter.res)
      requires filter.Pos(k) + writePos - at == |input| && filter.Pos(k) >= at
      requires buf[..writePos] == input[filter.Pos(k) - at..]
      ensures filter.Ready(input, k) && l == filter.Out(input, k, 0) && r == filter.Out(input, k, 1)
      ensures next - at == filter.Pos(k + 1) - filter.Pos(k) && next <= writePos
    {
      hide filter.Dot, Int16;
      l, r := Convolve(imp, at, k % filter.res);
      ghost var shift := filter.Pos(k) - at;
      filter.DotPrefix(k % filter.res, buf[..writePos], input, shift, at, 0, filter.width);
      filter.DotPrefix(k % filter.res, buf[..writePos], input, shift, at, 1, filter.width);
      l, r := Int16(l / 0x8000), Int16(r / 0x8000);
      next := at + skip % 2 * 2 + filter.step;
    }

    /** The loop variables of read when output k is next. */
    ghost predicate AtOutput(k: nat, imp: nat, skip: nat, remain: nat)
      requires filter.Valid()
    {
      && remain == filter.res - k % filter.res
      && imp == k % filter.res * filter.width
      && skip == filter.skipBits / Pow2(k % filter.res)
    }

    lemma AtNext(k: nat, imp: nat, skip: nat, remain: nat)
      requires filter.Valid() && AtOutput(k, imp, skip, remain)
      ensures remain > 0
      ensures if remain == 1 then AtOutput(k + 1, 0, filter.skipBits, filter.res)
              else AtOutput(k + 1, imp + filter.width, skip / 2, remain - 1)
    {
      ModNext(k, filter.res);
      assert Pow2(0) == 1;
      hide Pow2;
      var r := k % filter.res;
      if r + 1 == filter.res {
        assert filter.skipBits / Pow2(0) == filter.skipBits;
      } else {
        ShiftNext(filter.skipBits, r);
        assert (r + 1) * filter.width == r * filter.width + filter.width;
      }
    }

    /** Steps them to the next output, back to the first phase after the last. */
    method NextPhase(imp: nat, skip: nat, remain: nat, ghost k: nat) returns (imp1: nat, skip1: nat, remain1: nat)
      requires filter.Valid() && AtOutput(k, imp, skip, remain)
      ensures AtOutput(k + 1, imp1, skip1, remain1)
    {
      AtNext(k, imp, skip, remain);
      hide AtOutput;
      imp1, skip1, remain1 := imp + filter.width, skip / 2, remain - 1;
      if remain1 == 0 {
        imp1, skip1, remain1 := 0, filter.skipBits, filter.res;
      }
    }

    /** s holds output first + k as its k-th pair. */
    ghost predicate OutputAt(s: seq<int>, input: seq<int>, first: nat, k: nat)
      requires filter.Valid() && 2 * k + 1 < |s|
    {
      && filter.Ready(input, first + k)
      && s[2 * k] == filter.Out(input, first + k, 0)
      && s[2 * k + 1] == filter.Out(input, first + k, 1)
    }

    /** s starts with n output pairs from the first on. */
    ghost predicate Delivered(s: seq<int>, input: seq<int>, first: nat, n: nat)
      requires filter.Valid()
    {
      2 * n <= |s| && forall k: nat :: k < n ==> OutputAt(s, input, first, k)
    }

    lemma SamePair(s: seq<int>, t: seq<int>, input: seq<int>, first: nat, k: nat)
      requires filter.Valid() && 2 * k + 2 <= |s| && 2 * k + 2 <= |t| && t[2 * k] == s[2 * k]
               && t[2 * k + 1] == s[2 * k + 1]
      requires OutputAt(s, input, first, k)
      ensures OutputAt(t, input, first, k)
    {
      hide filter.Dot, filter.Out, filter.Pos;
    }

    lemma DeliveredNext(s: seq<int>, t: seq<int>, input: seq<int>, first: nat, n: nat)
      requires filter.Valid() && Delivered(s, input, first, n)
      requires |t| == |s| && 2 * n + 2 <= |s| && t[..2 * n] == s[..2 * n] && OutputAt(t, input, first, n)
      ensures Delivered(t, input, first, n + 1)
    {
      hide OutputAt;
      forall k: nat | k < n + 1
        ensures OutputAt(t, input, first, k)
      {
        if k < n {
          assert t[2 * k] == t[..2 * n][2 * k] && t[2 * k + 1] == t[..2 * n][2 * k + 1];
          assert s[2 * k] == s[..2 * n][2 * k] && s[2 * k + 1] == s[..2 * n][2 * k + 1];
          SamePair(s, t, input, first, k);
        }
      }
    }

    /** read: as many output pairs as are wanted and have their whole window written. Each is the
        output the whole input stream gives at its place, however input and reads were cut up. */
    method Read(out: array<int>, count: nat) returns (n: nat)
      requires Valid() && out != buf && count <= out.Length
      modifies this`writePos, this`impPhase, this`outputs, buf, out
      ensures Valid() && input == old(input) && outputs == old(outputs) + n && 2 * n <= count
      ensures Delivered(out[..], input, old(outputs), n)
      ensures n == count / 2 || !filter.Ready(input, outputs)
    {
      hide filter.Dot, filter.Out, Delivered;
      var at, remain;
      n, at, remain := ReadPairs(out, count / 2);
      impPhase := filter.res - remain;
      outputs := outputs + n;
      MoveDown(at);
    }

    method ReadPairs(out: array<int>, pairs: nat) returns (n: nat, at: nat, remain: nat)
      requires Valid() && out != buf && 2 * pairs <= out.Length
      modifies out
      ensures n <= pairs && Delivered(out[..], input, outputs, n)
      ensures remain == filter.res - (outputs + n) % filter.res
      ensures at + filter.Pos(outputs) == filter.Pos(outputs + n) && at <= writePos
      ensures n == pairs || at + 2 * filter.width > writePos
    {
      hide filter.Dot, filter.Out, filter.Pos, AtOutput, Delivered;
      n, at := 0, 0;
      var imp, skip;
      imp, skip, remain := FirstPhase();
      NoneDelivered(out[..]);
      var count: int := pairs;
      var more := writePos >= 2 * filter.width;
      while more
        invariant count >= 0 && n + count == pairs
        invariant AtOutput(outputs + n, imp, skip, remain)
        invariant at + filter.Pos(outputs) == filter.Pos(outputs + n) && at <= writePos
        invariant more == (at + 2 * filter.width <= writePos)
        invariant Delivered(out[..], input, outputs, n)
        modifies out
        decreases count
      {
        count := count - 1;
        if count < 0 {
          break;
        }
        imp, skip, remain, at := ReadNext(out, n, imp, skip, remain, at);
        n := n + 1;
        more := at + 2 * filter.width <= writePos;
      }
      Unfold(outputs + n, imp, skip, remain);
    }

    lemma NoneDelivered(s: seq<int>)
      requires filter.Valid()
      ensures Delivered(s, input, outputs, 0)
    {
    }

    /** The body of the loop. */
    method ReadNext(out: array<int>, n: nat, imp: nat, skip: nat, remain: nat, at: nat)
      returns (imp1: nat, skip1: nat, remain1: nat, at1: nat)
      requires Valid() && out != buf && 2 * n + 2 <= out.Length && Delivered(out[..], input, outputs, n)
      requires AtOutput(outputs + n, imp, skip, remain) && at + 2 * filter.width <= writePos
      requires at + filter.Pos(outputs) == filter.Pos(outputs + n)
      modifies out
      ensures Delivered(out[..], input, outputs, n + 1) && AtOutput(outputs + n + 1, imp1, skip1, remain1)
      ensures at1 + filter.Pos(outputs) == filter.Pos(outputs + n + 1) && at1 <= writePos
    {
      hide filter.Dot, filter.Out, filter.Pos, AtOutput, Delivered;
      ghost var k, before := outputs + n, out[..];
      Unfold(k, imp, skip, remain);
      var l, r, next := ReadPair(imp, skip, at, k);
      imp1, skip1, remain1 := NextPhase(imp, skip, remain, k);
      out[2 * n] := l;
      out[2 * n + 1] := r;
      at1 := next;
      DeliveredNext(before, out[..], input, outputs, n);
    }

    lemma Unfold(k: nat, imp: nat, skip: nat, remain: nat)
      requires filter.Valid() && AtOutput(k, imp, skip, remain)
      ensures remain == filter.res - k % filter.res && imp == k % filter.res * filter.width
      ensures skip == filter.skipBits / Pow2(k % filter.res)
    {
    }

    method FirstPhase() returns (imp: nat, skip: nat, remain: nat)
      requires Valid()
      ensures AtOutput(outputs, imp, skip, remain)
    {
      DivMono(0, filter.skipBits, Pow2(impPhase));
      imp, skip, remain := impPhase * filter.width, filter.skipBits / Pow2(impPhase), filter.res - impPhase;
    }

    /** memmove of the input from position at to the front. */
    method MoveDown(at: nat)
      requires at <= writePos <= buf.Length
      modifies this`writePos, buf
      ensures writePos == old(writePos) - at && buf[..writePos] == old(buf[at..writePos])
    {
      var left := writePos - at;
      for i := 0 to left
        invariant forall j :: 0 <= j < i ==> buf[j] == old(buf[j + at])
        invariant forall j :: i <= j < buf.Length ==> buf[j] == old(buf[j])
        modifies buf
      {
        buf[i] := buf[i + at];
      }
      writePos := left;
    }
  }
}
