/** Compressed VGM data blocks: values of 1 to 16 bits packed back to back, or table-driven DPCM. */
module DataBlock {
  import opened Arith

  type byte = x: int | 0 <= x < 0x100

  // ---------------------------------------------------------------- the bit stream

  /** Bit k of the stream, the most significant bit of each byte first. */
  function Bit(data: seq<byte>, k: nat): nat
    requires k < 8 * |data|
  {
    data[k / 8] / Pow2(7 - k % 8) % 2
  }

  /** n bits read as a number, most significant bit first. */
  function Bits(data: seq<byte>, at: nat, n: nat): nat
    requires at + n <= 8 * |data|
  {
    if n == 0 then 0 else 2 * Bits(data, at, n - 1) + Bit(data, at + n - 1)
  }

  /** A code of n bits: groups of eight, placed from the low end up. */
  function Code(data: seq<byte>, at: nat, n: nat): nat
    requires at + n <= 8 * |data|
    decreases n
  {
    if n <= 8 then Bits(data, at, n) else Bits(data, at, 8) + 0x100 * Code(data, at + 8, n - 8)
  }

  // ---------------------------------------------------------------- bitwise or

  function BitOr(a: nat, b: nat): nat {
    if a == 0 then b else (if a % 2 == 1 || b % 2 == 1 then 1 else 0) + 2 * BitOr(a / 2, b / 2)
  }

  lemma {:induction false} BitOrZero(b: nat)
    ensures BitOr(b, 0) == b
  {
    if b > 0 {
      BitOrZero(b / 2);
    }
  }

  /** Numbers that share no bits are joined by adding them. */
  lemma {:induction false} BitOrDisjoint(hi: nat, lo: nat, m: nat)
    requires lo < Pow2(m)
    ensures BitOr(hi * Pow2(m), lo) == BitOr(lo, hi * Pow2(m)) == hi * Pow2(m) + lo
    decreases m
  {
    if m == 0 {
      BitOrZero(hi);
    } else {
      var a := hi * Pow2(m);
      assert a == 2 * (hi * Pow2(m - 1));
      BitOrDisjoint(hi, lo / 2, m - 1);
      if lo == 0 {
        BitOrZero(a);
      }
    }
  }

  // ---------------------------------------------------------------- powers of two

  lemma MulTwice(a: int, b: int)
    ensures a * (2 * b) == 2 * (a * b) == 2 * a * b
  {
  }

  lemma Pow2Next(n: nat)
    ensures Pow2(0) == 1 && Pow2(n + 1) == 2 * Pow2(n)
  {
  }

  lemma {:induction false} Pow2Add(m: nat, n: nat)
    ensures Pow2(m + n) == Pow2(m) * Pow2(n)
  {
    hide Pow2;
    Pow2Next(0);
    if m > 0 {
      Pow2Add(m - 1, n);
      Pow2Next(m - 1);
      Pow2Next(m - 1 + n);
      MulTwice(Pow2(m - 1), Pow2(n));
    }
  }

  lemma Pow2Small()
    ensures Pow2(0) == 1 && Pow2(1) == 2 && Pow2(2) == 4 && Pow2(3) == 8 && Pow2(4) == 16
    ensures Pow2(5) == 32 && Pow2(6) == 64 && Pow2(7) == 128 && Pow2(8) == 256
  {
  }

  lemma {:induction false} BitsBound(data: seq<byte>, at: nat, n: nat)
    requires at + n <= 8 * |data|
    ensures Bits(data, at, n) < Pow2(n)
  {
    if n > 0 {
      BitsBound(data, at, n - 1);
    }
  }

  lemma {:induction false} BitsConcat(data: seq<byte>, at: nat, m: nat, n: nat)
    requires at + m + n <= 8 * |data|
    ensures Bits(data, at, m + n) == Bits(data, at, m) * Pow2(n) + Bits(data, at + m, n)
  {
    hide Bit, Pow2;
    Pow2Next(0);
    if n > 0 {
      BitsConcat(data, at, m, n - 1);
      Pow2Next(n - 1);
      MulTwice(Bits(data, at, m), Pow2(n - 1));
    }
  }

  lemma ModTwice(x: nat, p: int)
    requires p > 0
    ensures x % (2 * p) == 2 * (x / 2 % p) + x % 2
  {
    DivBounds(x / 2, p);
    var q := x / 2 / p;
    assert q * (2 * p) == 2 * (q * p);
    DivIs(x, 2 * p, q);
  }

  lemma DivNat(a: nat, b: nat)
    requires b > 0
    ensures a / b >= 0
  {
    DivMono(0, a, b);
  }

  /** Bits s .. s + n - 1 of one byte, by shift and mask. */
  lemma {:induction false} BitsInByte(data: seq<byte>, pos: nat, s: nat, n: nat)
    requires pos < |data| && s + n <= 8
    ensures Bits(data, 8 * pos + s, n) == data[pos] / Pow2(8 - s - n) % Pow2(n)
  {
    hide Pow2, Bit;
    Pow2Next(0);
    if n > 0 {
      BitsInByte(data, pos, s, n - 1);
      var b, m := data[pos], 8 - s - n;
      BitInByte(data, pos, s + n - 1);
      Pow2Next(m);
      Pow2Next(n - 1);
      DivTwice(b, Pow2(m));
      DivNat(b, Pow2(m));
      ModTwice(b / Pow2(m), Pow2(n - 1));
    } else {
      ModOne(data[pos] / Pow2(8 - s));
    }
  }

  lemma ModOne(x: int)
    ensures x % 1 == 0
  {
  }

  lemma BitInByte(data: seq<byte>, pos: nat, i: nat)
    requires pos < |data| && i < 8
    ensures Bit(data, 8 * pos + i) == data[pos] / Pow2(7 - i) % 2
  {
    hide Pow2;
    assert (8 * pos + i) / 8 == pos && (8 * pos + i) % 8 == i;
  }

  /** The source's reading of n bits from bit s on, s + n <= 8, is the stream's. */
  lemma OneByte(data: seq<byte>, pos: nat, s: nat, n: nat)
    requires pos < |data| && s + n <= 8
    ensures data[pos] * Pow2(s + n) / 0x100 % Pow2(n) == Bits(data, 8 * pos + s, n)
  {
    BitsInByte(data, pos, s, n);
    ShiftDown(data[pos], s + n);
  }

  lemma ShiftDown(b: byte, sh: nat)
    requires sh <= 8
    ensures b * Pow2(sh) / 0x100 == b / Pow2(8 - sh)
  {
    hide Pow2;
    Pow2Add(8 - sh, sh);
    Pow2Small();
    Quotient(b, Pow2(sh), Pow2(8 - sh));
  }

  lemma Quotient(b: nat, p: nat, q: nat)
    requires p > 0 && q > 0 && q * p == 0x100
    ensures b * p / 0x100 == b / q
  {
    var d := b / q;
    DivBounds(b, q);
    MulMono(d * q, b, p);
    MulMono(b + 1, (d + 1) * q, p);
    MulAssoc(d, q, p);
    MulAssoc(d + 1, q, p);
    DivIs(b * p, 0x100, d);
  }

  lemma MulAssoc(a: int, b: int, c: int)
    ensures a * b * c == a * (b * c)
  {
  }

  /** With s + n > 8 it takes the rest of one byte and the start of the next. */
  lemma TwoBytes(data: seq<byte>, pos: nat, s: nat, n: nat)
    requires pos + 1 < |data| && s < 8 && n <= 8 && s + n > 8
    ensures var sh := s + n;
            var hi, lo := data[pos] * Pow2(sh) / 0x100 % Pow2(n), data[pos + 1] * Pow2(sh - 8) / 0x100 % Pow2(n);
            BitOr(hi, lo) == Bits(data, 8 * pos + s, n)
  {
    hide Bits, BitOr;
    var r := s + n - 8;
    BitsConcat(data, 8 * pos + s, 8 - s, r);
    BitsInByte(data, pos, s, 8 - s);
    BitsInByte(data, pos + 1, 0, r);
    Pow2Small();
    HighPart(data[pos], s, r);
    LowPart(data[pos + 1], r, n);
    BitOrDisjoint(data[pos] % Pow2(8 - s), data[pos + 1] / Pow2(8 - r), r);
  }

  lemma HighPart(b: byte, s: nat, r: nat)
    requires s <= 8
    ensures b * Pow2(8 + r) / 0x100 % Pow2(8 - s + r) == b % Pow2(8 - s) * Pow2(r)
  {
    var p, m := Pow2(r), Pow2(8 - s);
    Pow2Small();
    Pow2Add(r, 8);
    hide Pow2;
    MulAssoc(b, p, 0x100);
    Pow2Add(8 - s, r);
    ModScale(b, m, p);
  }

  lemma LowPart(b: byte, r: nat, n: nat)
    requires r <= n <= 8
    ensures b * Pow2(r) / 0x100 % Pow2(n) == b / Pow2(8 - r)
    ensures 0 <= b / Pow2(8 - r) < Pow2(r)
    ensures b / Pow2(8 - r) % Pow2(r) == b / Pow2(8 - r)
  {
    ShiftDown(b, r);
    Pow2Mono(r, n);
    Pow2Add(r, 8 - r);
    Pow2Small();
    DivMono(0, b, Pow2(8 - r));
    DivBounds(b, Pow2(8 - r));
    MulCancel(b / Pow2(8 - r), Pow2(r), Pow2(8 - r));
    hide Pow2;
    ModSmall(b / Pow2(8 - r), Pow2(n));
    ModSmall(b / Pow2(8 - r), Pow2(r));
  }

  lemma ModSmall(x: nat, p: nat)
    requires x < p
    ensures x % p == x
  {
  }

  lemma {:induction false} Pow2Mono(m: nat, n: nat)
    requires m <= n
    ensures Pow2(m) <= Pow2(n)
  {
    if m < n {
      Pow2Mono(m, n - 1);
    }
  }

  lemma ModScale(b: nat, m: int, p: int)
    requires m > 0 && p > 0
    ensures m * p > 0 && b * p % (m * p) == b % m * p
  {
    DivBounds(b, m);
    MulMono(1, m, p);
    MulMono(0, b % m, p);
    MulMono(b % m, m - 1, p);
    assert (m - 1) * p == m * p - p;
    assert b * p == b / m * (m * p) + b % m * p by {
      assert b == b / m * m + b % m;
      assert (b / m * m + b % m) * p == b / m * m * p + b % m * p;
    }
    DivIs(b * p, m * p, b / m);
  }

  // ---------------------------------------------------------------- reading one code

  /** A code of more than eight bits is its first group plus the rest, shifted up. */
  lemma CodeStep(data: seq<byte>, at: nat, done: nat, left: nat, inVal: nat)
    requires at + left <= 8 * |data| && left > 0
    ensures var n := if left >= 8 then 8 else left;
            inVal + Pow2(done) * Code(data, at, left)
            == (inVal + Bits(data, at, n) * Pow2(done)) + Pow2(done + n) * Code(data, at + n, left - n)
  {
    var n := if left >= 8 then 8 else left;
    Pow2Add(done, n);
    Pow2Small();
    var p, b, rest := Pow2(done), Bits(data, at, n), Code(data, at + n, left - n);
    assert Code(data, at, left) == b + Pow2(n) * rest;
    Distribute(p, b, Pow2(n), rest);
  }

  lemma Distribute(p: nat, b: nat, q: nat, rest: nat)
    ensures p * (b + q * rest) == b * p + p * q * rest
  {
    assert p * (q * rest) == p * q * rest;
  }

  lemma {:induction false} CodeBound(data: seq<byte>, at: nat, n: nat)
    requires at + n <= 8 * |data|
    ensures Code(data, at, n) < Pow2(n)
    decreases n
  {
    if n <= 8 {
      BitsBound(data, at, n);
    } else {
      CodeBound(data, at + 8, n - 8);
      BitsBound(data, at, 8);
      Pow2Small();
      Pow2Add(8, n - 8);
    }
  }

  /** Up to eight bits from byte inPos on, inShift of whose bits are used up. */
  method ReadGroup(data: seq<byte>, inPos: nat, inShift: nat, n: nat) returns (inValB: nat, pos: nat, shift: nat)
    requires inShift < 8 && n <= 8 && 8 * inPos + inShift + n <= 8 * |data| && inPos < |data|
    ensures inValB == Bits(data, 8 * inPos + inShift, n)
    ensures 8 * pos + shift == 8 * inPos + inShift + n && shift < 8
  {
    pos, shift := inPos, inShift + n;
    inValB := data[pos] * Pow2(shift) / 0x100 % Pow2(n);
    if shift <= 8 {
      OneByte(data, inPos, inShift, n);
    } else {
      TwoBytes(data, inPos, inShift, n);
    }
    if shift >= 8 {
      shift := shift - 8;
      pos := pos + 1;
      if shift > 0 {
        inValB := BitOr(inValB, data[pos] * Pow2(shift) / 0x100 % Pow2(n));
      }
    }
  }

  /** One code of bitCmp bits. */
  method ReadCode(data: seq<byte>, inPos: nat, inShift: nat, bitCmp: nat) returns (inVal: nat, pos: nat, shift: nat)
    requires inShift < 8 && 8 * inPos + inShift + bitCmp <= 8 * |data|
    ensures inVal == Code(data, 8 * inPos + inShift, bitCmp) < Pow2(bitCmp)
    ensures 8 * pos + shift == 8 * inPos + inShift + bitCmp && shift < 8
  {
    hide Bits, Code, BitOr, Pow2;
    ghost var at := 8 * inPos + inShift;
    pos, shift, inVal := inPos, inShift, 0;
    var outBit, bitsToRead := 0, bitCmp;
    CodeEmpty(data, at + bitCmp);
    CodeBound(data, at, bitCmp);
    while bitsToRead > 0
      invariant outBit + bitsToRead == bitCmp && 8 * pos + shift == at + outBit && shift < 8
      invariant inVal < Pow2(outBit)
      invariant Code(data, at, bitCmp) == inVal + Pow2(outBit) * Code(data, at + outBit, bitsToRead)
    {
      var bitReadVal := if bitsToRead >= 8 then 8 else bitsToRead;
      CodeStep(data, at + outBit, outBit, bitsToRead, inVal);
      bitsToRead := bitsToRead - bitReadVal;
      var inValB: nat;
      BitsBound(data, 8 * pos + shift, bitReadVal);
      inValB, pos, shift := ReadGroup(data, pos, shift, bitReadVal);
      BitOrDisjoint(inValB, inVal, outBit);
      JoinBound(inVal, inValB, outBit, bitReadVal);
      inVal := BitOr(inVal, inValB * Pow2(outBit));
      outBit := outBit + bitReadVal;
    }
  }

  lemma CodeEmpty(data: seq<byte>, at: nat)
    requires at <= 8 * |data|
    ensures Code(data, at, 0) == 0 && Pow2(0) == 1
  {
  }

  lemma JoinBound(lo: nat, hi: nat, m: nat, n: nat)
    requires lo < Pow2(m) && hi < Pow2(n)
    ensures lo + hi * Pow2(m) < Pow2(m + n)
  {
    Pow2Add(m, n);
    MulMono(hi, Pow2(n) - 1, Pow2(m));
    assert (Pow2(n) - 1) * Pow2(m) == Pow2(m) * Pow2(n) - Pow2(m);
  }

  // ---------------------------------------------------------------- the blocks

  datatype Table = Table(bitDec: nat, bitCmp: nat, entryCount: nat, entries: seq<byte>)

  /** The fields at the start of a compressed block. */
  datatype Header = Header(comprType: nat, dataSize: nat, bitDec: nat, bitCmp: nat, subType: nat, addVal: nat)
  {
    /** What the source takes for granted: values of one or two bytes, codes no longer than them. */
    predicate WellFormed() {
      1 <= bitDec <= 16 && bitCmp <= bitDec
    }

    function ValSize(): nat { (bitDec + 7) / 8 }
  }

  const HEADER_SIZE: nat := 0x0A

  function ReadHeader(data: seq<byte>): Header
    requires |data| >= HEADER_SIZE
  {
    Header(data[0], ReadLE16(data[1], data[2]) + ReadLE16(data[3], data[4]) * 0x1_0000,
           data[5], data[6], data[7], ReadLE16(data[8], data[9]))
  }

  function ReadLE16(low: nat, high: nat): nat {
    low + high * 0x100
  }

  /** The table has an entry for every code. */
  predicate Covers(table: Table, h: Header) {
    Pow2(h.bitCmp) * h.ValSize() <= |table.entries|
  }

  function Entry(table: Table, valSize: nat, code: nat): nat {
    if valSize == 1 && code < |table.entries| then table.entries[code]
    else if valSize == 2 && 2 * code + 1 < |table.entries|
    then ReadLE16(table.entries[2 * code], table.entries[2 * code + 1])
    else 0
  }

  /** That is exactly what it takes for every code's entry to lie in the table, so that none reads as 0. */
  lemma CoversExactly(table: Table, h: Header)
    requires h.WellFormed()
    ensures Covers(table, h) <==>
              forall code: nat :: code < Pow2(h.bitCmp) ==> InTable(table, h.ValSize(), code)
  {
    var n, size := Pow2(h.bitCmp), h.ValSize();
    forall code: nat | code < n && Covers(table, h)
      ensures InTable(table, size, code)
    {
      MulMono(code + 1, n, size);
    }
    if !Covers(table, h) {
      assert !InTable(table, size, n - 1);
    }
  }

  predicate InTable(table: Table, valSize: nat, code: nat) {
    (code + 1) * valSize <= |table.entries|
  }

  /** The bit at which the k-th code starts. */
  function StartOf(h: Header, k: nat): nat {
    8 * HEADER_SIZE + k * h.bitCmp
  }

  /** The k-th code of a block. */
  function CodeAt(data: seq<byte>, h: Header, k: nat): nat {
    if StartOf(h, k) + h.bitCmp <= 8 * |data| then Code(data, StartOf(h, k), h.bitCmp) else 0
  }

  /** The k-th value of an n-bit block. */
  function Value(data: seq<byte>, h: Header, table: Table, k: nat): int
    requires h.WellFormed()
  {
    match h.subType
    case 0 => CodeAt(data, h, k) + h.addVal
    case 1 => CodeAt(data, h, k) * Pow2(h.bitDec - h.bitCmp) + h.addVal
    case 2 => Entry(table, h.ValSize(), CodeAt(data, h, k))
    case _ => 0
  }

  /** Sum of the first n table deltas of a DPCM block. */
  function DeltaSum(data: seq<byte>, h: Header, table: Table, n: nat): nat {
    if n == 0 then 0 else DeltaSum(data, h, table, n - 1) + Entry(table, h.ValSize(), CodeAt(data, h, n - 1))
  }

  /** The k-th value of a DPCM block: the start plus all deltas up to its own, cut to bitDec bits. */
  function DpcmValue(data: seq<byte>, h: Header, table: Table, k: nat): nat {
    (h.addVal + DeltaSum(data, h, table, k + 1)) % Pow2(h.bitDec)
  }

  /** The k-th value stored is v, little-endian. */
  predicate StoredAt(out: seq<byte>, valSize: nat, k: nat, v: int) {
    && (k + 1) * valSize <= |out|
    && (valSize == 1 ==> out[k] == v % 0x100)
    && (valSize == 2 ==> out[2 * k] == v % 0x100 && out[2 * k + 1] == v / 0x100 % 0x100)
  }

  /** How many values are decoded: until the output is full or a code would start past the input. */
  ghost predicate DecodedCount(h: Header, dataSize: nat, n: nat) {
    && (forall k: nat :: k < n ==> Started(h, dataSize, k))
    && !Started(h, dataSize, n)
  }

  predicate Started(h: Header, dataSize: nat, k: nat) {
    k * h.ValSize() < h.dataSize && StartOf(h, k) / 8 < dataSize
  }

  /** Stores the n-th value, keeping those before it. */
  method Store(out: array<byte>, valSize: nat, ghost n: nat, outPos: nat, v: int)
    requires 1 <= valSize <= 2 && outPos == n * valSize && outPos + valSize <= out.Length
    modifies out
    ensures StoredAt(out[..], valSize, n, v)
    ensures forall k: nat, w: int :: k < n && old(StoredAt(out[..], valSize, k, w)) ==> StoredAt(out[..], valSize, k, w)
    ensures forall i :: outPos + valSize <= i < out.Length ==> out[i] == old(out[i])
  {
    out[outPos] := v % 0x100;
    if valSize == 2 {
      out[outPos + 1] := v / 0x100 % 0x100;
    }
    assert out[..outPos] == old(out[..outPos]);
  }

  /** Where the k-th code is, and that the input holds it: at most two bytes past the block are looked at. */
  lemma CodeInput(data: seq<byte>, h: Header, dataSize: nat, k: nat, pos: nat, shift: nat)
    requires h.WellFormed() && dataSize + 2 <= |data|
    requires 8 * pos + shift == StartOf(h, k) && shift < 8 && pos < dataSize
    ensures 8 * pos + shift + h.bitCmp <= 8 * |data|
    ensures CodeAt(data, h, k) == Code(data, 8 * pos + shift, h.bitCmp)
    ensures StartOf(h, k + 1) == StartOf(h, k) + h.bitCmp
    ensures StartOf(h, k) / 8 == pos
  {
    assert (k + 1) * h.bitCmp == k * h.bitCmp + h.bitCmp;
  }

  lemma StartedIs(h: Header, dataSize: nat, k: nat, pos: nat, shift: nat)
    requires 8 * pos + shift == StartOf(h, k) && shift < 8
    ensures Started(h, dataSize, k) <==> k * h.ValSize() < h.dataSize && pos < dataSize
  {
  }

  /** n-bit blocks: decodes every value that starts within the input. */
  method DecodeBits(data: seq<byte>, dataSize: nat, h: Header, table: Table, out: array<byte>) returns (ghost n: nat)
    requires h.WellFormed() && dataSize + 2 <= |data| && h.dataSize + 1 <= out.Length
    modifies out
    ensures DecodedCount(h, dataSize, n)
    ensures forall k: nat :: k < n ==> StoredAt(out[..], h.ValSize(), k, Value(data, h, table, k))
    ensures forall i :: 0 <= i < out.Length && n * h.ValSize() <= i ==> out[i] == old(out[i])
  {
    hide StoredAt, Value, Started, StartOf;
    var valSize := h.ValSize();
    var inPos, inShift, outPos, outVal := HEADER_SIZE, 0, 0, 0;
    n := 0;
    StartOfFirst(h);
    StartedIs(h, dataSize, n, inPos, inShift);
    while outPos < h.dataSize && inPos < dataSize
      invariant outPos == n * valSize && 8 * inPos + inShift == StartOf(h, n) && inShift < 8
      invariant Started(h, dataSize, n) <==> outPos < h.dataSize && inPos < dataSize
      invariant h.subType > 2 ==> outVal == 0
      invariant forall k: nat :: k < n ==> Started(h, dataSize, k)
      invariant forall k: nat :: k < n ==> StoredAt(out[..], valSize, k, Value(data, h, table, k))
      invariant forall i :: outPos <= i < out.Length ==> out[i] == old(out[i])
      decreases h.dataSize - outPos
    {
      outVal, inPos, inShift := NextValue(data, dataSize, h, table, n, inPos, inShift, outVal);
      Store(out, valSize, n, outPos, outVal);
      outPos := outPos + valSize;
      n := n + 1;
      StartedIs(h, dataSize, n, inPos, inShift);
    }
  }

  lemma StartOfFirst(h: Header)
    ensures StartOf(h, 0) == 8 * HEADER_SIZE
  {
  }

  method NextValue(data: seq<byte>, dataSize: nat, h: Header, table: Table, ghost n: nat,
                   inPos: nat, inShift: nat, before: int)
    returns (outVal: int, pos: nat, shift: nat)
    requires h.WellFormed() && dataSize + 2 <= |data| && (h.subType > 2 ==> before == 0)
    requires 8 * inPos + inShift == StartOf(h, n) && inShift < 8 && inPos < dataSize
    ensures outVal == Value(data, h, table, n) && (h.subType > 2 ==> outVal == 0)
    ensures 8 * pos + shift == StartOf(h, n + 1) && shift < 8
  {
    hide StartOf;
    CodeInput(data, h, dataSize, n, inPos, inShift);
    var inVal: nat;
    inVal, pos, shift := ReadCode(data, inPos, inShift, h.bitCmp);
    outVal := before;
    match h.subType {
      case 0 => outVal := inVal + h.addVal;
      case 1 => outVal := inVal * Pow2(h.bitDec - h.bitCmp) + h.addVal;
      case 2 => outVal := Entry(table, h.ValSize(), inVal);
      case _ =>
    }
  }

  lemma ModAdd(x: nat, d: nat, m: int)
    requires m > 0
    ensures (x % m + d) % m == (x + d) % m
  {
    DivBounds(x, m);
    DivShift(x % m + d, x / m, m);
    assert x + d == x % m + d + x / m * m;
    assert ((x % m + d) / m + x / m) * m == (x % m + d) / m * m + x / m * m;
  }

  lemma DpcmStep(data: seq<byte>, h: Header, table: Table, n: nat, outVal: nat)
    requires outVal == if n == 0 then h.addVal else DpcmValue(data, h, table, n - 1)
    ensures (outVal + Entry(table, h.ValSize(), CodeAt(data, h, n))) % Pow2(h.bitDec) == DpcmValue(data, h, table, n)
  {
    assert DeltaSum(data, h, table, n + 1)
           == DeltaSum(data, h, table, n) + Entry(table, h.ValSize(), CodeAt(data, h, n));
    if n > 0 {
      ModAdd(h.addVal + DeltaSum(data, h, table, n), Entry(table, h.ValSize(), CodeAt(data, h, n)), Pow2(h.bitDec));
    }
  }

  method NextDpcm(data: seq<byte>, dataSize: nat, h: Header, table: Table, ghost n: nat,
                  inPos: nat, inShift: nat, before: nat)
    returns (outVal: nat, pos: nat, shift: nat)
    requires h.WellFormed() && dataSize + 2 <= |data|
    requires 8 * inPos + inShift == StartOf(h, n) && inShift < 8 && inPos < dataSize
    requires before == if n == 0 then h.addVal else DpcmValue(data, h, table, n - 1)
    ensures outVal == DpcmValue(data, h, table, n)
    ensures 8 * pos + shift == StartOf(h, n + 1) && shift < 8
  {
    hide StartOf, DpcmValue, Entry;
    CodeInput(data, h, dataSize, n, inPos, inShift);
    DpcmStep(data, h, table, n, before);
    var inVal: nat;
    inVal, pos, shift := ReadCode(data, inPos, inShift, h.bitCmp);
    outVal := (before + Entry(table, h.ValSize(), inVal)) % Pow2(h.bitDec);
  }

  /** DPCM blocks. */
  method DecodeDpcm(data: seq<byte>, dataSize: nat, h: Header, table: Table, out: array<byte>) returns (ghost n: nat)
    requires h.WellFormed() && dataSize + 2 <= |data| && h.dataSize + 1 <= out.Length
    modifies out
    ensures DecodedCount(h, dataSize, n)
    ensures forall k: nat :: k < n ==> StoredAt(out[..], h.ValSize(), k, DpcmValue(data, h, table, k))
    ensures forall i :: 0 <= i < out.Length && n * h.ValSize() <= i ==> out[i] == old(out[i])
  {
    hide StoredAt, DpcmValue, Started, StartOf, Entry;
    var valSize := h.ValSize();
    var inPos, inShift, outPos, outVal := HEADER_SIZE, 0, 0, h.addVal;
    n := 0;
    StartOfFirst(h);
    StartedIs(h, dataSize, n, inPos, inShift);
    while outPos < h.dataSize && inPos < dataSize
      invariant outPos == n * valSize && 8 * inPos + inShift == StartOf(h, n) && inShift < 8
      invariant Started(h, dataSize, n) <==> outPos < h.dataSize && inPos < dataSize
      invariant outVal == if n == 0 then h.addVal else DpcmValue(data, h, table, n - 1)
      invariant forall k: nat :: k < n ==> Started(h, dataSize, k)
      invariant forall k: nat :: k < n ==> StoredAt(out[..], valSize, k, DpcmValue(data, h, table, k))
      invariant forall i :: outPos <= i < out.Length ==> out[i] == old(out[i])
      decreases h.dataSize - outPos
    {
      outVal, inPos, inShift := NextDpcm(data, dataSize, h, table, n, inPos, inShift, outVal);
      Store(out, valSize, n, outPos, outVal);
      outPos := outPos + valSize;
      n := n + 1;
      StartedIs(h, dataSize, n, inPos, inShift);
    }
  }

  /** What a block asks of the table that has been loaded. */
  predicate TableFits(h: Header, table: Table) {
    table.entryCount > 0 && h.bitDec == table.bitDec && h.bitCmp == table.bitCmp
  }

  /** The blocks that are refused: of an unknown kind, or coded by a table that does not fit. */
  predicate Refused(h: Header, table: Table) {
    h.comprType > 1 || ((h.comprType == 1 || h.subType == 2) && !TableFits(h, table))
  }

  method DecompressDataBlk(data: seq<byte>, dataSize: nat, table: Table, out: array<byte>)
    returns (ok: bool, bankSize: nat, ghost n: nat)
    requires HEADER_SIZE <= |data| && dataSize + 2 <= |data|
    requires !Refused(ReadHeader(data), table) ==>
               ReadHeader(data).WellFormed() && ReadHeader(data).dataSize + 1 <= out.Length
    modifies out
    ensures var h := ReadHeader(data);
      && ok == !Refused(h, table)
      && ok == (if data[0] == 1 || (data[0] == 0 && data[7] == 2)
                then table.entryCount > 0 && table.bitDec == data[5] && table.bitCmp == data[6] else data[0] == 0)
      && bankSize == (if h.comprType <= 1 && Refused(h, table) then 0 else h.dataSize)
      && (ok ==> DecodedCount(h, dataSize, n))
      && (forall k: nat :: ok && k < n ==>
            StoredAt(out[..], h.ValSize(), k,
                     if h.comprType == 0 then Value(data, h, table, k) else DpcmValue(data, h, table, k)))
      && (forall i :: 0 <= i < out.Length && (ok ==> n * h.ValSize() <= i) ==> out[i] == old(out[i]))
  {
    hide StoredAt, Value, DpcmValue, DecodedCount;
    var h := ReadHeader(data);
    bankSize, n := h.dataSize, 0;
    if h.comprType == 0 {
      if h.subType == 2 && !TableFits(h, table) {
        return false, 0, 0;
      }
      n := DecodeBits(data, dataSize, h, table, out);
      ok := true;
    } else if h.comprType == 1 {
      if !TableFits(h, table) {
        return false, 0, 0;
      }
      n := DecodeDpcm(data, dataSize, h, table, out);
      ok := true;
    } else {
      ok := false;
    }
  }

  /** With enough input every value of the block is decoded. */
  lemma AllDecoded(h: Header, dataSize: nat, n: nat)
    requires h.WellFormed() && DecodedCount(h, dataSize, n)
    requires h.dataSize % h.ValSize() == 0 && StartOf(h, h.dataSize / h.ValSize()) <= 8 * dataSize && h.bitCmp > 0
    ensures n == h.dataSize / h.ValSize()
  {
    var all := h.dataSize / h.ValSize();
    if n < all {
      MulMono(n + 1, all, h.bitCmp);
      assert (n + 1) * h.bitCmp == n * h.bitCmp + h.bitCmp;
      MulMono(n + 1, all, h.ValSize());
      assert (n + 1) * h.ValSize() == n * h.ValSize() + h.ValSize();
      DivBounds(StartOf(h, n), 8);
    }
    DivBounds(h.dataSize, h.ValSize());
    assert !Started(h, dataSize, all);
  }
}
