/** The packing that the n-bit data block format describes, as the inverse of its decoder's bit stream. */
module DataBlockPacking {
  import opened Arith
  import opened DataBlock

  type bit = x: int | 0 <= x < 2

  /** The n low bits of v, most significant bit first. */
  function Digits(v: nat, n: nat): (bits: seq<bit>)
    ensures |bits| == n
  {
    if n == 0 then [] else Digits(v / 2, n - 1) + [v % 2]
  }

  /** A code of n bits: its low eight bits first. */
  function CodeDigits(v: nat, n: nat): (bits: seq<bit>)
    ensures |bits| == n
  {
    if n <= 8 then Digits(v, n) else Digits(v % 0x100, 8) + CodeDigits(v / 0x100, n - 8)
  }

  /** Codes of n bits, back to back. */
  function Stream(codes: seq<nat>, n: nat): (bits: seq<bit>)
    ensures |bits| == |codes| * n
  {
    if codes == [] then []
    else
      var m := |codes| - 1;
      assert m * n + n == |codes| * n;
      Stream(codes[..m], n) + CodeDigits(codes[m], n)
  }

  function DigitAt(bits: seq<bit>, i: nat): bit {
    if i < |bits| then bits[i] else 0
  }

  /** n bits from bit at on as a number. */
  function Number(bits: seq<bit>, at: nat, n: nat): (v: nat)
    ensures v < Pow2(n)
  {
    if n == 0 then 0 else 2 * Number(bits, at, n - 1) + DigitAt(bits, at + n - 1)
  }

  lemma {:induction false} NumberDigit(bits: seq<bit>, at: nat, n: nat, i: nat)
    requires i < n
    ensures Number(bits, at, n) / Pow2(n - 1 - i) % 2 == DigitAt(bits, at + i)
  {
    var v := Number(bits, at, n);
    if i + 1 < n {
      ShiftNext(v, n - 2 - i);
      assert v / 2 == Number(bits, at, n - 1);
      hide Number, DigitAt;
      NumberDigit(bits, at, n - 1, i);
    } else {
      assert Pow2(0) == 1;
    }
  }

  function PackedByte(bits: seq<bit>, j: nat): byte {
    assert Pow2(8) == 256 by { Pow2Small(); }
    Number(bits, 8 * j, 8)
  }

  /** Bits into bytes, the last one filled up with zeros. */
  function Packed(bits: seq<bit>): (data: seq<byte>)
    ensures 8 * |data| >= |bits|
  {
    seq((|bits| + 7) / 8, (j: nat) => PackedByte(bits, j))
  }

  lemma BitOfPacked(bits: seq<bit>, i: nat)
    requires i < |bits|
    ensures Bit(Packed(bits), i) == bits[i]
  {
    hide Number, Pow2;
    var j := i / 8;
    assert Packed(bits)[j] == PackedByte(bits, j);
    NumberDigit(bits, 8 * j, 8, i % 8);
  }

  /** data holds the given bits from bit at on. */
  ghost predicate Holds(data: seq<byte>, at: nat, bits: seq<bit>) {
    at + |bits| <= 8 * |data| && forall i: nat :: i < |bits| ==> Bit(data, at + i) == bits[i]
  }

  lemma HoldsPart(data: seq<byte>, at: nat, a: seq<bit>, b: seq<bit>)
    requires Holds(data, at, a + b)
    ensures Holds(data, at, a) && Holds(data, at + |a|, b)
  {
    hide Bit;
    forall i: nat | i < |a| ensures Bit(data, at + i) == a[i] {
      assert (a + b)[i] == a[i];
    }
    forall i: nat | i < |b| ensures Bit(data, at + |a| + i) == b[i] {
      assert Bit(data, at + (|a| + i)) == (a + b)[|a| + i];
    }
  }

  lemma {:induction false} BitsOfDigits(data: seq<byte>, at: nat, v: nat, n: nat)
    requires v < Pow2(n) && Holds(data, at, Digits(v, n))
    ensures Bits(data, at, n) == v
  {
    if n > 0 {
      HoldsPart(data, at, Digits(v / 2, n - 1), [v % 2]);
      assert Bit(data, at + (n - 1) + 0) == [v % 2][0];
      BitsOfDigits(data, at, v / 2, n - 1);
    }
  }

  lemma {:induction false} CodeOfDigits(data: seq<byte>, at: nat, v: nat, n: nat)
    requires v < Pow2(n) && Holds(data, at, CodeDigits(v, n))
    ensures Code(data, at, n) == v
    decreases n
  {
    if n <= 8 {
      BitsOfDigits(data, at, v, n);
    } else {
      HoldsPart(data, at, Digits(v % 0x100, 8), CodeDigits(v / 0x100, n - 8));
      Pow2Small();
      Pow2Add(8, n - 8);
      BitsOfDigits(data, at, v % 0x100, 8);
      HighCode(v, Pow2(n - 8));
      CodeOfDigits(data, at + 8, v / 0x100, n - 8);
    }
  }

  lemma HighCode(v: nat, p: nat)
    requires v < 0x100 * p
    ensures 0 <= v / 0x100 < p
  {
  }

  lemma {:induction false} StreamHolds(data: seq<byte>, at: nat, codes: seq<nat>, n: nat, k: nat)
    requires k < |codes| && Holds(data, at, Stream(codes, n))
    ensures Holds(data, at + k * n, CodeDigits(codes[k], n))
    decreases |codes|
  {
    hide Holds;
    var m := |codes| - 1;
    HoldsPart(data, at, Stream(codes[..m], n), CodeDigits(codes[m], n));
    if k < m {
      StreamHolds(data, at, codes[..m], n, k);
    }
  }

  lemma PackedHolds(bits: seq<bit>)
    ensures Holds(Packed(bits), 0, bits)
  {
    hide Bit, Packed;
    forall i: nat | i < |bits| ensures Bit(Packed(bits), 0 + i) == bits[i] {
      BitOfPacked(bits, i);
    }
  }

  lemma HoldsFit(data: seq<byte>, at: nat, bits: seq<bit>)
    requires Holds(data, at, bits)
    ensures at + |bits| <= 8 * |data|
  {
  }

  /** Round trip: whatever codes of n bits are packed, the k-th code of the stream is the k-th of them. */
  lemma RoundTrip(codes: seq<nat>, n: nat, k: nat)
    requires k < |codes| && codes[k] < Pow2(n)
    ensures k * n + n <= 8 * |Packed(Stream(codes, n))|
    ensures Code(Packed(Stream(codes, n)), k * n, n) == codes[k]
  {
    hide Holds, Bit, Packed, Code, Stream, CodeDigits, Pow2;
    var data := Packed(Stream(codes, n));
    PackedHolds(Stream(codes, n));
    StreamHolds(data, 0, codes, n, k);
    HoldsFit(data, k * n, CodeDigits(codes[k], n));
    CodeOfDigits(data, k * n, codes[k], n);
  }

  // ---------------------------------------------------------------- whole blocks

  function LE32(v: nat): (bytes: seq<byte>)
    requires v < 0x1_0000_0000
    ensures |bytes| == 4
  {
    [v % 0x100, v / 0x100 % 0x100, v / 0x1_0000 % 0x100, v / 0x100_0000]
  }

  function ValSize(bitDec: nat): nat {
    (bitDec + 7) / 8
  }

  function LE16(v: nat): (bytes: seq<byte>)
    requires v < 0x1_0000
    ensures |bytes| == 2
  {
    [v % 0x100, v / 0x100]
  }

  /** The kinds of compressed block: the value is the code plus a constant, the code shifted up to the value's
      width plus a constant, the code's entry in the table, or the running sum of such entries. */
  datatype Kind = Plain(addVal: nat) | Shifted(addVal: nat) | ByTable | Dpcm(start: nat)
  {
    predicate Valid() {
      match this
      case Plain(v) => v < 0x1_0000
      case Shifted(v) => v < 0x1_0000
      case ByTable => true
      case Dpcm(v) => v < 0x1_0000
    }

    predicate UsesTable() {
      ByTable? || Dpcm?
    }

    /** The fields of the header that tell the kinds apart. */
    function Type(): byte { if Dpcm? then 1 else 0 }

    function SubType(): byte { if Shifted? then 1 else if ByTable? then 2 else 0 }

    function AddVal(): nat {
      match this
      case Plain(v) => v
      case Shifted(v) => v
      case ByTable => 0
      case Dpcm(v) => v
    }
  }

  /** The k-th value of the sound that is packed. */
  function Meant(kind: Kind, codes: seq<nat>, bitDec: nat, bitCmp: nat, entries: seq<nat>, k: nat): nat
    requires k < |codes| && bitCmp <= bitDec
    requires kind.UsesTable() ==> forall j: nat :: j < |codes| ==> codes[j] < |entries|
  {
    match kind
    case Plain(v) => codes[k] + v
    case Shifted(v) => codes[k] * Pow2(bitDec - bitCmp) + v
    case ByTable => entries[codes[k]]
    case Dpcm(start) =>
      ((if k == 0 then start else Meant(kind, codes, bitDec, bitCmp, entries, k - 1)) + entries[codes[k]]) % Pow2(bitDec)
  }

  /** A block: header, codes, and the two bytes behind it that may be looked at. */
  function Block(kind: Kind, codes: seq<nat>, bitDec: byte, bitCmp: byte): (data: seq<byte>)
    requires kind.Valid() && |codes| * ValSize(bitDec) < 0x1_0000_0000
    ensures |data| == HEADER_SIZE + |Packed(Stream(codes, bitCmp))| + 2
  {
    Head(kind, |codes| * ValSize(bitDec), bitDec, bitCmp) + Packed(Stream(codes, bitCmp)) + [0, 0]
  }

  function Head(kind: Kind, size: nat, bitDec: byte, bitCmp: byte): (data: seq<byte>)
    requires kind.Valid() && size < 0x1_0000_0000
    ensures |data| == HEADER_SIZE
  {
    [kind.Type()] + LE32(size) + [bitDec, bitCmp, kind.SubType()] + LE16(kind.AddVal())
  }

  /** A table of values of one or two bytes, the low one first. */
  function TableOf(entries: seq<nat>, bitDec: nat, bitCmp: nat): Table
    requires forall i :: 0 <= i < |entries| ==> entries[i] < (if ValSize(bitDec) == 1 then 0x100 else 0x1_0000)
  {
    Table(bitDec, bitCmp, |entries|,
          if ValSize(bitDec) == 1 then seq(|entries|, i requires 0 <= i < |entries| => entries[i] as byte)
          else seq(2 * |entries|, i requires 0 <= i < 2 * |entries| =>
                 if i % 2 == 0 then entries[i / 2] % 0x100 else entries[i / 2] / 0x100))
  }

  lemma EntryOfTable(entries: seq<nat>, bitDec: nat, bitCmp: nat, code: nat)
    requires 1 <= bitDec <= 16 && code < |entries|
    requires forall i :: 0 <= i < |entries| ==> entries[i] < (if ValSize(bitDec) == 1 then 0x100 else 0x1_0000)
    ensures Entry(TableOf(entries, bitDec, bitCmp), ValSize(bitDec), code) == entries[code]
  {
    var table := TableOf(entries, bitDec, bitCmp);
    if ValSize(bitDec) == 2 {
      assert (2 * code) % 2 == 0 && (2 * code) / 2 == code && (2 * code + 1) % 2 == 1 && (2 * code + 1) / 2 == code;
      assert table.entries[2 * code] == entries[code] % 0x100 && table.entries[2 * code + 1] == entries[code] / 0x100;
    }
  }

  /** The header is read back as it was written, every field low byte first. */
  lemma HeadRead(kind: Kind, size: nat, bitDec: byte, bitCmp: byte, rest: seq<byte>)
    requires kind.Valid() && size < 0x1_0000_0000
    ensures ReadHeader(Head(kind, size, bitDec, bitCmp) + rest)
            == Header(kind.Type(), size, bitDec, bitCmp, kind.SubType(), kind.AddVal())
  {
    var le, add := LE32(size), LE16(kind.AddVal());
    LE32Read(size);
    assert ReadLE16(add[0], add[1]) == kind.AddVal();
    hide LE32, LE16;
    var data := Head(kind, size, bitDec, bitCmp) + rest;
    assert data[1] == le[0] && data[2] == le[1] && data[3] == le[2] && data[4] == le[3];
    assert data[5] == bitDec && data[6] == bitCmp && data[7] == kind.SubType();
    assert data[8] == add[0] && data[9] == add[1];
  }

  lemma LE32Read(v: nat)
    requires v < 0x1_0000_0000
    ensures var le := LE32(v); ReadLE16(le[0], le[1]) + ReadLE16(le[2], le[3]) * 0x1_0000 == v
  {
    var low, high := v % 0x1_0000, v / 0x1_0000;
    LE16Read(v, low, high);
    assert v / 0x100_0000 == high / 0x100;
  }

  lemma LE16Read(v: nat, low: int, high: int)
    requires v == low + 0x1_0000 * high && 0 <= low < 0x1_0000
    ensures v % 0x100 == low % 0x100 && v / 0x100 % 0x100 == low / 0x100
    ensures low % 0x100 + low / 0x100 * 0x100 == low
  {
    DivIs(v, 0x100, low / 0x100 + 0x100 * high);
    DivIs(low / 0x100 + 0x100 * high, 0x100, high);
  }

  lemma HoldsBehind(front: seq<byte>, data: seq<byte>, back: seq<byte>, bits: seq<bit>)
    requires Holds(data, 0, bits)
    ensures Holds(front + data + back, 8 * |front|, bits)
  {
    forall i: nat | i < |bits| ensures Bit(front + data + back, 8 * |front| + i) == bits[i] {
      assert Bit(data, 0 + i) == bits[i];
      assert (8 * |front| + i) / 8 == |front| + i / 8 && (8 * |front| + i) % 8 == i % 8;
      assert (front + data + back)[|front| + i / 8] == data[i / 8];
    }
  }

  lemma BlockCodes(kind: Kind, codes: seq<nat>, bitDec: byte, bitCmp: byte, h: Header, k: nat)
    requires kind.Valid() && |codes| * ValSize(bitDec) < 0x1_0000_0000 && h.bitCmp == bitCmp
    requires k < |codes| && codes[k] < Pow2(bitCmp)
    ensures CodeAt(Block(kind, codes, bitDec, bitCmp), h, k) == codes[k]
  {
    hide Holds, Bit, Packed, Code, Stream, CodeDigits, Pow2, Head;
    var data := Block(kind, codes, bitDec, bitCmp);
    PackedHolds(Stream(codes, bitCmp));
    HoldsBehind(Head(kind, |codes| * ValSize(bitDec), bitDec, bitCmp), Packed(Stream(codes, bitCmp)), [0, 0],
                Stream(codes, bitCmp));
    StreamHolds(data, 8 * HEADER_SIZE, codes, bitCmp, k);
    HoldsFit(data, 8 * HEADER_SIZE + k * bitCmp, CodeDigits(codes[k], bitCmp));
    CodeOfDigits(data, 8 * HEADER_SIZE + k * bitCmp, codes[k], bitCmp);
  }

  lemma BlockLength(kind: Kind, codes: seq<nat>, bitDec: byte, bitCmp: byte, h: Header, n: nat)
    requires kind.Valid() && 0 < bitCmp <= bitDec <= 16 && |codes| * ValSize(bitDec) < 0x1_0000_0000
    requires h.dataSize == |codes| * ValSize(bitDec) && h.bitDec == bitDec && h.bitCmp == bitCmp
    requires DecodedCount(h, |Block(kind, codes, bitDec, bitCmp)| - 2, n)
    ensures n == |codes|
  {
    hide DecodedCount, Stream, Packed, Head;
    DivIs(h.dataSize, ValSize(bitDec), |codes|);
    AllDecoded(h, |Block(kind, codes, bitDec, bitCmp)| - 2, n);
  }

  /** What the decoder makes of the k-th code is the k-th value that was meant. */
  lemma {:induction false} ValueIsMeant(kind: Kind, codes: seq<nat>, bitDec: byte, bitCmp: byte, entries: seq<nat>,
                                        h: Header, table: Table, k: nat)
    requires kind.Valid() && 0 < bitCmp <= bitDec <= 16 && |codes| * ValSize(bitDec) < 0x1_0000_0000 && k < |codes|
    requires forall j: nat :: j < |codes| ==> codes[j] < Pow2(bitCmp)
    requires kind.UsesTable() ==> forall j: nat :: j < |codes| ==>
               codes[j] < |entries| && Entry(table, h.ValSize(), codes[j]) == entries[codes[j]]
    requires h == Header(kind.Type(), |codes| * ValSize(bitDec), bitDec, bitCmp, kind.SubType(), kind.AddVal())
    ensures var data := Block(kind, codes, bitDec, bitCmp);
            (if kind.Dpcm? then DpcmValue(data, h, table, k) else Value(data, h, table, k))
            == Meant(kind, codes, bitDec, bitCmp, entries, k)
  {
    hide CodeAt, Block, Entry, DpcmValue, Meant;
    var data := Block(kind, codes, bitDec, bitCmp);
    BlockCodes(kind, codes, bitDec, bitCmp, h, k);
    MeantIs(kind, codes, bitDec, bitCmp, entries, k);
    if kind.Dpcm? {
      var last := if k == 0 then h.addVal else DpcmValue(data, h, table, k - 1);
      if k > 0 {
        ValueIsMeant(kind, codes, bitDec, bitCmp, entries, h, table, k - 1);
      }
      DpcmStep(data, h, table, k, last);
    }
  }

  lemma MeantIs(kind: Kind, codes: seq<nat>, bitDec: nat, bitCmp: nat, entries: seq<nat>, k: nat)
    requires k < |codes| && bitCmp <= bitDec
    requires kind.UsesTable() ==> forall j: nat :: j < |codes| ==> codes[j] < |entries|
    ensures Meant(kind, codes, bitDec, bitCmp, entries, k)
            == match kind
               case Plain(v) => codes[k] + v
               case Shifted(v) => codes[k] * Pow2(bitDec - bitCmp) + v
               case ByTable => entries[codes[k]]
               case Dpcm(start) =>
                 ((if k == 0 then start else Meant(kind, codes, bitDec, bitCmp, entries, k - 1)) + entries[codes[k]])
                 % Pow2(bitDec)
  {
  }

  /** Round trip of a block of any kind: decompressing it stores every value that was meant, low byte first. */
  method BlockRoundTrip(kind: Kind, codes: seq<nat>, bitDec: byte, bitCmp: byte, entries: seq<nat>)
    returns (out: array<byte>, ok: bool, bankSize: nat)
    requires kind.Valid() && 0 < bitCmp <= bitDec <= 16 && |codes| * ValSize(bitDec) < 0x1_0000_0000
    requires forall k: nat :: k < |codes| ==> codes[k] < Pow2(bitCmp)
    requires forall i :: 0 <= i < |entries| ==> entries[i] < (if ValSize(bitDec) == 1 then 0x100 else 0x1_0000)
    requires kind.UsesTable() ==> |entries| > 0 && forall k: nat :: k < |codes| ==> codes[k] < |entries|
    ensures ok && bankSize == |codes| * ValSize(bitDec) && out.Length > bankSize
    ensures bitDec <= 8 ==>
              forall k: nat :: k < |codes| ==> out[k] == Meant(kind, codes, bitDec, bitCmp, entries, k) % 0x100
    ensures bitDec > 8 ==>
              forall k: nat :: k < |codes| ==>
                (out[2 * k] as int) + 0x100 * (out[2 * k + 1] as int) == Meant(kind, codes, bitDec, bitCmp, entries, k) % 0x1_0000
  {
    hide StoredAt, DecodedCount, Packed, Stream, CodeAt, Head, Pow2, Entry, TableOf, Meant, Value, DpcmValue;
    var data := Block(kind, codes, bitDec, bitCmp);
    var table := TableOf(entries, bitDec, bitCmp);
    ghost var h := Header(kind.Type(), |codes| * ValSize(bitDec), bitDec, bitCmp, kind.SubType(), kind.AddVal());
    HeadRead(kind, |codes| * ValSize(bitDec), bitDec, bitCmp, Packed(Stream(codes, bitCmp)) + [0, 0]);
    assert data == Head(kind, |codes| * ValSize(bitDec), bitDec, bitCmp) + (Packed(Stream(codes, bitCmp)) + [0, 0]);
    FitsItsBlocks(kind, entries, h, bitDec, bitCmp);
    out := new byte[|codes| * ValSize(bitDec) + 1];
    ghost var n;
    ok, bankSize, n := DecompressDataBlk(data, |data| - 2, table, out);
    BlockLength(kind, codes, bitDec, bitCmp, h, n);
    EntriesRead(kind, codes, entries, bitDec, bitCmp);
    forall k: nat | k < |codes|
      ensures StoredAt(out[..], ValSize(bitDec), k, Meant(kind, codes, bitDec, bitCmp, entries, k))
    {
      ValueIsMeant(kind, codes, bitDec, bitCmp, entries, h, table, k);
      assert StoredAt(out[..], h.ValSize(), k,
                      if h.comprType == 0 then Value(data, h, table, k) else DpcmValue(data, h, table, k));
    }
    AsStored(out[..], kind, codes, bitDec, bitCmp, entries);
  }

  lemma FitsItsBlocks(kind: Kind, entries: seq<nat>, h: Header, bitDec: byte, bitCmp: byte)
    requires forall i :: 0 <= i < |entries| ==> entries[i] < (if ValSize(bitDec) == 1 then 0x100 else 0x1_0000)
    requires h.comprType == kind.Type() && h.subType == kind.SubType() && h.bitDec == bitDec && h.bitCmp == bitCmp
    requires kind.UsesTable() ==> |entries| > 0
    ensures !Refused(h, TableOf(entries, bitDec, bitCmp))
  {
  }

  lemma EntriesRead(kind: Kind, codes: seq<nat>, entries: seq<nat>, bitDec: byte, bitCmp: byte)
    requires 1 <= bitDec <= 16
    requires forall i :: 0 <= i < |entries| ==> entries[i] < (if ValSize(bitDec) == 1 then 0x100 else 0x1_0000)
    requires kind.UsesTable() ==> forall k: nat :: k < |codes| ==> codes[k] < |entries|
    ensures kind.UsesTable() ==> forall k: nat :: k < |codes| ==>
              Entry(TableOf(entries, bitDec, bitCmp), ValSize(bitDec), codes[k]) == entries[codes[k]]
  {
    hide Entry, TableOf;
    if kind.UsesTable() {
      forall k: nat | k < |codes|
        ensures Entry(TableOf(entries, bitDec, bitCmp), ValSize(bitDec), codes[k]) == entries[codes[k]]
      {
        EntryOfTable(entries, bitDec, bitCmp, codes[k]);
      }
    }
  }

  /** What is stored, byte by byte. */
  lemma AsStored(out: seq<byte>, kind: Kind, codes: seq<nat>, bitDec: byte, bitCmp: byte, entries: seq<nat>)
    requires 0 < bitCmp <= bitDec <= 16 && |out| > |codes| * ValSize(bitDec)
    requires kind.UsesTable() ==> forall k: nat :: k < |codes| ==> codes[k] < |entries|
    requires forall k: nat :: k < |codes| ==>
               StoredAt(out, ValSize(bitDec), k, Meant(kind, codes, bitDec, bitCmp, entries, k))
    ensures bitDec <= 8 ==>
              forall k: nat :: k < |codes| ==> out[k] == Meant(kind, codes, bitDec, bitCmp, entries, k) % 0x100
    ensures bitDec > 8 ==>
              forall k: nat :: k < |codes| ==>
                (out[2 * k] as int) + 0x100 * (out[2 * k + 1] as int) == Meant(kind, codes, bitDec, bitCmp, entries, k) % 0x1_0000
  {
    hide Meant;
    forall k: nat | k < |codes| && bitDec > 8
      ensures (out[2 * k] as int) + 0x100 * (out[2 * k + 1] as int) == Meant(kind, codes, bitDec, bitCmp, entries, k) % 0x1_0000
    {
      LowAndHigh(Meant(kind, codes, bitDec, bitCmp, entries, k));
    }
  }

  lemma LowAndHigh(v: nat)
    ensures v % 0x100 + 0x100 * (v / 0x100 % 0x100) == v % 0x1_0000
  {
    var q := v / 0x100;
    assert v == 0x100 * q + v % 0x100 && q == 0x100 * (q / 0x100) + q % 0x100;
    DivIs(v, 0x1_0000, q / 0x100);
  }
}
