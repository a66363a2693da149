/** The `Data` extension of MONode: appending a 4-byte integer to a buffer
    and extracting one back at a byte offset. Integers are laid out in
    little-endian order, the native order of the hardware the nodes run on. */
module Bytes {

  type Byte = b: int | 0 <= b < 0x100
  type UInt16 = n: int | 0 <= n < 0x1_0000
  type UInt32 = n: int | 0 <= n < 0x1_0000_0000
  type Int32 = n: int | -0x8000_0000 <= n < 0x8000_0000

  /** `MemoryLayout<UInt32>.size` and `MemoryLayout<Int32>.size`. */
  const IntegerSize: nat := 4

  /** The four bytes of `v`, least significant first. */
  function LittleEndian(v: UInt32): (bs: seq<Byte>)
    ensures |bs| == IntegerSize
  {
    [v % 0x100, (v / 0x100) % 0x100, (v / 0x1_0000) % 0x100, v / 0x100_0000]
  }

  /** `extract(UInt32.self, at: k)`: the value of bytes k..k+4. The source does
      no bounds check, so the caller must guarantee the four bytes exist. */
  function ExtractUInt32(data: seq<Byte>, k: int): (v: UInt32)
    requires 0 <= k && k + IntegerSize <= |data|
    ensures v % 0x100 == data[k] && v / 0x100_0000 == data[k + 3]
  {
    var b0: int, b1: int, b2: int, b3: int := data[k], data[k + 1], data[k + 2], data[k + 3];
    b0 + 0x100 * b1 + 0x1_0000 * b2 + 0x100_0000 * b3
  }

  /** The bit pattern of a 32-bit two's-complement integer. */
  function Int32Bits(i: Int32): (u: UInt32)
    ensures i >= 0 ==> u == i
    ensures i < 0 ==> u >= 0x8000_0000
  {
    if i < 0 then i + 0x1_0000_0000 else i
  }

  /** The 32-bit two's-complement integer with bit pattern `u`. */
  function Int32OfBits(u: UInt32): (i: Int32)
    ensures Int32Bits(i) == u
  {
    if u >= 0x8000_0000 then u - 0x1_0000_0000 else u
  }

  lemma Int32BitsInjective(i: Int32)
    ensures Int32OfBits(Int32Bits(i)) == i
  {
  }

  /** `extract(Int32.self, at: k)`. */
  function ExtractInt32(data: seq<Byte>, k: int): (i: Int32)
    requires 0 <= k && k + IntegerSize <= |data|
    ensures Int32Bits(i) == ExtractUInt32(data, k)
    ensures i < 0 <==> data[k + 3] >= 0x80
  {
    Int32OfBits(ExtractUInt32(data, k))
  }

  /** What `append(v)` adds for an `Int32`: its bit pattern, little-endian. */
  function LittleEndianInt32(i: Int32): (bs: seq<Byte>)
    ensures |bs| == IntegerSize
  {
    LittleEndian(Int32Bits(i))
  }

  /** Reading back the four bytes written for `v` gives `v`. */
  lemma {:induction false} ExtractLittleEndian(v: UInt32)
    ensures ExtractUInt32(LittleEndian(v), 0) == v
  {
    var q1 := v / 0x100;
    var q2 := q1 / 0x100;
    var q3 := q2 / 0x100;
    assert v == 0x100 * q1 + v % 0x100;
    assert q1 == 0x100 * q2 + q1 % 0x100;
    assert q2 == 0x100 * q3 + q2 % 0x100;
    assert v / 0x1_0000 == q2;
    assert v / 0x100_0000 == q3;
  }

  /** Conversely, four bytes are the encoding of the value they hold. */
  lemma {:induction false} LittleEndianOfExtract(data: seq<Byte>, k: int)
    requires 0 <= k && k + IntegerSize <= |data|
    ensures LittleEndian(ExtractUInt32(data, k)) == data[k..k + IntegerSize]
  {
    var b0: int, b1: int, b2: int, b3: int := data[k], data[k + 1], data[k + 2], data[k + 3];
    var v := ExtractUInt32(data, k);
    var q1 := b1 + 0x100 * b2 + 0x1_0000 * b3;
    var q2 := b2 + 0x100 * b3;
    assert v == b0 + 0x100 * q1;
    assert v % 0x100 == b0 && v / 0x100 == q1;
    assert q1 == b1 + 0x100 * q2;
    assert q1 % 0x100 == b1 && q1 / 0x100 == q2;
    assert v / 0x1_0000 == q2 by {
      assert v == b0 + 0x100 * b1 + 0x1_0000 * q2;
    }
    assert q2 % 0x100 == b2 && q2 / 0x100 == b3;
    assert v / 0x100_0000 == b3 by {
      assert v == (b0 + 0x100 * b1 + 0x1_0000 * b2) + 0x100_0000 * b3;
    }
  }

  /** `extract` only looks at the four bytes at its offset. */
  lemma ExtractIsLocal(data: seq<Byte>, other: seq<Byte>, k: int, j: int)
    requires 0 <= k && k + IntegerSize <= |data|
    requires 0 <= j && j + IntegerSize <= |other|
    requires data[k..k + IntegerSize] == other[j..j + IntegerSize]
    ensures ExtractUInt32(data, k) == ExtractUInt32(other, j)
    ensures ExtractInt32(data, k) == ExtractInt32(other, j)
  {
    assert data[k] == data[k..k + IntegerSize][0] == other[j];
    assert data[k + 1] == data[k..k + IntegerSize][1] == other[j + 1];
    assert data[k + 2] == data[k..k + IntegerSize][2] == other[j + 2];
    assert data[k + 3] == data[k..k + IntegerSize][3] == other[j + 3];
  }

  /** Appending `v` and extracting at the buffer's old length gives back `v`,
      whatever the buffer held before and whatever is appended afterwards. */
  lemma {:induction false} ExtractAfterAppend(prefix: seq<Byte>, v: UInt32, suffix: seq<Byte>)
    ensures ExtractUInt32(prefix + LittleEndian(v) + suffix, |prefix|) == v
  {
    var data := prefix + LittleEndian(v) + suffix;
    assert data[|prefix|..|prefix| + IntegerSize] == LittleEndian(v);
    ExtractIsLocal(data, LittleEndian(v), |prefix|, 0);
    ExtractLittleEndian(v);
  }

  /** The same for a signed 32-bit value. */
  lemma {:induction false} ExtractInt32AfterAppend(prefix: seq<Byte>, i: Int32, suffix: seq<Byte>)
    ensures ExtractInt32(prefix + LittleEndianInt32(i) + suffix, |prefix|) == i
  {
    ExtractAfterAppend(prefix, Int32Bits(i), suffix);
  }

  /** A growable byte buffer, Foundation's `Data`, which the extension's
      `append` extends in place. */
  class ByteBuffer {
    var bytes: seq<Byte>

    /** `Data(capacity:)`: the capacity is only a hint, the buffer is empty. */
    constructor (capacity: nat)
      ensures bytes == []
    {
      bytes := [];
    }

    /** `append(_ value: UInt32)`: grows by exactly four bytes at the end. */
    method AppendUInt32(v: UInt32)
      modifies this
      ensures bytes == old(bytes) + LittleEndian(v)
      ensures |bytes| == |old(bytes)| + IntegerSize
      ensures ExtractUInt32(bytes, |old(bytes)|) == v
    {
      bytes := bytes + LittleEndian(v);
      ExtractAfterAppend(old(bytes), v, []);
      assert old(bytes) + LittleEndian(v) + [] == bytes;
    }

    /** `append(_ value: Int32)`. */
    method AppendInt32(i: Int32)
      modifies this
      ensures bytes == old(bytes) + LittleEndianInt32(i)
      ensures |bytes| == |old(bytes)| + IntegerSize
      ensures ExtractInt32(bytes, |old(bytes)|) == i
    {
      bytes := bytes + LittleEndianInt32(i);
      ExtractInt32AfterAppend(old(bytes), i, []);
      assert old(bytes) + LittleEndianInt32(i) + [] == bytes;
    }

    /** Foundation's `append(_ other: Data)`: the bytes of `d`, verbatim. */
    method AppendData(d: seq<Byte>)
      modifies this
      ensures bytes == old(bytes) + d
    {
      bytes := bytes + d;
    }
  }
}
