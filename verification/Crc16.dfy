/** CRC-16 by two tables, and the bit-by-bit register of section 6.2.2 of the MODBUS over Serial Line Specification
    and Implementation Guide V1.02 that it has to agree with. */
module Crcs {
  import opened Buffers

  // ---------- the register, bit by bit ----------

  function Xor(a: bv16, b: bv16): bv16 {
    a ^ b
  }

  function Wide(b: bv8): bv16 {
    b as bv16
  }

  /** One shift: the bit that falls out decides whether the reflected polynomial is added. */
  function Shift(c: bv16): bv16 {
    if c & 1 == 1 then (c >> 1) ^ 0xA001 else c >> 1
  }

  function Shift8(c: bv16): bv16 {
    Shift(Shift(Shift(Shift(Shift(Shift(Shift(Shift(c))))))))
  }

  /** A byte is added to the low half and shifted out. */
  function AddByte(c: bv16, b: bv8): bv16 {
    Shift8(Xor(c, Wide(b)))
  }

  lemma {:induction false} Increment(v: bv8)
    requires v as int < 255
    ensures (v + 1) as int == v as int + 1
  {
  }

  function BitsOf(n: nat): (v: bv8)
    requires n < 256
    ensures v as int == n
  {
    if n == 0 then 0 else Increment(BitsOf(n - 1)); BitsOf(n - 1) + 1
  }

  /** The bit pattern of a byte. */
  function Bits(b: Byte): (v: bv8)
    ensures v as int == b as int
  {
    BitsOf(b as int)
  }

  function Register(data: Bytes): bv16 {
    if data == [] then 0xFFFF else AddByte(Register(data[..|data| - 1]), Bits(data[|data| - 1]))
  }

  lemma {:induction false} RegisterSnoc(data: Bytes, b: Byte)
    ensures Register(data + [b]) == AddByte(Register(data), Bits(b))
  {
  }

  // ---------- shifting is linear and loses nothing ----------

  lemma {:induction false} LowBit(a: bv16, b: bv16)
    ensures (a ^ b) & 1 == (a & 1) ^ (b & 1)
    ensures a & 1 == 0 || a & 1 == 1
  {
  }

  lemma {:induction false} HalfIsLinear(a: bv16, b: bv16)
    ensures (a ^ b) >> 1 == (a >> 1) ^ (b >> 1)
  {
  }

  lemma {:induction false} Cancel(a: bv16, b: bv16, k: bv16)
    ensures (a ^ k) ^ b == (a ^ b) ^ k && a ^ (b ^ k) == (a ^ b) ^ k && (a ^ k) ^ (b ^ k) == a ^ b
  {
  }

  lemma {:induction false} ShiftIsLinear(a: bv16, b: bv16)
    ensures Shift(Xor(a, b)) == Xor(Shift(a), Shift(b))
  {
    LowBit(a, b);
    LowBit(b, a);
    HalfIsLinear(a, b);
    Cancel(a >> 1, b >> 1, 0xA001);
  }

  lemma {:induction false} Shift2IsLinear(a: bv16, b: bv16)
    ensures Shift(Shift(Xor(a, b))) == Xor(Shift(Shift(a)), Shift(Shift(b)))
  {
    ShiftIsLinear(a, b);
    ShiftIsLinear(Shift(a), Shift(b));
  }

  function Shift2(c: bv16): bv16 {
    Shift(Shift(c))
  }

  lemma {:induction false} Shift8IsLinear(a: bv16, b: bv16)
    ensures Shift8(Xor(a, b)) == Xor(Shift8(a), Shift8(b))
  {
    var a2, b2 := Shift2(a), Shift2(b);
    var a4, b4 := Shift2(a2), Shift2(b2);
    var a6, b6 := Shift2(a4), Shift2(b4);
    Shift2IsLinear(a, b);
    Shift2IsLinear(a2, b2);
    Shift2IsLinear(a4, b4);
    Shift2IsLinear(a6, b6);
  }

  lemma {:induction false} Shift2IsInjective(a: bv16, b: bv16)
    requires Shift2(a) == Shift2(b)
    ensures a == b
  {
  }

  lemma {:induction false} Shift8IsInjective(a: bv16, b: bv16)
    requires Shift8(a) == Shift8(b)
    ensures a == b
  {
    var a2, b2 := Shift2(a), Shift2(b);
    var a4, b4 := Shift2(a2), Shift2(b2);
    var a6, b6 := Shift2(a4), Shift2(b4);
    Shift2IsInjective(a6, b6);
    Shift2IsInjective(a4, b4);
    Shift2IsInjective(a2, b2);
    Shift2IsInjective(a, b);
  }

  // ---------- the tables, in rows of 16 ----------

  type Row = seq<bv8>

  const HIGH_0: Row := [0x00, 0xC1, 0x81, 0x40, 0x01, 0xC0, 0x80, 0x41, 0x01, 0xC0, 0x80, 0x41, 0x00, 0xC1, 0x81, 0x40]
  const HIGH_1: Row := [0x01, 0xC0, 0x80, 0x41, 0x00, 0xC1, 0x81, 0x40, 0x00, 0xC1, 0x81, 0x40, 0x01, 0xC0, 0x80, 0x41]
  const HIGH_2: Row := [0x01, 0xC0, 0x80, 0x41, 0x00, 0xC1, 0x81, 0x40, 0x00, 0xC1, 0x81, 0x40, 0x01, 0xC0, 0x80, 0x41]
  const HIGH_3: Row := [0x00, 0xC1, 0x81, 0x40, 0x01, 0xC0, 0x80, 0x41, 0x01, 0xC0, 0x80, 0x41, 0x00, 0xC1, 0x81, 0x40]
  const HIGH_4: Row := [0x01, 0xC0, 0x80, 0x41, 0x00, 0xC1, 0x81, 0x40, 0x00, 0xC1, 0x81, 0x40, 0x01, 0xC0, 0x80, 0x41]
  const HIGH_5: Row := [0x00, 0xC1, 0x81, 0x40, 0x01, 0xC0, 0x80, 0x41, 0x01, 0xC0, 0x80, 0x41, 0x00, 0xC1, 0x81, 0x40]
  const HIGH_6: Row := [0x00, 0xC1, 0x81, 0x40, 0x01, 0xC0, 0x80, 0x41, 0x01, 0xC0, 0x80, 0x41, 0x00, 0xC1, 0x81, 0x40]
  const HIGH_7: Row := [0x01, 0xC0, 0x80, 0x41, 0x00, 0xC1, 0x81, 0x40, 0x00, 0xC1, 0x81, 0x40, 0x01, 0xC0, 0x80, 0x41]
  const HIGH_8: Row := [0x01, 0xC0, 0x80, 0x41, 0x00, 0xC1, 0x81, 0x40, 0x00, 0xC1, 0x81, 0x40, 0x01, 0xC0, 0x80, 0x41]
  const HIGH_9: Row := [0x00, 0xC1, 0x81, 0x40, 0x01, 0xC0, 0x80, 0x41, 0x01, 0xC0, 0x80, 0x41, 0x00, 0xC1, 0x81, 0x40]
  const HIGH_A: Row := [0x00, 0xC1, 0x81, 0x40, 0x01, 0xC0, 0x80, 0x41, 0x01, 0xC0, 0x80, 0x41, 0x00, 0xC1, 0x81, 0x40]
  const HIGH_B: Row := [0x01, 0xC0, 0x80, 0x41, 0x00, 0xC1, 0x81, 0x40, 0x00, 0xC1, 0x81, 0x40, 0x01, 0xC0, 0x80, 0x41]
  const HIGH_C: Row := [0x00, 0xC1, 0x81, 0x40, 0x01, 0xC0, 0x80, 0x41, 0x01, 0xC0, 0x80, 0x41, 0x00, 0xC1, 0x81, 0x40]
  const HIGH_D: Row := [0x01, 0xC0, 0x80, 0x41, 0x00, 0xC1, 0x81, 0x40, 0x00, 0xC1, 0x81, 0x40, 0x01, 0xC0, 0x80, 0x41]
  const HIGH_E: Row := [0x01, 0xC0, 0x80, 0x41, 0x00, 0xC1, 0x81, 0x40, 0x00, 0xC1, 0x81, 0x40, 0x01, 0xC0, 0x80, 0x41]
  const HIGH_F: Row := [0x00, 0xC1, 0x81, 0x40, 0x01, 0xC0, 0x80, 0x41, 0x01, 0xC0, 0x80, 0x41, 0x00, 0xC1, 0x81, 0x40]

  const HIGH_TABLE: seq<Row> := [
    HIGH_0, HIGH_1, HIGH_2, HIGH_3, HIGH_4, HIGH_5, HIGH_6, HIGH_7,
    HIGH_8, HIGH_9, HIGH_A, HIGH_B, HIGH_C, HIGH_D, HIGH_E, HIGH_F]

  const LOW_0: Row := [0x00, 0xC0, 0xC1, 0x01, 0xC3, 0x03, 0x02, 0xC2, 0xC6, 0x06, 0x07, 0xC7, 0x05, 0xC5, 0xC4, 0x04]
  const LOW_1: Row := [0xCC, 0x0C, 0x0D, 0xCD, 0x0F, 0xCF, 0xCE, 0x0E, 0x0A, 0xCA, 0xCB, 0x0B, 0xC9, 0x09, 0x08, 0xC8]
  const LOW_2: Row := [0xD8, 0x18, 0x19, 0xD9, 0x1B, 0xDB, 0xDA, 0x1A, 0x1E, 0xDE, 0xDF, 0x1F, 0xDD, 0x1D, 0x1C, 0xDC]
  const LOW_3: Row := [0x14, 0xD4, 0xD5, 0x15, 0xD7, 0x17, 0x16, 0xD6, 0xD2, 0x12, 0x13, 0xD3, 0x11, 0xD1, 0xD0, 0x10]
  const LOW_4: Row := [0xF0, 0x30, 0x31, 0xF1, 0x33, 0xF3, 0xF2, 0x32, 0x36, 0xF6, 0xF7, 0x37, 0xF5, 0x35, 0x34, 0xF4]
  const LOW_5: Row := [0x3C, 0xFC, 0xFD, 0x3D, 0xFF, 0x3F, 0x3E, 0xFE, 0xFA, 0x3A, 0x3B, 0xFB, 0x39, 0xF9, 0xF8, 0x38]
  const LOW_6: Row := [0x28, 0xE8, 0xE9, 0x29, 0xEB, 0x2B, 0x2A, 0xEA, 0xEE, 0x2E, 0x2F, 0xEF, 0x2D, 0xED, 0xEC, 0x2C]
  const LOW_7: Row := [0xE4, 0x24, 0x25, 0xE5, 0x27, 0xE7, 0xE6, 0x26, 0x22, 0xE2, 0xE3, 0x23, 0xE1, 0x21, 0x20, 0xE0]
  const LOW_8: Row := [0xA0, 0x60, 0x61, 0xA1, 0x63, 0xA3, 0xA2, 0x62, 0x66, 0xA6, 0xA7, 0x67, 0xA5, 0x65, 0x64, 0xA4]
  const LOW_9: Row := [0x6C, 0xAC, 0xAD, 0x6D, 0xAF, 0x6F, 0x6E, 0xAE, 0xAA, 0x6A, 0x6B, 0xAB, 0x69, 0xA9, 0xA8, 0x68]
  const LOW_A: Row := [0x78, 0xB8, 0xB9, 0x79, 0xBB, 0x7B, 0x7A, 0xBA, 0xBE, 0x7E, 0x7F, 0xBF, 0x7D, 0xBD, 0xBC, 0x7C]
  const LOW_B: Row := [0xB4, 0x74, 0x75, 0xB5, 0x77, 0xB7, 0xB6, 0x76, 0x72, 0xB2, 0xB3, 0x73, 0xB1, 0x71, 0x70, 0xB0]
  const LOW_C: Row := [0x50, 0x90, 0x91, 0x51, 0x93, 0x53, 0x52, 0x92, 0x96, 0x56, 0x57, 0x97, 0x55, 0x95, 0x94, 0x54]
  const LOW_D: Row := [0x9C, 0x5C, 0x5D, 0x9D, 0x5F, 0x9F, 0x9E, 0x5E, 0x5A, 0x9A, 0x9B, 0x5B, 0x99, 0x59, 0x58, 0x98]
  const LOW_E: Row := [0x88, 0x48, 0x49, 0x89, 0x4B, 0x8B, 0x8A, 0x4A, 0x4E, 0x8E, 0x8F, 0x4F, 0x8D, 0x4D, 0x4C, 0x8C]
  const LOW_F: Row := [0x44, 0x84, 0x85, 0x45, 0x87, 0x47, 0x46, 0x86, 0x82, 0x42, 0x43, 0x83, 0x41, 0x81, 0x80, 0x40]

  const LOW_TABLE: seq<Row> := [
    LOW_0, LOW_1, LOW_2, LOW_3, LOW_4, LOW_5, LOW_6, LOW_7,
    LOW_8, LOW_9, LOW_A, LOW_B, LOW_C, LOW_D, LOW_E, LOW_F]

  predicate Square(rows: seq<Row>) {
    |rows| == 16 && forall r :: 0 <= r < 16 ==> |rows[r]| == 16
  }

  function Entry(rows: seq<Row>, i: bv8): bv8
    requires Square(rows)
  {
    rows[(i >> 4) as int][(i & 0xF) as int]
  }

  lemma {:induction false} TablesAreSquare()
    ensures Square(HIGH_TABLE) && Square(LOW_TABLE)
  {
  }

  function Join(low: bv8, high: bv8): bv16 {
    ((high as bv16) << 8) | (low as bv16)
  }

  predicate RowAgrees(i: bv8, high: seq<bv8>, low: seq<bv8>)
    requires |high| == |low| == 16
  {
    Shift8(Wide(i)) == Join(high[(i & 0xF) as int], low[(i & 0xF) as int])
  }

  lemma {:induction false} Row0(i: bv8)
    requires i >> 4 == 0x0
    ensures RowAgrees(i, HIGH_0, LOW_0)
  {
  }

  lemma {:induction false} Row1(i: bv8)
    requires i >> 4 == 0x1
    ensures RowAgrees(i, HIGH_1, LOW_1)
  {
  }

  lemma {:induction false} Row2(i: bv8)
    requires i >> 4 == 0x2
    ensures RowAgrees(i, HIGH_2, LOW_2)
  {
  }

  lemma {:induction false} Row3(i: bv8)
    requires i >> 4 == 0x3
    ensures RowAgrees(i, HIGH_3, LOW_3)
  {
  }

  lemma {:induction false} Row4(i: bv8)
    requires i >> 4 == 0x4
    ensures RowAgrees(i, HIGH_4, LOW_4)
  {
  }

  lemma {:induction false} Row5(i: bv8)
    requires i >> 4 == 0x5
    ensures RowAgrees(i, HIGH_5, LOW_5)
  {
  }

  lemma {:induction false} Row6(i: bv8)
    requires i >> 4 == 0x6
    ensures RowAgrees(i, HIGH_6, LOW_6)
  {
  }

  lemma {:induction false} Row7(i: bv8)
    requires i >> 4 == 0x7
    ensures RowAgrees(i, HIGH_7, LOW_7)
  {
  }

  lemma {:induction false} Row8(i: bv8)
    requires i >> 4 == 0x8
    ensures RowAgrees(i, HIGH_8, LOW_8)
  {
  }

  lemma {:induction false} Row9(i: bv8)
    requires i >> 4 == 0x9
    ensures RowAgrees(i, HIGH_9, LOW_9)
  {
  }

  lemma {:induction false} RowA(i: bv8)
    requires i >> 4 == 0xA
    ensures RowAgrees(i, HIGH_A, LOW_A)
  {
  }

  lemma {:induction false} RowB(i: bv8)
    requires i >> 4 == 0xB
    ensures RowAgrees(i, HIGH_B, LOW_B)
  {
  }

  lemma {:induction false} RowC(i: bv8)
    requires i >> 4 == 0xC
    ensures RowAgrees(i, HIGH_C, LOW_C)
  {
  }

  lemma {:induction false} RowD(i: bv8)
    requires i >> 4 == 0xD
    ensures RowAgrees(i, HIGH_D, LOW_D)
  {
  }

  lemma {:induction false} RowE(i: bv8)
    requires i >> 4 == 0xE
    ensures RowAgrees(i, HIGH_E, LOW_E)
  {
  }

  lemma {:induction false} RowF(i: bv8)
    requires i >> 4 == 0xF
    ensures RowAgrees(i, HIGH_F, LOW_F)
  {
  }

  /** Entry `i` of the two tables is what eight shifts make of `i`. */
  lemma {:induction false} TablesAgree(i: bv8)
    ensures Square(HIGH_TABLE) && Square(LOW_TABLE)
    ensures Shift8(Wide(i)) == Join(Entry(HIGH_TABLE, i), Entry(LOW_TABLE, i))
  {
    TablesAreSquare();
    match i >> 4
    case 0x0 => Row0(i);
    case 0x1 => Row1(i);
    case 0x2 => Row2(i);
    case 0x3 => Row3(i);
    case 0x4 => Row4(i);
    case 0x5 => Row5(i);
    case 0x6 => Row6(i);
    case 0x7 => Row7(i);
    case 0x8 => Row8(i);
    case 0x9 => Row9(i);
    case 0xA => RowA(i);
    case 0xB => RowB(i);
    case 0xC => RowC(i);
    case 0xD => RowD(i);
    case 0xE => RowE(i);
    case 0xF => RowF(i);
    case _ =>
  }

  // ---------- the program ----------

  function HighPart(high: bv8): bv16 {
    (high as bv16) << 8
  }

  lemma {:induction false} XorLow(low: bv8, high: bv8, b: bv8)
    ensures Xor(Join(low, high), Wide(b)) == Xor(HighPart(high), Wide(low ^ b))
  {
  }

  lemma {:induction false} XorHigh(high: bv8, low: bv8, l: bv8)
    ensures Xor(Wide(high), Join(low, l)) == Join(high ^ low, l)
  {
  }

  lemma {:induction false} HighHalf(high: bv8)
    ensures Shift8(HighPart(high)) == Wide(high)
  {
  }

  /** What the program does with a byte, the two halves of the register in `low` and `high`. */
  lemma {:induction false} StepAgrees(low: bv8, high: bv8, b: bv8)
    ensures Square(HIGH_TABLE) && Square(LOW_TABLE)
    ensures Join(high ^ Entry(HIGH_TABLE, low ^ b), Entry(LOW_TABLE, low ^ b)) == AddByte(Join(low, high), b)
  {
    TablesAgree(low ^ b);
    var h, l := Entry(HIGH_TABLE, low ^ b), Entry(LOW_TABLE, low ^ b);
    XorLow(low, high, b);
    Shift8IsLinear(HighPart(high), Wide(low ^ b));
    HighHalf(high);
    XorHigh(high, h, l);
  }

  /** One round of the loop. */
  method Update(height: bv8, low: bv8, b: bv8) returns (newHeight: bv8, newLow: bv8)
    ensures Join(newHeight, newLow) == AddByte(Join(height, low), b)
  {
    StepAgrees(height, low, b);
    var index := height ^ b;
    newHeight := low ^ Entry(HIGH_TABLE, index);
    newLow := Entry(LOW_TABLE, index);
  }

  /** The two tables compute the register of the bit-by-bit definition, for every byte string. The low half of the
      register is kept in the field called `height_`; the two halves are swapped at the end. */
  method Crc16(data: Bytes) returns (crc: bv16)
    ensures crc == Register(data)
  {
    var height: bv8, low: bv8 := 0xFF, 0xFF;
    assert Join(height, low) == Register([]);
    for i := 0 to |data|
      invariant Join(height, low) == Register(data[..i])
    {
      RegisterSnoc(data[..i], data[i]);
      assert data[..i + 1] == data[..i] + [data[i]];
      height, low := Update(height, low, Bits(data[i]));
    }
    assert data[..|data|] == data;
    low, height := height, low;
    crc := Join(low, height);
  }

  // ---------- what the check is worth ----------

  lemma {:induction false} XorIsInjective(c: bv16, d: bv16, x: bv8, y: bv8)
    ensures Xor(c, Wide(x)) == Xor(d, Wide(x)) ==> c == d
    ensures Xor(c, Wide(x)) == Xor(c, Wide(y)) ==> x == y
  {
  }

  /** Different registers stay different under the same byte, and one register becomes different under different
      bytes. */
  lemma {:induction false} AddByteDistinguishes(c: bv16, d: bv16, x: bv8, y: bv8)
    ensures AddByte(c, x) == AddByte(d, x) ==> c == d
    ensures AddByte(c, x) == AddByte(c, y) ==> x == y
  {
    XorIsInjective(c, d, x, y);
    if AddByte(c, x) == AddByte(d, x) {
      Shift8IsInjective(Xor(c, Wide(x)), Xor(d, Wide(x)));
    }
    if AddByte(c, x) == AddByte(c, y) {
      Shift8IsInjective(Xor(c, Wide(x)), Xor(c, Wide(y)));
    }
  }

  lemma {:induction false} DifferenceStays(a: Bytes, b: Bytes, rest: Bytes)
    requires Register(a) != Register(b)
    ensures Register(a + rest) != Register(b + rest)
  {
    if rest == [] {
      assert a + rest == a && b + rest == b;
    } else {
      var init, x := rest[..|rest| - 1], rest[|rest| - 1];
      assert a + rest == (a + init) + [x] && b + rest == (b + init) + [x];
      DifferenceStays(a, b, init);
      RegisterSnoc(a + init, x);
      RegisterSnoc(b + init, x);
      AddByteDistinguishes(Register(a + init), Register(b + init), Bits(x), Bits(x));
    }
  }

  /** A change confined to one byte always changes the check. */
  lemma {:induction false} OneByteIsDetected(before: Bytes, x: Byte, y: Byte, after: Bytes)
    requires x != y
    ensures Register(before + [x] + after) != Register(before + [y] + after)
  {
    RegisterSnoc(before, x);
    RegisterSnoc(before, y);
    assert Bits(x) as int != Bits(y) as int;
    AddByteDistinguishes(Register(before), Register(before), Bits(x), Bits(y));
    DifferenceStays(before + [x], before + [y], after);
  }

  lemma {:induction false} SameBits(x: Byte, u: bv8)
    requires u as int == x as int
    ensures Bits(x) == u
  {
  }

  lemma {:induction false} OneMore(data: Bytes, x: Byte, u: bv8)
    requires u as int == x as int
    ensures Register(data + [x]) == AddByte(Register(data), u)
  {
    SameBits(x, u);
    RegisterSnoc(data, x);
  }

  lemma {:induction false} ThreeMore(
      data: Bytes, x: Byte, y: Byte, z: Byte, u: bv8, v: bv8, w: bv8, b: bv16, c: bv16, d: bv16)
    requires u as int == x as int && v as int == y as int && w as int == z as int
    requires AddByte(Register(data), u) == b && AddByte(b, v) == c && AddByte(c, w) == d
    ensures Register(data + [x, y, z]) == d
  {
    OneMore(data, x, u);
    OneMore(data + [x], y, v);
    OneMore(data + [x] + [y], z, w);
    assert data + [x, y, z] == data + [x] + [y] + [z];
  }

  lemma {:induction false} CheckPart1(data: Bytes)
    requires Register(data) == 0xFFFF
    ensures Register(data + [0x31, 0x32, 0x33]) == 0x7A75
  {
    ThreeMore(data, 0x31, 0x32, 0x33, 0x31, 0x32, 0x33, 0x947E, 0xF595, 0x7A75);
  }

  lemma {:induction false} CheckPart2(data: Bytes)
    requires Register(data) == 0x7A75
    ensures Register(data + [0x34, 0x35, 0x36]) == 0x32E4
  {
    ThreeMore(data, 0x34, 0x35, 0x36, 0x34, 0x35, 0x36, 0x30BA, 0xA471, 0x32E4);
  }

  lemma {:induction false} CheckPart3(data: Bytes)
    requires Register(data) == 0x32E4
    ensures Register(data + [0x37, 0x38, 0x39]) == 0x4B37
  {
    ThreeMore(data, 0x37, 0x38, 0x39, 0x37, 0x38, 0x39, 0x9D73, 0x37DD, 0x4B37);
  }

  /** The value published for the digits 1 to 9, which the repository's own test expects. */
  lemma {:induction false} CheckValue(data: Bytes)
    requires data == [0x31, 0x32, 0x33, 0x34, 0x35, 0x36, 0x37, 0x38, 0x39]
    ensures Register(data) == 0x4B37
  {
    CheckPart1([]);
    assert [] + [0x31, 0x32, 0x33] == data[..3];
    CheckPart2(data[..3]);
    assert data[..3] + [0x34, 0x35, 0x36] == data[..6];
    CheckPart3(data[..6]);
    assert data[..6] + [0x37, 0x38, 0x39] == data;
  }
}
