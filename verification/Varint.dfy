/** Variable-length integers: seven bits a byte, the lowest first, the top bit set on all but the last byte. */
module Varints {
  import opened Buffers

  const MAX_VARINT: nat := 10

  function Encode(v: nat): (s: Bytes)
    ensures s != []
  {
    if v < 128 then [v as Byte] else [(v % 128 + 128) as Byte] + Encode(v / 128)
  }

  /** What `Set` copies: at most ten bytes, the last of which always ends the number. */
  function Window(data: Bytes): (w: Bytes)
    requires data != []
    ensures w != [] && w <= data
  {
    if |data| < MAX_VARINT then data else data[..MAX_VARINT]
  }

  /** Counts the bytes up to the first one without the top bit. */
  function Length(w: Bytes): (n: nat)
    requires w != []
    ensures 1 <= n <= |w|
  {
    if |w| == 1 || w[0] < 128 then 1 else 1 + Length(w[1..])
  }

  const INT_COUNT: nat := 0x8000_0000

  /** Each group of seven bits is shifted as a 32-bit `int` before it is added to the result. A shift whose result does
      not fit leaves the language undefined, which is `None` here. `unit` is 128 to the number of the group. */
  function Value(w: Bytes, unit: nat): Option<nat>
    requires w != []
  {
    var x := (w[0] as nat % 128) * unit;
    if unit > 0x1000_0000 || x >= INT_COUNT then None
    else if |w| == 1 || w[0] < 128 then Some(x)
    else
      var rest := Value(w[1..], 128 * unit);
      if rest.None? then None else Some(x + rest.value)
  }

  function ComputeSize(data: Bytes): nat
    requires data != []
  {
    Length(Window(data))
  }

  function Get(data: Bytes): Option<nat>
    requires data != []
  {
    Value(Window(data), 1)
  }

  // ---------- what is decoded ----------

  lemma {:induction false} EncodedBytes(v: nat)
    ensures v < 128 ==> Encode(v) == [v as Byte]
    ensures v >= 128 ==> Encode(v)[0] as nat == v % 128 + 128 && Encode(v)[1..] == Encode(v / 128)
  {
  }

  /** The number ends itself, whatever follows. */
  lemma {:induction false} SelfDelimiting(v: nat, rest: Bytes)
    ensures Length(Encode(v) + rest) == |Encode(v)|
  {
    if v >= 128 {
      SelfDelimiting(v / 128, rest);
      assert (Encode(v) + rest)[1..] == Encode(v / 128) + rest;
    }
  }

  predicate IsUnit(unit: nat) {
    unit == 1 || unit == 0x80 || unit == 0x4000 || unit == 0x20_0000 || unit == 0x1000_0000 || unit == 0x8_0000_0000
  }

  /** The lowest group and the others make up the number, and only the others can take it past an `int`,
      except for the fifth group. */
  lemma {:induction false} Groups(v: nat, unit: nat)
    requires IsUnit(unit) && v >= 128
    ensures v * unit == (v % 128) * unit + (v / 128) * (128 * unit)
    ensures unit <= 0x20_0000 ==>
            (v % 128) * unit < INT_COUNT && (v * unit >= INT_COUNT <==> (v / 128) * (128 * unit) >= INT_COUNT)
    ensures unit == 0x1000_0000 ==> v * unit >= INT_COUNT
  {
  }

  lemma {:induction false} NextUnit(unit: nat)
    requires IsUnit(unit) && unit <= 0x1000_0000
    ensures IsUnit(128 * unit) && (128 * unit <= 0x1000_0000 <==> unit <= 0x20_0000)
  {
  }

  /** One step of the decoding of a number of more than one byte. */
  lemma {:induction false} ValueStep(v: nat, unit: nat, rest: Bytes)
    requires v >= 128 && unit <= 0x1000_0000
    ensures var x, others := (v % 128) * unit, Value(Encode(v / 128) + rest, 128 * unit);
            Value(Encode(v) + rest, unit)
            == if x >= INT_COUNT || others.None? then None else Some(x + others.value)
  {
    var w := Encode(v) + rest;
    EncodedBytes(v);
    assert w[1..] == Encode(v / 128) + rest;
    assert w[0] as nat == v % 128 + 128 && (v % 128 + 128) % 128 == v % 128;
  }

  /** A number is decoded if and only if it fits into a 32-bit `int`. */
  lemma {:induction false} ValueExact(v: nat, unit: nat, rest: Bytes)
    requires IsUnit(unit)
    ensures Value(Encode(v) + rest, unit)
            == if unit <= 0x1000_0000 && v * unit < INT_COUNT then Some(v * unit) else None
  {
    if unit <= 0x1000_0000 {
      if v >= 128 {
        NextUnit(unit);
        Groups(v, unit);
        ValueExact(v / 128, 128 * unit, rest);
        ValueStep(v, unit, rest);
      } else {
        EncodedBytes(v);
        assert (Encode(v) + rest)[0] as nat == v && v % 128 == v;
      }
    }
  }

  /** Nothing of 64 bits needs more than ten bytes. */
  lemma {:induction false} AtMostTen(v: nat)
    requires v < UINT64_COUNT
    ensures |Encode(v)| <= MAX_VARINT
  {
    Shorter(v, 9);
  }

  function Power128(n: nat): nat {
    if n == 0 then 1 else 128 * Power128(n - 1)
  }

  lemma {:induction false} ByPower(v: nat, n: nat)
    requires v < Power128(n + 1)
    ensures |Encode(v)| <= n + 1
  {
    if v >= 128 {
      ByPower(v / 128, n - 1);
    }
  }

  lemma {:induction false} Shorter(v: nat, n: nat)
    requires n == 9 && v < UINT64_COUNT
    ensures |Encode(v)| <= n + 1
  {
    assert Power128(2) == 0x4000 && Power128(4) == 0x1000_0000 && Power128(6) == 0x400_0000_0000
        && Power128(8) == 0x100_0000_0000_0000;
    assert Power128(10) == 0x40_0000_0000_0000_0000;
    ByPower(v, n);
  }

  lemma {:induction false} WindowOf(v: nat, rest: Bytes)
    requires v < UINT64_COUNT
    ensures exists more :: Window(Encode(v) + rest) == Encode(v) + more
  {
    AtMostTen(v);
    var data := Encode(v) + rest;
    if |data| < MAX_VARINT {
      assert Window(data) == Encode(v) + rest;
    } else {
      assert data[..MAX_VARINT] == Encode(v) + rest[..MAX_VARINT - |Encode(v)|];
    }
  }

  /** Reading back what was written gives the length written, and the number if and only if it is below 2^31. */
  lemma {:induction false} RoundTrip(v: nat, rest: Bytes)
    requires v < UINT64_COUNT
    ensures ComputeSize(Encode(v) + rest) == |Encode(v)|
    ensures Get(Encode(v) + rest) == if v < INT_COUNT then Some(v) else None
  {
    WindowOf(v, rest);
    var more :| Window(Encode(v) + rest) == Encode(v) + more;
    SelfDelimiting(v, more);
    ValueExact(v, 1, more);
  }

  // ---------- what the bytes mean ----------

  /** The groups of seven bits up to the first byte without the top bit, the lowest first. */
  function Number(w: Bytes): nat
    requires w != []
  {
    w[0] as nat % 128 + if |w| == 1 || w[0] < 128 then 0 else 128 * Number(w[1..])
  }

  /** A number is written as its groups, in as few bytes as possible. */
  lemma {:induction false} WrittenAsGroups(v: nat)
    ensures Number(Encode(v)) == v && Length(Encode(v)) == |Encode(v)|
    ensures |Encode(v)| > 1 ==> Encode(v)[|Encode(v)| - 1] > 0
    ensures forall i :: 0 <= i < |Encode(v)| ==> (Encode(v)[i] >= 128 <==> i + 1 < |Encode(v)|)
  {
    EncodedBytes(v);
    if v >= 128 {
      WrittenAsGroups(v / 128);
      assert forall i :: 0 < i < |Encode(v)| ==> Encode(v)[i] == Encode(v / 128)[i - 1];
    }
  }

  function UnitOf(k: nat): (unit: nat)
    requires k <= 5
    ensures IsUnit(unit)
  {
    match k
    case 0 => 1
    case 1 => 0x80
    case 2 => 0x4000
    case 3 => 0x20_0000
    case 4 => 0x1000_0000
    case _ => 0x8_0000_0000
  }

  lemma {:induction false} GroupAbove(k: nat, low: nat, high: nat)
    requires k < 5
    ensures UnitOf(k + 1) == 128 * UnitOf(k)
    ensures UnitOf(k) * (low + 128 * high) == UnitOf(k) * low + UnitOf(k + 1) * high
  {
  }

  /** Which buffers are read, whether or not the program could have written them: those of at most five groups, the
      fifth below 8; and then what they mean. `k` groups have been read before. */
  lemma {:induction false} ReadAsGroups(w: Bytes, k: nat)
    requires w != [] && k <= 5
    ensures Value(w, UnitOf(k))
            == if k + Length(w) > 5 || (k + Length(w) == 5 && w[4 - k] as nat % 128 >= 8) then None
               else Some(UnitOf(k) * Number(w))
  {
    if k < 5 && |w| > 1 && w[0] >= 128 {
      ReadAsGroups(w[1..], k + 1);
      GroupAbove(k, w[0] as nat % 128, Number(w[1..]));
    }
  }

  lemma {:induction false} GetExact(data: Bytes)
    requires data != []
    ensures var n := ComputeSize(data);
            Get(data) == if n > 5 || (n == 5 && data[4] as nat % 128 >= 8) then None else Some(Number(Window(data)))
  {
    ReadAsGroups(Window(data), 0);
  }

  // ---------- the loops ----------

  /** The loop of `Set`. */
  method Store(value: nat) returns (data: Bytes)
    ensures data == Encode(value)
  {
    data := [];
    var val := value;
    while val > 127
      invariant data + Encode(val) == Encode(value)
    {
      EncodedBytes(val);
      assert data + Encode(val) == data + [Encode(val)[0]] + Encode(val)[1..];
      data := data + [(val % 128 + 128) as Byte];
      val := val / 128;
    }
    data := data + [val as Byte];
  }

  function Plus(value: nat, rest: Option<nat>): Option<nat> {
    if rest.None? then None else Some(value + rest.value)
  }

  /** What a byte adds; nothing where the shift is undefined. */
  method Shifted(b: Byte, unit: nat) returns (x: Option<nat>)
    ensures x == Value([b], unit)
  {
    var y := (b as nat % 128) * unit;
    x := if unit > 0x1000_0000 || y >= INT_COUNT then None else Some(y);
  }

  lemma {:induction false} OneGroup(w: Bytes, unit: nat, sum: nat)
    requires w != []
    ensures var x := Value([w[0]], unit);
            Plus(sum, Value(w, unit))
            == if x.None? then None
               else if |w| == 1 || w[0] < 128 then Some(sum + x.value)
               else Plus(sum + x.value, Value(w[1..], 128 * unit))
  {
  }

  /** The loop of `ComputeSize`. */
  method CountBytes(data: Bytes) returns (size: nat)
    requires data != []
    ensures size == ComputeSize(data)
  {
    var w := Window(data);
    size := 1;
    assert w[0..] == w;
    while size < |w| && w[size - 1] >= 128
      invariant 1 <= size <= |w| && Length(w) == size - 1 + Length(w[size - 1..])
    {
      assert w[size - 1..][1..] == w[size..];
      size := size + 1;
    }
  }

  /** The loop of `Get`; nothing where a shift is undefined. */
  method Load(data: Bytes) returns (value: Option<nat>)
    requires data != []
    ensures value == Get(data)
  {
    var w := Window(data);
    var i: nat, unit: nat, sum: nat := 0, 1, 0;
    assert w[0..] == w;
    while i < |w| - 1 && w[i] >= 128
      invariant i < |w| && Value(w, 1) == Plus(sum, Value(w[i..], unit))
    {
      assert w[i..][1..] == w[i + 1..];
      OneGroup(w[i..], unit, sum);
      var x := Shifted(w[i], unit);
      if x.None? {
        return None;
      }
      sum := sum + x.value;
      unit := 128 * unit;
      i := i + 1;
    }
    OneGroup(w[i..], unit, sum);
    var x := Shifted(w[i], unit);
    return if x.None? then None else Some(sum + x.value);
  }
}
