/** Byte strings, the default key order, and what a user-supplied key order must satisfy. */
module Buffers {

  newtype Byte = x: int | 0 <= x < 256

  type Bytes = seq<Byte>

  /** How many values a 64-bit unsigned integer has. */
  const UINT64_COUNT: nat := 0x1_0000_0000_0000_0000

  type Key = Bytes

  /** A comparator answers -1, 0 or 1, as `BufferCompare` does. */
  type Comparator = (Key, Key) -> int

  datatype Option<+T> = None | Some(value: T)

  function Get<K, V>(m: map<K, V>, k: K): Option<V> {
    if k in m then Some(m[k]) else None
  }

  ghost predicate IsComparator(cmp: Comparator) {
    && (forall a, b :: cmp(a, b) == -1 || cmp(a, b) == 0 || cmp(a, b) == 1)
    && (forall a, b :: cmp(a, b) == 0 <==> a == b)
    && (forall a, b :: cmp(a, b) == -cmp(b, a))
    && (forall a, b, c :: cmp(a, b) == -1 && cmp(b, c) == -1 ==> cmp(a, c) == -1)
  }

  predicate Le(cmp: Comparator, a: Key, b: Key) {
    cmp(a, b) != 1
  }

  /** Lexicographic order on bytes, a proper prefix first. */
  function BufferCompare(a: Bytes, b: Bytes): int {
    if a == [] then (if b == [] then 0 else -1)
    else if b == [] then 1
    else if a[0] != b[0] then (if a[0] < b[0] then -1 else 1)
    else BufferCompare(a[1..], b[1..])
  }

  lemma {:induction false} CompareEqual(a: Bytes, b: Bytes)
    ensures BufferCompare(a, b) == 0 <==> a == b
    ensures BufferCompare(a, b) == -BufferCompare(b, a)
    ensures -1 <= BufferCompare(a, b) <= 1
  {
    if a != [] && b != [] && a[0] == b[0] {
      CompareEqual(a[1..], b[1..]);
      assert a == [a[0]] + a[1..] && b == [b[0]] + b[1..];
    }
  }

  lemma {:induction false} CompareTransitive(a: Bytes, b: Bytes, c: Bytes)
    requires BufferCompare(a, b) == -1 && BufferCompare(b, c) == -1
    ensures BufferCompare(a, c) == -1
  {
    if a != [] && a[0] == b[0] == c[0] {
      CompareTransitive(a[1..], b[1..], c[1..]);
    }
  }

  /** The bytes agree up to `i`, and `a` is smaller there, or at its end. */
  predicate SmallerAt(a: Bytes, b: Bytes, i: nat) {
    && i <= |a| && i < |b| && a[..i] == b[..i]
    && (i == |a| || a[i] < b[i])
  }

  /** The first byte that differs decides, as a number from 0 to 255, and a proper prefix is smaller. */
  lemma {:induction false} FirstDifferenceDecides(a: Bytes, b: Bytes)
    ensures BufferCompare(a, b) == -1 <==> exists i: nat :: SmallerAt(a, b, i)
    ensures BufferCompare(a, b) == 1 <==> exists i: nat :: SmallerAt(b, a, i)
  {
    CompareEqual(a, b);
    SmallerIff(a, b);
    SmallerIff(b, a);
  }

  lemma {:induction false} SmallerIff(a: Bytes, b: Bytes)
    ensures BufferCompare(a, b) == -1 <==> exists i: nat :: SmallerAt(a, b, i)
  {
    if a == [] || b == [] || a[0] != b[0] {
      if BufferCompare(a, b) == -1 {
        assert SmallerAt(a, b, 0);
      }
      assert forall i: nat :: SmallerAt(a, b, i) && i > 0 ==> a[..i][0] == b[..i][0];
    } else {
      SmallerIff(a[1..], b[1..]);
      if i: nat :| SmallerAt(a[1..], b[1..], i) {
        assert a[..i + 1] == [a[0]] + a[1..][..i] && b[..i + 1] == [b[0]] + b[1..][..i];
        assert SmallerAt(a, b, i + 1);
      }
      if i: nat :| SmallerAt(a, b, i) {
        assert a[1..][..i - 1] == a[..i][1..] && b[1..][..i - 1] == b[..i][1..];
        assert SmallerAt(a[1..], b[1..], i - 1);
      }
    }
  }

  /** The default order is an admissible comparator: everything proved for any comparator holds for it. */
  lemma {:induction false} BufferCompareIsComparator()
    ensures IsComparator(BufferCompare)
  {
    forall a, b
      ensures BufferCompare(a, b) == 0 <==> a == b
      ensures BufferCompare(a, b) == -BufferCompare(b, a)
      ensures -1 <= BufferCompare(a, b) <= 1
    {
      CompareEqual(a, b);
    }
    forall a, b, c | BufferCompare(a, b) == -1 && BufferCompare(b, c) == -1
      ensures BufferCompare(a, c) == -1
    {
      CompareTransitive(a, b, c);
    }
  }
}
