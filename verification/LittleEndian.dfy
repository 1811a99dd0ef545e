/** Integers as they lie in memory and files on a little-endian machine. */
module LittleEndian {
  import opened Buffers

  function Power256(k: nat): nat {
    if k == 0 then 1 else 256 * Power256(k - 1)
  }

  function ToLe(n: nat, k: nat): (s: Bytes)
    ensures |s| == k
  {
    if k == 0 then [] else [(n % 256) as Byte] + ToLe(n / 256, k - 1)
  }

  function FromLe(s: Bytes): nat {
    if s == [] then 0 else s[0] as nat + 256 * FromLe(s[1..])
  }

  lemma {:induction false} LeRoundTrip(n: nat, k: nat)
    requires n < Power256(k)
    ensures FromLe(ToLe(n, k)) == n
  {
    if k > 0 {
      LeRoundTrip(n / 256, k - 1);
      assert ToLe(n, k)[1..] == ToLe(n / 256, k - 1);
    }
  }

  lemma {:induction false} Reassociate(p: nat, x: nat)
    ensures 256 * (p * x) == (256 * p) * x
  {
  }

  /** The lowest byte comes first, and each following one counts 256 times as much. */
  lemma {:induction false} LowestFirst(low: Bytes, x: Byte, high: Bytes)
    ensures FromLe(low + [x] + high) == FromLe(low) + Power256(|low|) * (x as nat + 256 * FromLe(high))
  {
    var s := low + [x] + high;
    if low == [] {
      assert s == [x] + high;
    } else {
      assert s[1..] == low[1..] + [x] + high;
      LowestFirst(low[1..], x, high);
      Reassociate(Power256(|low| - 1), x as nat + 256 * FromLe(high));
    }
  }

  lemma {:induction false} Le64RoundTrip(n: nat)
    requires n < UINT64_COUNT
    ensures FromLe(ToLe(n, 8)) == n
  {
    assert Power256(8) == UINT64_COUNT by {
      assert Power256(2) == 0x1_0000 && Power256(4) == 0x1_0000_0000 && Power256(6) == 0x1_0000_0000_0000;
    }
    LeRoundTrip(n, 8);
  }
}
