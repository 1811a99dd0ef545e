/** One key and its value in a data block: the key without the prefix it shares with the first key of its group. */
module SstPairs {
  import opened Buffers
  import opened Varints

  datatype Pair = Pair(shared: nat, unique: nat, key: Bytes, value: Bytes)

  predicate Valid(p: Pair) {
    p.shared + p.unique == |p.key|
  }

  /** Lengths are 64-bit. */
  predicate Sized(p: Pair) {
    |p.key| < UINT64_COUNT && |p.value| < UINT64_COUNT
  }

  /** The lengths a reader gets back. */
  predicate Fits(p: Pair) {
    p.shared < INT_COUNT && p.unique < INT_COUNT && |p.value| < INT_COUNT
  }

  type Writer = nat -> Bytes

  function StoreWith(write: Writer, p: Pair): Bytes
    requires Valid(p)
  {
    write(p.shared) + write(p.unique) + p.key[p.shared..] + write(|p.value|) + p.value
  }

  function Store(p: Pair): (s: Bytes)
    requires Valid(p)
    ensures |s| >= 3
  {
    StoreWith(Encode, p)
  }

  /** The number at `offset` and where it ends. Reading at the very end is undefined in the program: nothing here. */
  function TakeVarint(data: Bytes, offset: nat): (r: Option<(nat, nat)>)
    ensures r.Some? ==> offset < r.value.1 <= |data|
  {
    if offset >= |data| then None
    else
      var v := Varints.Get(data[offset..]);
      if v.None? then None else Some((v.value, offset + Varints.ComputeSize(data[offset..])))
  }

  function Zeros(n: nat): (s: Bytes)
    ensures |s| == n
  {
    seq(n, _ => 0)
  }

  /** Reads a number at an offset and tells where it ends. */
  type Reader = (Bytes, nat) -> Option<(nat, nat)>

  ghost predicate Reads(take: Reader, data: Bytes) {
    forall i: nat :: take(data, i).Some? ==> i < take(data, i).value.1 <= |data|
  }

  /** The part behind the lengths of the key: the unique bytes, then the value. The shared part is left blank. */
  function LoadRest(take: Reader, data: Bytes, shared: nat, unique: nat, keyAt: nat): (r: Option<(Pair, nat)>)
    requires Reads(take, data) && keyAt <= |data|
    ensures r.Some? ==> keyAt < r.value.1 <= |data| && Valid(r.value.0)
  {
    if keyAt + unique > |data| then None
    else
      var size := take(data, keyAt + unique);
      if size.None? || size.value.1 + size.value.0 > |data| then None
      else
        Some((Pair(shared, unique, Zeros(shared) + data[keyAt..keyAt + unique],
                   data[size.value.1..size.value.1 + size.value.0]),
              size.value.1 + size.value.0))
  }

  function LoadWith(take: Reader, data: Bytes): (r: Option<(Pair, nat)>)
    requires Reads(take, data)
    ensures r.Some? ==> 0 < r.value.1 <= |data| && Valid(r.value.0)
  {
    if |data| < 3 then None
    else
      var shared := take(data, 0);
      if shared.None? then None
      else
        var unique := take(data, shared.value.1);
        if unique.None? then None else LoadRest(take, data, shared.value.0, unique.value.0, unique.value.1)
  }

  /** A pair and its length. */
  function Load(data: Bytes): (r: Option<(Pair, nat)>)
    ensures r.Some? ==> 0 < r.value.1 <= |data| && Valid(r.value.0)
  {
    LoadWith(TakeVarint, data)
  }

  function Blank(p: Pair): Pair
    requires Valid(p)
  {
    p.(key := Zeros(p.shared) + p.key[p.shared..])
  }

  predicate At(data: Bytes, i: nat, s: Bytes) {
    i + |s| <= |data| && data[i..i + |s|] == s
  }

  /** `e` is read back as `v`, whatever follows, if `v` is below 2^31, and not at all otherwise. */
  ghost predicate IsNumber(e: Bytes, v: nat) {
    && e != []
    && forall rest: Bytes ::
         Varints.ComputeSize(e + rest) == |e| && Varints.Get(e + rest) == if v < INT_COUNT then Some(v) else None
  }

  lemma {:induction false} EncodeIsNumber(v: nat)
    requires v < UINT64_COUNT
    ensures IsNumber(Encode(v), v)
  {
    forall rest: Bytes
      ensures Varints.ComputeSize(Encode(v) + rest) == |Encode(v)|
              && Varints.Get(Encode(v) + rest) == if v < INT_COUNT then Some(v) else None
    {
      RoundTrip(v, rest);
    }
  }

  lemma {:induction false} NumberAt(data: Bytes, i: nat, e: Bytes, v: nat)
    requires At(data, i, e) && IsNumber(e, v)
    ensures TakeVarint(data, i) == if v < INT_COUNT then Some((v, i + |e|)) else None
  {
    var rest := data[i + |e|..];
    assert data[i..] == e + rest;
    assert Varints.ComputeSize(e + rest) == |e|;
  }

  /** The pieces found where they should be make up the pair. */
  lemma {:induction false} LoadPieces(take: Reader, p: Pair, data: Bytes, l: nat, m: nat, n: nat)
    requires Reads(take, data) && Valid(p) && |data| >= 3 && l < m && m + p.unique <= n
    requires take(data, 0) == if p.shared < INT_COUNT then Some((p.shared, l)) else None
    requires take(data, l) == if p.unique < INT_COUNT then Some((p.unique, m)) else None
    requires take(data, m + p.unique) == if |p.value| < INT_COUNT then Some((|p.value|, n)) else None
    requires At(data, m, p.key[p.shared..]) && At(data, n, p.value)
    ensures LoadWith(take, data) == if Fits(p) then Some((Blank(p), n + |p.value|)) else None
  {
  }

  lemma {:induction false} EncodedAt(data: Bytes, i: nat, v: nat)
    requires v < UINT64_COUNT && At(data, i, Encode(v))
    ensures TakeVarint(data, i) == if v < INT_COUNT then Some((v, i + |Encode(v)|)) else None
  {
    EncodeIsNumber(v);
    NumberAt(data, i, Encode(v), v);
  }

  lemma {:induction false} FivePieces(a: Bytes, b: Bytes, c: Bytes, d: Bytes, e: Bytes, rest: Bytes, data: Bytes)
    requires data == a + b + c + d + e + rest
    ensures At(data, 0, a) && At(data, |a|, b) && At(data, |a| + |b|, c)
    ensures At(data, |a| + |b| + |c|, d) && At(data, |a| + |b| + |c| + |d|, e)
  {
  }

  /** A number written at a place of `data` is read back there if it is below 2^31, and not at all otherwise. */
  ghost predicate MatchesAt(write: Writer, take: Reader, data: Bytes, i: nat, v: nat) {
    v < UINT64_COUNT && At(data, i, write(v)) ==>
      write(v) != [] && take(data, i) == if v < INT_COUNT then Some((v, i + |write(v)|)) else None
  }

  ghost predicate Matches(write: Writer, take: Reader, data: Bytes) {
    forall i: nat, v: nat :: MatchesAt(write, take, data, i, v)
  }

  lemma {:induction false} LoadStoredWith(write: Writer, take: Reader, p: Pair, rest: Bytes, data: Bytes)
    requires Valid(p) && Sized(p) && data == StoreWith(write, p) + rest
    requires Reads(take, data) && Matches(write, take, data)
    ensures LoadWith(take, data) == if Fits(p) then Some((Blank(p), |StoreWith(write, p)|)) else None
  {
    var a, b, size := write(p.shared), write(p.unique), write(|p.value|);
    FivePieces(a, b, p.key[p.shared..], size, p.value, rest, data);
    assert MatchesAt(write, take, data, 0, p.shared);
    assert MatchesAt(write, take, data, |a|, p.unique);
    assert MatchesAt(write, take, data, |a| + |b| + p.unique, |p.value|);
    LoadPieces(take, p, data, |a|, |a| + |b|, |a| + |b| + p.unique + |size|);
  }

  /** A stored pair is read back, whatever follows, if and only if its three lengths are below 2^31. */
  lemma {:induction false} LoadStored(p: Pair, rest: Bytes)
    requires Valid(p) && Sized(p)
    ensures Load(Store(p) + rest) == if Fits(p) then Some((Blank(p), |Store(p)|)) else None
  {
    EncodeMatches(Store(p) + rest);
    LoadStoredWith(Encode, TakeVarint, p, rest, Store(p) + rest);
  }

  lemma {:induction false} EncodeMatches(data: Bytes)
    ensures Matches(Encode, TakeVarint, data)
  {
    forall i: nat, v: nat ensures MatchesAt(Encode, TakeVarint, data, i, v) {
      if v < UINT64_COUNT && At(data, i, Encode(v)) {
        EncodedAt(data, i, v);
      }
    }
  }

  /** The bytes of a stored pair: both lengths of the key, what of it is its own, the length of the value, the value. */
  lemma {:induction false} StoredPieces(p: Pair)
    requires Valid(p)
    ensures var data, a, b, size := Store(p), Encode(p.shared), Encode(p.unique), Encode(|p.value|);
            && At(data, 0, a) && At(data, |a|, b) && At(data, |a| + |b|, p.key[p.shared..])
            && At(data, |a| + |b| + p.unique, size) && At(data, |a| + |b| + p.unique + |size|, p.value)
            && |data| == |a| + |b| + p.unique + |size| + |p.value|
  {
    FivePieces(Encode(p.shared), Encode(p.unique), p.key[p.shared..], Encode(|p.value|), p.value, [], Store(p));
  }

  // ---------- in memory ----------

  method MemCpy(data: array<Byte>, at: nat, s: Bytes)
    requires at + |s| <= data.Length
    modifies data
    ensures data[..] == old(data[..at]) + s + old(data[at + |s|..])
  {
    for i := 0 to |s|
      invariant data[..at] == old(data[..at]) && data[at..at + i] == s[..i] && data[at + i..] == old(data[at + i..])
    {
      data[at + i] := s[i];
      assert s[..i + 1] == s[..i] + [s[i]];
      assert data[at..at + i + 1] == data[at..at + i] + [s[i]];
    }
    assert data[..] == data[..at] + data[at..at + |s|] + data[at + |s|..];
  }

  /** `done` has been stored between `before` and what is left of `after`. */
  predicate Holds(data: Bytes, before: Bytes, done: Bytes, after: Bytes) {
    |done| <= |after| && data == before + done + after[|done|..]
  }

  lemma {:induction false} Started(data: Bytes, at: nat)
    requires at <= |data|
    ensures Holds(data, data[..at], [], data[at..])
  {
  }

  lemma {:induction false} CopiedBehind(data: Bytes, before: Bytes, done: Bytes, after: Bytes, s: Bytes)
    requires Holds(data, before, done, after) && |done| + |s| <= |after|
    ensures |data| == |before| + |after|
    ensures Holds(data[..|before| + |done|] + s + data[|before| + |done| + |s|..], before, done + s, after)
  {
  }

  /** Copies behind what has been stored so far. */
  method Append(data: array<Byte>, at: nat, s: Bytes, ghost before: Bytes, ghost done: Bytes, ghost after: Bytes)
    requires Holds(data[..], before, done, after) && at == |before| + |done| && |done| + |s| <= |after|
    modifies data
    ensures Holds(data[..], before, done + s, after)
  {
    CopiedBehind(data[..], before, done, after, s);
    assert data[..at] == data[..][..at] && data[at + |s|..] == data[..][at + |s|..];
    MemCpy(data, at, s);
  }

  method PairSize(p: Pair) returns (size: nat)
    requires Valid(p)
    ensures size == |Store(p)|
  {
    var builder := Varints.Store(p.shared);
    size := |builder|;
    builder := Varints.Store(p.unique);
    size := size + |builder| + p.unique;
    builder := Varints.Store(|p.value|);
    size := size + |builder| + |p.value|;
  }

  /** Stores behind what is there; the buffer must be large enough. */
  method UnsafeStoreTo(p: Pair, data: array<Byte>, at: nat, ghost before: Bytes, ghost done: Bytes, ghost after: Bytes)
    returns (size: nat)
    requires Valid(p) && Holds(data[..], before, done, after) && at == |before| + |done|
            && |done| + |Store(p)| <= |after|
    modifies data
    ensures size == |Store(p)| && Holds(data[..], before, done + Store(p), after)
  {
    var key := p.key[p.shared..];
    var builder := Varints.Store(p.shared);
    Append(data, at, builder, before, done, after);
    ghost var a, b := done + builder, done;
    size := |builder|;
    builder := Varints.Store(p.unique);
    Append(data, at + size, builder, before, a, after);
    b := a + builder;
    size := size + |builder|;
    Append(data, at + size, key, before, b, after);
    a := b + key;
    size := size + p.unique;
    builder := Varints.Store(|p.value|);
    Append(data, at + size, builder, before, a, after);
    b := a + builder;
    size := size + |builder|;
    Append(data, at + size, p.value, before, b, after);
    Stored(p, done);
    size := size + |p.value|;
  }

  lemma {:induction false} Stored(p: Pair, done: Bytes)
    requires Valid(p)
    ensures done + Encode(p.shared) + Encode(p.unique) + p.key[p.shared..] + Encode(|p.value|) + p.value
            == done + Store(p)
  {
  }

  method TakeNumber(data: Bytes, offset: nat) returns (r: Option<(nat, nat)>)
    ensures r == TakeVarint(data, offset)
  {
    if offset >= |data| {
      return None;
    }
    var value := Varints.Load(data[offset..]);
    if value.None? {
      return None;
    }
    var size := CountBytes(data[offset..]);
    return Some((value.value, offset + size));
  }

  /** The unique bytes and the value. */
  method LoadTail(data: Bytes, shared: nat, unique: nat, keyAt: nat) returns (r: Option<(Pair, nat)>)
    requires keyAt <= |data|
    ensures r == LoadRest(TakeVarint, data, shared, unique, keyAt)
  {
    if unique != 0 && keyAt + unique > |data| {
      return None;
    }
    var offset := keyAt + unique;
    var size := TakeNumber(data, offset);
    if size.None? {
      return None;
    }
    offset := size.value.1;
    if size.value.0 != 0 && offset + size.value.0 > |data| {
      return None;
    }
    return Some((Pair(shared, unique, Zeros(shared) + data[keyAt..keyAt + unique], data[offset..offset + size.value.0]),
                 offset + size.value.0));
  }

  /** Nothing where the program throws, or reads behind the buffer. */
  method LoadFrom(data: Bytes) returns (r: Option<(Pair, nat)>)
    ensures r == Load(data)
  {
    if |data| < 3 {
      return None;
    }
    var shared := TakeNumber(data, 0);
    if shared.None? {
      return None;
    }
    var unique := TakeNumber(data, shared.value.1);
    if unique.None? {
      return None;
    }
    r := LoadTail(data, shared.value.0, unique.value.0, unique.value.1);
  }
}
