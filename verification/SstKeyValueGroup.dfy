/** A group of pairs that share prefixes with the first of them. */
module SstGroups {
  import opened Buffers
  import opened SstPairs

  type Group = seq<Pair>

  // ---------- putting keys ----------

  /** The length of the longest common prefix. */
  function Common(a: Bytes, b: Bytes): (n: nat)
    ensures n <= |a| && n <= |b| && a[..n] == b[..n]
    ensures n < |a| && n < |b| ==> a[n] != b[n]
  {
    if a == [] || b == [] || a[0] != b[0] then 0
    else
      var n := Common(a[1..], b[1..]);
      assert a[..n + 1] == [a[0]] + a[1..][..n] && b[..n + 1] == [b[0]] + b[1..][..n];
      n + 1
  }

  function MakePair(first: Key, key: Key, value: Bytes): Pair {
    Pair(Common(first, key), |key| - Common(first, key), key, value)
  }

  function Resized(first: Key, p: Pair): Pair {
    p.(shared := Common(first, p.key), unique := |p.key| - Common(first, p.key))
  }

  function ResizeAll(first: Key, g: Group): (r: Group)
    ensures |r| == |g| && forall i :: 0 <= i < |g| ==> r[i] == Resized(first, g[i])
  {
    seq(|g|, i requires 0 <= i < |g| => Resized(first, g[i]))
  }

  /** `at` is where the binary search for the key stopped. A key that is already there gets the new value; a first
      key is put in front of the others, any other one behind the place found. A key without a common prefix is
      refused. */
  function TryPut(cmp: Comparator, g: Group, at: nat, key: Key, value: Bytes): Option<Group>
    requires at <= |g|
  {
    if at < |g| && cmp(g[at].key, key) == 0 then Some(g[at := g[at].(value := value)])
    else if g == [] then Some([Pair(0, |key|, key, value)])
    else if Common(g[0].key, key) == 0 then None
    else if at == |g| then Some(g + [MakePair(g[0].key, key, value)])
    else if at == 0 then Some([Pair(0, |key|, key, value)] + ResizeAll(key, g))
    else Some(g[..at + 1] + [MakePair(g[0].key, key, value)] + g[at + 1..])
  }

  predicate Shares(first: Key, p: Pair) {
    p.shared <= |first| && p.shared <= |p.key| && p.key[..p.shared] == first[..p.shared]
  }

  /** The first key is stored whole, every other one from where it leaves a prefix of the first. */
  predicate Good(g: Group) {
    && (forall i :: 0 <= i < |g| ==> Valid(g[i]) && Shares(g[0].key, g[i]))
    && (g != [] ==> g[0].shared == 0)
  }

  /** Whatever the search answers, a put keeps the group in shape. */
  lemma {:induction false} PutIsGood(cmp: Comparator, g: Group, at: nat, key: Key, value: Bytes)
    requires at <= |g| && Good(g) && TryPut(cmp, g, at, key, value).Some?
    ensures Good(TryPut(cmp, g, at, key, value).value) && TryPut(cmp, g, at, key, value).value != []
  {
  }

  ghost predicate PutLeadsTo(cmp: Comparator, g: Group, h: Group) {
    exists at: nat, key, value :: at <= |g| && TryPut(cmp, g, at, key, value) == Some(h)
  }

  /** Groups that can come about: from the empty one by puts. */
  ghost predicate Built(cmp: Comparator, groups: seq<Group>) {
    groups != [] && groups[0] == [] && forall i :: 0 <= i < |groups| - 1 ==> PutLeadsTo(cmp, groups[i], groups[i + 1])
  }

  lemma {:induction false} BuiltIsGood(cmp: Comparator, groups: seq<Group>)
    requires Built(cmp, groups)
    ensures Good(groups[|groups| - 1])
  {
    var n := |groups| - 1;
    if n > 0 {
      forall i | 0 <= i < n - 1 ensures PutLeadsTo(cmp, groups[..n][i], groups[..n][i + 1]) {
        assert PutLeadsTo(cmp, groups[i], groups[i + 1]);
      }
      BuiltIsGood(cmp, groups[..n]);
      assert PutLeadsTo(cmp, groups[n - 1], groups[n - 1 + 1]);
      LeadsToGood(cmp, groups[n - 1], groups[n]);
    }
  }

  lemma {:induction false} LeadsToGood(cmp: Comparator, g: Group, h: Group)
    requires Good(g) && PutLeadsTo(cmp, g, h)
    ensures Good(h)
  {
    var at: nat, key, value :| at <= |g| && TryPut(cmp, g, at, key, value) == Some(h);
    PutIsGood(cmp, g, at, key, value);
  }

  /** Every key but the first is cut off behind its longest common prefix with the first key, which is not empty. */
  predicate Tight(g: Group) {
    forall i :: 0 < i < |g| ==> g[i].shared == Common(g[0].key, g[i].key) > 0
  }

  lemma {:induction false} CommonByte(a: Bytes, b: Bytes)
    ensures Common(a, b) > 0 <==> a != [] && b != [] && a[0] == b[0]
  {
  }

  /** All keys of a tight group begin with one byte, so any of them shares a prefix with what shares one with
      another. */
  lemma {:induction false} StillShare(a: Bytes, b: Bytes, c: Bytes)
    requires Common(a, b) > 0 && Common(b, c) > 0
    ensures Common(a, c) > 0 && Common(b, a) > 0
  {
    CommonByte(a, b);
    CommonByte(b, c);
    CommonByte(a, c);
    CommonByte(b, a);
  }

  lemma {:induction false} PutIsTight(cmp: Comparator, g: Group, at: nat, key: Key, value: Bytes)
    requires at <= |g| && Tight(g) && TryPut(cmp, g, at, key, value).Some?
    ensures Tight(TryPut(cmp, g, at, key, value).value)
  {
    var r := TryPut(cmp, g, at, key, value).value;
    if g != [] && !(at < |g| && cmp(g[at].key, key) == 0) {
      forall i | 0 < i < |r| ensures r[i].shared == Common(r[0].key, r[i].key) > 0 {
        if at == 0 {
          StillShare(g[0].key, key, g[0].key);
          if i > 1 {
            StillShare(key, g[0].key, g[i - 1].key);
          }
        }
      }
    }
  }

  /** In every group built by puts the shared parts are the longest possible. */
  lemma {:induction false} BuiltIsTight(cmp: Comparator, groups: seq<Group>)
    requires Built(cmp, groups)
    ensures Tight(groups[|groups| - 1])
  {
    var n := |groups| - 1;
    if n > 0 {
      forall i | 0 <= i < n - 1 ensures PutLeadsTo(cmp, groups[..n][i], groups[..n][i + 1]) {
        assert PutLeadsTo(cmp, groups[i], groups[i + 1]);
      }
      BuiltIsTight(cmp, groups[..n]);
      assert PutLeadsTo(cmp, groups[n - 1], groups[n - 1 + 1]);
      var at: nat, key, value :| at <= |groups[n - 1]| && TryPut(cmp, groups[n - 1], at, key, value) == Some(groups[n]);
      PutIsTight(cmp, groups[n - 1], at, key, value);
    }
  }

  /** What a group holds, in its order. */
  function Entries(g: Group): (r: seq<(Key, Bytes)>)
    ensures |r| == |g| && forall i :: 0 <= i < |g| ==> r[i] == (g[i].key, g[i].value)
  {
    seq(|g|, i requires 0 <= i < |g| => (g[i].key, g[i].value))
  }

  function InsertedAt(s: seq<(Key, Bytes)>, place: nat, e: (Key, Bytes)): seq<(Key, Bytes)>
    requires place <= |s|
  {
    s[..place] + [e] + s[place..]
  }

  /** A put replaces the value of an equal key, or inserts its key into what the group holds, in front for a new first
      key and else behind the place that was found; nothing else changes. */
  lemma {:induction false} PutEntries(cmp: Comparator, g: Group, at: nat, key: Key, value: Bytes)
    requires at <= |g| && TryPut(cmp, g, at, key, value).Some?
    ensures var r, e := Entries(TryPut(cmp, g, at, key, value).value), Entries(g);
            if at < |g| && cmp(g[at].key, key) == 0 then r == e[at := (g[at].key, value)]
            else r == InsertedAt(e, if at == 0 then 0 else if at < |g| then at + 1 else at, (key, value))
  {
  }

  // ---------- storing and loading ----------

  function StoreAll(g: Group): Bytes
    requires forall i :: 0 <= i < |g| ==> Valid(g[i])
  {
    if g == [] then [] else Store(g[0]) + StoreAll(g[1..])
  }

  predicate AllValid(g: Group) {
    forall j :: 0 <= j < |g| ==> Valid(g[j])
  }

  lemma {:induction false} Reassociated(a: Bytes, b: Bytes, c: Bytes)
    ensures a + (b + c) == a + b + c
  {
  }

  lemma {:induction false} PairsConcat(a: Group, b: Group)
    requires AllValid(a) && AllValid(b)
    ensures AllValid(a + b) && StoreAll(a + b) == StoreAll(a) + StoreAll(b)
    decreases |a|
  {
    if a == [] {
      assert a + b == b;
    } else {
      var p, rest := a[0], a[1..];
      PairsConcat(rest, b);
      assert a == [p] + rest && a + b == [p] + (rest + b);
      StoreFront(p, rest);
      StoreFront(p, rest + b);
      Reassociated(Store(p), StoreAll(rest), StoreAll(b));
    }
  }

  /** The pairs lie one behind the other. */
  lemma {:induction false} PairsInOrder(g: Group, i: nat)
    requires i < |g| && AllValid(g)
    ensures StoreAll(g) == StoreAll(g[..i]) + Store(g[i]) + StoreAll(g[i + 1..])
  {
    assert g == g[..i] + ([g[i]] + g[i + 1..]);
    PairsConcat(g[..i], [g[i]] + g[i + 1..]);
    StoreFront(g[i], g[i + 1..]);
  }

  /** The shared part is copied from the first key; more than that key has would be read behind it. */
  function Filled(first: Key, p: Pair): Option<Pair>
    requires Valid(p)
  {
    if p.shared > |first| then None else Some(p.(key := first[..p.shared] + p.key[p.shared..]))
  }

  /** Reads a pair at the front of a buffer and tells how long it was. */
  type Loader = Bytes -> Option<(Pair, nat)>

  ghost predicate Loads(load: Loader) {
    forall d :: load(d).Some? ==> 0 < load(d).value.1 <= |d| && Valid(load(d).value.0)
  }

  ghost predicate IsLoad(load: Loader, d: Bytes) {
    load(d) == Load(d)
  }

  function Joined(pairs: Group, others: Option<Group>): Option<Group> {
    if others.None? then None else Some(pairs + others.value)
  }

  /** The next pair, its shared part filled in, and its length. */
  function LoadOne(load: Loader, first: Key, data: Bytes): (r: Option<(Pair, nat)>)
    requires Loads(load)
    ensures r.Some? ==> 0 < r.value.1 <= |data|
  {
    var p := load(data);
    if p.None? then None
    else
      var filled := Filled(first, p.value.0);
      if filled.None? then None else Some((filled.value, p.value.1))
  }

  function LoadOthers(load: Loader, first: Key, data: Bytes): Option<Group>
    requires Loads(load)
    decreases |data|
  {
    if data == [] then Some([])
    else
      var p := LoadOne(load, first, data);
      if p.None? then None else Joined([p.value.0], LoadOthers(load, first, data[p.value.1..]))
  }

  /** Fewer than three bytes are an empty group. */
  function LoadGroupWith(load: Loader, data: Bytes): Option<Group>
    requires Loads(load)
  {
    if |data| < 3 then Some([])
    else
      var p := load(data);
      if p.None? then None else Joined([p.value.0], LoadOthers(load, p.value.0.key, data[p.value.1..]))
  }

  function LoadGroup(data: Bytes): Option<Group> {
    LoadGroupWith(Load, data)
  }

  predicate AllFit(g: Group) {
    forall i :: 0 <= i < |g| ==> Fits(g[i])
  }

  predicate AllSized(g: Group) {
    forall i :: 0 <= i < |g| ==> Sized(g[i])
  }

  /** Groups in the making: pairs that share with `first`. */
  predicate Sharing(first: Key, g: Group) {
    forall i :: 0 <= i < |g| ==> Valid(g[i]) && Sized(g[i]) && Shares(first, g[i])
  }

  lemma {:induction false} FilledBlank(first: Key, p: Pair)
    requires Valid(p) && Shares(first, p)
    ensures Filled(first, Blank(p)) == Some(p)
  {
    assert Blank(p).key[p.shared..] == p.key[p.shared..];
    assert first[..p.shared] + p.key[p.shared..] == p.key;
  }

  lemma {:induction false} StoreFront(p: Pair, rest: Group)
    requires Valid(p) && forall i :: 0 <= i < |rest| ==> Valid(rest[i])
    ensures StoreAll([p] + rest) == Store(p) + StoreAll(rest) && StoreAll([p] + rest)[|Store(p)|..] == StoreAll(rest)
  {
  }

  /** Stored pairs are read back if their lengths fit, and not at all otherwise. */
  ghost predicate Restores(load: Loader) {
    && Loads(load)
    && forall p, rest :: Valid(p) && Sized(p) ==>
         load(Store(p) + rest) == if Fits(p) then Some((Blank(p), |Store(p)|)) else None
  }

  lemma {:induction false} LoadRestores()
    ensures Restores(Load)
  {
    forall p, rest | Valid(p) && Sized(p)
      ensures Load(Store(p) + rest) == if Fits(p) then Some((Blank(p), |Store(p)|)) else None
    {
      LoadStored(p, rest);
    }
  }

  lemma {:induction false} OthersStored(load: Loader, first: Key, g: Group)
    requires Restores(load) && Sharing(first, g)
    ensures LoadOthers(load, first, StoreAll(g)) == if AllFit(g) then Some(g) else None
    decreases |g|
  {
    if g != [] {
      var p, rest := g[0], g[1..];
      assert g == [p] + rest;
      StoreFront(p, rest);
      assert load(Store(p) + StoreAll(rest)) == if Fits(p) then Some((Blank(p), |Store(p)|)) else None;
      OthersStored(load, first, rest);
      FilledBlank(first, p);
      FitTogether(p, rest);
    }
  }

  lemma {:induction false} FitTogether(p: Pair, rest: Group)
    ensures AllFit([p] + rest) <==> Fits(p) && AllFit(rest)
  {
    if AllFit([p] + rest) {
      assert Fits(([p] + rest)[0]);
      forall i | 0 <= i < |rest| ensures Fits(rest[i]) {
        assert ([p] + rest)[i + 1] == rest[i];
      }
    }
  }

  lemma {:induction false} GroupStored(load: Loader, g: Group)
    requires Restores(load) && Good(g) && AllSized(g)
    ensures LoadGroupWith(load, StoreAll(g)) == if AllFit(g) then Some(g) else None
  {
    if g != [] {
      var p, rest := g[0], g[1..];
      assert g == [p] + rest;
      StoreFront(p, rest);
      assert load(Store(p) + StoreAll(rest)) == if Fits(p) then Some((Blank(p), |Store(p)|)) else None;
      assert Blank(p).key == p.key;
      OthersStored(load, p.key, rest);
      FitTogether(p, rest);
    }
  }

  /** A group in shape is read back if and only if all its lengths are below 2^31. */
  lemma {:induction false} GroupRoundTrip(g: Group)
    requires Good(g) && AllSized(g)
    ensures LoadGroup(StoreAll(g)) == if AllFit(g) then Some(g) else None
  {
    LoadRestores();
    GroupStored(Load, g);
  }

  lemma {:induction false} StoreConcat(a: Group, b: Group)
    requires (forall i :: 0 <= i < |a| ==> Valid(a[i])) && forall i :: 0 <= i < |b| ==> Valid(b[i])
    ensures StoreAll(a + b) == StoreAll(a) + StoreAll(b)
    decreases |a|
  {
    if a == [] {
      assert a + b == b;
    } else {
      assert (a + b)[1..] == a[1..] + b;
      StoreConcat(a[1..], b);
    }
  }

  lemma {:induction false} StoreSnoc(g: Group, k: nat)
    requires k < |g| && forall i :: 0 <= i < |g| ==> Valid(g[i])
    ensures StoreAll(g[..k + 1]) == StoreAll(g[..k]) + Store(g[k])
  {
    assert g[..k + 1] == g[..k] + [g[k]];
    StoreConcat(g[..k], [g[k]]);
    assert [g[k]][1..] == [];
  }

  lemma {:induction false} StorePrefix(g: Group, k: nat)
    requires k <= |g| && forall i :: 0 <= i < |g| ==> Valid(g[i])
    ensures |StoreAll(g[..k])| <= |StoreAll(g)|
  {
    assert g == g[..k] + g[k..];
    StoreConcat(g[..k], g[k..]);
  }

  method GroupSize(g: Group) returns (size: nat)
    requires Good(g)
    ensures size == |StoreAll(g)|
  {
    size := 0;
    for i := 0 to |g|
      invariant size == |StoreAll(g[..i])|
    {
      StoreSnoc(g, i);
      var n := PairSize(g[i]);
      size := size + n;
    }
    assert g[..|g|] == g;
  }

  class SstKeyValueGroup {
    var pairs: Group
    const cmp: Comparator

    constructor (cmp: Comparator)
      ensures pairs == [] && Good(pairs) && this.cmp == cmp
    {
      this.cmp := cmp;
      pairs := [];
    }

    /** How much of the key is shared with the first one, and how much is left. */
    method ComputeKeySizes(key: Key) returns (shared: nat, unique: nat)
      requires pairs != []
      ensures shared == Common(pairs[0].key, key) && shared + unique == |key|
    {
      var first := pairs[0].key;
      shared := 0;
      assert first[0..] == first && key[0..] == key;
      while shared < |first| && shared < |key| && first[shared] == key[shared]
        invariant shared <= |first| && shared <= |key|
        invariant Common(first, key) == shared + Common(first[shared..], key[shared..])
      {
        assert first[shared..][1..] == first[shared + 1..] && key[shared..][1..] == key[shared + 1..];
        shared := shared + 1;
      }
      unique := |key| - shared;
    }

    method ResizeFrom(start: nat)
      requires start <= |pairs| && start >= 1
      modifies this`pairs
      ensures pairs == old(pairs[..start]) + ResizeAll(old(pairs[0].key), old(pairs[start..]))
    {
      for i := start to |pairs|
        invariant |pairs| == |old(pairs)| && pairs[..start] == old(pairs[..start])
        invariant forall j :: start <= j < i ==> pairs[j] == Resized(old(pairs[0].key), old(pairs)[j])
        invariant forall j :: i <= j < |pairs| ==> pairs[j] == old(pairs)[j]
      {
        assert pairs[0] == pairs[..start][0];
        var shared, unique := ComputeKeySizes(pairs[i].key);
        pairs := pairs[i := pairs[i].(shared := shared, unique := unique)];
      }
    }

    /** `at` is the answer of the binary search. */
    method TryPutAt(at: nat, key: Key, value: Bytes) returns (done: bool)
      requires Good(pairs) && at <= |pairs|
      modifies this`pairs
      ensures done <==> TryPut(cmp, old(pairs), at, key, value).Some?
      ensures Good(pairs) && pairs == if done then TryPut(cmp, old(pairs), at, key, value).value else old(pairs)
    {
      if TryPut(cmp, pairs, at, key, value).Some? {
        PutIsGood(cmp, pairs, at, key, value);
      }
      if at < |pairs| {
        if cmp(pairs[at].key, key) == 0 {
          pairs := pairs[at := pairs[at].(value := value)];
          return true;
        }
        var shared, unique := ComputeKeySizes(key);
        if shared == 0 {
          return false;
        }
        if at == 0 {
          pairs := [Pair(0, |key|, key, value)] + pairs;
          ResizeFrom(1);
          return true;
        }
        pairs := pairs[..at + 1] + [Pair(shared, unique, key, value)] + pairs[at + 1..];
        return true;
      }
      if pairs == [] {
        pairs := [Pair(0, |key|, key, value)];
        return true;
      }
      var shared, unique := ComputeKeySizes(key);
      if shared == 0 {
        return false;
      }
      pairs := pairs + [Pair(shared, unique, key, value)];
      return true;
    }

    method ComputeSize() returns (size: nat)
      requires Good(pairs)
      ensures size == |StoreAll(pairs)|
    {
      size := GroupSize(pairs);
    }

    /** Restores the group, or empties it where the program throws. */
    method LoadFrom(data: Bytes) returns (ok: bool)
      modifies this`pairs
      ensures ok <==> LoadGroup(data).Some?
      ensures pairs == if ok then LoadGroup(data).value else []
    {
      pairs := [];
      if |data| < 3 {
        return true;
      }
      var first := SstPairs.LoadFrom(data);
      if first.None? {
        return false;
      }
      pairs := [first.value.0];
      ok := LoadBehindFirst(data[first.value.1..], Load);
    }

    method LoadBehindFirst(data: Bytes, ghost load: Loader) returns (ok: bool)
      requires |pairs| == 1 && Loads(load) && forall d :: IsLoad(load, d)
      modifies this`pairs
      ensures ok <==> LoadOthers(load, old(pairs[0].key), data).Some?
      ensures pairs == if ok then old(pairs) + LoadOthers(load, old(pairs[0].key), data).value else []
    {
      var offset := 0;
      ghost var key := pairs[0].key;
      assert data[0..] == data;
      while offset != |data|
        invariant offset <= |data| && pairs != [] && pairs[0].key == key
        invariant Joined(pairs, LoadOthers(load, key, data[offset..]))
                == Joined(old(pairs), LoadOthers(load, key, data))
        decreases |data| - offset
      {
        ghost var left := data[offset..];
        var p := LoadNext(data[offset..], load);
        if p.None? {
          pairs := [];
          return false;
        }
        OneMore(load, pairs, key, left);
        assert left[p.value.1..] == data[offset + p.value.1..];
        offset := offset + p.value.1;
        pairs := pairs + [p.value.0];
      }
      assert data[offset..] == [];
      return true;
    }

    /** Loads a pair and copies the shared part of its key from the first one. */
    method LoadNext(data: Bytes, ghost load: Loader) returns (r: Option<(Pair, nat)>)
      requires pairs != [] && Loads(load) && forall d :: IsLoad(load, d)
      ensures r == LoadOne(load, pairs[0].key, data)
    {
      var p := SstPairs.LoadFrom(data);
      assert IsLoad(load, data);
      if p.None? || p.value.0.shared > |pairs[0].key| {
        return None;
      }
      var pair := p.value.0;
      return Some((pair.(key := pairs[0].key[..pair.shared] + pair.key[pair.shared..]), p.value.1));
    }
  }

  lemma {:induction false} OneMore(load: Loader, pairs: Group, first: Key, data: Bytes)
    requires Loads(load) && data != [] && LoadOne(load, first, data).Some?
    ensures var p := LoadOne(load, first, data).value;
            Joined(pairs, LoadOthers(load, first, data)) == Joined(pairs + [p.0], LoadOthers(load, first, data[p.1..]))
  {
    var p := LoadOne(load, first, data).value;
    var others := LoadOthers(load, first, data[p.1..]);
    if others.Some? {
      assert pairs + ([p.0] + others.value) == pairs + [p.0] + others.value;
    }
  }

  lemma {:induction false} NextPair(g: Group, i: nat, done: Bytes)
    requires i < |g| && forall j :: 0 <= j < |g| ==> Valid(g[j])
    ensures done + StoreAll(g[..i]) + Store(g[i]) == done + StoreAll(g[..i + 1])
    ensures |done + StoreAll(g[..i])| + |Store(g[i])| <= |done| + |StoreAll(g)|
    ensures |StoreAll(g[..i])| + |Store(g[i])| == |StoreAll(g[..i + 1])|
  {
    StoreSnoc(g, i);
    StorePrefix(g, i + 1);
    Grouped(done, StoreAll(g[..i]), Store(g[i]));
  }

  lemma {:induction false} Grouped(a: Bytes, b: Bytes, c: Bytes)
    ensures a + b + c == a + (b + c)
  {
  }

  /** Stores one pair behind the other. */
  method UnsafeStoreGroup(
      g: Group, data: array<Byte>, at: nat, ghost before: Bytes, ghost done: Bytes, ghost after: Bytes)
    returns (size: nat)
    requires forall i :: 0 <= i < |g| ==> Valid(g[i])
    requires Holds(data[..], before, done, after) && at == |before| + |done| && |done| + |StoreAll(g)| <= |after|
    modifies data
    ensures size == |StoreAll(g)| && Holds(data[..], before, done + StoreAll(g), after)
  {
    size := 0;
    assert done + StoreAll(g[..0]) == done;
    for i := 0 to |g|
      invariant size == |StoreAll(g[..i])| && Holds(data[..], before, done + StoreAll(g[..i]), after)
    {
      NextPair(g, i, done);
      var n := UnsafeStoreTo(g[i], data, at + size, before, done + StoreAll(g[..i]), after);
      size := size + n;
    }
    assert g[..|g|] == g;
  }
}
