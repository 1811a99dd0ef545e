/** A data block: a checksum, the number of groups, where each group begins, and the groups. */
module SstBlocks {
  import opened Buffers
  import opened LittleEndian
  import opened Crcs
  import opened SstPairs
  import opened SstGroups
  import Varints

  type Block = seq<Group>

  const CRC_SIZE: nat := 2

  const OFFSET_SIZE: nat := 8

  // ---------- storing ----------

  predicate Storable(b: Block) {
    forall i :: 0 <= i < |b| ==> Good(b[i])
  }

  function StoreGroups(b: Block): Bytes
    requires Storable(b)
  {
    if b == [] then [] else StoreAll(b[0]) + StoreGroups(b[1..])
  }

  /** Where each group begins, the first one at `at`. */
  function Starts(b: Block, at: nat): (s: seq<nat>)
    requires Storable(b)
    ensures |s| == |b|
  {
    if b == [] then [] else [at] + Starts(b[1..], at + |StoreAll(b[0])|)
  }

  function Offsets(starts: seq<nat>): (s: Bytes)
    ensures |s| == OFFSET_SIZE * |starts|
  {
    if starts == [] then [] else ToLe(starts[0], OFFSET_SIZE) + Offsets(starts[1..])
  }

  function HeaderSize(count: nat): nat {
    CRC_SIZE + |Varints.Encode(count)| + OFFSET_SIZE * count
  }

  function Payload(b: Block): Bytes
    requires Storable(b)
  {
    Varints.Encode(|b|) + Offsets(Starts(b, HeaderSize(|b|))) + StoreGroups(b)
  }

  function Checksum(data: Bytes): (s: Bytes)
    ensures |s| == CRC_SIZE
  {
    ToLe(Register(data) as nat, CRC_SIZE)
  }

  function StoreBlock(b: Block): Bytes
    requires Storable(b)
  {
    Checksum(Payload(b)) + Payload(b)
  }

  // ---------- loading ----------

  function ReadStarts(data: Bytes, at: nat, count: nat): (s: seq<nat>)
    requires at + OFFSET_SIZE * count <= |data|
    ensures |s| == count
  {
    seq(count, i requires 0 <= i < count => FromLe(data[at + OFFSET_SIZE * i..at + OFFSET_SIZE * i + OFFSET_SIZE]))
  }

  predicate StartOk(starts: seq<nat>, j: nat, size: nat)
    requires j + 1 < |starts|
  {
    starts[j] <= size && starts[j] <= starts[j + 1]
  }

  /** The index stays within the buffer and never goes back. */
  predicate InOrder(starts: seq<nat>, size: nat) {
    && (forall j: nat :: j + 1 < |starts| ==> StartOk(starts, j, size))
    && (starts != [] ==> starts[|starts| - 1] <= size)
  }

  lemma {:induction false} InOrderTail(starts: seq<nat>, size: nat)
    requires InOrder(starts, size) && starts != []
    ensures InOrder(starts[1..], size)
    ensures starts[0] <= size
  {
    if |starts| > 1 {
      assert StartOk(starts, 0, size);
    }
    forall j: nat | j + 1 < |starts[1..]| ensures StartOk(starts[1..], j, size) {
      assert StartOk(starts, j + 1, size);
    }
  }

  /** Where the first of these groups ends. */
  function EndOf(starts: seq<nat>, size: nat): (end: nat)
    requires InOrder(starts, size) && starts != []
    ensures starts[0] <= end <= size
  {
    InOrderTail(starts, size);
    assert |starts| > 1 ==> StartOk(starts, 0, size);
    assert |starts| > 2 ==> StartOk(starts, 1, size);
    if |starts| > 1 then starts[1] else size
  }

  function FirstOf(starts: seq<nat>, data: Bytes): Bytes
    requires InOrder(starts, |data|) && starts != []
  {
    var end := EndOf(starts, |data|);
    data[starts[0]..end]
  }

  lemma {:induction false} AllWithin(starts: seq<nat>, size: nat)
    requires InOrder(starts, size)
    ensures forall i :: 0 <= i < |starts| ==> starts[i] <= size
  {
    forall i | 0 <= i < |starts| ensures starts[i] <= size {
      assert i + 1 < |starts| ==> StartOk(starts, i, size);
    }
  }

  type GroupLoader = Bytes -> Option<Group>

  function LoadGroups(load: GroupLoader, starts: seq<nat>, data: Bytes): Option<Block>
    requires InOrder(starts, |data|)
  {
    if starts == [] then Some([])
    else
      InOrderTail(starts, |data|);
      var g := load(FirstOf(starts, data));
      if g.None? then None
      else
        var rest := LoadGroups(load, starts[1..], data);
        if rest.None? then None else Some([g.value] + rest.value)
  }

  /** Behind the checksum. A block that says it has no group still has one offset read. */
  function LoadContent(take: Reader, load: GroupLoader, data: Bytes): Option<Block>
    requires Reads(take, data)
  {
    var count := take(data, CRC_SIZE);
    if count.None? then None
    else
      var n, at := count.value.0, count.value.1;
      var entries := if n == 0 then 1 else n;
      if at + OFFSET_SIZE * entries > |data| then None
      else
        var starts := ReadStarts(data, at, entries);
        if InOrder(starts, |data|) then LoadGroups(load, starts, data) else None
  }

  predicate Intact(data: Bytes) {
    |data| >= 3 && data[..CRC_SIZE] == Checksum(data[CRC_SIZE..])
  }

  /** Nothing where the program throws, or reads behind the buffer. */
  function LoadBlock(data: Bytes): Option<Block> {
    if Intact(data) then LoadContent(TakeVarint, LoadGroup, data) else None
  }

  // ---------- corruption ----------

  /** The register is what the two stored bytes say. */
  lemma {:induction false} StoredRegister(c: bv16)
    ensures FromLe(ToLe(c as nat, CRC_SIZE)) == c as nat
  {
    LeRoundTrip(c as nat, CRC_SIZE);
  }

  lemma {:induction false} SameNumber(c: bv16, d: bv16)
    requires c as nat == d as nat
    ensures c == d
  {
    assert (c as nat) as bv16 == c && (d as nat) as bv16 == d;
  }

  lemma {:induction false} ReadRegister(data: Bytes, n: nat)
    requires n == FromLe(Checksum(data))
    ensures n == Register(data) as nat
  {
    StoredRegister(Register(data));
  }

  lemma {:induction false} ChecksumIsExact(a: Bytes, b: Bytes)
    requires Checksum(a) == Checksum(b)
    ensures Register(a) == Register(b)
  {
    ReadRegister(a, FromLe(Checksum(a)));
    ReadRegister(b, FromLe(Checksum(b)));
    SameNumber(Register(a), Register(b));
  }

  lemma {:induction false} BodyChanged(body: Bytes, j: nat, x: Byte)
    requires j < |body| && x != body[j]
    ensures Checksum(body[j := x]) != Checksum(body)
  {
    assert body == body[..j] + [body[j]] + body[j + 1..];
    assert body[j := x] == body[..j] + [x] + body[j + 1..];
    OneByteIsDetected(body[..j], body[j], x, body[j + 1..]);
    if Checksum(body[j := x]) == Checksum(body) {
      ChecksumIsExact(body[j := x], body);
    }
  }

  lemma {:induction false} ChangeBreaks(data: Bytes, i: nat, x: Byte)
    requires Intact(data) && i < |data| && x != data[i]
    ensures !Intact(data[i := x])
  {
    var other := data[i := x];
    if i < CRC_SIZE {
      assert other[CRC_SIZE..] == data[CRC_SIZE..];
      assert other[..CRC_SIZE][i] != data[..CRC_SIZE][i];
    } else {
      assert other[..CRC_SIZE] == data[..CRC_SIZE];
      assert other[CRC_SIZE..] == data[CRC_SIZE..][i - CRC_SIZE := x];
      BodyChanged(data[CRC_SIZE..], i - CRC_SIZE, x);
    }
  }

  /** A block that loads no longer does when any one of its bytes is changed. */
  lemma {:induction false} CorruptionIsDetected(data: Bytes, i: nat, x: Byte)
    requires LoadBlock(data).Some? && i < |data| && x != data[i]
    ensures LoadBlock(data[i := x]) == None
  {
    ChangeBreaks(data, i, x);
  }

  // ---------- round trip ----------

  lemma {:induction false} OffsetAt(starts: seq<nat>, i: nat)
    requires i < |starts|
    ensures At(Offsets(starts), OFFSET_SIZE * i, ToLe(starts[i], OFFSET_SIZE))
  {
    if i > 0 {
      OffsetAt(starts[1..], i - 1);
      var first, rest := ToLe(starts[0], OFFSET_SIZE), Offsets(starts[1..]);
      assert (first + rest)[OFFSET_SIZE * i..OFFSET_SIZE * i + OFFSET_SIZE]
             == rest[OFFSET_SIZE * (i - 1)..OFFSET_SIZE * (i - 1) + OFFSET_SIZE];
    }
  }

  lemma {:induction false} AtInside(data: Bytes, at: nat, s: Bytes, i: nat, t: Bytes)
    requires At(data, at, s) && At(s, i, t)
    ensures At(data, at + i, t)
  {
    forall k | 0 <= k < |t| ensures data[at + i + k] == t[k] {
      assert data[at..at + |s|][i + k] == s[i + k] && s[i..i + |t|][k] == t[k];
    }
    assert data[at + i..at + i + |t|] == t;
  }

  lemma {:induction false} StartsRead(data: Bytes, at: nat, starts: seq<nat>)
    requires At(data, at, Offsets(starts)) && forall i :: 0 <= i < |starts| ==> starts[i] < UINT64_COUNT
    ensures ReadStarts(data, at, |starts|) == starts
  {
    forall i | 0 <= i < |starts| ensures ReadStarts(data, at, |starts|)[i] == starts[i] {
      OffsetAt(starts, i);
      AtInside(data, at, Offsets(starts), OFFSET_SIZE * i, ToLe(starts[i], OFFSET_SIZE));
      Le64RoundTrip(starts[i]);
    }
  }

  lemma {:induction false} StartsInOrder(b: Block, at: nat, size: nat)
    requires Storable(b) && at + |StoreGroups(b)| <= size
    ensures InOrder(Starts(b, at), size)
  {
    if b != [] {
      var rest, next := b[1..], at + |StoreAll(b[0])|;
      StartsInOrder(rest, next, size);
      ConsInOrder(at, Starts(rest, next), size);
    }
  }

  lemma {:induction false} ConsInOrder(first: nat, rest: seq<nat>, size: nat)
    requires InOrder(rest, size) && first <= size && (rest != [] ==> first <= rest[0])
    ensures InOrder([first] + rest, size)
  {
    forall j: nat | j + 1 < |[first] + rest| ensures StartOk([first] + rest, j, size) {
      assert j > 0 ==> StartOk(rest, j - 1, size);
    }
  }

  predicate AllGroupsFit(b: Block) {
    forall i :: 0 <= i < |b| ==> AllFit(b[i])
  }

  predicate AllGroupsSized(b: Block) {
    forall i :: 0 <= i < |b| ==> AllSized(b[i])
  }

  /** Groups in shape are read back if their lengths fit, and not at all otherwise. */
  ghost predicate RestoresGroup(load: GroupLoader, g: Group) {
    Good(g) && AllSized(g) ==> load(StoreAll(g)) == if AllFit(g) then Some(g) else None
  }

  lemma {:induction false} GroupsFit(g: Group, rest: Block)
    ensures AllGroupsFit([g] + rest) <==> AllFit(g) && AllGroupsFit(rest)
  {
    if AllGroupsFit([g] + rest) {
      assert AllFit(([g] + rest)[0]);
      forall i | 0 <= i < |rest| ensures AllFit(rest[i]) {
        assert ([g] + rest)[i + 1] == rest[i];
      }
    }
  }

  /** Group after group lies in `data` from `at` to its end, beginning where `starts` says. */
  ghost predicate Laid(b: Block, starts: seq<nat>, at: nat, data: Bytes)
    requires Storable(b)
    decreases |b|
  {
    if b == [] then starts == [] && at == |data|
    else
      var next := at + |StoreAll(b[0])|;
      && starts != [] && starts[0] == at && next <= |data| && data[at..next] == StoreAll(b[0])
      && Laid(b[1..], starts[1..], next, data)
  }

  lemma {:induction false} LaidFront(g: Group, rest: Block, starts: seq<nat>, at: nat, data: Bytes)
    requires Good(g) && Storable([g] + rest) && Storable(rest) && starts != [] && starts[0] == at
    requires at + |StoreAll(g)| <= |data| && data[at..at + |StoreAll(g)|] == StoreAll(g)
    requires Laid(rest, starts[1..], at + |StoreAll(g)|, data)
    ensures Laid([g] + rest, starts, at, data)
  {
    assert ([g] + rest)[1..] == rest;
  }

  lemma {:induction false} StartsLaid(b: Block, at: nat, data: Bytes)
    requires Storable(b) && at <= |data| && data[at..] == StoreGroups(b)
    ensures Laid(b, Starts(b, at), at, data)
    decreases |b|
  {
    if b != [] {
      var g, rest := b[0], b[1..];
      assert b == [g] + rest;
      BlockFront(g, rest, at);
      SplitTail(StoreAll(g), StoreGroups(rest), data, at);
      StartsLaid(rest, at + |StoreAll(g)|, data);
      LaidFront(g, rest, Starts(b, at), at, data);
    }
  }

  lemma {:induction false} LaidEnd(b: Block, starts: seq<nat>, at: nat, data: Bytes)
    requires Storable(b) && b != [] && InOrder(starts, |data|) && Laid(b, starts, at, data)
    ensures InOrder(starts[1..], |data|) && Laid(b[1..], starts[1..], at + |StoreAll(b[0])|, data)
    ensures FirstOf(starts, data) == StoreAll(b[0])
  {
    InOrderTail(starts, |data|);
  }

  lemma {:induction false} LaidLoads(load: GroupLoader, b: Block, starts: seq<nat>, at: nat, data: Bytes)
    requires Storable(b) && AllGroupsSized(b) && forall g :: RestoresGroup(load, g)
    requires InOrder(starts, |data|) && Laid(b, starts, at, data)
    ensures LoadGroups(load, starts, data) == if AllGroupsFit(b) then Some(b) else None
    decreases |b|
  {
    if b != [] {
      var g, rest := b[0], b[1..];
      assert b == [g] + rest;
      LaidEnd(b, starts, at, data);
      LaidLoads(load, rest, starts[1..], at + |StoreAll(g)|, data);
      assert RestoresGroup(load, g);
      GroupsFit(g, rest);
      LoadGroupsCons(load, starts, data,
                     if AllFit(g) then Some(g) else None, if AllGroupsFit(rest) then Some(rest) else None);
    }
  }

  lemma {:induction false} BlockFront(g: Group, rest: Block, at: nat)
    requires Good(g) && Storable(rest)
    ensures Storable([g] + rest) && StoreGroups([g] + rest) == StoreAll(g) + StoreGroups(rest)
    ensures Starts([g] + rest, at) == [at] + Starts(rest, at + |StoreAll(g)|)
    ensures Starts([g] + rest, at)[1..] == Starts(rest, at + |StoreAll(g)|)
  {
    assert ([g] + rest)[1..] == rest;
  }

  lemma {:induction false} LoadGroupsCons(
      load: GroupLoader, starts: seq<nat>, data: Bytes, first: Option<Group>, others: Option<Block>)
    requires InOrder(starts, |data|) && starts != [] && InOrder(starts[1..], |data|)
    requires load(FirstOf(starts, data)) == first
    requires LoadGroups(load, starts[1..], data) == others
    ensures LoadGroups(load, starts, data)
            == if first.None? || others.None? then None else Some([first.value] + others.value)
  {
  }

  lemma {:induction false} SplitTail(a: Bytes, c: Bytes, data: Bytes, at: nat)
    requires at <= |data| && data[at..] == a + c
    ensures at + |a| <= |data| && data[at..at + |a|] == a && data[at + |a|..] == c
    ensures c == [] ==> data[at..|data|] == a
  {
  }

  function Expected(b: Block): Option<Block> {
    if |b| < Varints.INT_COUNT && AllGroupsFit(b) then Some(b) else None
  }

  lemma {:induction false} ContentLoaded(take: Reader, load: GroupLoader, b: Block, data: Bytes, at: nat, start: nat)
    requires Reads(take, data) && b != [] && Storable(b) && AllGroupsSized(b) && forall g :: RestoresGroup(load, g)
    requires take(data, CRC_SIZE) == if |b| < Varints.INT_COUNT then Some((|b|, at)) else None
    requires start == at + OFFSET_SIZE * |b| <= |data| < UINT64_COUNT
    requires At(data, at, Offsets(Starts(b, start))) && data[start..] == StoreGroups(b)
    ensures LoadContent(take, load, data) == Expected(b)
  {
    StartsInOrder(b, start, |data|);
    AllWithin(Starts(b, start), |data|);
    StartsRead(data, at, Starts(b, start));
    StartsLaid(b, start, data);
    LaidLoads(load, b, Starts(b, start), start, data);
  }

  lemma {:induction false} Layout(c: Bytes, e: Bytes, o: Bytes, g: Bytes)
    ensures var data := c + (e + o + g);
            && data[..|c|] == c && data[|c|..] == e + o + g && At(data, |c|, e) && At(data, |c| + |e|, o)
            && data[|c| + |e| + |o|..] == g
  {
  }

  lemma {:induction false} BlockStored(b: Block, data: Bytes)
    requires Storable(b) && data == StoreBlock(b)
    ensures Intact(data) && At(data, CRC_SIZE, Varints.Encode(|b|))
    ensures var start := HeaderSize(|b|);
            && start <= |data| && At(data, start - OFFSET_SIZE * |b|, Offsets(Starts(b, start)))
            && data[start..] == StoreGroups(b)
  {
    Layout(Checksum(Payload(b)), Varints.Encode(|b|), Offsets(Starts(b, HeaderSize(|b|))), StoreGroups(b));
  }

  /** Where the offset of group `i`, or the end of the block behind the last one, is read. */
  function BoundAt(data: Bytes, at: nat, count: nat, i: nat): nat
    requires at + OFFSET_SIZE * count <= |data| && i <= count
  {
    if i < count then FromLe(data[at + OFFSET_SIZE * i..at + OFFSET_SIZE * i + OFFSET_SIZE]) else |data|
  }

  /** A block of `count` groups, of which group `i` is stored as `g`: the checksum of all that follows, the number of
      groups, an offset for each, and the groups, each from its offset to the next one. */
  ghost predicate LaidOut(data: Bytes, count: nat, i: nat, g: Bytes)
    requires i < count
  {
    var at := CRC_SIZE + |Varints.Encode(count)|;
    && at + OFFSET_SIZE * count <= |data|
    && data[..CRC_SIZE] == ToLe(Register(data[CRC_SIZE..]) as nat, CRC_SIZE)
    && data[CRC_SIZE..at] == Varints.Encode(count)
    && BoundAt(data, at, count, 0) == at + OFFSET_SIZE * count
    && BoundAt(data, at, count, i) <= BoundAt(data, at, count, i + 1) <= |data|
    && data[BoundAt(data, at, count, i)..BoundAt(data, at, count, i + 1)] == g
  }

  lemma {:induction false} StoredLayout(b: Block, i: nat)
    requires Storable(b) && |StoreBlock(b)| < UINT64_COUNT && i < |b|
    ensures LaidOut(StoreBlock(b), |b|, i, StoreAll(b[i]))
  {
    var data, at, start := StoreBlock(b), CRC_SIZE + |Varints.Encode(|b|)|, HeaderSize(|b|);
    BlockStored(b, data);
    AllBounds(b, data, at, start);
    GroupCut(b, data, start, i, BoundAt(data, at, |b|, i), BoundAt(data, at, |b|, i + 1));
    assert b[..0] == [];
  }

  /** Each bound is where its group begins, and the last one the end. */
  lemma {:induction false} AllBounds(b: Block, data: Bytes, at: nat, start: nat)
    requires Storable(b) && |data| < UINT64_COUNT && start == at + OFFSET_SIZE * |b| <= |data|
    requires At(data, at, Offsets(Starts(b, start))) && data[start..] == StoreGroups(b)
    ensures forall k :: 0 <= k <= |b| ==> BoundAt(data, at, |b|, k) == start + |StoreGroups(b[..k])|
  {
    StartsInOrder(b, start, |data|);
    AllWithin(Starts(b, start), |data|);
    StartsRead(data, at, Starts(b, start));
    forall k | 0 <= k <= |b| ensures BoundAt(data, at, |b|, k) == start + |StoreGroups(b[..k])| {
      if k < |b| {
        assert BoundAt(data, at, |b|, k) == ReadStarts(data, at, |b|)[k];
        StartOf(b, start, k);
      } else {
        assert b[..k] == b;
      }
    }
  }

  lemma {:induction false} GroupCut(b: Block, data: Bytes, start: nat, i: nat, low: nat, high: nat)
    requires Storable(b) && i < |b| && start <= |data| && data[start..] == StoreGroups(b)
    requires low == start + |StoreGroups(b[..i])| && high == start + |StoreGroups(b[..i + 1])|
    ensures low <= high <= |data| && data[low..high] == StoreAll(b[i])
  {
    GroupsAround(b, i);
    CutOut(data, start, StoreGroups(b[..i]), StoreAll(b[i]), StoreGroups(b[i + 1..]));
  }

  lemma {:induction false} GroupsAround(b: Block, i: nat)
    requires Storable(b) && i < |b|
    ensures StoreGroups(b) == StoreGroups(b[..i]) + StoreAll(b[i]) + StoreGroups(b[i + 1..])
    ensures StoreGroups(b[..i + 1]) == StoreGroups(b[..i]) + StoreAll(b[i])
  {
    GroupsSnoc(b, i);
    assert b == b[..i + 1] + b[i + 1..];
    GroupsConcat(b[..i + 1], b[i + 1..]);
  }

  lemma {:induction false} CutOut(data: Bytes, start: nat, front: Bytes, g: Bytes, back: Bytes)
    requires start <= |data| && data[start..] == front + g + back
    ensures start + |front| + |g| + |back| == |data|
    ensures data[start + |front|..start + |front| + |g|] == g
  {
    assert data[start + |front|..start + |front| + |g|] == data[start..][|front|..|front| + |g|];
  }

  /** A block whose groups are in shape is read back if and only if it has a group and every count and length in it is
      below 2^31. */
  lemma {:induction false} BlockRoundTrip(b: Block)
    requires Storable(b) && AllGroupsSized(b) && |StoreBlock(b)| < UINT64_COUNT
    ensures LoadBlock(StoreBlock(b)) == if b != [] && |b| < Varints.INT_COUNT && AllGroupsFit(b) then Some(b) else None
  {
    var data := StoreBlock(b);
    BlockStored(b, data);
    BlockLoaded(b, data);
  }

  /** Every block of groups that were each built from the empty one by puts is read back, within these limits. */
  lemma {:induction false} BuiltBlockRoundTrip(cmp: Comparator, b: Block, histories: seq<seq<Group>>)
    requires |histories| == |b|
    requires forall i :: 0 <= i < |b| ==> Built(cmp, histories[i]) && histories[i][|histories[i]| - 1] == b[i]
    ensures Storable(b)
    ensures AllGroupsSized(b) && |StoreBlock(b)| < UINT64_COUNT && b != [] && |b| < Varints.INT_COUNT && AllGroupsFit(b)
            ==> LoadBlock(StoreBlock(b)) == Some(b)
  {
    forall i | 0 <= i < |b| ensures Good(b[i]) {
      BuiltIsGood(cmp, histories[i]);
    }
    if AllGroupsSized(b) && |StoreBlock(b)| < UINT64_COUNT {
      BlockRoundTrip(b);
    }
  }

  lemma {:induction false} BlockLoaded(b: Block, data: Bytes)
    requires Storable(b) && AllGroupsSized(b) && |data| < UINT64_COUNT
    requires Intact(data) && At(data, CRC_SIZE, Varints.Encode(|b|)) && HeaderSize(|b|) <= |data|
    requires At(data, HeaderSize(|b|) - OFFSET_SIZE * |b|, Offsets(Starts(b, HeaderSize(|b|))))
    requires data[HeaderSize(|b|)..] == StoreGroups(b)
    ensures LoadBlock(data) == if b != [] && |b| < Varints.INT_COUNT && AllGroupsFit(b) then Some(b) else None
  {
    EncodedAt(data, CRC_SIZE, |b|);
    if b == [] {
      EmptyLoaded(data);
    } else {
      ContentOf(b, data, CRC_SIZE + |Varints.Encode(|b|)|, HeaderSize(|b|));
    }
  }

  lemma {:induction false} EmptyLoaded(data: Bytes)
    requires Intact(data) && At(data, CRC_SIZE, Varints.Encode(0)) && data[HeaderSize(0)..] == []
            && HeaderSize(0) <= |data|
    requires TakeVarint(data, CRC_SIZE) == Some((0, CRC_SIZE + |Varints.Encode(0)|))
    ensures LoadBlock(data) == None
  {
  }

  lemma {:induction false} ContentOf(b: Block, data: Bytes, at: nat, start: nat)
    requires b != [] && Storable(b) && AllGroupsSized(b)
    requires TakeVarint(data, CRC_SIZE) == if |b| < Varints.INT_COUNT then Some((|b|, at)) else None
    requires start == at + OFFSET_SIZE * |b| <= |data| < UINT64_COUNT
    requires At(data, at, Offsets(Starts(b, start))) && data[start..] == StoreGroups(b)
    ensures LoadContent(TakeVarint, LoadGroup, data) == Expected(b)
  {
    LoadRestoresGroups();
    ContentLoaded(TakeVarint, LoadGroup, b, data, at, start);
  }

  lemma {:induction false} LoadRestoresGroups()
    ensures forall g :: RestoresGroup(LoadGroup, g)
  {
    forall g ensures RestoresGroup(LoadGroup, g) {
      if Good(g) && AllSized(g) {
        GroupRoundTrip(g);
      }
    }
  }

  /** The stored empty block is three bytes long, undamaged, and refused: an offset would be read behind them. */
  lemma {:induction false} EmptyBlock()
    ensures Storable([]) && |StoreBlock([])| == 3 && Intact(StoreBlock([]))
    ensures LoadBlock(StoreBlock([])) == None
  {
    var b: Block := [];
    assert Storable(b) && AllGroupsSized(b) && Starts(b, HeaderSize(0)) == [];
    assert Varints.Encode(0) == [0] && Payload(b) == [0];
    BlockRoundTrip(b);
    BlockStored(b, StoreBlock(b));
  }

  // ---------- in memory ----------

  function Behind(done: Block, rest: Option<Block>): Option<Block> {
    if rest.None? then None else Some(done + rest.value)
  }

  lemma {:induction false} NothingBefore(rest: Option<Block>)
    ensures Behind([], rest) == rest
  {
    if rest.Some? {
      assert [] + rest.value == rest.value;
    }
  }

  lemma {:induction false} OneMoreGroup(load: GroupLoader, starts: seq<nat>, data: Bytes, done: Block, g: Group)
    requires InOrder(starts, |data|) && starts != [] && InOrder(starts[1..], |data|)
    requires load(FirstOf(starts, data)) == Some(g)
    ensures Behind(done, LoadGroups(load, starts, data)) == Behind(done + [g], LoadGroups(load, starts[1..], data))
  {
    var rest := LoadGroups(load, starts[1..], data);
    if rest.Some? {
      assert done + ([g] + rest.value) == done + [g] + rest.value;
    }
  }

  ghost predicate IsLoadGroup(load: GroupLoader, d: Bytes) {
    load(d) == LoadGroup(d)
  }

  method ReadStart(data: Bytes, at: nat) returns (n: nat)
    requires at + OFFSET_SIZE <= |data|
    ensures n == FromLe(data[at..at + OFFSET_SIZE])
  {
    n := FromLe(data[at..at + OFFSET_SIZE]);
  }

  lemma {:induction false} NotInOrder(starts: seq<nat>, j: nat, size: nat)
    requires j + 1 < |starts| && (starts[j] > size || starts[j + 1] > size || starts[j + 1] < starts[j])
    ensures !InOrder(starts, size)
  {
    assert j + 2 < |starts| ==> StartOk(starts, j + 1, size) || !InOrder(starts, size);
    assert StartOk(starts, j, size) || !InOrder(starts, size);
  }

  /** Reads the index and checks that it stays within the buffer and never goes back. */
  method ReadIndex(data: Bytes, at: nat, entries: nat) returns (ok: bool, starts: seq<nat>)
    requires entries >= 1 && at + OFFSET_SIZE * entries <= |data|
    ensures ok <==> InOrder(ReadStarts(data, at, entries), |data|)
    ensures ok ==> starts == ReadStarts(data, at, entries)
  {
    ghost var all := ReadStarts(data, at, entries);
    starts := [];
    var i := 1;
    while i < entries
      invariant 1 <= i <= entries && starts == all[..i - 1]
      invariant forall j: nat :: j < i - 1 ==> StartOk(all, j, |data|)
      decreases entries - i
    {
      var begin := ReadStart(data, at + OFFSET_SIZE * (i - 1));
      assert begin == all[i - 1];
      if begin > |data| {
        NotInOrder(all, i - 1, |data|);
        return false, [];
      }
      var end := ReadStart(data, at + OFFSET_SIZE * i);
      assert end == all[i];
      if end > |data| || end < begin {
        NotInOrder(all, i - 1, |data|);
        return false, [];
      }
      starts := starts + [begin];
      assert all[..i] == all[..i - 1] + [all[i - 1]];
      i := i + 1;
    }
    var begin := ReadStart(data, at + OFFSET_SIZE * (entries - 1));
    assert begin == all[entries - 1];
    if begin > |data| {
      return false, [];
    }
    starts := starts + [begin];
    assert all == all[..entries - 1] + [all[entries - 1]];
    return true, starts;
  }

  class SstDataBlock {
    var groups: Block

    constructor ()
      ensures groups == []
    {
      groups := [];
    }

    method ComputeSize() returns (size: nat)
      requires Storable(groups)
      ensures size == |StoreBlock(groups)|
    {
      var builder := Varints.Store(|groups|);
      size := CRC_SIZE + |builder| + OFFSET_SIZE * |groups|;
      assert groups[..0] == [];
      for i := 0 to |groups|
        invariant size == HeaderSize(|groups|) + |StoreGroups(groups[..i])|
      {
        GroupsSnoc(groups, i);
        var n := GroupSize(groups[i]);
        size := size + n;
      }
      assert groups[..|groups|] == groups;
    }

    /** The buffer must be large enough; loading what has been stored gives the groups back, under the conditions of
        `BlockRoundTrip`. */
    method UnsafeStoreTo(data: array<Byte>) returns (size: nat)
      requires Storable(groups) && |StoreBlock(groups)| <= data.Length
      modifies data
      ensures size == |StoreBlock(groups)| && data[..] == StoreBlock(groups) + old(data[..])[size..]
    {
      size := StoreBlockTo(groups, data);
    }

    /** Restores the groups. Where the program throws, they are what they were, or none once the groups were begun. */
    method LoadFrom(data: Bytes) returns (ok: bool)
      modifies this`groups
      ensures ok <==> LoadBlock(data).Some?
      ensures ok ==> groups == LoadBlock(data).value
      ensures !ok ==> groups == old(groups) || groups == []
    {
      if |data| < 3 {
        return false;
      }
      var crc := Crc16(data[CRC_SIZE..]);
      if ToLe(crc as nat, CRC_SIZE) != data[..CRC_SIZE] {
        return false;
      }
      ok := LoadBehindChecksum(data, LoadGroup);
    }

    method LoadBehindChecksum(data: Bytes, ghost load: GroupLoader) returns (ok: bool)
      requires forall d :: IsLoadGroup(load, d)
      modifies this`groups
      ensures ok <==> LoadContent(TakeVarint, load, data).Some?
      ensures ok ==> groups == LoadContent(TakeVarint, load, data).value
      ensures !ok ==> groups == old(groups) || groups == []
    {
      var count := TakeNumber(data, CRC_SIZE);
      if count.None? {
        return false;
      }
      var number, at := count.value.0, count.value.1;
      var entries := if number == 0 then 1 else number;
      if at + OFFSET_SIZE * entries > |data| {
        return false;
      }
      var inOrder, starts := ReadIndex(data, at, entries);
      if !inOrder {
        return false;
      }
      ok := LoadEach(data, starts, load);
    }

    method LoadEach(data: Bytes, starts: seq<nat>, ghost load: GroupLoader) returns (ok: bool)
      requires InOrder(starts, |data|) && forall d :: IsLoadGroup(load, d)
      modifies this`groups
      ensures ok <==> LoadGroups(load, starts, data).Some?
      ensures groups == if ok then LoadGroups(load, starts, data).value else []
    {
      groups := [];
      assert starts[0..] == starts;
      for i := 0 to |starts|
        invariant InOrder(starts[i..], |data|)
        invariant Behind(groups, LoadGroups(load, starts[i..], data)) == Behind([], LoadGroups(load, starts, data))
      {
        var end := if i + 1 < |starts| then starts[i + 1] else |data|;
        ghost var left := starts[i..];
        InOrderTail(left, |data|);
        assert left[0] == starts[i] && end == EndOf(left, |data|) && left[1..] == starts[i + 1..];
        var group := new SstKeyValueGroup((a, b) => BufferCompare(a, b));
        var loaded := group.LoadFrom(data[starts[i]..end]);
        assert IsLoadGroup(load, data[starts[i]..end]);
        if !loaded {
          groups := [];
          return false;
        }
        OneMoreGroup(load, left, data, groups, group.pairs);
        groups := groups + [group.pairs];
      }
      assert starts[|starts|..] == [] && groups + [] == groups;
      NothingBefore(LoadGroups(load, starts, data));
      return true;
    }
  }

  // ---------- storing into a buffer ----------

  /** Nothing outside of `lo` to `hi` has changed. */
  ghost predicate Kept(d: Bytes, e: Bytes, lo: nat, hi: nat) {
    |d| == |e| && lo <= hi <= |d| && d[..lo] == e[..lo] && d[hi..] == e[hi..]
  }

  /** `s` has been written at `at`, and nothing else. */
  ghost predicate Wrote(d: Bytes, e: Bytes, at: nat, s: Bytes) {
    Kept(d, e, at, at + |s|) && At(e, at, s)
  }

  lemma {:induction false} KeptWider(d: Bytes, e: Bytes, lo: nat, hi: nat, low: nat, high: nat)
    requires Kept(d, e, lo, hi) && low <= lo && hi <= high <= |d|
    ensures Kept(d, e, low, high)
  {
  }

  lemma {:induction false} KeptTwice(a: Bytes, b: Bytes, c: Bytes, lo: nat, hi: nat)
    requires Kept(a, b, lo, hi) && Kept(b, c, lo, hi)
    ensures Kept(a, c, lo, hi)
  {
  }

  /** What lies outside stays. */
  lemma {:induction false} KeptAt(d: Bytes, e: Bytes, lo: nat, hi: nat, i: nat, t: Bytes)
    requires Kept(d, e, lo, hi) && At(d, i, t) && (i + |t| <= lo || hi <= i)
    ensures At(e, i, t)
  {
    forall k | 0 <= k < |t| ensures e[i + k] == t[k] {
      assert d[i..i + |t|][k] == t[k];
      if i + |t| <= lo {
        assert d[..lo][i + k] == e[..lo][i + k];
      } else {
        assert d[hi..][i + k - hi] == e[hi..][i + k - hi];
      }
    }
  }

  lemma {:induction false} AtSplit(data: Bytes, i: nat, s: Bytes, t: Bytes)
    ensures At(data, i, s + t) <==> At(data, i, s) && At(data, i + |s|, t)
  {
    if At(data, i, s + t) {
      assert data[i..i + |s|] == data[i..i + |s + t|][..|s|]
          && data[i + |s|..i + |s| + |t|] == data[i..i + |s + t|][|s|..];
    }
    if At(data, i, s) && At(data, i + |s|, t) {
      assert data[i..i + |s + t|] == data[i..i + |s|] + data[i + |s|..i + |s| + |t|];
    }
  }

  lemma {:induction false} SplicedIn(d: Bytes, e: Bytes, at: nat, s: Bytes)
    requires at + |s| <= |d| && e == d[..at] + s + d[at + |s|..]
    ensures Wrote(d, e, at, s)
  {
  }

  method CopyTo(data: array<Byte>, at: nat, s: Bytes)
    requires at + |s| <= data.Length
    modifies data
    ensures Wrote(old(data[..]), data[..], at, s)
  {
    ghost var d := data[..];
    MemCpy(data, at, s);
    assert old(data[..at]) == d[..at] && old(data[at + |s|..]) == d[at + |s|..];
    SplicedIn(d, data[..], at, s);
  }

  method StoreGroupAt(g: Group, data: array<Byte>, at: nat) returns (size: nat)
    requires Good(g) && at + |StoreAll(g)| <= data.Length
    modifies data
    ensures size == |StoreAll(g)| && Wrote(old(data[..]), data[..], at, StoreAll(g))
  {
    ghost var d := data[..];
    Started(d, at);
    size := UnsafeStoreGroup(g, data, at, d[..at], [], d[at..]);
    assert [] + StoreAll(g) == StoreAll(g) && d[at..][|StoreAll(g)|..] == d[at + |StoreAll(g)|..];
    SplicedIn(d, data[..], at, StoreAll(g));
  }

  lemma {:induction false} OffsetsConcat(a: seq<nat>, b: seq<nat>)
    ensures Offsets(a + b) == Offsets(a) + Offsets(b)
    decreases |a|
  {
    if a == [] {
      assert a + b == b;
    } else {
      assert (a + b)[1..] == a[1..] + b;
      OffsetsConcat(a[1..], b);
    }
  }

  lemma {:induction false} OneOffset(start: nat)
    ensures Offsets([start]) == ToLe(start, OFFSET_SIZE)
  {
  }

  lemma {:induction false} OffsetsSnoc(starts: seq<nat>, k: nat)
    requires k < |starts|
    ensures Offsets(starts[..k + 1]) == Offsets(starts[..k]) + ToLe(starts[k], OFFSET_SIZE)
  {
    assert starts[..k + 1] == starts[..k] + [starts[k]];
    OffsetsConcat(starts[..k], [starts[k]]);
    OneOffset(starts[k]);
  }

  lemma {:induction false} StartOf(b: Block, at: nat, k: nat)
    requires k < |b| && Storable(b)
    ensures Starts(b, at)[k] == at + |StoreGroups(b[..k])|
  {
    if k == 0 {
      assert b[..0] == [];
    } else {
      StartOf(b[1..], at + |StoreAll(b[0])|, k - 1);
      assert b[..k][1..] == b[1..][..k - 1];
    }
  }

  lemma {:induction false} GroupsPrefix(b: Block, k: nat)
    requires k <= |b| && Storable(b)
    ensures |StoreGroups(b[..k])| <= |StoreGroups(b)|
  {
    assert b == b[..k] + b[k..];
    GroupsConcat(b[..k], b[k..]);
  }

  lemma {:induction false} GroupWritten(d: Bytes, e: Bytes, at: nat, start: nat, offs: Bytes, done: Bytes, g: Bytes)
    requires at + |offs| <= start && At(d, at, offs) && At(d, start, done) && Wrote(d, e, start + |done|, g)
    ensures At(e, at, offs) && At(e, start, done + g)
  {
    KeptAt(d, e, start + |done|, start + |done| + |g|, at, offs);
    KeptAt(d, e, start + |done|, start + |done| + |g|, start, done);
    AtSplit(e, start, done, g);
  }

  lemma {:induction false} OffsetWritten(d: Bytes, e: Bytes, at: nat, start: nat, offs: Bytes, groups: Bytes, o: Bytes)
    requires at + |offs| + |o| <= start && At(d, at, offs) && At(d, start, groups) && Wrote(d, e, at + |offs|, o)
    ensures At(e, at, offs + o) && At(e, start, groups)
  {
  }

  lemma {:induction false} GroupsConcat(a: Block, b: Block)
    requires Storable(a) && Storable(b)
    ensures StoreGroups(a + b) == StoreGroups(a) + StoreGroups(b)
    decreases |a|
  {
    if a == [] {
      assert a + b == b;
    } else {
      assert (a + b)[1..] == a[1..] + b;
      GroupsConcat(a[1..], b);
    }
  }

  lemma {:induction false} GroupsSnoc(b: Block, k: nat)
    requires k < |b| && Storable(b)
    ensures StoreGroups(b[..k + 1]) == StoreGroups(b[..k]) + StoreAll(b[k])
  {
    assert b[..k + 1] == b[..k] + [b[k]];
    GroupsConcat(b[..k], [b[k]]);
    assert [b[k]][1..] == [];
  }

  /** A group, then its offset. */
  method StoreOne(g: Group, offset: Bytes, data: array<Byte>, slot: nat, last: nat, ghost first: Bytes,
                  ghost at: nat, ghost start: nat, ghost end: nat, ghost offs: Bytes, ghost done: Bytes)
    returns (next: nat)
    requires Good(g) && |offset| == OFFSET_SIZE && slot == at + |offs| && slot + OFFSET_SIZE <= start
            && last == start + |done|
    requires last + |StoreAll(g)| <= end <= data.Length && Progress(data[..], at, start, offs, done)
    requires Kept(first, data[..], at, end)
    modifies data
    ensures next == last + |StoreAll(g)| && Progress(data[..], at, start, offs + offset, done + StoreAll(g))
    ensures Kept(first, data[..], at, end)
  {
    ghost var d := data[..];
    var kvSize := StoreGroupAt(g, data, last);
    ghost var e := data[..];
    GroupWritten(d, e, at, start, offs, done, StoreAll(g));
    KeptWider(d, e, last, last + |StoreAll(g)|, at, end);
    CopyTo(data, slot, offset);
    OffsetWritten(e, data[..], at, start, offs, done + StoreAll(g), offset);
    KeptWider(e, data[..], slot, slot + OFFSET_SIZE, at, end);
    KeptTwice(first, d, e, at, end);
    KeptTwice(first, e, data[..], at, end);
    next := last + kvSize;
  }

  /** What has been stored once the groups in `done` and their offsets in `offs` have been. */
  ghost predicate Progress(data: Bytes, at: nat, start: nat, offs: Bytes, done: Bytes) {
    At(data, at, offs) && At(data, start, done)
  }

  /** Groups one behind the other, and the offset of each as soon as it has been stored. */
  method StoreIndexAndGroups(b: Block, data: array<Byte>, at: nat) returns (last: nat)
    requires Storable(b) && at + OFFSET_SIZE * |b| + |StoreGroups(b)| <= data.Length
    modifies data
    ensures var start := at + OFFSET_SIZE * |b|;
            last == start + |StoreGroups(b)| && Progress(data[..], at, start, Offsets(Starts(b, start)), StoreGroups(b))
    ensures Kept(old(data[..]), data[..], at, last)
  {
    ghost var start := at + OFFSET_SIZE * |b|;
    last := StoreEach(b, data, at, start, start + |StoreGroups(b)|, Starts(b, start));
  }

  method StoreEach(b: Block, data: array<Byte>, at: nat, ghost start: nat, ghost end: nat, ghost starts: seq<nat>)
    returns (last: nat)
    requires Storable(b) && start == at + OFFSET_SIZE * |b| && end == start + |StoreGroups(b)| <= data.Length
    requires starts == Starts(b, start)
    modifies data
    ensures last == end && Progress(data[..], at, start, Offsets(starts), StoreGroups(b))
            && Kept(old(data[..]), data[..], at, end)
  {
    ghost var offs: Bytes, done: Bytes := [], [];
    last := at + OFFSET_SIZE * |b|;
    assert b[..0] == [] && starts[..0] == [];
    for i := 0 to |b|
      invariant |offs| == OFFSET_SIZE * i && offs == Offsets(starts[..i]) && done == StoreGroups(b[..i])
      invariant last == start + |done| && Progress(data[..], at, start, offs, done)
      invariant Kept(old(data[..]), data[..], at, end)
    {
      var slot := ToLe(last, OFFSET_SIZE);
      NextGroup(b, starts, start, i, offs, done, slot);
      last := StoreOne(b[i], slot, data, at + OFFSET_SIZE * i, last, old(data[..]), at, start, end, offs, done);
      offs, done := offs + slot, done + StoreAll(b[i]);
    }
    assert b[..|b|] == b && starts[..|b|] == starts;
  }

  /** Where the next group goes, and that it stays within the block. */
  lemma {:induction false} NextGroup(
      b: Block, starts: seq<nat>, start: nat, k: nat, offs: Bytes, done: Bytes, slot: Bytes)
    requires Storable(b) && k < |b| && starts == Starts(b, start)
    requires offs == Offsets(starts[..k]) && done == StoreGroups(b[..k]) && slot == ToLe(start + |done|, OFFSET_SIZE)
    ensures offs + slot == Offsets(starts[..k + 1]) && |offs + slot| == OFFSET_SIZE * (k + 1)
    ensures done + StoreAll(b[k]) == StoreGroups(b[..k + 1])
    ensures |done| + |StoreAll(b[k])| <= |StoreGroups(b)|
  {
    OffsetsGrow(b, starts, start, k, slot);
    WithinGroups(b, k);
  }

  lemma {:induction false} OffsetsGrow(b: Block, starts: seq<nat>, start: nat, k: nat, slot: Bytes)
    requires Storable(b) && k < |b| && starts == Starts(b, start)
    requires slot == ToLe(start + |StoreGroups(b[..k])|, OFFSET_SIZE)
    ensures Offsets(starts[..k]) + slot == Offsets(starts[..k + 1])
    ensures |Offsets(starts[..k + 1])| == OFFSET_SIZE * (k + 1)
  {
    StartOf(b, start, k);
    OffsetsSnoc(starts, k);
  }

  lemma {:induction false} WithinGroups(b: Block, k: nat)
    requires k < |b| && Storable(b)
    ensures StoreGroups(b[..k + 1]) == StoreGroups(b[..k]) + StoreAll(b[k])
    ensures |StoreGroups(b[..k])| + |StoreAll(b[k])| <= |StoreGroups(b)|
  {
    GroupsSnoc(b, k);
    GroupsPrefix(b, k + 1);
  }

  lemma {:induction false} PayloadComplete(
      d: Bytes, counted: Bytes, data: Bytes, e: Bytes, offsets: Bytes, groups: Bytes, at: nat, size: nat)
    requires at == CRC_SIZE + |e| && size == at + |offsets| + |groups| && Wrote(d, counted, CRC_SIZE, e)
    requires Kept(counted, data, at, size) && Progress(data, at, at + |offsets|, offsets, groups)
    ensures At(data, CRC_SIZE, e + offsets + groups) && Kept(d, data, CRC_SIZE, size)
  {
  }

  /** Everything behind the checksum. */
  method StorePayload(b: Block, data: array<Byte>) returns (size: nat)
    requires Storable(b) && |StoreBlock(b)| <= data.Length
    modifies data
    ensures size == CRC_SIZE + |Payload(b)| && At(data[..], CRC_SIZE, Payload(b))
    ensures Kept(old(data[..]), data[..], CRC_SIZE, size)
  {
    var builder := Varints.Store(|b|);
    CopyTo(data, CRC_SIZE, builder);
    ghost var counted := data[..];
    size := StoreIndexAndGroups(b, data, CRC_SIZE + |builder|);
    PayloadComplete(old(data[..]), counted, data[..], builder, Offsets(Starts(b, HeaderSize(|b|))), StoreGroups(b),
                    CRC_SIZE + |builder|, size);
  }

  /** Stores the block at the front of the buffer, which must be large enough, and returns its length. */
  method StoreBlockTo(b: Block, data: array<Byte>) returns (size: nat)
    requires Storable(b) && |StoreBlock(b)| <= data.Length
    modifies data
    ensures size == |StoreBlock(b)|
    ensures data[..] == StoreBlock(b) + old(data[..])[size..]
  {
    ghost var d := data[..];
    size := StorePayload(b, data);
    ghost var stored := data[..];
    assert data[CRC_SIZE..size] == stored[CRC_SIZE..size] == Payload(b);
    var crc := Crc16(data[CRC_SIZE..size]);
    CopyTo(data, 0, ToLe(crc as nat, CRC_SIZE));
    Sealed(d, stored, data[..], size, Payload(b), Checksum(Payload(b)));
  }

  lemma {:induction false} Sealed(d: Bytes, stored: Bytes, e: Bytes, size: nat, payload: Bytes, check: Bytes)
    requires |check| == CRC_SIZE && size == CRC_SIZE + |payload| && At(stored, CRC_SIZE, payload)
    requires Kept(d, stored, CRC_SIZE, size) && Wrote(stored, e, 0, check)
    ensures e == check + payload + d[size..]
  {
  }
}
