/** The free areas of a table file: first fit, and a list of them threaded through the file itself. */
module FreeLists {
  import opened Buffers
  import opened LittleEndian

  datatype FilePointer = FilePointer(offset: nat, size: nat)

  const ZERO := FilePointer(0, 0)

  const POINTER_SIZE: nat := 16

  /** The list starts in the first pointer slot; the second one holds the root. */
  const HEADER_SIZE: nat := 32

  type File = map<nat, Byte>

  /** `free` is the list kept in memory, `end` the end of the file, `live` what has been allocated and not freed. */
  datatype Space = Space(file: File, free: seq<FilePointer>, end: nat, live: seq<FilePointer>)

  // ---------- bytes ----------

  function ByteAt(file: File, at: nat): Byte {
    if at in file then file[at] else 0
  }

  function Read(file: File, at: nat, count: nat): (s: Bytes)
    ensures |s| == count
  {
    seq(count, i requires 0 <= i => ByteAt(file, at + i))
  }

  function Span(at: nat, count: nat): (s: set<nat>)
    ensures forall i :: i in s <==> at <= i < at + count
  {
    if count == 0 then {} else Span(at, count - 1) + {at + count - 1}
  }

  function WriteBytes(file: File, at: nat, s: Bytes): File {
    map i | i in file.Keys + Span(at, |s|) :: if at <= i < at + |s| then s[i - at] else ByteAt(file, i)
  }

  function Encode(p: FilePointer): (s: Bytes)
    ensures |s| == POINTER_SIZE
  {
    ToLe(p.offset, 8) + ToLe(p.size, 8)
  }

  function ReadPointer(file: File, at: nat): FilePointer {
    FilePointer(FromLe(Read(file, at, 8)), FromLe(Read(file, at + 8, 8)))
  }

  function WritePointer(file: File, at: nat, p: FilePointer): File {
    WriteBytes(file, at, Encode(p))
  }

  lemma {:induction false} WrittenBytes(file: File, at: nat, s: Bytes)
    ensures forall x: nat ::
              ByteAt(WriteBytes(file, at, s), x) == if at <= x < at + |s| then s[x - at] else ByteAt(file, x)
  {
  }

  lemma {:induction false} ReadBack(file: File, at: nat, p: FilePointer)
    requires p.offset < UINT64_COUNT && p.size < UINT64_COUNT
    ensures ReadPointer(WritePointer(file, at, p), at) == p
  {
    var f := WritePointer(file, at, p);
    WrittenBytes(file, at, Encode(p));
    assert Read(f, at, 8) == ToLe(p.offset, 8);
    assert Read(f, at + 8, 8) == ToLe(p.size, 8);
    Le64RoundTrip(p.offset);
    Le64RoundTrip(p.size);
  }

  lemma {:induction false} ReadElsewhere(file: File, at: nat, p: FilePointer, other: nat)
    requires other + POINTER_SIZE <= at || at + POINTER_SIZE <= other
    ensures ReadPointer(WritePointer(file, at, p), other) == ReadPointer(file, other)
  {
    var f := WritePointer(file, at, p);
    WrittenBytes(file, at, Encode(p));
    assert Read(f, other, 8) == Read(file, other, 8);
    assert Read(f, other + 8, 8) == Read(file, other + 8, 8);
  }

  // ---------- operations ----------

  function InitFile(): Space {
    Space(WriteBytes(map[], 0, Encode(ZERO) + Encode(ZERO)), [], HEADER_SIZE, [])
  }

  function FirstFit(free: seq<FilePointer>, size: nat): (k: nat)
    ensures k <= |free|
    ensures k < |free| ==> free[k].size >= size
    ensures forall i :: 0 <= i < k ==> free[i].size < size
  {
    if free == [] then 0
    else if free[0].size >= size then 0
    else
      var k := FirstFit(free[1..], size);
      assert forall i :: 0 < i < k + 1 ==> free[i] == free[1..][i - 1];
      k + 1
  }

  /** Where the link to area `k` is stored, and what is stored there. */
  function Slot(free: seq<FilePointer>, k: nat): nat
    requires k <= |free|
  {
    if k == 0 then 0 else free[k - 1].offset
  }

  function Link(free: seq<FilePointer>, k: nat): FilePointer {
    if k < |free| then free[k] else ZERO
  }

  function Without<T>(s: seq<T>, k: nat): seq<T>
    requires k < |s|
  {
    s[..k] + s[k + 1..]
  }

  /** Area `k` is the first one that is large enough. */
  predicate FitsFirst(free: seq<FilePointer>, size: nat, k: nat) {
    k < |free| && free[k].size >= size && forall i :: 0 <= i < k ==> free[i].size < size
  }

  /** The first area that is large enough is handed out whole; otherwise the file grows. */
  function Allocated(s: Space, size: nat): FilePointer {
    var k := FirstFit(s.free, size);
    if k < |s.free| then s.free[k] else FilePointer(s.end, size)
  }

  function AfterAlloc(s: Space, size: nat): Space {
    var k := FirstFit(s.free, size);
    var p := Allocated(s, size);
    if k < |s.free| then
      s.(file := WritePointer(s.file, Slot(s.free, k), Link(s.free, k + 1)),
         free := Without(s.free, k), live := s.live + [p])
    else
      s.(end := s.end + size, live := s.live + [p])
  }

  /** A free area is used again whenever one is large enough, the first such one, and the file grows only otherwise. */
  lemma {:induction false} ReusesFirstFit(s: Space, size: nat)
    ensures var t := AfterAlloc(s, size);
            if exists k: nat :: FitsFirst(s.free, size, k) then
              t.end == s.end
              && exists k: nat :: FitsFirst(s.free, size, k) && t.free == Without(s.free, k)
                   && t.live == s.live + [s.free[k]]
            else
              && (forall i :: 0 <= i < |s.free| ==> s.free[i].size < size)
              && t.free == s.free && t.end == s.end + size && t.live == s.live + [FilePointer(s.end, size)]
              && t.file == s.file
  {
    var k := FirstFit(s.free, size);
    if k < |s.free| {
      assert FitsFirst(s.free, size, k);
    }
  }

  /** Frees the `i`-th live region; nothing happens to one of size 0. */
  function AfterFree(s: Space, i: nat): Space
    requires i < |s.live|
  {
    var p := s.live[i];
    var rest := Without(s.live, i);
    if p.size == 0 then s.(live := rest)
    else
      s.(file := WritePointer(WritePointer(s.file, p.offset, ZERO), Slot(s.free, |s.free|), p),
         free := s.free + [p], live := rest)
  }

  // ---------- what is kept ----------

  predicate Contains(p: FilePointer, x: nat) {
    p.offset <= x < p.offset + p.size
  }

  function Cover(regions: seq<FilePointer>, x: nat): nat {
    if regions == [] then 0
    else Cover(regions[..|regions| - 1], x) + if Contains(regions[|regions| - 1], x) then 1 else 0
  }

  /** Live and free regions tile the file behind the header: no gap, no overlap. */
  ghost predicate Tiled(s: Space) {
    forall x: nat :: Cover(s.live, x) + Cover(s.free, x) == if HEADER_SIZE <= x < s.end then 1 else 0
  }

  /** The list threaded through the file is the list in memory. */
  ghost predicate Linked(s: Space) {
    forall k: nat :: k <= |s.free| ==> ReadPointer(s.file, Slot(s.free, k)) == Link(s.free, k)
  }

  ghost predicate Good(s: Space) {
    && HEADER_SIZE <= s.end < UINT64_COUNT
    && (forall i :: 0 <= i < |s.free| ==> s.free[i].size >= POINTER_SIZE)
    && Tiled(s) && Linked(s)
  }

  lemma {:induction false} CoverConcat(a: seq<FilePointer>, b: seq<FilePointer>, x: nat)
    ensures Cover(a + b, x) == Cover(a, x) + Cover(b, x)
  {
    if b == [] {
      assert a + b == a;
    } else {
      assert (a + b)[..|a + b| - 1] == a + b[..|b| - 1];
      CoverConcat(a, b[..|b| - 1], x);
    }
  }

  lemma {:induction false} CoverOne(p: FilePointer, x: nat)
    ensures Cover([p], x) == if Contains(p, x) then 1 else 0
  {
  }

  lemma {:induction false} CoverWithout(s: seq<FilePointer>, k: nat, x: nat)
    requires k < |s|
    ensures Cover(s, x) == Cover(Without(s, k), x) + if Contains(s[k], x) then 1 else 0
  {
    assert s == s[..k] + [s[k]] + s[k + 1..];
    CoverConcat(s[..k] + [s[k]], s[k + 1..], x);
    CoverConcat(s[..k], [s[k]], x);
    CoverConcat(s[..k], s[k + 1..], x);
    CoverOne(s[k], x);
  }

  lemma {:induction false} Covered(s: seq<FilePointer>, k: nat, x: nat)
    requires k < |s| && Contains(s[k], x)
    ensures Cover(s, x) >= 1
  {
    CoverWithout(s, k, x);
  }

  lemma {:induction false} CoveredTwice(s: seq<FilePointer>, j: nat, k: nat, x: nat)
    requires j < k < |s| && Contains(s[j], x) && Contains(s[k], x)
    ensures Cover(s, x) >= 2
  {
    CoverWithout(s, k, x);
    assert Without(s, k)[j] == s[j];
    Covered(Without(s, k), j, x);
  }

  lemma {:induction false} FreeInside(s: Space, k: nat)
    requires Good(s) && k < |s.free|
    ensures HEADER_SIZE <= s.free[k].offset && s.free[k].offset + s.free[k].size <= s.end
  {
    var p := s.free[k];
    Covered(s.free, k, p.offset);
    Covered(s.free, k, p.offset + p.size - 1);
  }

  /** Two pointer slots of the list never overlap. */
  lemma {:induction false} SlotsApart(s: Space, j: nat, k: nat)
    requires Good(s) && j < k <= |s.free|
    ensures var a, b := Slot(s.free, j), Slot(s.free, k);
            a + POINTER_SIZE <= b || b + POINTER_SIZE <= a
  {
    FreeInside(s, k - 1);
    if j > 0 {
      var p, q := s.free[j - 1], s.free[k - 1];
      if p.offset <= q.offset < p.offset + POINTER_SIZE {
        CoveredTwice(s.free, j - 1, k - 1, q.offset);
      } else if q.offset <= p.offset < q.offset + POINTER_SIZE {
        CoveredTwice(s.free, j - 1, k - 1, p.offset);
      }
    }
  }

  /** The slots lie in the head of the file or in free areas, so not in the root slot and not in live regions. */
  lemma {:induction false} SlotIsNotLive(s: Space, k: nat, i: nat, x: nat)
    requires Good(s) && k <= |s.free| && i < |s.live| && Contains(s.live[i], x)
    ensures !(Slot(s.free, k) <= x < Slot(s.free, k) + POINTER_SIZE)
  {
    Covered(s.live, i, x);
    if k > 0 && s.free[k - 1].offset <= x < s.free[k - 1].offset + POINTER_SIZE {
      Covered(s.free, k - 1, x);
    }
  }

  lemma {:induction false} SlotIsNotRoot(s: Space, k: nat)
    requires Good(s) && k <= |s.free|
    ensures Slot(s.free, k) + POINTER_SIZE <= POINTER_SIZE || HEADER_SIZE <= Slot(s.free, k)
  {
    if k > 0 {
      FreeInside(s, k - 1);
    }
  }

  // ---------- initial file ----------

  lemma {:induction false} FirstOfTwo(file: File, at: nat, p: FilePointer, q: FilePointer)
    requires p.offset < UINT64_COUNT && p.size < UINT64_COUNT
    ensures ReadPointer(WriteBytes(file, at, Encode(p) + Encode(q)), at) == p
  {
    var both, f := WriteBytes(file, at, Encode(p) + Encode(q)), WritePointer(file, at, p);
    WrittenBytes(file, at, Encode(p) + Encode(q));
    WrittenBytes(file, at, Encode(p));
    ReadBack(file, at, p);
    assert Read(both, at, 8) == Read(f, at, 8) && Read(both, at + 8, 8) == Read(f, at + 8, 8);
  }

  lemma {:induction false} InitIsGood()
    ensures Good(InitFile())
  {
    FirstOfTwo(map[], 0, ZERO, ZERO);
  }

  // ---------- allocating ----------

  lemma {:induction false} UnlinkIsLinked(s: Space, k: nat)
    requires Good(s) && k < |s.free|
    ensures Linked(s.(file := WritePointer(s.file, Slot(s.free, k), Link(s.free, k + 1)), free := Without(s.free, k)))
  {
    var t := s.(file := WritePointer(s.file, Slot(s.free, k), Link(s.free, k + 1)), free := Without(s.free, k));
    forall j: nat | j <= |t.free| ensures ReadPointer(t.file, Slot(t.free, j)) == Link(t.free, j) {
      if j < k {
        SlotsApart(s, j, k);
        ReadElsewhere(s.file, Slot(s.free, k), Link(s.free, k + 1), Slot(s.free, j));
        assert Slot(t.free, j) == Slot(s.free, j);
      } else if j == k {
        if k + 1 < |s.free| {
          FreeInside(s, k + 1);
        }
        ReadBack(s.file, Slot(s.free, k), Link(s.free, k + 1));
        assert Slot(t.free, k) == Slot(s.free, k);
      } else {
        SlotsApart(s, k, j + 1);
        ReadElsewhere(s.file, Slot(s.free, k), Link(s.free, k + 1), Slot(s.free, j + 1));
        assert Slot(t.free, j) == Slot(s.free, j + 1);
      }
    }
  }

  lemma {:induction false} AllocIsTiled(s: Space, size: nat)
    requires Good(s)
    ensures Tiled(AfterAlloc(s, size))
  {
    var k, p, t := FirstFit(s.free, size), Allocated(s, size), AfterAlloc(s, size);
    forall x: nat ensures Cover(t.live, x) + Cover(t.free, x) == if HEADER_SIZE <= x < t.end then 1 else 0 {
      CoverConcat(s.live, [p], x);
      CoverOne(p, x);
      if k < |s.free| {
        CoverWithout(s.free, k, x);
      }
    }
  }

  lemma {:induction false} AllocIsGood(s: Space, size: nat)
    requires Good(s) && s.end + size < UINT64_COUNT
    ensures Good(AfterAlloc(s, size))
  {
    var k := FirstFit(s.free, size);
    AllocIsTiled(s, size);
    if k < |s.free| {
      UnlinkIsLinked(s, k);
    }
  }

  /** What is handed out is large enough, lies behind the header and overlaps nothing that is live. */
  lemma {:induction false} AllocatedIsUnused(s: Space, size: nat, i: nat, x: nat)
    requires Good(s) && i < |s.live| && Contains(Allocated(s, size), x)
    ensures Allocated(s, size).size >= size && x >= HEADER_SIZE && !Contains(s.live[i], x)
  {
    var k := FirstFit(s.free, size);
    if k < |s.free| {
      Covered(s.free, k, x);
    }
    if Contains(s.live[i], x) {
      Covered(s.live, i, x);
    }
  }

  // ---------- freeing ----------

  lemma {:induction false} LiveInside(s: Space, i: nat)
    requires Good(s) && i < |s.live| && s.live[i].size > 0
    ensures HEADER_SIZE <= s.live[i].offset && s.live[i].offset + s.live[i].size <= s.end
  {
    var p := s.live[i];
    Covered(s.live, i, p.offset);
    Covered(s.live, i, p.offset + p.size - 1);
  }

  /** A slot of the list and a live region that is large enough to hold a pointer do not overlap. */
  lemma {:induction false} SlotApartFromLive(s: Space, k: nat, i: nat)
    requires Good(s) && k <= |s.free| && i < |s.live| && s.live[i].size >= POINTER_SIZE
    ensures var a, b := Slot(s.free, k), s.live[i].offset;
            a + POINTER_SIZE <= b || b + POINTER_SIZE <= a
  {
    LiveInside(s, i);
    if k > 0 {
      var a, b := Slot(s.free, k), s.live[i].offset;
      if b <= a < b + POINTER_SIZE {
        SlotIsNotLive(s, k, i, a);
      } else if a <= b < a + POINTER_SIZE {
        SlotIsNotLive(s, k, i, b);
      }
    }
  }

  lemma {:induction false} FreeIsLinked(s: Space, i: nat)
    requires Good(s) && i < |s.live| && s.live[i].size >= POINTER_SIZE
    ensures Linked(AfterFree(s, i))
  {
    var p, n, t := s.live[i], |s.free|, AfterFree(s, i);
    var f := WritePointer(s.file, p.offset, ZERO);
    LiveInside(s, i);
    SlotApartFromLive(s, n, i);
    forall k: nat | k <= |t.free| ensures ReadPointer(t.file, Slot(t.free, k)) == Link(t.free, k) {
      if k < n {
        SlotsApart(s, k, n);
        SlotApartFromLive(s, k, i);
        ReadElsewhere(f, Slot(s.free, n), p, Slot(s.free, k));
        ReadElsewhere(s.file, p.offset, ZERO, Slot(s.free, k));
        assert Slot(t.free, k) == Slot(s.free, k);
      } else if k == n {
        ReadBack(f, Slot(s.free, n), p);
        assert Slot(t.free, n) == Slot(s.free, n);
      } else {
        ReadBack(s.file, p.offset, ZERO);
        ReadElsewhere(f, Slot(s.free, n), p, p.offset);
        assert Slot(t.free, k) == p.offset;
      }
    }
  }

  lemma {:induction false} FreeIsTiled(s: Space, i: nat)
    requires Good(s) && i < |s.live|
    ensures Tiled(AfterFree(s, i))
  {
    var p, t := s.live[i], AfterFree(s, i);
    forall x: nat ensures Cover(t.live, x) + Cover(t.free, x) == if HEADER_SIZE <= x < t.end then 1 else 0 {
      CoverWithout(s.live, i, x);
      CoverConcat(s.free, [p], x);
      CoverOne(p, x);
    }
  }

  lemma {:induction false} FreeIsGood(s: Space, i: nat)
    requires Good(s) && i < |s.live| && (s.live[i].size == 0 || s.live[i].size >= POINTER_SIZE)
    ensures Good(AfterFree(s, i))
  {
    FreeIsTiled(s, i);
    if s.live[i].size > 0 {
      FreeIsLinked(s, i);
    }
  }

  // ---------- owners writing into their regions ----------

  /** Data written inside one live region, or the root pointer in its slot, leaves the list alone. */
  lemma {:induction false} OwnerWriteIsGood(s: Space, at: nat, data: Bytes)
    requires Good(s)
    requires || (at == POINTER_SIZE && |data| == POINTER_SIZE)
             || exists i :: 0 <= i < |s.live| && s.live[i].offset <= at
                 && at + |data| <= s.live[i].offset + s.live[i].size
    ensures Good(s.(file := WriteBytes(s.file, at, data)))
  {
    var t := s.(file := WriteBytes(s.file, at, data));
    WrittenBytes(s.file, at, data);
    forall k: nat | k <= |t.free| ensures ReadPointer(t.file, Slot(t.free, k)) == Link(t.free, k) {
      var slot := Slot(s.free, k);
      forall x: nat | slot <= x < slot + POINTER_SIZE ensures ByteAt(t.file, x) == ByteAt(s.file, x) {
        SlotIsNotRoot(s, k);
        if at <= x < at + |data| && at != POINTER_SIZE {
          var i :| 0 <= i < |s.live| && s.live[i].offset <= at && at + |data| <= s.live[i].offset + s.live[i].size;
          SlotIsNotLive(s, k, i, x);
        } else if at <= x < at + |data| && !(|data| == POINTER_SIZE) {
          var i :| 0 <= i < |s.live| && s.live[i].offset <= at && at + |data| <= s.live[i].offset + s.live[i].size;
          SlotIsNotLive(s, k, i, x);
        }
      }
      assert Read(t.file, slot, 8) == Read(s.file, slot, 8) && Read(t.file, slot + 8, 8) == Read(s.file, slot + 8, 8);
    }
  }

  // ---------- runs ----------

  datatype Step = Alloc(size: nat) | Free(i: nat) | Write(i: nat, at: nat, data: Bytes) | WriteRoot(root: FilePointer)

  /** What the callers owe: a freed region is live and can hold a pointer, data stays inside its region, and the file
      does not outgrow 64 bits. */
  predicate Enabled(s: Space, step: Step) {
    match step
    case Alloc(size) => s.end + size < UINT64_COUNT
    case Free(i) => i < |s.live| && (s.live[i].size == 0 || s.live[i].size >= POINTER_SIZE)
    case Write(i, at, data) =>
      i < |s.live| && s.live[i].offset <= at && at + |data| <= s.live[i].offset + s.live[i].size
    case WriteRoot(_) => true
  }

  function Next(s: Space, step: Step): Space
    requires Enabled(s, step)
  {
    match step
    case Alloc(size) => AfterAlloc(s, size)
    case Free(i) => AfterFree(s, i)
    case Write(_, at, data) => s.(file := WriteBytes(s.file, at, data))
    case WriteRoot(root) => s.(file := WriteBytes(s.file, POINTER_SIZE, Encode(root)))
  }

  ghost predicate IsRun(states: seq<Space>, steps: seq<Step>) {
    && |states| == |steps| + 1
    && forall i :: 0 <= i < |steps| ==> Enabled(states[i], steps[i]) && states[i + 1] == Next(states[i], steps[i])
  }

  lemma {:induction false} StepIsGood(s: Space, step: Step)
    requires Good(s) && Enabled(s, step)
    ensures Good(Next(s, step))
  {
    match step
    case Alloc(size) => AllocIsGood(s, size);
    case Free(i) => FreeIsGood(s, i);
    case Write(i, at, data) => OwnerWriteIsGood(s, at, data);
    case WriteRoot(root) => OwnerWriteIsGood(s, POINTER_SIZE, Encode(root));
  }

  /** After every run of allocations, frees and owners' writes: live and free regions tile the file, and the list in the
      file is the list in memory. */
  lemma {:induction false} RunIsGood(states: seq<Space>, steps: seq<Step>)
    requires IsRun(states, steps) && states[0] == InitFile()
    ensures Good(states[|steps|])
  {
    if steps == [] {
      InitIsGood();
    } else {
      var n := |steps| - 1;
      forall i | 0 <= i < n
        ensures Enabled(states[..n + 1][i], steps[..n][i])
                && states[..n + 1][i + 1] == Next(states[..n + 1][i], steps[..n][i])
      {
      }
      RunIsGood(states[..n + 1], steps[..n]);
      StepIsGood(states[n], steps[n]);
    }
  }

  /** What opening a file reads back of its free areas: all but the first. */
  function ReadAreas(s: Space): seq<FilePointer> {
    if s.free == [] then [] else s.free[1..]
  }

  /** The shortest run after which opening the file loses a free area: one region allocated and freed. */
  lemma {:induction false} FreedAreaIsLost() returns (states: seq<Space>, steps: seq<Step>)
    ensures IsRun(states, steps) && states[0] == InitFile() && steps == [Alloc(16), Free(0)]
    ensures states[2].free == [FilePointer(HEADER_SIZE, 16)] && ReadAreas(states[2]) == []
  {
    var s0 := InitFile();
    var s1 := Next(s0, Alloc(16));
    assert s1.live == [FilePointer(HEADER_SIZE, 16)] && s1.free == [];
    assert AfterFree(s1, 0).free == [FilePointer(HEADER_SIZE, 16)];
    states, steps := [s0, s1, Next(s1, Free(0))], [Alloc(16), Free(0)];
  }

  /** Allocating and freeing change no byte of a region that stays live, and no byte of the root slot. */
  lemma {:induction false} OthersUntouched(s: Space, step: Step, i: nat, x: nat)
    requires Good(s) && Enabled(s, step) && (step.Alloc? || step.Free?)
    requires POINTER_SIZE <= x < HEADER_SIZE || (i < |s.live| && Contains(s.live[i], x) && !(step.Free? && step.i == i))
    ensures ByteAt(Next(s, step).file, x) == ByteAt(s.file, x)
  {
    match step
    case Alloc(size) =>
      var k := FirstFit(s.free, size);
      if k < |s.free| {
        WrittenBytes(s.file, Slot(s.free, k), Encode(Link(s.free, k + 1)));
        NotInSlot(s, k, i, x);
      }
    case Free(j) =>
      var p := s.live[j];
      if p.size > 0 {
        var f := WritePointer(s.file, p.offset, ZERO);
        WrittenBytes(s.file, p.offset, Encode(ZERO));
        WrittenBytes(f, Slot(s.free, |s.free|), Encode(p));
        NotInSlot(s, |s.free|, i, x);
        LiveInside(s, j);
        if p.offset <= x < p.offset + POINTER_SIZE {
          CoveredTwice(s.live, if i < j then i else j, if i < j then j else i, x);
        }
      }
  }

  lemma {:induction false} NotInSlot(s: Space, k: nat, i: nat, x: nat)
    requires Good(s) && k <= |s.free|
    requires POINTER_SIZE <= x < HEADER_SIZE || (i < |s.live| && Contains(s.live[i], x))
    ensures !(Slot(s.free, k) <= x < Slot(s.free, k) + POINTER_SIZE)
  {
    SlotIsNotRoot(s, k);
    if !(POINTER_SIZE <= x < HEADER_SIZE) {
      SlotIsNotLive(s, k, i, x);
    }
  }

  // ---------- the table's view of its file ----------

  class FileSpace {
    var file: File
    var freeArea: seq<FilePointer>
    var offset: nat
    ghost var live: seq<FilePointer>

    ghost function Value(): Space
      reads this
    {
      Space(file, freeArea, offset, live)
    }

    constructor ()
      ensures Good(Value()) && Value() == InitFile()
    {
      file := WriteBytes(map[], 0, Encode(ZERO) + Encode(ZERO));
      freeArea, offset, live := [], HEADER_SIZE, [];
      new;
      InitIsGood();
    }

    /** The first area that is large enough, or the end of the list. */
    method Find(size: nat) returns (k: nat)
      ensures k == FirstFit(freeArea, size)
    {
      k := 0;
      while k < |freeArea|
        invariant k <= |freeArea| && forall i :: 0 <= i < k ==> freeArea[i].size < size
      {
        if freeArea[k].size >= size {
          return;
        }
        k := k + 1;
      }
    }

    /** Takes area `k` out of the list. */
    method Unlink(k: nat) returns (pointer: FilePointer)
      requires k < |freeArea|
      modifies this`file, this`freeArea
      ensures pointer == old(freeArea)[k] && freeArea == Without(old(freeArea), k)
      ensures file == WritePointer(old(file), Slot(old(freeArea), k), Link(old(freeArea), k + 1))
    {
      pointer := freeArea[k];
      var next := if k + 1 < |freeArea| then freeArea[k + 1] else ZERO;
      var prev := if k > 0 then freeArea[k - 1] else FilePointer(0, POINTER_SIZE);
      file := WritePointer(file, prev.offset, next);
      freeArea := freeArea[..k] + freeArea[k + 1..];
    }

    method Take(size: nat) returns (pointer: FilePointer)
      modifies this
      ensures Value() == AfterAlloc(old(Value()), size) && pointer == Allocated(old(Value()), size)
    {
      var k := Find(size);
      if k < |freeArea| {
        pointer := Unlink(k);
      } else {
        pointer := FilePointer(offset, size);
        offset := offset + size;
      }
      live := live + [pointer];
    }

    /** First fit. What is handed out is at least as large as asked for and overlaps nothing that is live. */
    method AllocMemory(size: nat) returns (pointer: FilePointer)
      requires Good(Value()) && offset + size < UINT64_COUNT
      modifies this
      ensures Good(Value()) && Value() == AfterAlloc(old(Value()), size)
      ensures pointer == Allocated(old(Value()), size) && pointer.size >= size
      ensures (exists k :: 0 <= k < |old(freeArea)| && old(freeArea)[k].size >= size) ==>
                exists k: nat :: FitsFirst(old(freeArea), size, k) && pointer == old(freeArea)[k]
                  && freeArea == Without(old(freeArea), k) && offset == old(offset)
      ensures (forall k :: 0 <= k < |old(freeArea)| ==> old(freeArea)[k].size < size) ==>
                && pointer == FilePointer(old(offset), size) && offset == old(offset) + size
                && freeArea == old(freeArea) && file == old(file)
      ensures live == old(live) + [pointer]
      ensures forall i, x: nat :: 0 <= i < |old(live)| && Contains(pointer, x) ==> !Contains(old(live)[i], x)
    {
      AllocIsGood(Value(), size);
      forall i, x: nat | 0 <= i < |live| && Contains(Allocated(Value(), size), x) ensures !Contains(live[i], x) {
        AllocatedIsUnused(Value(), size, i, x);
      }
      assert FirstFit(freeArea, size) < |freeArea| ==> FitsFirst(freeArea, size, FirstFit(freeArea, size));
      pointer := Take(size);
    }

    /** The freed area becomes the last of the list: an end mark is written into it, then the link to it. */
    method LinkLast(pointer: FilePointer)
      modifies this`file, this`freeArea
      ensures var ended := WritePointer(old(file), pointer.offset, ZERO);
              file == WritePointer(ended, Slot(old(freeArea), |old(freeArea)|), pointer)
      ensures freeArea == old(freeArea) + [pointer]
    {
      var last := if freeArea != [] then freeArea[|freeArea| - 1].offset else 0;
      file := WritePointer(file, pointer.offset, ZERO);
      file := WritePointer(file, last, pointer);
      freeArea := freeArea + [pointer];
    }

    method FreeMemory(pointer: FilePointer, ghost i: nat)
      requires Good(Value()) && i < |live| && live[i] == pointer && (pointer.size == 0 || pointer.size >= POINTER_SIZE)
      modifies this
      ensures Good(Value()) && Value() == AfterFree(old(Value()), i)
      ensures freeArea == (if pointer.size == 0 then old(freeArea) else old(freeArea) + [pointer])
      ensures offset == old(offset) && live == Without(old(live), i) && (pointer.size == 0 ==> file == old(file))
    {
      FreeIsGood(Value(), i);
      live := live[..i] + live[i + 1..];
      if pointer.size != 0 {
        LinkLast(pointer);
      }
    }

    /** What opening the file reads back: every free area but the first, so the whole list if and only if it is
        empty. */
    method InitFreeArea() returns (areas: seq<FilePointer>)
      requires Good(Value())
      ensures areas == ReadAreas(Value())
      ensures areas == freeArea <==> freeArea == []
    {
      areas := [];
      var pointer := ReadPointer(file, 0);
      ghost var k := 0;
      assert pointer == Link(freeArea, 0) by {
        assert ReadPointer(file, Slot(freeArea, 0)) == Link(freeArea, 0);
      }
      while pointer.offset != 0 && pointer.offset < offset
        invariant k <= |freeArea| && pointer == Link(freeArea, k)
        invariant areas == if k == 0 || freeArea == [] then []
                           else if k < |freeArea| then freeArea[1..k + 1] else freeArea[1..]
        decreases |freeArea| - k
      {
        assert ReadPointer(file, Slot(freeArea, k + 1)) == Link(freeArea, k + 1);
        pointer := ReadPointer(file, pointer.offset);
        k := k + 1;
        if pointer.size != 0 {
          areas := areas + [pointer];
        }
      }
      if k < |freeArea| {
        FreeInside(Value(), k);
      }
    }
  }
}
