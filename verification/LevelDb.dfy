/** The whole store as a value: memory table, immutable tables, write-ahead logs, levels. */
module LevelDb {
  import opened Buffers
  import opened MemoryTables
  import opened LevelStore
  import opened LevelProofs
  import opened LevelMerges
  import opened LevelReader

  datatype Options = Options(lim: Limits, maxImm: nat, maxMem: nat)

  /** `wal` holds the log of every memory table by id; ids `prevMem` to `curMem - 1` are the immutable ones. */
  datatype Db = Db(
    mem: MemTable, imm: seq<MemTable>, wal: map<nat, seq<Batch>>,
    curMem: nat, prevMem: nat, used: nat, levels: Levels)

  const EMPTY_DB := Db(map[], [], map[0 := []], 0, 0, 0, EMPTY_LEVELS)

  function Log(wal: map<nat, seq<Batch>>, id: nat): seq<Batch> {
    if id in wal then wal[id] else []
  }

  function WriteSize(w: Write): nat {
    match w
    case Put(k, v) => |k| + |v|
    case Delete(k) => |k|
  }

  function BatchSize(b: Batch): nat {
    if b == [] then 0 else BatchSize(b[..|b| - 1]) + WriteSize(b[|b| - 1])
  }

  /** Immutable tables laid over one another, the newest on top. */
  function Overlay(imm: seq<MemTable>): MemTable {
    if imm == [] then map[] else Overlay(imm[..|imm| - 1]) + imm[|imm| - 1]
  }

  /** A memory table as the table builder writes it: a deleted key gets an empty value. */
  function ToDisk(m: MemTable): Table {
    map k | k in m :: if m[k].Value? then m[k].value else []
  }

  // ---------- operations ----------

  function Append(d: Db, b: Batch): Db {
    d.(mem := ApplyBatch(false, d.mem, b),
       wal := d.wal[d.curMem := Log(d.wal, d.curMem) + [b]],
       used := d.used + BatchSize(b))
  }

  function DumpedTable(d: Db): Table {
    ToDisk(Overlay(d.imm))
  }

  /** The levels after the dumped table file has been written. */
  function WithTable(s: Levels, table: Table): Levels {
    s.(curTable := s.curTable + 1, tables := s.tables[s.curTable := table])
  }

  function WithoutLogs(wal: map<nat, seq<Batch>>, first: nat, last: nat): map<nat, seq<Batch>> {
    map id | id in wal && !(first <= id < last) :: wal[id]
  }

  /** The levels with a dumped table written and placed at level 0. */
  function WithDumped(opt: Options, s: Levels, table: Table): Levels
    requires IsComparator(opt.lim.cmp) && NoneAbove(s)
  {
    assert forall c: nat :: Comp(WithTable(s, table), c) == Comp(s, c);
    AddToLevel(opt.lim, WithTable(s, table), table, s.curTable, 0)
  }

  function Dump(opt: Options, d: Db): Db
    requires IsComparator(opt.lim.cmp) && NoneAbove(d.levels)
  {
    d.(imm := [],
       wal := WithoutLogs(d.wal, d.prevMem, d.curMem),
       prevMem := d.curMem,
       levels := WithDumped(opt, d.levels, DumpedTable(d)))
  }

  /** The memory table joins the queue and a new one, with a log of its own, takes its place. */
  function Rotated(d: Db): Db {
    d.(used := 0, mem := map[], imm := d.imm + [d.mem], curMem := d.curMem + 1, wal := d.wal[d.curMem + 1 := []])
  }

  /** The part of `Action` under the exclusive lock. */
  function Rotate(opt: Options, d: Db): Db
    requires IsComparator(opt.lim.cmp) && NoneAbove(d.levels)
  {
    if d.used == 0 then d
    else
      var e := Rotated(d);
      if |e.imm| == opt.maxImm then Dump(opt, e) else e
  }

  /** Bytes of keys and values held by a memory table, in key order. */
  function MemSize(cmp: Comparator, m: MemTable, keys: set<Key>): nat
    requires IsComparator(cmp) && keys <= m.Keys
  {
    if keys == {} then 0
    else
      var k := LeastKey(cmp, keys);
      |k| + (if m[k].Value? then |m[k].value| else 0) + MemSize(cmp, m, keys - {k})
  }

  /** Closing and opening again: everything in memory is rebuilt from the logs and the manifest.
      The two collectors find nothing to do when no id is left unaccounted for. */
  function Reopen(opt: Options, d: Db): Db
    requires IsComparator(opt.lim.cmp) && NoneAbove(d.levels)
    requires d.prevMem <= d.curMem
    requires d.levels.prevTable == d.levels.curTable && d.levels.prevView == d.levels.curView
  {
    var e := Loaded(opt, d);
    if |e.imm| >= opt.maxImm then Dump(opt, e) else e
  }

  function Replays(wal: map<nat, seq<Batch>>, first: nat, count: nat): seq<MemTable> {
    seq(count, i requires 0 <= i => Replay(false, Log(wal, first + i)))
  }

  /** Memory rebuilt from the logs. */
  function Loaded(opt: Options, d: Db): Db
    requires IsComparator(opt.lim.cmp) && d.prevMem <= d.curMem
  {
    var mem := Replay(false, Log(d.wal, d.curMem));
    d.(mem := mem,
       imm := Replays(d.wal, d.prevMem, d.curMem - d.prevMem),
       used := MemSize(opt.lim.cmp, mem, mem.Keys))
  }

  function ImmGet(imm: seq<MemTable>, key: Key): Option<Entry> {
    if imm == [] then None
    else if key in imm[|imm| - 1] then Some(imm[|imm| - 1][key])
    else ImmGet(imm[..|imm| - 1], key)
  }

  function MemoryGet(d: Db, key: Key): Option<Entry> {
    if key in d.mem then Some(d.mem[key]) else ImmGet(d.imm, key)
  }

  function TryGet(opt: Options, d: Db, key: Key): Option<Bytes> {
    var found := MemoryGet(d, key);
    if found.Some? then (if found.value.Value? then Some(found.value.value) else None)
    else Present(LevelsGet(opt.lim.cmp, d.levels, key, 0, LevelCount(d.levels)))
  }

  function ExistKey(opt: Options, d: Db, key: Key): ExistStatus {
    var found := MemoryGet(d, key);
    if found.Some? then (if found.value.Value? then Exist else Deleted)
    else
      var below := LevelsGet(opt.lim.cmp, d.levels, key, 0, LevelCount(d.levels));
      if below == None then NotExist else if below == Some([]) then Deleted else Exist
  }

  // ---------- what every database keeps ----------

  function Memory(d: Db): MemTable {
    Overlay(d.imm) + d.mem
  }

  ghost predicate Agrees(m: MemTable, plain: Plain) {
    forall k :: k in m ==> (if m[k].Value? then Get(plain, k) == Some(m[k].value) else k !in plain)
  }

  /** What is in memory is what the plain map says about these keys. */
  ghost predicate MemoryAgrees(d: Db, plain: Plain) {
    Agrees(Memory(d), plain)
  }

  ghost predicate SameReads(a: Table, b: Table) {
    forall k :: Present(Get(a, k)) == Present(Get(b, k))
  }

  /** Levels and memory laid over one another hold the plain map, up to empty values. */
  ghost predicate ContentAgrees(d: Db, plain: Plain) {
    SameReads(Content(d.levels, 0) + ToDisk(Memory(d)), plain)
  }

  ghost predicate Replayable(d: Db) {
    && d.prevMem <= d.curMem && |d.imm| == d.curMem - d.prevMem
    && d.mem == Replay(false, Log(d.wal, d.curMem))
    && (forall i :: 0 <= i < |d.imm| ==> d.imm[i] == Replay(false, Log(d.wal, d.prevMem + i)))
    && (forall id :: id in d.wal ==> d.prevMem <= id <= d.curMem)
  }

  ghost predicate NeverEmpty(d: Db) {
    (d.used > 0 ==> d.mem != map[]) && forall m :: m in d.imm ==> m != map[]
  }

  ghost predicate LevelsSettled(opt: Options, s: Levels) {
    && Good(opt.lim, s) && s.maxLevel <= s.curTable
    && s.prevTable == s.curTable && s.prevView == s.curView
  }

  ghost predicate DbGood(opt: Options, d: Db, plain: Plain) {
    && LevelsSettled(opt, d.levels)
    && Replayable(d) && NeverEmpty(d) && |d.imm| < opt.maxImm
    && MemoryAgrees(d, plain) && ContentAgrees(d, plain)
  }

  ghost predicate Usable(opt: Options) {
    IsComparator(opt.lim.cmp) && opt.maxImm >= 1
  }

  // ---------- appending ----------

  lemma {:induction false} ToDiskOver(a: MemTable, b: MemTable)
    ensures ToDisk(a + b) == ToDisk(a) + ToDisk(b)
  {
  }

  lemma {:induction false} BatchOver(base: MemTable, m: MemTable, b: Batch)
    ensures base + ApplyBatch(false, m, b) == ApplyBatch(false, base + m, b)
  {
    if b != [] {
      BatchOver(base, m, b[..|b| - 1]);
    }
  }

  lemma {:induction false} WriteAgrees(m: MemTable, plain: Plain, w: Write, base: Table)
    requires Agrees(m, plain) && SameReads(base + ToDisk(m), plain)
    ensures Agrees(ApplyWrite(false, m, w), PlainWrite(plain, w))
    ensures SameReads(base + ToDisk(ApplyWrite(false, m, w)), PlainWrite(plain, w))
  {
    forall k ensures Present(Get(base + ToDisk(ApplyWrite(false, m, w)), k)) == Present(Get(PlainWrite(plain, w), k)) {
      OneWriteReads(m, plain, w, base, k);
    }
  }

  lemma {:induction false} OneWriteReads(m: MemTable, plain: Plain, w: Write, base: Table, k: Key)
    requires SameReads(base + ToDisk(m), plain)
    ensures Present(Get(base + ToDisk(ApplyWrite(false, m, w)), k)) == Present(Get(PlainWrite(plain, w), k))
  {
    if k != w.key {
      assert Present(Get(base + ToDisk(m), k)) == Present(Get(plain, k));
    }
  }

  lemma {:induction false} BatchAgrees(m: MemTable, plain: Plain, b: Batch, base: Table)
    requires Agrees(m, plain) && SameReads(base + ToDisk(m), plain)
    ensures Agrees(ApplyBatch(false, m, b), PlainBatch(plain, b))
    ensures SameReads(base + ToDisk(ApplyBatch(false, m, b)), PlainBatch(plain, b))
  {
    if b != [] {
      var init, w := b[..|b| - 1], b[|b| - 1];
      BatchAgrees(m, plain, init, base);
      WriteAgrees(ApplyBatch(false, m, init), PlainBatch(plain, init), w, base);
    }
  }

  lemma {:induction false} NonEmptyBatch(m: MemTable, b: Batch)
    requires BatchSize(b) > 0 || m != map[]
    ensures ApplyBatch(false, m, b) != map[]
  {
    BatchKeepsKeys(m, b);
    if m != map[] {
      var k :| k in m.Keys;
      assert k in ApplyBatch(false, m, b).Keys;
    } else {
      assert b[0].key in (set w | w in b :: w.key);
      assert b[0].key in ApplyBatch(false, m, b).Keys;
    }
  }

  lemma {:induction false} AppendReplayable(d: Db, b: Batch)
    requires Replayable(d)
    ensures Replayable(Append(d, b))
  {
  }

  lemma {:induction false} AppendIsGood(opt: Options, d: Db, plain: Plain, b: Batch)
    requires DbGood(opt, d, plain)
    ensures DbGood(opt, Append(d, b), PlainBatch(plain, b))
  {
    var e := Append(d, b);
    AppendReplayable(d, b);
    BatchOver(Overlay(d.imm), d.mem, b);
    assert Memory(e) == ApplyBatch(false, Memory(d), b);
    BatchAgrees(Memory(d), plain, b, Content(d.levels, 0));
    if e.used > 0 {
      NonEmptyBatch(d.mem, b);
    }
  }

  // ---------- dumping and rotating ----------

  lemma {:induction false} OverlayNotEmpty(imm: seq<MemTable>)
    requires imm != [] && forall m :: m in imm ==> m != map[]
    ensures Overlay(imm) != map[]
  {
    var m := imm[|imm| - 1];
    assert m in imm;
    var k :| k in m.Keys;
    assert k in Overlay(imm);
  }

  lemma {:induction false} WithTableIsGood(opt: Options, s: Levels, table: Table)
    requires Good(opt.lim, s)
    ensures Good(opt.lim, WithTable(s, table)) && Incoming(WithTable(s, table), table, s.curTable)
    ensures Content(WithTable(s, table), 0) == Content(s, 0)
  {
    NewFileIsGood(opt.lim, s, table, WithTable(s, table), 0);
  }

  lemma {:induction false} DumpSettles(opt: Options, s: Levels, table: Table)
    requires IsComparator(opt.lim.cmp) && LevelsSettled(opt, s) && table != map[]
    ensures NoneAbove(WithTable(s, table))
    ensures var r := AddToLevel(opt.lim, WithTable(s, table), table, s.curTable, 0);
            && LevelsSettled(opt, r) && Strip(Content(r, 0)) == Strip(Content(s, 0) + table)
            && Content(r, 0).Keys <= (Content(s, 0) + table).Keys
  {
    WithTableIsGood(opt, s, table);
    AddCorrect(opt.lim, WithTable(s, table), table, s.curTable, 0);
    LevelBound(opt.lim, WithTable(s, table), table, s.curTable, 0);
  }

  lemma {:induction false} StripReads(a: Table, b: Table, t: Table)
    requires Strip(a) == Strip(b)
    ensures SameReads(a + t, b + t)
  {
    forall k ensures Present(Get(a + t, k)) == Present(Get(b + t, k)) {
      StripGet(a, k);
      StripGet(b, k);
    }
  }

  lemma {:induction false} DumpContent(d: Db, e: Db, plain: Plain)
    requires ContentAgrees(d, plain) && MemoryAgrees(d, plain)
    requires e.imm == [] && e.mem == d.mem
    requires Strip(Content(e.levels, 0)) == Strip(Content(d.levels, 0) + DumpedTable(d))
    ensures ContentAgrees(e, plain) && MemoryAgrees(e, plain)
  {
    var c, t, m := Content(d.levels, 0), DumpedTable(d), ToDisk(d.mem);
    ToDiskOver(Overlay(d.imm), d.mem);
    Associate(c, t, m);
    StripReads(Content(e.levels, 0), c + t, m);
    assert Memory(e) == d.mem;
    assert c + ToDisk(Memory(d)) == (c + t) + m;
    DumpedMemory(Overlay(d.imm), d.mem, plain);
  }

  lemma {:induction false} DumpedMemory(a: MemTable, b: MemTable, plain: Plain)
    requires Agrees(a + b, plain)
    ensures Agrees(b, plain)
  {
  }

  /** Everything but the bound on the queue. */
  ghost predicate AlmostGood(opt: Options, d: Db, plain: Plain) {
    && LevelsSettled(opt, d.levels) && Replayable(d) && NeverEmpty(d)
    && MemoryAgrees(d, plain) && ContentAgrees(d, plain)
  }

  lemma {:induction false} DumpedIsNotEmpty(d: Db)
    requires NeverEmpty(d) && d.imm != []
    ensures DumpedTable(d) != map[]
  {
    OverlayNotEmpty(d.imm);
    var k :| k in Overlay(d.imm).Keys;
    assert k in DumpedTable(d);
  }

  lemma {:induction false} DumpIsGood(opt: Options, d: Db, plain: Plain)
    requires Usable(opt) && AlmostGood(opt, d, plain) && d.imm != []
    ensures DbGood(opt, Dump(opt, d), plain)
  {
    var e := Dump(opt, d);
    DumpedIsNotEmpty(d);
    DumpSettles(opt, d.levels, DumpedTable(d));
    DumpContent(d, e, plain);
    assert Log(e.wal, e.curMem) == Log(d.wal, d.curMem);
    assert Replayable(e) && NeverEmpty(e);
  }

  lemma {:induction false} OverlaySnoc(imm: seq<MemTable>, m: MemTable)
    ensures Overlay(imm + [m]) == Overlay(imm) + m
  {
  }

  lemma {:induction false} RotatedReplayable(d: Db)
    requires Replayable(d)
    ensures Replayable(Rotated(d))
  {
  }

  lemma {:induction false} RotatedIsNotEmpty(d: Db)
    requires NeverEmpty(d) && d.used != 0
    ensures NeverEmpty(Rotated(d))
  {
  }

  lemma {:induction false} RotatedAgrees(d: Db, plain: Plain)
    requires MemoryAgrees(d, plain) && ContentAgrees(d, plain)
    ensures MemoryAgrees(Rotated(d), plain) && ContentAgrees(Rotated(d), plain)
  {
    OverlaySnoc(d.imm, d.mem);
    assert Memory(Rotated(d)) == Memory(d);
  }

  lemma {:induction false} RotatedIsGood(opt: Options, d: Db, plain: Plain)
    requires DbGood(opt, d, plain) && d.used != 0
    ensures AlmostGood(opt, Rotated(d), plain)
  {
    RotatedReplayable(d);
    RotatedIsNotEmpty(d);
    RotatedAgrees(d, plain);
  }

  lemma {:induction false} RotateIsGood(opt: Options, d: Db, plain: Plain)
    requires Usable(opt) && DbGood(opt, d, plain)
    ensures DbGood(opt, Rotate(opt, d), plain)
  {
    if d.used != 0 {
      RotatedIsGood(opt, d, plain);
      if |Rotated(d).imm| == opt.maxImm {
        DumpIsGood(opt, Rotated(d), plain);
      }
    }
  }

  // ---------- reopening ----------

  lemma {:induction false} LoadedIsSame(opt: Options, d: Db)
    requires IsComparator(opt.lim.cmp) && Replayable(d)
    ensures Loaded(opt, d) == d.(used := MemSize(opt.lim.cmp, d.mem, d.mem.Keys))
  {
  }

  /** Replaying the logs rebuilds memory exactly; only the byte count is recomputed. */
  lemma {:induction false} ReopenRebuilds(opt: Options, d: Db)
    requires Usable(opt) && LevelsSettled(opt, d.levels) && Replayable(d) && |d.imm| < opt.maxImm
    ensures Reopen(opt, d) == d.(used := MemSize(opt.lim.cmp, d.mem, d.mem.Keys))
  {
    LoadedIsSame(opt, d);
  }

  lemma {:induction false} SizeNeedsKeys(cmp: Comparator, m: MemTable)
    requires IsComparator(cmp) && MemSize(cmp, m, m.Keys) > 0
    ensures m != map[]
  {
  }

  lemma {:induction false} RecountIsAlmostGood(opt: Options, d: Db, plain: Plain, n: nat)
    requires AlmostGood(opt, d, plain) && (n > 0 ==> d.mem != map[])
    ensures AlmostGood(opt, d.(used := n), plain)
  {
    assert Memory(d.(used := n)) == Memory(d);
    assert Replayable(d.(used := n));
  }

  lemma {:induction false} RecountIsGood(opt: Options, d: Db, plain: Plain, n: nat)
    requires DbGood(opt, d, plain) && (n > 0 ==> d.mem != map[])
    ensures DbGood(opt, d.(used := n), plain)
  {
  }

  lemma {:induction false} ReopenIsGood(opt: Options, d: Db, plain: Plain)
    requires Usable(opt) && DbGood(opt, d, plain)
    ensures DbGood(opt, Reopen(opt, d), plain)
  {
    ReopenRebuilds(opt, d);
    var n := MemSize(opt.lim.cmp, d.mem, d.mem.Keys);
    if n > 0 {
      SizeNeedsKeys(opt.lim.cmp, d.mem);
    }
    RecountIsGood(opt, d, plain, n);
  }

  /** What the files of a store hold, whatever is in memory: its state once loaded is good, up to a full queue. */
  ghost predicate OnDisk(opt: Options, d: Db, plain: Plain) {
    && IsComparator(opt.lim.cmp) && d.prevMem <= d.curMem
    && AlmostGood(opt, Loaded(opt, d), plain)
  }

  /** Stopping at any point between operations, or between a rotation and its dump, leaves such files. */
  lemma {:induction false} StoppedIsOnDisk(opt: Options, d: Db, plain: Plain)
    requires Usable(opt) && AlmostGood(opt, d, plain)
    ensures OnDisk(opt, d, plain)
  {
    LoadedIsSame(opt, d);
    if MemSize(opt.lim.cmp, d.mem, d.mem.Keys) > 0 {
      SizeNeedsKeys(opt.lim.cmp, d.mem);
    }
    RecountIsAlmostGood(opt, d, plain, MemSize(opt.lim.cmp, d.mem, d.mem.Keys));
  }

  lemma {:induction false} OpenIsGood(opt: Options, d: Db, plain: Plain)
    requires Usable(opt) && OnDisk(opt, d, plain)
    ensures DbGood(opt, Reopen(opt, d), plain)
  {
    var e := Loaded(opt, d);
    if |e.imm| >= opt.maxImm {
      DumpIsGood(opt, e, plain);
    }
  }

  /** Closing and reopening between operations changes no lookup. */
  lemma {:induction false} ReopenKeepsLookups(opt: Options, d: Db, plain: Plain, key: Key)
    requires Usable(opt) && DbGood(opt, d, plain)
    ensures TryGet(opt, Reopen(opt, d), key) == TryGet(opt, d, key)
    ensures ExistKey(opt, Reopen(opt, d), key) == ExistKey(opt, d, key)
  {
    ReopenRebuilds(opt, d);
  }

  // ---------- runs ----------

  /** Writers append their batches in some order; a writer that filled the table rotates it some time later. */
  datatype Step = AppendStep(batch: Batch) | RotateStep | ReopenStep

  /** The program gets out of placing the dumped table: no merge on the way is an ordered one. */
  ghost predicate PlacingReturns(opt: Options, s: Levels, table: Table)
    requires IsComparator(opt.lim.cmp) && NoneAbove(s)
  {
    assert forall c: nat :: Comp(WithTable(s, table), c) == Comp(s, c);
    Returns(opt.lim, WithTable(s, table), table, s.curTable, 0)
  }

  ghost predicate DumpReturns(opt: Options, d: Db)
    requires IsComparator(opt.lim.cmp) && NoneAbove(d.levels)
  {
    PlacingReturns(opt, d.levels, DumpedTable(d))
  }

  ghost predicate RotationReturns(opt: Options, d: Db)
    requires IsComparator(opt.lim.cmp) && NoneAbove(d.levels)
  {
    d.used == 0 || |d.imm| + 1 != opt.maxImm || DumpReturns(opt, Rotated(d))
  }

  ghost predicate StepReturns(opt: Options, d: Db, step: Step)
    requires Usable(opt) && NoneAbove(d.levels) && d.prevMem <= d.curMem
  {
    match step
    case AppendStep(_) => true
    case RotateStep => RotationReturns(opt, d)
    case ReopenStep => |Loaded(opt, d).imm| < opt.maxImm || DumpReturns(opt, Loaded(opt, d))
  }

  /** What the functions that model the steps rely on. */
  ghost predicate Defined(d: Db) {
    && NoneAbove(d.levels) && d.prevMem <= d.curMem
    && d.levels.prevTable == d.levels.curTable && d.levels.prevView == d.levels.curView
  }

  /** One step that the program gets out of. */
  ghost predicate Next(opt: Options, d: Db, step: Step, e: Db)
    requires Usable(opt)
  {
    && Defined(d) && StepReturns(opt, d, step)
    && match step
       case AppendStep(b) => e == Append(d, b)
       case RotateStep => e == Rotate(opt, d)
       case ReopenStep => e == Reopen(opt, d)
  }

  function Written(steps: seq<Step>): seq<Batch> {
    if steps == [] then []
    else
      var last := steps[|steps| - 1];
      if last.AppendStep? then Written(steps[..|steps| - 1]) + [last.batch] else Written(steps[..|steps| - 1])
  }

  ghost predicate IsRun(opt: Options, steps: seq<Step>, states: seq<Db>)
    requires Usable(opt)
  {
    && |states| == |steps| + 1 && states[0] == EMPTY_DB
    && forall i :: 0 <= i < |steps| ==> Next(opt, states[i], steps[i], states[i + 1])
  }

  lemma {:induction false} EmptyIsGood(opt: Options)
    requires Usable(opt)
    ensures DbGood(opt, EMPTY_DB, map[])
  {
  }

  lemma {:induction false} NextIsGood(opt: Options, d: Db, step: Step, e: Db, plain: Plain)
    requires Usable(opt) && DbGood(opt, d, plain) && Next(opt, d, step, e)
    ensures DbGood(opt, e, if step.AppendStep? then PlainBatch(plain, step.batch) else plain)
  {
    match step
    case AppendStep(b) => AppendIsGood(opt, d, plain, b);
    case RotateStep => RotateIsGood(opt, d, plain);
    case ReopenStep => ReopenIsGood(opt, d, plain);
  }

  lemma {:induction false} WrittenSnoc(steps: seq<Step>, last: Step)
    ensures PlainLog(Written(steps + [last]))
            == if last.AppendStep? then PlainBatch(PlainLog(Written(steps)), last.batch) else PlainLog(Written(steps))
  {
  }

  /** Every reachable database keeps all of it, against the plain map given the same writes. */
  lemma {:induction false} RunIsGood(opt: Options, steps: seq<Step>, states: seq<Db>)
    requires Usable(opt) && IsRun(opt, steps, states)
    ensures DbGood(opt, states[|steps|], PlainLog(Written(steps)))
  {
    if steps == [] {
      EmptyIsGood(opt);
    } else {
      var n := |steps| - 1;
      var init, last := steps[..n], steps[n];
      assert steps == init + [last];
      RunPrefix(opt, steps, states);
      RunIsGood(opt, init, states[..n + 1]);
      NextIsGood(opt, states[n], last, states[n + 1], PlainLog(Written(init)));
      WrittenSnoc(init, last);
    }
  }

  lemma {:induction false} RunPrefix(opt: Options, steps: seq<Step>, states: seq<Db>)
    requires Usable(opt) && IsRun(opt, steps, states) && steps != []
    ensures IsRun(opt, steps[..|steps| - 1], states[..|steps|])
    ensures Next(opt, states[|steps| - 1], steps[|steps| - 1], states[|steps|])
  {
  }

  /** Every run can go on with every step, except one in which the program does not get out of an ordered merge. */
  lemma {:induction false} RunGoesOn(opt: Options, steps: seq<Step>, states: seq<Db>, step: Step)
    requires Usable(opt) && IsRun(opt, steps, states)
    ensures Defined(states[|steps|])
    ensures (exists e :: IsRun(opt, steps + [step], states + [e])) <==> StepReturns(opt, states[|steps|], step)
  {
    var d := states[|steps|];
    RunIsGood(opt, steps, states);
    if e :| IsRun(opt, steps + [step], states + [e]) {
      RunPrefix(opt, steps + [step], states + [e]);
      assert (states + [e])[|steps|] == d && (steps + [step])[|steps|] == step;
    }
    if StepReturns(opt, d, step) {
      var e := match step
        case AppendStep(b) => Append(d, b)
        case RotateStep => Rotate(opt, d)
        case ReopenStep => Reopen(opt, d);
      ExtendRun(opt, steps, states, step, e);
    }
  }

  lemma {:induction false} ExtendRun(opt: Options, steps: seq<Step>, states: seq<Db>, step: Step, e: Db)
    requires Usable(opt) && IsRun(opt, steps, states) && Next(opt, states[|steps|], step, e)
    ensures IsRun(opt, steps + [step], states + [e])
  {
    var more, all := states + [e], steps + [step];
    forall i | 0 <= i < |all| ensures Next(opt, more[i], all[i], more[i + 1]) {
      if i < |steps| {
        assert Next(opt, states[i], steps[i], states[i + 1]);
      }
    }
  }

  // ---------- lookups ----------

  lemma {:induction false} ImmGetOverlay(imm: seq<MemTable>, key: Key)
    ensures ImmGet(imm, key) == Get(Overlay(imm), key)
  {
    if imm != [] {
      ImmGetOverlay(imm[..|imm| - 1], key);
    }
  }

  /** A lookup answers what the plain map holds, except that an empty value that has left memory reads as absent. */
  lemma {:induction false} LookupAgrees(opt: Options, d: Db, plain: Plain, key: Key)
    requires Usable(opt) && DbGood(opt, d, plain) && d.levels.curTable < MAX_UINT64
    ensures MemoryGet(d, key) == Get(Memory(d), key)
    ensures TryGet(opt, d, key) == if key in Memory(d) then Get(plain, key) else Present(Get(plain, key))
  {
    ImmGetOverlay(d.imm, key);
    LevelsGetCorrect(opt.lim, d.levels, key, 0);
    var all := Content(d.levels, 0) + ToDisk(Memory(d));
    assert Present(Get(all, key)) == Present(Get(plain, key));
  }

  /** When each answer of `Exist` is given: by the plain map, and by the tombstones that are left. */
  ghost predicate ExistAnswers(d: Db, plain: Plain, key: Key, answer: ExistStatus) {
    && (answer == Exist <==> key in plain && (plain[key] != [] || key in Memory(d)))
    && (answer == Deleted <==>
        (if key in Memory(d) then key !in plain else Get(Content(d.levels, 0), key) == Some([])))
    && (answer == NotExist <==> key !in Memory(d) && key !in Content(d.levels, 0))
  }

  lemma {:induction false} ExistAgrees(opt: Options, d: Db, plain: Plain, key: Key)
    requires Usable(opt) && DbGood(opt, d, plain) && d.levels.curTable < MAX_UINT64
    ensures ExistAnswers(d, plain, key, ExistKey(opt, d, key))
  {
    LookupAgrees(opt, d, plain, key);
    LevelsGetCorrect(opt.lim, d.levels, key, 0);
  }

  /** For every run of batches, rotations, dumps, cascading merges and restarts that the program gets out of: a lookup
      answers what a plain map given the same writes answers, if and only if it is not a key whose empty value has left
      memory. */
  lemma {:induction false} RunLookups(opt: Options, steps: seq<Step>, states: seq<Db>, key: Key)
    requires Usable(opt) && IsRun(opt, steps, states) && states[|steps|].levels.curTable < MAX_UINT64
    ensures var d, plain := states[|steps|], PlainLog(Written(steps));
            && (TryGet(opt, d, key) == Get(plain, key) <==> !(Get(plain, key) == Some([]) && key !in Memory(d)))
            && (ExistKey(opt, d, key) == Exist <==> TryGet(opt, d, key) != None)
            && (ExistKey(opt, d, key) == NotExist ==> key !in Memory(d))
  {
    RunIsGood(opt, steps, states);
    LookupAgrees(opt, states[|steps|], PlainLog(Written(steps)), key);
  }

  lemma {:induction false} FirstDump(opt: Options, d: Db)
    requires Usable(opt) && opt.maxImm == 1 && d.levels == EMPTY_LEVELS && d.imm == [] && d.used > 0 && d.mem != map[]
    ensures var e := Rotate(opt, d);
            e.levels.curTable == 1 && Memory(e) == map[]
  {
  }

  lemma {:induction false} OneEmptyPut(key: Key)
    requires key != []
    ensures PlainBatch(map[], [Put(key, [])]) == map[key := []]
    ensures ApplyBatch(false, map[], [Put(key, [])]) == map[key := Value([])]
    ensures BatchSize([Put(key, [])]) > 0
  {
  }

  lemma {:induction false} DumpEmptiesMemory(opt: Options, d: Db)
    requires Usable(opt) && NoneAbove(d.levels) && d.used != 0 && |d.imm| + 1 == opt.maxImm
    ensures Memory(Rotate(opt, d)) == map[]
  {
  }

  /** The exception is real: a dump makes every key with an empty value read as absent, though a plain map holds it. */
  lemma {:induction false} DumpLosesEmptyValues(opt: Options, d: Db, plain: Plain, key: Key)
    requires Usable(opt) && DbGood(opt, d, plain) && d.used != 0 && |d.imm| + 1 == opt.maxImm
    requires Rotate(opt, d).levels.curTable < MAX_UINT64
    requires Get(plain, key) == Some([])
    ensures TryGet(opt, Rotate(opt, d), key) == None
  {
    RotateIsGood(opt, d, plain);
    DumpEmptiesMemory(opt, d);
    LookupAgrees(opt, Rotate(opt, d), plain, key);
  }

  lemma {:induction false} FirstPutIsGood(opt: Options, key: Key)
    requires Usable(opt) && key != []
    ensures DbGood(opt, Append(EMPTY_DB, [Put(key, [])]), map[key := []])
  {
    OneEmptyPut(key);
    EmptyIsGood(opt);
    var plain: Plain := map[];
    AppendIsGood(opt, EMPTY_DB, plain, [Put(key, [])]);
  }

  lemma {:induction false} FirstPutFields(key: Key)
    requires key != []
    ensures var d := Append(EMPTY_DB, [Put(key, [])]);
            d.used != 0 && d.levels == EMPTY_LEVELS && d.imm == [] && d.mem != map[]
  {
    OneEmptyPut(key);
    assert key in map[key := Value([])];
  }

  /** The shortest such run: one put, one rotation. */
  lemma {:induction false} EmptyValueVanishes(opt: Options, key: Key, d: Db, e: Db)
    requires Usable(opt) && opt.maxImm == 1 && key != []
    requires d == Append(EMPTY_DB, [Put(key, [])]) && NoneAbove(d.levels) && e == Rotate(opt, d)
    ensures PlainBatch(map[], [Put(key, [])]) == map[key := []] && TryGet(opt, e, key) == None
  {
    OneEmptyPut(key);
    FirstPutIsGood(opt, key);
    FirstPutFields(key);
    FirstDump(opt, d);
    DumpLosesEmptyValues(opt, d, map[key := []], key);
  }

  /** A store that is never given an empty value answers every lookup like a plain map. */
  lemma {:induction false} NonEmptyValuesAgree(opt: Options, steps: seq<Step>, states: seq<Db>, key: Key)
    requires Usable(opt) && IsRun(opt, steps, states) && states[|steps|].levels.curTable < MAX_UINT64
    requires forall i, w :: 0 <= i < |steps| && steps[i].AppendStep? && w in steps[i].batch && w.Put? ==> w.value != []
    ensures TryGet(opt, states[|steps|], key) == Get(PlainLog(Written(steps)), key)
  {
    RunLookups(opt, steps, states, key);
    forall b, w | b in Written(steps) && w in b && w.Put?
      ensures w.value != []
    {
      WrittenFrom(steps, b);
    }
    NonEmptyLog(Written(steps));
  }

  lemma {:induction false} WrittenFrom(steps: seq<Step>, b: Batch)
    requires b in Written(steps)
    ensures exists i :: 0 <= i < |steps| && steps[i] == AppendStep(b)
  {
    var n := |steps| - 1;
    if steps[n] != AppendStep(b) {
      WrittenFrom(steps[..n], b);
      var i :| 0 <= i < n && steps[..n][i] == AppendStep(b);
      assert steps[i] == AppendStep(b);
    }
  }

  lemma {:induction false} NonEmptyBatchValues(m: Plain, b: Batch)
    requires (forall k :: k in m ==> m[k] != []) && forall w :: w in b && w.Put? ==> w.value != []
    ensures forall k :: k in PlainBatch(m, b) ==> PlainBatch(m, b)[k] != []
  {
    if b != [] {
      NonEmptyBatchValues(m, b[..|b| - 1]);
      assert b[|b| - 1] in b;
    }
  }

  lemma {:induction false} NonEmptyLog(log: seq<Batch>)
    requires forall b, w :: b in log && w in b && w.Put? ==> w.value != []
    ensures forall k :: k in PlainLog(log) ==> PlainLog(log)[k] != []
  {
    if log != [] {
      NonEmptyLog(log[..|log| - 1]);
      assert log[|log| - 1] in log;
      NonEmptyBatchValues(PlainLog(log[..|log| - 1]), log[|log| - 1]);
    }
  }
}
