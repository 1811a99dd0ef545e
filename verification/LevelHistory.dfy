/** What the answers of `Exist` say about the writes that were made. */
module LevelHistories {
  import opened Buffers
  import opened LevelViews
  import opened MemoryTables
  import opened LevelStore
  import opened LevelTombstones
  import opened LevelPlacements
  import opened LevelMerges
  import opened LevelDb

  function KeysOf(log: seq<Batch>): set<Key> {
    if log == [] then {} else KeysOf(log[..|log| - 1]) + (set w | w in log[|log| - 1] :: w.key)
  }

  /** Nothing but keys that were written is on disk or in memory. */
  ghost predicate Known(d: Db, keys: set<Key>) {
    Content(d.levels, 0).Keys <= keys && Memory(d).Keys <= keys
  }

  lemma {:induction false} AppendKnown(opt: Options, d: Db, plain: Plain, b: Batch, keys: set<Key>)
    requires DbGood(opt, d, plain) && Known(d, keys)
    ensures Known(Append(d, b), keys + set w | w in b :: w.key)
  {
    BatchOver(Overlay(d.imm), d.mem, b);
    assert Memory(Append(d, b)) == ApplyBatch(false, Memory(d), b);
    BatchKeepsKeys(Memory(d), b);
  }

  /** The levels keep no key that neither they nor the dumped table held. */
  lemma {:induction false} DumpedLevels(opt: Options, s: Levels, table: Table, keys: set<Key>)
    requires Usable(opt) && LevelsSettled(opt, s) && table != map[]
    requires Content(s, 0).Keys <= keys && table.Keys <= keys
    ensures Content(WithDumped(opt, s, table), 0).Keys <= keys
  {
    DumpSettles(opt, s, table);
  }

  lemma {:induction false} DumpKnown(opt: Options, d: Db, keys: set<Key>)
    requires Usable(opt) && LevelsSettled(opt, d.levels) && NeverEmpty(d) && d.imm != [] && d.mem == map[]
    requires Known(d, keys)
    ensures Known(Dump(opt, d), keys)
  {
    DumpedIsNotEmpty(d);
    assert DumpedTable(d).Keys == Memory(d).Keys;
    DumpedLevels(opt, d.levels, DumpedTable(d), keys);
    assert Memory(Dump(opt, d)) == map[];
  }

  lemma {:induction false} RotatedKnown(d: Db, keys: set<Key>)
    requires Known(d, keys)
    ensures Known(Rotated(d), keys)
  {
    OverlaySnoc(d.imm, d.mem);
    assert Memory(Rotated(d)) == Memory(d);
  }

  lemma {:induction false} RotateKnown(opt: Options, d: Db, plain: Plain, keys: set<Key>)
    requires Usable(opt) && DbGood(opt, d, plain) && Known(d, keys)
    ensures Known(Rotate(opt, d), keys)
  {
    if d.used != 0 {
      RotatedIsGood(opt, d, plain);
      RotatedKnown(d, keys);
      if |Rotated(d).imm| == opt.maxImm {
        DumpKnown(opt, Rotated(d), keys);
      }
    }
  }

  lemma {:induction false} ReopenKnown(opt: Options, d: Db, plain: Plain, keys: set<Key>)
    requires Usable(opt) && DbGood(opt, d, plain) && Known(d, keys)
    ensures Known(Reopen(opt, d), keys)
  {
    ReopenRebuilds(opt, d);
  }

  lemma {:induction false} KeysSnoc(log: seq<Batch>, b: Batch)
    ensures KeysOf(log + [b]) == KeysOf(log) + set w | w in b :: w.key
  {
    assert (log + [b])[..|log|] == log;
  }

  lemma {:induction false} RunKnown(opt: Options, steps: seq<Step>, states: seq<Db>)
    requires Usable(opt) && IsRun(opt, steps, states)
    ensures Known(states[|steps|], KeysOf(Written(steps)))
  {
    if steps != [] {
      var n := |steps| - 1;
      RunPrefix(opt, steps, states);
      RunKnown(opt, steps[..n], states[..n + 1]);
      RunIsGood(opt, steps[..n], states[..n + 1]);
      var log := Written(steps[..n]);
      match steps[n]
      case AppendStep(b) =>
        AppendKnown(opt, states[n], PlainLog(log), b, KeysOf(log));
        KeysSnoc(log, b);
      case RotateStep => RotateKnown(opt, states[n], PlainLog(log), KeysOf(log));
      case ReopenStep => ReopenKnown(opt, states[n], PlainLog(log), KeysOf(log));
    }
  }

  /** When each answer is given, after any run. A key that was never written does not exist. A written one exists
      exactly if the plain map holds it, not as an empty value that has left memory. It is deleted if a tombstone for it
      is left, in memory or on disk, and does not exist once a merge has dropped the tombstone. */
  lemma {:induction false} ExistByHistory(opt: Options, steps: seq<Step>, states: seq<Db>, key: Key)
    requires Usable(opt) && IsRun(opt, steps, states) && states[|steps|].levels.curTable < MAX_UINT64
    ensures var d, log := states[|steps|], Written(steps);
            var plain, answer := PlainLog(log), ExistKey(opt, d, key);
            && ExistAnswers(d, plain, key, answer)
            && (key !in KeysOf(log) ==> answer == NotExist)
            && (answer != Exist ==> key !in plain || plain[key] == [])
  {
    var d, plain := states[|steps|], PlainLog(Written(steps));
    RunIsGood(opt, steps, states);
    RunKnown(opt, steps, states);
    ExistAgrees(opt, d, plain, key);
  }

  // ---------- what is forgotten ----------

  ghost predicate PlacingErases(opt: Options, s: Levels, table: Table)
    requires IsComparator(opt.lim.cmp) && NoneAbove(s)
  {
    assert forall c: nat :: Comp(WithTable(s, table), c) == Comp(s, c);
    Erases(opt.lim, WithTable(s, table), table, 0)
  }

  /** The step dumps the queue, and the cascade this sets off drops tombstones. */
  ghost predicate StepErases(opt: Options, d: Db, step: Step)
    requires Usable(opt) && Defined(d)
  {
    && step.RotateStep? && d.used != 0 && |d.imm| + 1 == opt.maxImm
    && PlacingErases(opt, d.levels, DumpedTable(Rotated(d)))
  }

  lemma {:induction false} DumpedExactly(opt: Options, s: Levels, table: Table)
    requires Usable(opt) && LevelsSettled(opt, s) && table != map[]
    ensures var all := Content(s, 0) + table;
            Content(WithDumped(opt, s, table), 0) == if PlacingErases(opt, s, table) then Strip(all) else all
  {
    WithTableIsGood(opt, s, table);
    ContentExactly(opt.lim, WithTable(s, table), table, s.curTable, 0);
  }

  /** All keys that were written are on disk or in memory, and no others. */
  ghost predicate Remembered(d: Db, keys: set<Key>) {
    Content(d.levels, 0).Keys + Memory(d).Keys == keys
  }

  lemma {:induction false} AppendRemembers(opt: Options, d: Db, plain: Plain, b: Batch, keys: set<Key>)
    requires DbGood(opt, d, plain) && Remembered(d, keys)
    ensures Remembered(Append(d, b), keys + set w | w in b :: w.key)
  {
    BatchOver(Overlay(d.imm), d.mem, b);
    assert Memory(Append(d, b)) == ApplyBatch(false, Memory(d), b);
    BatchKeepsKeys(Memory(d), b);
  }

  lemma {:induction false} DumpRemembers(opt: Options, d: Db, keys: set<Key>)
    requires Usable(opt) && LevelsSettled(opt, d.levels) && NeverEmpty(d) && d.imm != [] && d.mem == map[]
    requires Remembered(d, keys) && !PlacingErases(opt, d.levels, DumpedTable(d))
    ensures Remembered(Dump(opt, d), keys)
  {
    DumpedIsNotEmpty(d);
    DumpedKeys(d);
    DumpedLevelsKeys(opt, d.levels, DumpedTable(d));
    assert Memory(Dump(opt, d)) == map[];
  }

  lemma {:induction false} DumpedKeys(d: Db)
    requires d.mem == map[]
    ensures DumpedTable(d).Keys == Memory(d).Keys
  {
  }

  lemma {:induction false} DumpedLevelsKeys(opt: Options, s: Levels, table: Table)
    requires Usable(opt) && LevelsSettled(opt, s) && table != map[] && !PlacingErases(opt, s, table)
    ensures Content(WithDumped(opt, s, table), 0).Keys == Content(s, 0).Keys + table.Keys
  {
    DumpedExactly(opt, s, table);
  }

  lemma {:induction false} RotatedRemembers(d: Db, keys: set<Key>)
    requires Remembered(d, keys)
    ensures Remembered(Rotated(d), keys)
  {
    OverlaySnoc(d.imm, d.mem);
    assert Memory(Rotated(d)) == Memory(d);
  }

  lemma {:induction false} RotateRemembers(opt: Options, d: Db, plain: Plain, keys: set<Key>)
    requires Usable(opt) && DbGood(opt, d, plain) && Remembered(d, keys) && !StepErases(opt, d, RotateStep)
    ensures Remembered(Rotate(opt, d), keys)
  {
    if d.used != 0 {
      RotatedIsGood(opt, d, plain);
      RotatedRemembers(d, keys);
      if |Rotated(d).imm| == opt.maxImm {
        DumpRemembers(opt, Rotated(d), keys);
      }
    }
  }

  /** Tombstones are dropped by nothing else: as long as no step erases, every key ever written is remembered, so a key
      does not exist, instead of being deleted, exactly if it was never written. */
  lemma {:induction false} NothingForgotten(opt: Options, steps: seq<Step>, states: seq<Db>)
    requires Usable(opt) && IsRun(opt, steps, states)
    requires forall i :: 0 <= i < |steps| ==> Defined(states[i]) && !StepErases(opt, states[i], steps[i])
    ensures Remembered(states[|steps|], KeysOf(Written(steps)))
  {
    if steps != [] {
      var n := |steps| - 1;
      RunPrefix(opt, steps, states);
      NothingForgotten(opt, steps[..n], states[..n + 1]);
      RunIsGood(opt, steps[..n], states[..n + 1]);
      var log := Written(steps[..n]);
      match steps[n]
      case AppendStep(b) =>
        AppendRemembers(opt, states[n], PlainLog(log), b, KeysOf(log));
        KeysSnoc(log, b);
      case RotateStep => RotateRemembers(opt, states[n], PlainLog(log), KeysOf(log));
      case ReopenStep => ReopenRebuilds(opt, states[n]);
    }
  }

  lemma {:induction false} NeverWrittenIff(opt: Options, steps: seq<Step>, states: seq<Db>, key: Key)
    requires Usable(opt) && IsRun(opt, steps, states) && states[|steps|].levels.curTable < MAX_UINT64
    requires forall i :: 0 <= i < |steps| ==> Defined(states[i]) && !StepErases(opt, states[i], steps[i])
    ensures ExistKey(opt, states[|steps|], key) == NotExist <==> key !in KeysOf(Written(steps))
  {
    NothingForgotten(opt, steps, states);
    ExistByHistory(opt, steps, states, key);
  }

  /** An erasing dump forgets every key that is deleted: right after it, such a key does not exist. */
  lemma {:induction false} ErasingForgets(opt: Options, d: Db, plain: Plain, key: Key)
    requires Usable(opt) && DbGood(opt, d, plain) && Defined(d) && StepErases(opt, d, RotateStep)
    requires Rotate(opt, d).levels.curTable < MAX_UINT64
    ensures ExistKey(opt, Rotate(opt, d), key) == if key in plain && plain[key] != [] then Exist else NotExist
  {
    RotateIsGood(opt, d, plain);
    RotateDumps(opt, d);
    NextIsDumped(opt, d);
    ErasedLevels(opt, d.levels, DumpedTable(Rotated(d)));
    ExistAgrees(opt, Rotate(opt, d), plain, key);
  }

  lemma {:induction false} RotateDumps(opt: Options, d: Db)
    requires Usable(opt) && Defined(d) && d.used != 0 && |d.imm| + 1 == opt.maxImm
    ensures Rotate(opt, d).levels == WithDumped(opt, d.levels, DumpedTable(Rotated(d)))
    ensures Rotate(opt, d).mem == map[] && Rotate(opt, d).imm == [] && Memory(Rotate(opt, d)) == map[]
  {
  }

  lemma {:induction false} NextIsDumped(opt: Options, d: Db)
    requires NeverEmpty(d) && d.used != 0
    ensures DumpedTable(Rotated(d)) != map[]
  {
    RotatedIsNotEmpty(d);
    DumpedIsNotEmpty(Rotated(d));
  }

  lemma {:induction false} ErasedLevels(opt: Options, s: Levels, table: Table)
    requires Usable(opt) && LevelsSettled(opt, s) && table != map[] && PlacingErases(opt, s, table)
    ensures var left := Content(WithDumped(opt, s, table), 0);
            forall k :: k in left ==> left[k] != []
  {
    DumpedExactly(opt, s, table);
  }

  // ---------- how deep ----------

  /** In every reachable store the deepest level on record is in use, or is the first one. */
  lemma {:induction false} RunIsTight(opt: Options, steps: seq<Step>, states: seq<Db>)
    requires Usable(opt) && IsRun(opt, steps, states)
    ensures Tight(states[|steps|].levels)
  {
    if steps != [] {
      var n := |steps| - 1;
      var d := states[n];
      RunPrefix(opt, steps, states);
      RunIsTight(opt, steps[..n], states[..n + 1]);
      RunIsGood(opt, steps[..n], states[..n + 1]);
      match steps[n]
      case AppendStep(b) =>
      case RotateStep =>
        if d.used != 0 && |Rotated(d).imm| == opt.maxImm {
          RotatedIsGood(opt, d, PlainLog(Written(steps[..n])));
          DumpIsTight(opt, Rotated(d));
        }
      case ReopenStep => ReopenRebuilds(opt, d);
    }
  }

  lemma {:induction false} DumpIsTight(opt: Options, d: Db)
    requires Usable(opt) && NoneAbove(d.levels) && NeverEmpty(d) && d.imm != [] && Tight(d.levels)
    ensures Tight(Dump(opt, d).levels)
  {
    var t, s := DumpedTable(d), d.levels;
    DumpedIsNotEmpty(d);
    assert forall c: nat :: Comp(WithTable(s, t), c) == Comp(s, c);
    DeepestInUse(opt.lim, WithTable(s, t), t, s.curTable);
  }

  // ---------- a run that forgets ----------

  /** A store whose level 0 holds one table with one key, and nothing else. */
  predicate OneKeyOnDisk(d: Db, k: Key) {
    && d.mem == map[] && d.imm == [] && d.used == 0
    && var views := Comp(d.levels, 0);
       && |views| == 1 && |views[0].items| == 1 && d.levels.maxLevel == 0
       && views[0].items[0].begin == k == views[0].items[0].end && d.levels.curTable <= 2
  }

  function Single(k: Key, v: Bytes): (t: Table)
    ensures t != map[] && t.Keys == {k}
  {
    var t: Table := map[k := v];
    assert k in t;
    t
  }

  lemma {:induction false} OneWriteDumps(opt: Options, d: Db, w: Write)
    requires Usable(opt) && Defined(d) && opt.maxImm == 1 && w.key != []
    requires d.mem == map[] && d.imm == [] && d.used == 0
    ensures var e := Append(d, [w]);
            && e.used > 0 && e.imm == [] && e.levels == d.levels && Defined(e)
            && DumpedTable(Rotated(e)) == Single(w.key, if w.Put? then w.value else [])
            && Rotate(opt, e).mem == map[] && Rotate(opt, e).imm == [] && Rotate(opt, e).used == 0
            && Rotate(opt, e).levels == WithDumped(opt, d.levels, Single(w.key, if w.Put? then w.value else []))
  {
    var b := [w];
    assert b[..0] == [] && ApplyBatch(false, d.mem, b[..0]) == d.mem && BatchSize(b[..0]) == 0;
    var e := Append(d, b);
    assert e.mem == map[w.key := if w.Put? then Value(w.value) else Tombstone];
    assert Rotated(e).imm == [e.mem] && Rotated(e).imm[..0] == [];
    assert Overlay(Rotated(e).imm) == e.mem;
  }

  lemma {:induction false} FewTables(opt: Options, s: Levels, table: Table)
    requires Usable(opt) && NoneAbove(s) && table != map[]
    ensures WithDumped(opt, s, table).curTable <= s.curTable + s.maxLevel + 2
  {
    assert forall c: nat :: Comp(WithTable(s, table), c) == Comp(s, c);
    TablesCreated(opt.lim, WithTable(s, table), table, s.curTable, 0, s.maxLevel + 1);
  }

  lemma {:induction false} FirstKeyLands(opt: Options, k: Key, v: Bytes)
    requires Usable(opt)
    ensures var s := WithDumped(opt, EMPTY_LEVELS, Single(k, v));
            && PlacingReturns(opt, EMPTY_LEVELS, Single(k, v))
            && s.maxLevel == 0 && |Comp(s, 0)| == 1 && |Comp(s, 0)[0].items| == 1
            && Comp(s, 0)[0].items[0].begin == k == Comp(s, 0)[0].items[0].end && s.curTable <= 2
  {
    var t := Single(k, v);
    FewTables(opt, EMPTY_LEVELS, t);
    assert FirstKey(opt.lim.cmp, t) in t.Keys && LastKey(opt.lim.cmp, t) in t.Keys;
    assert forall c: nat :: Comp(WithTable(EMPTY_LEVELS, t), c) == [];
  }

  /** The second table for the same key does not fit beside the first, so the only view that may be there is merged. */
  lemma {:induction false} SameKeyErases(opt: Options, s: Levels, k: Key)
    requires Usable(opt) && NoneAbove(s) && opt.lim.maxView == 1 && opt.lim.maxTable == 0 && s.maxLevel == 0
    requires |Comp(s, 0)| == 1 && |Comp(s, 0)[0].items| == 1
    requires Comp(s, 0)[0].items[0].begin == k == Comp(s, 0)[0].items[0].end
    ensures PlacingErases(opt, s, Single(k, [])) && PlacingReturns(opt, s, Single(k, []))
  {
    var t := Single(k, []);
    assert FirstKey(opt.lim.cmp, t) in t.Keys && LastKey(opt.lim.cmp, t) in t.Keys;
    assert forall c: nat :: Comp(WithTable(s, t), c) == Comp(s, c);
    var items := Comp(s, 0)[0].items;
    assert Find(opt.lim.cmp, items, k) == 0 && !IsNotOverlapped(opt.lim.cmp, items, k, k);
    UnlimitedReturns(opt.lim, WithTable(s, t), t, s.curTable, 0);
  }

  lemma {:induction false} Then(opt: Options, steps: seq<Step>, states: seq<Db>, step: Step)
    returns (more: seq<Step>, all: seq<Db>)
    requires Usable(opt) && IsRun(opt, steps, states) && !step.ReopenStep?
    requires Defined(states[|steps|]) && StepReturns(opt, states[|steps|], step)
    ensures IsRun(opt, more, all) && more == steps + [step] && states <= all
    ensures all[|more|]
            == if step.AppendStep? then Append(states[|steps|], step.batch) else Rotate(opt, states[|steps|])
  {
    var d := states[|steps|];
    var e := if step.AppendStep? then Append(d, step.batch) else Rotate(opt, d);
    ExtendRun(opt, steps, states, step, e);
    more, all := steps + [step], states + [e];
  }

  /** A key is put and dumped, deleted and dumped: with one view a level the second dump drops both the value and the
      tombstone, and the key that was deleted does not exist. */
  lemma {:induction false} DeletedIsForgotten(opt: Options, k: Key, v: Bytes)
    returns (steps: seq<Step>, states: seq<Db>)
    requires Usable(opt) && opt.maxImm == 1 && opt.lim.maxView == 1 && opt.lim.maxTable == 0 && k != []
    ensures IsRun(opt, steps, states)
    ensures steps == [AppendStep([Put(k, v)]), RotateStep, AppendStep([Delete(k)]), RotateStep]
    ensures ExistKey(opt, states[3], k) == Deleted && ExistKey(opt, states[4], k) == NotExist
  {
    steps, states := PutAndDumped(opt, k, v);
    steps, states := DeleteAndDump(opt, steps, states, k);
  }

  lemma {:induction false} RunIsDefined(opt: Options, steps: seq<Step>, states: seq<Db>)
    requires Usable(opt) && IsRun(opt, steps, states)
    ensures Defined(states[|steps|])
  {
    RunIsGood(opt, steps, states);
  }

  lemma {:induction false} DeleteAndDump(opt: Options, steps: seq<Step>, states: seq<Db>, k: Key)
    returns (more: seq<Step>, all: seq<Db>)
    requires Usable(opt) && opt.maxImm == 1 && opt.lim.maxView == 1 && opt.lim.maxTable == 0 && k != []
    requires IsRun(opt, steps, states) && OneKeyOnDisk(states[|steps|], k)
    ensures IsRun(opt, more, all) && more == steps + [AppendStep([Delete(k)]), RotateStep]
    ensures ExistKey(opt, all[|steps| + 1], k) == Deleted
    ensures ExistKey(opt, all[|steps| + 2], k) == NotExist
  {
    var one, two := DeleteOnDisk(opt, steps, states, k);
    more, all := DumpAndForget(opt, one, two, k);
  }

  lemma {:induction false} DeleteOnDisk(opt: Options, steps: seq<Step>, states: seq<Db>, k: Key)
    returns (more: seq<Step>, all: seq<Db>)
    requires Usable(opt) && opt.maxImm == 1 && opt.lim.maxView == 1 && opt.lim.maxTable == 0 && k != []
    requires IsRun(opt, steps, states) && OneKeyOnDisk(states[|steps|], k)
    ensures IsRun(opt, more, all) && more == steps + [AppendStep([Delete(k)])]
    ensures Defined(all[|more|]) && ExistKey(opt, all[|more|], k) == Deleted && k !in PlainLog(Written(more))
    ensures StepErases(opt, all[|more|], RotateStep) && StepReturns(opt, all[|more|], RotateStep)
    ensures Rotate(opt, all[|more|]).levels.curTable < MAX_UINT64
  {
    RunIsDefined(opt, steps, states);
    more, all := Then(opt, steps, states, AppendStep([Delete(k)]));
    DeleteErases(opt, states[|steps|], k, all[|more|]);
    WrittenSnoc(steps, AppendStep([Delete(k)]));
    DeletedFromPlain(PlainLog(Written(steps)), k);
  }

  lemma {:induction false} DumpAndForget(opt: Options, steps: seq<Step>, states: seq<Db>, key: Key)
    returns (more: seq<Step>, all: seq<Db>)
    requires Usable(opt) && IsRun(opt, steps, states) && key !in PlainLog(Written(steps))
    requires Defined(states[|steps|]) && StepErases(opt, states[|steps|], RotateStep)
    requires StepReturns(opt, states[|steps|], RotateStep)
    requires Rotate(opt, states[|steps|]).levels.curTable < MAX_UINT64
    ensures IsRun(opt, more, all) && more == steps + [RotateStep] && all[|steps|] == states[|steps|]
    ensures ExistKey(opt, all[|more|], key) == NotExist
  {
    RunForgets(opt, steps, states, key);
    more, all := Then(opt, steps, states, RotateStep);
  }

  lemma {:induction false} RunForgets(opt: Options, steps: seq<Step>, states: seq<Db>, key: Key)
    requires Usable(opt) && IsRun(opt, steps, states)
    requires Defined(states[|steps|]) && StepErases(opt, states[|steps|], RotateStep)
    requires Rotate(opt, states[|steps|]).levels.curTable < MAX_UINT64 && key !in PlainLog(Written(steps))
    ensures ExistKey(opt, Rotate(opt, states[|steps|]), key) == NotExist
  {
    RunIsGood(opt, steps, states);
    ErasingForgets(opt, states[|steps|], PlainLog(Written(steps)), key);
  }

  lemma {:induction false} DeletedFromPlain(m: Plain, k: Key)
    ensures k !in PlainBatch(m, [Delete(k)])
  {
  }

  lemma {:induction false} PutAndDumped(opt: Options, k: Key, v: Bytes) returns (steps: seq<Step>, states: seq<Db>)
    requires Usable(opt) && opt.maxImm == 1 && k != []
    ensures IsRun(opt, steps, states) && steps == [AppendStep([Put(k, v)]), RotateStep]
    ensures OneKeyOnDisk(states[2], k)
  {
    OneWriteDumps(opt, EMPTY_DB, Put(k, v));
    FirstKeyLands(opt, k, v);
    steps, states := Then(opt, [], [EMPTY_DB], AppendStep([Put(k, v)]));
    steps, states := Then(opt, steps, states, RotateStep);
  }

  lemma {:induction false} DeleteErases(opt: Options, d: Db, k: Key, e: Db)
    requires Usable(opt) && opt.maxImm == 1 && opt.lim.maxView == 1 && opt.lim.maxTable == 0 && k != []
    requires Defined(d) && OneKeyOnDisk(d, k) && e == Append(d, [Delete(k)])
    ensures Defined(e) && StepReturns(opt, e, RotateStep) && StepErases(opt, e, RotateStep)
    ensures ExistKey(opt, e, k) == Deleted && Rotate(opt, e).levels.curTable < MAX_UINT64
  {
    OneWriteDumps(opt, d, Delete(k));
    FewTables(opt, d.levels, Single(k, []));
    SameKeyErases(opt, d.levels, k);
    var b := [Delete(k)];
    assert b[..0] == [] && ApplyBatch(false, d.mem, b[..0]) == d.mem;
  }
}
