/** Ordered merges are within reach whenever the number of tables of a level is limited. */
module LevelStalls {
  import opened Buffers
  import opened MemoryTables
  import opened LevelViews
  import opened LevelStore
  import opened LevelProofs
  import opened LevelMerges
  import opened LevelDb

  function KeyOf(n: nat): Key {
    seq(n + 1, _ => 0)
  }

  /** A value that fills a memory table. */
  function Filler(opt: Options): Bytes {
    seq(opt.maxMem + 1, _ => 0)
  }

  function OneKey(opt: Options, n: nat): (t: Table)
    ensures t != map[] && t.Keys == {KeyOf(n)}
  {
    var t: Table := map[KeyOf(n) := Filler(opt)];
    assert KeyOf(n) in t;
    t
  }

  function OnePut(opt: Options, n: nat): Batch {
    [Put(KeyOf(n), Filler(opt))]
  }

  /** A run in which memory tables are rotated when they have grown too large, and only then. */
  ghost predicate IsDueRun(opt: Options, steps: seq<Step>, states: seq<Db>)
    requires Usable(opt)
  {
    && IsRun(opt, steps, states)
    && forall i :: 0 <= i < |steps| && steps[i].RotateStep? ==> states[i].used > opt.maxMem
  }

  /** Level 0 has one view, of `n` tables with one key each. */
  predicate OneView(s: Levels, n: nat) {
    var views := Comp(s, 0);
    if n == 0 then views == []
    else |views| == 1 && |views[0].items| == n && forall x :: x in views[0].items ==> x.begin == x.end && |x.begin| <= n
  }

  /** `n` tables have been dumped, and the queue holds `j` copies of the next one. */
  predicate Waiting(opt: Options, d: Db, n: nat, j: nat) {
    && d.mem == map[] && d.used == 0 && OneView(d.levels, n)
    && |d.imm| == j && forall m :: m in d.imm ==> m == map[KeyOf(n) := Value(Filler(opt))]
  }

  /** The next put has filled the memory table. */
  predicate Filled(opt: Options, d: Db, n: nat, j: nat) {
    && d.mem == map[KeyOf(n) := Value(Filler(opt))] && d.used > opt.maxMem && OneView(d.levels, n)
    && |d.imm| == j && forall m :: m in d.imm ==> m == map[KeyOf(n) := Value(Filler(opt))]
  }

  lemma {:induction false} PutFills(opt: Options, d: Db, n: nat, j: nat)
    requires Waiting(opt, d, n, j)
    ensures Filled(opt, Append(d, OnePut(opt, n)), n, j)
  {
    var b := OnePut(opt, n);
    assert b[..0] == [] && ApplyBatch(false, d.mem, b[..0]) == d.mem && BatchSize(b[..0]) == 0;
  }

  lemma {:induction false} CopiesOverlay(imm: seq<MemTable>, m: MemTable)
    requires imm != [] && forall x :: x in imm ==> x == m
    ensures Overlay(imm) == m
  {
    var n := |imm| - 1;
    assert imm[n] in imm;
    if n > 0 {
      assert forall x :: x in imm[..n] ==> x in imm;
      CopiesOverlay(imm[..n], m);
    } else {
      assert imm[..0] == [];
    }
  }

  /** What a full queue is dumped to. */
  lemma {:induction false} DumpedCopy(opt: Options, d: Db, n: nat, j: nat)
    requires Filled(opt, d, n, j)
    ensures DumpedTable(Rotated(d)) == OneKey(opt, n)
  {
    CopiesOverlay(Rotated(d).imm, d.mem);
  }

  /** The new key belongs to no interval of the view, so its table fits in. */
  lemma {:induction false} NewKeyFits(opt: Options, s: Levels, n: nat)
    requires Usable(opt) && Good(opt.lim, s) && OneView(s, n) && n > 0
    ensures Fits(opt.lim, Comp(s, 0), OneKey(opt, n))
  {
    var k, cmp := KeyOf(n), opt.lim.cmp;
    var t := OneKey(opt, n);
    assert FirstKey(cmp, t) in t.Keys && LastKey(cmp, t) in t.Keys;
    var views := Comp(s, 0);
    assert GoodLevel(opt.lim, s.tables, s.curTable, s.curView, views);
    assert views[0] in views && GoodView(cmp, s.tables, s.curTable, views[0]);
    var items := views[0].items;
    forall j | 0 <= j < |items| ensures Disjoint(cmp, items[j], k, k) {
      assert items[j] in items && items[j].begin != k;
    }
    NotOverlappedExact(cmp, items, k, k);
  }

  lemma {:induction false} InsertedItems(cmp: Comparator, items: seq<Item>, item: Item)
    ensures var more := Insert(cmp, items, item.begin, item.end, item.id);
            |more| == |items| + 1 && forall x :: x in more ==> x in items || x == item
  {
  }

  lemma {:induction false} ViewGrows(opt: Options, w: Levels, n: nat, id: nat)
    requires Usable(opt) && NoneAbove(w) && OneView(w, n) && n < opt.lim.maxTable
    requires n > 0 ==> Fits(opt.lim, Comp(w, 0), OneKey(opt, n))
    ensures Returns(opt.lim, w, OneKey(opt, n), id, 0)
    ensures OneView(AddToLevel(opt.lim, w, OneKey(opt, n), id, 0), n + 1)
  {
    var t, views := OneKey(opt, n), Comp(w, 0);
    var item := Item(FirstKey(opt.lim.cmp, t), LastKey(opt.lim.cmp, t), id);
    assert item.begin in t.Keys && item.end in t.Keys;
    if n > 0 {
      assert views[..0] == [] && TableCount(views) == n;
      InsertedItems(opt.lim.cmp, views[0].items, item);
    }
    AddPlaces(opt.lim, w, t, id, 0);
  }

  /** Rotating the memory table that completes the queue places a table with the one key. */
  lemma {:induction false} LastRotation(opt: Options, d: Db, n: nat)
    requires Usable(opt) && Defined(d) && Filled(opt, d, n, opt.maxImm - 1)
    ensures var w := WithTable(d.levels, OneKey(opt, n));
            && (forall c: nat :: Comp(w, c) == Comp(d.levels, c)) && NoneAbove(w)
            && (StepReturns(opt, d, RotateStep) <==> Returns(opt.lim, w, OneKey(opt, n), d.levels.curTable, 0))
            && Rotate(opt, d).levels == AddToLevel(opt.lim, w, OneKey(opt, n), d.levels.curTable, 0)
            && Rotate(opt, d).mem == map[] && Rotate(opt, d).used == 0 && Rotate(opt, d).imm == []
  {
    DumpedCopy(opt, d, n, opt.maxImm - 1);
    assert forall c: nat :: Comp(WithTable(d.levels, OneKey(opt, n)), c) == Comp(d.levels, c);
  }

  /** As long as the view is not full, the dump adds one more table to it. */
  lemma {:induction false} DumpExtends(opt: Options, d: Db, n: nat)
    requires Usable(opt) && Defined(d) && Good(opt.lim, d.levels)
    requires Filled(opt, d, n, opt.maxImm - 1) && n < opt.lim.maxTable
    ensures StepReturns(opt, d, RotateStep) && Waiting(opt, Rotate(opt, d), n + 1, 0)
  {
    LastRotation(opt, d, n);
    if n > 0 {
      NewKeyFits(opt, d.levels, n);
    }
    ViewGrows(opt, WithTable(d.levels, OneKey(opt, n)), n, d.levels.curTable);
  }

  lemma {:induction false} AddStep(opt: Options, steps: seq<Step>, states: seq<Db>, step: Step)
      returns (more: seq<Step>, all: seq<Db>)
    requires Usable(opt) && IsDueRun(opt, steps, states)
    requires Defined(states[|steps|]) && StepReturns(opt, states[|steps|], step)
    requires step.RotateStep? ==> states[|steps|].used > opt.maxMem
    requires !step.ReopenStep?
    ensures IsDueRun(opt, more, all)
    ensures all[|more|]
            == if step.AppendStep? then Append(states[|steps|], step.batch) else Rotate(opt, states[|steps|])
  {
    var d := states[|steps|];
    var e := if step.AppendStep? then Append(d, step.batch) else Rotate(opt, d);
    ExtendRun(opt, steps, states, step, e);
    more, all := steps + [step], states + [e];
  }

  lemma {:induction false} Fill(opt: Options, steps: seq<Step>, states: seq<Db>, n: nat, j: nat)
      returns (more: seq<Step>, all: seq<Db>)
    requires Usable(opt) && IsDueRun(opt, steps, states) && Waiting(opt, states[|steps|], n, j)
    ensures IsDueRun(opt, more, all) && Filled(opt, all[|more|], n, j)
  {
    RunIsGood(opt, steps, states);
    PutFills(opt, states[|steps|], n, j);
    more, all := AddStep(opt, steps, states, AppendStep(OnePut(opt, n)));
  }

  lemma {:induction false} QueueGrows(opt: Options, d: Db, n: nat, j: nat)
    requires Usable(opt) && Defined(d) && Filled(opt, d, n, j) && j + 1 < opt.maxImm
    ensures StepReturns(opt, d, RotateStep) && Waiting(opt, Rotate(opt, d), n, j + 1)
  {
  }

  /** One more table in the queue, or the full queue as one more table of the view. */
  lemma {:induction false} Turn(opt: Options, steps: seq<Step>, states: seq<Db>, n: nat, j: nat)
      returns (more: seq<Step>, all: seq<Db>)
    requires Usable(opt) && IsDueRun(opt, steps, states) && Waiting(opt, states[|steps|], n, j)
    requires j < opt.maxImm && n < opt.lim.maxTable + One(j + 1 < opt.maxImm)
    ensures IsDueRun(opt, more, all)
    ensures if j + 1 < opt.maxImm then Waiting(opt, all[|more|], n, j + 1) else Waiting(opt, all[|more|], n + 1, 0)
  {
    more, all := Fill(opt, steps, states, n, j);
    RunIsGood(opt, more, all);
    if j + 1 < opt.maxImm {
      QueueGrows(opt, all[|more|], n, j);
    } else {
      DumpExtends(opt, all[|more|], n);
    }
    more, all := AddStep(opt, more, all, RotateStep);
  }

  function One(b: bool): nat {
    if b then 1 else 0
  }

  /** Puts of ever new keys, each filling a memory table, dumped one by one. */
  lemma {:induction false} Approach(opt: Options, n: nat, j: nat) returns (steps: seq<Step>, states: seq<Db>)
    requires Usable(opt) && n <= opt.lim.maxTable && j < opt.maxImm
    ensures IsDueRun(opt, steps, states) && Waiting(opt, states[|steps|], n, j)
    decreases n, j
  {
    if j > 0 {
      steps, states := Approach(opt, n, j - 1);
      steps, states := Turn(opt, steps, states, n, j - 1);
    } else if n > 0 {
      steps, states := Approach(opt, n - 1, opt.maxImm - 1);
      steps, states := Turn(opt, steps, states, n - 1, opt.maxImm - 1);
    } else {
      steps, states := [], [EMPTY_DB];
    }
  }

  /** With a limit on the tables of a level there is a run, without deletes and with every rotation due, after which
      rotating the full memory table never ends. */
  lemma {:induction false} LimitedStalls(opt: Options) returns (steps: seq<Step>, states: seq<Db>)
    requires Usable(opt) && opt.lim.maxTable != 0
    ensures IsDueRun(opt, steps, states) && states[|steps|].used > opt.maxMem
    ensures Defined(states[|steps|]) && !StepReturns(opt, states[|steps|], RotateStep)
  {
    var n := opt.lim.maxTable;
    steps, states := Approach(opt, n, opt.maxImm - 1);
    steps, states := Fill(opt, steps, states, n, opt.maxImm - 1);
    var d := states[|steps|];
    RunIsGood(opt, steps, states);
    FullViewStalls(opt, d);
  }

  lemma {:induction false} FullViewStalls(opt: Options, d: Db)
    requires Usable(opt) && Defined(d) && Good(opt.lim, d.levels) && opt.lim.maxTable != 0
    requires Filled(opt, d, opt.lim.maxTable, opt.maxImm - 1)
    ensures !StepReturns(opt, d, RotateStep)
  {
    var n := opt.lim.maxTable;
    LastRotation(opt, d, n);
    NewKeyFits(opt, d.levels, n);
    FullViewIsOrdered(opt, WithTable(d.levels, OneKey(opt, n)), d.levels.curTable);
  }

  lemma {:induction false} FullViewIsOrdered(opt: Options, w: Levels, id: nat)
    requires Usable(opt) && NoneAbove(w) && opt.lim.maxTable != 0 && OneView(w, opt.lim.maxTable)
    requires Fits(opt.lim, Comp(w, 0), OneKey(opt, opt.lim.maxTable))
    ensures !Returns(opt.lim, w, OneKey(opt, opt.lim.maxTable), id, 0)
  {
    OrderedMergeIff(opt.lim, Comp(w, 0), OneKey(opt, opt.lim.maxTable));
  }

  /** The guard, exactly: every step of every run ends if and only if the number of tables of a level is not limited. */
  lemma {:induction false} AlwaysReturnsIff(opt: Options)
    requires Usable(opt)
    ensures opt.lim.maxTable == 0
            <==> forall steps, states, step :: IsRun(opt, steps, states) && Defined(states[|steps|])
                                               ==> StepReturns(opt, states[|steps|], step)
  {
    if opt.lim.maxTable == 0 {
      forall steps, states, step | IsRun(opt, steps, states) && Defined(states[|steps|])
        ensures StepReturns(opt, states[|steps|], step)
      {
        UnlimitedStepReturns(opt, states[|steps|], step);
      }
    } else {
      var steps, states := LimitedStalls(opt);
    }
  }

  lemma {:induction false} UnlimitedStepReturns(opt: Options, d: Db, step: Step)
    requires Usable(opt) && Defined(d) && opt.lim.maxTable == 0
    ensures StepReturns(opt, d, step)
  {
    var e := if step.RotateStep? then Rotated(d) else Loaded(opt, d);
    var t := DumpedTable(e);
    assert forall c: nat :: Comp(WithTable(d.levels, t), c) == Comp(d.levels, c);
    UnlimitedReturns(opt.lim, WithTable(d.levels, t), t, d.levels.curTable, 0);
  }
}
