/** The store as the program keeps it: memory tables, a manifest with write-through caches, table files. */
module LevelTables {
  import opened Buffers
  import opened LevelViews
  import opened MemoryTables
  import opened LevelStore
  import opened LevelProofs
  import opened LevelMerges
  import opened LevelReader
  import opened LevelDb

  /** What is on record about the levels: view ids by level, items by view, counters. */
  datatype Manifest = Manifest(
    maxLevel: nat, comps: map<nat, seq<nat>>, views: map<nat, seq<Item>>,
    curTable: nat, prevTable: nat, curView: nat, prevView: nat)

  function IdSet(ids: seq<nat>): set<nat> {
    set id | id in ids
  }

  function ItemsOf(m: Manifest, id: nat): seq<Item> {
    if id in m.views then m.views[id] else []
  }

  function ViewIds(m: Manifest, c: nat): seq<nat> {
    if c in m.comps then m.comps[c] else []
  }

  function Listed(m: Manifest, ids: seq<nat>): (views: seq<View>)
    ensures |views| == |ids|
    ensures forall i :: 0 <= i < |ids| ==> views[i] == View(ids[i], ItemsOf(m, ids[i]))
  {
    seq(|ids|, i requires 0 <= i < |ids| => View(ids[i], ItemsOf(m, ids[i])))
  }

  function LevelsOf(m: Manifest, files: map<nat, Table>): Levels {
    Levels(m.maxLevel, map c | c in m.comps :: Listed(m, m.comps[c]), files, m.curTable, m.prevTable, m.curView,
        m.prevView)
  }

  ghost predicate Recorded(m: Manifest) {
    && (forall id :: id in m.views ==> id < m.curView)
    && (forall c, id :: c in m.comps && id in m.comps[c] ==> id in m.views)
  }

  /** The cached copies agree with the record wherever the record still has the entry. */
  ghost predicate Cached(m: Manifest, componentMap: map<nat, seq<nat>>, viewMap: map<nat, seq<Item>>) {
    && (forall c :: c in componentMap ==> componentMap[c] == ViewIds(m, c))
    && (forall id :: id in viewMap ==> id < m.curView && (id in m.views ==> viewMap[id] == m.views[id]))
  }

  lemma {:induction false} CompIsListed(m: Manifest, files: map<nat, Table>, c: nat)
    ensures Comp(LevelsOf(m, files), c) == Listed(m, ViewIds(m, c))
  {
  }

  lemma {:induction false} ListedFrame(m: Manifest, n: Manifest, ids: seq<nat>)
    requires forall id :: id in ids ==> ItemsOf(m, id) == ItemsOf(n, id)
    ensures Listed(m, ids) == Listed(n, ids)
  {
  }

  lemma {:induction false} CountersOnly(m: Manifest, n: Manifest, files: map<nat, Table>)
    requires n.comps == m.comps && n.views == m.views
    ensures LevelsOf(n, files).comps == LevelsOf(m, files).comps
  {
    forall c | c in m.comps ensures Listed(n, m.comps[c]) == Listed(m, m.comps[c]) {
      ListedFrame(m, n, m.comps[c]);
    }
  }

  lemma {:induction false} SameListing(m: Manifest, n: Manifest, files: map<nat, Table>, left: map<nat, Table>, c: nat)
    requires Comp(LevelsOf(m, files), c) == Comp(LevelsOf(n, left), c)
    ensures ViewIds(m, c) == ViewIds(n, c)
  {
  }

  /** No view is listed twice, within a level or across levels. */
  ghost predicate Once(m: Manifest) {
    && (forall c: nat, i, j :: 0 <= i < j < |ViewIds(m, c)| ==> ViewIds(m, c)[i] != ViewIds(m, c)[j])
    && (forall c: nat, d: nat, id :: c != d && id in ViewIds(m, c) ==> id !in ViewIds(m, d))
  }

  lemma {:induction false} ListedOnce(lim: Limits, m: Manifest, files: map<nat, Table>)
    requires Good(lim, LevelsOf(m, files))
    ensures Once(m)
  {
    var s := LevelsOf(m, files);
    forall c: nat, i, j | 0 <= i < j < |ViewIds(m, c)| ensures ViewIds(m, c)[i] != ViewIds(m, c)[j] {
      CompIsListed(m, files, c);
      assert GoodLevel(lim, s.tables, s.curTable, s.curView, Comp(s, c));
      assert Comp(s, c)[i].id != Comp(s, c)[j].id;
    }
    forall c: nat, d: nat, id | c != d && id in ViewIds(m, c) ensures id !in ViewIds(m, d) {
      CompIsListed(m, files, c);
      CompIsListed(m, files, d);
      assert SharesNothing(Comp(s, c), Comp(s, d));
      var i :| 0 <= i < |ViewIds(m, c)| && ViewIds(m, c)[i] == id;
      assert Comp(s, c)[i] in Comp(s, c);
      forall j | 0 <= j < |ViewIds(m, d)| ensures ViewIds(m, d)[j] != id {
        assert Comp(s, d)[j] in Comp(s, d);
      }
    }
  }

  // ---------- manifest updates and what they mean for the levels ----------

  lemma {:induction false} RecordOpens(
      lim: Limits, m: Manifest, files: map<nat, Table>, c: nat, item: Item, n: Manifest)
    requires Recorded(m)
    requires n == m.(views := m.views[m.curView := [item]], comps := m.comps[c := ViewIds(m, c) + [m.curView]],
                     curView := m.curView + 1, prevView := m.curView + 1, prevTable := m.curTable)
    ensures LevelsOf(n, files) == OpenView(LevelsOf(m, files), c, item) && Recorded(n)
  {
    CompIsListed(m, files, c);
    var ids := ViewIds(m, c);
    forall d | d in m.comps ensures Listed(n, m.comps[d]) == Listed(m, m.comps[d]) {
      ListedFrame(m, n, m.comps[d]);
    }
    assert Listed(n, ids + [m.curView]) == Listed(m, ids) + [View(m.curView, [item])] by {
      if c !in m.comps {
        assert Listed(m, ids) == [];
      }
    }
    assert LevelsOf(n, files).comps == OpenView(LevelsOf(m, files), c, item).comps;
  }

  function WithItem(lim: Limits, m: Manifest, id: nat, item: Item): Manifest {
    m.(views := m.views[id := Insert(lim.cmp, ItemsOf(m, id), item.begin, item.end, item.id)], prevTable := m.curTable)
  }

  lemma {:induction false} RecordExtends(
      lim: Limits, m: Manifest, files: map<nat, Table>, c: nat, item: Item, n: Manifest)
    requires Recorded(m) && Once(m) && ViewIds(m, c) != []
    requires n == WithItem(lim, m, ViewIds(m, c)[|ViewIds(m, c)| - 1], item)
    ensures Comp(LevelsOf(m, files), c) != []
    ensures LevelsOf(n, files) == ExtendView(lim, LevelsOf(m, files), c, item) && Recorded(n)
  {
    CompIsListed(m, files, c);
    var ids := ViewIds(m, c);
    var id := ids[|ids| - 1];
    assert c in m.comps && id in m.comps[c];
    forall d | d in m.comps && d != c ensures Listed(n, m.comps[d]) == Listed(m, m.comps[d]) {
      assert id in ViewIds(m, c) && id !in ViewIds(m, d);
      ListedFrame(m, n, m.comps[d]);
    }
    ListedExtends(lim, m, n, ids, item);
    assert LevelsOf(n, files).comps == ExtendView(lim, LevelsOf(m, files), c, item).comps;
  }

  lemma {:induction false} ListedExtends(lim: Limits, m: Manifest, n: Manifest, ids: seq<nat>, item: Item)
    requires ids != [] && n == WithItem(lim, m, ids[|ids| - 1], item)
    requires forall i, j :: 0 <= i < j < |ids| ==> ids[i] != ids[j]
    ensures Listed(n, ids) == Extended(lim, Listed(m, ids), item)
  {
  }

  lemma {:induction false} RecordClears(
      m: Manifest, files: map<nat, Table>, c: nat, ids: seq<nat>, id: nat, n: Manifest, left: map<nat, Table>)
    requires Recorded(m) && Once(m) && ids == ViewIds(m, c)
    requires n == m.(comps := m.comps[c := []], views := m.views - IdSet(ids),
                     maxLevel := if c != 0 && m.maxLevel == c then c - 1 else m.maxLevel)
    requires left == files - Ids(Listed(m, ids)) - {id}
    ensures LevelsOf(n, left) == Cleared(LevelsOf(m, files), c, Listed(m, ids), id) && Recorded(n)
  {
    forall d | d in m.comps && d != c
      ensures Listed(n, m.comps[d]) == Listed(m, m.comps[d]) && forall x :: x in m.comps[d] ==> x in n.views
    {
      assert forall x :: x in ViewIds(m, d) ==> x !in ViewIds(m, c);
      ListedFrame(m, n, m.comps[d]);
    }
    assert Listed(n, []) == [];
    assert LevelsOf(n, left).comps == Cleared(LevelsOf(m, files), c, Listed(m, ids), id).comps;
  }

  // ---------- the table builder by contract ----------

  /** Tables laid over one another, the last on top. */
  function Fold(tables: seq<Table>): Table {
    if tables == [] then map[] else Fold(tables[..|tables| - 1]) + tables[|tables| - 1]
  }

  lemma {:induction false} FoldSnoc(tables: seq<Table>, t: Table)
    ensures Fold(tables + [t]) == Fold(tables) + t
  {
  }

  lemma {:induction false} RunSnoc(tables: map<nat, Table>, items: seq<Item>, j: nat)
    requires j < |items|
    ensures ItemsRun(tables, items[..j + 1]) == ItemsRun(tables, items[..j]) + Load(tables, items[j].id)
    ensures ItemIds(items[..j + 1]) == ItemIds(items[..j]) + {items[j].id}
  {
    assert items[..j + 1][..j] == items[..j];
    assert items[..j + 1] == items[..j] + [items[j]];
  }

  lemma {:induction false} ListedSnoc(m: Manifest, files: map<nat, Table>, ids: seq<nat>, i: nat)
    requires i < |ids|
    ensures ViewsRun(files, Listed(m, ids[..i + 1]))
            == ViewsRun(files, Listed(m, ids[..i])) + ItemsRun(files, ItemsOf(m, ids[i]))
    ensures TableCount(Listed(m, ids[..i + 1])) == TableCount(Listed(m, ids[..i])) + |ItemsOf(m, ids[i])|
    ensures Ids(Listed(m, ids[..i + 1])) == Ids(Listed(m, ids[..i])) + ItemIds(ItemsOf(m, ids[i]))
  {
    assert Listed(m, ids[..i + 1]) == Listed(m, ids[..i]) + [View(ids[i], ItemsOf(m, ids[i]))];
    Snoc(files, Listed(m, ids[..i]), View(ids[i], ItemsOf(m, ids[i])));
  }

  lemma {:induction false} MinusMinus<T>(m: map<nat, T>, a: set<nat>, b: set<nat>)
    ensures m - a - b == m - (a + b)
  {
  }

  lemma {:induction false} IdSetSnoc(ids: seq<nat>, i: nat)
    requires i < |ids|
    ensures IdSet(ids[..i + 1]) == IdSet(ids[..i]) + {ids[i]}
  {
  }

  lemma {:induction false} DeletedSoFar(m: Manifest, files: map<nat, Table>, ids: seq<nat>, i: nat)
    requires i < |ids| && forall j, k :: 0 <= j < k < |ids| ==> ids[j] != ids[k]
    ensures ItemsOf(m.(views := m.views - IdSet(ids[..i])), ids[i]) == ItemsOf(m, ids[i])
    ensures m.views - IdSet(ids[..i]) - {ids[i]} == m.views - IdSet(ids[..i + 1])
    ensures files - Ids(Listed(m, ids[..i])) - ItemIds(ItemsOf(m, ids[i])) == files - Ids(Listed(m, ids[..i + 1]))
  {
    ListedSnoc(m, files, ids, i);
    IdSetSnoc(ids, i);
    MinusMinus(m.views, IdSet(ids[..i]), {ids[i]});
    MinusMinus(files, Ids(Listed(m, ids[..i])), ItemIds(ItemsOf(m, ids[i])));
    assert ids[i] !in IdSet(ids[..i]);
  }

  /** The outcomes once the level holds fewer tables than it may. */
  lemma {:induction false} PlaceOutcome(lim: Limits, s: Levels, table: Table, id: nat, c: nat)
    requires IsComparator(lim.cmp) && NoneAbove(s) && table != map[] && Comp(s, c) != []
    requires lim.maxTable == 0 || TableCount(Comp(s, c)) != lim.maxTable
    ensures var item := Item(FirstKey(lim.cmp, table), LastKey(lim.cmp, table), id);
            && (Fits(lim, Comp(s, c), table) ==> AddToLevel(lim, s, table, id, c) == ExtendView(lim, s, c, item))
            && (!Fits(lim, Comp(s, c), table) && !(lim.maxView != 0 && |Comp(s, c)| == lim.maxView) ==>
                  AddToLevel(lim, s, table, id, c) == OpenView(s, c, item))
            && (!Fits(lim, Comp(s, c), table) && lim.maxView != 0 && |Comp(s, c)| == lim.maxView ==>
                 MustMerge(lim, Comp(s, c), table))
  {
  }

  lemma {:induction false} OverAssociates(a: MemTable, b: MemTable, t: MemTable)
    ensures (a + b) + t == a + (b + t)
  {
  }

  lemma {:induction false} OneWrite(plain: Plain, w: Write)
    ensures PlainBatch(plain, [w]) == PlainWrite(plain, w)
  {
  }

  ghost predicate DumpReady(opt: Options, d: Db) {
    Good(opt.lim, d.levels) && d.prevMem <= d.curMem && DumpedTable(d) != map[]
  }

  lemma {:induction false} RotatedReady(opt: Options, d: Db, plain: Plain)
    requires DbGood(opt, d, plain) && d.used != 0
    ensures DumpReady(opt, Rotated(d))
  {
  }

  function AfterAction(opt: Options, d: Db, batch: Batch): Db
    requires IsComparator(opt.lim.cmp) && NoneAbove(d.levels)
  {
    var e := Append(d, batch);
    if e.used > opt.maxMem then Rotate(opt, e) else e
  }

  ghost predicate ActionReturns(opt: Options, d: Db, batch: Batch)
    requires IsComparator(opt.lim.cmp) && NoneAbove(d.levels)
  {
    Append(d, batch).used > opt.maxMem ==> RotationReturns(opt, Append(d, batch))
  }

  lemma {:induction false} ActionIsGood(opt: Options, d: Db, plain: Plain, batch: Batch)
    requires Usable(opt) && DbGood(opt, d, plain)
    ensures DbGood(opt, AfterAction(opt, d, batch), PlainBatch(plain, batch))
    ensures var e := Append(d, batch); e.used != 0 ==> DumpReady(opt, Rotated(e))
  {
    var e := Append(d, batch);
    AppendIsGood(opt, d, plain, batch);
    RotateIsGood(opt, e, PlainBatch(plain, batch));
    if e.used != 0 {
      RotatedReady(opt, e, PlainBatch(plain, batch));
    }
  }

  lemma {:induction false} OpenReady(opt: Options, d: Db, plain: Plain)
    requires Usable(opt) && OnDisk(opt, d, plain)
    ensures NoneAbove(d.levels) && d.levels.prevTable == d.levels.curTable && d.levels.prevView == d.levels.curView
    ensures DbGood(opt, Reopen(opt, d), plain)
    ensures var e := Loaded(opt, d);
            Good(opt.lim, e.levels) && (|e.imm| >= opt.maxImm ==> DumpedTable(e) != map[])
  {
    OpenIsGood(opt, d, plain);
    if |Loaded(opt, d).imm| >= opt.maxImm {
      DumpedIsNotEmpty(Loaded(opt, d));
    }
  }

  class LevelTable {
    const opt: Options
    var mem: MemTable
    var imMems: seq<MemTable>
    var wal: map<nat, seq<Batch>>
    var curMem: nat
    var prevMem: nat
    var usedMemory: nat
    var manifest: Manifest
    var files: map<nat, Table>
    var componentMap: map<nat, seq<nat>>
    var viewMap: map<nat, seq<Item>>

    ghost predicate Coherent()
      reads this`manifest, this`componentMap, this`viewMap
    {
      Recorded(manifest) && Cached(manifest, componentMap, viewMap)
    }

    ghost function Levels(): Levels
      reads this`manifest, this`files
    {
      LevelsOf(manifest, files)
    }

    ghost function State(): Db
      reads this
    {
      Db(mem, imMems, wal, curMem, prevMem, usedMemory, Levels())
    }

    /** Between operations. `plain` is what a plain map given the same writes holds. */
    ghost predicate Valid(plain: Plain)
      reads this
    {
      Usable(opt) && Coherent() && DbGood(opt, State(), plain)
    }

    lemma {:induction false} FreshIsValid()
      requires Usable(opt) && Coherent() && State() == EMPTY_DB
      ensures Valid(map[])
    {
      EmptyIsGood(opt);
    }

    /** A store over an empty directory. */
    constructor (opt: Options)
      requires Usable(opt)
      ensures this.opt == opt && Valid(map[]) && State() == EMPTY_DB
    {
      this.opt := opt;
      mem, imMems, wal, curMem, prevMem, usedMemory := map[], [], map[0 := []], 0, 0, 0;
      manifest, files := Manifest(0, map[], map[], 0, 0, 0, 0), map[];
      componentMap, viewMap := map[], map[];
      new;
      FreshIsValid();
    }

    // ---------- manifest access ----------

    method GetComponent(c: nat) returns (ids: seq<nat>)
      requires Coherent()
      modifies this`componentMap
      ensures Coherent() && ids == ViewIds(manifest, c)
    {
      if c in componentMap {
        return componentMap[c];
      }
      ids := if c in manifest.comps then manifest.comps[c] else [];
      componentMap := componentMap[c := ids];
    }

    method GetView(id: nat) returns (items: seq<Item>)
      requires Coherent() && id in manifest.views
      modifies this`viewMap
      ensures Coherent() && items == ItemsOf(manifest, id)
    {
      if id in viewMap {
        return viewMap[id];
      }
      items := manifest.views[id];
      viewMap := viewMap[id := items];
    }

    method GetTableCount(ids: seq<nat>) returns (count: nat)
      requires Coherent() && forall id :: id in ids ==> id in manifest.views
      modifies this`viewMap
      ensures Coherent() && count == TableCount(Listed(manifest, ids))
    {
      count := 0;
      for i := 0 to |ids|
        invariant Coherent() && count == TableCount(Listed(manifest, ids[..i]))
      {
        ListedSnoc(manifest, files, ids, i);
        var view := GetView(ids[i]);
        count := count + |view|;
      }
      assert ids[..|ids|] == ids;
    }

    /** Loads the tables of one view behind those loaded so far. */
    method LoadTables(loaded: seq<Table>, view: seq<Item>) returns (tables: seq<Table>)
      ensures Fold(tables) == Fold(loaded) + ItemsRun(files, view)
    {
      tables := loaded;
      assert view[..0] == [];
      for j := 0 to |view|
        invariant Fold(tables) == Fold(loaded) + ItemsRun(files, view[..j])
      {
        RunSnoc(files, view, j);
        FoldSnoc(tables, Load(files, view[j].id));
        Associate(Fold(loaded), ItemsRun(files, view[..j]), Load(files, view[j].id));
        tables := tables + [Load(files, view[j].id)];
      }
      assert view[..|view|] == view;
    }

    method LoadViews(ids: seq<nat>) returns (tables: seq<Table>)
      requires Coherent() && forall id :: id in ids ==> id in manifest.views
      modifies this`viewMap
      ensures Coherent() && Fold(tables) == ViewsRun(files, Listed(manifest, ids))
    {
      tables := [];
      for i := 0 to |ids|
        invariant Coherent() && Fold(tables) == ViewsRun(files, Listed(manifest, ids[..i]))
      {
        ListedSnoc(manifest, files, ids, i);
        var view := GetView(ids[i]);
        tables := LoadTables(tables, view);
      }
      assert ids[..|ids|] == ids;
    }

    /** Whether the builder is told that the tables are in order. */
    method IsOrdered(ids: seq<nat>, append: Table) returns (ordered: bool)
      requires IsComparator(opt.lim.cmp) && ids != [] && append != map[]
      requires Coherent() && forall id :: id in ids ==> id in manifest.views
      modifies this`viewMap
      ensures Coherent() && ordered == Ordered(opt.lim, Listed(manifest, ids), append)
    {
      ordered := |ids| == 1;
      if ordered {
        var view := GetView(ids[|ids| - 1]);
        if !IsNotOverlapped(opt.lim.cmp, view, FirstKey(opt.lim.cmp, append), LastKey(opt.lim.cmp, append)) {
          ordered := false;
        }
      }
    }

    /** Merges the tables of the views, oldest first, with `append` behind them. What is given back is what the builder
        promises; told that the tables are in order, it does not return. */
    method MergeTables(ids: seq<nat>, newTableId: nat, eraseDeleted: bool, append: Table)
        returns (table: Table, ordered: bool)
      requires IsComparator(opt.lim.cmp) && ids != [] && append != map[]
      requires Coherent() && forall id :: id in ids ==> id in manifest.views
      modifies this`viewMap, this`files
      ensures Coherent()
      ensures table == Merged(old(files), Listed(manifest, ids), append, eraseDeleted)
      ensures files == old(files)[newTableId := table]
      ensures ordered == Ordered(opt.lim, Listed(manifest, ids), append)
    {
      var mergeTables := LoadViews(ids);
      ordered := IsOrdered(ids, append);
      FoldSnoc(mergeTables, append);
      mergeTables := mergeTables + [append];
      table := Fold(mergeTables);
      if eraseDeleted {
        table := Strip(table);
      }
      files := files[newTableId := table];
    }

    // ---------- placing a table ----------

    method OpenNewView(c: nat, component: seq<nat>, item: Item)
      requires Coherent() && component == ViewIds(manifest, c)
      modifies this`manifest, this`componentMap
      ensures Coherent() && Levels() == OpenView(old(Levels()), c, item)
    {
      ghost var m := manifest;
      var viewId := manifest.curView;
      manifest := manifest.(curView := viewId + 1);
      manifest := manifest.(prevTable := manifest.curTable);
      manifest := manifest.(views := manifest.views[viewId := [item]]);
      componentMap := componentMap[c := component + [viewId]];
      manifest := manifest.(comps := manifest.comps[c := component + [viewId]]);
      manifest := manifest.(prevView := viewId + 1);
      RecordOpens(opt.lim, m, files, c, item, manifest);
    }

    /** Puts the item into the newest view of the level unless it overlaps. */
    method TryPut(viewId: nat, item: Item) returns (done: bool)
      requires Coherent() && viewId in manifest.views
      modifies this`manifest, this`viewMap
      ensures Cached(manifest, componentMap, viewMap)
      ensures done == IsNotOverlapped(opt.lim.cmp, ItemsOf(old(manifest), viewId), item.begin, item.end)
      ensures manifest == if done then WithItem(opt.lim, old(manifest), viewId, item) else old(manifest)
    {
      var view := GetView(viewId);
      if !IsNotOverlapped(opt.lim.cmp, view, item.begin, item.end) {
        return false;
      }
      view := Insert(opt.lim.cmp, view, item.begin, item.end, item.id);
      viewMap := viewMap[viewId := view];
      manifest := manifest.(prevTable := manifest.curTable);
      manifest := manifest.(views := manifest.views[viewId := view]);
      return true;
    }

    /** Deletes the table files of one view. */
    method DeleteTables(view: seq<Item>)
      modifies this`files
      ensures files == old(files) - ItemIds(view)
    {
      assert view[..0] == [];
      for j := 0 to |view|
        invariant files == old(files) - ItemIds(view[..j])
      {
        RunSnoc(files, view, j);
        files := files - {view[j].id};
      }
      assert view[..|view|] == view;
    }

    /** Deletes a view that no level lists any more, and its table files. */
    method DeleteView(id: nat)
      requires Coherent() && id in manifest.views
      requires forall c :: c in manifest.comps ==> id !in manifest.comps[c]
      modifies this`manifest, this`viewMap, this`files
      ensures Coherent()
      ensures manifest == old(manifest).(views := old(manifest).views - {id})
      ensures files == old(files) - ItemIds(ItemsOf(old(manifest), id))
    {
      var view := GetView(id);
      DeleteTables(view);
      manifest := manifest.(views := manifest.views - {id});
    }

    method DeleteViews(oldViews: seq<nat>)
      requires Coherent() && (forall id :: id in oldViews ==> id in manifest.views)
      requires forall c, id :: c in manifest.comps && id in manifest.comps[c] ==> id !in oldViews
      requires forall i, j :: 0 <= i < j < |oldViews| ==> oldViews[i] != oldViews[j]
      modifies this`manifest, this`viewMap, this`files
      ensures Coherent()
      ensures manifest == old(manifest).(views := old(manifest).views - IdSet(oldViews))
      ensures files == old(files) - Ids(Listed(old(manifest), oldViews))
    {
      ghost var m, f := manifest, files;
      assert oldViews[..0] == [] && Listed(m, []) == [];
      for i := 0 to |oldViews|
        invariant Coherent()
        invariant manifest == m.(views := m.views - IdSet(oldViews[..i]))
        invariant files == f - Ids(Listed(m, oldViews[..i]))
      {
        assert oldViews[i] in oldViews;
        DeleteView(oldViews[i]);
        DeletedSoFar(m, f, oldViews, i);
      }
      assert oldViews[..|oldViews|] == oldViews;
    }

    /** Empties a merged level and deletes its views and tables. */
    method ClearLevel(c: nat, oldViews: seq<nat>, tableId: nat)
      requires Coherent() && oldViews == ViewIds(manifest, c)
      requires forall i, j :: 0 <= i < j < |oldViews| ==> oldViews[i] != oldViews[j]
      requires forall d: nat, id :: d != c && id in ViewIds(manifest, d) ==> id !in oldViews
      modifies this`manifest, this`componentMap, this`viewMap, this`files
      ensures Coherent()
      ensures var m := old(manifest);
              manifest == m.(comps := m.comps[c := []], views := m.views - IdSet(oldViews),
                             maxLevel := if c != 0 && m.maxLevel == c then c - 1 else m.maxLevel)
      ensures files == old(files) - Ids(Listed(old(manifest), oldViews)) - {tableId}
    {
      ghost var m := manifest;
      forall id | id in oldViews ensures id in manifest.views {
        assert c in manifest.comps;
      }
      componentMap := componentMap[c := []];
      manifest := manifest.(comps := manifest.comps[c := []]);
      forall d, id | d in manifest.comps && id in manifest.comps[d] ensures id !in oldViews {
        assert d != c && id in ViewIds(m, d);
      }
      ListedFrame(m, manifest, oldViews);
      DeleteViews(oldViews);
      files := files - {tableId};
      if c != 0 && manifest.maxLevel == c {
        manifest := manifest.(maxLevel := c - 1);
      }
    }

    /** Writes the merged table under a fresh id. */
    method BeginMerge(component: seq<nat>, table: Table, c: nat)
        returns (newTable: Table, newTableId: nat, ordered: bool)
      requires Coherent() && component == ViewIds(manifest, c)
      requires IsComparator(opt.lim.cmp) && table != map[] && Comp(Levels(), c) != []
      modifies this`manifest, this`files, this`viewMap
      ensures Coherent() && Levels() == BeforeDescent(old(Levels()), c, table)
      ensures newTableId == old(manifest).curTable && newTable == Load(files, newTableId)
      ensures ordered == Ordered(opt.lim, Comp(old(Levels()), c), table)
    {
      ghost var m := manifest;
      CompIsListed(manifest, files, c);
      newTableId := manifest.curTable;
      manifest := manifest.(curTable := newTableId + 1);
      forall id | id in component ensures id in manifest.views {
        assert c in manifest.comps;
      }
      ListedFrame(m, manifest, component);
      newTable, ordered := MergeTables(component, newTableId, c == manifest.maxLevel && |component| == 1, table);
      CountersOnly(m, manifest, files);
    }

    /** The level and the table are merged and handed to the next level. */
    method MergeIntoNext(component: seq<nat>, table: Table, tableId: nat, c: nat) returns (returned: bool)
      requires Coherent() && component == ViewIds(manifest, c)
      requires IsComparator(opt.lim.cmp) && Good(opt.lim, Levels()) && Incoming(Levels(), table, tableId)
              && c <= manifest.maxLevel
      requires table != map[] && Comp(Levels(), c) != [] && MustMerge(opt.lim, Comp(Levels(), c), table)
      modifies this`manifest, this`files, this`componentMap, this`viewMap
      ensures Coherent() && Levels() == AddToLevel(opt.lim, old(Levels()), table, tableId, c)
      ensures returned == Returns(opt.lim, old(Levels()), table, tableId, c)
      decreases if c <= manifest.maxLevel then manifest.maxLevel + 1 - c else 0, 0
    {
      ghost var s, m := Levels(), manifest;
      DescentIsGood(opt.lim, s, c, table);
      DescentComps(s, c, table);
      AddMerges(opt.lim, s, table, tableId, c);
      MergeReturns(opt.lim, s, table, tableId, c);
      var newTable, newTableId, ordered := BeginMerge(component, table, c);
      AddCorrect(opt.lim, Levels(), newTable, newTableId, c + 1);
      var deeper := AddToComponent(newTable, newTableId, c + 1);
      returned := !ordered && deeper;
      assert Comp(Levels(), c) == Comp(s, c);
      SameListing(m, manifest, old(files), files, c);
      ghost var n, f := manifest, files;
      ListedOnce(opt.lim, n, f);
      CompIsListed(n, f, c);
      ClearLevel(c, component, tableId);
      RecordClears(n, f, c, component, tableId, manifest, files);
    }

    /** Records a deeper level, if `c` is one. */
    method RaiseLevel(c: nat)
      requires Coherent()
      modifies this`manifest
      ensures Coherent() && Levels() == Raised(old(Levels()), c)
      ensures forall d: nat :: ViewIds(manifest, d) == ViewIds(old(manifest), d)
    {
      ghost var m := manifest;
      if manifest.maxLevel < c {
        manifest := manifest.(maxLevel := c);
      }
      CountersOnly(m, manifest, files);
    }

    /** An empty table, left by a merge that erased everything, is not placed. */
    method AddEmpty(component: seq<nat>, tableId: nat, c: nat)
      requires Coherent() && component == ViewIds(manifest, c)
      requires IsComparator(opt.lim.cmp) && NoneAbove(Levels()) && c != 0
      modifies this`manifest
      ensures Coherent() && NoneAbove(old(Levels()))
              && Levels() == AddToLevel(opt.lim, old(Levels()), map[], tableId, c)
    {
      ghost var m := manifest;
      CompIsListed(manifest, files, c);
      var level := manifest.maxLevel;
      manifest := manifest.(prevTable := manifest.curTable);
      if level == c && component == [] {
        manifest := manifest.(maxLevel := level - 1);
      }
      CountersOnly(m, manifest, files);
    }

    /** The first table of an empty level. */
    method AddFirst(table: Table, tableId: nat, c: nat)
      requires Coherent() && ViewIds(manifest, c) == []
      requires IsComparator(opt.lim.cmp) && NoneAbove(Levels()) && table != map[]
      modifies this`manifest, this`componentMap
      ensures Coherent() && NoneAbove(old(Levels()))
              && Levels() == AddToLevel(opt.lim, old(Levels()), table, tableId, c)
    {
      CompIsListed(manifest, files, c);
      AddPlaces(opt.lim, Levels(), table, tableId, c);
      RaiseLevel(c);
      OpenNewView(c, [], Item(FirstKey(opt.lim.cmp, table), LastKey(opt.lim.cmp, table), tableId));
    }

    /** `returned` tells whether the program gets out of the call; if not, the rest is what the builder promises. */
    method AddToComponent(table: Table, tableId: nat, c: nat) returns (returned: bool)
      requires Coherent()
      requires IsComparator(opt.lim.cmp) && Good(opt.lim, Levels()) && Incoming(Levels(), table, tableId)
              && (table == map[] ==> c != 0)
      modifies this`manifest, this`files, this`componentMap, this`viewMap
      ensures Coherent() && Levels() == AddToLevel(opt.lim, old(Levels()), table, tableId, c)
      ensures returned == Returns(opt.lim, old(Levels()), table, tableId, c)
      decreases if c <= manifest.maxLevel then manifest.maxLevel + 1 - c else 0, 3
    {
      var component := GetComponent(c);
      returned := true;
      CompIsListed(manifest, files, c);
      if table == map[] {
        PlaceReturns(opt.lim, Levels(), table, tableId, c);
        AddEmpty(component, tableId, c);
      } else if component == [] {
        PlaceReturns(opt.lim, Levels(), table, tableId, c);
        AddFirst(table, tableId, c);
      } else {
        returned := AddToOccupied(component, table, tableId, c);
      }
    }

    method AddToOccupied(component: seq<nat>, table: Table, tableId: nat, c: nat) returns (returned: bool)
      requires Coherent() && component == ViewIds(manifest, c) && component != [] && table != map[]
      requires IsComparator(opt.lim.cmp) && Good(opt.lim, Levels()) && Incoming(Levels(), table, tableId)
      modifies this`manifest, this`files, this`componentMap, this`viewMap
      ensures Coherent() && Levels() == AddToLevel(opt.lim, old(Levels()), table, tableId, c)
      ensures returned == Returns(opt.lim, old(Levels()), table, tableId, c)
      decreases if c <= manifest.maxLevel then manifest.maxLevel + 1 - c else 0, 2
    {
      CompIsListed(manifest, files, c);
      var tableNum := CountTables(component, c);
      if opt.lim.maxTable != 0 && tableNum == opt.lim.maxTable {
        returned := MergeIntoNext(component, table, tableId, c);
        return;
      }
      returned := Place(component, table, tableId, c);
    }

    method CountTables(component: seq<nat>, c: nat) returns (count: nat)
      requires Coherent() && component == ViewIds(manifest, c)
      modifies this`viewMap
      ensures Coherent() && count == TableCount(Comp(Levels(), c))
    {
      CompIsListed(manifest, files, c);
      forall id | id in component ensures id in manifest.views {
        assert c in manifest.comps;
      }
      count := GetTableCount(component);
    }

    /** Puts the table into the newest view of the level, if it fits. */
    method PutIntoNewest(component: seq<nat>, table: Table, item: Item, c: nat) returns (done: bool)
      requires Coherent() && component == ViewIds(manifest, c) && component != [] && table != map[]
      requires IsComparator(opt.lim.cmp) && Good(opt.lim, Levels())
      requires item.begin == FirstKey(opt.lim.cmp, table) && item.end == LastKey(opt.lim.cmp, table)
      modifies this`manifest, this`viewMap
      ensures Coherent() && Comp(old(Levels()), c) != []
      ensures done <==> Fits(opt.lim, Comp(old(Levels()), c), table)
      ensures done ==> Levels() == ExtendView(opt.lim, old(Levels()), c, item)
      ensures !done ==> manifest == old(manifest)
    {
      CompIsListed(manifest, files, c);
      assert c in manifest.comps && component[|component| - 1] in manifest.comps[c];
      ListedOnce(opt.lim, manifest, files);
      RecordExtends(opt.lim, manifest, files, c, item, WithItem(opt.lim, manifest, component[|component| - 1], item));
      done := TryPut(component[|component| - 1], item);
    }

    /** The table goes into the newest view, into a new view, or down with the whole level. */
    method Place(component: seq<nat>, table: Table, tableId: nat, c: nat) returns (returned: bool)
      requires Coherent() && component == ViewIds(manifest, c) && component != [] && table != map[]
              && c <= manifest.maxLevel
      requires IsComparator(opt.lim.cmp) && Good(opt.lim, Levels()) && Incoming(Levels(), table, tableId)
      requires opt.lim.maxTable == 0 || TableCount(Comp(Levels(), c)) != opt.lim.maxTable
      modifies this`manifest, this`files, this`componentMap, this`viewMap
      ensures Coherent() && Levels() == AddToLevel(opt.lim, old(Levels()), table, tableId, c)
      ensures returned == Returns(opt.lim, old(Levels()), table, tableId, c)
      decreases if c <= manifest.maxLevel then manifest.maxLevel + 1 - c else 0, 1
    {
      ghost var s := Levels();
      CompIsListed(manifest, files, c);
      PlaceOutcome(opt.lim, s, table, tableId, c);
      var item := Item(FirstKey(opt.lim.cmp, table), LastKey(opt.lim.cmp, table), tableId);
      var done := PutIntoNewest(component, table, item, c);
      if done {
        PlaceReturns(opt.lim, s, table, tableId, c);
        return true;
      }
      assert Levels() == s;
      if opt.lim.maxView != 0 && |component| == opt.lim.maxView {
        returned := MergeIntoNext(component, table, tableId, c);
      } else {
        PlaceReturns(opt.lim, s, table, tableId, c);
        OpenNewView(c, component, item);
        returned := true;
      }
    }

    // ---------- dumping, rotating, writing ----------

    /** The queue is walked from the newest table; a key already present is not replaced. */
    method CollectImmutables() returns (merged: MemTable)
      ensures merged == Overlay(imMems)
    {
      merged := map[];
      var i := |imMems|;
      assert imMems[..i] == imMems;
      while i > 0
        invariant i <= |imMems| && Overlay(imMems) == Overlay(imMems[..i]) + merged
      {
        i := i - 1;
        assert imMems[..i + 1][..i] == imMems[..i];
        OverAssociates(Overlay(imMems[..i]), imMems[i], merged);
        merged := imMems[i] + merged;
      }
    }

    /** Removes the logs of the tables that were dumped. */
    method RemoveLogs()
      requires prevMem <= curMem
      modifies this`wal, this`prevMem
      ensures prevMem == curMem && wal == WithoutLogs(old(wal), old(prevMem), curMem)
    {
      var beginKey := prevMem;
      while beginKey != curMem
        invariant prevMem == old(prevMem) <= beginKey <= curMem
        invariant wal == WithoutLogs(old(wal), prevMem, beginKey)
        decreases curMem - beginKey
      {
        wal := wal - {beginKey};
        beginKey := beginKey + 1;
      }
      prevMem := beginKey;
    }

    /** Writes a table file under a fresh id. */
    method WriteTable(table: Table) returns (tableId: nat)
      requires Coherent()
      modifies this`manifest, this`files
      ensures Coherent() && tableId == old(Levels()).curTable && Levels() == WithTable(old(Levels()), table)
    {
      ghost var m := manifest;
      tableId := manifest.curTable;
      manifest := manifest.(curTable := tableId + 1);
      files := files[tableId := table];
      CountersOnly(m, manifest, files);
    }

    method PlaceDumped(table: Table) returns (returned: bool)
      requires Usable(opt) && Coherent() && Good(opt.lim, Levels()) && table != map[]
      modifies this`manifest, this`files, this`componentMap, this`viewMap
      ensures Coherent() && NoneAbove(old(Levels()))
      ensures Levels() == WithDumped(opt, old(Levels()), table)
      ensures returned == PlacingReturns(opt, old(Levels()), table)
    {
      WithTableIsGood(opt, Levels(), table);
      var tableId := WriteTable(table);
      returned := AddToComponent(table, tableId, 0);
    }

    /** The queue as one table at level 0. */
    method PlaceQueue() returns (returned: bool)
      requires Usable(opt) && Coherent() && Good(opt.lim, Levels())
      requires DumpedTable(State()) != map[]
      modifies this`manifest, this`files, this`componentMap, this`viewMap
      ensures Coherent() && NoneAbove(old(Levels()))
      ensures Levels() == WithDumped(opt, old(Levels()), DumpedTable(old(State())))
      ensures returned == DumpReturns(opt, old(State()))
    {
      var collected := CollectImmutables();
      returned := PlaceDumped(ToDisk(collected));
    }

    method DropQueue()
      requires Coherent() && prevMem <= curMem
      modifies this`imMems, this`wal, this`prevMem
      ensures imMems == [] && prevMem == curMem && wal == WithoutLogs(old(wal), old(prevMem), curMem)
      ensures Coherent() && Levels() == old(Levels())
    {
      imMems := [];
      RemoveLogs();
    }

    method DummpImmutableTables() returns (returned: bool)
      requires Usable(opt) && Coherent() && Good(opt.lim, Levels()) && prevMem <= curMem
      requires DumpedTable(State()) != map[]
      modifies this`manifest, this`files, this`componentMap, this`viewMap, this`imMems, this`wal, this`prevMem
      ensures Coherent() && NoneAbove(old(Levels()))
      ensures imMems == [] && prevMem == curMem && wal == WithoutLogs(old(wal), old(prevMem), curMem)
      ensures Levels() == WithDumped(opt, old(Levels()), DumpedTable(old(State())))
      ensures returned == DumpReturns(opt, old(State()))
    {
      returned := PlaceQueue();
      DropQueue();
    }

    method NewMemory()
      requires usedMemory != 0
      modifies this`mem, this`imMems, this`usedMemory, this`wal, this`curMem
      ensures State() == Rotated(old(State()))
    {
      usedMemory := 0;
      var imMem := mem;
      mem := map[];
      wal := wal[curMem + 1 := []];
      curMem := curMem + 1;
      imMems := imMems + [imMem];
    }

    /** Dumps the queue if it is longer than it may be. */
    method DumpIf(full: bool) returns (returned: bool)
      requires Usable(opt) && Coherent() && Good(opt.lim, Levels()) && prevMem <= curMem
      requires full ==> DumpedTable(State()) != map[]
      modifies this`manifest, this`files, this`componentMap, this`viewMap, this`imMems, this`wal, this`prevMem
      ensures Coherent() && NoneAbove(old(Levels()))
      ensures State() == if full then Dump(opt, old(State())) else old(State())
      ensures returned == (full ==> DumpReturns(opt, old(State())))
    {
      returned := true;
      if full {
        returned := DummpImmutableTables();
      }
    }

    /** The full table joins the queue; a full queue is dumped. Done under the exclusive lock. */
    method RotateMemory() returns (returned: bool)
      requires Usable(opt) && Coherent() && NoneAbove(Levels())
      requires usedMemory != 0 ==> DumpReady(opt, Rotated(State()))
      modifies this
      ensures Coherent() && State() == Rotate(opt, old(State()))
      ensures returned == RotationReturns(opt, old(State()))
    {
      if usedMemory == 0 {
        return true;
      }
      NewMemory();
      returned := DumpIf(|imMems| == opt.maxImm);
    }

    method IncreaseSize(batch: Batch) returns (size: nat)
      ensures size == BatchSize(batch)
    {
      size := 0;
      for i := 0 to |batch|
        invariant size == BatchSize(batch[..i])
      {
        assert batch[..i + 1][..i] == batch[..i];
        size := size + |batch[i].key|;
        if batch[i].Put? {
          size := size + |batch[i].value|;
        }
      }
      assert batch[..|batch|] == batch;
    }

    method AppendBatch(batch: Batch)
      modifies this`wal, this`mem, this`usedMemory
      ensures State() == Append(old(State()), batch)
    {
      var increaseSize := IncreaseSize(batch);
      wal := wal[curMem := Log(wal, curMem) + [batch]];
      mem := ApplyBatch(false, mem, batch);
      usedMemory := usedMemory + increaseSize;
    }

    /** Logs and applies a batch; a memory table grown past its limit is rotated. */
    method Write(batch: Batch) returns (returned: bool)
      requires Usable(opt) && Coherent() && NoneAbove(Levels())
      requires var appended := Append(State(), batch); appended.used != 0 ==> DumpReady(opt, Rotated(appended))
      modifies this
      ensures Coherent() && NoneAbove(old(Levels())) && State() == AfterAction(opt, old(State()), batch)
      ensures var full := old(usedMemory) + BatchSize(batch) > opt.maxMem;
              var table := ApplyBatch(false, old(mem), batch);
              && mem == (if full then map[] else table)
              && usedMemory == (if full then 0 else old(usedMemory) + BatchSize(batch))
              && curMem == old(curMem) + (if full then 1 else 0)
              && imMems == (if !full then old(imMems) else if |old(imMems)| + 1 == opt.maxImm then []
                            else old(imMems) + [table])
      ensures returned == ActionReturns(opt, old(State()), batch)
    {
      AppendBatch(batch);
      returned := true;
      if usedMemory > opt.maxMem {
        returned := RotateMemory();
      }
    }

    /** `returned` is false exactly if an ordered merge keeps the program from getting out of the call. */
    method Action(batch: Batch, ghost plain: Plain) returns (returned: bool)
      requires Valid(plain)
      modifies this
      ensures Valid(PlainBatch(plain, batch))
      ensures NoneAbove(old(Levels())) && State() == AfterAction(opt, old(State()), batch)
      ensures var full := old(usedMemory) + BatchSize(batch) > opt.maxMem;
              var table := ApplyBatch(false, old(mem), batch);
              && mem == (if full then map[] else table)
              && usedMemory == (if full then 0 else old(usedMemory) + BatchSize(batch))
              && curMem == old(curMem) + (if full then 1 else 0)
              && imMems == (if !full then old(imMems) else if |old(imMems)| + 1 == opt.maxImm then []
                            else old(imMems) + [table])
      ensures returned == ActionReturns(opt, old(State()), batch)
    {
      ActionIsGood(opt, State(), plain, batch);
      returned := Write(batch);
    }

    method PutKey(key: Key, value: Bytes, ghost plain: Plain) returns (returned: bool)
      requires Valid(plain)
      modifies this
      ensures Valid(plain[key := value])
      ensures NoneAbove(old(Levels())) && returned == ActionReturns(opt, old(State()), [Put(key, value)])
    {
      OneWrite(plain, Put(key, value));
      returned := Action([Put(key, value)], plain);
    }

    method DeleteKey(key: Key, ghost plain: Plain) returns (returned: bool)
      requires Valid(plain)
      modifies this
      ensures Valid(plain - {key})
      ensures NoneAbove(old(Levels())) && returned == ActionReturns(opt, old(State()), [Delete(key)])
    {
      OneWrite(plain, Delete(key));
      returned := Action([Delete(key)], plain);
    }

    // ---------- reading ----------

    method FindInMemory(key: Key) returns (found: Option<Entry>)
      ensures found == MemoryGet(State(), key)
    {
      if key in mem {
        return Some(mem[key]);
      }
      var i := |imMems|;
      assert imMems[..i] == imMems;
      while i > 0
        invariant i <= |imMems| && ImmGet(imMems, key) == ImmGet(imMems[..i], key)
      {
        i := i - 1;
        assert imMems[..i + 1][..i] == imMems[..i];
        if key in imMems[i] {
          return Some(imMems[i][key]);
        }
      }
      return None;
    }

    /** The views of one level, newest first. */
    method FindInViews(ids: seq<nat>, key: Key) returns (found: Option<Bytes>)
      requires Coherent() && forall id :: id in ids ==> id in manifest.views
      modifies this`viewMap
      ensures Coherent() && found == ViewsGet(opt.lim.cmp, files, Listed(manifest, ids), key)
    {
      var i := |ids|;
      assert ids[..i] == ids;
      while i > 0
        invariant i <= |ids| && Coherent()
        invariant ViewsGet(opt.lim.cmp, files, Listed(manifest, ids), key)
                  == ViewsGet(opt.lim.cmp, files, Listed(manifest, ids[..i]), key)
      {
        i := i - 1;
        assert Listed(manifest, ids[..i + 1]) == Listed(manifest, ids[..i]) + [View(ids[i], ItemsOf(manifest, ids[i]))];
        var view := GetView(ids[i]);
        var id := FindId(opt.lim.cmp, view, key);
        if id.Some? && key in Load(files, id.value) {
          return Some(Load(files, id.value)[key]);
        }
      }
      return None;
    }

    method FindInLevels(key: Key) returns (found: Option<Bytes>)
      requires Coherent()
      modifies this`componentMap, this`viewMap
      ensures Coherent() && found == LevelsGet(opt.lim.cmp, Levels(), key, 0, LevelCount(Levels()))
    {
      var count := if manifest.maxLevel == MAX_UINT64 then 0 else manifest.maxLevel + 1;
      var i := 0;
      while i != count
        invariant i <= count && Coherent()
        invariant LevelsGet(opt.lim.cmp, Levels(), key, 0, count) == LevelsGet(opt.lim.cmp, Levels(), key, i, count)
        decreases count - i
      {
        var component := GetComponent(i);
        CompIsListed(manifest, files, i);
        forall id | id in component ensures id in manifest.views {
          assert i in manifest.comps;
        }
        found := FindInViews(component, key);
        if found.Some? {
          return found;
        }
        i := i + 1;
      }
      return None;
    }

    /** Answers what a plain map given the same writes holds, unless the value is empty and has left memory. */
    method TryGetKey(key: Key, ghost plain: Plain) returns (r: Option<Bytes>)
      requires Valid(plain) && manifest.curTable < MAX_UINT64
      modifies this`componentMap, this`viewMap
      ensures Valid(plain) && r == TryGet(opt, State(), key)
      ensures r == if key in Memory(State()) then Get(plain, key) else Present(Get(plain, key))
    {
      LookupAgrees(opt, State(), plain, key);
      var entry := FindInMemory(key);
      if entry.Some? {
        return if entry.value.Value? then Some(entry.value.value) else None;
      }
      var found := FindInLevels(key);
      if found == Some([]) {
        return None;
      }
      return found;
    }

    /** Tells existing, deleted and unknown keys apart; between operations, by the plain map and the tombstones left. */
    method Exist(key: Key, ghost plain: Plain) returns (r: ExistStatus)
      requires Coherent()
      modifies this`componentMap, this`viewMap
      ensures Coherent() && r == ExistKey(opt, State(), key)
      ensures old(Valid(plain)) && manifest.curTable < MAX_UINT64 ==> ExistAnswers(State(), plain, key, r)
    {
      if Valid(plain) && manifest.curTable < MAX_UINT64 {
        ExistAgrees(opt, State(), plain, key);
      }
      var entry := FindInMemory(key);
      if entry.Some? {
        return if entry.value.Value? then ExistStatus.Exist else Deleted;
      }
      var found := FindInLevels(key);
      if found == None {
        return NotExist;
      }
      return if found == Some([]) then Deleted else ExistStatus.Exist;
    }

    // ---------- opening ----------

    /** A table restored from its log. */
    method Restored(id: nat) returns (m: MemTable)
      ensures m == Replay(false, Log(wal, id))
    {
      var table := new MemoryTable(false, Log(wal, id));
      table.Restore();
      m := table.entries;
    }

    method InitImmutableTables()
      requires prevMem <= curMem
      modifies this`imMems
      ensures imMems == Replays(wal, prevMem, curMem - prevMem)
    {
      imMems := [];
      var beginKey := prevMem;
      while beginKey != curMem
        invariant prevMem <= beginKey <= curMem
        invariant imMems == Replays(wal, prevMem, beginKey - prevMem)
        decreases curMem - beginKey
      {
        var table := Restored(beginKey);
        imMems := imMems + [table];
        beginKey := beginKey + 1;
      }
    }

    /** Bytes held by the memory table, counted in key order. */
    method CountMemory() returns (n: nat)
      requires IsComparator(opt.lim.cmp)
      ensures n == MemSize(opt.lim.cmp, mem, mem.Keys)
    {
      n := 0;
      var keys := mem.Keys;
      while keys != {}
        invariant keys <= mem.Keys && n + MemSize(opt.lim.cmp, mem, keys) == MemSize(opt.lim.cmp, mem, mem.Keys)
        decreases |keys|
      {
        var k := LeastKey(opt.lim.cmp, keys);
        n := n + |k|;
        if mem[k].Value? {
          n := n + |mem[k].value|;
        }
        keys := keys - {k};
      }
    }

    /** Memory is rebuilt from the logs, whatever the fields held. */
    method LoadMemory()
      requires IsComparator(opt.lim.cmp) && prevMem <= curMem
      modifies this`mem, this`imMems, this`usedMemory
      ensures State() == Loaded(opt, old(State()))
    {
      mem := Restored(curMem);
      InitImmutableTables();
      usedMemory := CountMemory();
    }

    /** Opening over what is on disk. A store that stopped between rotation and dump finishes the dump here;
        afterwards the two collectors find no id unaccounted for. */
    method Open(ghost plain: Plain) returns (returned: bool)
      requires Usable(opt) && Recorded(manifest) && OnDisk(opt, State(), plain)
      modifies this
      ensures Valid(plain) && NoneAbove(old(Levels())) && State() == Reopen(opt, old(State()))
      ensures manifest.prevTable == manifest.curTable && manifest.prevView == manifest.curView
      ensures old(prevMem) <= old(curMem) && returned == StepReturns(opt, old(State()), ReopenStep)
      ensures |imMems| == if old(curMem - prevMem) >= opt.maxImm then 0 else old(curMem - prevMem)
      ensures curMem == old(curMem) && mem == Replay(false, Log(old(wal), curMem))
    {
      OpenReady(opt, State(), plain);
      returned := OpenFiles();
    }

    method OpenFiles() returns (returned: bool)
      requires Usable(opt) && Recorded(manifest) && prevMem <= curMem && Good(opt.lim, Levels())
      requires manifest.prevTable == manifest.curTable && manifest.prevView == manifest.curView
      requires var e := Loaded(opt, State()); |e.imm| >= opt.maxImm ==> DumpedTable(e) != map[]
      modifies this
      ensures Coherent() && NoneAbove(old(Levels())) && State() == Reopen(opt, old(State()))
      ensures returned == StepReturns(opt, old(State()), ReopenStep)
      ensures |imMems| == if old(curMem - prevMem) >= opt.maxImm then 0 else old(curMem - prevMem)
      ensures curMem == old(curMem) && mem == Replay(false, Log(old(wal), curMem))
    {
      componentMap, viewMap := map[], map[];
      LoadMemory();
      returned := DumpIf(|imMems| >= opt.maxImm);
    }
  }
}
