/** What a reader of the levels finds: level by level, newest view first. */
module LevelReader {
  import opened Buffers
  import opened LevelViews
  import opened LevelStore
  import opened LevelProofs

  function ViewsGet(cmp: Comparator, tables: map<nat, Table>, views: seq<View>, key: Key): Option<Bytes> {
    if views == [] then None
    else
      var found := FindId(cmp, views[|views| - 1].items, key);
      if found.Some? && key in Load(tables, found.value) then Some(Load(tables, found.value)[key])
      else ViewsGet(cmp, tables, views[..|views| - 1], key)
  }

  function LevelsGet(cmp: Comparator, s: Levels, key: Key, c: nat, count: nat): Option<Bytes>
    requires c <= count
    decreases count - c
  {
    if c == count then None
    else
      var found := ViewsGet(cmp, s.tables, Comp(s, c), key);
      if found.Some? then found else LevelsGet(cmp, s, key, c + 1, count)
  }

  /** The number of levels read: one more than the deepest level, in 64 bits. */
  function LevelCount(s: Levels): nat {
    if s.maxLevel == MAX_UINT64 then 0 else s.maxLevel + 1
  }

  /** An empty value found on disk is a deleted key. */
  function Present(found: Option<Bytes>): Option<Bytes> {
    if found == Some([]) then None else found
  }

  lemma {:induction false} ItemsRunUnique(tables: map<nat, Table>, items: seq<Item>, j: nat, key: Key)
    requires j < |items|
    requires forall i :: 0 <= i < |items| && i != j ==> key !in Load(tables, items[i].id)
    ensures Get(ItemsRun(tables, items), key) == Get(Load(tables, items[j].id), key)
  {
    var n := |items| - 1;
    if j < n {
      ItemsRunUnique(tables, items[..n], j, key);
    } else if key in ItemsRun(tables, items[..n]) {
      ItemsRunKeys(tables, items[..n], key);
    }
  }

  /** A key of a table lies in the interval of its item. */
  lemma {:induction false} KeyInInterval(cmp: Comparator, tables: map<nat, Table>, curTable: nat, x: Item, key: Key)
    requires GoodItem(cmp, tables, curTable, x) && key in Load(tables, x.id)
    ensures Contains(cmp, x, key)
  {
  }

  lemma {:induction false} ViewGetCorrect(cmp: Comparator, tables: map<nat, Table>, curTable: nat, v: View, key: Key)
    requires IsComparator(cmp) && GoodView(cmp, tables, curTable, v)
    ensures var found := FindId(cmp, v.items, key);
            Get(ItemsRun(tables, v.items), key) == if found.Some? then Get(Load(tables, found.value), key) else None
  {
    var found := FindId(cmp, v.items, key);
    FindIdExact(cmp, v.items, key);
    if found.Some? {
      var j :| 0 <= j < |v.items| && Contains(cmp, v.items[j], key);
      forall i | 0 <= i < |v.items| && i != j
        ensures key !in Load(tables, v.items[i].id)
      {
        if key in Load(tables, v.items[i].id) {
          KeyInInterval(cmp, tables, curTable, v.items[i], key);
          OneInterval(cmp, v.items, i, j, key);
        }
      }
      ItemsRunUnique(tables, v.items, j, key);
    } else if key in ItemsRun(tables, v.items) {
      ItemsRunKeys(tables, v.items, key);
      var x :| x in v.items && key in Load(tables, x.id);
      KeyInInterval(cmp, tables, curTable, x, key);
    }
  }

  lemma {:induction false} OneInterval(cmp: Comparator, items: seq<Item>, i: nat, j: nat, key: Key)
    requires IsComparator(cmp) && Sorted(cmp, items) && i < |items| && j < |items|
    requires Contains(cmp, items[i], key) && Contains(cmp, items[j], key)
    ensures i == j
  {
  }

  lemma {:induction false} ViewsGetCorrect(
      cmp: Comparator, tables: map<nat, Table>, curTable: nat, views: seq<View>, key: Key)
    requires IsComparator(cmp) && forall v :: v in views ==> GoodView(cmp, tables, curTable, v)
    ensures ViewsGet(cmp, tables, views, key) == Get(ViewsRun(tables, views), key)
  {
    if views != [] {
      ViewsGetCorrect(cmp, tables, curTable, views[..|views| - 1], key);
      ViewGetCorrect(cmp, tables, curTable, views[|views| - 1], key);
    }
  }

  /** Reading level by level finds exactly what the levels laid over one another hold. */
  lemma {:induction false} LevelsGetCorrect(lim: Limits, s: Levels, key: Key, c: nat)
    requires IsComparator(lim.cmp) && Good(lim, s) && c <= s.maxLevel + 1
    ensures LevelsGet(lim.cmp, s, key, c, s.maxLevel + 1) == Get(Content(s, c), key)
    decreases s.maxLevel + 1 - c
  {
    if c <= s.maxLevel {
      LevelsGetCorrect(lim, s, key, c + 1);
      assert GoodLevel(lim, s.tables, s.curTable, s.curView, Comp(s, c));
      ViewsGetCorrect(lim.cmp, s.tables, s.curTable, Comp(s, c), key);
    }
  }

  lemma {:induction false} StripGet(t: Table, key: Key)
    ensures Get(Strip(t), key) == Present(Get(t, key))
  {
  }

  /** The deepest level is bounded by the number of tables ever created. */
  lemma {:induction false} LevelBound(lim: Limits, s: Levels, table: Table, id: nat, c: nat)
    requires IsComparator(lim.cmp) && NoneAbove(s) && (table == map[] ==> c != 0)
    requires c <= s.curTable && s.maxLevel <= s.curTable
    ensures AddToLevel(lim, s, table, id, c).maxLevel <= AddToLevel(lim, s, table, id, c).curTable
    decreases if c <= s.maxLevel then s.maxLevel + 1 - c else 0
  {
    if table != map[] && Comp(s, c) != [] && MustMerge(lim, Comp(s, c), table) {
      assert Raised(s, c) == s;
      var b := BeforeDescent(s, c, table);
      DescentComps(s, c, table);
      LevelBound(lim, b, b.tables[s.curTable], s.curTable, c + 1);
    }
  }

  lemma {:induction false} FloorOfMerge(lim: Limits, s: Levels, table: Table, id: nat, c: nat, r: Levels)
    requires IsComparator(lim.cmp) && NoneAbove(s) && NoneAbove(BeforeDescent(s, c, table))
    requires table != map[] && Comp(s, c) != [] && MustMerge(lim, Comp(s, c), table)
    requires var b := BeforeDescent(s, c, table);
             r == AddToLevel(lim, b, Load(b.tables, s.curTable), s.curTable, c + 1)
    requires c <= r.maxLevel
    ensures c <= AddToLevel(lim, s, table, id, c).maxLevel + 1
  {
  }

  /** The deepest level never falls more than one short of the level a table was handed to. */
  lemma {:induction false} LevelFloor(lim: Limits, s: Levels, table: Table, id: nat, c: nat)
    requires IsComparator(lim.cmp) && NoneAbove(s) && (table == map[] ==> c != 0) && c <= s.maxLevel + 1
    ensures c <= AddToLevel(lim, s, table, id, c).maxLevel + 1
    decreases if c <= s.maxLevel then s.maxLevel + 1 - c else 0
  {
    if table == map[] {
    } else if Comp(s, c) != [] && MustMerge(lim, Comp(s, c), table) {
      var b := BeforeDescent(s, c, table);
      DescentComps(s, c, table);
      LevelFloor(lim, b, Load(b.tables, s.curTable), s.curTable, c + 1);
      FloorOfMerge(lim, s, table, id, c, AddToLevel(lim, b, Load(b.tables, s.curTable), s.curTable, c + 1));
    } else {
      AddPlaces(lim, s, table, id, c);
    }
  }

  /** Placing a table at level `c` changes every lookup from level `c` on to "the table, or what was found before",
      whatever cascade of merges it sets off and whatever tombstones these drop. */
  lemma {:induction false} AddChangesLookups(lim: Limits, s: Levels, table: Table, id: nat, c: nat, r: Levels, key: Key)
    requires IsComparator(lim.cmp) && Good(lim, s) && Incoming(s, table, id)
    requires c <= s.maxLevel + 1 && (table == map[] ==> c != 0)
    requires r == AddToLevel(lim, s, table, id, c)
    ensures c <= r.maxLevel + 1
    ensures Present(LevelsGet(lim.cmp, r, key, c, r.maxLevel + 1))
            == Present(if key in table then Some(table[key]) else LevelsGet(lim.cmp, s, key, c, s.maxLevel + 1))
  {
    LevelFloor(lim, s, table, id, c);
    AddCorrect(lim, s, table, id, c);
    OverReads(lim, s, table, c, r, key);
  }

  lemma {:induction false} OverReads(lim: Limits, s: Levels, table: Table, c: nat, r: Levels, key: Key)
    requires IsComparator(lim.cmp) && Good(lim, s) && Good(lim, r) && ReadsOver(s, table, c, r)
    requires c <= s.maxLevel + 1 && c <= r.maxLevel + 1
    ensures Present(LevelsGet(lim.cmp, r, key, c, r.maxLevel + 1))
            == Present(if key in table then Some(table[key]) else LevelsGet(lim.cmp, s, key, c, s.maxLevel + 1))
  {
    LevelsGetCorrect(lim, r, key, c);
    LevelsGetCorrect(lim, s, key, c);
    StripGet(Content(r, c), key);
    StripGet(Content(s, c) + table, key);
  }

  /** Adding an empty table to an empty store would make the level count wrap to zero; the memory tables that are
      dumped are never empty, so this state is not reached (see `LevelDb.RunIsGood`). */
  lemma {:induction false} EmptyTableWraps(lim: Limits, id: nat)
    requires IsComparator(lim.cmp)
    ensures NoneAbove(EMPTY_LEVELS) && LevelCount(AddToLevel(lim, EMPTY_LEVELS, map[], id, 0)) == 0
  {
    assert forall c: nat :: Comp(EMPTY_LEVELS, c) == [];
  }
}
