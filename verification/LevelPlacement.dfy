/** Where a table goes, and how deep the levels are. */
module LevelPlacements {
  import opened Buffers
  import opened LevelViews
  import opened LevelStore
  import opened LevelProofs

  // ---------- which of the ways ----------

  /** No interval of the newest view shares a key with those of the table. */
  ghost predicate Apart(lim: Limits, views: seq<View>, table: Table)
    requires IsComparator(lim.cmp) && table != map[] && views != []
  {
    forall x :: x in views[|views| - 1].items ==>
        Disjoint(lim.cmp, x, FirstKey(lim.cmp, table), LastKey(lim.cmp, table))
  }

  predicate AsManyTables(lim: Limits, views: seq<View>) {
    lim.maxTable != 0 && TableCount(views) == lim.maxTable
  }

  predicate AsManyViews(lim: Limits, views: seq<View>) {
    lim.maxView != 0 && |views| == lim.maxView
  }

  /** Level `c` has become `views`; other levels, files and ids of tables are as they were. */
  ghost predicate OnlyLevel(s: Levels, c: nat, views: seq<View>, r: Levels) {
    && (forall d: nat :: Comp(r, d) == if d == c then views else Comp(s, d))
    && r.tables == s.tables && r.curTable == s.curTable
  }

  /** The newest view has the item in addition. */
  ghost predicate NewestHas(views: seq<View>, item: Item, more: seq<View>)
    requires views != []
  {
    var n := |views| - 1;
    && |more| == n + 1 && more[..n] == views[..n] && more[n].id == views[n].id
    && multiset(more[n].items) == multiset(views[n].items) + multiset{item}
  }

  lemma {:induction false} FitsApart(lim: Limits, s: Levels, table: Table, c: nat)
    requires IsComparator(lim.cmp) && Good(lim, s) && table != map[] && Comp(s, c) != []
    ensures Fits(lim, Comp(s, c), table) <==> Apart(lim, Comp(s, c), table)
  {
    var views := Comp(s, c);
    var last := views[|views| - 1];
    assert GoodLevel(lim, s.tables, s.curTable, s.curView, views) && last in views;
    var begin, end := FirstKey(lim.cmp, table), LastKey(lim.cmp, table);
    assert Le(lim.cmp, begin, end);
    ItemsApart(lim.cmp, last.items, begin, end);
  }

  lemma {:induction false} ItemsApart(cmp: Comparator, items: seq<Item>, begin: Key, end: Key)
    requires IsComparator(cmp) && Sorted(cmp, items) && Le(cmp, begin, end)
    ensures IsNotOverlapped(cmp, items, begin, end) <==> forall x :: x in items ==> Disjoint(cmp, x, begin, end)
  {
    NotOverlappedExact(cmp, items, begin, end);
    assert forall j :: 0 <= j < |items| ==> items[j] in items;
  }

  /** A table goes into an empty level as its first view; into the newest view, if it is apart from everything
      there; into a view of its own, if there may be one more; and down with the whole level otherwise, and whenever
      the level has as many tables as allowed. */
  lemma {:induction false} WhereItGoes(lim: Limits, s: Levels, table: Table, id: nat, c: nat)
    requires IsComparator(lim.cmp) && Good(lim, s) && Incoming(s, table, id) && table != map[]
    ensures var r, views := AddToLevel(lim, s, table, id, c), Comp(s, c);
            var item := Item(FirstKey(lim.cmp, table), LastKey(lim.cmp, table), id);
            if views == [] then OnlyLevel(s, c, [View(s.curView, [item])], r)
            else if !AsManyTables(lim, views) && Apart(lim, views, table) then
              OnlyLevel(s, c, Comp(r, c), r) && NewestHas(views, item, Comp(r, c)) && r.curView == s.curView
            else if !AsManyTables(lim, views) && !AsManyViews(lim, views) then
              OnlyLevel(s, c, views + [View(s.curView, [item])], r)
            else
              Comp(r, c) == [] && r.curTable > s.curTable && id !in r.tables && Ids(views) !! r.tables.Keys
  {
    var views := Comp(s, c);
    if views != [] {
      FitsApart(lim, s, table, c);
      if MustMerge(lim, views, table) {
        MergedAway(lim, s, table, id, c);
        return;
      }
    }
    AddPlaces(lim, s, table, id, c);
    var item := Item(FirstKey(lim.cmp, table), LastKey(lim.cmp, table), id);
    if views != [] && Fits(lim, views, table) {
      ExtendedHas(lim, s, c, table, item);
    } else {
      OpenViewReplaces(Raised(s, c), c, item);
    }
  }

  lemma {:induction false} ExtendedHas(lim: Limits, s: Levels, c: nat, table: Table, item: Item)
    requires IsComparator(lim.cmp) && Good(lim, s) && Comp(s, c) != []
    requires table != map[] && Fits(lim, Comp(s, c), table)
    requires item.begin == FirstKey(lim.cmp, table) && item.end == LastKey(lim.cmp, table)
    ensures var r := ExtendView(lim, Raised(s, c), c, item);
            && OnlyLevel(s, c, Comp(r, c), r) && NewestHas(Comp(s, c), item, Comp(r, c)) && r.curView == s.curView
  {
    var views := Comp(s, c);
    var last := views[|views| - 1];
    assert GoodLevel(lim, s.tables, s.curTable, s.curView, views) && last in views;
    assert Le(lim.cmp, item.begin, item.end);
    InsertKeepsSorted(lim.cmp, last.items, item.begin, item.end, item.id);
    ExtendViewReplaces(lim, Raised(s, c), c, item);
  }

  /** The merged tables are deleted, and the level is empty. */
  lemma {:induction false} MergedAway(lim: Limits, s: Levels, table: Table, id: nat, c: nat)
    requires IsComparator(lim.cmp) && Good(lim, s) && Incoming(s, table, id) && table != map[]
    requires Comp(s, c) != [] && MustMerge(lim, Comp(s, c), table)
    ensures var r := AddToLevel(lim, s, table, id, c);
            Comp(r, c) == [] && r.curTable > s.curTable && id !in r.tables && Ids(Comp(s, c)) !! r.tables.Keys
  {
    assert Raised(s, c) == s;
    DescentIsGood(lim, s, c, table);
    AddMerges(lim, s, table, id, c);
    var b := BeforeDescent(s, c, table);
    AddCorrect(lim, b, Load(b.tables, s.curTable), s.curTable, c + 1);
  }

  // ---------- how deep ----------

  /** The deepest level on record is in use, unless it is the first one. */
  predicate Tight(s: Levels) {
    s.maxLevel == 0 || Comp(s, s.maxLevel) != []
  }

  /** From level `c` on: the deepest level is in use, or the record ends before. */
  predicate TightFrom(c: nat, r: Levels) {
    (r.maxLevel >= c && Comp(r, r.maxLevel) != []) || r.maxLevel == if c == 0 then 0 else c - 1
  }

  /** The same before the placing: a record that ends before level `c` tells nothing about it. */
  predicate TightBefore(c: nat, s: Levels) {
    s.maxLevel < c || s.maxLevel == 0 || Comp(s, s.maxLevel) != []
  }

  lemma {:induction false} StaysTight(lim: Limits, s: Levels, table: Table, id: nat, c: nat, r: Levels)
    requires IsComparator(lim.cmp) && NoneAbove(s)
    requires TightBefore(c, s) && (table == map[] ==> c > 0 && s.maxLevel == c - 1)
    requires r == AddToLevel(lim, s, table, id, c)
    ensures TightFrom(c, r)
    decreases if c <= s.maxLevel then s.maxLevel + 1 - c else 0
  {
    if table == map[] {
      NothingTight(lim, s, id, c);
    } else if Comp(s, c) == [] || !MustMerge(lim, Comp(s, c), table) {
      PlacedTight(lim, s, table, id, c);
    } else {
      var b := BeforeDescent(s, c, table);
      DescendedTight(s, c, table);
      var merged := Load(b.tables, s.curTable);
      var below := AddToLevel(lim, b, merged, s.curTable, c + 1);
      StaysTight(lim, b, merged, s.curTable, c + 1, below);
      MergedTight(lim, s, table, id, c, below, r);
    }
  }

  lemma {:induction false} MergedTight(
      lim: Limits, s: Levels, table: Table, id: nat, c: nat, below: Levels, r: Levels)
    requires IsComparator(lim.cmp) && NoneAbove(s) && NoneAbove(BeforeDescent(s, c, table))
    requires table != map[] && Comp(s, c) != [] && MustMerge(lim, Comp(s, c), table)
    requires var b := BeforeDescent(s, c, table);
             below == AddToLevel(lim, b, Load(b.tables, s.curTable), s.curTable, c + 1)
    requires TightFrom(c + 1, below) && r == AddToLevel(lim, s, table, id, c)
    ensures TightFrom(c, r)
  {
    AddMerges(lim, s, table, id, c);
    ClearedTight(below, c, Comp(s, c), id);
  }

  lemma {:induction false} PlacedTight(lim: Limits, s: Levels, table: Table, id: nat, c: nat)
    requires IsComparator(lim.cmp) && NoneAbove(s) && TightBefore(c, s) && table != map[]
    requires Comp(s, c) == [] || !MustMerge(lim, Comp(s, c), table)
    ensures TightFrom(c, AddToLevel(lim, s, table, id, c))
  {
    AddPlaces(lim, s, table, id, c);
    var item := Item(FirstKey(lim.cmp, table), LastKey(lim.cmp, table), id);
    PlacedDeep(lim, s, c, item, AddToLevel(lim, s, table, id, c));
  }

  lemma {:induction false} NothingTight(lim: Limits, s: Levels, id: nat, c: nat)
    requires IsComparator(lim.cmp) && NoneAbove(s) && c > 0 && s.maxLevel == c - 1
    ensures TightFrom(c, AddToLevel(lim, s, map[], id, c))
  {
    assert forall d: nat :: Comp(AddToLevel(lim, s, map[], id, c), d) == Comp(s, d);
  }

  lemma {:induction false} DescendedTight(s: Levels, c: nat, table: Table)
    requires NoneAbove(s) && Comp(s, c) != [] && table != map[] && TightBefore(c, s)
    ensures var b := BeforeDescent(s, c, table);
            && c <= s.maxLevel == b.maxLevel && NoneAbove(b) && TightBefore(c + 1, b)
            && (Load(b.tables, s.curTable) == map[] ==> b.maxLevel == c)
  {
    DescentComps(s, c, table);
    if c < s.maxLevel {
      NotErased(s, c, table);
    }
  }

  lemma {:induction false} PlacedDeep(lim: Limits, s: Levels, c: nat, item: Item, r: Levels)
    requires r == OpenView(Raised(s, c), c, item) || (Comp(s, c) != [] && r == ExtendView(lim, Raised(s, c), c, item))
    requires s.maxLevel <= c || Comp(s, s.maxLevel) != []
    ensures r.maxLevel >= c && Comp(r, r.maxLevel) != []
  {
    OpenViewReplaces(Raised(s, c), c, item);
    if Comp(s, c) != [] {
      ExtendViewReplaces(lim, Raised(s, c), c, item);
    }
  }

  lemma {:induction false} NotErased(s: Levels, c: nat, table: Table)
    requires c < s.maxLevel && table != map[]
    ensures Load(BeforeDescent(s, c, table).tables, s.curTable) != map[]
  {
    var k :| k in table.Keys;
    assert k in ViewsRun(s.tables, Comp(s, c)) + table;
  }

  lemma {:induction false} ClearedTight(r: Levels, c: nat, gone: seq<View>, id: nat)
    requires TightFrom(c + 1, r)
    ensures TightFrom(c, Cleared(r, c, gone, id))
  {
    ClearedComps(r, c, gone, id);
  }

  /** So the deepest level on record stays in use, or is the first one, whatever is placed at the top. */
  lemma {:induction false} DeepestInUse(lim: Limits, s: Levels, table: Table, id: nat)
    requires IsComparator(lim.cmp) && NoneAbove(s) && table != map[] && Tight(s)
    ensures Tight(AddToLevel(lim, s, table, id, 0))
  {
    StaysTight(lim, s, table, id, 0, AddToLevel(lim, s, table, id, 0));
  }

  /** One placing writes one table for each level that it merges: at most `n`, if there are no more from `c` on. */
  lemma {:induction false} TablesCreated(lim: Limits, s: Levels, table: Table, id: nat, c: nat, n: nat)
    requires IsComparator(lim.cmp) && NoneAbove(s) && s.maxLevel < c + n && (table == map[] ==> c != 0)
    ensures s.curTable <= AddToLevel(lim, s, table, id, c).curTable <= s.curTable + n
    decreases n
  {
    if table != map[] && Comp(s, c) != [] && MustMerge(lim, Comp(s, c), table) {
      assert Raised(s, c) == s;
      var b := BeforeDescent(s, c, table);
      DescentComps(s, c, table);
      TablesCreated(lim, b, b.tables[s.curTable], s.curTable, c + 1, n - 1);
    }
  }
}
