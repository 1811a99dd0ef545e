/** What placing a table leaves on disk, tombstones included. */
module LevelTombstones {
  import opened Buffers
  import opened LevelViews
  import opened LevelStore
  import opened LevelProofs

  /** The cascade reaches the deepest level and merges its only view: then, and only then, tombstones are dropped. */
  predicate Erases(lim: Limits, s: Levels, table: Table, c: nat)
    requires IsComparator(lim.cmp) && NoneAbove(s)
    decreases if c <= s.maxLevel then s.maxLevel + 1 - c else 0
  {
    var views := Comp(s, c);
    if table == map[] || views == [] || !MustMerge(lim, views, table) then false
    else if c == s.maxLevel then |views| == 1
    else
      var before := BeforeDescent(s, c, table);
      assert forall d: nat :: Comp(before, d) == Comp(s, d);
      Erases(lim, before, before.tables[s.curTable], c + 1)
  }

  lemma {:induction false} NothingExactly(lim: Limits, s: Levels, id: nat, c: nat)
    requires IsComparator(lim.cmp) && Good(lim, s) && c != 0
    ensures Content(AddToLevel(lim, s, map[], id, c), c) == Content(s, c)
  {
    var r := AddToLevel(lim, s, map[], id, c);
    NothingPlaced(lim, s, id, c, r);
    SameContent(s, c, r);
  }

  lemma {:induction false} OpenedExactly(s: Levels, table: Table, item: Item, c: nat)
    requires c <= s.maxLevel && Load(s.tables, item.id) == table
    ensures Content(OpenView(s, c, item), c) == Content(s, c) + table
  {
    var v := View(s.curView, [item]);
    SingleItem(s.tables, item);
    Snoc(s.tables, Comp(s, c), v);
    OpenViewReplaces(s, c, item);
    ReplacedContent(s, c, Comp(s, c) + [v], OpenView(s, c, item), table);
  }

  lemma {:induction false} ExtendedExactly(lim: Limits, s: Levels, table: Table, item: Item, c: nat)
    requires IsComparator(lim.cmp) && Good(lim, s) && c <= s.maxLevel && Comp(s, c) != []
    requires GoodItem(lim.cmp, s.tables, s.curTable, item) && s.tables[item.id] == table
            && Le(lim.cmp, item.begin, item.end)
    requires IsNotOverlapped(lim.cmp, Comp(s, c)[|Comp(s, c)| - 1].items, item.begin, item.end)
    ensures Content(ExtendView(lim, s, c, item), c) == Content(s, c) + table
  {
    var views := Comp(s, c);
    var init, last := views[..|views| - 1], views[|views| - 1];
    assert views == init + [last] && last in views;
    assert GoodLevel(lim, s.tables, s.curTable, s.curView, views);
    LargerView(lim.cmp, s.tables, s.curTable, last, item);
    var v := last.(items := Insert(lim.cmp, last.items, item.begin, item.end, item.id));
    ExtendedRun(s.tables, init, last, v, table);
    ExtendViewReplaces(lim, s, c, item);
    ReplacedContent(s, c, init + [v], ExtendView(lim, s, c, item), table);
  }

  lemma {:induction false} PlacedExactly(lim: Limits, s: Levels, table: Table, id: nat, c: nat)
    requires IsComparator(lim.cmp) && Good(lim, s) && Incoming(s, table, id) && table != map[]
    requires Comp(s, c) == [] || !MustMerge(lim, Comp(s, c), table)
    ensures Content(AddToLevel(lim, s, table, id, c), c) == Content(s, c) + table
  {
    var raised := Raised(s, c);
    var item := Item(FirstKey(lim.cmp, table), LastKey(lim.cmp, table), id);
    RaisedIsGood(lim, s, c);
    RaisedIncoming(s, c, table, id);
    AddPlaces(lim, s, table, id, c);
    if Comp(s, c) != [] && Fits(lim, Comp(s, c), table) {
      GoodItemOf(lim, raised, table, id);
      ExtendedExactly(lim, raised, table, item, c);
    } else {
      OpenedExactly(raised, table, item, c);
    }
  }

  /** What lies below once the merged table has been placed in the next level. */
  lemma {:induction false} DescendedExactly(lim: Limits, s: Levels, table: Table, id: nat, c: nat)
    requires IsComparator(lim.cmp) && Good(lim, s) && Incoming(s, table, id) && table != map[]
    requires Comp(s, c) != [] && MustMerge(lim, Comp(s, c), table)
    ensures var b := BeforeDescent(s, c, table);
            && NoneAbove(b)
            && Content(AddToLevel(lim, s, table, id, c), c)
               == Content(AddToLevel(lim, b, Load(b.tables, s.curTable), s.curTable, c + 1), c + 1)
  {
    assert Raised(s, c) == s;
    var b := BeforeDescent(s, c, table);
    DescentIsGood(lim, s, c, table);
    DescentComps(s, c, table);
    AddMerges(lim, s, table, id, c);
    var r := AddToLevel(lim, b, Load(b.tables, s.curTable), s.curTable, c + 1);
    AddCorrect(lim, b, Load(b.tables, s.curTable), s.curTable, c + 1);
    AllIdsBounded(lim, s);
    ListedTables(lim, s, table, id);
    DeletedAreDead(s, c, b, id, r);
    ClearedIsGood(lim, r, c, Comp(s, c), id);
    ClearedContent(r, c, Comp(s, c), id);
  }

  /** What the merged table is, over what lies below the merged level. */
  lemma {:induction false} MergedExactly(s: Levels, c: nat, table: Table)
    requires c <= s.maxLevel
    ensures var merged := Load(BeforeDescent(s, c, table).tables, s.curTable);
            Content(s, c + 1) + merged
            == if c == s.maxLevel && |Comp(s, c)| == 1 then Strip(Content(s, c) + table) else Content(s, c) + table
  {
    var v := ViewsRun(s.tables, Comp(s, c));
    Associate(Content(s, c + 1), v, table);
    if c == s.maxLevel {
      assert Content(s, c + 1) == map[];
      OverNothing(v);
      OverNothing(v + table);
      OverNothing(Strip(v + table));
    }
  }

  lemma {:induction false} OverNothing(t: Table)
    ensures map[] + t == t
  {
  }

  lemma {:induction false} ErasesBelow(lim: Limits, s: Levels, table: Table, c: nat)
    requires IsComparator(lim.cmp) && NoneAbove(s) && NoneAbove(BeforeDescent(s, c, table))
    requires table != map[] && Comp(s, c) != [] && MustMerge(lim, Comp(s, c), table)
    ensures var b := BeforeDescent(s, c, table);
            && (c == s.maxLevel ==> !Erases(lim, b, Load(b.tables, s.curTable), c + 1))
            && (Erases(lim, s, table, c)
                <==> if c == s.maxLevel then |Comp(s, c)| == 1 else Erases(lim, b, Load(b.tables, s.curTable), c + 1))
  {
    DescentComps(s, c, table);
  }

  /** The table that is handed down, erased or not, against the one that came. */
  lemma {:induction false} MergeExactly(lim: Limits, s: Levels, table: Table, c: nat)
    requires IsComparator(lim.cmp) && Good(lim, s) && table != map[]
    requires Comp(s, c) != [] && MustMerge(lim, Comp(s, c), table)
    ensures var b := BeforeDescent(s, c, table);
            var below := Content(b, c + 1) + Load(b.tables, s.curTable);
            && NoneAbove(b)
            && (if Erases(lim, b, Load(b.tables, s.curTable), c + 1) then Strip(below) else below)
               == if Erases(lim, s, table, c) then Strip(Content(s, c) + table) else Content(s, c) + table
  {
    DescentIsGood(lim, s, c, table);
    ErasesBelow(lim, s, table, c);
    MergedExactly(s, c, table);
  }

  /** Exactly what a level and the deeper ones hold after a table has been placed: the table over what they held,
      without its tombstones if the cascade merged the only view of the deepest level, and with them otherwise. */
  lemma {:induction false} ContentExactly(lim: Limits, s: Levels, table: Table, id: nat, c: nat)
    requires IsComparator(lim.cmp) && Good(lim, s) && Incoming(s, table, id) && (table == map[] ==> c != 0)
    ensures Content(AddToLevel(lim, s, table, id, c), c)
            == if Erases(lim, s, table, c) then Strip(Content(s, c) + table) else Content(s, c) + table
    decreases if c <= s.maxLevel then s.maxLevel + 1 - c else 0
  {
    if table == map[] {
      NothingExactly(lim, s, id, c);
      assert Content(s, c) + table == Content(s, c);
    } else if Comp(s, c) == [] || !MustMerge(lim, Comp(s, c), table) {
      PlacedExactly(lim, s, table, id, c);
    } else {
      var b := BeforeDescent(s, c, table);
      DescendedExactly(lim, s, table, id, c);
      DescentIsGood(lim, s, c, table);
      ContentExactly(lim, b, Load(b.tables, s.curTable), s.curTable, c + 1);
      MergeExactly(lim, s, table, c);
    }
  }

  /** In particular for one forced merge at the deepest level. */
  lemma {:induction false} DeepestMerge(lim: Limits, s: Levels, table: Table, id: nat)
    requires IsComparator(lim.cmp) && Good(lim, s) && Incoming(s, table, id) && table != map[]
    requires Comp(s, s.maxLevel) != [] && MustMerge(lim, Comp(s, s.maxLevel), table)
    ensures var c, t := s.maxLevel, Content(s, s.maxLevel) + table;
            Content(AddToLevel(lim, s, table, id, c), c) == if |Comp(s, c)| == 1 then Strip(t) else t
  {
    ContentExactly(lim, s, table, id, s.maxLevel);
  }
}
