/** What `AddToLevel` does to the levels: contents, freshness of ids, capacities. */
module LevelProofs {
  import opened Buffers
  import opened LevelViews
  import opened LevelStore

  // ---------- frames ----------

  lemma {:induction false} ItemsRunFrame(t: map<nat, Table>, u: map<nat, Table>, items: seq<Item>)
    requires forall x :: x in items ==> Load(t, x.id) == Load(u, x.id)
    ensures ItemsRun(t, items) == ItemsRun(u, items)
  {
    if items != [] {
      ItemsRunFrame(t, u, items[..|items| - 1]);
    }
  }

  lemma {:induction false} ViewsRunFrame(t: map<nat, Table>, u: map<nat, Table>, views: seq<View>)
    requires forall id :: id in Ids(views) ==> Load(t, id) == Load(u, id)
    ensures ViewsRun(t, views) == ViewsRun(u, views)
  {
    if views != [] {
      ViewsRunFrame(t, u, views[..|views| - 1]);
      ItemsRunFrame(t, u, views[|views| - 1].items);
    }
  }

  lemma {:induction false} DeepFrame(s: Levels, r: Levels, c: nat, top: nat)
    requires forall d: nat :: c <= d <= top ==> Comp(s, d) == Comp(r, d)
    requires forall d: nat, id :: c <= d <= top && id in Ids(Comp(s, d)) ==> Load(s.tables, id) == Load(r.tables, id)
    ensures Deep(s, c, top) == Deep(r, c, top)
    decreases top + 1 - c
  {
    if c <= top {
      DeepFrame(s, r, c + 1, top);
      ViewsRunFrame(s.tables, r.tables, Comp(s, c));
    }
  }

  /** Empty levels on top of the deepest one add nothing. */
  lemma {:induction false} DeepTop(s: Levels, c: nat, top: nat)
    requires NoneAbove(s) && s.maxLevel <= top
    ensures Deep(s, c, top) == Content(s, c)
    decreases top + 1 - c
  {
    if c <= top {
      if c <= s.maxLevel {
        DeepTop(s, c + 1, top);
      } else {
        DeepTop(s, c + 1, top);
        assert Comp(s, c) == [];
      }
    }
  }

  lemma {:induction false} IdsContain(views: seq<View>)
    ensures forall v, x :: v in views && x in v.items ==> x.id in Ids(views)
  {
    if views != [] {
      IdsContain(views[..|views| - 1]);
      assert views == views[..|views| - 1] + [views[|views| - 1]];
    }
  }

  lemma {:induction false} IdsBounded(lim: Limits, tables: map<nat, Table>, curTable: nat, views: seq<View>)
    requires forall v :: v in views ==> GoodView(lim.cmp, tables, curTable, v)
    ensures forall id :: id in Ids(views) ==> id < curTable && id in tables
  {
    if views != [] {
      IdsBounded(lim, tables, curTable, views[..|views| - 1]);
      var last := views[|views| - 1];
      assert GoodView(lim.cmp, tables, curTable, last);
      assert forall x :: x in last.items ==> GoodItem(lim.cmp, tables, curTable, x);
    }
  }

  // ---------- a view takes one more table ----------

  lemma {:induction false} Associate(a: Table, b: Table, t: Table)
    ensures a + (b + t) == (a + b) + t
  {
  }

  lemma {:induction false} ItemsRunSnoc(tables: map<nat, Table>, a: seq<Item>, x: Item)
    ensures ItemsRun(tables, a + [x]) == ItemsRun(tables, a) + Load(tables, x.id)
  {
  }

  lemma {:induction false} ItemsRunConcat(tables: map<nat, Table>, a: seq<Item>, b: seq<Item>)
    ensures ItemsRun(tables, a + b) == ItemsRun(tables, a) + ItemsRun(tables, b)
  {
    if b == [] {
      assert a + b == a;
    } else {
      var init, x := b[..|b| - 1], b[|b| - 1];
      assert a + b == (a + init) + [x] && b == init + [x];
      ItemsRunConcat(tables, a, init);
      ItemsRunSnoc(tables, a + init, x);
      ItemsRunSnoc(tables, init, x);
      Associate(ItemsRun(tables, a), ItemsRun(tables, init), Load(tables, x.id));
    }
  }

  lemma {:induction false} ItemsRunKeys(tables: map<nat, Table>, items: seq<Item>, k: Key)
    requires k in ItemsRun(tables, items)
    ensures exists x :: x in items && k in Load(tables, x.id)
  {
    if k !in Load(tables, items[|items| - 1].id) {
      ItemsRunKeys(tables, items[..|items| - 1], k);
    }
  }

  lemma {:induction false} Commute(a: Table, t: Table, b: Table)
    requires b.Keys !! t.Keys
    ensures (a + t) + b == (a + b) + t
  {
  }

  lemma {:induction false} RunAround(tables: map<nat, Table>, a: seq<Item>, item: Item, b: seq<Item>)
    requires ItemsRun(tables, b).Keys !! Load(tables, item.id).Keys
    ensures ItemsRun(tables, a + [item] + b) == ItemsRun(tables, a + b) + Load(tables, item.id)
  {
    var ra, rb, t := ItemsRun(tables, a), ItemsRun(tables, b), Load(tables, item.id);
    calc {
      ItemsRun(tables, a + [item] + b);
      { ItemsRunConcat(tables, a + [item], b); }
      ItemsRun(tables, a + [item]) + rb;
      { ItemsRunSnoc(tables, a, item); }
      (ra + t) + rb;
      { Commute(ra, t, rb); }
      (ra + rb) + t;
      { ItemsRunConcat(tables, a, b); }
      ItemsRun(tables, a + b) + t;
    }
  }

  lemma {:induction false} RunApart(
      cmp: Comparator, tables: map<nat, Table>, curTable: nat, items: seq<Item>, item: Item)
    requires IsComparator(cmp) && GoodItem(cmp, tables, curTable, item)
    requires forall x :: x in items ==> GoodItem(cmp, tables, curTable, x) && Disjoint(cmp, x, item.begin, item.end)
    ensures ItemsRun(tables, items).Keys !! Load(tables, item.id).Keys
  {
    forall k | k in ItemsRun(tables, items)
      ensures k !in tables[item.id]
    {
      ItemsRunKeys(tables, items, k);
      var x :| x in items && k in Load(tables, x.id);
      NotInBoth(cmp, tables, curTable, item, x, k);
    }
  }

  lemma {:induction false} InsertRun(
      cmp: Comparator, tables: map<nat, Table>, curTable: nat, items: seq<Item>, item: Item)
    requires IsComparator(cmp) && Sorted(cmp, items) && GoodItem(cmp, tables, curTable, item)
    requires forall x :: x in items ==> GoodItem(cmp, tables, curTable, x)
    requires IsNotOverlapped(cmp, items, item.begin, item.end)
    ensures ItemsRun(tables, Insert(cmp, items, item.begin, item.end, item.id))
            == ItemsRun(tables, items) + Load(tables, item.id)
  {
    var i := Find(cmp, items, item.begin);
    FindSplits(cmp, items, item.begin);
    NotOverlappedExact(cmp, items, item.begin, item.end);
    assert items == items[..i] + items[i..];
    assert Insert(cmp, items, item.begin, item.end, item.id) == items[..i] + [item] + items[i..];
    RunApart(cmp, tables, curTable, items[i..], item);
    RunAround(tables, items[..i], item, items[i..]);
  }

  lemma {:induction false} NotInBoth(
      cmp: Comparator, tables: map<nat, Table>, curTable: nat, item: Item, x: Item, k: Key)
    requires IsComparator(cmp)
    requires GoodItem(cmp, tables, curTable, x) && GoodItem(cmp, tables, curTable, item)
    requires Disjoint(cmp, x, item.begin, item.end)
    requires k in tables[x.id]
    ensures k !in tables[item.id]
  {
  }

  // ---------- one table more in a level ----------

  function Raised(s: Levels, c: nat): Levels {
    s.(maxLevel := if s.maxLevel < c then c else s.maxLevel)
  }

  lemma {:induction false} RaisedIsGood(lim: Limits, s: Levels, c: nat)
    requires Good(lim, s)
    ensures Good(lim, Raised(s, c)) && Content(Raised(s, c), c) == Content(s, c)
    ensures forall d: nat :: Comp(Raised(s, c), d) == Comp(s, d)
  {
    var r := Raised(s, c);
    assert forall d: nat :: Comp(r, d) == Comp(s, d);
    forall d: nat ensures GoodLevel(lim, r.tables, r.curTable, r.curView, Comp(r, d)) {
      assert GoodLevel(lim, s.tables, s.curTable, s.curView, Comp(s, d));
    }
    forall d: nat, e: nat | d != e ensures SharesNothing(Comp(r, d), Comp(r, e)) {
      assert SharesNothing(Comp(s, d), Comp(s, e));
    }
    DeepTop(s, c, r.maxLevel);
    DeepFrame(s, r, c, r.maxLevel);
  }

  /** `r` is `s` with the views of level `c` replaced, under possibly advanced counters. */
  ghost predicate Replaced(s: Levels, c: nat, views: seq<View>, r: Levels) {
    && r.maxLevel == s.maxLevel && r.tables == s.tables && r.curTable == s.curTable && s.curView <= r.curView
    && (forall d: nat :: Comp(r, d) == if d == c then views else Comp(s, d))
  }

  lemma {:induction false} ReplacedContent(s: Levels, c: nat, views: seq<View>, r: Levels, table: Table)
    requires Replaced(s, c, views, r) && c <= s.maxLevel
    requires ViewsRun(s.tables, views) == ViewsRun(s.tables, Comp(s, c)) + table
    ensures Content(r, c) == Content(s, c) + table
  {
    DeepFrame(s, r, c + 1, s.maxLevel);
    Associate(Deep(s, c + 1, s.maxLevel), ViewsRun(s.tables, Comp(s, c)), table);
    assert Comp(r, c) == views;
  }

  lemma {:induction false} ReplacedIsGood(lim: Limits, s: Levels, c: nat, views: seq<View>, r: Levels, id: nat)
    requires Good(lim, s) && Replaced(s, c, views, r) && c <= s.maxLevel
    requires GoodLevel(lim, s.tables, s.curTable, r.curView, views)
    requires Ids(views) == Ids(Comp(s, c)) + {id} && forall d: nat :: id !in Ids(Comp(s, d))
    requires forall v :: v in views ==> v.id >= s.curView || exists w :: w in Comp(s, c) && w.id == v.id
    ensures Good(lim, r)
  {
    forall d: nat ensures GoodLevel(lim, r.tables, r.curTable, r.curView, Comp(r, d)) {
      assert GoodLevel(lim, s.tables, s.curTable, s.curView, Comp(s, d));
    }
    forall d: nat | d != c ensures SharesNothing(views, Comp(s, d)) && SharesNothing(Comp(s, d), views) {
      assert SharesNothing(Comp(s, c), Comp(s, d));
      assert GoodLevel(lim, s.tables, s.curTable, s.curView, Comp(s, d));
      assert id !in Ids(Comp(s, d));
    }
    forall d: nat, e: nat | d != e ensures SharesNothing(Comp(r, d), Comp(r, e)) {
      if d != c && e != c {
        assert SharesNothing(Comp(s, d), Comp(s, e));
      }
    }
  }

  ghost predicate CountersAdvance(s: Levels, r: Levels) {
    && s.curTable <= r.curTable && s.curView <= r.curView
    && r.prevTable == r.curTable && (s.prevView == s.curView ==> r.prevView == r.curView)
  }

  /** Shallower levels and their table files are untouched. */
  ghost predicate ShallowerKept(s: Levels, c: nat, r: Levels) {
    && (forall b: nat :: b < c ==> Comp(r, b) == Comp(s, b))
    && (forall b: nat, x :: b < c && x in Ids(Comp(s, b)) ==> x in r.tables && r.tables[x] == Load(s.tables, x))
  }

  ghost predicate Deeper(s: Levels, c: nat, x: nat) {
    exists d: nat :: d >= c && x in Ids(Comp(s, d))
  }

  ghost predicate DeeperView(s: Levels, c: nat, id: nat) {
    exists d: nat, w :: d >= c && w in Comp(s, d) && w.id == id
  }

  /** Tables listed from level `c` on are the placed one, older ones of these levels, or carry a fresh id. */
  ghost predicate TablesFrom(s: Levels, id: nat, c: nat, r: Levels) {
    forall b: nat, x :: b >= c && x in Ids(Comp(r, b)) ==> x == id || x >= s.curTable || Deeper(s, c, x)
  }

  ghost predicate ViewsFrom(s: Levels, c: nat, r: Levels) {
    forall b: nat, v :: b >= c && v in Comp(r, b) ==> v.id >= s.curView || DeeperView(s, c, v.id)
  }

  /** To a reader, `table` has been laid over what level `c` and deeper held; only tombstones may have gone. */
  ghost predicate ReadsOver(s: Levels, table: Table, c: nat, r: Levels) {
    && Strip(Content(r, c)) == Strip(Content(s, c) + table)
    && Content(r, c).Keys <= (Content(s, c) + table).Keys
  }

  /** What placing table `id` at level `c` or deeper may change, and what it means to a reader. */
  ghost predicate Placed(s: Levels, table: Table, id: nat, c: nat, r: Levels) {
    && CountersAdvance(s, r) && ShallowerKept(s, c, r)
    && TablesFrom(s, id, c, r) && ViewsFrom(s, c, r)
    && ReadsOver(s, table, c, r)
  }

  lemma {:induction false} ReplacedIsPlaced(s: Levels, table: Table, id: nat, c: nat, views: seq<View>, r: Levels)
    requires Replaced(s, c, views, r) && c <= s.maxLevel
    requires Ids(views) == Ids(Comp(s, c)) + {id}
    requires forall v :: v in views ==> v.id >= s.curView || exists w :: w in Comp(s, c) && w.id == v.id
    requires ViewsRun(s.tables, views) == ViewsRun(s.tables, Comp(s, c)) + table
    requires r.prevTable == r.curTable && (s.prevView == s.curView ==> r.prevView == r.curView)
    requires forall d: nat, x :: x in Ids(Comp(s, d)) ==> x in s.tables
    ensures Placed(s, table, id, c, r)
  {
    ReplacedContent(s, c, views, r, table);
    assert ShallowerKept(s, c, r);
    forall b: nat, x | b >= c && x in Ids(Comp(r, b))
      ensures x == id || x >= s.curTable || Deeper(s, c, x)
    {
      assert x != id ==> x in Ids(Comp(s, b));
    }
    forall b: nat, v | b >= c && v in Comp(r, b)
      ensures v.id >= s.curView || DeeperView(s, c, v.id)
    {
    }
  }

  lemma {:induction false} AllIdsBounded(lim: Limits, s: Levels)
    requires Good(lim, s)
    ensures forall d: nat, x :: x in Ids(Comp(s, d)) ==> x in s.tables && x < s.curTable
  {
    forall d: nat ensures forall x :: x in Ids(Comp(s, d)) ==> x in s.tables && x < s.curTable {
      assert GoodLevel(lim, s.tables, s.curTable, s.curView, Comp(s, d));
      IdsBounded(lim, s.tables, s.curTable, Comp(s, d));
    }
  }

  lemma {:induction false} SingleItem(tables: map<nat, Table>, item: Item)
    ensures ItemsRun(tables, [item]) == Load(tables, item.id) && ItemIds([item]) == {item.id}
  {
  }

  lemma {:induction false} Snoc(tables: map<nat, Table>, views: seq<View>, v: View)
    ensures Ids(views + [v]) == Ids(views) + ItemIds(v.items)
    ensures TableCount(views + [v]) == TableCount(views) + |v.items|
    ensures ViewsRun(tables, views + [v]) == ViewsRun(tables, views) + ItemsRun(tables, v.items)
  {
  }

  lemma {:induction false} Fresh(a: set<nat>, id: nat)
    requires id !in a
    ensures |a + {id}| == |a| + 1
  {
  }

  lemma {:induction false} AppendedViews(
      cmp: Comparator, tables: map<nat, Table>, curTable: nat, curView: nat, views: seq<View>, v: View)
    requires GoodViews(cmp, tables, curTable, curView, views)
    requires GoodView(cmp, tables, curTable, v) && v.id == curView
    ensures GoodViews(cmp, tables, curTable, curView + 1, views + [v])
  {
  }

  lemma {:induction false} AppendedCount(lim: Limits, views: seq<View>, v: View, id: nat)
    requires Counted(lim, views) && id !in Ids(views) && ItemIds(v.items) == {id} && |v.items| == 1
    requires lim.maxView != 0 ==> |views| < lim.maxView
    requires lim.maxTable != 0 ==> TableCount(views) < lim.maxTable
    ensures Counted(lim, views + [v]) && Ids(views + [v]) == Ids(views) + {id}
  {
  }

  lemma {:induction false} ReplacedIsCorrect(
      lim: Limits, s: Levels, table: Table, id: nat, c: nat, views: seq<View>, r: Levels)
    requires Good(lim, s) && Incoming(s, table, id) && c <= s.maxLevel && Replaced(s, c, views, r)
    requires GoodViews(lim.cmp, s.tables, s.curTable, r.curView, views) && Counted(lim, views)
    requires Ids(views) == Ids(Comp(s, c)) + {id}
    requires forall v :: v in views ==> v.id >= s.curView || exists w :: w in Comp(s, c) && w.id == v.id
    requires ViewsRun(s.tables, views) == ViewsRun(s.tables, Comp(s, c)) + table
    requires r.prevTable == r.curTable && (s.prevView == s.curView ==> r.prevView == r.curView)
    ensures Good(lim, r) && Placed(s, table, id, c, r)
  {
    AllIdsBounded(lim, s);
    ReplacedIsGood(lim, s, c, views, r, id);
    ReplacedIsPlaced(s, table, id, c, views, r);
  }

  lemma {:induction false} OpenViewReplaces(s: Levels, c: nat, item: Item)
    ensures Replaced(s, c, Comp(s, c) + [View(s.curView, [item])], OpenView(s, c, item))
  {
  }

  lemma {:induction false} ExtendViewReplaces(lim: Limits, s: Levels, c: nat, item: Item)
    requires Comp(s, c) != []
    ensures Replaced(s, c, Extended(lim, Comp(s, c), item), ExtendView(lim, s, c, item))
  {
  }

  lemma {:induction false} OpenViewCorrect(lim: Limits, s: Levels, table: Table, item: Item, c: nat)
    requires Good(lim, s) && Incoming(s, table, item.id) && c <= s.maxLevel
    requires GoodView(lim.cmp, s.tables, s.curTable, View(s.curView, [item]))
    requires lim.maxView != 0 ==> |Comp(s, c)| < lim.maxView
    requires lim.maxTable != 0 ==> TableCount(Comp(s, c)) < lim.maxTable
    ensures Good(lim, OpenView(s, c, item)) && Placed(s, table, item.id, c, OpenView(s, c, item))
  {
    var views, v := Comp(s, c), View(s.curView, [item]);
    assert GoodLevel(lim, s.tables, s.curTable, s.curView, views);
    assert item.id !in Ids(views);
    SingleItem(s.tables, item);
    Snoc(s.tables, views, v);
    AppendedViews(lim.cmp, s.tables, s.curTable, s.curView, views, v);
    AppendedCount(lim, views, v, item.id);
    OpenViewReplaces(s, c, item);
    forall w | w in views + [v]
      ensures w.id >= s.curView || exists u :: u in views && u.id == w.id
    {
    }
    assert ViewsRun(s.tables, views + [v]) == ViewsRun(s.tables, views) + table;
    ReplacedIsCorrect(lim, s, table, item.id, c, views + [v], OpenView(s, c, item));
  }

  lemma {:induction false} InsertIds(cmp: Comparator, items: seq<Item>, begin: Key, end: Key, id: nat)
    requires IsComparator(cmp) && Sorted(cmp, items) && Le(cmp, begin, end) && IsNotOverlapped(cmp, items, begin, end)
    ensures forall x :: x in Insert(cmp, items, begin, end, id) <==> x in items || x == Item(begin, end, id)
    ensures |Insert(cmp, items, begin, end, id)| == |items| + 1
    ensures ItemIds(Insert(cmp, items, begin, end, id)) == ItemIds(items) + {id}
  {
  }

  lemma {:induction false} LargerView(cmp: Comparator, tables: map<nat, Table>, curTable: nat, last: View, item: Item)
    requires IsComparator(cmp) && GoodView(cmp, tables, curTable, last) && GoodItem(cmp, tables, curTable, item)
    requires Le(cmp, item.begin, item.end) && IsNotOverlapped(cmp, last.items, item.begin, item.end)
    ensures var more := Insert(cmp, last.items, item.begin, item.end, item.id);
            && GoodView(cmp, tables, curTable, last.(items := more))
            && ItemIds(more) == ItemIds(last.items) + {item.id} && |more| == |last.items| + 1
            && ItemsRun(tables, more) == ItemsRun(tables, last.items) + Load(tables, item.id)
  {
    InsertKeepsSorted(cmp, last.items, item.begin, item.end, item.id);
    InsertIds(cmp, last.items, item.begin, item.end, item.id);
    InsertRun(cmp, tables, curTable, last.items, item);
  }

  lemma {:induction false} ExtendedViews(
      cmp: Comparator, tables: map<nat, Table>, curTable: nat, curView: nat, init: seq<View>, last: View, v: View)
    requires GoodViews(cmp, tables, curTable, curView, init + [last])
    requires GoodView(cmp, tables, curTable, v) && v.id == last.id
    ensures GoodViews(cmp, tables, curTable, curView, init + [v])
  {
    var was, views := init + [last], init + [v];
    assert last in was;
    forall w | w in views ensures GoodView(cmp, tables, curTable, w) && w.id < curView {
      assert w in init ==> w in was;
    }
    forall i, j | 0 <= i < j < |views| ensures views[i].id != views[j].id {
      assert was[i].id != was[j].id;
      assert views[i].id == was[i].id && views[j].id == was[j].id;
    }
  }

  lemma {:induction false} ExtendedCount(lim: Limits, init: seq<View>, last: View, v: View, id: nat)
    requires Counted(lim, init + [last])
    requires ItemIds(v.items) == ItemIds(last.items) + {id} && |v.items| == |last.items| + 1
    requires id !in Ids(init + [last])
    requires lim.maxTable != 0 ==> TableCount(init + [last]) < lim.maxTable
    ensures Counted(lim, init + [v]) && Ids(init + [v]) == Ids(init + [last]) + {id}
  {
    Snoc(map[], init, last);
    Snoc(map[], init, v);
    Fresh(Ids(init + [last]), id);
    assert Ids(init) + ItemIds(v.items) == (Ids(init) + ItemIds(last.items)) + {id};
  }

  lemma {:induction false} ExtendedRun(tables: map<nat, Table>, init: seq<View>, last: View, v: View, table: Table)
    requires ItemsRun(tables, v.items) == ItemsRun(tables, last.items) + table
    ensures ViewsRun(tables, init + [v]) == ViewsRun(tables, init + [last]) + table
  {
    Snoc(tables, init, last);
    Snoc(tables, init, v);
    Associate(ViewsRun(tables, init), ItemsRun(tables, last.items), table);
  }

  lemma {:induction false} ExtendedOrigin(init: seq<View>, last: View, v: View)
    requires v.id == last.id
    ensures forall w :: w in init + [v] ==> exists u :: u in init + [last] && u.id == w.id
  {
  }

  /** `v` is the newest view of level `c` with one more item. */
  ghost predicate Grown(s: Levels, table: Table, id: nat, last: View, v: View) {
    && v.id == last.id
    && ItemIds(v.items) == ItemIds(last.items) + {id} && |v.items| == |last.items| + 1
    && ItemsRun(s.tables, v.items) == ItemsRun(s.tables, last.items) + table
  }

  lemma {:induction false} ExtendViewCorrect(
      lim: Limits, s: Levels, table: Table, id: nat, c: nat, init: seq<View>, last: View, v: View, r: Levels)
    requires Good(lim, s) && Incoming(s, table, id) && c <= s.maxLevel && Comp(s, c) == init + [last]
    requires lim.maxTable != 0 ==> TableCount(init + [last]) < lim.maxTable
    requires GoodView(lim.cmp, s.tables, s.curTable, v) && Grown(s, table, id, last, v)
    requires Replaced(s, c, init + [v], r)
    requires r.prevTable == r.curTable && (s.prevView == s.curView ==> r.prevView == r.curView)
    ensures Good(lim, r) && Placed(s, table, id, c, r)
  {
    assert GoodLevel(lim, s.tables, s.curTable, s.curView, Comp(s, c));
    assert id !in Ids(Comp(s, c));
    ExtendedViews(lim.cmp, s.tables, s.curTable, s.curView, init, last, v);
    ExtendedCount(lim, init, last, v, id);
    ExtendedRun(s.tables, init, last, v, table);
    ExtendedOrigin(init, last, v);
    GoodViewsLater(lim.cmp, s.tables, s.curTable, s.curView, r.curView, init + [v]);
    ReplacedIsCorrect(lim, s, table, id, c, init + [v], r);
  }

  lemma {:induction false} GoodViewsLater(
      cmp: Comparator, tables: map<nat, Table>, curTable: nat, curView: nat, later: nat, views: seq<View>)
    requires GoodViews(cmp, tables, curTable, curView, views) && curView <= later
    ensures GoodViews(cmp, tables, curTable, later, views)
  {
  }

  // ---------- a level is merged into the next one ----------

  lemma {:induction false} GoodViewsFrame(
      cmp: Comparator, t: map<nat, Table>, u: map<nat, Table>, n: nat, m: nat,
      curView: nat, later: nat, views: seq<View>)
    requires GoodViews(cmp, t, n, curView, views) && n <= m && curView <= later
    requires forall id :: id in Ids(views) ==> id in u && u[id] == Load(t, id)
    ensures GoodViews(cmp, u, m, later, views)
  {
    IdsContain(views);
    forall v | v in views ensures GoodView(cmp, u, m, v) {
      assert GoodView(cmp, t, n, v);
      assert forall x :: x in v.items ==> GoodItem(cmp, t, n, x) && x.id in Ids(views);
    }
  }

  lemma {:induction false} DescentComps(s: Levels, c: nat, table: Table)
    ensures forall d: nat :: Comp(BeforeDescent(s, c, table), d) == Comp(s, d)
  {
  }

  /** `b` is `s` with one more table file, under the next table id. */
  ghost predicate NewFile(s: Levels, table: Table, b: Levels) {
    && b.comps == s.comps && b.maxLevel == s.maxLevel && b.curView == s.curView
    && b.curTable == s.curTable + 1 && b.tables == s.tables[s.curTable := table]
  }

  ghost predicate Listing(s: Levels, views: seq<View>) {
    forall x: nat :: x in Ids(views) ==> x in s.tables && x < s.curTable
  }

  lemma {:induction false} NewFileLevel(lim: Limits, s: Levels, table: Table, b: Levels, views: seq<View>)
    requires NewFile(s, table, b) && GoodLevel(lim, s.tables, s.curTable, s.curView, views) && Listing(s, views)
    ensures GoodLevel(lim, b.tables, b.curTable, b.curView, views)
  {
  }

  lemma {:induction false} ListsOld(lim: Limits, s: Levels, d: nat)
    requires Good(lim, s)
    ensures GoodLevel(lim, s.tables, s.curTable, s.curView, Comp(s, d)) && Listing(s, Comp(s, d))
  {
    assert GoodLevel(lim, s.tables, s.curTable, s.curView, Comp(s, d));
    IdsBounded(lim, s.tables, s.curTable, Comp(s, d));
  }

  lemma {:induction false} NewFileContent(s: Levels, table: Table, b: Levels, c: nat)
    requires NewFile(s, table, b) && forall d: nat :: Listing(s, Comp(s, d))
    ensures Content(b, c) == Content(s, c)
  {
    forall d: nat, id | c <= d <= s.maxLevel && id in Ids(Comp(s, d)) ensures Load(s.tables, id) == Load(b.tables, id) {
      assert Listing(s, Comp(s, d));
    }
    DeepFrame(s, b, c, s.maxLevel);
  }

  lemma {:induction false} NewFileShares(s: Levels, table: Table, b: Levels)
    requires NewFile(s, table, b) && forall c: nat, d: nat :: c != d ==> SharesNothing(Comp(s, c), Comp(s, d))
    ensures forall c: nat, d: nat :: c != d ==> SharesNothing(Comp(b, c), Comp(b, d))
  {
    forall d: nat, e: nat | d != e ensures SharesNothing(Comp(b, d), Comp(b, e)) {
      assert SharesNothing(Comp(s, d), Comp(s, e));
    }
  }

  /** A new file changes nothing until it is placed. */
  lemma {:induction false} NewFileIsGood(lim: Limits, s: Levels, table: Table, b: Levels, c: nat)
    requires Good(lim, s) && NewFile(s, table, b)
    ensures Good(lim, b) && Incoming(b, table, s.curTable) && Content(b, c) == Content(s, c)
  {
    forall d: nat
      ensures Listing(s, Comp(s, d)) && GoodLevel(lim, b.tables, b.curTable, b.curView, Comp(b, d))
    {
      ListsOld(lim, s, d);
      NewFileLevel(lim, s, table, b, Comp(s, d));
    }
    NewFileShares(s, table, b);
    NewFileContent(s, table, b, c);
    forall d: nat ensures s.curTable !in Ids(Comp(b, d)) {
      assert Listing(s, Comp(s, d));
    }
  }

  lemma {:induction false} DescentIsGood(lim: Limits, s: Levels, c: nat, table: Table)
    requires Good(lim, s)
    ensures Good(lim, BeforeDescent(s, c, table))
    ensures Incoming(BeforeDescent(s, c, table), Load(BeforeDescent(s, c, table).tables, s.curTable), s.curTable)
    ensures Content(BeforeDescent(s, c, table), c + 1) == Content(s, c + 1)
  {
    var b := BeforeDescent(s, c, table);
    NewFileIsGood(lim, s, b.tables[s.curTable], b, c + 1);
  }

  /** No table that is deleted after the descent is listed by a level that stays. */
  ghost predicate Dead(r: Levels, c: nat, gone: seq<View>, id: nat) {
    forall d: nat, x :: d != c && x in Ids(Comp(r, d)) ==> x !in Ids(gone) && x != id
  }

  lemma {:induction false} DeletedAreDead(s: Levels, c: nat, b: Levels, id: nat, r: Levels)
    requires forall d: nat, e: nat :: d != e ==> SharesNothing(Comp(s, d), Comp(s, e))
    requires forall d: nat, x :: x in Ids(Comp(s, d)) ==> x < s.curTable && x != id
    requires id < s.curTable < b.curTable && forall d: nat :: Comp(b, d) == Comp(s, d)
    requires ShallowerKept(b, c + 1, r) && TablesFrom(b, s.curTable, c + 1, r)
    ensures Dead(r, c, Comp(s, c), id)
  {
    forall d: nat, x | d != c && x in Ids(Comp(r, d))
      ensures x !in Ids(Comp(s, c)) && x != id
    {
      if d < c {
        assert Comp(r, d) == Comp(b, d);
        assert SharesNothing(Comp(s, d), Comp(s, c));
      } else if x < s.curTable {
        assert Deeper(b, c + 1, x);
        var e: nat :| e >= c + 1 && x in Ids(Comp(b, e));
        assert SharesNothing(Comp(s, e), Comp(s, c));
      }
    }
  }

  lemma {:induction false} ClearedComps(r: Levels, c: nat, gone: seq<View>, id: nat)
    ensures forall d: nat :: Comp(Cleared(r, c, gone, id), d) == if d == c then [] else Comp(r, d)
  {
  }

  lemma {:induction false} ClearedIsGood(lim: Limits, r: Levels, c: nat, gone: seq<View>, id: nat)
    requires Good(lim, r) && Dead(r, c, gone, id)
    ensures Good(lim, Cleared(r, c, gone, id))
  {
    var q := Cleared(r, c, gone, id);
    AllIdsBounded(lim, r);
    ClearedComps(r, c, gone, id);
    forall d: nat ensures GoodLevel(lim, q.tables, q.curTable, q.curView, Comp(q, d)) {
      if d != c {
        assert GoodLevel(lim, r.tables, r.curTable, r.curView, Comp(r, d));
        GoodViewsFrame(lim.cmp, r.tables, q.tables, r.curTable, q.curTable, r.curView, q.curView, Comp(r, d));
      }
    }
    forall d: nat, e: nat | d != e ensures SharesNothing(Comp(q, d), Comp(q, e)) {
      assert SharesNothing(Comp(r, d), Comp(r, e));
    }
  }

  lemma {:induction false} EmptyLevel(s: Levels, c: nat, top: nat)
    requires Comp(s, c) == []
    ensures Deep(s, c, top) == Deep(s, c + 1, top)
  {
  }

  lemma {:induction false} ClearedContent(r: Levels, c: nat, gone: seq<View>, id: nat)
    requires NoneAbove(r) && NoneAbove(Cleared(r, c, gone, id)) && Dead(r, c, gone, id)
    ensures Content(Cleared(r, c, gone, id), c) == Content(r, c + 1)
  {
    var q := Cleared(r, c, gone, id);
    ClearedComps(r, c, gone, id);
    DeepTop(q, c, r.maxLevel);
    EmptyLevel(q, c, r.maxLevel);
    forall d: nat, x | c + 1 <= d <= r.maxLevel && x in Ids(Comp(r, d)) ensures Load(r.tables, x) == Load(q.tables, x) {
      assert x !in Ids(gone) && x != id;
    }
    DeepFrame(r, q, c + 1, r.maxLevel);
  }

  lemma {:induction false} StripOnNothing(t: Table)
    ensures Strip(map[] + Strip(t)) == Strip(map[] + t)
  {
  }

  /** The merged table laid over the deeper levels reads like the level and the new table laid over them. */
  lemma {:induction false} MergedContent(s: Levels, c: nat, table: Table)
    requires c <= s.maxLevel
    ensures Strip(Content(s, c + 1) + Load(BeforeDescent(s, c, table).tables, s.curTable))
            == Strip(Content(s, c) + table)
    ensures (Content(s, c + 1) + Load(BeforeDescent(s, c, table).tables, s.curTable)).Keys
            <= (Content(s, c) + table).Keys
  {
    var d, v := Content(s, c + 1), ViewsRun(s.tables, Comp(s, c));
    Associate(d, v, table);
    if c == s.maxLevel {
      StripOnNothing(v + table);
    }
  }

  lemma {:induction false} ClearedOrigins(s: Levels, b: Levels, c: nat, id: nat, r: Levels, q: Levels)
    requires s.curTable < b.curTable && s.curView == b.curView && forall d: nat :: Comp(b, d) == Comp(s, d)
    requires TablesFrom(b, s.curTable, c + 1, r) && ViewsFrom(b, c + 1, r)
    requires forall d: nat :: Comp(q, d) == if d == c then [] else Comp(r, d)
    ensures TablesFrom(s, id, c, q) && ViewsFrom(s, c, q)
  {
    forall d: nat, x | d >= c && x in Ids(Comp(q, d))
      ensures x == id || x >= s.curTable || Deeper(s, c, x)
    {
      if x < s.curTable {
        assert x in Ids(Comp(r, d)) && Deeper(b, c + 1, x);
        var e: nat :| e >= c + 1 && x in Ids(Comp(b, e));
        assert x in Ids(Comp(s, e));
      }
    }
    forall d: nat, v | d >= c && v in Comp(q, d)
      ensures v.id >= s.curView || DeeperView(s, c, v.id)
    {
      if v.id < s.curView {
        assert v in Comp(r, d) && DeeperView(b, c + 1, v.id);
        var e: nat, w :| e >= c + 1 && w in Comp(b, e) && w.id == v.id;
        assert w in Comp(s, e);
      }
    }
  }

  lemma {:induction false} ClearedShallower(s: Levels, b: Levels, c: nat, id: nat, r: Levels, q: Levels)
    requires forall d: nat :: Comp(b, d) == Comp(s, d)
    requires forall d: nat, x :: x in Ids(Comp(s, d)) ==> x in s.tables && Load(b.tables, x) == s.tables[x]
    requires ShallowerKept(b, c + 1, r) && Dead(r, c, Comp(s, c), id)
    requires q.tables == r.tables - Ids(Comp(s, c)) - {id}
    requires forall d: nat :: Comp(q, d) == if d == c then [] else Comp(r, d)
    ensures ShallowerKept(s, c, q)
  {
  }

  lemma {:induction false} ListedTables(lim: Limits, s: Levels, table: Table, id: nat)
    requires Good(lim, s) && Incoming(s, table, id)
    ensures forall d: nat, x :: x in Ids(Comp(s, d)) ==> x < s.curTable && x != id
  {
    AllIdsBounded(lim, s);
    forall d: nat, x: nat | x in Ids(Comp(s, d)) ensures x < s.curTable && x != id {
      assert id !in Ids(Comp(s, d));
      assert x in s.tables;
    }
  }

  lemma {:induction false} DescentIsPlaced(lim: Limits, s: Levels, c: nat, table: Table, id: nat, r: Levels)
    requires Good(lim, s) && Incoming(s, table, id) && c <= s.maxLevel
    requires Good(lim, r)
    requires var b := BeforeDescent(s, c, table);
             Placed(b, Load(b.tables, s.curTable), s.curTable, c + 1, r)
    ensures Good(lim, Cleared(r, c, Comp(s, c), id)) && Placed(s, table, id, c, Cleared(r, c, Comp(s, c), id))
  {
    var b := BeforeDescent(s, c, table);
    var q := Cleared(r, c, Comp(s, c), id);
    DescentComps(s, c, table);
    AllIdsBounded(lim, s);
    ListedTables(lim, s, table, id);
    DeletedAreDead(s, c, b, id, r);
    ClearedComps(r, c, Comp(s, c), id);
    ClearedIsGood(lim, r, c, Comp(s, c), id);
    ClearedOrigins(s, b, c, id, r, q);
    ClearedShallower(s, b, c, id, r, q);
    DescentReads(lim, s, c, table, id, r);
  }

  lemma {:induction false} DescentReads(lim: Limits, s: Levels, c: nat, table: Table, id: nat, r: Levels)
    requires Good(lim, s) && c <= s.maxLevel && NoneAbove(r) && Dead(r, c, Comp(s, c), id)
    requires NoneAbove(Cleared(r, c, Comp(s, c), id))
    requires ReadsOver(BeforeDescent(s, c, table), Load(BeforeDescent(s, c, table).tables, s.curTable), c + 1, r)
    ensures ReadsOver(s, table, c, Cleared(r, c, Comp(s, c), id))
  {
    DescentIsGood(lim, s, c, table);
    ClearedContent(r, c, Comp(s, c), id);
    MergedContent(s, c, table);
  }

  // ---------- the whole call ----------

  lemma {:induction false} LoweredIsGood(lim: Limits, s: Levels, r: Levels)
    requires Good(lim, s) && NoneAbove(r)
    requires r.comps == s.comps && r.tables == s.tables && r.curTable == s.curTable && r.curView == s.curView
    ensures Good(lim, r)
  {
    assert forall d: nat :: Comp(r, d) == Comp(s, d);
    forall d: nat ensures GoodLevel(lim, r.tables, r.curTable, r.curView, Comp(r, d)) {
      assert GoodLevel(lim, s.tables, s.curTable, s.curView, Comp(s, d));
    }
    forall d: nat, e: nat | d != e ensures SharesNothing(Comp(r, d), Comp(r, e)) {
      assert SharesNothing(Comp(s, d), Comp(s, e));
    }
  }

  lemma {:induction false} SameContent(s: Levels, c: nat, r: Levels)
    requires NoneAbove(s) && NoneAbove(r) && r.comps == s.comps && r.tables == s.tables && r.maxLevel <= s.maxLevel
    ensures Content(r, c) == Content(s, c)
  {
    assert forall d: nat :: Comp(r, d) == Comp(s, d);
    DeepTop(r, c, s.maxLevel);
    DeepFrame(s, r, c, s.maxLevel);
  }

  lemma {:induction false} SameOrigins(s: Levels, id: nat, c: nat, r: Levels)
    requires r.comps == s.comps && r.tables == s.tables
    requires forall d: nat, x :: x in Ids(Comp(s, d)) ==> x in s.tables
    ensures ShallowerKept(s, c, r) && TablesFrom(s, id, c, r) && ViewsFrom(s, c, r)
  {
    assert forall d: nat :: Comp(r, d) == Comp(s, d);
    forall b: nat, x | b >= c && x in Ids(Comp(r, b)) ensures Deeper(s, c, x) {
    }
    forall b: nat, v | b >= c && v in Comp(r, b) ensures DeeperView(s, c, v.id) {
    }
  }

  lemma {:induction false} NothingRead(s: Levels, c: nat, r: Levels)
    requires NoneAbove(s) && NoneAbove(r) && r.comps == s.comps && r.tables == s.tables && r.maxLevel <= s.maxLevel
    ensures ReadsOver(s, map[], c, r)
  {
    SameContent(s, c, r);
    assert Content(s, c) + map[] == Content(s, c);
  }

  lemma {:induction false} NothingPlaced(lim: Limits, s: Levels, id: nat, c: nat, r: Levels)
    requires Good(lim, s) && c != 0
    requires r == s.(prevTable := s.curTable,
                     maxLevel := if s.maxLevel != c || Comp(s, c) != [] then s.maxLevel else c - 1)
    ensures Good(lim, r) && Placed(s, map[], id, c, r)
  {
    assert NoneAbove(r) by {
      assert forall d: nat :: Comp(r, d) == Comp(s, d);
    }
    assert Good(lim, r) by {
      LoweredIsGood(lim, s, r);
    }
    assert ShallowerKept(s, c, r) && TablesFrom(s, id, c, r) && ViewsFrom(s, c, r) by {
      AllIdsBounded(lim, s);
      SameOrigins(s, id, c, r);
    }
    NothingRead(s, c, r);
  }

  lemma {:induction false} GoodItemOf(lim: Limits, s: Levels, table: Table, id: nat)
    requires IsComparator(lim.cmp) && Incoming(s, table, id) && table != map[]
    ensures var item := Item(FirstKey(lim.cmp, table), LastKey(lim.cmp, table), id);
            GoodItem(lim.cmp, s.tables, s.curTable, item) && Le(lim.cmp, item.begin, item.end)
  {
  }

  // ---------- the outcomes of the call as equations ----------

  lemma {:induction false} AddMerges(lim: Limits, s: Levels, table: Table, id: nat, c: nat)
    requires IsComparator(lim.cmp) && NoneAbove(s) && NoneAbove(BeforeDescent(s, c, table))
    requires table != map[] && Comp(s, c) != [] && MustMerge(lim, Comp(s, c), table)
    ensures var b := BeforeDescent(s, c, table);
            AddToLevel(lim, s, table, id, c)
            == Cleared(AddToLevel(lim, b, Load(b.tables, s.curTable), s.curTable, c + 1), c, Comp(s, c), id)
  {
  }

  lemma {:induction false} AddPlaces(lim: Limits, s: Levels, table: Table, id: nat, c: nat)
    requires IsComparator(lim.cmp) && NoneAbove(s) && table != map[]
    requires Comp(s, c) == [] || !MustMerge(lim, Comp(s, c), table)
    ensures var item := Item(FirstKey(lim.cmp, table), LastKey(lim.cmp, table), id);
            AddToLevel(lim, s, table, id, c)
            == if Comp(s, c) != [] && Fits(lim, Comp(s, c), table) then ExtendView(lim, Raised(s, c), c, item)
               else OpenView(Raised(s, c), c, item)
  {
  }

  /** The table opens a view of its own. */
  lemma {:induction false} OpensView(lim: Limits, s: Levels, table: Table, id: nat, c: nat)
    requires IsComparator(lim.cmp) && Good(lim, s) && Incoming(s, table, id) && table != map[] && c <= s.maxLevel
    requires Comp(s, c) == [] || (!MustMerge(lim, Comp(s, c), table) && !Fits(lim, Comp(s, c), table))
    ensures var r := OpenView(s, c, Item(FirstKey(lim.cmp, table), LastKey(lim.cmp, table), id));
            Good(lim, r) && Placed(s, table, id, c, r)
  {
    var item := Item(FirstKey(lim.cmp, table), LastKey(lim.cmp, table), id);
    GoodItemOf(lim, s, table, id);
    assert GoodLevel(lim, s.tables, s.curTable, s.curView, Comp(s, c));
    assert GoodView(lim.cmp, s.tables, s.curTable, View(s.curView, [item]));
    OpenViewCorrect(lim, s, table, item, c);
  }

  /** The newest view takes the table. */
  lemma {:induction false} ExtendsView(lim: Limits, s: Levels, table: Table, id: nat, c: nat)
    requires IsComparator(lim.cmp) && Good(lim, s) && Incoming(s, table, id) && table != map[] && c <= s.maxLevel
    requires Comp(s, c) != [] && !MustMerge(lim, Comp(s, c), table) && Fits(lim, Comp(s, c), table)
    ensures var r := ExtendView(lim, s, c, Item(FirstKey(lim.cmp, table), LastKey(lim.cmp, table), id));
            Good(lim, r) && Placed(s, table, id, c, r)
  {
    var item := Item(FirstKey(lim.cmp, table), LastKey(lim.cmp, table), id);
    var views := Comp(s, c);
    var init, last := views[..|views| - 1], views[|views| - 1];
    assert views == init + [last];
    GoodItemOf(lim, s, table, id);
    assert GoodLevel(lim, s.tables, s.curTable, s.curView, views);
    assert last in views;
    LargerView(lim.cmp, s.tables, s.curTable, last, item);
    var v := last.(items := Insert(lim.cmp, last.items, item.begin, item.end, id));
    ExtendViewReplaces(lim, s, c, item);
    ExtendViewCorrect(lim, s, table, id, c, init, last, v, ExtendView(lim, s, c, item));
  }

  lemma {:induction false} PlacedFromRaised(s: Levels, c: nat, table: Table, id: nat, r: Levels)
    requires Placed(Raised(s, c), table, id, c, r) && Content(Raised(s, c), c) == Content(s, c)
    ensures Placed(s, table, id, c, r)
  {
    var u := Raised(s, c);
    assert forall d: nat :: Comp(u, d) == Comp(s, d);
    forall b: nat, x | b >= c && x in Ids(Comp(r, b)) && Deeper(u, c, x) ensures Deeper(s, c, x) {
      var d: nat :| d >= c && x in Ids(Comp(u, d));
      assert x in Ids(Comp(s, d));
    }
    forall b: nat, v | b >= c && v in Comp(r, b) && DeeperView(u, c, v.id) ensures DeeperView(s, c, v.id) {
      var d: nat, w :| d >= c && w in Comp(u, d) && w.id == v.id;
      assert w in Comp(s, d);
    }
    assert ShallowerKept(s, c, r);
  }

  lemma {:induction false} RaisedIncoming(s: Levels, c: nat, table: Table, id: nat)
    requires Incoming(s, table, id)
    ensures Incoming(Raised(s, c), table, id)
  {
    assert forall d: nat :: Comp(Raised(s, c), d) == Comp(s, d);
  }

  lemma {:induction false} AddWithoutMerge(lim: Limits, s: Levels, table: Table, id: nat, c: nat)
    requires IsComparator(lim.cmp) && Good(lim, s) && Incoming(s, table, id) && table != map[]
    requires Comp(s, c) == [] || !MustMerge(lim, Comp(s, c), table)
    ensures Good(lim, AddToLevel(lim, s, table, id, c))
    ensures Placed(s, table, id, c, AddToLevel(lim, s, table, id, c))
  {
    var raised := Raised(s, c);
    RaisedIsGood(lim, s, c);
    RaisedIncoming(s, c, table, id);
    if Comp(s, c) != [] && Fits(lim, Comp(s, c), table) {
      ExtendsView(lim, raised, table, id, c);
    } else {
      OpensView(lim, raised, table, id, c);
    }
    PlacedFromRaised(s, c, table, id, AddToLevel(lim, s, table, id, c));
  }

  /** `AddToComponent` lays the table over what level `c` and deeper held, through any depth of cascade. */
  lemma {:induction false} AddCorrect(lim: Limits, s: Levels, table: Table, id: nat, c: nat)
    requires IsComparator(lim.cmp) && Good(lim, s) && Incoming(s, table, id) && (table == map[] ==> c != 0)
    ensures Good(lim, AddToLevel(lim, s, table, id, c))
    ensures Placed(s, table, id, c, AddToLevel(lim, s, table, id, c))
    decreases if c <= s.maxLevel then s.maxLevel + 1 - c else 0
  {
    if table == map[] {
      NothingPlaced(lim, s, id, c, AddToLevel(lim, s, table, id, c));
    } else if Comp(s, c) == [] || !MustMerge(lim, Comp(s, c), table) {
      AddWithoutMerge(lim, s, table, id, c);
    } else {
      assert Raised(s, c) == s;
      var b := BeforeDescent(s, c, table);
      DescentIsGood(lim, s, c, table);
      AddCorrect(lim, b, b.tables[s.curTable], s.curTable, c + 1);
      DescentIsPlaced(lim, s, c, table, id, AddToLevel(lim, b, b.tables[s.curTable], s.curTable, c + 1));
    }
  }
}
