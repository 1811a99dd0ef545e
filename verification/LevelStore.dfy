/** The levels of the log-structured store as a value: what one `AddToComponent` call makes of them,
    and what a reader finds in them. */
module LevelStore {
  import opened Buffers
  import opened LevelViews

  /** A sorted string table by its content. An empty value is a tombstone. */
  type Table = map<Key, Bytes>

  datatype View = View(id: nat, items: seq<Item>)

  datatype Limits = Limits(cmp: Comparator, maxView: nat, maxTable: nat)

  /** `comps` lists the views of each level, oldest first; `tables` are the table files. */
  datatype Levels = Levels(
    maxLevel: nat, comps: map<nat, seq<View>>, tables: map<nat, Table>,
    curTable: nat, prevTable: nat, curView: nat, prevView: nat)

  const EMPTY_LEVELS := Levels(0, map[], map[], 0, 0, 0, 0)

  const MAX_UINT64: nat := 0xFFFF_FFFF_FFFF_FFFF

  function Comp(s: Levels, c: nat): seq<View> {
    if c in s.comps then s.comps[c] else []
  }

  /** Opening a table file that does not exist creates an empty one. */
  function Load(tables: map<nat, Table>, id: nat): Table {
    if id in tables then tables[id] else map[]
  }

  function TableCount(views: seq<View>): nat {
    if views == [] then 0 else TableCount(views[..|views| - 1]) + |views[|views| - 1].items|
  }

  // ---------- keys of a table ----------

  ghost predicate Least(cmp: Comparator, keys: set<Key>, k: Key) {
    k in keys && forall x :: x in keys ==> Le(cmp, k, x)
  }

  ghost predicate Greatest(cmp: Comparator, keys: set<Key>, k: Key) {
    k in keys && forall x :: x in keys ==> Le(cmp, x, k)
  }

  lemma {:induction false} LeTransitive(cmp: Comparator, a: Key, b: Key, c: Key)
    requires IsComparator(cmp) && Le(cmp, a, b) && Le(cmp, b, c)
    ensures Le(cmp, a, c)
  {
  }

  lemma {:induction false} HasLeast(cmp: Comparator, keys: set<Key>)
    requires IsComparator(cmp) && keys != {}
    ensures exists k :: Least(cmp, keys, k)
  {
    var k :| k in keys;
    assert Le(cmp, k, k);
    var rest := keys - {k};
    if rest == {} {
      assert keys == {k};
      assert Least(cmp, keys, k);
    } else {
      HasLeast(cmp, rest);
      var m :| Least(cmp, rest, m);
      if Le(cmp, k, m) {
        forall x | x in keys ensures Le(cmp, k, x) {
          if x != k { LeTransitive(cmp, k, m, x); }
        }
        assert Least(cmp, keys, k);
      } else {
        assert Least(cmp, keys, m);
      }
    }
  }

  lemma {:induction false} HasGreatest(cmp: Comparator, keys: set<Key>)
    requires IsComparator(cmp) && keys != {}
    ensures exists k :: Greatest(cmp, keys, k)
  {
    var k :| k in keys;
    assert Le(cmp, k, k);
    var rest := keys - {k};
    if rest == {} {
      assert keys == {k};
      assert Greatest(cmp, keys, k);
    } else {
      HasGreatest(cmp, rest);
      var m :| Greatest(cmp, rest, m);
      if Le(cmp, m, k) {
        forall x | x in keys ensures Le(cmp, x, k) {
          if x != k { LeTransitive(cmp, x, m, k); }
        }
        assert Greatest(cmp, keys, k);
      } else {
        assert Greatest(cmp, keys, m);
      }
    }
  }

  function LeastKey(cmp: Comparator, keys: set<Key>): (k: Key)
    requires IsComparator(cmp) && keys != {}
    ensures Least(cmp, keys, k)
  {
    HasLeast(cmp, keys);
    assert exists k :: k in keys && forall x | x in keys :: Le(cmp, k, x) by {
      var k :| Least(cmp, keys, k);
      assert k in keys && forall x | x in keys :: Le(cmp, k, x);
    }
    var k :| k in keys && forall x | x in keys :: Le(cmp, k, x);
    k
  }

  function GreatestKey(cmp: Comparator, keys: set<Key>): (k: Key)
    requires IsComparator(cmp) && keys != {}
    ensures Greatest(cmp, keys, k)
  {
    HasGreatest(cmp, keys);
    assert exists k :: k in keys && forall x | x in keys :: Le(cmp, x, k) by {
      var k :| Greatest(cmp, keys, k);
      assert k in keys && forall x | x in keys :: Le(cmp, x, k);
    }
    var k :| k in keys && forall x | x in keys :: Le(cmp, x, k);
    k
  }

  function FirstKey(cmp: Comparator, t: Table): Key
    requires IsComparator(cmp) && t != map[]
  {
    LeastKey(cmp, t.Keys)
  }

  function LastKey(cmp: Comparator, t: Table): Key
    requires IsComparator(cmp) && t != map[]
  {
    GreatestKey(cmp, t.Keys)
  }

  // ---------- contents ----------

  /** The content without its tombstones. */
  function Strip(t: Table): Table {
    map k | k in t && t[k] != [] :: t[k]
  }

  /** All tables of a view laid over one another in order. */
  function ItemsRun(tables: map<nat, Table>, items: seq<Item>): Table {
    if items == [] then map[]
    else ItemsRun(tables, items[..|items| - 1]) + Load(tables, items[|items| - 1].id)
  }

  /** All views laid over one another, the newest on top. */
  function ViewsRun(tables: map<nat, Table>, views: seq<View>): Table {
    if views == [] then map[]
    else ViewsRun(tables, views[..|views| - 1]) + ItemsRun(tables, views[|views| - 1].items)
  }

  /** Levels `c` to `top`, the shallower on top. */
  function Deep(s: Levels, c: nat, top: nat): Table
    decreases top + 1 - c
  {
    if c > top then map[] else Deep(s, c + 1, top) + ViewsRun(s.tables, Comp(s, c))
  }

  function Content(s: Levels, c: nat): Table {
    Deep(s, c, s.maxLevel)
  }

  // ---------- AddToComponent ----------

  /** By contract of the table builder: the later table wins, the appended one is the latest. */
  function Merged(tables: map<nat, Table>, views: seq<View>, append: Table, erase: bool): Table {
    var all := ViewsRun(tables, views) + append;
    if erase then Strip(all) else all
  }

  function ItemIds(items: seq<Item>): set<nat> {
    set x | x in items :: x.id
  }

  function Ids(views: seq<View>): set<nat> {
    if views == [] then {} else Ids(views[..|views| - 1]) + ItemIds(views[|views| - 1].items)
  }

  ghost predicate NoneAbove(s: Levels) {
    forall c: nat :: Comp(s, c) != [] ==> c <= s.maxLevel
  }

  predicate Fits(lim: Limits, views: seq<View>, table: Table)
    requires IsComparator(lim.cmp) && table != map[] && views != []
  {
    IsNotOverlapped(lim.cmp, views[|views| - 1].items, FirstKey(lim.cmp, table), LastKey(lim.cmp, table))
  }

  /** The level has to be merged into the next one to take the table. */
  predicate MustMerge(lim: Limits, views: seq<View>, table: Table)
    requires IsComparator(lim.cmp) && table != map[] && views != []
  {
    || (lim.maxTable != 0 && TableCount(views) == lim.maxTable)
    || (!Fits(lim, views, table) && lim.maxView != 0 && |views| == lim.maxView)
  }

  function OpenView(s: Levels, c: nat, item: Item): Levels {
    s.(comps := s.comps[c := Comp(s, c) + [View(s.curView, [item])]],
       curView := s.curView + 1, prevView := s.curView + 1, prevTable := s.curTable)
  }

  function Extended(lim: Limits, views: seq<View>, item: Item): seq<View>
    requires views != []
  {
    var last := views[|views| - 1];
    views[..|views| - 1] + [last.(items := Insert(lim.cmp, last.items, item.begin, item.end, item.id))]
  }

  function ExtendView(lim: Limits, s: Levels, c: nat, item: Item): Levels
    requires Comp(s, c) != []
  {
    s.(comps := s.comps[c := Extended(lim, Comp(s, c), item)], prevTable := s.curTable)
  }

  /** The state in which the merged table is handed to the next level. */
  function BeforeDescent(s: Levels, c: nat, table: Table): Levels {
    s.(curTable := s.curTable + 1,
       tables := s.tables[s.curTable := Merged(s.tables, Comp(s, c), table, c == s.maxLevel && |Comp(s, c)| == 1)])
  }

  /** Level `c` is emptied, its tables and the merged-in one are deleted. */
  function Cleared(s: Levels, c: nat, gone: seq<View>, id: nat): Levels {
    s.(comps := s.comps[c := []],
       tables := s.tables - Ids(gone) - {id},
       maxLevel := if c != 0 && s.maxLevel == c then c - 1 else s.maxLevel)
  }

  function AddToLevel(lim: Limits, s: Levels, table: Table, id: nat, c: nat): Levels
    requires IsComparator(lim.cmp) && NoneAbove(s)
    decreases if c <= s.maxLevel then s.maxLevel + 1 - c else 0
  {
    if table == map[] then
      s.(prevTable := s.curTable,
         maxLevel := if s.maxLevel != c || Comp(s, c) != [] then s.maxLevel else if c == 0 then MAX_UINT64 else c - 1)
    else
      var raised := s.(maxLevel := if s.maxLevel < c then c else s.maxLevel);
      var item := Item(FirstKey(lim.cmp, table), LastKey(lim.cmp, table), id);
      var views := Comp(s, c);
      if views == [] then OpenView(raised, c, item)
      else if MustMerge(lim, views, table) then
        var before := BeforeDescent(raised, c, table);
        assert forall d: nat :: Comp(before, d) == Comp(s, d);
        Cleared(AddToLevel(lim, before, before.tables[s.curTable], s.curTable, c + 1), c, views, id)
      else if Fits(lim, views, table) then ExtendView(lim, raised, c, item)
      else OpenView(raised, c, item)
  }

  // ---------- what every store keeps ----------

  /** The interval of an item spans exactly the keys of its table. */
  ghost predicate GoodItem(cmp: Comparator, tables: map<nat, Table>, curTable: nat, x: Item) {
    && x.id < curTable && x.id in tables && tables[x.id] != map[]
    && Least(cmp, tables[x.id].Keys, x.begin) && Greatest(cmp, tables[x.id].Keys, x.end)
  }

  ghost predicate GoodView(cmp: Comparator, tables: map<nat, Table>, curTable: nat, v: View) {
    && v.items != [] && Sorted(cmp, v.items)
    && forall x :: x in v.items ==> GoodItem(cmp, tables, curTable, x)
  }

  ghost predicate GoodViews(cmp: Comparator, tables: map<nat, Table>, curTable: nat, curView: nat, views: seq<View>) {
    && (forall v :: v in views ==> GoodView(cmp, tables, curTable, v) && v.id < curView)
    && (forall i, j :: 0 <= i < j < |views| ==> views[i].id != views[j].id)
  }

  /** No table is listed twice, and the limits are kept. */
  ghost predicate Counted(lim: Limits, views: seq<View>) {
    && |Ids(views)| == TableCount(views)
    && (lim.maxView != 0 ==> |views| <= lim.maxView)
    && (lim.maxTable != 0 ==> TableCount(views) <= lim.maxTable)
  }

  ghost predicate GoodLevel(lim: Limits, tables: map<nat, Table>, curTable: nat, curView: nat, views: seq<View>) {
    GoodViews(lim.cmp, tables, curTable, curView, views) && Counted(lim, views)
  }

  ghost predicate SharesNothing(a: seq<View>, b: seq<View>) {
    Ids(a) !! Ids(b) && forall v, w :: v in a && w in b ==> v.id != w.id
  }

  ghost predicate Good(lim: Limits, s: Levels) {
    && NoneAbove(s)
    && (forall c: nat :: GoodLevel(lim, s.tables, s.curTable, s.curView, Comp(s, c)))
    && (forall c: nat, d: nat :: c != d ==> SharesNothing(Comp(s, c), Comp(s, d)))
  }

  /** `id` is a table file of its own, not yet placed in any level. */
  ghost predicate Incoming(s: Levels, table: Table, id: nat) {
    && id < s.curTable && id in s.tables && s.tables[id] == table
    && forall c: nat :: id !in Ids(Comp(s, c))
  }
}
