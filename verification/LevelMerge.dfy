/** Which merges the program hands to `CombineTables`, whose loop never ends. */
module LevelMerges {
  import opened Buffers
  import opened LevelViews
  import opened LevelStore
  import opened LevelProofs

  /** The tables of the level are in order and the new one lies between them: `MergeTables` has them combined. */
  predicate Ordered(lim: Limits, views: seq<View>, table: Table)
    requires IsComparator(lim.cmp) && table != map[] && views != []
  {
    |views| == 1 && Fits(lim, views, table)
  }

  /** A level is merged in order exactly when its only view is as large as allowed and could take the table. */
  lemma {:induction false} OrderedMergeIff(lim: Limits, views: seq<View>, table: Table)
    requires IsComparator(lim.cmp) && table != map[] && views != []
    ensures MustMerge(lim, views, table) && Ordered(lim, views, table)
            <==> lim.maxTable != 0 && |views| == 1 && |views[0].items| == lim.maxTable && Fits(lim, views, table)
  {
    if |views| == 1 {
      assert views[..0] == [] && TableCount(views) == |views[0].items|;
    }
  }

  /** `AddToComponent` returns: no merge on the way down is an ordered one. */
  predicate Returns(lim: Limits, s: Levels, table: Table, id: nat, c: nat)
    requires IsComparator(lim.cmp) && NoneAbove(s)
    decreases if c <= s.maxLevel then s.maxLevel + 1 - c else 0
  {
    var views := Comp(s, c);
    if table == map[] || views == [] || !MustMerge(lim, views, table) then true
    else
      var before := BeforeDescent(s, c, table);
      assert forall d: nat :: Comp(before, d) == Comp(s, d);
      !Ordered(lim, views, table) && Returns(lim, before, before.tables[s.curTable], s.curTable, c + 1)
  }

  /** Without a limit on the tables of a level, it always does. */
  lemma {:induction false} UnlimitedReturns(lim: Limits, s: Levels, table: Table, id: nat, c: nat)
    requires IsComparator(lim.cmp) && NoneAbove(s) && lim.maxTable == 0
    ensures Returns(lim, s, table, id, c)
    decreases if c <= s.maxLevel then s.maxLevel + 1 - c else 0
  {
    var views := Comp(s, c);
    if table != map[] && views != [] && MustMerge(lim, views, table) {
      var before := BeforeDescent(s, c, table);
      assert forall d: nat :: Comp(before, d) == Comp(s, d);
      UnlimitedReturns(lim, before, before.tables[s.curTable], s.curTable, c + 1);
    }
  }

  // ---------- the outcomes of the call as equations ----------

  lemma {:induction false} MergeReturns(lim: Limits, s: Levels, table: Table, id: nat, c: nat)
    requires IsComparator(lim.cmp) && NoneAbove(s) && NoneAbove(BeforeDescent(s, c, table))
    requires table != map[] && Comp(s, c) != [] && MustMerge(lim, Comp(s, c), table)
    ensures var before := BeforeDescent(s, c, table);
            Returns(lim, s, table, id, c)
            <==> !Ordered(lim, Comp(s, c), table)
                 && Returns(lim, before, Load(before.tables, s.curTable), s.curTable, c + 1)
  {
  }

  lemma {:induction false} PlaceReturns(lim: Limits, s: Levels, table: Table, id: nat, c: nat)
    requires IsComparator(lim.cmp) && NoneAbove(s)
    requires table == map[] || Comp(s, c) == [] || !MustMerge(lim, Comp(s, c), table)
    ensures Returns(lim, s, table, id, c)
  {
  }
}
