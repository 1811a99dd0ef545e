/** What the memory counter counts. */
module LevelMemories {
  import opened Buffers
  import opened MemoryTables
  import opened LevelStore
  import opened LevelDb

  /** The bytes of a key and its value; a deleted key has none but its own. */
  function EntrySize(k: Key, e: Entry): nat {
    |k| + if e.Value? then |e.value| else 0
  }

  function Held(opt: Options, m: MemTable): nat
    requires IsComparator(opt.lim.cmp)
  {
    MemSize(opt.lim.cmp, m, m.Keys)
  }

  // ---------- bytes held ----------

  /** Every key counts once, wherever the order of keys puts it. */
  lemma {:induction false} EachCounts(cmp: Comparator, m: MemTable, keys: set<Key>, k: Key)
    requires IsComparator(cmp) && keys <= m.Keys && k in keys
    ensures MemSize(cmp, m, keys) == EntrySize(k, m[k]) + MemSize(cmp, m, keys - {k})
    decreases |keys|
  {
    var l := LeastKey(cmp, keys);
    if k != l {
      EachCounts(cmp, m, keys - {l}, k);
      assert keys - {k} != {} && l in keys - {k};
      assert LeastKey(cmp, keys - {k}) == l by {
        StillLeast(cmp, keys, k);
      }
      assert keys - {l} - {k} == keys - {k} - {l};
    }
  }

  lemma {:induction false} StillLeast(cmp: Comparator, keys: set<Key>, k: Key)
    requires IsComparator(cmp) && keys != {} && k != LeastKey(cmp, keys)
    ensures keys - {k} != {} && LeastKey(cmp, keys - {k}) == LeastKey(cmp, keys)
  {
    var l := LeastKey(cmp, keys);
    assert l in keys - {k};
    var x := LeastKey(cmp, keys - {k});
    assert Le(cmp, l, x) && Le(cmp, x, l);
  }

  lemma {:induction false} SameHeld(cmp: Comparator, m: MemTable, n: MemTable, keys: set<Key>)
    requires IsComparator(cmp) && keys <= m.Keys && keys <= n.Keys && forall k :: k in keys ==> m[k] == n[k]
    ensures MemSize(cmp, m, keys) == MemSize(cmp, n, keys)
    decreases |keys|
  {
    if keys != {} {
      SameHeld(cmp, m, n, keys - {LeastKey(cmp, keys)});
    }
  }

  /** Nothing is held by an empty table; an entry adds its bytes and takes those of the entry it replaces away. */
  lemma {:induction false} HeldAfterEntry(opt: Options, m: MemTable, k: Key, e: Entry)
    requires IsComparator(opt.lim.cmp)
    ensures Held(opt, map[]) == 0
    ensures Held(opt, m[k := e]) + (if k in m then EntrySize(k, m[k]) else 0) == Held(opt, m) + EntrySize(k, e)
  {
    var n := m[k := e];
    EachCounts(opt.lim.cmp, n, n.Keys, k);
    SameHeld(opt.lim.cmp, m, n, m.Keys - {k});
    assert n.Keys - {k} == m.Keys - {k};
    if k in m {
      EachCounts(opt.lim.cmp, m, m.Keys, k);
    } else {
      assert m.Keys - {k} == m.Keys;
    }
  }

  // ---------- bytes written ----------

  /** A batch counts the keys of all its writes and the values of its puts. */
  lemma {:induction false} SizesAdd(a: Batch, b: Batch)
    ensures BatchSize(a + b) == BatchSize(a) + BatchSize(b)
    ensures forall k, v :: BatchSize([Put(k, v)]) == |k| + |v| && BatchSize([Delete(k)]) == |k|
  {
    forall w: Write ensures BatchSize([w]) == WriteSize(w) {
      assert [w][..0] == [];
    }
    if b == [] {
      assert a + b == a;
    } else {
      var init := b[..|b| - 1];
      assert (a + b)[..|a + b| - 1] == a + init;
      SizesAdd(a, init);
    }
  }

  lemma {:induction false} HeldAfterBatch(opt: Options, m: MemTable, b: Batch)
    requires IsComparator(opt.lim.cmp)
    ensures Held(opt, ApplyBatch(false, m, b)) <= Held(opt, m) + BatchSize(b)
  {
    if b != [] {
      var init, w := b[..|b| - 1], b[|b| - 1];
      HeldAfterBatch(opt, m, init);
      HeldAfterEntry(opt, ApplyBatch(false, m, init), w.key, if w.Put? then Value(w.value) else Tombstone);
    }
  }

  /** A batch adds to the counter what it writes, a rotation starts again, and opening recounts what is held. */
  ghost predicate Counts(opt: Options, d: Db, step: Step, e: Db)
    requires IsComparator(opt.lim.cmp)
  {
    match step
    case AppendStep(b) => e.used == d.used + BatchSize(b)
    case RotateStep => e.used == 0
    case ReopenStep => e.used == Held(opt, e.mem) <= d.used
  }

  lemma {:induction false} NextCounts(opt: Options, d: Db, step: Step, e: Db, plain: Plain)
    requires Usable(opt) && DbGood(opt, d, plain) && Next(opt, d, step, e) && Held(opt, d.mem) <= d.used
    ensures Held(opt, e.mem) <= e.used && Counts(opt, d, step, e)
  {
    match step
    case AppendStep(b) => HeldAfterBatch(opt, d.mem, b);
    case RotateStep => HeldAfterEntry(opt, map[], [], Tombstone);
    case ReopenStep => ReopenRebuilds(opt, d);
  }

  /** The counter is what has been written to the memory table, and never less than what it holds, which is what it is
      set to when the store is opened. */
  lemma {:induction false} RunCounts(opt: Options, steps: seq<Step>, states: seq<Db>)
    requires Usable(opt) && IsRun(opt, steps, states)
    ensures Held(opt, states[|steps|].mem) <= states[|steps|].used
    ensures steps != [] ==> Counts(opt, states[|steps| - 1], steps[|steps| - 1], states[|steps|])
  {
    if steps != [] {
      var n := |steps| - 1;
      RunPrefix(opt, steps, states);
      RunCounts(opt, steps[..n], states[..n + 1]);
      RunIsGood(opt, steps[..n], states[..n + 1]);
      NextCounts(opt, states[n], steps[n], states[n + 1], PlainLog(Written(steps[..n])));
    } else {
      HeldAfterEntry(opt, map[], [], Tombstone);
    }
  }
}
