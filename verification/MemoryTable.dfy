/** The in-memory table: a map kept in step with a log of write batches. */
module MemoryTables {
  import opened Buffers

  datatype Entry = Value(value: Bytes) | Tombstone

  type MemTable = map<Key, Entry>

  datatype Write = Put(key: Key, value: Bytes) | Delete(key: Key)

  type Batch = seq<Write>

  datatype ExistStatus = Exist | NotExist | Deleted

  /** What the writes mean: an ordinary map. */
  type Plain = map<Key, Bytes>

  function PlainWrite(m: Plain, w: Write): Plain {
    match w
    case Put(k, v) => m[k := v]
    case Delete(k) => m - {k}
  }

  function PlainBatch(m: Plain, b: Batch): Plain {
    if b == [] then m else PlainWrite(PlainBatch(m, b[..|b| - 1]), b[|b| - 1])
  }

  function PlainLog(log: seq<Batch>): Plain {
    if log == [] then map[] else PlainBatch(PlainLog(log[..|log| - 1]), log[|log| - 1])
  }

  /** A table that erases directly forgets deleted keys; any other keeps a tombstone, also for unknown keys. */
  function ApplyWrite(direct: bool, m: MemTable, w: Write): MemTable {
    match w
    case Put(k, v) => m[k := Value(v)]
    case Delete(k) => if direct then m - {k} else m[k := Tombstone]
  }

  function ApplyBatch(direct: bool, m: MemTable, b: Batch): MemTable {
    if b == [] then m else ApplyWrite(direct, ApplyBatch(direct, m, b[..|b| - 1]), b[|b| - 1])
  }

  function Replay(direct: bool, log: seq<Batch>): MemTable {
    if log == [] then map[] else ApplyBatch(direct, Replay(direct, log[..|log| - 1]), log[|log| - 1])
  }

  /** The undeleted part of a table. */
  function Live(m: MemTable): Plain {
    map k | k in m && m[k].Value? :: m[k].value
  }

  lemma {:induction false} BatchIsPlain(direct: bool, m: MemTable, b: Batch)
    ensures Live(ApplyBatch(direct, m, b)) == PlainBatch(Live(m), b)
  {
    if b != [] {
      BatchIsPlain(direct, m, b[..|b| - 1]);
    }
  }

  /** Whichever way deletions are recorded, replaying a log gives what a plain map given the same writes holds. */
  lemma {:induction false} ReplayIsPlain(direct: bool, log: seq<Batch>)
    ensures Live(Replay(direct, log)) == PlainLog(log)
  {
    if log != [] {
      ReplayIsPlain(direct, log[..|log| - 1]);
      BatchIsPlain(direct, Replay(direct, log[..|log| - 1]), log[|log| - 1]);
    }
  }

  /** Without direct erasure no key that was ever written is forgotten. */
  lemma {:induction false} BatchKeepsKeys(m: MemTable, b: Batch)
    ensures ApplyBatch(false, m, b).Keys == m.Keys + (set w | w in b :: w.key)
  {
    if b != [] {
      BatchKeepsKeys(m, b[..|b| - 1]);
      assert b == b[..|b| - 1] + [b[|b| - 1]];
    }
  }

  lemma {:induction false} ApplySnoc(direct: bool, m: MemTable, b: Batch, w: Write)
    ensures ApplyBatch(direct, m, b + [w]) == ApplyWrite(direct, ApplyBatch(direct, m, b), w)
  {
  }

  lemma {:induction false} ReplaySnoc(direct: bool, log: seq<Batch>, b: Batch)
    ensures Replay(direct, log + [b]) == ApplyBatch(direct, Replay(direct, log), b)
  {
  }

  class MemoryTable {
    var entries: MemTable
    var log: seq<Batch>
    const directlyErase: bool

    /** The map is at every moment what replaying the log rebuilds. */
    ghost predicate Valid()
      reads this
    {
      entries == Replay(directlyErase, log)
    }

    /** A table over an existing log is empty until `Restore` is called. */
    constructor (direct: bool, log: seq<Batch>)
      ensures this.log == log && directlyErase == direct && entries == map[]
    {
      this.entries, this.log, this.directlyErase := map[], log, direct;
    }

    method InternalPut(key: Key, value: Bytes)
      modifies this`entries
      ensures entries == ApplyWrite(directlyErase, old(entries), Put(key, value))
    {
      entries := entries[key := Value(value)];
    }

    method InternalDelete(key: Key)
      modifies this`entries
      ensures entries == ApplyWrite(directlyErase, old(entries), Delete(key))
    {
      if key in entries {
        if directlyErase {
          entries := entries - {key};
        } else {
          entries := entries[key := Tombstone];
        }
      } else if !directlyErase {
        entries := entries[key := Tombstone];
      }
    }

    method InternalAction(batch: Batch)
      modifies this`entries
      ensures entries == ApplyBatch(directlyErase, old(entries), batch)
    {
      for i := 0 to |batch|
        invariant entries == ApplyBatch(directlyErase, old(entries), batch[..i])
      {
        ApplySnoc(directlyErase, old(entries), batch[..i], batch[i]);
        assert batch[..i + 1] == batch[..i] + [batch[i]];
        match batch[i]
        case Put(k, v) => InternalPut(k, v);
        case Delete(k) => InternalDelete(k);
      }
      assert batch[..|batch|] == batch;
    }

    /** Logs the batch, then applies it. */
    method Action(batch: Batch)
      requires Valid()
      modifies this`entries, this`log
      ensures Valid() && log == old(log) + [batch]
      ensures Live(entries) == PlainBatch(old(Live(entries)), batch)
    {
      ReplaySnoc(directlyErase, log, batch);
      BatchIsPlain(directlyErase, entries, batch);
      log := log + [batch];
      InternalAction(batch);
    }

    method Restore()
      requires entries == map[]
      modifies this`entries
      ensures Valid() && Live(entries) == PlainLog(log)
    {
      for i := 0 to |log|
        invariant entries == Replay(directlyErase, log[..i])
      {
        ReplaySnoc(directlyErase, log[..i], log[i]);
        assert log[..i + 1] == log[..i] + [log[i]];
        InternalAction(log[i]);
      }
      assert log[..|log|] == log;
      ReplayIsPlain(directlyErase, log);
    }

    /** A key that exists is one the plain map holds; a deleted one is one it does not. */
    method ExistKey(key: Key) returns (status: ExistStatus)
      requires Valid()
      ensures status == Exist <==> key in PlainLog(log)
      ensures directlyErase ==> status != Deleted
      ensures !directlyErase ==> (status == NotExist <==> key !in Replay(false, log))
    {
      ReplayIsPlain(directlyErase, log);
      DirectHasNoTombstones(log);
      assert key in Live(entries) <==> key in entries && entries[key].Value?;
      if key !in entries {
        return NotExist;
      } else if entries[key].Tombstone? {
        return Deleted;
      }
      return Exist;
    }

    /** The value, or nothing where the program throws `out_of_range`. */
    method Get(key: Key) returns (r: Option<Bytes>)
      requires Valid()
      ensures r == Buffers.Get(PlainLog(log), key)
    {
      ReplayIsPlain(directlyErase, log);
      assert key in Live(entries) <==> key in entries && entries[key].Value?;
      if key !in entries || entries[key].Tombstone? {
        return None;
      }
      return Some(entries[key].value);
    }
  }

  lemma {:induction false} DirectBatchHasNoTombstones(m: MemTable, b: Batch)
    requires forall k :: k in m ==> m[k].Value?
    ensures forall k :: k in ApplyBatch(true, m, b) ==> ApplyBatch(true, m, b)[k].Value?
  {
    if b != [] {
      DirectBatchHasNoTombstones(m, b[..|b| - 1]);
    }
  }

  lemma {:induction false} DirectHasNoTombstones(log: seq<Batch>)
    ensures forall k :: k in Replay(true, log) ==> Replay(true, log)[k].Value?
  {
    if log != [] {
      DirectHasNoTombstones(log[..|log| - 1]);
      DirectBatchHasNoTombstones(Replay(true, log[..|log| - 1]), log[|log| - 1]);
    }
  }
}
