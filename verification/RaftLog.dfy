/** What the storage of a node holds after a message has been taken in. */
module RaftLogs {
  import opened Buffers
  import opened RaftNodes

  /** An entry of the message that is meant for index `i`, and not applied yet. */
  predicate Sent(entries: seq<Entry>, lastApplied: nat, i: nat, e: Entry) {
    e in entries && e.index == i && i > lastApplied
  }

  ghost predicate NothingSent(entries: seq<Entry>, lastApplied: nat, i: nat) {
    forall e :: !Sent(entries, lastApplied, i, e)
  }

  /** What was stored stays, and what was missing is filled in from the message. */
  ghost predicate KeptOrFilled(logs: Storage, lastApplied: nat, entries: seq<Entry>, after: Storage, i: nat) {
    if i in logs then Get(after, i) == Some(logs[i])
    else
      && (forall e :: Sent(entries, lastApplied, i, e) ==> Get(after, i) == Some(e))
      && (NothingSent(entries, lastApplied, i) ==> i !in after)
  }

  /** The message replaces what was stored. */
  ghost predicate Replaced(logs: Storage, lastApplied: nat, entries: seq<Entry>, after: Storage, i: nat) {
    && (forall e :: Sent(entries, lastApplied, i, e) ==> Get(after, i) == Some(e))
    && (NothingSent(entries, lastApplied, i) ==> Get(after, i) == Get(logs, i))
  }

  lemma {:induction false} SentFirst(entries: seq<Entry>, lastApplied: nat, i: nat)
    requires Increasing(entries) && entries != []
    ensures forall e :: Sent(entries, lastApplied, i, e)
                        <==> (e == entries[0] && e.index == i > lastApplied) || Sent(entries[1..], lastApplied, i, e)
    ensures i <= entries[0].index ==> NothingSent(entries[1..], lastApplied, i)
  {
    RestIsLarger(entries);
    assert entries == [entries[0]] + entries[1..];
  }

  lemma {:induction false} AppendedContents(logs: Storage, lastApplied: nat, entries: seq<Entry>, i: nat)
    requires Increasing(entries)
    ensures Replaced(logs, lastApplied, entries, Store(logs, lastApplied, false, entries), i)
    decreases |entries|
  {
    if entries != [] {
      RestIsLarger(entries);
      SentFirst(entries, lastApplied, i);
      var first, rest := entries[0], entries[1..];
      var now := if first.index <= lastApplied then logs else logs[first.index := first];
      AppendedContents(now, lastApplied, rest, i);
      if first.index == i && i > lastApplied {
        assert Sent(entries, lastApplied, i, first) && NothingSent(rest, lastApplied, i);
      }
    }
  }

  /** Without a conflict, what was stored stays and what was missing is filled in. */
  lemma {:induction false} ContentsWithoutConflict(logs: Storage, lastApplied: nat, entries: seq<Entry>, i: nat)
    requires Increasing(entries) && NoConflict(logs, lastApplied, entries)
    ensures KeptOrFilled(logs, lastApplied, entries, Store(logs, lastApplied, true, entries), i)
    decreases |entries|
  {
    if entries != [] {
      RestIsLarger(entries);
      SentFirst(entries, lastApplied, i);
      var first, rest := entries[0], entries[1..];
      assert first in entries && forall x :: x in rest ==> x in entries;
      var now := if first.index <= lastApplied || first.index in logs then logs else logs[first.index := first];
      assert !Conflicts(logs, lastApplied, first);
      assert forall x :: x in rest && !Conflicts(logs, lastApplied, x) ==> !Conflicts(now, lastApplied, x);
      ContentsWithoutConflict(now, lastApplied, rest, i);
      if first.index == i && i > lastApplied && i !in logs {
        assert Sent(entries, lastApplied, i, first) && now[i] == first;
      }
    }
  }

  /** What is stored after a message whose first conflict is entry `k`: below it, what was stored and what was missing
      there; nothing at it, though the leader sent a log for this index; behind it, the message and nothing else. */
  lemma {:induction false} ContentsAfterConflict(logs: Storage, lastApplied: nat, entries: seq<Entry>, k: nat, i: nat)
    requires Increasing(entries) && k < |entries| && FirstConflict(logs, lastApplied, entries, k)
    ensures var after, at := Store(logs, lastApplied, true, entries), entries[k].index;
            && (i < at ==> KeptOrFilled(logs, lastApplied, entries, after, i))
            && (i == at ==> i !in after)
            && (i > at ==> Replaced(map[], lastApplied, entries, after, i))
    decreases |entries|
  {
    RestIsLarger(entries);
    SentFirst(entries, lastApplied, i);
    var first, rest := entries[0], entries[1..];
    if k == 0 {
      AppendedContents(RemoveAfter(logs, first.index), lastApplied, rest, i);
      assert i < first.index ==> NothingSent(entries, lastApplied, i);
    } else {
      var now := if first.index <= lastApplied || first.index in logs then logs else logs[first.index := first];
      assert !Conflicts(logs, lastApplied, entries[0]) && first.index < entries[k].index;
      SameFirst(logs, now, lastApplied, entries, k);
      ContentsAfterConflict(now, lastApplied, rest, k - 1, i);
      if first.index == i && i > lastApplied && i !in logs {
        assert Sent(entries, lastApplied, i, first) && now[i] == first;
      }
    }
  }
}
