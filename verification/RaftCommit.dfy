/** When a message takes the commit index of a node back. */
module RaftCommits {
  import opened Buffers
  import opened RaftNodes

  predicate TakenBy(logs: Storage, lastApplied: nat, entries: seq<Entry>, i: nat, k: nat) {
    k < |entries| && FirstConflict(logs, lastApplied, entries, k) && entries[k].index <= i
  }

  /** The logs that are stored afterwards end before `c`: the first conflict takes away what is stored from there on,
      and brings nothing itself; every other unapplied entry stays or is added. */
  ghost predicate EndsBefore(logs: Storage, lastApplied: nat, entries: seq<Entry>, c: nat) {
    && (forall i :: i in logs && i >= c ==> exists k: nat :: TakenBy(logs, lastApplied, entries, i, k))
    && (forall j :: 0 <= j < |entries| && entries[j].index > lastApplied && entries[j].index >= c ==>
          FirstConflict(logs, lastApplied, entries, j))
  }

  predicate NothingFrom(logs: Storage, c: nat) {
    forall i :: i in logs ==> i < c
  }

  lemma {:induction false} OneMoreLog(logs: Storage, e: Entry, c: nat)
    ensures NothingFrom(logs[e.index := e], c) <==> NothingFrom(logs, c) && e.index < c
  {
    var now := logs[e.index := e];
    assert e.index in now && forall i :: i in logs ==> i in now;
  }

  lemma {:induction false} AppendedFrom(logs: Storage, lastApplied: nat, entries: seq<Entry>, c: nat)
    ensures NothingFrom(Store(logs, lastApplied, false, entries), c)
            <==> NothingFrom(logs, c) && forall e :: e in entries && e.index > lastApplied ==> e.index < c
    decreases |entries|
  {
    if entries != [] {
      var first, rest := entries[0], entries[1..];
      var now := if first.index <= lastApplied then logs else logs[first.index := first];
      AppendedFrom(now, lastApplied, rest, c);
      assert first in entries && forall e :: e in entries <==> e == first || e in rest;
      if first.index > lastApplied {
        OneMoreLog(logs, first, c);
      }
    }
  }

  /** Where the first entry conflicts. */
  lemma {:induction false} EndAtConflict(logs: Storage, lastApplied: nat, entries: seq<Entry>, c: nat)
    requires Increasing(entries) && entries != [] && Conflicts(logs, lastApplied, entries[0])
    ensures EndsBefore(logs, lastApplied, entries, c)
            <==> NothingFrom(RemoveAfter(logs, entries[0].index), c)
                 && forall e :: e in entries[1..] && e.index > lastApplied ==> e.index < c
  {
    assert FirstConflict(logs, lastApplied, entries, 0);
    assert forall k :: 0 < k < |entries| ==> !FirstConflict(logs, lastApplied, entries, k);
    var after, rest := RemoveAfter(logs, entries[0].index), entries[1..];
    if EndsBefore(logs, lastApplied, entries, c) {
      forall e | e in rest && e.index > lastApplied ensures e.index < c {
        var j :| 0 <= j < |rest| && rest[j] == e;
        assert entries[j + 1] == e;
      }
    }
    if NothingFrom(after, c) && forall e :: e in rest && e.index > lastApplied ==> e.index < c {
      forall i | i in logs && i >= c ensures TakenBy(logs, lastApplied, entries, i, 0) {
        assert i !in after;
      }
      forall j | 0 < j < |entries| && entries[j].index > lastApplied ensures entries[j].index < c {
        assert entries[j] in rest;
      }
    }
  }

  /** What is stored once an entry that does not conflict has been skipped, kept or added. */
  function WithFirst(logs: Storage, lastApplied: nat, first: Entry): Storage {
    if first.index <= lastApplied || first.index in logs then logs else logs[first.index := first]
  }

  lemma {:induction false} SameConflicts(logs: Storage, lastApplied: nat, entries: seq<Entry>)
    requires Increasing(entries) && entries != [] && !Conflicts(logs, lastApplied, entries[0])
    ensures var now := WithFirst(logs, lastApplied, entries[0]);
            forall k :: 1 <= k < |entries| ==>
              (FirstConflict(logs, lastApplied, entries, k) <==> FirstConflict(now, lastApplied, entries[1..], k - 1))
  {
    var now := WithFirst(logs, lastApplied, entries[0]);
    forall k | 1 <= k < |entries|
      ensures FirstConflict(logs, lastApplied, entries, k) <==> FirstConflict(now, lastApplied, entries[1..], k - 1)
    {
      SameFirst(logs, now, lastApplied, entries, k);
    }
  }

  lemma {:induction false} EndStays(logs: Storage, lastApplied: nat, entries: seq<Entry>, c: nat)
    requires Increasing(entries) && entries != [] && !Conflicts(logs, lastApplied, entries[0])
    requires EndsBefore(logs, lastApplied, entries, c)
    ensures EndsBefore(WithFirst(logs, lastApplied, entries[0]), lastApplied, entries[1..], c)
  {
    SameConflicts(logs, lastApplied, entries);
    var now, rest := WithFirst(logs, lastApplied, entries[0]), entries[1..];
    forall i | i in now && i >= c ensures exists k: nat :: TakenBy(now, lastApplied, rest, i, k) {
      var k: nat :| TakenBy(logs, lastApplied, entries, i, k);
      assert TakenBy(now, lastApplied, rest, i, k - 1);
    }
    forall j | 0 <= j < |rest| && rest[j].index > lastApplied && rest[j].index >= c
      ensures FirstConflict(now, lastApplied, rest, j)
    {
      assert FirstConflict(logs, lastApplied, entries, j + 1);
    }
  }

  lemma {:induction false} EndWasThere(logs: Storage, lastApplied: nat, entries: seq<Entry>, c: nat)
    requires Increasing(entries) && entries != [] && !Conflicts(logs, lastApplied, entries[0])
    requires EndsBefore(WithFirst(logs, lastApplied, entries[0]), lastApplied, entries[1..], c)
    ensures EndsBefore(logs, lastApplied, entries, c)
  {
    SameConflicts(logs, lastApplied, entries);
    var now, rest := WithFirst(logs, lastApplied, entries[0]), entries[1..];
    assert forall i :: i in logs ==> i in now;
    forall i | i in logs && i >= c ensures exists k: nat :: TakenBy(logs, lastApplied, entries, i, k) {
      var k: nat :| TakenBy(now, lastApplied, rest, i, k);
      assert TakenBy(logs, lastApplied, entries, i, k + 1);
    }
    assert entries[0].index > lastApplied ==> entries[0].index in now;
    forall j | 0 < j < |entries| && entries[j].index > lastApplied && entries[j].index >= c
      ensures FirstConflict(logs, lastApplied, entries, j)
    {
      assert FirstConflict(now, lastApplied, rest, j - 1);
    }
  }

  lemma {:induction false} StoredEndsBefore(logs: Storage, lastApplied: nat, entries: seq<Entry>, c: nat)
    requires Increasing(entries)
    ensures NothingFrom(Store(logs, lastApplied, true, entries), c) <==> EndsBefore(logs, lastApplied, entries, c)
    decreases |entries|
  {
    if entries != [] {
      RestIsLarger(entries);
      var first, rest := entries[0], entries[1..];
      if Conflicts(logs, lastApplied, first) {
        EndAtConflict(logs, lastApplied, entries, c);
        AppendedFrom(RemoveAfter(logs, first.index), lastApplied, rest, c);
      } else {
        var now := WithFirst(logs, lastApplied, first);
        StoredEndsBefore(now, lastApplied, rest, c);
        if EndsBefore(now, lastApplied, rest, c) {
          EndWasThere(logs, lastApplied, entries, c);
        }
        if EndsBefore(logs, lastApplied, entries, c) {
          EndStays(logs, lastApplied, entries, c);
        }
      }
    }
  }

  /** When a message takes the commit index back, by what the node and the message hold before the call. */
  lemma {:induction false} CommitFallsIff(n: Node, m: Message, ok: nat)
    requires Increasing(m.entries)
    ensures AfterAppend(n, m, ok).commitIndex < n.commitIndex
            <==> Result(n, m) == Success && 0 < n.commitIndex < m.leaderCommit
                 && EndsBefore(n.logs, n.lastApplied, m.entries, n.commitIndex)
  {
    if Result(n, m) == Success {
      AcceptedCommitFallsIff(n, m, ok);
    }
  }

  lemma {:induction false} AcceptedCommitFallsIff(n: Node, m: Message, ok: nat)
    requires Result(n, m) == Success && Increasing(m.entries)
    ensures AfterAppend(n, m, ok).commitIndex < n.commitIndex
            <==> 0 < n.commitIndex < m.leaderCommit && EndsBefore(n.logs, n.lastApplied, m.entries, n.commitIndex)
  {
    var a := Accepted(n, m.leaderId, m.leaderTerm).(votedFor := None);
    var after := Store(n.logs, n.lastApplied, true, m.entries);
    ApplyKeepsRest(Committed(a.(logs := after), m.leaderCommit), Stop, ok);
    StoredEndsBefore(n.logs, n.lastApplied, m.entries, n.commitIndex);
    assert n.commitIndex > 0 ==> (LastIndex(after) < n.commitIndex <==> NothingFrom(after, n.commitIndex));
  }

  /** The first conflict lies at or before `c`, and no entry that follows it reaches `c`. */
  predicate CutsOff(logs: Storage, lastApplied: nat, entries: seq<Entry>, c: nat, k: nat) {
    && k < |entries| && FirstConflict(logs, lastApplied, entries, k) && entries[k].index <= c
    && (k + 1 == |entries| || entries[|entries| - 1].index < c)
  }

  lemma {:induction false} CutOffIff(logs: Storage, lastApplied: nat, entries: seq<Entry>, c: nat)
    requires Increasing(entries) && c in logs
    ensures EndsBefore(logs, lastApplied, entries, c) <==> exists k: nat :: CutsOff(logs, lastApplied, entries, c, k)
  {
    if EndsBefore(logs, lastApplied, entries, c) {
      var k: nat :| TakenBy(logs, lastApplied, entries, c, k);
      if k + 1 < |entries| {
        assert entries[k].index < entries[|entries| - 1].index;
        assert !FirstConflict(logs, lastApplied, entries, |entries| - 1);
      }
      assert CutsOff(logs, lastApplied, entries, c, k);
    }
    if k: nat :| CutsOff(logs, lastApplied, entries, c, k) {
      assert forall j :: 0 <= j < |entries| ==> entries[j].index <= entries[|entries| - 1].index;
      assert forall j :: 0 <= j < |entries| && entries[j].index >= c ==> j == k;
      assert forall i :: i in logs && i >= c ==> TakenBy(logs, lastApplied, entries, i, k);
    }
  }

  /** Where the committed log is stored: exactly if a conflict at or before it cuts it off. */
  lemma {:induction false} StoredCommitFallsIff(n: Node, m: Message, ok: nat)
    requires Result(n, m) == Success && Increasing(m.entries) && n.commitIndex in n.logs
    ensures AfterAppend(n, m, ok).commitIndex < n.commitIndex
            <==> n.commitIndex < m.leaderCommit
                 && exists k: nat :: CutsOff(n.logs, n.lastApplied, m.entries, n.commitIndex, k)
  {
    CommitFallsIff(n, m, ok);
    CutOffIff(n.logs, n.lastApplied, m.entries, n.commitIndex);
  }

  lemma {:induction false} StoreOnlyAdds(logs: Storage, lastApplied: nat, entries: seq<Entry>)
    requires Increasing(entries) && NoConflict(logs, lastApplied, entries)
    ensures logs.Keys <= Store(logs, lastApplied, true, entries).Keys
    decreases |entries|
  {
    if entries != [] {
      RestIsLarger(entries);
      var first, rest := entries[0], entries[1..];
      assert first in entries && forall x :: x in rest ==> x in entries;
      var now := if first.index <= lastApplied || first.index in logs then logs else logs[first.index := first];
      forall x | x in rest ensures !Conflicts(now, lastApplied, x) {
        assert !Conflicts(logs, lastApplied, x);
      }
      StoreOnlyAdds(now, lastApplied, rest);
    }
  }

  /** A message that conflicts with nothing never takes the commit index back, if it lay within the logs. */
  lemma {:induction false} CommitRises(n: Node, m: Message, ok: nat)
    requires Increasing(m.entries) && NoConflict(n.logs, n.lastApplied, m.entries)
    requires n.commitIndex == 0 || n.commitIndex in n.logs
    ensures AfterAppend(n, m, ok).commitIndex >= n.commitIndex
  {
    if Result(n, m) == Success {
      CommitFallsIff(n, m, ok);
      StoredEndsBefore(n.logs, n.lastApplied, m.entries, n.commitIndex);
      StoreOnlyAdds(n.logs, n.lastApplied, m.entries);
      if n.commitIndex > 0 {
        assert n.commitIndex in Store(n.logs, n.lastApplied, true, m.entries);
      }
    }
  }

  /** Three logs of term 1, committed by their leader; the application takes none of them yet. */
  const FIRST_LOGS := Message([Entry(1, 1, []), Entry(2, 1, []), Entry(3, 1, [])], 1, 1, 0, 0, 3)

  /** The leader of term 2 is ahead, and has another log at 2. */
  const OTHER_LOG := Message([Entry(2, 2, [])], 2, 2, 0, 0, 4)

  lemma {:induction false} ThreeAreStored()
    ensures Store(map[], 0, true, FIRST_LOGS.entries)
            == map[1 := Entry(1, 1, []), 2 := Entry(2, 1, []), 3 := Entry(3, 1, [])]
  {
    var e := FIRST_LOGS.entries;
    assert e[1..] == [e[1], e[2]] && e[1..][1..] == [e[2]] && e[1..][1..][1..] == [];
    calc {
      Store(map[], 0, true, e);
      Store(map[1 := e[0]], 0, true, e[1..]);
      Store(map[1 := e[0], 2 := e[1]], 0, true, e[1..][1..]);
      Store(map[1 := e[0], 2 := e[1], 3 := e[2]], 0, true, []);
    }
  }

  /** A run of a new node in which the commit index goes from 3 back to 1: the log at 2 conflicts. */
  lemma {:induction false} CommitCanFall() returns (nodes: seq<Node>, steps: seq<Step>)
    ensures IsRun(nodes, steps) && nodes[0] == NewNode(0, 3)
    ensures steps == [Append(FIRST_LOGS, 0), Append(OTHER_LOG, 0)] && Result(nodes[1], OTHER_LOG) == Success
    ensures nodes[1].commitIndex == 3 && nodes[2].commitIndex == 1
  {
    var n := NewNode(0, 3);
    var n1 := Next(n, Append(FIRST_LOGS, 0));
    ThreeAreStored();
    var logs := Store(map[], 0, true, FIRST_LOGS.entries);
    assert 3 in logs && IsLast(logs, LastIndex(logs));
    assert n1.logs == logs && n1.commitIndex == 3 && n1.lastApplied == 0;
    var after := RemoveAfter(logs, 2);
    assert OTHER_LOG.entries[1..] == [];
    assert Store(logs, 0, true, OTHER_LOG.entries) == after;
    assert 1 in after && IsLast(after, LastIndex(after));
    nodes, steps := [n, n1, Next(n1, Append(OTHER_LOG, 0))], [Append(FIRST_LOGS, 0), Append(OTHER_LOG, 0)];
  }

  // ---------- no further than the leader ----------

  /** The largest commit index that messages, or the node's own user, have told the node of. */
  function ToldCommitted(steps: seq<Step>): nat {
    if steps == [] then 0
    else
      var before, last := ToldCommitted(steps[..|steps| - 1]), steps[|steps| - 1];
      var told := match last
        case Append(m, _) => m.leaderCommit
        case SetCommit(index) => index
        case _ => 0;
      if before < told then told else before
  }

  lemma {:induction false} CommitStep(n: Node, step: Step)
    requires AppliedOnce(n) && Regular(n, step)
    ensures Next(n, step).commitIndex <= n.commitIndex
            || (step.Append? && Next(n, step).commitIndex <= step.m.leaderCommit)
            || (step.SetCommit? && Next(n, step).commitIndex <= step.index)
  {
    match step
    case Append(m, ok) => CommitAfterAppend(n, m, ok);
    case Apply(policy, ok) => ApplyKeepsRest(n, policy, ok);
    case _ =>
  }

  /** Over every regular run of a new node, nothing is committed or applied that nobody has told it is committed. */
  lemma {:induction false} OnlyCommittedIsApplied(nodes: seq<Node>, steps: seq<Step>, self: Id, members: nat)
    requires IsRun(nodes, steps) && nodes[0] == NewNode(self, members)
    requires forall i :: 0 <= i < |steps| ==> Regular(nodes[i], steps[i])
    ensures nodes[|steps|].lastApplied <= nodes[|steps|].commitIndex <= ToldCommitted(steps)
    ensures |nodes[|steps|].applied| <= ToldCommitted(steps)
  {
    NewNodeAppliesInOrder(nodes, steps, self, members);
    if steps != [] {
      var n := |steps| - 1;
      RunPrefix(nodes, steps);
      OnlyCommittedIsApplied(nodes[..n + 1], steps[..n], self, members);
      assert AppliedOnce(nodes[0]);
      RunKeepsPrefix(nodes, steps, n);
      CommitStep(nodes[n], steps[n]);
    }
  }

  // ---------- as far as possible ----------

  /** The logs that are stored at the indices behind `i` up to `j`, in order. */
  function StoredBetween(logs: Storage, i: nat, j: nat): seq<Entry>
    requires i <= j
  {
    if i == j then []
    else StoredBetween(logs, i, j - 1) + if j in logs then [logs[j]] else []
  }

  lemma {:induction false} FirstOfBetween(logs: Storage, i: nat, j: nat)
    requires i < j
    ensures StoredBetween(logs, i, j) == (if i + 1 in logs then [logs[i + 1]] else []) + StoredBetween(logs, i + 1, j)
  {
    if i + 1 < j {
      FirstOfBetween(logs, i, j - 1);
    }
  }

  /** Applying takes the committed logs in order and skips missing ones only if told to. It stops at the commit index,
      at a log that the application does not take after `ok` others, or, if told so, at a missing one. */
  lemma {:induction false} AppliesAsFar(n: Node, policy: ApplyPolicy, ok: nat)
    ensures var k := AfterApply(n, policy, ok).lastApplied;
            && n.lastApplied <= k && (n.lastApplied < k ==> k <= n.commitIndex)
            && AfterApply(n, policy, ok).applied == n.applied + StoredBetween(n.logs, n.lastApplied, k)
            && |StoredBetween(n.logs, n.lastApplied, k)| <= ok
            && (policy == Stop ==> forall i :: n.lastApplied < i <= k ==> i in n.logs)
            && (k < n.commitIndex ==>
                 if k + 1 in n.logs then |StoredBetween(n.logs, n.lastApplied, k)| == ok else policy == Stop)
    decreases n.commitIndex - n.lastApplied
  {
    var after := AfterApply(n, policy, ok);
    if n.lastApplied < n.commitIndex {
      var i := n.lastApplied + 1;
      if i in n.logs && ok > 0 {
        var next := n.(lastApplied := i, storedApplied := i, applied := n.applied + [n.logs[i]]);
        AppliesAsFar(next, policy, ok - 1);
        FirstOfBetween(n.logs, n.lastApplied, after.lastApplied);
      } else if i !in n.logs && policy == Ignore {
        var next := n.(lastApplied := i, storedApplied := i);
        AppliesAsFar(next, policy, ok);
        FirstOfBetween(n.logs, n.lastApplied, after.lastApplied);
      }
    }
  }

  /** How far it got is persistent. */
  lemma {:induction false} ProgressIsStored(n: Node, policy: ApplyPolicy, ok: nat)
    requires n.storedApplied == n.lastApplied
    ensures AfterApply(n, policy, ok).storedApplied == AfterApply(n, policy, ok).lastApplied
    decreases n.commitIndex - n.lastApplied
  {
    if n.lastApplied < n.commitIndex {
      var i := n.lastApplied + 1;
      if i in n.logs && ok > 0 {
        ProgressIsStored(n.(lastApplied := i, storedApplied := i, applied := n.applied + [n.logs[i]]), policy, ok - 1);
      } else if i !in n.logs && policy == Ignore {
        ProgressIsStored(n.(lastApplied := i, storedApplied := i), policy, ok);
      }
    }
  }
}
