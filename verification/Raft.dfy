/** One Raft node over an abstract log storage: what it keeps over every run of messages, elections and restarts. */
module RaftNodes {
  import opened Buffers

  type Id = nat

  datatype Entry = Entry(index: nat, term: nat, data: Bytes)

  type Storage = map<nat, Entry>

  datatype Role = Follower | Candidate | Leader

  datatype AppendResult = Success | AccessDenied | LowerTerm | LeakOfLogs

  datatype ApplyPolicy = Stop | Ignore

  /** Term, vote, logs and `storedApplied` are persistent; `applied` lists what the application was given, in order. */
  datatype Node = Node(
    self: Id, leader: Option<Id>, term: nat, votedFor: Option<Id>, logs: Storage, storedApplied: nat,
    role: Role, commitIndex: nat, lastApplied: nat, applied: seq<Entry>, votes: nat, members: nat)

  datatype Message = Message(
    entries: seq<Entry>, leaderId: Id, leaderTerm: nat, prevIndex: nat, prevTerm: nat, leaderCommit: nat)

  // ---------- storage ----------

  ghost predicate IsLast(logs: Storage, i: nat) {
    i in logs && forall j :: j in logs ==> j <= i
  }

  lemma {:induction false} HasLast(keys: set<nat>)
    requires keys != {}
    ensures exists i | i in keys :: forall j | j in keys :: j <= i
  {
    var k :| k in keys;
    var rest := keys - {k};
    if rest == {} {
      assert keys == {k};
    } else {
      HasLast(rest);
      var m :| m in rest && forall j | j in rest :: j <= m;
      var top := if k > m then k else m;
      forall j | j in keys ensures j <= top {
        assert j == k || j in rest;
      }
    }
  }

  function LastIndex(logs: Storage): (i: nat)
    ensures logs == map[] ==> i == 0
    ensures logs != map[] ==> IsLast(logs, i)
  {
    if logs == map[] then 0
    else
      HasLast(logs.Keys);
      var i :| i in logs.Keys && forall j | j in logs.Keys :: j <= i;
      i
  }

  function LastTerm(logs: Storage): nat {
    if logs == map[] then 0 else logs[LastIndex(logs)].term
  }

  /** Removes the logs from `index` on. */
  function RemoveAfter(logs: Storage, index: nat): Storage {
    map i | i in logs && i < index :: logs[i]
  }

  predicate CheckLog(logs: Storage, index: nat, term: nat) {
    index in logs && logs[index].term == term
  }

  // ---------- steps ----------

  function AfterBiggerTerm(n: Node, term: nat): Node {
    n.(votes := 0, role := Follower, leader := None, term := term)
  }

  /** The checks an append or snapshot message has to pass. */
  predicate Refused(n: Node, leaderId: Id, leaderTerm: nat) {
    || leaderTerm < n.term
    || (leaderTerm == n.term && (n.role == Leader || (n.leader.Some? && n.leader != Some(leaderId))))
  }

  function Accepted(n: Node, leaderId: Id, leaderTerm: nat): Node {
    (if n.term < leaderTerm then AfterBiggerTerm(n, leaderTerm) else n).(leader := Some(leaderId))
  }

  /** The loop over the entries: `noskip` is cleared by the first conflict. */
  function Store(logs: Storage, lastApplied: nat, noskip: bool, entries: seq<Entry>): Storage
    decreases |entries|
  {
    if entries == [] then logs
    else
      var e, rest := entries[0], entries[1..];
      if e.index <= lastApplied then Store(logs, lastApplied, noskip, rest)
      else if noskip && e.index in logs then
        if logs[e.index].term != e.term then Store(RemoveAfter(logs, e.index), lastApplied, false, rest)
        else Store(logs, lastApplied, noskip, rest)
      else Store(logs[e.index := e], lastApplied, noskip, rest)
  }

  /** Applies committed logs in order; the application throws once it has taken `ok` of them. */
  function AfterApply(n: Node, policy: ApplyPolicy, ok: nat): Node
    decreases n.commitIndex - n.lastApplied
  {
    if n.lastApplied >= n.commitIndex then n
    else
      var i := n.lastApplied + 1;
      if i in n.logs then
        if ok == 0 then n
        else AfterApply(n.(lastApplied := i, storedApplied := i, applied := n.applied + [n.logs[i]]), policy, ok - 1)
      else if policy == Stop then n
      else AfterApply(n.(lastApplied := i, storedApplied := i), policy, ok)
  }

  predicate LeaksLogs(n: Node, m: Message) {
    m.prevIndex != 0 && m.prevIndex > n.lastApplied && !CheckLog(n.logs, m.prevIndex, m.prevTerm)
  }

  function Committed(n: Node, leaderCommit: nat): Node {
    if n.commitIndex < leaderCommit then
      n.(commitIndex := if leaderCommit < LastIndex(n.logs) then leaderCommit else LastIndex(n.logs))
    else n
  }

  function AfterAppend(n: Node, m: Message, ok: nat): Node {
    if Refused(n, m.leaderId, m.leaderTerm) then n
    else
      var a := Accepted(n, m.leaderId, m.leaderTerm).(votedFor := None);
      if LeaksLogs(a, m) then a
      else AfterApply(Committed(a.(logs := Store(a.logs, a.lastApplied, true, m.entries)), m.leaderCommit), Stop, ok)
  }

  function Result(n: Node, m: Message): AppendResult {
    if m.leaderTerm < n.term then LowerTerm
    else if Refused(n, m.leaderId, m.leaderTerm) then AccessDenied
    else if LeaksLogs(n, m) then LeakOfLogs
    else Success
  }

  function AfterRaise(n: Node): Node {
    n.(leader := None, votes := 0, role := Candidate, term := n.term + 1, votedFor := Some(n.self))
  }

  function AfterStop(n: Node): Node {
    if n.role == Candidate && n.votes >= n.members / 2 then n.(role := Leader, leader := Some(n.self)) else n
  }

  /** The node as it looks at the request, its term brought up to the candidate's. */
  function Considering(n: Node, term: nat): Node {
    if n.term < term then AfterBiggerTerm(n, term).(votedFor := None) else n
  }

  predicate Grants(n: Node, term: nat, candidate: Id, lastIndex: nat, lastTerm: nat) {
    && n.role != Leader && n.term <= term
    && (Considering(n, term).votedFor == None || Considering(n, term).votedFor == Some(candidate))
    && lastIndex >= LastIndex(n.logs) && lastTerm >= LastTerm(n.logs)
  }

  function AfterVote(n: Node, term: nat, candidate: Id, lastIndex: nat, lastTerm: nat): Node {
    if n.role == Leader || n.term > term then n
    else if Grants(n, term, candidate, lastIndex, lastTerm) then
      Considering(n, term).(votes := 0, role := Follower, votedFor := Some(candidate))
    else Considering(n, term)
  }

  /** A new process over the same storage and application. */
  function Restart(n: Node): Node {
    n.(leader := None, role := Follower, lastApplied := n.storedApplied, commitIndex := n.storedApplied, votes := 0)
  }

  datatype Step =
    | Append(m: Message, ok: nat)
    | Snapshot(leaderId: Id, leaderTerm: nat, logs: Storage)
    | Raise | React(vote: nat) | StopElect
    | Vote(term: nat, candidate: Id, lastIndex: nat, lastTerm: nat)
    | NewTerm(term: nat)
    | LeaderLog(entry: Entry) | SetCommit(index: nat) | Apply(policy: ApplyPolicy, ok: nat)
    | Reset | Restarted

  function Next(n: Node, step: Step): Node {
    match step
    case Append(m, ok) => AfterAppend(n, m, ok)
    case Snapshot(leaderId, leaderTerm, logs) =>
      if Refused(n, leaderId, leaderTerm) then n else Accepted(n, leaderId, leaderTerm).(logs := logs)
    case Raise => AfterRaise(n)
    case React(vote) => n.(votes := n.votes + vote)
    case StopElect => AfterStop(n)
    case Vote(term, candidate, lastIndex, lastTerm) => AfterVote(n, term, candidate, lastIndex, lastTerm)
    case NewTerm(term) => if term > n.term then AfterBiggerTerm(n, term) else n
    case LeaderLog(entry) => n.(logs := n.logs[entry.index := entry])
    case SetCommit(index) => if n.commitIndex < index then n.(commitIndex := index) else n
    case Apply(policy, ok) => AfterApply(n, policy, ok)
    case Reset => n.(leader := None)
    case Restarted => Restart(n)
  }

  function NewNode(self: Id, members: nat): Node {
    Node(self, None, 0, None, map[], 0, Follower, 0, 0, [], 0, members)
  }

  ghost predicate IsRun(nodes: seq<Node>, steps: seq<Step>) {
    |nodes| == |steps| + 1 && forall i :: 0 <= i < |steps| ==> nodes[i + 1] == Next(nodes[i], steps[i])
  }

  // ---------- the applied prefix ----------

  predicate Keyed(logs: Storage) {
    forall i :: i in logs ==> logs[i].index == i
  }

  /** Indices 1 to `lastApplied` have been applied once each, in order, and are still stored as they were applied. */
  predicate AppliedOnce(n: Node) {
    && n.storedApplied == n.lastApplied == |n.applied| && n.lastApplied <= n.commitIndex
    && Keyed(n.logs)
    && forall i: nat :: 1 <= i <= |n.applied| ==> i in n.logs && n.logs[i] == n.applied[i - 1]
  }

  /** No snapshots; a leader appends past its last index; committed logs that are missing stop the applying. */
  predicate Regular(n: Node, step: Step) {
    match step
    case Snapshot(_, _, _) => false
    case LeaderLog(entry) => entry.index > LastIndex(n.logs)
    case Apply(policy, _) => policy == Stop
    case _ => true
  }

  lemma {:induction false} StoreKeepsApplied(logs: Storage, lastApplied: nat, noskip: bool, entries: seq<Entry>)
    requires Keyed(logs)
    ensures var after := Store(logs, lastApplied, noskip, entries);
            && Keyed(after)
            && (forall i: nat :: i <= lastApplied ==>
                 (i in after <==> i in logs) && (i in logs ==> after[i] == logs[i]))
    decreases |entries|
  {
    if entries != [] {
      var e, rest := entries[0], entries[1..];
      if e.index <= lastApplied {
        StoreKeepsApplied(logs, lastApplied, noskip, rest);
      } else if noskip && e.index in logs {
        if logs[e.index].term != e.term {
          StoreKeepsApplied(RemoveAfter(logs, e.index), lastApplied, false, rest);
        } else {
          StoreKeepsApplied(logs, lastApplied, noskip, rest);
        }
      } else {
        StoreKeepsApplied(logs[e.index := e], lastApplied, noskip, rest);
      }
    }
  }

  lemma {:induction false} ApplyKeepsPrefix(n: Node, ok: nat)
    requires AppliedOnce(n)
    ensures var after := AfterApply(n, Stop, ok);
            AppliedOnce(after) && n.applied <= after.applied && after.logs == n.logs
                && after.commitIndex == n.commitIndex
    decreases n.commitIndex - n.lastApplied
  {
    if n.lastApplied < n.commitIndex {
      var i := n.lastApplied + 1;
      if i in n.logs && ok > 0 {
        ApplyKeepsPrefix(n.(lastApplied := i, storedApplied := i, applied := n.applied + [n.logs[i]]), ok - 1);
      }
    }
  }

  /** What is applied is stored, so the last index is at least that far. */
  lemma {:induction false} LastCoversApplied(n: Node)
    requires AppliedOnce(n)
    ensures n.lastApplied <= LastIndex(n.logs)
  {
    if n.lastApplied > 0 {
      assert n.lastApplied in n.logs;
    }
  }

  lemma {:induction false} AppendKeepsPrefix(n: Node, m: Message, ok: nat)
    requires AppliedOnce(n)
    ensures AppliedOnce(AfterAppend(n, m, ok)) && n.applied <= AfterAppend(n, m, ok).applied
  {
    if !Refused(n, m.leaderId, m.leaderTerm) {
      var a := Accepted(n, m.leaderId, m.leaderTerm).(votedFor := None);
      assert AppliedOnce(a);
      if !LeaksLogs(a, m) {
        StoreKeepsApplied(a.logs, a.lastApplied, true, m.entries);
        var b := a.(logs := Store(a.logs, a.lastApplied, true, m.entries));
        assert AppliedOnce(b);
        LastCoversApplied(b);
        assert AppliedOnce(Committed(b, m.leaderCommit));
        ApplyKeepsPrefix(Committed(b, m.leaderCommit), ok);
      }
    }
  }

  lemma {:induction false} StepKeepsPrefix(n: Node, step: Step)
    requires AppliedOnce(n) && Regular(n, step)
    ensures AppliedOnce(Next(n, step)) && n.applied <= Next(n, step).applied
  {
    match step
    case Append(m, ok) => AppendKeepsPrefix(n, m, ok);
    case Apply(policy, ok) => ApplyKeepsPrefix(n, ok);
    case LeaderLog(entry) => LastCoversApplied(n);
    case _ =>
  }

  lemma {:induction false} RunPrefix(nodes: seq<Node>, steps: seq<Step>)
    requires IsRun(nodes, steps) && steps != []
    ensures IsRun(nodes[..|steps|], steps[..|steps| - 1])
  {
  }

  /** Over every regular run, restarts included: what has been applied is never changed, removed or applied again. */
  lemma {:induction false} RunKeepsPrefix(nodes: seq<Node>, steps: seq<Step>, k: nat)
    requires IsRun(nodes, steps) && AppliedOnce(nodes[0]) && k <= |steps|
    requires forall i :: 0 <= i < |steps| ==> Regular(nodes[i], steps[i])
    ensures AppliedOnce(nodes[|steps|]) && AppliedOnce(nodes[k]) && nodes[k].applied <= nodes[|steps|].applied
  {
    if steps != [] {
      var n := |steps| - 1;
      RunPrefix(nodes, steps);
      RunKeepsPrefix(nodes[..n + 1], steps[..n], if k <= n then k else n);
      StepKeepsPrefix(nodes[n], steps[n]);
    }
  }

  /** The stored form of it: every log at an index applied by step `k` is still there, unaltered, at the end. */
  lemma {:induction false} AppliedLogsStay(nodes: seq<Node>, steps: seq<Step>, k: nat, index: nat)
    requires IsRun(nodes, steps) && AppliedOnce(nodes[0]) && k <= |steps|
    requires forall i :: 0 <= i < |steps| ==> Regular(nodes[i], steps[i])
    requires 1 <= index <= nodes[k].lastApplied
    ensures var last := nodes[|steps|];
            && nodes[k].lastApplied <= last.lastApplied == |last.applied| && last.lastApplied <= last.commitIndex
            && index in nodes[k].logs && index in last.logs && last.logs[index] == nodes[k].logs[index]
            && last.applied[index - 1] == last.logs[index] && last.logs[index].index == index
  {
    RunKeepsPrefix(nodes, steps, k);
    assert nodes[k].applied[index - 1] == nodes[|steps|].applied[index - 1];
  }

  /** What an application does with a log. */
  type Taker<!S> = (S, Entry) -> S

  function Fold<S>(f: Taker<S>, start: S, applied: seq<Entry>): S {
    if applied == [] then start else f(Fold(f, start, applied[..|applied| - 1]), applied[|applied| - 1])
  }

  lemma {:induction false} FoldConcat<S>(f: Taker<S>, start: S, a: seq<Entry>, b: seq<Entry>)
    ensures Fold(f, start, a + b) == Fold(f, Fold(f, start, a), b)
  {
    if b == [] {
      assert a + b == a;
    } else {
      assert (a + b)[..|a + b| - 1] == a + b[..|b| - 1];
      FoldConcat(f, start, a, b[..|b| - 1]);
    }
  }

  function Stored(logs: Storage, count: nat): seq<Entry>
    requires forall i :: 1 <= i <= count ==> i in logs
  {
    seq(count, i requires 0 <= i < count => logs[i + 1])
  }

  /** Whatever the application does with a log, its state is the fold of the stored logs 1 to `lastApplied`, and later
      states continue from earlier ones. */
  lemma {:induction false} ApplicationIsFold<S>(nodes: seq<Node>, steps: seq<Step>, k: nat, f: Taker<S>, start: S)
    requires IsRun(nodes, steps) && AppliedOnce(nodes[0]) && k <= |steps|
    requires forall i :: 0 <= i < |steps| ==> Regular(nodes[i], steps[i])
    ensures var last := nodes[|steps|];
            && nodes[k].lastApplied <= last.lastApplied == |last.applied|
            && (forall i :: 1 <= i <= last.lastApplied ==> i in last.logs)
            && Fold(f, start, last.applied) == Fold(f, start, Stored(last.logs, last.lastApplied))
            && Fold(f, start, last.applied)
               == Fold(f, Fold(f, start, nodes[k].applied), last.applied[nodes[k].lastApplied..])
  {
    RunKeepsPrefix(nodes, steps, k);
    var last := nodes[|steps|];
    forall i | 1 <= i <= last.lastApplied ensures i in last.logs {
    }
    assert Stored(last.logs, last.lastApplied) == last.applied;
    assert last.applied == nodes[k].applied + last.applied[|nodes[k].applied|..];
    FoldConcat(f, start, nodes[k].applied, last.applied[|nodes[k].applied|..]);
  }

  /** In particular from a new node on: logs 1 to `lastApplied` have been applied once each, in order, as they are
      still stored. */
  lemma {:induction false} NewNodeAppliesInOrder(nodes: seq<Node>, steps: seq<Step>, self: Id, members: nat)
    requires IsRun(nodes, steps) && nodes[0] == NewNode(self, members)
    requires forall i :: 0 <= i < |steps| ==> Regular(nodes[i], steps[i])
    ensures var last := nodes[|steps|];
            && last.lastApplied == last.storedApplied <= last.commitIndex
            && (forall i :: 1 <= i <= last.lastApplied ==> i in last.logs && last.logs[i].index == i)
            && last.applied == Stored(last.logs, last.lastApplied)
  {
    assert AppliedOnce(nodes[0]);
    RunKeepsPrefix(nodes, steps, 0);
    var last := nodes[|steps|];
    forall i | 1 <= i <= last.lastApplied ensures i in last.logs && last.logs[i].index == i {
    }
    assert Stored(last.logs, last.lastApplied) == last.applied;
  }

  // ---------- what an accepted append stores ----------

  predicate Increasing(entries: seq<Entry>) {
    forall i, j :: 0 <= i < j < |entries| ==> entries[i].index < entries[j].index
  }

  predicate Conflicts(logs: Storage, lastApplied: nat, e: Entry) {
    e.index > lastApplied && e.index in logs && logs[e.index].term != e.term
  }

  predicate IsStored(logs: Storage, e: Entry) {
    CheckLog(logs, e.index, e.term)
  }

  /** Entries below those that are stored do not matter to what is stored. */
  lemma {:induction false} StoreKeepsSmaller(
      logs: Storage, lastApplied: nat, noskip: bool, entries: seq<Entry>, index: nat)
    requires Increasing(entries) && forall e :: e in entries ==> e.index > index
    ensures var after := Store(logs, lastApplied, noskip, entries);
            (index in after <==> index in logs) && (index in logs ==> after[index] == logs[index])
    decreases |entries|
  {
    if entries != [] {
      var e, rest := entries[0], entries[1..];
      assert e in entries && forall x :: x in rest ==> x in entries;
      if e.index <= lastApplied {
        StoreKeepsSmaller(logs, lastApplied, noskip, rest, index);
      } else if noskip && e.index in logs {
        if logs[e.index].term != e.term {
          StoreKeepsSmaller(RemoveAfter(logs, e.index), lastApplied, false, rest, index);
        } else {
          StoreKeepsSmaller(logs, lastApplied, noskip, rest, index);
        }
      } else {
        StoreKeepsSmaller(logs[e.index := e], lastApplied, noskip, rest, index);
      }
    }
  }

  lemma {:induction false} RestIsLarger(entries: seq<Entry>)
    requires Increasing(entries) && entries != []
    ensures Increasing(entries[1..]) && forall x :: x in entries[1..] ==> x.index > entries[0].index
  {
  }

  /** Once a conflict has been met, everything that follows is appended. */
  lemma {:induction false} AllAppended(logs: Storage, lastApplied: nat, entries: seq<Entry>, e: Entry)
    requires Increasing(entries) && e in entries && e.index > lastApplied
    ensures IsStored(Store(logs, lastApplied, false, entries), e)
    decreases |entries|
  {
    RestIsLarger(entries);
    var first, rest := entries[0], entries[1..];
    assert e == first || e in rest;
    var now := if first.index <= lastApplied then logs else logs[first.index := first];
    if e == first {
      StoreKeepsSmaller(now, lastApplied, false, rest, e.index);
    } else {
      AllAppended(now, lastApplied, rest, e);
    }
  }

  predicate FirstConflict(logs: Storage, lastApplied: nat, entries: seq<Entry>, k: nat)
    requires k < |entries|
  {
    Conflicts(logs, lastApplied, entries[k]) && forall i :: 0 <= i < k ==> !Conflicts(logs, lastApplied, entries[i])
  }

  /** Which entries are stored: all, except the first one that conflicts with what was there. */
  lemma {:induction false} StoredExactly(logs: Storage, lastApplied: nat, entries: seq<Entry>, k: nat)
    requires Increasing(entries) && k < |entries| && entries[k].index > lastApplied
    ensures IsStored(Store(logs, lastApplied, true, entries), entries[k])
            <==> !FirstConflict(logs, lastApplied, entries, k)
    decreases |entries|
  {
    RestIsLarger(entries);
    var first, rest := entries[0], entries[1..];
    if first.index <= lastApplied {
      StoredExactly(logs, lastApplied, rest, k - 1);
      SameFirst(logs, logs, lastApplied, entries, k);
    } else if first.index in logs && logs[first.index].term != first.term {
      if k == 0 {
        StoreKeepsSmaller(RemoveAfter(logs, first.index), lastApplied, false, rest, first.index);
      } else {
        AllAppended(RemoveAfter(logs, first.index), lastApplied, rest, entries[k]);
        assert Conflicts(logs, lastApplied, entries[0]);
      }
    } else {
      var now := if first.index in logs then logs else logs[first.index := first];
      if k == 0 {
        StoreKeepsSmaller(now, lastApplied, true, rest, first.index);
      } else {
        StoredExactly(now, lastApplied, rest, k - 1);
        SameFirst(logs, now, lastApplied, entries, k);
      }
    }
  }

  lemma {:induction false} SameFirst(logs: Storage, now: Storage, lastApplied: nat, entries: seq<Entry>, k: nat)
    requires Increasing(entries) && 0 < k < |entries| && !Conflicts(logs, lastApplied, entries[0])
    requires forall i :: 1 <= i < |entries| ==>
               (Conflicts(logs, lastApplied, entries[i]) <==> Conflicts(now, lastApplied, entries[i]))
    ensures FirstConflict(logs, lastApplied, entries, k) <==> FirstConflict(now, lastApplied, entries[1..], k - 1)
  {
  }

  predicate NoConflict(logs: Storage, lastApplied: nat, entries: seq<Entry>) {
    forall e :: e in entries ==> !Conflicts(logs, lastApplied, e)
  }

  /** An accepted message leaves all its unapplied entries stored if and only if none of them conflicted. */
  lemma {:induction false} AllStoredIff(logs: Storage, lastApplied: nat, entries: seq<Entry>)
    requires Increasing(entries)
    ensures (forall e :: e in entries && e.index > lastApplied ==> IsStored(Store(logs, lastApplied, true, entries), e))
            <==> NoConflict(logs, lastApplied, entries)
  {
    if NoConflict(logs, lastApplied, entries) {
      forall e | e in entries && e.index > lastApplied ensures IsStored(Store(logs, lastApplied, true, entries), e) {
        var k :| 0 <= k < |entries| && entries[k] == e;
        StoredExactly(logs, lastApplied, entries, k);
      }
    } else {
      var e :| e in entries && Conflicts(logs, lastApplied, e);
      var some :| 0 <= some < |entries| && entries[some] == e;
      var k := FirstConflictAt(logs, lastApplied, entries, some);
      StoredExactly(logs, lastApplied, entries, k);
      assert entries[k] in entries;
    }
  }

  lemma {:induction false} FirstConflictAt(logs: Storage, lastApplied: nat, entries: seq<Entry>, some: nat)
      returns (k: nat)
    requires some < |entries| && Conflicts(logs, lastApplied, entries[some])
    ensures k < |entries| && FirstConflict(logs, lastApplied, entries, k)
    decreases some
  {
    if i: nat :| i < some && Conflicts(logs, lastApplied, entries[i]) {
      k := FirstConflictAt(logs, lastApplied, entries, i);
    } else {
      k := some;
    }
  }

  lemma {:induction false} StoredOrMissing(logs: Storage, lastApplied: nat, entries: seq<Entry>, k: nat)
    requires Increasing(entries) && k < |entries| && entries[k].index > lastApplied
    requires FirstConflict(logs, lastApplied, entries, k)
    ensures entries[k].index !in Store(logs, lastApplied, true, entries)
    decreases |entries|
  {
    RestIsLarger(entries);
    var first, rest := entries[0], entries[1..];
    if k == 0 {
      StoreKeepsSmaller(RemoveAfter(logs, first.index), lastApplied, false, rest, first.index);
    } else {
      var now := if first.index <= lastApplied || first.index in logs then logs else logs[first.index := first];
      assert !Conflicts(logs, lastApplied, entries[0]);
      SameFirst(logs, now, lastApplied, entries, k);
      StoredOrMissing(now, lastApplied, rest, k - 1);
    }
  }

  /** The same entries sent a second time, with any progress of the applying in between, are all stored. */
  lemma {:induction false} ResendHeals(logs: Storage, lastApplied: nat, later: nat, entries: seq<Entry>, e: Entry)
    requires Increasing(entries) && lastApplied <= later && e in entries && e.index > later
    ensures IsStored(Store(Store(logs, lastApplied, true, entries), later, true, entries), e)
  {
    var once := Store(logs, lastApplied, true, entries);
    forall x | x in entries ensures !Conflicts(once, later, x) {
      if x.index > later {
        var k :| 0 <= k < |entries| && entries[k] == x;
        StoredExactly(logs, lastApplied, entries, k);
        if FirstConflict(logs, lastApplied, entries, k) {
          StoredOrMissing(logs, lastApplied, entries, k);
        }
      }
    }
    AllStoredIff(once, later, entries);
  }

  // ---------- what applying leaves alone ----------

  lemma {:induction false} ApplyKeepsRest(n: Node, policy: ApplyPolicy, ok: nat)
    ensures var after := AfterApply(n, policy, ok);
            && after.commitIndex == n.commitIndex && after.term == n.term && after.leader == n.leader
            && after.role == n.role && after.votedFor == n.votedFor && after.self == n.self && after.logs == n.logs
    decreases n.commitIndex - n.lastApplied
  {
    if n.lastApplied < n.commitIndex {
      var i := n.lastApplied + 1;
      if i in n.logs && ok > 0 {
        ApplyKeepsRest(n.(lastApplied := i, storedApplied := i, applied := n.applied + [n.logs[i]]), policy, ok - 1);
      } else if i !in n.logs && policy == Ignore {
        ApplyKeepsRest(n.(lastApplied := i, storedApplied := i), policy, ok);
      }
    }
  }

  /** A message gets past the leader checks. */
  predicate CanLead(n: Node, m: Message) {
    || m.leaderTerm > n.term
    || (m.leaderTerm == n.term && n.role != Leader && (n.leader == None || n.leader == Some(m.leaderId)))
  }

  /** The commit index follows the leader's as far as logs are stored, and never goes past both it and itself. */
  lemma {:induction false} CommitAfterAppend(n: Node, m: Message, ok: nat)
    ensures var after := AfterAppend(n, m, ok);
            && after.commitIndex <= (if n.commitIndex < m.leaderCommit then m.leaderCommit else n.commitIndex)
            && (Result(n, m) == Success && n.commitIndex < m.leaderCommit ==>
                  after.commitIndex
                  == if m.leaderCommit < LastIndex(after.logs) then m.leaderCommit else LastIndex(after.logs))
            && (Result(n, m) != Success || n.commitIndex >= m.leaderCommit ==> after.commitIndex == n.commitIndex)
            && (Result(n, m) != Success ==> after.logs == n.logs && after.applied == n.applied)
  {
    if Result(n, m) == Success {
      var a := Accepted(n, m.leaderId, m.leaderTerm).(votedFor := None);
      var b := Committed(a.(logs := Store(a.logs, a.lastApplied, true, m.entries)), m.leaderCommit);
      ApplyKeepsRest(b, Stop, ok);
    }
  }

  // ---------- terms, leaders, votes ----------

  lemma {:induction false} TermRises(n: Node, step: Step)
    ensures n.term <= Next(n, step).term
  {
    match step
    case Append(m, ok) =>
      var a := Accepted(n, m.leaderId, m.leaderTerm).(votedFor := None);
      ApplyKeepsRest(Committed(a.(logs := Store(a.logs, a.lastApplied, true, m.entries)), m.leaderCommit), Stop, ok);
    case Apply(policy, ok) => ApplyKeepsRest(n, policy, ok);
    case _ =>
  }

  /** Over every run, restarts included, the term never decreases. */
  lemma {:induction false} TermNeverFalls(nodes: seq<Node>, steps: seq<Step>, i: nat, j: nat)
    requires IsRun(nodes, steps) && i <= j <= |steps|
    ensures nodes[i].term <= nodes[j].term
    decreases j - i
  {
    if i < j {
      TermNeverFalls(nodes, steps, i, j - 1);
      TermRises(nodes[j - 1], steps[j - 1]);
    }
  }

  /** An append or snapshot message of leader `id` in `term` gets past the leader checks. */
  predicate Admits(n: Node, step: Step, term: nat, id: Id) {
    match step
    case Append(m, _) => m.leaderTerm == term && m.leaderId == id && !Refused(n, id, term)
    case Snapshot(leaderId, leaderTerm, _) => leaderTerm == term && leaderId == id && !Refused(n, id, term)
    case _ => false
  }

  /** Someone was admitted in `term`, and only `id` can be from now on. */
  predicate Bound(n: Node, term: nat, id: Id) {
    term <= n.term && (term == n.term ==> n.leader == Some(id) || n.role == Leader)
  }

  lemma {:induction false} AdmittedBinds(n: Node, step: Step, term: nat, id: Id)
    requires Admits(n, step, term, id)
    ensures Bound(Next(n, step), term, id)
  {
    if step.Append? {
      var m := step.m;
      var a := Accepted(n, m.leaderId, m.leaderTerm).(votedFor := None);
      ApplyKeepsRest(Committed(a.(logs := Store(a.logs, a.lastApplied, true, m.entries)), m.leaderCommit), Stop,
          step.ok);
    }
  }

  lemma {:induction false} StepKeepsBound(n: Node, step: Step, term: nat, id: Id)
    requires Bound(n, term, id) && !step.Reset? && !step.Restarted?
    ensures Bound(Next(n, step), term, id)
  {
    match step
    case Append(m, ok) =>
      var a := Accepted(n, m.leaderId, m.leaderTerm).(votedFor := None);
      ApplyKeepsRest(Committed(a.(logs := Store(a.logs, a.lastApplied, true, m.entries)), m.leaderCommit), Stop, ok);
    case Apply(policy, ok) => ApplyKeepsRest(n, policy, ok);
    case _ =>
  }

  lemma {:induction false} StaysBound(nodes: seq<Node>, steps: seq<Step>, i: nat, j: nat, term: nat, id: Id)
    requires IsRun(nodes, steps) && i < j <= |steps| && Admits(nodes[i], steps[i], term, id)
    requires forall k :: i < k < j ==> !steps[k].Reset? && !steps[k].Restarted?
    ensures Bound(nodes[j], term, id)
    decreases j - i
  {
    if i + 1 == j {
      AdmittedBinds(nodes[i], steps[i], term, id);
    } else {
      StaysBound(nodes, steps, i, j - 1, term, id);
      StepKeepsBound(nodes[j - 1], steps[j - 1], term, id);
    }
  }

  /** All messages admitted in one term come from one leader, unless the node forgot it in between. */
  lemma {:induction false} OneLeaderPerTerm(nodes: seq<Node>, steps: seq<Step>, i: nat, j: nat, term: nat, a: Id, b: Id)
    requires IsRun(nodes, steps) && i < j < |steps|
    requires Admits(nodes[i], steps[i], term, a) && Admits(nodes[j], steps[j], term, b)
    ensures a == b || exists k :: i < k < j && (steps[k].Reset? || steps[k].Restarted?)
  {
    if forall k :: i < k < j ==> !steps[k].Reset? && !steps[k].Restarted? {
      StaysBound(nodes, steps, i, j, term, a);
    }
  }

  /** The two steps that forget the leader. */
  predicate Forgets(step: Step) {
    step.Reset? || step.Restarted?
  }

  ghost predicate ForgotBetween(steps: seq<Step>, i: nat, j: nat) {
    exists k :: i < k < j && k < |steps| && Forgets(steps[k])
  }

  ghost predicate AdmitsSome(n: Node, step: Step, term: nat) {
    exists id :: Admits(n, step, term, id)
  }

  /** While the term lasts, the leader admitted last is the one that is known, until it is forgotten. */
  predicate Knows(n: Node, term: nat, id: Id, forgot: bool) {
    term <= n.term && (term == n.term ==> n.role == Leader || n.leader == if forgot then None else Some(id))
  }

  lemma {:induction false} AdmittedIsKnown(n: Node, step: Step, term: nat, id: Id)
    requires Admits(n, step, term, id)
    ensures Knows(Next(n, step), term, id, false)
  {
    AdmittedBinds(n, step, term, id);
  }

  lemma {:induction false} StepKeepsKnown(n: Node, step: Step, term: nat, id: Id, forgot: bool)
    requires Knows(n, term, id, forgot) && !AdmitsSome(n, step, term)
    ensures Knows(Next(n, step), term, id, forgot || Forgets(step))
  {
    match step
    case Append(m, ok) =>
      assert !Admits(n, step, term, m.leaderId);
      var a := Accepted(n, m.leaderId, m.leaderTerm).(votedFor := None);
      ApplyKeepsRest(Committed(a.(logs := Store(a.logs, a.lastApplied, true, m.entries)), m.leaderCommit), Stop, ok);
    case Snapshot(leaderId, leaderTerm, logs) => assert !Admits(n, step, term, leaderId);
    case Apply(policy, ok) => ApplyKeepsRest(n, policy, ok);
    case _ =>
  }

  lemma {:induction false} StaysKnown(nodes: seq<Node>, steps: seq<Step>, i: nat, j: nat, term: nat, id: Id)
    requires IsRun(nodes, steps) && i < j <= |steps| && Admits(nodes[i], steps[i], term, id)
    requires forall k :: i < k < j ==> !AdmitsSome(nodes[k], steps[k], term)
    ensures Knows(nodes[j], term, id, ForgotBetween(steps, i, j))
    decreases j - i
  {
    if i + 1 == j {
      AdmittedIsKnown(nodes[i], steps[i], term, id);
    } else {
      StaysKnown(nodes, steps, i, j - 1, term, id);
      StepKeepsKnown(nodes[j - 1], steps[j - 1], term, id, ForgotBetween(steps, i, j - 1));
      assert ForgotBetween(steps, i, j) <==> ForgotBetween(steps, i, j - 1) || Forgets(steps[j - 1]);
    }
  }

  /** Exactly whom the node lets in after the last admission in a term, that of `a`: while the term lasts and it is not
      leader itself, `a`, and any other leader if and only if it was reset or restarted since. */
  lemma {:induction false} NextLeaderIff(
      nodes: seq<Node>, steps: seq<Step>, i: nat, j: nat, term: nat, a: Id, b: Id)
    requires IsRun(nodes, steps) && i < j <= |steps| && Admits(nodes[i], steps[i], term, a)
    requires forall k :: i < k < j ==> !AdmitsSome(nodes[k], steps[k], term)
    ensures !Refused(nodes[j], b, term)
            <==> nodes[j].term == term && nodes[j].role != Leader && (a == b || ForgotBetween(steps, i, j))
  {
    StaysKnown(nodes, steps, i, j, term, a);
  }

  /** It does forget it: the leader is not persistent, so after a restart another one is admitted in the same term. */
  lemma {:induction false} RestartForgetsLeader(n: Node, a: Message, b: Message)
    requires a.entries == [] == b.entries && a.prevIndex == 0 == b.prevIndex && a.leaderCommit == 0 == b.leaderCommit
    requires a.leaderTerm == b.leaderTerm > n.term && a.leaderId != b.leaderId
    ensures var first := Next(n, Append(a, 0));
            && Admits(n, Append(a, 0), a.leaderTerm, a.leaderId)
            && !Admits(first, Append(b, 0), b.leaderTerm, b.leaderId)
            && Admits(Next(first, Restarted), Append(b, 0), b.leaderTerm, b.leaderId)
            && Admits(Next(first, Reset), Append(b, 0), b.leaderTerm, b.leaderId)
  {
    var c := Accepted(n, a.leaderId, a.leaderTerm).(votedFor := None);
    ApplyKeepsRest(Committed(c.(logs := Store(c.logs, c.lastApplied, true, a.entries)), a.leaderCommit), Stop, 0);
  }

  /** The node votes for `c` in `term`: it grants the vote, or stands itself. */
  predicate VotesFor(n: Node, step: Step, term: nat, c: Id) {
    match step
    case Vote(t, candidate, lastIndex, lastTerm) =>
      t == term && candidate == c && Grants(n, t, candidate, lastIndex, lastTerm)
    case Raise => term == n.term + 1 && c == n.self
    case _ => false
  }

  predicate Pledged(n: Node, term: nat, c: Id) {
    term <= n.term && (term == n.term ==> n.votedFor == Some(c))
  }

  predicate AppendsIn(n: Node, step: Step, term: nat) {
    step.Append? && step.m.leaderTerm == term && !Refused(n, step.m.leaderId, term)
  }

  lemma {:induction false} StepKeepsPledge(n: Node, step: Step, term: nat, c: Id)
    requires Pledged(n, term, c) && !AppendsIn(n, step, term)
    requires forall d :: VotesFor(n, step, term, d) ==> d == c
    ensures Pledged(Next(n, step), term, c)
  {
    match step
    case Append(m, ok) =>
      var a := Accepted(n, m.leaderId, m.leaderTerm).(votedFor := None);
      ApplyKeepsRest(Committed(a.(logs := Store(a.logs, a.lastApplied, true, m.entries)), m.leaderCommit), Stop, ok);
    case Apply(policy, ok) => ApplyKeepsRest(n, policy, ok);
    case Vote(t, candidate, lastIndex, lastTerm) =>
      assert Grants(n, t, candidate, lastIndex, lastTerm) ==> VotesFor(n, step, t, candidate);
    case _ =>
  }

  /** A pledge binds the vote, so it is kept. */
  lemma {:induction false} PledgeBinds(n: Node, step: Step, term: nat, c: Id, d: Id)
    requires Pledged(n, term, c) && VotesFor(n, step, term, d)
    ensures d == c
  {
  }

  lemma {:induction false} StaysPledged(nodes: seq<Node>, steps: seq<Step>, i: nat, j: nat, term: nat, c: Id)
    requires IsRun(nodes, steps) && i < j <= |steps| && VotesFor(nodes[i], steps[i], term, c)
    requires forall k :: i < k < j ==> !AppendsIn(nodes[k], steps[k], term)
    ensures Pledged(nodes[j], term, c)
    decreases j - i
  {
    if i + 1 < j {
      StaysPledged(nodes, steps, i, j - 1, term, c);
      var n, step := nodes[j - 1], steps[j - 1];
      forall d | VotesFor(n, step, term, d) ensures d == c {
        PledgeBinds(n, step, term, c, d);
      }
      StepKeepsPledge(n, step, term, c);
    }
  }

  /** A node votes for one candidate per term, restarts included, unless an append of that term came in between. */
  lemma {:induction false} OneVotePerTerm(nodes: seq<Node>, steps: seq<Step>, i: nat, j: nat, term: nat, c: Id, d: Id)
    requires IsRun(nodes, steps) && i < j < |steps|
    requires VotesFor(nodes[i], steps[i], term, c) && VotesFor(nodes[j], steps[j], term, d)
    ensures c == d || exists k :: i < k < j && AppendsIn(nodes[k], steps[k], term)
  {
    if forall k :: i < k < j ==> !AppendsIn(nodes[k], steps[k], term) {
      StaysPledged(nodes, steps, i, j, term, c);
      PledgeBinds(nodes[j], steps[j], term, c, d);
    }
  }

  ghost predicate ClearedBetween(nodes: seq<Node>, steps: seq<Step>, i: nat, j: nat, term: nat) {
    exists k :: i < k < j && k < |steps| && k < |nodes| && AppendsIn(nodes[k], steps[k], term)
  }

  ghost predicate VotesForSome(n: Node, step: Step, term: nat) {
    exists id :: VotesFor(n, step, term, id)
  }

  /** While the term lasts, the last vote stands, until it is cleared. */
  predicate Stands(n: Node, term: nat, c: Id, cleared: bool) {
    term <= n.term && (term == n.term ==> n.votedFor == if cleared then None else Some(c))
  }

  lemma {:induction false} StepKeepsVote(n: Node, step: Step, term: nat, c: Id, cleared: bool)
    requires Stands(n, term, c, cleared) && !VotesForSome(n, step, term)
    ensures Stands(Next(n, step), term, c, cleared || AppendsIn(n, step, term))
  {
    match step
    case Append(m, ok) =>
      var a := Accepted(n, m.leaderId, m.leaderTerm).(votedFor := None);
      ApplyKeepsRest(Committed(a.(logs := Store(a.logs, a.lastApplied, true, m.entries)), m.leaderCommit), Stop, ok);
    case Apply(policy, ok) => ApplyKeepsRest(n, policy, ok);
    case Vote(t, candidate, lastIndex, lastTerm) => assert !VotesFor(n, step, term, candidate);
    case _ =>
  }

  lemma {:induction false} VoteStands(nodes: seq<Node>, steps: seq<Step>, i: nat, j: nat, term: nat, c: Id)
    requires IsRun(nodes, steps) && i < j <= |steps| && VotesFor(nodes[i], steps[i], term, c)
    requires forall k :: i < k < j ==> !VotesForSome(nodes[k], steps[k], term)
    ensures Stands(nodes[j], term, c, ClearedBetween(nodes, steps, i, j, term))
    decreases j - i
  {
    if i + 1 < j {
      VoteStands(nodes, steps, i, j - 1, term, c);
      StepKeepsVote(nodes[j - 1], steps[j - 1], term, c, ClearedBetween(nodes, steps, i, j - 1, term));
      assert ClearedBetween(nodes, steps, i, j, term)
        <==> ClearedBetween(nodes, steps, i, j - 1, term) || AppendsIn(nodes[j - 1], steps[j - 1], term);
    }
  }

  /** Exactly whom the node grants a vote after its last vote in a term, that for `c`: while the term lasts and it is
      not leader, a candidate whose logs reach far enough, if that is `c`, and any other if and only if an append of
      the term was accepted since. */
  lemma {:induction false} NextVoteIff(nodes: seq<Node>, steps: seq<Step>, i: nat, j: nat, term: nat, c: Id, d: Id,
      lastIndex: nat, lastTerm: nat)
    requires IsRun(nodes, steps) && i < j <= |steps| && VotesFor(nodes[i], steps[i], term, c)
    requires forall k :: i < k < j ==> !VotesForSome(nodes[k], steps[k], term)
    ensures Grants(nodes[j], term, d, lastIndex, lastTerm)
            <==> nodes[j].term == term && nodes[j].role != Leader
                 && lastIndex >= LastIndex(nodes[j].logs) && lastTerm >= LastTerm(nodes[j].logs)
                 && (c == d || ClearedBetween(nodes, steps, i, j, term))
  {
    VoteStands(nodes, steps, i, j, term, c);
  }

  /** The exception is real: an accepted append clears the vote, and a second candidate gets one in the same term. */
  lemma {:induction false} AppendClearsVote(n: Node, m: Message, c: Id, d: Id, lastIndex: nat, lastTerm: nat)
    requires n.role == Follower && n.leader == None && n.term == m.leaderTerm && n.votedFor == None && c != d
    requires m.entries == [] && m.prevIndex == 0 && m.leaderCommit == 0
    requires lastIndex >= LastIndex(n.logs) && lastTerm >= LastTerm(n.logs)
    ensures var voted := Next(n, Vote(n.term, c, lastIndex, lastTerm));
            && VotesFor(n, Vote(n.term, c, lastIndex, lastTerm), n.term, c)
            && !VotesFor(voted, Vote(n.term, d, lastIndex, lastTerm), n.term, d)
            && VotesFor(Next(voted, Append(m, 0)), Vote(n.term, d, lastIndex, lastTerm), n.term, d)
  {
    var voted := Next(n, Vote(n.term, c, lastIndex, lastTerm));
    var a := Accepted(voted, m.leaderId, m.leaderTerm).(votedFor := None);
    var b := Committed(a.(logs := Store(a.logs, a.lastApplied, true, m.entries)), m.leaderCommit);
    assert b == a;
    NothingToApply(b, 0);
  }

  lemma {:induction false} NothingToApply(n: Node, ok: nat)
    ensures AfterApply(n, Stop, 0).logs == n.logs
  {
  }

  // ---------- the node itself ----------

  class RaftWrapper {
    const self: Id
    var leader: Option<Id>
    var term: nat
    var votedFor: Option<Id>
    var logs: Storage
    var storedApplied: nat
    var role: Role
    var commitIndex: nat
    var lastApplied: nat
    var applied: seq<Entry>
    var votes: nat
    var members: nat

    ghost function Value(): Node
      reads this
    {
      Node(self, leader, term, votedFor, logs, storedApplied, role, commitIndex, lastApplied, applied, votes, members)
    }

    /** A process over what an earlier one left in its storage and application. */
    constructor (left: Node)
      ensures Value() == Restart(left)
      ensures lastApplied == commitIndex == storedApplied == left.storedApplied && applied == left.applied
      ensures role == Follower && leader == None && votes == 0
      ensures term == left.term && votedFor == left.votedFor && logs == left.logs
    {
      self, leader, term, votedFor, logs := left.self, None, left.term, left.votedFor, left.logs;
      role, applied, votes, members := Follower, left.applied, 0, left.members;
      storedApplied := left.storedApplied;
      lastApplied := left.storedApplied;
      commitIndex := left.storedApplied;
    }

    method BiggerTerm(newTerm: nat)
      modifies this
      ensures Value() == AfterBiggerTerm(old(Value()), newTerm)
      ensures term == newTerm && role == Follower && leader == None && votes == 0 && votedFor == old(votedFor)
    {
      votes := 0;
      role := Follower;
      leader := None;
      term := newTerm;
    }

    /** Removes conflicting logs and appends what is missing. */
    method StoreEntries(entries: seq<Entry>)
      modifies this`logs
      ensures logs == Store(old(logs), lastApplied, true, entries)
    {
      var noskip := true;
      assert entries[0..] == entries;
      for i := 0 to |entries|
        invariant Store(logs, lastApplied, noskip, entries[i..]) == Store(old(logs), lastApplied, true, entries)
      {
        var e := entries[i];
        assert entries[i..][0] == e && entries[i..][1..] == entries[i + 1..];
        if e.index > lastApplied {
          var containLog := noskip && e.index in logs;
          if containLog {
            if !CheckLog(logs, e.index, e.term) {
              logs := RemoveAfter(logs, e.index);
              noskip := false;
            }
          }
          if !containLog {
            logs := logs[e.index := e];
          }
        }
      }
    }

    /** Applies committed logs; stops without taking the next one when the application throws. */
    method ApplyLogs(policy: ApplyPolicy, ok: nat)
      modifies this`lastApplied, this`storedApplied, this`applied
      ensures Value() == AfterApply(old(Value()), policy, ok)
    {
      var left := ok;
      while lastApplied < commitIndex
        invariant AfterApply(Value(), policy, left) == AfterApply(old(Value()), policy, ok)
        decreases commitIndex - lastApplied
      {
        lastApplied := lastApplied + 1;
        if lastApplied in logs {
          if left == 0 {
            lastApplied := lastApplied - 1;
            return;
          }
          applied := applied + [logs[lastApplied]];
          left := left - 1;
        } else if policy == Stop {
          lastApplied := lastApplied - 1;
          break;
        }
        storedApplied := lastApplied;
      }
    }

    /** The checks shared by append and snapshot messages; a message that passes makes its sender the leader. */
    method CheckLeader(leaderId: Id, leaderTerm: nat) returns (result: AppendResult)
      modifies this
      ensures result == if leaderTerm < old(term) then LowerTerm
                        else if Refused(old(Value()), leaderId, leaderTerm) then AccessDenied else Success
      ensures Value() == if result == Success then Accepted(old(Value()), leaderId, leaderTerm) else old(Value())
      ensures result == LowerTerm <==> leaderTerm < old(term)
      ensures result == AccessDenied
              <==> leaderTerm == old(term) &&
                   (old(role) == Leader || (old(leader).Some? && old(leader) != Some(leaderId)))
      ensures result == Success ==>
                && leader == Some(leaderId) && term == leaderTerm
                && role == (if old(term) < leaderTerm then Follower else old(role))
    {
      if leaderTerm < term {
        return LowerTerm;
      }
      if term < leaderTerm {
        BiggerTerm(leaderTerm);
        leader := Some(leaderId);
      } else if role == Leader {
        return AccessDenied;
      } else if leader.Some? && leader.value != leaderId {
        return AccessDenied;
      } else {
        leader := Some(leaderId);
      }
      return Success;
    }

    /** Stores the entries, follows the leader's commit index, applies. */
    method TakeEntries(m: Message, ok: nat)
      modifies this
      ensures var n := old(Value());
              Value() == AfterApply(Committed(n.(logs := Store(n.logs, n.lastApplied, true, m.entries)),
                  m.leaderCommit), Stop, ok)
    {
      StoreEntries(m.entries);
      if commitIndex < m.leaderCommit {
        commitIndex := if m.leaderCommit < LastIndex(logs) then m.leaderCommit else LastIndex(logs);
      }
      ApplyLogs(Stop, ok);
    }

    method AppendEntries(m: Message, ok: nat) returns (result: AppendResult)
      modifies this
      ensures Value() == AfterAppend(old(Value()), m, ok) && result == Result(old(Value()), m)
      ensures old(AppliedOnce(Value())) ==> AppliedOnce(Value()) && old(applied) <= applied
      ensures result == LeakOfLogs
              <==> CanLead(old(Value()), m)
                   && m.prevIndex != 0 && m.prevIndex > old(lastApplied)
                   && (m.prevIndex !in old(logs) || old(logs)[m.prevIndex].term != m.prevTerm)
      ensures result == Success ==>
                commitIndex == if old(commitIndex) >= m.leaderCommit then old(commitIndex)
                               else if m.leaderCommit < LastIndex(logs) then m.leaderCommit else LastIndex(logs)
      ensures result != Success ==> commitIndex == old(commitIndex) && logs == old(logs) && applied == old(applied)
    {
      if AppliedOnce(Value()) {
        AppendKeepsPrefix(Value(), m, ok);
      }
      CommitAfterAppend(Value(), m, ok);
      result := CheckLeader(m.leaderId, m.leaderTerm);
      if result != Success {
        return;
      }
      votedFor := None;
      if m.prevIndex != 0 && m.prevIndex > lastApplied {
        if m.prevIndex in logs {
          if !CheckLog(logs, m.prevIndex, m.prevTerm) {
            return LeakOfLogs;
          }
        } else {
          return LeakOfLogs;
        }
      }
      TakeEntries(m, ok);
    }

    method RaiseElection()
      modifies this
      ensures Value() == AfterRaise(old(Value()))
      ensures role == Candidate && term == old(term) + 1 && votedFor == Some(self) && leader == None && votes == 0
    {
      leader := None;
      votes := 0;
      role := Candidate;
      term := term + 1;
      votedFor := Some(self);
    }

    method ReactVote(vote: nat)
      modifies this`votes
      ensures Value() == Next(old(Value()), React(vote)) && votes == old(votes) + vote
    {
      votes := votes + vote;
    }

    method StopElection() returns (won: bool)
      modifies this
      ensures Value() == AfterStop(old(Value()))
      ensures won <==> old(role) == Candidate && old(votes) >= members / 2
      ensures won ==> role == Leader && leader == Some(self)
      ensures !won ==> role == old(role) && leader == old(leader)
    {
      if role == Candidate && votes >= members / 2 {
        role := Leader;
        leader := Some(self);
        return true;
      }
      return false;
    }

    method RequestVote(candidateTerm: nat, candidate: Id, lastIndex: nat, lastTerm: nat) returns (granted: bool)
      modifies this
      ensures Value() == AfterVote(old(Value()), candidateTerm, candidate, lastIndex, lastTerm)
      ensures granted
              <==> VotesFor(old(Value()), Vote(candidateTerm, candidate, lastIndex, lastTerm), candidateTerm, candidate)
      ensures granted ==> Pledged(Value(), candidateTerm, candidate)
      ensures granted
              <==> old(role) != Leader && old(term) <= candidateTerm
                   && (old(term) < candidateTerm || old(votedFor) == None || old(votedFor) == Some(candidate))
                   && lastIndex >= LastIndex(old(logs)) && lastTerm >= LastTerm(old(logs))
    {
      if role == Leader {
        return false;
      }
      if term > candidateTerm {
        return false;
      }
      if term < candidateTerm {
        BiggerTerm(candidateTerm);
        votedFor := None;
      }
      if (votedFor == None || votedFor == Some(candidate)) && lastIndex >= LastIndex(logs)
          && lastTerm >= LastTerm(logs) {
        votes := 0;
        role := Follower;
        votedFor := Some(candidate);
        return true;
      }
      return false;
    }

    method ReactNewTerm(newTerm: nat)
      modifies this
      ensures Value() == Next(old(Value()), NewTerm(newTerm))
      ensures term == if newTerm > old(term) then newTerm else old(term)
      ensures newTerm > old(term) ==> role == Follower && leader == None && votes == 0
    {
      if newTerm > term {
        BiggerTerm(newTerm);
      }
    }

    /** A leader's own log. */
    method AppendLog(entry: Entry)
      modifies this`logs
      ensures Value() == Next(old(Value()), LeaderLog(entry))
    {
      logs := logs[entry.index := entry];
    }

    method SetCommitIndex(index: nat)
      modifies this`commitIndex
      ensures Value() == Next(old(Value()), SetCommit(index))
      ensures commitIndex == if old(commitIndex) < index then index else old(commitIndex)
    {
      if commitIndex < index {
        commitIndex := index;
      }
    }
  }
}
