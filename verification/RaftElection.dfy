/** When a node votes for another one in a new term, and when it becomes leader itself. */
module RaftElections {
  import opened Buffers
  import opened RaftNodes

  // ---------- voting ----------

  /** Whoever gets a vote has logs that reach as far as those of the node, in index and in term. */
  lemma {:induction false} VotesForLongerLogs(n: Node, term: nat, c: Id, lastIndex: nat, lastTerm: nat)
    requires VotesFor(n, Vote(term, c, lastIndex, lastTerm), term, c)
    ensures n.role != Leader && n.term <= term
    ensures forall i :: i in n.logs ==> i <= lastIndex
    ensures lastTerm >= if n.logs == map[] then 0 else n.logs[LastIndex(n.logs)].term
  {
    assert n.logs != map[] ==> IsLast(n.logs, LastIndex(n.logs));
  }

  /** In a term that the node has not reached, it grants the vote exactly if it is not leader and the logs of the
      candidate reach far enough; it enters the term either way, unless it is leader. */
  lemma {:induction false} FirstVoteIff(n: Node, term: nat, c: Id, lastIndex: nat, lastTerm: nat)
    requires n.term < term
    ensures var voted := Next(n, Vote(term, c, lastIndex, lastTerm));
            && (VotesFor(n, Vote(term, c, lastIndex, lastTerm), term, c)
                <==> n.role != Leader && lastIndex >= LastIndex(n.logs) && lastTerm >= LastTerm(n.logs))
            && voted.term == (if n.role == Leader then n.term else term)
            && (n.role != Leader ==>
                  && voted.role == Follower && voted.leader == None
                  && voted.votedFor == if Grants(n, term, c, lastIndex, lastTerm) then Some(c) else None)
  {
  }

  // ---------- winning ----------

  /** The votes a node has been told of between two steps. */
  function Collected(steps: seq<Step>, i: nat, j: nat): nat
    requires i <= j <= |steps|
  {
    if i == j then 0 else Collected(steps, i, j - 1) + if steps[j - 1].React? then steps[j - 1].vote else 0
  }

  /** Since step `i`, in which it stood, the node has been a candidate, and its count is what it was told of. */
  ghost predicate StoodAt(nodes: seq<Node>, steps: seq<Step>, i: nat, j: nat)
    requires j <= |steps| && |nodes| == |steps| + 1
  {
    && i < j && steps[i].Raise? && nodes[j].term == nodes[i].term + 1 == nodes[i + 1].term
    && nodes[j].votes == Collected(steps, i + 1, j)
  }

  ghost predicate Standing(nodes: seq<Node>, steps: seq<Step>, j: nat)
    requires j <= |steps| && |nodes| == |steps| + 1
  {
    nodes[j].role == Candidate ==> exists i: nat :: StoodAt(nodes, steps, i, j)
  }

  lemma {:induction false} CandidateStep(n: Node, step: Step)
    requires Next(n, step).role == Candidate && !step.Raise?
    ensures n.role == Candidate && Next(n, step).term == n.term
    ensures Next(n, step).votes == n.votes + if step.React? then step.vote else 0
  {
    match step
    case Append(m, ok) =>
      var a := Accepted(n, m.leaderId, m.leaderTerm).(votedFor := None);
      var b := Committed(a.(logs := Store(a.logs, a.lastApplied, true, m.entries)), m.leaderCommit);
      ApplyKeepsRest(b, Stop, ok);
      ApplyKeepsVotes(b, Stop, ok);
    case Apply(policy, ok) =>
      ApplyKeepsRest(n, policy, ok);
      ApplyKeepsVotes(n, policy, ok);
    case _ =>
  }

  lemma {:induction false} ApplyKeepsVotes(n: Node, policy: ApplyPolicy, ok: nat)
    ensures AfterApply(n, policy, ok).votes == n.votes && AfterApply(n, policy, ok).members == n.members
    decreases n.commitIndex - n.lastApplied
  {
    if n.lastApplied < n.commitIndex {
      var i := n.lastApplied + 1;
      if i in n.logs && ok > 0 {
        ApplyKeepsVotes(n.(lastApplied := i, storedApplied := i, applied := n.applied + [n.logs[i]]), policy, ok - 1);
      } else if i !in n.logs && policy == Ignore {
        ApplyKeepsVotes(n.(lastApplied := i, storedApplied := i), policy, ok);
      }
    }
  }

  lemma {:induction false} CandidatesStood(nodes: seq<Node>, steps: seq<Step>, j: nat)
    requires IsRun(nodes, steps) && nodes[0].role != Candidate && j <= |steps|
    ensures Standing(nodes, steps, j)
  {
    if j > 0 && nodes[j].role == Candidate {
      if steps[j - 1].Raise? {
        assert StoodAt(nodes, steps, j - 1, j);
      } else {
        CandidateStep(nodes[j - 1], steps[j - 1]);
        CandidatesStood(nodes, steps, j - 1);
        var i: nat :| StoodAt(nodes, steps, i, j - 1);
        assert StoodAt(nodes, steps, i, j);
      }
    }
  }

  lemma {:induction false} LeaderStep(n: Node, step: Step)
    requires n.role != Leader && Next(n, step).role == Leader
    ensures step.StopElect? && n.role == Candidate && n.votes >= n.members / 2
    ensures Next(n, step).term == n.term && Next(n, step).leader == Some(n.self)
  {
    match step
    case Append(m, ok) =>
      var a := Accepted(n, m.leaderId, m.leaderTerm).(votedFor := None);
      ApplyKeepsRest(Committed(a.(logs := Store(a.logs, a.lastApplied, true, m.entries)), m.leaderCommit), Stop, ok);
    case Apply(policy, ok) => ApplyKeepsRest(n, policy, ok);
    case _ =>
  }

  /** A node becomes leader only by stopping an election that it raised itself, in the term of that election, having
      been told since of at least half as many votes as there are members. */
  lemma {:induction false} LeadersWereElected(nodes: seq<Node>, steps: seq<Step>, j: nat)
    requires IsRun(nodes, steps) && nodes[0].role != Candidate && j < |steps|
    requires nodes[j].role != Leader && nodes[j + 1].role == Leader
    ensures steps[j].StopElect?
    ensures exists i: nat ::
              && StoodAt(nodes, steps, i, j) && nodes[j + 1].term == nodes[i].term + 1
              && Collected(steps, i + 1, j) >= nodes[j].members / 2
  {
    LeaderStep(nodes[j], steps[j]);
    CandidatesStood(nodes, steps, j);
    var i: nat :| StoodAt(nodes, steps, i, j);
    assert nodes[j + 1].term == nodes[i].term + 1;
  }

  /** And whenever an election is stopped with that many votes, it is won. */
  lemma {:induction false} EnoughVotesWin(nodes: seq<Node>, steps: seq<Step>, i: nat, j: nat)
    requires IsRun(nodes, steps) && j < |steps| && steps[j].StopElect?
    requires nodes[j].role == Candidate && StoodAt(nodes, steps, i, j)
    ensures nodes[j + 1].role == (if Collected(steps, i + 1, j) >= nodes[j].members / 2 then Leader else Candidate)
  {
  }
}
