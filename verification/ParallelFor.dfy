/** Work sharing by compare-and-swap: every interleaving of the workers of one `ParallelFor`. */
module ParallelLoops {
  /** A worker reads the shared iterator, tries to move it, runs what it claimed, and leaves when it claimed nothing. */
  datatype Worker = Loading | Loaded(at: nat) | Claimed(at: nat, size: nat, done: nat) | Left

  /** `ite` and `comp` are the shared atomics; `ran` counts how often each index has been run. */
  datatype Loop = Loop(
      end: nat, max: nat, ite: nat, comp: nat, workers: seq<Worker>, ran: multiset<nat>, completions: nat)

  function Chunk(begin: nat, end: nat, grain: nat, parallel: nat): nat
    requires begin <= end && parallel > 0
  {
    var max := (end - begin) / parallel;
    if max > grain then grain else max
  }

  /** The largest chunk within the grain of which every worker could have one. */
  lemma {:induction false} ChunkIsLargest(begin: nat, end: nat, grain: nat, parallel: nat, k: nat)
    requires begin <= end && parallel > 0
    ensures k <= Chunk(begin, end, grain, parallel) <==> k <= grain && k * parallel <= end - begin
  {
    var n, q := end - begin, (end - begin) / parallel;
    assert q * parallel + n % parallel == n;
    if k <= q {
      assert k * parallel <= q * parallel;
    } else {
      assert (q + 1) * parallel <= k * parallel;
    }
  }

  function Fresh(n: nat): seq<Worker> {
    seq(n, _ => Loading)
  }

  function Launch(begin: nat, end: nat, grain: nat, parallel: nat): Loop
    requires begin < end && parallel > 0
  {
    Loop(end, Chunk(begin, end, grain, parallel), begin, parallel, Fresh(parallel), multiset{}, 0)
  }

  datatype Step = Load(w: nat) | Swap(w: nat, spurious: bool) | RunOne(w: nat) | Again(w: nat) | Leave(w: nat)

  predicate Enabled(s: Loop, step: Step) {
    && step.w < |s.workers|
    && var worker := s.workers[step.w];
       match step
       case Load(_) => worker.Loading?
       case Swap(_, _) => worker.Loaded?
       case RunOne(_) => worker.Claimed? && worker.done < worker.size
       case Again(_) => worker.Claimed? && worker.size > 0 && worker.done >= worker.size
       case Leave(_) => worker.Claimed? && worker.size == 0
  }

  /** Sizes are 64-bit unsigned numbers, so these subtractions would wrap. */
  function Remaining(end: nat, at: nat): nat {
    if at <= end then end - at else (end - at) % 0x1_0000_0000_0000_0000
  }

  function OneLess(counter: nat): nat {
    if counter == 0 then 0xFFFF_FFFF_FFFF_FFFF else counter - 1
  }

  function Size(s: Loop, at: nat): nat {
    if Remaining(s.end, at) > s.max then s.max else Remaining(s.end, at)
  }

  /** A weak compare-and-swap may fail although the value is the expected one; a failure loads the current value. */
  function AfterSwap(s: Loop, w: nat, spurious: bool): Loop
    requires w < |s.workers| && s.workers[w].Loaded?
  {
    var at := s.workers[w].at;
    if s.ite == at && !spurious then
      s.(ite := at + Size(s, at), workers := s.workers[w := Claimed(at, Size(s, at), 0)])
    else
      s.(workers := s.workers[w := Loaded(s.ite)])
  }

  function AfterRunOne(s: Loop, w: nat): Loop
    requires w < |s.workers| && s.workers[w].Claimed?
  {
    var c := s.workers[w];
    s.(ran := s.ran + multiset{c.at + c.done}, workers := s.workers[w := c.(done := c.done + 1)])
  }

  function AfterLeave(s: Loop, w: nat): Loop
    requires w < |s.workers|
  {
    s.(comp := OneLess(s.comp), workers := s.workers[w := Left],
       completions := if OneLess(s.comp) == 0 then s.completions + 1 else s.completions)
  }

  function Apply(s: Loop, step: Step): Loop
    requires Enabled(s, step)
  {
    match step
    case Load(w) => s.(workers := s.workers[w := Loaded(s.ite)])
    case Swap(w, spurious) => AfterSwap(s, w, spurious)
    case RunOne(w) => AfterRunOne(s, w)
    case Again(w) => s.(workers := s.workers[w := Loading])
    case Leave(w) => AfterLeave(s, w)
  }

  // ---------- who still owes which index ----------

  predicate Owes(worker: Worker, x: nat) {
    worker.Claimed? && worker.at + worker.done <= x < worker.at + worker.size
  }

  function Owers(workers: seq<Worker>, x: nat): nat {
    if workers == [] then 0 else Owers(workers[..|workers| - 1], x) + One(Owes(workers[|workers| - 1], x))
  }

  function Present(workers: seq<Worker>): nat {
    if workers == [] then 0 else Present(workers[..|workers| - 1]) + One(!workers[|workers| - 1].Left?)
  }

  function One(b: bool): nat {
    if b then 1 else 0
  }

  lemma {:induction false} OwersReplace(workers: seq<Worker>, w: nat, v: Worker, x: nat)
    requires w < |workers|
    ensures Owers(workers[w := v], x) + One(Owes(workers[w], x)) == Owers(workers, x) + One(Owes(v, x))
  {
    var n := |workers| - 1;
    if w < n {
      assert workers[w := v][..n] == workers[..n][w := v];
      OwersReplace(workers[..n], w, v, x);
    } else {
      assert workers[w := v][..n] == workers[..n];
    }
  }

  lemma {:induction false} PresentReplace(workers: seq<Worker>, w: nat, v: Worker)
    requires w < |workers|
    ensures Present(workers[w := v]) + One(!workers[w].Left?) == Present(workers) + One(!v.Left?)
  {
    var n := |workers| - 1;
    if w < n {
      assert workers[w := v][..n] == workers[..n][w := v];
      PresentReplace(workers[..n], w, v);
    } else {
      assert workers[w := v][..n] == workers[..n];
    }
  }

  lemma {:induction false} SomePresent(workers: seq<Worker>, w: nat)
    requires w < |workers| && !workers[w].Left?
    ensures Present(workers) > 0
  {
    var n := |workers| - 1;
    if w < n {
      SomePresent(workers[..n], w);
    }
  }

  lemma {:induction false} NonePresent(workers: seq<Worker>)
    requires Present(workers) == 0
    ensures forall w :: 0 <= w < |workers| ==> workers[w].Left?
  {
    if workers != [] {
      NonePresent(workers[..|workers| - 1]);
    }
  }

  lemma {:induction false} LeftOweNothing(workers: seq<Worker>, x: nat)
    requires forall w :: 0 <= w < |workers| ==> workers[w].Left?
    ensures Owers(workers, x) == 0
  {
    if workers != [] {
      LeftOweNothing(workers[..|workers| - 1], x);
    }
  }

  // ---------- what every interleaving keeps ----------

  predicate Sound(s: Loop, worker: Worker) {
    match worker
    case Loading => true
    case Loaded(at) => at <= s.ite
    case Claimed(at, size, done) => done <= size && (size == 0 && s.max > 0 ==> s.ite == s.end)
    case Left => s.max > 0 ==> s.ite == s.end
  }

  /** Every index before the iterator has been run once or is owed by one worker; none behind it. */
  ghost predicate Shared(s: Loop, begin: nat) {
    forall x: nat :: s.ran[x] + Owers(s.workers, x) == One(begin <= x < s.ite)
  }

  ghost predicate Good(s: Loop, begin: nat) {
    && begin <= s.ite <= s.end && (s.max == 0 ==> s.ite == begin)
    && (forall w :: 0 <= w < |s.workers| ==> Sound(s, s.workers[w]))
    && Shared(s, begin)
    && s.comp == Present(s.workers) && s.completions == One(s.comp == 0)
  }

  lemma {:induction false} LaunchIsGood(begin: nat, end: nat, grain: nat, parallel: nat)
    requires begin < end && parallel > 0
    ensures Good(Launch(begin, end, grain, parallel), begin)
  {
    forall x: nat ensures Owers(Fresh(parallel), x) == 0 {
      NobodyOwes(parallel, x);
    }
    AllPresent(parallel);
  }

  lemma {:induction false} NobodyOwes(n: nat, x: nat)
    ensures Owers(Fresh(n), x) == 0
  {
    if n > 0 {
      assert Fresh(n)[..n - 1] == Fresh(n - 1);
      NobodyOwes(n - 1, x);
    }
  }

  lemma {:induction false} AllPresent(n: nat)
    ensures Present(Fresh(n)) == n
  {
    if n > 0 {
      assert Fresh(n)[..n - 1] == Fresh(n - 1);
      AllPresent(n - 1);
    }
  }

  /** A worker that moves on without claiming or running anything. */
  lemma {:induction false} MoveIsGood(s: Loop, begin: nat, w: nat, v: Worker)
    requires Good(s, begin) && w < |s.workers| && !s.workers[w].Left? && !v.Left? && Sound(s, v)
    requires forall x: nat :: Owes(v, x) == Owes(s.workers[w], x)
    ensures Good(s.(workers := s.workers[w := v]), begin)
  {
    var t := s.(workers := s.workers[w := v]);
    PresentReplace(s.workers, w, v);
    forall x: nat ensures t.ran[x] + Owers(t.workers, x) == One(begin <= x < t.ite) {
      OwersReplace(s.workers, w, v, x);
    }
  }

  lemma {:induction false} ClaimIsGood(s: Loop, begin: nat, w: nat)
    requires Good(s, begin) && w < |s.workers| && s.workers[w] == Loaded(s.ite)
    ensures Good(AfterSwap(s, w, false), begin)
  {
    var t := AfterSwap(s, w, false);
    PresentReplace(s.workers, w, t.workers[w]);
    forall x: nat ensures t.ran[x] + Owers(t.workers, x) == One(begin <= x < t.ite) {
      OwersReplace(s.workers, w, t.workers[w], x);
    }
    forall v | 0 <= v < |t.workers| ensures Sound(t, t.workers[v]) {
      if v != w {
        assert Sound(s, s.workers[v]);
      }
    }
  }

  lemma {:induction false} RunOneIsGood(s: Loop, begin: nat, w: nat)
    requires Good(s, begin) && Enabled(s, RunOne(w))
    ensures Good(AfterRunOne(s, w), begin)
  {
    var t := AfterRunOne(s, w);
    assert Sound(s, s.workers[w]);
    PresentReplace(s.workers, w, t.workers[w]);
    forall x: nat ensures t.ran[x] + Owers(t.workers, x) == One(begin <= x < t.ite) {
      OwersReplace(s.workers, w, t.workers[w], x);
    }
  }

  lemma {:induction false} LeaveIsGood(s: Loop, begin: nat, w: nat)
    requires Good(s, begin) && Enabled(s, Leave(w))
    ensures s.comp > 0 && Good(AfterLeave(s, w), begin)
  {
    SomePresent(s.workers, w);
    var t := AfterLeave(s, w);
    assert Sound(s, s.workers[w]);
    PresentReplace(s.workers, w, Left);
    forall x: nat ensures t.ran[x] + Owers(t.workers, x) == One(begin <= x < t.ite) {
      OwersReplace(s.workers, w, Left, x);
    }
  }

  /** Every step keeps the sharing; the subtraction `end - iterator` never wraps. */
  lemma {:induction false} StepIsGood(s: Loop, begin: nat, step: Step)
    requires Good(s, begin) && Enabled(s, step)
    ensures s.comp > 0 && (step.Swap? ==> s.workers[step.w].at <= s.end)
    ensures Good(Apply(s, step), begin)
  {
    SomePresent(s.workers, step.w);
    assert Sound(s, s.workers[step.w]);
    match step
    case Load(w) => MoveIsGood(s, begin, w, Loaded(s.ite));
    case Swap(w, spurious) =>
      if s.ite == s.workers[w].at && !spurious {
        ClaimIsGood(s, begin, w);
      } else {
        MoveIsGood(s, begin, w, Loaded(s.ite));
      }
    case RunOne(w) => RunOneIsGood(s, begin, w);
    case Again(w) => MoveIsGood(s, begin, w, Loading);
    case Leave(w) => LeaveIsGood(s, begin, w);
  }

  ghost predicate IsRun(states: seq<Loop>, steps: seq<Step>) {
    && |states| == |steps| + 1
    && forall i :: 0 <= i < |steps| ==> Enabled(states[i], steps[i]) && states[i + 1] == Apply(states[i], steps[i])
  }

  lemma {:induction false} RunPrefix(states: seq<Loop>, steps: seq<Step>)
    requires IsRun(states, steps) && steps != []
    ensures IsRun(states[..|steps|], steps[..|steps| - 1])
  {
  }

  lemma {:induction false} RunIsGood(states: seq<Loop>, steps: seq<Step>, begin: nat)
    requires IsRun(states, steps) && Good(states[0], begin)
    ensures Good(states[|steps|], begin) && states[|steps|].end == states[0].end && states[|steps|].max == states[0].max
    ensures |states[|steps|].workers| == |states[0].workers|
  {
    if steps != [] {
      var n := |steps| - 1;
      RunPrefix(states, steps);
      RunIsGood(states[..n + 1], steps[..n], begin);
      StepIsGood(states[n], begin, steps[n]);
    }
  }

  /** In every interleaving no index is run twice, none outside the range is run, and the future completes at most
      once. */
  lemma {:induction false} AtMostOnce(
      states: seq<Loop>, steps: seq<Step>, begin: nat, end: nat, grain: nat, parallel: nat, x: nat)
    requires begin < end && parallel > 0
    requires IsRun(states, steps) && states[0] == Launch(begin, end, grain, parallel)
    ensures var s := states[|steps|];
            s.ran[x] <= 1 && (s.ran[x] == 1 ==> begin <= x < end) && s.completions <= 1
  {
    LaunchIsGood(begin, end, grain, parallel);
    RunIsGood(states, steps, begin);
  }

  /** When the future completes, every index of the range has been run exactly once, if and only if the grain is not
      zero and there are at least as many indices as workers; otherwise nothing has been run at all. */
  lemma {:induction false} CompletedMeansAllRun(
      states: seq<Loop>, steps: seq<Step>, begin: nat, end: nat, grain: nat, parallel: nat)
    requires begin < end && parallel > 0
    requires IsRun(states, steps) && states[0] == Launch(begin, end, grain, parallel)
    requires states[|steps|].completions > 0
    ensures var s := states[|steps|];
            && ((forall x: nat :: s.ran[x] == One(begin <= x < end)) <==> (grain >= 1 && end - begin >= parallel))
            && ((forall x: nat :: s.ran[x] == 0) <==> !(grain >= 1 && end - begin >= parallel))
  {
    LaunchIsGood(begin, end, grain, parallel);
    RunIsGood(states, steps, begin);
    var s := states[|steps|];
    NonePresent(s.workers);
    AllSettled(s, begin);
    ChunkIsZero(begin, end, grain, parallel);
    if s.max > 0 {
      assert Sound(s, s.workers[0]);
      assert s.ran[begin] == 1;
    } else {
      assert s.ran[begin] == 0;
    }
  }

  lemma {:induction false} ChunkIsZero(begin: nat, end: nat, grain: nat, parallel: nat)
    requires begin <= end && parallel > 0
    ensures Chunk(begin, end, grain, parallel) == 0 <==> grain == 0 || end - begin < parallel
  {
  }

  /** A compare-and-swap that may fail for no reason. */
  predicate Spurious(step: Step) {
    step.Swap? && step.spurious
  }

  /** Some worker can always go on until all have left, and then the future has been completed. */
  lemma {:induction false} NotStuck(s: Loop, begin: nat)
    requires Good(s, begin) && s.completions == 0
    ensures exists step :: Enabled(s, step) && !Spurious(step)
  {
    var w := SomeoneHere(s.workers);
    var worker := s.workers[w];
    var step := if worker.Loading? then Load(w) else if worker.Loaded? then Swap(w, false)
                else if worker.done < worker.size then RunOne(w) else if worker.size > 0 then Again(w) else Leave(w);
    assert Enabled(s, step) && !Spurious(step);
  }

  lemma {:induction false} SomeoneHere(workers: seq<Worker>) returns (w: nat)
    requires Present(workers) > 0
    ensures w < |workers| && !workers[w].Left?
  {
    var n := |workers| - 1;
    if workers[n].Left? {
      w := SomeoneHere(workers[..n]);
    } else {
      w := n;
    }
  }

  // ---------- the future is completed ----------

  /** How many steps a worker still takes if nothing is left to claim and the iterator stays where it is. */
  function Ahead(worker: Worker, ite: nat): nat {
    match worker
    case Loading => 3
    case Loaded(at) => if at == ite then 2 else 3
    case Claimed(_, size, done) => if size == 0 then 1 else if done <= size then 4 + size - done else 4
    case Left => 0
  }

  function AheadAll(workers: seq<Worker>, ite: nat): nat {
    if workers == [] then 0 else AheadAll(workers[..|workers| - 1], ite) + Ahead(workers[|workers| - 1], ite)
  }

  /** Each claimed index costs its run, and each claim one more turn of its worker and a failure of every other one. */
  function Rank(s: Loop): nat
    requires s.ite <= s.end
  {
    (s.end - s.ite) * (|s.workers| + 4) + AheadAll(s.workers, s.ite)
  }

  lemma {:induction false} AheadReplace(workers: seq<Worker>, w: nat, v: Worker, ite: nat)
    requires w < |workers|
    ensures AheadAll(workers[w := v], ite) + Ahead(workers[w], ite) == AheadAll(workers, ite) + Ahead(v, ite)
  {
    var n := |workers| - 1;
    if w < n {
      assert workers[w := v][..n] == workers[..n][w := v];
      AheadReplace(workers[..n], w, v, ite);
    } else {
      assert workers[w := v][..n] == workers[..n];
    }
  }

  /** Moving the iterator makes every loaded copy of it stale. */
  lemma {:induction false} AheadMoves(workers: seq<Worker>, ite: nat, moved: nat)
    ensures AheadAll(workers, moved) <= AheadAll(workers, ite) + |workers|
  {
    if workers != [] {
      AheadMoves(workers[..|workers| - 1], ite, moved);
    }
  }

  lemma {:induction false} ClaimLowersRank(s: Loop, begin: nat, w: nat)
    requires Good(s, begin) && w < |s.workers| && s.workers[w] == Loaded(s.ite)
    ensures AfterSwap(s, w, false).ite <= s.end && Rank(AfterSwap(s, w, false)) < Rank(s)
  {
    var t := AfterSwap(s, w, false);
    var size := Size(s, s.ite);
    AheadReplace(s.workers, w, t.workers[w], t.ite);
    if size > 0 {
      AheadReplace(s.workers, w, Left, s.ite);
      AheadReplace(s.workers, w, Left, t.ite);
      AheadMoves(s.workers[w := Left], s.ite, t.ite);
      Product(s.end - s.ite, size, |s.workers| + 4);
    }
  }

  lemma {:induction false} Product(left: nat, size: nat, k: nat)
    requires 1 <= size <= left && k >= 1
    ensures (left - size) * k + size + (k - 1) <= left * k
  {
    assert left * k == (left - size) * k + size * k;
    assert size * k == size + size * (k - 1);
    assert size * (k - 1) == (k - 1) + (size - 1) * (k - 1);
  }

  /** Every step brings the end nearer, except a compare-and-swap that fails for no reason, which keeps it. */
  lemma {:induction false} StepLowersRank(s: Loop, begin: nat, step: Step)
    requires Good(s, begin) && Enabled(s, step)
    ensures Apply(s, step).ite <= s.end
    ensures Rank(Apply(s, step)) + 1 <= Rank(s) + One(Spurious(step))
  {
    var t := Apply(s, step);
    assert Sound(s, s.workers[step.w]);
    if step.Swap? && s.workers[step.w].at == s.ite && !step.spurious {
      ClaimLowersRank(s, begin, step.w);
    } else {
      AheadReplace(s.workers, step.w, t.workers[step.w], s.ite);
    }
  }

  function SpuriousIn(steps: seq<Step>): nat {
    if steps == [] then 0 else SpuriousIn(steps[..|steps| - 1]) + One(Spurious(steps[|steps| - 1]))
  }

  lemma {:induction false} RunLowersRank(states: seq<Loop>, steps: seq<Step>, begin: nat)
    requires IsRun(states, steps) && Good(states[0], begin)
    ensures states[|steps|].ite <= states[|steps|].end
    ensures Rank(states[|steps|]) + |steps| <= Rank(states[0]) + SpuriousIn(steps)
  {
    RunIsGood(states, steps, begin);
    if steps != [] {
      var n := |steps| - 1;
      RunPrefix(states, steps);
      RunLowersRank(states[..n + 1], steps[..n], begin);
      RunIsGood(states[..n + 1], steps[..n], begin);
      StepLowersRank(states[n], begin, steps[n]);
    }
  }

  lemma {:induction false} AheadAtFirst(n: nat, ite: nat)
    ensures AheadAll(Fresh(n), ite) == 3 * n
  {
    if n > 0 {
      assert Fresh(n)[..n - 1] == Fresh(n - 1);
      AheadAtFirst(n - 1, ite);
    }
  }

  /** Progress: apart from compare-and-swaps that fail for no reason, the number of steps of a run is bounded; and where
      no other step is left, the future has been completed. */
  lemma {:induction false} RunsComplete(
      states: seq<Loop>, steps: seq<Step>, begin: nat, end: nat, grain: nat, parallel: nat)
    requires begin < end && parallel > 0
    requires IsRun(states, steps) && states[0] == Launch(begin, end, grain, parallel)
    ensures |steps| <= (end - begin) * (parallel + 4) + 3 * parallel + SpuriousIn(steps)
    ensures states[|steps|].completions == 0 <==> exists step :: Enabled(states[|steps|], step) && !Spurious(step)
  {
    LaunchIsGood(begin, end, grain, parallel);
    RunIsGood(states, steps, begin);
    RunLowersRank(states, steps, begin);
    AheadAtFirst(parallel, begin);
    StuckIff(states[|steps|], begin);
  }

  lemma {:induction false} StuckIff(s: Loop, begin: nat)
    requires Good(s, begin)
    ensures s.completions == 0 <==> exists step :: Enabled(s, step) && !Spurious(step)
  {
    if s.completions == 0 {
      NotStuck(s, begin);
    } else {
      NonePresent(s.workers);
    }
  }

  /** Every run can be continued until the future completes. */
  lemma {:induction false} Finish(states: seq<Loop>, steps: seq<Step>, begin: nat)
      returns (more: seq<Loop>, all: seq<Step>)
    requires IsRun(states, steps) && Good(states[0], begin)
    requires Good(states[|steps|], begin)
    ensures IsRun(more, all) && steps <= all && states <= more && more[|all|].completions == 1
    decreases Rank(states[|steps|])
  {
    var s := states[|steps|];
    if s.completions == 1 {
      return states, steps;
    }
    NotStuck(s, begin);
    var step :| Enabled(s, step) && !Spurious(step);
    StepIsGood(s, begin, step);
    StepLowersRank(s, begin, step);
    more, all := Finish(states + [Apply(s, step)], steps + [step], begin);
  }

  /** With a grain of 0, or fewer indices than workers, the future completes although nothing has been run. */
  lemma {:induction false} CompletesWithoutRunning(begin: nat, end: nat, grain: nat, parallel: nat)
      returns (states: seq<Loop>, steps: seq<Step>)
    requires begin < end && parallel > 0 && (grain == 0 || end - begin < parallel)
    ensures IsRun(states, steps) && states[0] == Launch(begin, end, grain, parallel)
    ensures states[|steps|].completions == 1 && forall x: nat :: states[|steps|].ran[x] == 0
  {
    LaunchIsGood(begin, end, grain, parallel);
    states, steps := Finish([Launch(begin, end, grain, parallel)], [], begin);
    CompletedMeansAllRun(states, steps, begin, end, grain, parallel);
  }

  /** The shortest such run. */
  lemma {:induction false} ZeroGrainCompletes() returns (states: seq<Loop>, steps: seq<Step>)
    ensures IsRun(states, steps) && states[0] == Launch(0, 1, 0, 1) && steps == [Load(0), Swap(0, false), Leave(0)]
    ensures states[3].completions == 1 && states[3].ran == multiset{}
  {
    var s0 := Launch(0, 1, 0, 1);
    var s1 := Apply(s0, Load(0));
    var s2 := Apply(s1, Swap(0, false));
    states, steps := [s0, s1, s2, Apply(s2, Leave(0))], [Load(0), Swap(0, false), Leave(0)];
  }

  // ---------- the shared variables ----------

  class ParallelFor {
    const end: nat
    const max: nat
    var ite: nat
    var comp: nat
    var workers: seq<Worker>
    var completions: nat
    ghost var ran: multiset<nat>
    ghost const begin: nat

    ghost function Value(): Loop
      reads this
    {
      Loop(end, max, ite, comp, workers, ran, completions)
    }

    constructor (begin: nat, end: nat, grain: nat, parallel: nat)
      requires begin < end && parallel > 0
      ensures this.begin == begin && Value() == Launch(begin, end, grain, parallel) && Good(Value(), begin)
    {
      var chunk := end - begin;
      chunk := chunk / parallel;
      if chunk > grain {
        chunk := grain;
      }
      this.begin, this.end, max := begin, end, chunk;
      ite, comp, completions := begin, parallel, 0;
      workers := Fresh(parallel);
      ran := multiset{};
      new;
      LaunchIsGood(begin, end, grain, parallel);
    }

    method LoadIterator(w: nat)
      requires Good(Value(), begin) && Enabled(Value(), Load(w))
      modifies this
      ensures Good(Value(), begin) && old(comp) > 0 && Value() == Apply(old(Value()), Load(w))
    {
      StepIsGood(Value(), begin, Load(w));
      workers := workers[w := Loaded(ite)];
    }

    /** One round of the inner loop: how much is left, capped, and the attempt to move the shared value past it. */
    method CompareExchange(w: nat, spurious: bool) returns (claimed: bool)
      requires Good(Value(), begin) && Enabled(Value(), Swap(w, spurious))
      modifies this
      ensures Good(Value(), begin) && old(workers)[w].at <= end && Value() == AfterSwap(old(Value()), w, spurious)
      ensures claimed <==> workers[w].Claimed?
      ensures claimed <==> old(ite) == old(workers)[w].at && !spurious
      ensures claimed ==> workers[w] == Claimed(old(ite), ite - old(ite), 0)
      ensures claimed ==> ite - old(ite) <= max && ite <= end && (ite == end || ite - old(ite) == max)
      ensures !claimed ==> ite == old(ite) && workers[w] == Loaded(ite)
    {
      StepIsGood(Value(), begin, Swap(w, spurious));
      var at := workers[w].at;
      var size := end - at;
      if size > max {
        size := max;
      }
      if ite == at && !spurious {
        ite := at + size;
        workers := workers[w := Claimed(at, size, 0)];
        return true;
      }
      workers := workers[w := Loaded(ite)];
      return false;
    }

    /** One call of the function, on the next index of the claim. */
    method RunNext(w: nat) returns (x: nat)
      requires Good(Value(), begin) && Enabled(Value(), RunOne(w))
      modifies this
      ensures Good(Value(), begin) && Value() == AfterRunOne(old(Value()), w)
      ensures begin <= x < end && old(ran)[x] == 0 && ran == old(ran) + multiset{x}
    {
      ghost var s := Value();
      var c := workers[w];
      x := c.at + c.done;
      NextIsOwed(s, begin, w);
      ran := ran + multiset{x};
      workers := workers[w := c.(done := c.done + 1)];
      assert Value() == AfterRunOne(s, w);
    }

    method ClaimAgain(w: nat)
      requires Good(Value(), begin) && Enabled(Value(), Again(w))
      modifies this
      ensures Good(Value(), begin) && old(comp) > 0 && Value() == Apply(old(Value()), Again(w))
    {
      StepIsGood(Value(), begin, Again(w));
      workers := workers[w := Loading];
    }

    /** The last worker to leave completes the future. */
    method LeaveLoop(w: nat)
      requires Good(Value(), begin) && Enabled(Value(), Leave(w))
      modifies this
      ensures Good(Value(), begin) && old(comp) > 0 && Value() == AfterLeave(old(Value()), w)
      ensures completions > old(completions) ==> forall x: nat :: ran[x] == One(begin <= x < ite)
    {
      LeaveIsGood(Value(), begin, w);
      comp := comp - 1;
      workers := workers[w := Left];
      if comp == 0 {
        completions := completions + 1;
        AllSettled(Value(), begin);
      }
    }
  }

  lemma {:induction false} SomeOwer(workers: seq<Worker>, w: nat, x: nat)
    requires w < |workers| && Owes(workers[w], x)
    ensures Owers(workers, x) > 0
  {
    var n := |workers| - 1;
    if w < n {
      SomeOwer(workers[..n], w, x);
    }
  }

  /** An index that is owed lies in the range and has not been run yet. */
  lemma {:induction false} OwedOnce(s: Loop, begin: nat, w: nat, x: nat)
    requires Good(s, begin) && w < |s.workers| && Owes(s.workers[w], x)
    ensures begin <= x < s.ite && s.ran[x] == 0
  {
    SomeOwer(s.workers, w, x);
  }

  lemma {:induction false} NextIsOwed(s: Loop, begin: nat, w: nat)
    requires Good(s, begin) && Enabled(s, RunOne(w))
    ensures Good(AfterRunOne(s, w), begin)
    ensures var x := s.workers[w].at + s.workers[w].done; begin <= x < s.end && s.ran[x] == 0
  {
    RunOneIsGood(s, begin, w);
    OwedOnce(s, begin, w, s.workers[w].at + s.workers[w].done);
  }

  lemma {:induction false} AllSettled(s: Loop, begin: nat)
    requires Good(s, begin) && s.comp == 0
    ensures forall x: nat :: s.ran[x] == One(begin <= x < s.ite)
  {
    NonePresent(s.workers);
    forall x: nat ensures s.ran[x] == One(begin <= x < s.ite) {
      LeftOweNothing(s.workers, x);
    }
  }
}
