/** Vote counting over independent callbacks: every way their atomic steps can interleave. */
module Quorums {
  /** Where the callback of one proposer stands; `ok` is its vote, `last` and `fires` what its counters told it. */
  datatype Callback =
    | Waiting
    | Counted(ok: bool, last: bool)
    | Voted(ok: bool, last: bool, fires: bool)
    | Signalled(ok: bool, last: bool)
    | Done(ok: bool)

  /** The shared counters and the two pointers; `told` lists what the continuation was completed with. */
  datatype Waiter = Waiter(
    majority: nat, finishCounter: nat, successCounter: nat, errorCounter: nat,
    continuation: bool, finish: bool, told: seq<bool>, finished: nat, callbacks: seq<Callback>)

  datatype Step = Count(i: nat, ok: bool) | Vote(i: nat) | Signal(i: nat) | End(i: nat)

  function InitWaiter(size: nat, majority: nat): Waiter {
    Waiter(majority, size, 0, 0, true, true, [], 0, seq(size, _ => Waiting))
  }

  // ---------- the atomic steps ----------

  predicate Enabled(w: Waiter, step: Step) {
    && step.i < |w.callbacks|
    && match step
       case Count(i, _) => w.callbacks[i].Waiting?
       case Vote(i) => w.callbacks[i].Counted?
       case Signal(i) => w.callbacks[i].Voted?
       case End(i) => w.callbacks[i].Signalled?
  }

  /** The counter is a 64-bit unsigned number: one less than 0 is the largest. */
  function OneLess(counter: nat): nat {
    if counter == 0 then 0xFFFF_FFFF_FFFF_FFFF else counter - 1
  }

  function AfterCount(w: Waiter, i: nat, ok: bool): Waiter
    requires i < |w.callbacks|
  {
    w.(finishCounter := OneLess(w.finishCounter),
       callbacks := w.callbacks[i := Counted(ok, OneLess(w.finishCounter) == 0)])
  }

  function AfterVote(w: Waiter, i: nat): Waiter
    requires i < |w.callbacks| && w.callbacks[i].Counted?
  {
    var c := w.callbacks[i];
    if c.ok then
      w.(successCounter := w.successCounter + 1,
         callbacks := w.callbacks[i := Voted(true, c.last, w.successCounter + 1 == w.majority)])
    else
      w.(errorCounter := w.errorCounter + 1,
         callbacks := w.callbacks[i := Voted(false, c.last, |w.callbacks| - w.errorCounter == w.majority)])
  }

  /** The pointer is swapped out before the future is completed. */
  function AfterSignal(w: Waiter, i: nat): Waiter
    requires i < |w.callbacks| && w.callbacks[i].Voted?
  {
    var c := w.callbacks[i];
    var v := w.(callbacks := w.callbacks[i := Signalled(c.ok, c.last)]);
    if !c.fires then v
    else v.(continuation := false, told := if w.continuation then w.told + [c.ok] else w.told)
  }

  function AfterEnd(w: Waiter, i: nat): Waiter
    requires i < |w.callbacks| && w.callbacks[i].Signalled?
  {
    var c := w.callbacks[i];
    var v := w.(callbacks := w.callbacks[i := Done(c.ok)]);
    if !c.last then v
    else v.(finish := false, finished := if w.finish then w.finished + 1 else w.finished)
  }

  function Apply(w: Waiter, step: Step): Waiter
    requires Enabled(w, step)
  {
    match step
    case Count(i, ok) => AfterCount(w, i, ok)
    case Vote(i) => AfterVote(w, i)
    case Signal(i) => AfterSignal(w, i)
    case End(i) => AfterEnd(w, i)
  }

  // ---------- counting callbacks ----------

  datatype Kind = Begun | SaidYes | SaidNo | Succeeded | Failed | FiringTrue | FiringFalse | Ending

  predicate Is(c: Callback, kind: Kind) {
    match kind
    case Begun => !c.Waiting?
    case SaidYes => !c.Waiting? && c.ok
    case SaidNo => !c.Waiting? && !c.ok
    case Succeeded => !c.Waiting? && !c.Counted? && c.ok
    case Failed => !c.Waiting? && !c.Counted? && !c.ok
    case FiringTrue => c.Voted? && c.fires && c.ok
    case FiringFalse => c.Voted? && c.fires && !c.ok
    case Ending => (c.Counted? || c.Voted? || c.Signalled?) && c.last
  }

  function HowMany(s: seq<Callback>, kind: Kind): nat {
    if s == [] then 0 else HowMany(s[..|s| - 1], kind) + if Is(s[|s| - 1], kind) then 1 else 0
  }

  lemma {:induction false} Replace(s: seq<Callback>, i: nat, c: Callback, kind: Kind)
    requires i < |s|
    ensures HowMany(s[i := c], kind) + (if Is(s[i], kind) then 1 else 0)
            == HowMany(s, kind) + (if Is(c, kind) then 1 else 0)
  {
    var n := |s| - 1;
    if i < n {
      assert s[i := c][..n] == s[..n][i := c];
      Replace(s[..n], i, c, kind);
    } else {
      assert s[i := c][..n] == s[..n];
    }
  }

  lemma {:induction false} Bounds(s: seq<Callback>)
    ensures HowMany(s, Succeeded) + HowMany(s, Failed) <= HowMany(s, Begun) <= |s|
  {
    if s != [] {
      Bounds(s[..|s| - 1]);
    }
  }

  lemma {:induction false} SomeAre(s: seq<Callback>, i: nat, kind: Kind)
    requires i < |s|
    ensures Is(s[i], kind) ==> HowMany(s, kind) > 0
    ensures !Is(s[i], kind) ==> HowMany(s, kind) < |s|
  {
    var n := |s| - 1;
    if i < n {
      SomeAre(s[..n], i, kind);
    } else {
      AtMostAll(s[..n], kind);
    }
  }

  lemma {:induction false} AtMostAll(s: seq<Callback>, kind: Kind)
    ensures HowMany(s, kind) <= |s|
  {
    if s != [] {
      AtMostAll(s[..|s| - 1], kind);
    }
  }

  // ---------- what every interleaving keeps ----------

  function One(b: bool): nat {
    if b then 1 else 0
  }

  /** Whether the votes so far decide the outcome, and which way. */
  predicate Won(w: Waiter) {
    w.majority >= 1 && w.successCounter >= w.majority
  }

  predicate Lost(w: Waiter) {
    w.majority >= 1 && w.majority <= |w.callbacks| && w.errorCounter > |w.callbacks| - w.majority
  }

  predicate Counters(w: Waiter) {
    && w.finishCounter + HowMany(w.callbacks, Begun) == |w.callbacks|
    && w.successCounter == HowMany(w.callbacks, Succeeded)
    && w.errorCounter == HowMany(w.callbacks, Failed)
  }

  /** Completed once or about to be, exactly if the votes decide. */
  predicate Decision(w: Waiter) {
    && HowMany(w.callbacks, FiringTrue) + One(w.told == [true]) == One(Won(w))
    && HowMany(w.callbacks, FiringFalse) + One(w.told == [false]) == One(Lost(w))
    && w.continuation == (w.told == []) && (w.told == [] || w.told == [true] || w.told == [false])
  }

  predicate Ends(w: Waiter) {
    && HowMany(w.callbacks, Ending) + w.finished == One(w.finishCounter == 0 && |w.callbacks| > 0)
    && w.finish == (w.finished == 0)
  }

  predicate Good(w: Waiter) {
    Counters(w) && Decision(w) && Ends(w)
  }

  lemma {:induction false} WaitingIsCounted(w: Waiter, i: nat)
    requires Counters(w) && i < |w.callbacks| && w.callbacks[i].Waiting?
    ensures w.finishCounter > 0
  {
    SomeAre(w.callbacks, i, Begun);
  }

  lemma {:induction false} NoneYet(n: nat, kind: Kind)
    ensures HowMany(seq(n, _ => Waiting), kind) == 0
  {
    if n > 0 {
      assert seq(n, _ => Waiting)[..n - 1] == seq(n - 1, _ => Waiting);
      NoneYet(n - 1, kind);
    }
  }

  lemma {:induction false} InitIsGood(size: nat, majority: nat)
    ensures Good(InitWaiter(size, majority))
  {
    NoneYet(size, Begun);
    NoneYet(size, Succeeded);
    NoneYet(size, Failed);
    NoneYet(size, FiringTrue);
    NoneYet(size, FiringFalse);
    NoneYet(size, Ending);
  }

  lemma {:induction false} ReplaceAll(s: seq<Callback>, i: nat, c: Callback)
    requires i < |s|
    ensures HowMany(s[i := c], Begun) + One(Is(s[i], Begun)) == HowMany(s, Begun) + One(Is(c, Begun))
    ensures HowMany(s[i := c], Succeeded) + One(Is(s[i], Succeeded)) == HowMany(s, Succeeded) + One(Is(c, Succeeded))
    ensures HowMany(s[i := c], Failed) + One(Is(s[i], Failed)) == HowMany(s, Failed) + One(Is(c, Failed))
    ensures HowMany(s[i := c], FiringTrue) + One(Is(s[i], FiringTrue))
            == HowMany(s, FiringTrue) + One(Is(c, FiringTrue))
    ensures HowMany(s[i := c], FiringFalse) + One(Is(s[i], FiringFalse))
            == HowMany(s, FiringFalse) + One(Is(c, FiringFalse))
    ensures HowMany(s[i := c], Ending) + One(Is(s[i], Ending)) == HowMany(s, Ending) + One(Is(c, Ending))
  {
    Replace(s, i, c, Begun);
    Replace(s, i, c, Succeeded);
    Replace(s, i, c, Failed);
    Replace(s, i, c, FiringTrue);
    Replace(s, i, c, FiringFalse);
    Replace(s, i, c, Ending);
  }

  lemma {:induction false} CountIsGood(w: Waiter, i: nat, ok: bool)
    requires Good(w) && i < |w.callbacks| && w.callbacks[i].Waiting?
    ensures w.finishCounter > 0 && Good(AfterCount(w, i, ok))
  {
    WaitingIsCounted(w, i);
    ReplaceAll(w.callbacks, i, Counted(ok, w.finishCounter - 1 == 0));
  }

  lemma {:induction false} VoteIsCounted(w: Waiter, i: nat)
    requires Good(w) && i < |w.callbacks| && w.callbacks[i].Counted?
    ensures Counters(AfterVote(w, i)) && Ends(AfterVote(w, i))
  {
    ReplaceAll(w.callbacks, i, AfterVote(w, i).callbacks[i]);
  }

  lemma {:induction false} VoteDecides(w: Waiter, i: nat)
    requires Good(w) && i < |w.callbacks| && w.callbacks[i].Counted?
    ensures Decision(AfterVote(w, i))
  {
    var c := AfterVote(w, i).callbacks[i];
    Replace(w.callbacks, i, c, FiringTrue);
    Replace(w.callbacks, i, c, FiringFalse);
    VoteIsCounted(w, i);
    Bounds(AfterVote(w, i).callbacks);
  }

  lemma {:induction false} VoteIsGood(w: Waiter, i: nat)
    requires Good(w) && i < |w.callbacks| && w.callbacks[i].Counted?
    ensures Good(AfterVote(w, i))
  {
    VoteIsCounted(w, i);
    VoteDecides(w, i);
  }

  /** A firing callback finds the continuation still there. */
  lemma {:induction false} SignalIsGood(w: Waiter, i: nat)
    requires Good(w) && i < |w.callbacks| && w.callbacks[i].Voted?
    ensures Good(AfterSignal(w, i))
    ensures w.callbacks[i].fires ==> w.continuation
  {
    var c := w.callbacks[i];
    ReplaceAll(w.callbacks, i, Signalled(c.ok, c.last));
    Bounds(w.callbacks);
    if c.fires {
      SomeAre(w.callbacks, i, if c.ok then FiringTrue else FiringFalse);
      NotBoth(w);
    }
  }

  /** A majority of successes and a blocking set of errors do not fit among the callbacks. */
  lemma {:induction false} NotBoth(w: Waiter)
    requires Counters(w)
    ensures !(Won(w) && Lost(w))
  {
    Bounds(w.callbacks);
  }

  lemma {:induction false} EndIsGood(w: Waiter, i: nat)
    requires Good(w) && i < |w.callbacks| && w.callbacks[i].Signalled?
    ensures Good(AfterEnd(w, i))
  {
    var c := w.callbacks[i];
    ReplaceAll(w.callbacks, i, Done(c.ok));
    SomeAre(w.callbacks, i, Ending);
  }

  lemma {:induction false} StepIsGood(w: Waiter, step: Step)
    requires Good(w) && Enabled(w, step)
    ensures Good(Apply(w, step)) && w.told <= Apply(w, step).told && w.finished <= Apply(w, step).finished
    ensures |Apply(w, step).callbacks| == |w.callbacks| && Apply(w, step).majority == w.majority
  {
    match step
    case Count(i, ok) => CountIsGood(w, i, ok);
    case Vote(i) => VoteIsGood(w, i);
    case Signal(i) => SignalIsGood(w, i);
    case End(i) => EndIsGood(w, i);
  }

  ghost predicate IsRun(states: seq<Waiter>, steps: seq<Step>) {
    && |states| == |steps| + 1
    && forall i :: 0 <= i < |steps| ==> Enabled(states[i], steps[i]) && states[i + 1] == Apply(states[i], steps[i])
  }

  lemma {:induction false} RunPrefix(states: seq<Waiter>, steps: seq<Step>)
    requires IsRun(states, steps) && steps != []
    ensures IsRun(states[..|steps|], steps[..|steps| - 1])
  {
  }

  lemma {:induction false} RunIsGood(states: seq<Waiter>, steps: seq<Step>, size: nat, majority: nat)
    requires IsRun(states, steps) && states[0] == InitWaiter(size, majority)
    ensures var w := states[|steps|]; Good(w) && |w.callbacks| == size && w.majority == majority
  {
    if steps == [] {
      InitIsGood(size, majority);
    } else {
      var n := |steps| - 1;
      RunPrefix(states, steps);
      RunIsGood(states[..n + 1], steps[..n], size, majority);
      StepIsGood(states[n], steps[n]);
    }
  }

  // ---------- what the proposers answered ----------

  /** How many callbacks have been called with this answer. */
  function Answers(steps: seq<Step>, ok: bool): nat {
    if steps == [] then 0
    else Answers(steps[..|steps| - 1], ok)
         + One(steps[|steps| - 1].Count? && steps[|steps| - 1].ok == ok)
  }

  lemma {:induction false} AnswersAreKept(states: seq<Waiter>, steps: seq<Step>, size: nat, majority: nat)
    requires IsRun(states, steps) && states[0] == InitWaiter(size, majority)
    ensures HowMany(states[|steps|].callbacks, SaidYes) == Answers(steps, true)
    ensures HowMany(states[|steps|].callbacks, SaidNo) == Answers(steps, false)
  {
    if steps == [] {
      NoneYet(size, SaidYes);
      NoneYet(size, SaidNo);
    } else {
      var n := |steps| - 1;
      RunPrefix(states, steps);
      AnswersAreKept(states[..n + 1], steps[..n], size, majority);
      var w, i := states[n], steps[n].i;
      var c := Apply(w, steps[n]).callbacks[i];
      assert Apply(w, steps[n]).callbacks == w.callbacks[i := c];
      Replace(w.callbacks, i, c, SaidYes);
      Replace(w.callbacks, i, c, SaidNo);
    }
  }

  lemma {:induction false} CountedAnswers(s: seq<Callback>)
    ensures HowMany(s, Succeeded) <= HowMany(s, SaidYes) && HowMany(s, Failed) <= HowMany(s, SaidNo)
    ensures (forall i :: 0 <= i < |s| ==> s[i].Done?) ==> HowMany(s, Succeeded) == HowMany(s, SaidYes)
  {
    if s != [] {
      CountedAnswers(s[..|s| - 1]);
    }
  }

  /** In every interleaving: the continuation is completed at most once, with true only after a majority of successes,
      with false only after so many errors that a majority is out of reach; the finish future at most once, and only
      after every callback has begun. */
  lemma {:induction false} NeverWrong(states: seq<Waiter>, steps: seq<Step>, size: nat, majority: nat)
    requires IsRun(states, steps) && states[0] == InitWaiter(size, majority)
    ensures var w := states[|steps|];
            && |w.told| <= 1 && w.finished <= 1
            && (w.told == [true] ==> Answers(steps, true) >= HowMany(w.callbacks, Succeeded) >= majority)
            && (w.told == [false] ==> HowMany(w.callbacks, Failed) + majority > size)
            && (w.told == [false] ==> Answers(steps, false) + majority > size)
            && (w.finished == 1 ==> HowMany(w.callbacks, Begun) == size)
  {
    RunIsGood(states, steps, size, majority);
    AnswersAreKept(states, steps, size, majority);
    CountedAnswers(states[|steps|].callbacks);
  }

  predicate AllDone(w: Waiter) {
    forall i :: 0 <= i < |w.callbacks| ==> w.callbacks[i].Done?
  }

  lemma {:induction false} DoneCounts(s: seq<Callback>)
    requires forall i :: 0 <= i < |s| ==> s[i].Done?
    ensures HowMany(s, Begun) == |s| == HowMany(s, Succeeded) + HowMany(s, Failed)
    ensures HowMany(s, FiringTrue) == HowMany(s, FiringFalse) == HowMany(s, Ending) == 0
  {
    if s != [] {
      DoneCounts(s[..|s| - 1]);
    }
  }

  /** When all callbacks have ended: the finish future has been completed exactly once, and the continuation exactly
      once if and only if the majority lies between 1 and the number of proposers, with true if and only if that many
      succeeded. */
  lemma {:induction false} DecidedInTheEnd(states: seq<Waiter>, steps: seq<Step>, size: nat, majority: nat)
    requires IsRun(states, steps) && states[0] == InitWaiter(size, majority) && size > 0
    requires AllDone(states[|steps|])
    ensures var w := states[|steps|];
            && w.finished == 1
            && (|w.told| == 1 <==> 1 <= majority <= size)
            && (1 <= majority <= size ==> w.told == [Answers(steps, true) >= majority])
  {
    RunIsGood(states, steps, size, majority);
    DoneCounts(states[|steps|].callbacks);
    AnswersAreKept(states, steps, size, majority);
    CountedAnswers(states[|steps|].callbacks);
  }

  /** As long as a callback has not ended, it can take its next step. */
  lemma {:induction false} NotStuck(w: Waiter, i: nat)
    requires i < |w.callbacks| && !w.callbacks[i].Done?
    ensures exists step: Step :: step.i == i && Enabled(w, step)
  {
    var c := w.callbacks[i];
    var step := if c.Waiting? then Count(i, true) else if c.Counted? then Vote(i)
                else if c.Voted? then Signal(i) else End(i);
    assert Enabled(w, step);
  }

  /** How many steps a callback has taken, and all of them together. */
  function Stage(c: Callback): nat {
    match c
    case Waiting => 0
    case Counted(_, _) => 1
    case Voted(_, _, _) => 2
    case Signalled(_, _) => 3
    case Done(_) => 4
  }

  function Stages(s: seq<Callback>): nat {
    if s == [] then 0 else Stages(s[..|s| - 1]) + Stage(s[|s| - 1])
  }

  lemma {:induction false} StagesReplace(s: seq<Callback>, i: nat, c: Callback)
    requires i < |s|
    ensures Stages(s[i := c]) + Stage(s[i]) == Stages(s) + Stage(c)
  {
    var n := |s| - 1;
    if i < n {
      assert s[i := c][..n] == s[..n][i := c];
      StagesReplace(s[..n], i, c);
    } else {
      assert s[i := c][..n] == s[..n];
    }
  }

  lemma {:induction false} StagesBound(s: seq<Callback>)
    ensures Stages(s) <= 4 * |s|
    ensures Stages(s) == 4 * |s| <==> forall i :: 0 <= i < |s| ==> s[i].Done?
  {
    if s != [] {
      var n := |s| - 1;
      StagesBound(s[..n]);
      assert forall i :: 0 <= i < n ==> s[..n][i] == s[i];
    }
  }

  lemma {:induction false} StagesOfRun(states: seq<Waiter>, steps: seq<Step>, size: nat, majority: nat)
    requires IsRun(states, steps) && states[0] == InitWaiter(size, majority)
    ensures Stages(states[|steps|].callbacks) == |steps| && |states[|steps|].callbacks| == size
  {
    if steps == [] {
      NoStageYet(size);
    } else {
      var n := |steps| - 1;
      RunPrefix(states, steps);
      StagesOfRun(states[..n + 1], steps[..n], size, majority);
      StagesReplace(states[n].callbacks, steps[n].i, states[n + 1].callbacks[steps[n].i]);
    }
  }

  lemma {:induction false} NoStageYet(n: nat)
    ensures Stages(seq(n, _ => Waiting)) == 0
  {
    if n > 0 {
      assert seq(n, _ => Waiting)[..n - 1] == seq(n - 1, _ => Waiting);
      NoStageYet(n - 1);
    }
  }

  /** Progress: no run has more than four steps for each proposer; it has that many exactly when all callbacks have
      ended, and a shorter one can go on. */
  lemma {:induction false} RunsEnd(states: seq<Waiter>, steps: seq<Step>, size: nat, majority: nat)
    requires IsRun(states, steps) && states[0] == InitWaiter(size, majority)
    ensures |steps| <= 4 * size
    ensures |steps| == 4 * size <==> AllDone(states[|steps|])
    ensures |steps| < 4 * size ==> exists step :: Enabled(states[|steps|], step)
  {
    var w := states[|steps|];
    StagesOfRun(states, steps, size, majority);
    StagesBound(w.callbacks);
    if |steps| < 4 * size {
      var i: nat :| i < |w.callbacks| && !w.callbacks[i].Done?;
      NotStuck(w, i);
    }
  }

  function DefaultMajority(size: nat): nat {
    (size + 1) / 2
  }

  /** With the default majority, true means that the voters and the proposer itself are a strict majority of all of
      them, and that one vote less would not have been. */
  lemma {:induction false} DefaultIsStrictMajority(states: seq<Waiter>, steps: seq<Step>, size: nat)
    requires IsRun(states, steps) && states[0] == InitWaiter(size, DefaultMajority(size)) && size > 0
    ensures 1 <= DefaultMajority(size) <= size && 2 * DefaultMajority(size) <= size + 1
    ensures var w := states[|steps|];
            w.told == [true] ==> 2 * (Answers(steps, true) + 1) > size + 1
  {
    NeverWrong(states, steps, size, DefaultMajority(size));
  }

  // ---------- which future is completed first ----------

  ghost predicate FinishedFirst(states: seq<Waiter>, steps: seq<Step>, size: nat, majority: nat) {
    && IsRun(states, steps) && states[0] == InitWaiter(size, majority)
    && states[|steps|].finished == 1 && states[|steps|].told == []
  }

  lemma {:induction false} Extend(states: seq<Waiter>, steps: seq<Step>, step: Step)
    returns (more: seq<Waiter>, all: seq<Step>)
    requires IsRun(states, steps) && Enabled(states[|steps|], step)
    ensures IsRun(more, all) && |all| == |steps| + 1 && more[0] == states[0]
    ensures more[|all|] == Apply(states[|steps|], step)
  {
    more, all := states + [Apply(states[|steps|], step)], steps + [step];
  }

  /** The first `k` callbacks have counted, all with the same vote, and done nothing else. */
  function CountedFirst(size: nat, majority: nat, ok: bool, k: nat): Waiter
    requires k <= size
  {
    InitWaiter(size, majority).(
      finishCounter := size - k,
      callbacks := seq(size, i requires 0 <= i < size => if i < k then Counted(ok, i + 1 == size) else Waiting))
  }

  lemma {:induction false} CountAll(size: nat, majority: nat, ok: bool, k: nat)
    returns (states: seq<Waiter>, steps: seq<Step>)
    requires k <= size
    ensures IsRun(states, steps) && states[0] == InitWaiter(size, majority)
    ensures states[|steps|] == CountedFirst(size, majority, ok, k)
  {
    if k == 0 {
      states, steps := [InitWaiter(size, majority)], [];
      assert InitWaiter(size, majority).callbacks == CountedFirst(size, majority, ok, 0).callbacks;
    } else {
      states, steps := CountAll(size, majority, ok, k - 1);
      var w := states[|steps|];
      states, steps := Extend(states, steps, Count(k - 1, ok));
      assert AfterCount(w, k - 1, ok).callbacks == CountedFirst(size, majority, ok, k).callbacks;
    }
  }

  /** Everyone counts, with a vote that one callback cannot decide; then the last one alone goes on to the end. */
  lemma {:induction false} LastGoesAhead(size: nat, majority: nat) returns (states: seq<Waiter>, steps: seq<Step>)
    requires size >= 2 || (size == 1 && majority != 1)
    ensures FinishedFirst(states, steps, size, majority)
  {
    states, steps := CountAll(size, majority, majority != 1, size);
    states, steps := Extend(states, steps, Vote(size - 1));
    states, steps := Extend(states, steps, Signal(size - 1));
    states, steps := Extend(states, steps, End(size - 1));
  }

  /** The one callback of one proposer is the last one to count, and completes the finish future when it ends. */
  predicate OnlyOne(w: Waiter) {
    && |w.callbacks| == 1 && w.finishCounter == One(w.callbacks[0].Waiting?)
    && (var c := w.callbacks[0]; c.Counted? || c.Voted? || c.Signalled? ==> c.last)
    && w.finish == !w.callbacks[0].Done? && w.finished == One(w.callbacks[0].Done?)
  }

  lemma {:induction false} OnlyOneStays(states: seq<Waiter>, steps: seq<Step>, majority: nat)
    requires IsRun(states, steps) && states[0] == InitWaiter(1, majority)
    ensures OnlyOne(states[|steps|])
  {
    if steps != [] {
      var n := |steps| - 1;
      RunPrefix(states, steps);
      OnlyOneStays(states[..n + 1], steps[..n], majority);
      assert steps[n].i == 0;
    }
  }

  /** The finish future can be completed before the continuation exactly if there are two proposers or more, or one
      whose vote alone is not the majority. */
  lemma {:induction false} FinishMayComeFirst(size: nat, majority: nat)
    ensures (exists states, steps :: FinishedFirst(states, steps, size, majority))
            <==> size >= 2 || (size == 1 && majority != 1)
  {
    if size >= 2 || (size == 1 && majority != 1) {
      var states, steps := LastGoesAhead(size, majority);
      assert FinishedFirst(states, steps, size, majority);
    } else if states, steps :| FinishedFirst(states, steps, size, majority) {
      if size == 0 {
        RunsEnd(states, steps, size, majority);
      } else {
        OnlyOneStays(states, steps, majority);
        DecidedInTheEnd(states, steps, size, majority);
      }
    }
  }

  // ---------- the shared state itself ----------

  class QuorumWaiter {
    const majority: nat
    var finishCounter: nat
    var successCounter: nat
    var errorCounter: nat
    var continuation: bool
    var finish: bool
    var told: seq<bool>
    var finished: nat
    var callbacks: seq<Callback>

    ghost function Value(): Waiter
      reads this
    {
      Waiter(majority, finishCounter, successCounter, errorCounter, continuation, finish, told, finished, callbacks)
    }

    constructor (size: nat, majority: nat)
      ensures Value() == InitWaiter(size, majority) && Good(Value())
    {
      this.majority, finishCounter, successCounter, errorCounter := majority, size, 0, 0;
      continuation, finish, told, finished := true, true, [], 0;
      callbacks := seq(size, _ => Waiting);
      new;
      InitIsGood(size, majority);
    }

    /** `fetch_sub` on the finish counter. */
    method Begin(i: nat, success: bool)
      requires Good(Value()) && Enabled(Value(), Count(i, success))
      modifies this
      ensures old(finishCounter) > 0 && Value() == AfterCount(old(Value()), i, success) && Good(Value())
    {
      CountIsGood(Value(), i, success);
      finishCounter := finishCounter - 1;
      callbacks := callbacks[i := Counted(success, finishCounter == 0)];
    }

    /** `fetch_add` on the counter of the vote, and the comparison with the majority. */
    method CountVote(i: nat)
      requires Good(Value()) && Enabled(Value(), Vote(i))
      modifies this
      ensures Value() == AfterVote(old(Value()), i) && Good(Value())
    {
      VoteIsGood(Value(), i);
      var c := callbacks[i];
      if c.ok {
        successCounter := successCounter + 1;
        callbacks := callbacks[i := Voted(true, c.last, successCounter == majority)];
      } else {
        var errorCount := errorCounter;
        errorCounter := errorCounter + 1;
        callbacks := callbacks[i := Voted(false, c.last, |callbacks| - errorCount == majority)];
      }
    }

    /** Swaps the pointer out and completes what it pointed to. */
    method CompleteContinuation(i: nat)
      requires Good(Value()) && Enabled(Value(), Signal(i))
      modifies this
      ensures Value() == AfterSignal(old(Value()), i) && Good(Value())
      ensures old(callbacks)[i].fires ==> told == old(told) + [old(callbacks)[i].ok]
    {
      SignalIsGood(Value(), i);
      var c := callbacks[i];
      if c.fires {
        var f := continuation;
        continuation := false;
        if f {
          told := told + [c.ok];
        }
      }
      callbacks := callbacks[i := Signalled(c.ok, c.last)];
    }

    method CompleteFinish(i: nat)
      requires Good(Value()) && Enabled(Value(), End(i))
      modifies this
      ensures Value() == AfterEnd(old(Value()), i) && Good(Value())
    {
      EndIsGood(Value(), i);
      var c := callbacks[i];
      if c.last {
        var f := finish;
        finish := false;
        if f {
          finished := finished + 1;
        }
      }
      callbacks := callbacks[i := Done(c.ok)];
    }
  }
}
