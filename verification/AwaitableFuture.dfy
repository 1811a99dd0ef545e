/** The handshake between a fiber that awaits a future and the one that completes it: every interleaving. */
module AwaitableFutures {
  datatype FutureState = Pending | Completed | Error

  /** The awaiting fiber: it looks at the state without the lock, then puts itself aside and switches away. */
  datatype Fiber = Running | SawPending | Aside | Switched | Returned(parked: bool)

  /** `NotifyIfCompleted`, run by the processer fiber once the awaiting fiber has been switched out. */
  datatype SwitchCallback = Unset | Armed | Holding | Ended

  /** `Complete` or `Fail`: the state under the lock, the callback, then `NotifyAwaiter`. */
  datatype Completer = Idle | HasSet | HasCalled | Taking | Finished

  /** `scheduled` counts how often the awaiting fiber has been handed to its scheduler. */
  datatype Handshake = Handshake(
    state: FutureState, pendingFiber: bool, awaiter: bool,
    fiber: Fiber, callback: SwitchCallback, completer: Completer, scheduled: nat)

  const START := Handshake(Pending, false, false, Running, Unset, Idle, 0)

  datatype Step =
    | Check | PutAside | SwitchOut | NotifyIfCompleted | ScheduleSelf | Resume
    | SetState(failed: bool) | CallBack | TakeAwaiter | ScheduleAwaiter

  predicate Enabled(h: Handshake, step: Step) {
    match step
    case Check => h.fiber == Running
    case PutAside => h.fiber == SawPending
    case SwitchOut => h.fiber == Aside
    case NotifyIfCompleted => h.callback == Armed
    case ScheduleSelf => h.callback == Holding
    case Resume => h.fiber == Switched && h.scheduled > 0
    case SetState(_) => h.completer == Idle
    case CallBack => h.completer == HasSet
    case TakeAwaiter => h.completer == HasCalled
    case ScheduleAwaiter => h.completer == Taking
  }

  function Apply(h: Handshake, step: Step): Handshake {
    match step
    case Check => h.(fiber := if h.state == Pending then SawPending else Returned(false))
    case PutAside => h.(pendingFiber := true, fiber := Aside)
    case SwitchOut => h.(fiber := Switched, callback := Armed)
    case NotifyIfCompleted =>
      if h.state == Pending then h.(awaiter := h.pendingFiber, pendingFiber := false, callback := Ended)
      else h.(pendingFiber := false, callback := if h.pendingFiber then Holding else Ended)
    case ScheduleSelf => h.(callback := Ended, scheduled := h.scheduled + 1)
    case Resume => h.(fiber := Returned(true))
    case SetState(failed) => h.(state := if failed then Error else Completed, completer := HasSet)
    case CallBack => h.(completer := HasCalled)
    case TakeAwaiter => h.(awaiter := false, completer := if h.awaiter then Taking else Finished)
    case ScheduleAwaiter => h.(completer := Finished, scheduled := h.scheduled + 1)
  }

  function One(b: bool): nat {
    if b then 1 else 0
  }

  predicate HasParked(h: Handshake) {
    h.fiber == Aside || h.fiber == Switched || h.fiber == Returned(true)
  }

  /** The fiber that put itself aside is in exactly one place: one of the two pointers, one of the two local variables,
      or its scheduler, once. */
  predicate OnePlace(h: Handshake) {
    One(h.pendingFiber) + One(h.awaiter) + One(h.callback == Holding) + One(h.completer == Taking) + h.scheduled
    == One(HasParked(h))
  }

  predicate Good(h: Handshake) {
    && OnePlace(h)
    && (h.state == Pending <==> h.completer == Idle)
    && (h.pendingFiber <==> h.fiber == Aside || h.callback == Armed)
    && (h.callback == Unset <==> !(h.fiber == Switched || h.fiber == Returned(true)))
    && (h.awaiter ==> h.callback == Ended && (h.completer == Idle || h.completer == HasSet || h.completer == HasCalled))
    && (h.fiber.Returned? || h.scheduled > 0 || h.callback == Holding ==> h.state != Pending)
    && (h.fiber == Returned(true) ==> h.scheduled == 1)
  }

  ghost predicate IsRun(states: seq<Handshake>, steps: seq<Step>) {
    && |states| == |steps| + 1 && states[0] == START
    && forall i :: 0 <= i < |steps| ==> Enabled(states[i], steps[i]) && states[i + 1] == Apply(states[i], steps[i])
  }

  lemma {:induction false} StepIsGood(h: Handshake, step: Step)
    requires Good(h) && Enabled(h, step)
    ensures Good(Apply(h, step)) && Rank(Apply(h, step)) < Rank(h)
  {
  }

  lemma {:induction false} RunPrefix(states: seq<Handshake>, steps: seq<Step>)
    requires IsRun(states, steps) && steps != []
    ensures IsRun(states[..|steps|], steps[..|steps| - 1])
  {
  }

  lemma {:induction false} RunIsGood(states: seq<Handshake>, steps: seq<Step>)
    requires IsRun(states, steps)
    ensures Good(states[|steps|])
  {
    if steps != [] {
      var n := |steps| - 1;
      RunPrefix(states, steps);
      RunIsGood(states[..n + 1], steps[..n]);
      StepIsGood(states[n], steps[n]);
    }
  }

  /** In every interleaving: a fiber that awaits returns only after completion; it is scheduled at most once, only after
      completion and only when it has been switched out; and not at all if it never parked. */
  lemma {:induction false} ScheduledSafely(states: seq<Handshake>, steps: seq<Step>)
    requires IsRun(states, steps)
    ensures var h := states[|steps|];
            && h.scheduled <= 1
            && (h.scheduled == 1 ==> h.state != Pending && (h.fiber == Switched || h.fiber == Returned(true)))
            && (h.fiber.Returned? ==> h.state != Pending && h.scheduled == One(h.fiber.parked))
  {
    RunIsGood(states, steps);
  }

  /** Once the outcome is set, it is not pending again. */
  lemma {:induction false} OutcomeStays(states: seq<Handshake>, steps: seq<Step>)
    requires IsRun(states, steps)
    ensures forall i :: 0 <= i < |steps| && steps[i].SetState? ==> states[|steps|].state != Pending
    ensures forall i, j :: 0 <= i < j < |steps| && steps[i].SetState? ==> !steps[j].SetState?
  {
    if steps != [] {
      RunPrefix(states, steps);
      OutcomeStays(states[..|steps|], steps[..|steps| - 1]);
      RunIsGood(states[..|steps|], steps[..|steps| - 1]);
    }
  }

  lemma {:induction false} StepTellsOutcome(h: Handshake, step: Step)
    requires Good(h) && Enabled(h, step)
    ensures Apply(h, step).state == Completed <==> h.state == Completed || step == SetState(false)
    ensures Apply(h, step).state == Error <==> h.state == Error || step == SetState(true)
  {
  }

  /** Who awaits is told what happened: the future is completed exactly if its completer did not fail, and failed
      exactly if it did, and it has one completer at most. */
  lemma {:induction false} StateTellsOutcome(states: seq<Handshake>, steps: seq<Step>)
    requires IsRun(states, steps)
    ensures states[|steps|].state == Completed <==> SetState(false) in steps
    ensures states[|steps|].state == Error <==> SetState(true) in steps
    ensures forall i, j :: 0 <= i < j < |steps| && steps[i].SetState? ==> !steps[j].SetState?
  {
    OutcomeStays(states, steps);
    if steps != [] {
      var n := |steps| - 1;
      RunPrefix(states, steps);
      StateTellsOutcome(states[..n + 1], steps[..n]);
      RunIsGood(states[..n + 1], steps[..n]);
      StepTellsOutcome(states[n], steps[n]);
      assert steps == steps[..n] + [steps[n]];
    }
  }

  /** It is never lost: when neither side has a step left, the awaiting fiber has returned. */
  lemma {:induction false} NeverLost(states: seq<Handshake>, steps: seq<Step>)
    requires IsRun(states, steps)
    requires forall step :: !Enabled(states[|steps|], step)
    ensures states[|steps|].fiber.Returned?
  {
    RunIsGood(states, steps);
    var h := states[|steps|];
    assert !Enabled(h, Check) && !Enabled(h, PutAside) && !Enabled(h, SwitchOut) && !Enabled(h, Resume);
    assert !Enabled(h, NotifyIfCompleted) && !Enabled(h, ScheduleSelf);
    assert !Enabled(h, SetState(false)) && !Enabled(h, CallBack) && !Enabled(h, TakeAwaiter)
        && !Enabled(h, ScheduleAwaiter);
  }

  function Rank(h: Handshake): nat {
    (match h.fiber case Running => 8 case SawPending => 7 case Aside => 6 case Switched => 1 case Returned(_) => 0)
    + (match h.callback case Unset => 0 case Armed => 2 case Holding => 1 case Ended => 0)
    + (match h.completer case Idle => 4 case HasSet => 3 case HasCalled => 2 case Taking => 1 case Finished => 0)
  }

  /** Every step brings the end nearer, so after at most twelve steps nobody has a step left. */
  lemma {:induction false} RunsEnd(states: seq<Handshake>, steps: seq<Step>)
    requires IsRun(states, steps)
    ensures |steps| + Rank(states[|steps|]) <= 12
  {
    if steps != [] {
      var n := |steps| - 1;
      RunPrefix(states, steps);
      RunsEnd(states[..n + 1], steps[..n]);
      RunIsGood(states[..n + 1], steps[..n]);
      StepIsGood(states[n], steps[n]);
    }
  }

  // ---------- the future itself ----------

  class AwaitableFuture {
    var state: FutureState
    var pendingFiber: bool
    var awaiter: bool
    var fiber: Fiber
    var callback: SwitchCallback
    var completer: Completer
    var scheduled: nat

    ghost function Value(): Handshake
      reads this
    {
      Handshake(state, pendingFiber, awaiter, fiber, callback, completer, scheduled)
    }

    constructor ()
      ensures Value() == START && Good(Value())
    {
      state, pendingFiber, awaiter := Pending, false, false;
      fiber, callback, completer, scheduled := Running, Unset, Idle, 0;
    }

    /** The unlocked look at the state in `WaitAsync`. */
    method LookAtState() returns (mustPark: bool)
      requires Good(Value()) && Enabled(Value(), Check)
      modifies this
      ensures Good(Value()) && Value() == Apply(old(Value()), Check)
      ensures mustPark <==> old(state) == Pending
      ensures fiber == if mustPark then SawPending else Returned(false)
    {
      if state == Pending {
        fiber := SawPending;
        return true;
      }
      fiber := Returned(false);
      return false;
    }

    method Park()
      requires Good(Value()) && Enabled(Value(), PutAside)
      modifies this
      ensures Good(Value()) && Value() == Apply(Apply(old(Value()), PutAside), SwitchOut)
    {
      pendingFiber := true;
      fiber := Aside;
      callback := Armed;
      fiber := Switched;
    }

    /** Under the lock; the fiber is left to the completer, or taken along to be scheduled after the lock is
        released. */
    method NotifyIfCompleted() returns (taken: bool)
      requires Good(Value()) && Enabled(Value(), Step.NotifyIfCompleted)
      modifies this
      ensures Good(Value()) && Value() == Apply(old(Value()), Step.NotifyIfCompleted)
      ensures taken <==> old(state) != Pending
      ensures !pendingFiber && (taken <==> callback == Holding) && (!taken <==> awaiter)
    {
      if state == Pending {
        awaiter := pendingFiber;
        pendingFiber := false;
        callback := Ended;
        return false;
      }
      pendingFiber := false;
      callback := Holding;
      return true;
    }

    method Schedule(bySelf: bool)
      requires Good(Value()) && Enabled(Value(), if bySelf then ScheduleSelf else ScheduleAwaiter)
      modifies this
      ensures Good(Value()) && Value() == Apply(old(Value()), if bySelf then ScheduleSelf else ScheduleAwaiter)
      ensures scheduled == 1 && fiber == Switched
    {
      if bySelf {
        callback := Ended;
      } else {
        completer := Finished;
      }
      scheduled := scheduled + 1;
    }

    method Complete(failed: bool)
      requires Good(Value()) && Enabled(Value(), SetState(failed))
      modifies this
      ensures Good(Value()) && Value() == Apply(Apply(old(Value()), SetState(failed)), CallBack)
      ensures old(state) == Pending && state == if failed then Error else Completed
    {
      state := if failed then Error else Completed;
      completer := HasCalled;
    }

    /** Takes the awaiting fiber, if there is one by now. */
    method NotifyAwaiter() returns (taken: bool)
      requires Good(Value()) && Enabled(Value(), TakeAwaiter)
      modifies this
      ensures Good(Value()) && Value() == Apply(old(Value()), TakeAwaiter)
      ensures (taken <==> old(awaiter)) && !awaiter
    {
      taken := awaiter;
      awaiter := false;
      completer := if taken then Taking else Finished;
    }
  }
}
