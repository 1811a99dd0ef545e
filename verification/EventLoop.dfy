/** The task queue of an event loop: any number of producers, one loop, a notification that is sent only if needed. */
module EventLoops {
  type Task = nat

  type Producer = nat

  datatype Phase = Selecting | Handling | Executing

  /** `notifying` holds the producers that have queued a task and are about to notify the selector.
      `queued` and `executed` record what has ever been queued and run, in order. */
  datatype Loop = Loop(
    pending: seq<Task>, tasks: seq<Task>, next: nat, exectingTask: bool,
    notified: bool, notifying: set<Producer>, phase: Phase, queued: seq<Task>, executed: seq<Task>)

  const IDLE := Loop([], [], 0, false, false, {}, Selecting, [], [])

  /** `Select` returns on a notification, or for an event of some channel. */
  datatype Step = Queue(p: Producer, task: Task) | Notify(p: Producer) | Select(io: bool) | Take | Run | Finish

  predicate Enabled(s: Loop, step: Step) {
    match step
    case Queue(p, _) => p !in s.notifying
    case Notify(p) => p in s.notifying
    case Select(io) => s.phase == Selecting && (io || s.notified)
    case Take => s.phase == Handling
    case Run => s.phase == Executing && s.next < |s.tasks|
    case Finish => s.phase == Executing && s.next >= |s.tasks|
  }

  function AfterQueue(s: Loop, p: Producer, task: Task): Loop {
    s.(pending := s.pending + [task], exectingTask := true, queued := s.queued + [task],
       notifying := if s.exectingTask then s.notifying else s.notifying + {p})
  }

  function AfterTake(s: Loop): Loop {
    s.(exectingTask := false, phase := Executing, next := 0,
       tasks := if s.pending != [] then s.pending else s.tasks,
       pending := if s.pending != [] then s.tasks else s.pending)
  }

  function Apply(s: Loop, step: Step): Loop
    requires Enabled(s, step)
  {
    match step
    case Queue(p, task) => AfterQueue(s, p, task)
    case Notify(p) => s.(notifying := s.notifying - {p}, notified := true)
    case Select(_) => s.(notified := false, phase := Handling)
    case Take => AfterTake(s)
    case Run => s.(executed := s.executed + [s.tasks[s.next]], next := s.next + 1)
    case Finish => s.(tasks := [], next := 0, phase := Selecting)
  }

  /** Nothing is lost, doubled or reordered. */
  predicate InOrder(s: Loop) {
    && s.next <= |s.tasks| && (s.phase != Executing ==> s.tasks == [])
    && s.queued == s.executed + s.tasks[s.next..] + s.pending
  }

  /** A queued task is never forgotten: while tasks are pending, a notification is out or on its way, or the loop is
      already on its way to them. */
  predicate Awake(s: Loop) {
    && (s.pending != [] ==> s.exectingTask)
    && (s.exectingTask ==> s.notified || s.notifying != {} || s.phase == Handling)
  }

  predicate Good(s: Loop) {
    InOrder(s) && Awake(s)
  }

  lemma {:induction false} QueueIsGood(s: Loop, p: Producer, task: Task)
    requires Good(s)
    ensures Good(AfterQueue(s, p, task))
  {
  }

  lemma {:induction false} StepIsGood(s: Loop, step: Step)
    requires Good(s) && Enabled(s, step)
    ensures Good(Apply(s, step))
  {
  }

  ghost predicate IsRun(states: seq<Loop>, steps: seq<Step>) {
    && |states| == |steps| + 1
    && forall i :: 0 <= i < |steps| ==> Enabled(states[i], steps[i]) && states[i + 1] == Apply(states[i], steps[i])
  }

  lemma {:induction false} RunPrefix(states: seq<Loop>, steps: seq<Step>)
    requires IsRun(states, steps) && steps != []
    ensures IsRun(states[..|steps|], steps[..|steps| - 1])
  {
  }

  lemma {:induction false} RunIsGood(states: seq<Loop>, steps: seq<Step>)
    requires IsRun(states, steps) && Good(states[0])
    ensures Good(states[|steps|])
  {
    if steps != [] {
      var n := |steps| - 1;
      RunPrefix(states, steps);
      RunIsGood(states[..n + 1], steps[..n]);
      StepIsGood(states[n], steps[n]);
    }
  }

  function QueuedBy(steps: seq<Step>): seq<Task> {
    if steps == [] then []
    else QueuedBy(steps[..|steps| - 1]) + if steps[|steps| - 1].Queue? then [steps[|steps| - 1].task] else []
  }

  lemma {:induction false} QueuedIsRecorded(states: seq<Loop>, steps: seq<Step>)
    requires IsRun(states, steps) && states[0] == IDLE
    ensures states[|steps|].queued == QueuedBy(steps)
  {
    if steps != [] {
      var n := |steps| - 1;
      RunPrefix(states, steps);
      QueuedIsRecorded(states[..n + 1], steps[..n]);
    }
  }

  /** In every interleaving the executed tasks are the first ones of those queued, each once, in queue order; and when
      the loop sleeps with no notification out or on its way, all of them. */
  lemma {:induction false} ExecutedInOrder(states: seq<Loop>, steps: seq<Step>)
    requires IsRun(states, steps) && states[0] == IDLE
    ensures var s := states[|steps|];
            && s.executed <= QueuedBy(steps)
            && (s.pending != [] ==> s.notified || s.notifying != {} || s.phase == Handling)
            && (s.phase == Selecting && !s.notified && s.notifying == {} ==> s.executed == QueuedBy(steps))
  {
    RunIsGood(states, steps);
    QueuedIsRecorded(states, steps);
    var s := states[|steps|];
    assert s.executed + s.tasks[s.next..] + s.pending == s.executed + (s.tasks[s.next..] + s.pending);
  }

  // ---------- progress ----------

  function Weight(phase: Phase): nat {
    match phase case Selecting => 0 case Handling => 3 case Executing => 1
  }

  function Work(s: Loop): nat
    requires s.next <= |s.tasks|
  {
    5 * |s.notifying| + (if s.notified then 4 else 0) + Weight(s.phase) + |s.pending| + (|s.tasks| - s.next)
  }

  /** Steps that neither queue a task nor answer to an event of a channel. */
  predicate Internal(step: Step) {
    step.Notify? || step == Select(false) || step.Take? || step.Run? || step.Finish?
  }

  lemma {:induction false} WorkShrinks(s: Loop, step: Step)
    requires Good(s) && Enabled(s, step) && Internal(step)
    ensures Apply(s, step).next <= |Apply(s, step).tasks| && Work(Apply(s, step)) < Work(s)
  {
  }

  lemma {:induction false} SomeStep(s: Loop) returns (step: Step)
    requires Good(s) && !(s.phase == Selecting && !s.notified && s.notifying == {})
    ensures Enabled(s, step) && Internal(step)
  {
    if s.phase == Handling {
      step := Take;
    } else if s.phase == Executing {
      step := if s.next < |s.tasks| then Run else Finish;
    } else if s.notified {
      step := Select(false);
    } else {
      var p :| p in s.notifying;
      step := Notify(p);
    }
  }

  /** From every good state, a bounded number of internal steps runs everything that has been queued, and until then
      there always is such a step: no schedule of them can stop short. */
  lemma {:induction false} EverythingRuns(states: seq<Loop>, steps: seq<Step>)
    requires IsRun(states, steps) && Good(states[0]) && forall i :: 0 <= i < |steps| ==> Internal(steps[i])
    ensures |steps| <= Work(states[0])
    ensures (forall step :: Internal(step) ==> !Enabled(states[|steps|], step))
            ==> states[|steps|].executed == states[0].queued
  {
    WorkBounds(states, steps);
    RunIsGood(states, steps);
    QueuedStays(states, steps);
    var s := states[|steps|];
    if forall step :: Internal(step) ==> !Enabled(s, step) {
      if !(s.phase == Selecting && !s.notified && s.notifying == {}) {
        var step := SomeStep(s);
      }
    }
  }

  lemma {:induction false} WorkBounds(states: seq<Loop>, steps: seq<Step>)
    requires IsRun(states, steps) && Good(states[0]) && forall i :: 0 <= i < |steps| ==> Internal(steps[i])
    ensures Good(states[|steps|]) && |steps| + Work(states[|steps|]) <= Work(states[0])
  {
    if steps != [] {
      var n := |steps| - 1;
      RunPrefix(states, steps);
      WorkBounds(states[..n + 1], steps[..n]);
      WorkShrinks(states[n], steps[n]);
      StepIsGood(states[n], steps[n]);
    }
  }

  lemma {:induction false} QueuedStays(states: seq<Loop>, steps: seq<Step>)
    requires IsRun(states, steps) && forall i :: 0 <= i < |steps| ==> Internal(steps[i])
    ensures states[|steps|].queued == states[0].queued
  {
    if steps != [] {
      RunPrefix(states, steps);
      QueuedStays(states[..|steps|], steps[..|steps| - 1]);
    }
  }

  // ---------- the loop itself ----------

  class EventLoop {
    var pending: seq<Task>
    var tasks: seq<Task>
    var next: nat
    var exectingTask: bool
    var notified: bool
    var phase: Phase
    var executed: seq<Task>
    ghost var notifying: set<Producer>
    ghost var queued: seq<Task>

    ghost function Value(): Loop
      reads this
    {
      Loop(pending, tasks, next, exectingTask, notified, notifying, phase, queued, executed)
    }

    constructor ()
      ensures Value() == IDLE && Good(Value())
    {
      pending, tasks, next, exectingTask, notified := [], [], 0, false, false;
      phase, executed, notifying, queued := Selecting, [], {}, [];
    }

    /** The locked part of `RunInLoopSoon`; tells whether the caller has to notify. */
    method RunInLoopSoon(ghost p: Producer, task: Task) returns (notify: bool)
      requires Good(Value()) && p !in notifying
      modifies this
      ensures Good(Value()) && Value() == AfterQueue(old(Value()), p, task)
      ensures notify <==> !old(exectingTask)
      ensures pending == old(pending) + [task] && exectingTask
      ensures notifying == old(notifying) + if notify then {p} else {}
    {
      QueueIsGood(Value(), p, task);
      var execting := true;
      pending := pending + [task];
      queued := queued + [task];
      execting, exectingTask := exectingTask, execting;
      if !execting {
        notifying := notifying + {p};
      }
      return !execting;
    }

    method NotifySelector(ghost p: Producer)
      requires Good(Value()) && p in notifying
      modifies this
      ensures Good(Value()) && Value() == Apply(old(Value()), Notify(p))
      ensures notified && notifying == old(notifying) - {p} && pending == old(pending)
    {
      notified := true;
      notifying := notifying - {p};
    }

    /** The loop body after `Select` has returned: takes over what is pending and runs it in order. No other step comes
        in between here; that they may is covered by the step system. */
    method ExecuteTask()
      requires Good(Value()) && phase == Handling
      modifies this
      ensures Good(Value()) && phase == Selecting && !exectingTask && pending == []
      ensures executed == old(executed) + old(pending) == queued == old(queued)
    {
      exectingTask := false;
      phase := Executing;
      next := 0;
      if pending != [] {
        tasks, pending := pending, tasks;
      }
      assert tasks == old(pending) && pending == [] && tasks[..0] == [];
      while next < |tasks|
        invariant next <= |tasks| && tasks == old(pending) && pending == [] && queued == old(queued) && !exectingTask
        invariant executed == old(executed) + tasks[..next]
      {
        assert tasks[..next + 1] == tasks[..next] + [tasks[next]];
        executed := executed + [tasks[next]];
        next := next + 1;
      }
      assert tasks[..|tasks|] == tasks;
      tasks := [];
      next := 0;
      phase := Selecting;
    }
  }
}
