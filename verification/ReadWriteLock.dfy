/** The fiber read/write lock: every way its operations can interleave. */
module ReadWriteLocks {
  datatype LockState = Free | SharedReading | UniquedWriting

  /** One acquisition of the lock; a fiber that acquires twice makes two requests. */
  type Request = nat

  /** The fields of the lock, who holds it, and what the granted requests that have not resumed yet will be told. */
  datatype RwLock = RwLock(
    state: LockState, readers: nat, readWaiters: seq<Request>, writeWaiters: seq<Request>,
    readHolders: set<Request>, writeHolders: set<Request>, told: map<Request, LockState>)

  const UNLOCKED := RwLock(Free, 0, [], [], {}, {}, map[])

  datatype Step =
    | LockRead(r: Request) | TryLockRead(r: Request)
    | LockWrite(r: Request) | TryLockWrite(r: Request, spinLocked: bool)
    | Unlock(r: Request) | Upgrade(r: Request) | Downgrade(r: Request)
    | Resume(r: Request)

  function Elements(s: seq<Request>): set<Request> {
    set r | r in s
  }

  predicate Holds(s: RwLock, r: Request) {
    r in s.readHolders || r in s.writeHolders
  }

  predicate Waits(s: RwLock, r: Request) {
    r in s.readWaiters || r in s.writeWaiters
  }

  predicate Placed(s: RwLock, r: Request) {
    Holds(s, r) || Waits(s, r)
  }

  /** Holds the lock and has been told so. */
  predicate Running(s: RwLock, r: Request) {
    Holds(s, r) && r !in s.told
  }

  // ---------- the operations, each under the spin lock ----------

  function AfterLockRead(s: RwLock, r: Request): RwLock {
    if s.state != UniquedWriting then
      s.(readers := s.readers + 1, state := SharedReading, readHolders := s.readHolders + {r})
    else
      s.(readWaiters := s.readWaiters + [r])
  }

  function AfterTryLockRead(s: RwLock, r: Request): RwLock {
    if s.state != UniquedWriting then AfterLockRead(s, r) else s
  }

  function AfterLockWrite(s: RwLock, r: Request): RwLock {
    if s.state == Free then s.(state := UniquedWriting, writeHolders := s.writeHolders + {r})
    else s.(writeWaiters := s.writeWaiters + [r])
  }

  function AfterTryLockWrite(s: RwLock, r: Request, spinLocked: bool): RwLock {
    if !spinLocked && s.state == Free then AfterLockWrite(s, r) else s
  }

  /** The write waiter that came last is granted first. */
  function GrantWriter(s: RwLock, prev: LockState): RwLock
    requires s.writeWaiters != []
  {
    var w := s.writeWaiters[|s.writeWaiters| - 1];
    s.(state := UniquedWriting, writeWaiters := s.writeWaiters[..|s.writeWaiters| - 1],
       writeHolders := s.writeHolders + {w}, told := s.told[w := prev])
  }

  function Told(told: map<Request, LockState>, waiters: seq<Request>, prev: LockState): map<Request, LockState> {
    map r | r in told.Keys + Elements(waiters) :: if r in waiters then prev else told[r]
  }

  /** All read waiters are granted at once, beside `staying` readers. */
  function GrantReaders(s: RwLock, staying: nat): RwLock {
    s.(state := SharedReading, readers := staying + |s.readWaiters|, readWaiters := [],
       readHolders := s.readHolders + Elements(s.readWaiters), told := Told(s.told, s.readWaiters, UniquedWriting))
  }

  function AfterWriteUnlock(s: RwLock, r: Request): RwLock {
    var u := s.(writeHolders := s.writeHolders - {r});
    if s.writeWaiters != [] then GrantWriter(u, UniquedWriting)
    else if s.readWaiters != [] then GrantReaders(u, 0)
    else u.(state := Free)
  }

  /** The count is a 32-bit unsigned number: one less than 0 is the largest. */
  function OneLess(readers: nat): nat {
    if readers == 0 then 0xFFFF_FFFF else readers - 1
  }

  function WithoutReader(s: RwLock, r: Request): RwLock {
    s.(readers := OneLess(s.readers), readHolders := s.readHolders - {r})
  }

  function AfterReadUnlock(s: RwLock, r: Request): RwLock {
    var u := WithoutReader(s, r);
    if u.readers != 0 then u
    else if s.writeWaiters != [] then GrantWriter(u, SharedReading)
    else u.(state := Free)
  }

  function AfterUpgrade(s: RwLock, r: Request): RwLock {
    var u := WithoutReader(s, r);
    if u.readers == 0 then u.(state := UniquedWriting, writeHolders := s.writeHolders + {r})
    else u.(writeWaiters := s.writeWaiters + [r])
  }

  function AfterDowngrade(s: RwLock, r: Request): RwLock {
    GrantReaders(s.(writeHolders := s.writeHolders - {r}, readHolders := s.readHolders + {r}), 1)
  }

  /** `Unlock` reads the state before it takes the spin lock and releases what that state says is held. */
  function AfterUnlock(s: RwLock, r: Request, seen: LockState): RwLock {
    match seen
    case UniquedWriting => AfterWriteUnlock(s, r)
    case SharedReading => AfterReadUnlock(s, r)
    case Free => s
  }

  /** What the callers owe: new requests are new, only running holders release or convert what they hold. */
  predicate Enabled(s: RwLock, step: Step) {
    match step
    case LockRead(r) => !Placed(s, r)
    case TryLockRead(r) => !Placed(s, r)
    case LockWrite(r) => !Placed(s, r)
    case TryLockWrite(r, _) => !Placed(s, r)
    case Unlock(r) => Running(s, r)
    case Upgrade(r) => Running(s, r) && r in s.readHolders
    case Downgrade(r) => Running(s, r) && r in s.writeHolders
    case Resume(r) => r in s.told
  }

  function Apply(s: RwLock, step: Step): RwLock
    requires Enabled(s, step)
  {
    match step
    case LockRead(r) => AfterLockRead(s, r)
    case TryLockRead(r) => AfterTryLockRead(s, r)
    case LockWrite(r) => AfterLockWrite(s, r)
    case TryLockWrite(r, spinLocked) => AfterTryLockWrite(s, r, spinLocked)
    case Unlock(r) => AfterUnlock(s, r, s.state)
    case Upgrade(r) => AfterUpgrade(s, r)
    case Downgrade(r) => AfterDowngrade(s, r)
    case Resume(r) => s.(told := s.told - {r})
  }

  // ---------- what every state keeps ----------

  predicate Distinct(s: seq<Request>) {
    forall i, j :: 0 <= i < j < |s| ==> s[i] != s[j]
  }

  predicate Single(s: set<Request>) {
    forall q, r :: q in s && r in s ==> q == r
  }

  /** Mutual exclusion: the state says exactly who holds the lock. */
  predicate Exclusive(s: RwLock) {
    && (s.readHolders != {} <==> s.state == SharedReading)
    && (s.writeHolders != {} <==> s.state == UniquedWriting)
    && Single(s.writeHolders)
  }

  /** Each request sits in at most one of the holder sets and queues, once. */
  predicate OnePlace(s: RwLock) {
    && Distinct(s.readWaiters) && Distinct(s.writeWaiters)
    && (forall r :: r in s.readWaiters ==> r !in s.writeWaiters && !Holds(s, r))
    && (forall r :: r in s.writeWaiters ==> !Holds(s, r))
    && (forall r :: r in s.readHolders ==> r !in s.writeHolders)
  }

  predicate WaitersHaveHolders(s: RwLock) {
    && (s.readWaiters != [] ==> s.state == UniquedWriting)
    && (s.writeWaiters != [] ==> s.state != Free)
  }

  predicate Good(s: RwLock) {
    && Exclusive(s) && OnePlace(s) && WaitersHaveHolders(s)
    && s.readers == |s.readHolders|
    && (forall r :: r in s.told ==> Holds(s, r))
  }

  /** Nobody but `r` has entered or left. */
  ghost predicate SamePlaces(s: RwLock, t: RwLock) {
    forall q :: Placed(t, q) <==> Placed(s, q)
  }

  ghost predicate Entered(s: RwLock, r: Request, t: RwLock) {
    forall q :: Placed(t, q) <==> Placed(s, q) || q == r
  }

  ghost predicate HasLeft(s: RwLock, r: Request, t: RwLock) {
    forall q :: Placed(t, q) <==> Placed(s, q) && q != r
  }

  lemma {:induction false} HoldersCounted(s: RwLock)
    requires Good(s)
    ensures s.readHolders != {} <==> s.readers > 0
  {
  }

  lemma {:induction false} ElementsCount(s: seq<Request>)
    requires Distinct(s)
    ensures |Elements(s)| == |s|
  {
    if s != [] {
      var init := s[..|s| - 1];
      ElementsCount(init);
      assert Elements(s) == Elements(init) + {s[|s| - 1]};
      assert s[|s| - 1] !in Elements(init);
    }
  }

  lemma {:induction false} OneMore(s: set<Request>, r: Request)
    requires r !in s
    ensures |s + {r}| == |s| + 1 && r in s + {r}
  {
  }

  lemma {:induction false} AllJoin(s: set<Request>, waiters: seq<Request>)
    requires Distinct(waiters) && forall r :: r in waiters ==> r !in s
    ensures |s + Elements(waiters)| == |s| + |waiters|
    ensures forall r :: r in s + Elements(waiters) <==> r in s || r in waiters
  {
    ElementsCount(waiters);
    assert s !! Elements(waiters);
  }

  lemma {:induction false} ReaderEnters(s: RwLock, r: Request)
    requires Good(s) && !Placed(s, r) && s.state != UniquedWriting
    ensures Good(AfterLockRead(s, r)) && Entered(s, r, AfterLockRead(s, r))
  {
    OneMore(s.readHolders, r);
    var t := AfterLockRead(s, r);
    assert forall q :: Holds(t, q) <==> Holds(s, q) || q == r;
  }

  lemma {:induction false} LockReadIsGood(s: RwLock, r: Request)
    requires Good(s) && !Placed(s, r)
    ensures Good(AfterLockRead(s, r)) && Entered(s, r, AfterLockRead(s, r))
  {
    if s.state != UniquedWriting {
      ReaderEnters(s, r);
    } else {
      var t := AfterLockRead(s, r);
      assert forall q :: q in t.readWaiters <==> q in s.readWaiters || q == r;
    }
  }

  lemma {:induction false} LockWriteIsGood(s: RwLock, r: Request)
    requires Good(s) && !Placed(s, r)
    ensures Good(AfterLockWrite(s, r)) && Entered(s, r, AfterLockWrite(s, r))
  {
  }

  /** What is left to prove of a state in which nobody holds the lock any more. */
  predicate Vacant(s: RwLock) {
    OnePlace(s) && s.readHolders == {} && s.writeHolders == {} && s.readers == 0 && s.told == map[]
  }

  /** Granting the last write waiter of a lock nobody holds any more. */
  lemma {:induction false} GrantWriterIsGood(s: RwLock, prev: LockState)
    requires Vacant(s) && s.writeWaiters != []
    ensures Good(GrantWriter(s, prev)) && SamePlaces(s, GrantWriter(s, prev))
  {
  }

  /** Granting all read waiters beside the readers there are. */
  lemma {:induction false} GrantReadersIsGood(s: RwLock, staying: nat)
    requires OnePlace(s) && s.writeHolders == {} && staying == |s.readHolders|
    requires forall r :: r in s.told ==> Holds(s, r)
    requires s.readHolders != {} || s.readWaiters != []
    ensures Good(GrantReaders(s, staying)) && SamePlaces(s, GrantReaders(s, staying))
  {
    AllJoin(s.readHolders, s.readWaiters);
    var g := GrantReaders(s, staying);
    assert forall r :: Holds(g, r) <==> Holds(s, r) || r in s.readWaiters;
    if s.readWaiters != [] {
      assert s.readWaiters[0] in g.readHolders;
    } else {
      assert g.readHolders == s.readHolders;
    }
  }

  lemma {:induction false} WriteUnlockIsGood(s: RwLock, r: Request)
    requires Good(s) && r in s.writeHolders && r !in s.told
    ensures Good(AfterWriteUnlock(s, r)) && HasLeft(s, r, AfterWriteUnlock(s, r))
  {
    var u := s.(writeHolders := s.writeHolders - {r});
    assert Vacant(u) && HasLeft(s, r, u);
    if s.writeWaiters != [] {
      GrantWriterIsGood(u, UniquedWriting);
    } else if s.readWaiters != [] {
      GrantReadersIsGood(u, 0);
    }
  }

  lemma {:induction false} ReaderLeaves(s: RwLock, r: Request)
    requires Good(s) && r in s.readHolders && r !in s.told
    ensures s.readers > 0
    ensures var u := WithoutReader(s, r);
            && HasLeft(s, r, u) && u.readers == |u.readHolders| && !Placed(u, r)
            && (if u.readers != 0 then Good(u) else Vacant(u))
  {
  }

  lemma {:induction false} ReadUnlockIsGood(s: RwLock, r: Request)
    requires Good(s) && r in s.readHolders && r !in s.told
    ensures s.readers > 0 && Good(AfterReadUnlock(s, r)) && HasLeft(s, r, AfterReadUnlock(s, r))
  {
    ReaderLeaves(s, r);
    var u := WithoutReader(s, r);
    if u.readers == 0 && s.writeWaiters != [] {
      GrantWriterIsGood(u, SharedReading);
    }
  }

  lemma {:induction false} UpgradeIsGood(s: RwLock, r: Request)
    requires Good(s) && r in s.readHolders && r !in s.told
    ensures s.readers > 0 && Good(AfterUpgrade(s, r)) && SamePlaces(s, AfterUpgrade(s, r))
  {
    ReaderLeaves(s, r);
    var u := WithoutReader(s, r);
    if u.readers == 0 {
      assert r in AfterUpgrade(s, r).writeHolders;
    }
  }

  lemma {:induction false} DowngradeIsGood(s: RwLock, r: Request)
    requires Good(s) && r in s.writeHolders && r !in s.told
    ensures Good(AfterDowngrade(s, r)) && SamePlaces(s, AfterDowngrade(s, r))
  {
    var u := s.(writeHolders := s.writeHolders - {r}, readHolders := s.readHolders + {r});
    assert u.writeHolders == {} && u.readHolders == {r} && SamePlaces(s, u);
    GrantReadersIsGood(u, 1);
  }

  /** Who has a place after the step. */
  predicate Stays(s: RwLock, step: Step, q: Request) {
    match step
    case LockRead(r) => Placed(s, q) || q == r
    case LockWrite(r) => Placed(s, q) || q == r
    case TryLockRead(r) => Placed(s, q) || (s.state != UniquedWriting && q == r)
    case TryLockWrite(r, spinLocked) => Placed(s, q) || (!spinLocked && s.state == Free && q == r)
    case Unlock(r) => Placed(s, q) && q != r
    case _ => Placed(s, q)
  }

  /** Every step keeps mutual exclusion, the reader count and the queues, and loses no request: an unlock removes
      exactly the request that unlocks, a new request is added, anything else only moves requests. */
  lemma {:induction false} StepIsGood(s: RwLock, step: Step)
    requires Good(s) && Enabled(s, step)
    ensures Good(Apply(s, step)) && forall q :: Placed(Apply(s, step), q) <==> Stays(s, step, q)
  {
    match step
    case LockRead(r) => LockReadIsGood(s, r);
    case TryLockRead(r) => LockReadIsGood(s, r);
    case LockWrite(r) => LockWriteIsGood(s, r);
    case TryLockWrite(r, _) => LockWriteIsGood(s, r);
    case Unlock(r) => UnlockIsGood(s, r);
    case Upgrade(r) => UpgradeIsGood(s, r);
    case Downgrade(r) => DowngradeIsGood(s, r);
    case Resume(r) =>
  }

  lemma {:induction false} UnlockIsGood(s: RwLock, r: Request)
    requires Good(s) && Running(s, r)
    ensures s.state != Free && (s.state == SharedReading ==> s.readers > 0)
    ensures Good(AfterUnlock(s, r, s.state)) && HasLeft(s, r, AfterUnlock(s, r, s.state))
  {
    if s.state == UniquedWriting { WriteUnlockIsGood(s, r); } else { ReadUnlockIsGood(s, r); }
  }

  // ---------- runs ----------

  ghost predicate IsRun(states: seq<RwLock>, steps: seq<Step>) {
    && |states| == |steps| + 1
    && forall i :: 0 <= i < |steps| ==> Enabled(states[i], steps[i]) && states[i + 1] == Apply(states[i], steps[i])
  }

  lemma {:induction false} RunPrefix(states: seq<RwLock>, steps: seq<Step>)
    requires IsRun(states, steps) && steps != []
    ensures IsRun(states[..|steps|], steps[..|steps| - 1])
  {
  }

  /** From the unlocked lock, or from any good state, only good states are reached. */
  lemma {:induction false} RunIsGood(states: seq<RwLock>, steps: seq<Step>)
    requires IsRun(states, steps) && Good(states[0])
    ensures Good(states[|steps|])
  {
    if steps != [] {
      var n := |steps| - 1;
      RunPrefix(states, steps);
      RunIsGood(states[..n + 1], steps[..n]);
      StepIsGood(states[n], steps[n]);
    }
  }

  lemma {:induction false} StartIsGood()
    ensures Good(UNLOCKED)
  {
  }

  /** At most one writer, never a writer beside a reader, and the state and the count say which. */
  lemma {:induction false} MutualExclusion(states: seq<RwLock>, steps: seq<Step>)
    requires IsRun(states, steps) && states[0] == UNLOCKED
    ensures var s := states[|steps|];
            && Single(s.writeHolders) && (s.writeHolders != {} ==> s.readHolders == {}) && s.readers == |s.readHolders|
            && (s.state == UniquedWriting <==> s.writeHolders != {})
            && (s.state == SharedReading <==> s.readHolders != {})
            && (s.readWaiters + s.writeWaiters != [] ==> s.readHolders + s.writeHolders != {})
            && (s.readWaiters != [] ==> s.writeHolders != {})
  {
    StartIsGood();
    RunIsGood(states, steps);
    HoldersCounted(states[|steps|]);
  }

  /** Whom a step concerns besides the waiters it grants. */
  function Actor(step: Step): Request {
    step.r
  }

  /** While a request holds the lock, no step of another changes the state of the lock, so what `Unlock` reads before
      taking the spin lock is still true when it has taken it, and is the mode in which the caller holds the lock. */
  lemma {:induction false} ModeIsStable(s: RwLock, step: Step, r: Request)
    requires Good(s) && Enabled(s, step) && Holds(s, r) && Actor(step) != r
    ensures var t := Apply(s, step);
            && t.state == s.state
            && (r in t.readHolders <==> r in s.readHolders) && (r in t.writeHolders <==> r in s.writeHolders)
  {
    HoldersCounted(s);
    match step
    case Unlock(q) =>
      if s.state == SharedReading {
        TwoReaders(s, q, r);
      }
    case Upgrade(q) => TwoReaders(s, q, r);
    case _ =>
  }

  lemma {:induction false} TwoReaders(s: RwLock, q: Request, r: Request)
    requires Good(s) && q in s.readHolders && r in s.readHolders && q != r
    ensures s.readers > 1
  {
    assert r in s.readHolders - {q} && |s.readHolders - {q}| == |s.readHolders| - 1;
  }

  lemma {:induction false} ModeIsStableOverRuns(states: seq<RwLock>, steps: seq<Step>, r: Request)
    requires IsRun(states, steps) && Good(states[0]) && Holds(states[0], r)
    requires forall i :: 0 <= i < |steps| ==> Actor(steps[i]) != r
    ensures states[|steps|].state == states[0].state && Holds(states[|steps|], r)
    ensures r in states[|steps|].readHolders <==> states[|steps|].state == SharedReading
  {
    if steps == [] {
      HoldersCounted(states[0]);
    } else {
      var n := |steps| - 1;
      RunPrefix(states, steps);
      RunIsGood(states[..n + 1], steps[..n]);
      ModeIsStableOverRuns(states[..n + 1], steps[..n], r);
      ModeIsStable(states[n], steps[n], r);
    }
  }

  // ---------- what the callers are told ----------

  /** Every request that a step grants is told the state of the lock before that step. */
  lemma {:induction false} ToldPreviousState(s: RwLock, step: Step, r: Request)
    requires Good(s) && Enabled(s, step) && !Holds(s, r) && Holds(Apply(s, step), r)
    ensures var t := Apply(s, step);
            if r == Actor(step) then r !in t.told && !Placed(s, r)
            else Waits(s, r) && r in t.told && t.told[r] == s.state
  {
    HoldersCounted(s);
    match step
    case Unlock(q) => GrantedByUnlock(s, q, r);
    case Downgrade(q) =>
    case _ =>
  }

  lemma {:induction false} GrantedByUnlock(s: RwLock, q: Request, r: Request)
    requires Good(s) && Running(s, q) && !Holds(s, r)
    requires Holds(AfterUnlock(s, q, s.state), r)
    ensures var t := AfterUnlock(s, q, s.state);
            Waits(s, r) && r in t.told && t.told[r] == s.state
  {
  }

  /** A waiter stays until a step grants it, and is then told, once. */
  lemma {:induction false} WaitsUntilGranted(s: RwLock, step: Step, r: Request)
    requires Good(s) && Enabled(s, step) && Waits(s, r)
    ensures var t := Apply(s, step); Placed(t, r) && (Holds(t, r) <==> r in t.told)
  {
    StepIsGood(s, step);
    if Holds(Apply(s, step), r) {
      ToldPreviousState(s, step, r);
    }
  }

  // ---------- who is granted ----------

  ghost predicate NobodyHolds(s: RwLock) {
    s.readHolders == {} && s.writeHolders == {}
  }

  ghost predicate SameQueues(s: RwLock, t: RwLock) {
    t.readWaiters == s.readWaiters && t.writeWaiters == s.writeWaiters
  }

  ghost predicate SameHolders(s: RwLock, t: RwLock) {
    t.readHolders == s.readHolders && t.writeHolders == s.writeHolders
  }

  /** The write waiter that came last holds the lock alone, and everyone else waits on. */
  ghost predicate LastWriterHolds(s: RwLock, t: RwLock) {
    && s.writeWaiters != [] && t.writeHolders == {s.writeWaiters[|s.writeWaiters| - 1]} && t.readHolders == {}
    && t.writeWaiters == s.writeWaiters[..|s.writeWaiters| - 1] && t.readWaiters == s.readWaiters
  }

  /** A reader enters exactly if nobody writes, whoever waits to write; a writer exactly if nobody holds the lock. */
  lemma {:induction false} WhoEnters(s: RwLock, r: Request)
    requires Good(s) && !Placed(s, r)
    ensures var t := Apply(s, LockRead(r));
            if s.writeHolders == {} then
              t.readHolders == s.readHolders + {r} && t.writeHolders == {} && SameQueues(s, t)
            else SameHolders(s, t) && t.readWaiters == s.readWaiters + [r] && t.writeWaiters == s.writeWaiters
    ensures Apply(s, TryLockRead(r)) == if s.writeHolders == {} then Apply(s, LockRead(r)) else s
    ensures var t := Apply(s, LockWrite(r));
            if NobodyHolds(s) then t.writeHolders == {r} && t.readHolders == {} && SameQueues(s, t)
            else SameHolders(s, t) && t.writeWaiters == s.writeWaiters + [r] && t.readWaiters == s.readWaiters
    ensures forall spinLocked ::
              Apply(s, TryLockWrite(r, spinLocked))
              == if !spinLocked && NobodyHolds(s) then Apply(s, LockWrite(r)) else s
  {
  }

  /** Who holds the lock after an unlock: after a writer's, the last write waiter, or all read waiters if no writer
      waits; after a reader's, the readers that are left, or the last write waiter behind the last of them. */
  lemma {:induction false} WhoFollows(s: RwLock, r: Request)
    requires Good(s) && Running(s, r)
    ensures var t := Apply(s, Unlock(r));
            if r !in s.writeHolders && s.readHolders != {r} then
              t.readHolders == s.readHolders - {r} && t.writeHolders == {} && SameQueues(s, t)
            else if s.writeWaiters != [] then LastWriterHolds(s, t)
            else
              && t.writeHolders == {} && t.readHolders == Elements(s.readWaiters)
              && t.readWaiters == t.writeWaiters == []
  {
    if r in s.readHolders {
      WhoFollowsReader(s, r);
    } else {
      WhoFollowsWriter(s, r);
    }
  }

  lemma {:induction false} WhoFollowsReader(s: RwLock, r: Request)
    requires Good(s) && Running(s, r) && r in s.readHolders
    ensures r !in s.writeHolders
    ensures var t := AfterReadUnlock(s, r);
            && Apply(s, Unlock(r)) == t
            && (s.readHolders != {r} ==>
                 t.readHolders == s.readHolders - {r} && t.writeHolders == {} && SameQueues(s, t))
            && (s.readHolders == {r} && s.writeWaiters != [] ==> LastWriterHolds(s, t))
            && (s.readHolders == {r} && s.writeWaiters == [] ==>
                 NobodyHolds(t) && SameQueues(s, t) && t.readWaiters == [])
  {
    ReaderLeaves(s, r);
    if s.readHolders == {r} {
      assert s.readers == 1;
    } else {
      var q :| q in s.readHolders && q != r;
      TwoReaders(s, r, q);
    }
  }

  lemma {:induction false} WhoFollowsWriter(s: RwLock, r: Request)
    requires Good(s) && Running(s, r) && r in s.writeHolders
    ensures r !in s.readHolders
    ensures var t := AfterWriteUnlock(s, r);
            && Apply(s, Unlock(r)) == t
            && (s.writeWaiters != [] ==> LastWriterHolds(s, t))
            && (s.writeWaiters == [] ==>
                 && t.writeHolders == {} && t.readHolders == Elements(s.readWaiters)
                 && t.readWaiters == t.writeWaiters == [])
  {
    assert s.writeHolders == {r} && s.readHolders == {};
  }

  /** The only reader becomes the writer at once, any other one queues behind all writers. */
  lemma {:induction false} WhoUpgrades(s: RwLock, r: Request)
    requires Good(s) && Running(s, r) && r in s.readHolders
    ensures var t := Apply(s, Upgrade(r));
            && (s.readHolders == {r} ==> t.writeHolders == {r} && t.readHolders == {} && SameQueues(s, t))
            && (s.readHolders != {r} ==>
                 && t.readHolders == s.readHolders - {r} && t.writeHolders == {}
                 && t.writeWaiters == s.writeWaiters + [r] && t.readWaiters == s.readWaiters)
  {
    if s.readHolders == {r} {
      assert s.readers == 1;
    } else {
      var q :| q in s.readHolders && q != r;
      TwoReaders(s, r, q);
    }
  }

  /** A writer becomes a reader together with all read waiters, and no write waiter enters. */
  lemma {:induction false} WhoDowngrades(s: RwLock, r: Request)
    requires Good(s) && Running(s, r) && r in s.writeHolders
    ensures var t := Apply(s, Downgrade(r));
            && t.writeHolders == {} && t.readHolders == {r} + Elements(s.readWaiters)
            && t.readWaiters == [] && t.writeWaiters == s.writeWaiters
  {
    assert s.writeHolders == {r} && s.readHolders == {};
  }

  ghost predicate QueuedBefore(s: RwLock, q: Request, r: Request) {
    exists i, j :: 0 <= i < j < |s.writeWaiters| && s.writeWaiters[i] == q && s.writeWaiters[j] == r
  }

  lemma {:induction false} StaysBefore(s: RwLock, step: Step, q: Request, r: Request)
    requires Good(s) && Enabled(s, step) && QueuedBefore(s, q, r) && r in Apply(s, step).writeWaiters
    ensures QueuedBefore(Apply(s, step), q, r)
  {
    var i, j :| 0 <= i < j < |s.writeWaiters| && s.writeWaiters[i] == q && s.writeWaiters[j] == r;
    var t := Apply(s, step);
    match step
    case Unlock(x) =>
      WhoFollows(s, x);
      assert j < |s.writeWaiters| - 1 || !LastWriterHolds(s, t);
      assert t.writeWaiters[i] == q && t.writeWaiters[j] == r;
    case Upgrade(x) =>
      WhoUpgrades(s, x);
      assert t.writeWaiters[i] == q && t.writeWaiters[j] == r;
    case _ => assert t.writeWaiters[i] == q && t.writeWaiters[j] == r;
  }

  /** Last come, first served: as long as a later writer waits, an earlier one waits too. */
  lemma {:induction false} LaterWritersFirst(states: seq<RwLock>, steps: seq<Step>, q: Request, r: Request)
    requires IsRun(states, steps) && Good(states[0]) && QueuedBefore(states[0], q, r)
    requires forall i :: 0 <= i <= |steps| ==> r in states[i].writeWaiters
    ensures QueuedBefore(states[|steps|], q, r) && q in states[|steps|].writeWaiters
  {
    if steps != [] {
      var n := |steps| - 1;
      RunPrefix(states, steps);
      LaterWritersFirst(states[..n + 1], steps[..n], q, r);
      RunIsGood(states[..n + 1], steps[..n]);
      assert r in states[n + 1].writeWaiters && states[..n + 1][n] == states[n];
      StaysBefore(states[n], steps[n], q, r);
    }
  }

  // ---------- nobody is lost ----------

  /** Steps that make no new request. */
  predicate NoRequest(step: Step) {
    step.Unlock? || step.Upgrade? || step.Downgrade? || step.Resume?
  }

  function Unlocks(steps: seq<Step>): nat {
    if steps == [] then 0 else Unlocks(steps[..|steps| - 1]) + if steps[|steps| - 1].Unlock? then 1 else 0
  }

  /** Everyone who holds or waits. */
  function Places(s: RwLock): (places: set<Request>)
    ensures forall r :: r in places <==> Placed(s, r)
  {
    s.readHolders + s.writeHolders + Elements(s.readWaiters) + Elements(s.writeWaiters)
  }

  /** Where someone waits, someone holds. */
  lemma {:induction false} SomeHolder(s: RwLock) returns (r: Request)
    requires Good(s) && s.state != Free
    ensures Holds(s, r)
  {
    if s.state == SharedReading {
      r :| r in s.readHolders;
    } else {
      r :| r in s.writeHolders;
    }
  }

  lemma {:induction false} FreeIsEmpty(s: RwLock)
    requires Good(s)
    ensures s.state == Free <==> Places(s) == {}
    ensures s.state == Free ==> s.readers == 0
  {
  }

  /** As long as a request is left, some holder can unlock or resume. */
  lemma {:induction false} NotStuck(s: RwLock)
    requires Good(s) && Places(s) != {}
    ensures exists r :: Holds(s, r) && (Enabled(s, Unlock(r)) || Enabled(s, Resume(r)))
  {
    FreeIsEmpty(s);
    var r := SomeHolder(s);
    assert Enabled(s, Unlock(r)) || Enabled(s, Resume(r));
  }

  lemma {:induction false} CountPlaces(s: RwLock, t: RwLock, step: Step)
    requires NoRequest(step) && (step.Unlock? ==> Placed(s, step.r)) && forall q :: Placed(t, q) <==> Stays(s, step, q)
    ensures |Places(s)| == |Places(t)| + if step.Unlock? then 1 else 0
  {
    if step.Unlock? {
      assert Places(t) == Places(s) - {step.r};
    } else {
      assert Places(t) == Places(s);
    }
  }

  lemma {:induction false} DrainStep(s: RwLock, step: Step)
    requires Good(s) && Enabled(s, step) && NoRequest(step)
    ensures |Places(s)| == |Places(Apply(s, step))| + if step.Unlock? then 1 else 0
  {
    StepIsGood(s, step);
    CountPlaces(s, Apply(s, step), step);
  }

  /** Each unlock, and nothing else, takes one request away. */
  lemma {:induction false} Drains(states: seq<RwLock>, steps: seq<Step>)
    requires IsRun(states, steps) && Good(states[0]) && forall i :: 0 <= i < |steps| ==> NoRequest(steps[i])
    ensures |Places(states[0])| == |Places(states[|steps|])| + Unlocks(steps)
  {
    if steps != [] {
      var n := |steps| - 1;
      RunPrefix(states, steps);
      RunIsGood(states[..n + 1], steps[..n]);
      Drains(states[..n + 1], steps[..n]);
      DrainStep(states[n], steps[n]);
    }
  }

  /** A request that is gone held the lock and gave it back. */
  lemma {:induction false} GoneWasGranted(states: seq<RwLock>, steps: seq<Step>, r: Request)
    requires IsRun(states, steps) && Good(states[0])
    requires Placed(states[0], r) && !Placed(states[|steps|], r)
    ensures exists i :: 0 <= i < |steps| && Holds(states[i], r) && steps[i] == Unlock(r)
  {
    var n := |steps| - 1;
    RunPrefix(states, steps);
    if Placed(states[n], r) {
      RunIsGood(states[..n + 1], steps[..n]);
      StepIsGood(states[n], steps[n]);
      assert Holds(states[n], r) && steps[n] == Unlock(r);
    } else {
      GoneWasGranted(states[..n + 1], steps[..n], r);
      var i :| 0 <= i < n && Holds(states[..n + 1][i], r) && steps[..n][i] == Unlock(r);
      assert Holds(states[i], r) && steps[i] == Unlock(r);
    }
  }

  /** Without new requests, the lock is free exactly when there have been as many unlocks as there were holders and
      waiters; by then every one of them has held the lock. */
  lemma {:induction false} EverybodyIsGranted(states: seq<RwLock>, steps: seq<Step>)
    requires IsRun(states, steps) && Good(states[0]) && forall i :: 0 <= i < |steps| ==> NoRequest(steps[i])
    ensures Unlocks(steps) <= |Places(states[0])|
    ensures Unlocks(steps) == |Places(states[0])| <==> states[|steps|].state == Free
    ensures states[|steps|].state == Free ==>
              forall r :: Placed(states[0], r) ==>
                exists i :: 0 <= i < |steps| && Holds(states[i], r) && steps[i] == Unlock(r)
  {
    Drains(states, steps);
    RunIsGood(states, steps);
    FreeIsEmpty(states[|steps|]);
    if states[|steps|].state == Free {
      forall r | Placed(states[0], r)
        ensures exists i :: 0 <= i < |steps| && Holds(states[i], r) && steps[i] == Unlock(r)
      {
        assert r !in Places(states[|steps|]);
        GoneWasGranted(states, steps, r);
      }
    }
  }

  // ---------- the lock itself ----------

  class AsyncReadWriteLock {
    var state: LockState
    var readers: nat
    var readWaiters: seq<Request>
    var writeWaiters: seq<Request>
    var futures: map<Request, LockState>
    ghost var readHolders: set<Request>
    ghost var writeHolders: set<Request>

    ghost function Value(): RwLock
      reads this
    {
      RwLock(state, readers, readWaiters, writeWaiters, readHolders, writeHolders, futures)
    }

    constructor ()
      ensures Value() == UNLOCKED && Good(Value())
    {
      state, readers, readWaiters, writeWaiters, futures := Free, 0, [], [], map[];
      readHolders, writeHolders := {}, {};
    }

    /** Granted at once, or queued. */
    method LockRead(r: Request) returns (granted: bool, prev: LockState)
      requires Good(Value()) && r !in Places(Value())
      modifies this
      ensures Good(Value()) && Value() == AfterLockRead(old(Value()), r)
      ensures granted <==> r in readHolders
      ensures granted ==> prev == old(state)
    {
      LockReadIsGood(Value(), r);
      if state != UniquedWriting {
        readers := readers + 1;
        var was := state;
        state := SharedReading;
        readHolders := readHolders + {r};
        assert Value() == AfterLockRead(old(Value()), r);
        return true, was;
      }
      readWaiters := readWaiters + [r];
      assert Value() == AfterLockRead(old(Value()), r);
      return false, state;
    }

    method TryLockRead(r: Request) returns (granted: bool, status: LockState)
      requires Good(Value()) && r !in Places(Value())
      modifies this
      ensures Good(Value()) && Value() == AfterTryLockRead(old(Value()), r)
      ensures granted <==> Placed(Value(), r)
      ensures granted ==> status == old(state)
    {
      LockReadIsGood(Value(), r);
      if state != UniquedWriting {
        status := state;
        readers := readers + 1;
        state := SharedReading;
        readHolders := readHolders + {r};
        return true, status;
      }
      return false, state;
    }

    method LockWrite(r: Request) returns (granted: bool, prev: LockState)
      requires Good(Value()) && r !in Places(Value())
      modifies this
      ensures Good(Value()) && Value() == AfterLockWrite(old(Value()), r)
      ensures granted <==> r in writeHolders
      ensures granted ==> prev == old(state) == Free
    {
      LockWriteIsGood(Value(), r);
      if state == Free {
        state := UniquedWriting;
        writeHolders := writeHolders + {r};
        return true, Free;
      }
      writeWaiters := writeWaiters + [r];
      return false, state;
    }

    /** Gives up at once if the spin lock is taken. */
    method TryLockWrite(r: Request, spinLocked: bool) returns (granted: bool)
      requires Good(Value()) && r !in Places(Value())
      modifies this
      ensures Good(Value()) && Value() == AfterTryLockWrite(old(Value()), r, spinLocked)
      ensures granted <==> Placed(Value(), r)
    {
      LockWriteIsGood(Value(), r);
      if spinLocked {
        return false;
      }
      if state == Free {
        state := UniquedWriting;
        writeHolders := writeHolders + {r};
        return true;
      }
      return false;
    }

    method Complete(r: Request, prev: LockState)
      modifies this`futures
      ensures futures == old(futures)[r := prev]
    {
      futures := futures[r := prev];
    }

    method CompleteAll(waiters: seq<Request>)
      modifies this`futures
      ensures futures == Told(old(futures), waiters, UniquedWriting)
    {
      for i := 0 to |waiters|
        invariant futures == Told(old(futures), waiters[..i], UniquedWriting)
      {
        assert waiters[..i + 1] == waiters[..i] + [waiters[i]];
        Complete(waiters[i], UniquedWriting);
      }
      assert waiters[..|waiters|] == waiters;
    }

    method WriteUnlock(ghost r: Request)
      requires Good(Value()) && r in writeHolders && r !in futures
      modifies this
      ensures Good(Value()) && Value() == AfterWriteUnlock(old(Value()), r)
    {
      WriteUnlockIsGood(Value(), r);
      writeHolders := writeHolders - {r};
      if writeWaiters != [] {
        var future := writeWaiters[|writeWaiters| - 1];
        writeWaiters := writeWaiters[..|writeWaiters| - 1];
        state := UniquedWriting;
        writeHolders := writeHolders + {future};
        Complete(future, UniquedWriting);
        return;
      } else if readWaiters != [] {
        var waiters := readWaiters;
        readWaiters := [];
        readers := |waiters|;
        state := SharedReading;
        readHolders := readHolders + Elements(waiters);
        CompleteAll(waiters);
        return;
      }
      state := Free;
    }

    method ReadUnlock(ghost r: Request)
      requires Good(Value()) && r in readHolders && r !in futures
      modifies this
      ensures old(readers) > 0 && Good(Value()) && Value() == AfterReadUnlock(old(Value()), r)
    {
      ReadUnlockIsGood(Value(), r);
      readHolders := readHolders - {r};
      readers := readers - 1;
      if readers != 0 {
        return;
      }
      if writeWaiters != [] {
        var future := writeWaiters[|writeWaiters| - 1];
        writeWaiters := writeWaiters[..|writeWaiters| - 1];
        state := UniquedWriting;
        writeHolders := writeHolders + {future};
        Complete(future, SharedReading);
        return;
      }
      state := Free;
    }

    /** One call serves readers and writers: the state tells which the caller is. */
    method Unlock(ghost r: Request)
      requires Good(Value()) && Running(Value(), r)
      modifies this
      ensures old(state) != Free && (old(state) == SharedReading ==> old(readers) > 0)
      ensures Good(Value()) && Value() == AfterUnlock(old(Value()), r, old(state))
      ensures HasLeft(old(Value()), r, Value())
    {
      UnlockIsGood(Value(), r);
      if state == UniquedWriting {
        WriteUnlock(r);
      } else if state == SharedReading {
        ReadUnlock(r);
      }
    }

    /** Read lock into write lock: at once for the last reader, else behind the write waiters. */
    method UpgradeFromRead(r: Request) returns (granted: bool)
      requires Good(Value()) && r in readHolders && r !in futures
      modifies this
      ensures old(readers) > 0 && Good(Value()) && Value() == AfterUpgrade(old(Value()), r)
      ensures granted <==> r in writeHolders
    {
      UpgradeIsGood(Value(), r);
      readHolders := readHolders - {r};
      readers := readers - 1;
      if readers == 0 {
        state := UniquedWriting;
        writeHolders := writeHolders + {r};
        return true;
      }
      writeWaiters := writeWaiters + [r];
      return false;
    }

    method DowngradeFromWrite(ghost r: Request)
      requires Good(Value()) && r in writeHolders && r !in futures
      modifies this
      ensures Good(Value()) && Value() == AfterDowngrade(old(Value()), r)
    {
      DowngradeIsGood(Value(), r);
      SwapToReading(r);
    }

    method SwapToReading(ghost r: Request)
      modifies this
      ensures Value() == AfterDowngrade(old(Value()), r)
    {
      writeHolders, readHolders := writeHolders - {r}, readHolders + {r};
      readers := 1;
      var waiters := readWaiters;
      readWaiters := [];
      readers := readers + |waiters|;
      state := SharedReading;
      readHolders := readHolders + Elements(waiters);
      CompleteAll(waiters);
    }
  }
}
