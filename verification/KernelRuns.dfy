/** Whole runs of the thread kernel: what holds in every state that any interleaving can reach. */
module KernelRuns {
  import opened Arithmetic
  import opened Collections
  import opened Threads
  import opened Synchronization

  datatype Op =
    | DoP(s: Queue) | DoV(s: Queue) | DoAcquire(l: Queue) | DoRelease(l: Queue)
    | DoWait(c: Queue, l: Queue) | DoSignal(c: Queue, l: Queue) | DoBroadcast(c: Queue, l: Queue) | DoBlock(b: Queue)
    | DoFork(t: Thread) | DoYield | DoFinish | DoCreate(q: Queue, o: Object)

  /**
   * Call: the running thread starts an operation, a yield forced by the timer included.  Continue: it
   * goes on with one from which it slept.  Switch: the processor is given to the head of the ready
   * list.  Handler: an interrupt handler does V.
   */
  datatype Event = Call(op: Op) | Continue | Switch | Handler(s: Queue)

  predicate IsSemaphore(y: System, q: Queue) { q in y.objects && y.objects[q].Semaphore? }
  predicate IsLock(y: System, q: Queue) { q in y.objects && y.objects[q].Lock? }
  predicate IsCondition(y: System, q: Queue) { q in y.objects && y.objects[q].Condition? }
  predicate IsBarrier(y: System, q: Queue) { q in y.objects && y.objects[q].Barrier? }

  /** What the constructors build. */
  predicate Fresh(o: Object) {
    match o
    case Semaphore(initial, value, downs, ups) => value == initial && downs == 0 && ups == 0
    case Lock(owner, inside) => owner == None && inside == {}
    case Condition => true
    case Barrier(size, count, arrived, groups, released, left, ticket) =>
      0 < size && count == 0 && arrived == 0 && groups == 0 && released == 0 && left == 0
  }

  /** What a thread is doing, it is doing to an object of the right kind. */
  predicate Fits(y: System, d: Doing) {
    match d
    case Free => true
    case InP(s) => IsSemaphore(y, s)
    case InAcquire(l) => IsLock(y, l)
    case InWait(c, l) => IsCondition(y, c) && IsLock(y, l)
    case InBlock(b) => IsBarrier(y, b)
    case Relocking(l) => IsLock(y, l)
  }

  ghost predicate Typed(y: System) {
    forall t :: t in y.doing ==> Fits(y, y.doing[t])
  }

  ghost predicate Inv(y: System) {
    Sound(y) && Typed(y)
  }

  predicate Allowed(y: System, op: Op) {
    match op
    case DoP(s) => IsSemaphore(y, s)
    case DoV(s) => IsSemaphore(y, s)
    case DoAcquire(l) => IsLock(y, l)
    case DoRelease(l) => IsLock(y, l)
    case DoWait(c, l) => IsCondition(y, c) && IsLock(y, l)
    case DoSignal(c, l) => IsCondition(y, c) && IsLock(y, l)
    case DoBroadcast(c, l) => IsCondition(y, c) && IsLock(y, l)
    case DoBlock(b) => IsBarrier(y, b)
    case DoFork(t) => t !in y.doing
    case DoYield => true
    case DoFinish => true
    case DoCreate(q, o) => q !in y.objects && Fresh(o)
  }

  /** The running thread is in Wait past Sleep: interrupts are enabled again and it has yet to call Acquire. */
  ghost predicate Relocks(y: System) {
    y.kernel.current.Some? && y.kernel.current.value in y.doing && y.doing[y.kernel.current.value].Relocking?
  }

  ghost predicate Enabled(y: System, e: Event) {
    match e
    case Call(op) => Allowed(y, op) && (RunningFree(y) || (op == DoYield && Relocks(y)))
    case Continue => y.kernel.current.Some? && y.kernel.current.value in y.doing && y.doing[y.kernel.current.value] != Free
    case Switch => y.kernel.current == None && y.kernel.ready != []
    case Handler(s) => IsSemaphore(y, s) && (y.kernel.current == None || RunningFree(y) || Relocks(y))
  }

  function Perform(y: System, op: Op): System
    requires y.kernel.current.Some? && Allowed(y, op)
  {
    match op
    case DoP(s) => TryP(y, s)
    case DoV(s) => V(y, s)
    case DoAcquire(l) => TryAcquire(y, l)
    case DoRelease(l) => Release(y, l)
    case DoWait(c, l) => Wait(y, c, l)
    case DoSignal(c, l) => Signal(y, c, l)
    case DoBroadcast(c, l) => Broadcast(y, c, l)
    case DoBlock(b) => Block(y, b)
    case DoFork(t) => y.(kernel := MakeReady(y.kernel, t), doing := y.doing[t := Free])
    case DoYield => y.(kernel := Yield(y.kernel))
    case DoFinish => y.(kernel := Finish(y.kernel), doing := y.doing - {y.kernel.current.value})
    case DoCreate(q, o) => Put(y, q, o)
  }

  /** Wait past Sleep: what is left of it is to get the lock. */
  function Relock(y: System, l: Queue): System
    requires y.kernel.current.Some?
  {
    y.(doing := y.doing[y.kernel.current.value := Relocking(l)])
  }

  /** Back from Sleep: P and Acquire test again, Wait goes on to Acquire, block returns. */
  function Resume(y: System): System
    requires y.kernel.current.Some? && y.kernel.current.value in y.doing && Fits(y, y.doing[y.kernel.current.value])
  {
    var z := Rerun(y);
    match y.doing[y.kernel.current.value]
    case Free => z
    case InP(s) => TryP(z, s)
    case InAcquire(l) => TryAcquire(z, l)
    case InWait(_, l) => Relock(z, l)
    case InBlock(b) => Leave(z, b)
    case Relocking(l) => TryAcquire(z, l)
  }

  ghost function Step(y: System, e: Event): System
    requires Inv(y) && Enabled(y, e)
  {
    match e
    case Call(op) => Perform(y, op)
    case Continue => Resume(y)
    case Switch => y.(kernel := Dispatch(y.kernel))
    case Handler(s) => V(y, s)
  }

  // ---- every step keeps the invariant ----

  lemma RerunKeepsObjects(y: System)
    requires y.kernel.current.Some? && y.kernel.current.value in y.doing
    ensures Rerun(y).objects == y.objects
  {
  }

  lemma ResumeP(y: System, s: Queue)
    requires Sound(y) && y.kernel.current.Some? && y.kernel.current.value in y.doing
    requires y.doing[y.kernel.current.value] == InP(s) && IsSemaphore(y, s)
    ensures Sound(TryP(Rerun(y), s))
  {
    hide Base, On, Woken, Rerun;
    var z := Rerun(y);
    RerunBase(y);
    RerunKeepsObjects(y);
    assert OkAt(y, s);
    forall q | q != s ensures OkAt(z, q) {
      assert OkAt(y, q);
    }
    TryPSound(z, s);
  }

  lemma ResumeAcquire(y: System, l: Queue)
    requires Sound(y) && y.kernel.current.Some? && y.kernel.current.value in y.doing && IsLock(y, l)
    requires var d := y.doing[y.kernel.current.value]; d == InAcquire(l) || d == Relocking(l)
    ensures Sound(TryAcquire(Rerun(y), l))
  {
    hide Base, On, Woken, Rerun;
    var z := Rerun(y);
    RerunBase(y);
    RerunKeepsObjects(y);
    assert OkAt(y, l);
    forall p | p != l ensures OkAt(z, p) {
      assert OkAt(y, p);
    }
    TryAcquireSound(z, l);
  }

  lemma RelockBase(y: System, l: Queue)
    requires Base(y) && RunningFree(y)
    ensures Base(Relock(y, l)) && forall p: Queue :: Woken(Relock(y, l), p) == Woken(y, p)
  {
    var z := Relock(y, l);
    assert forall p: Queue :: Woken(z, p) == Woken(y, p);
    assert z.doing.Keys == y.doing.Keys;
    hide Orderly, On, Woken;
    forall p ensures Split(On(z.kernel, p), Woken(z, p), z.doing, p) {
      assert Split(On(y.kernel, p), Woken(y, p), y.doing, p);
    }
  }

  lemma ResumeWait(y: System, c: Queue, l: Queue)
    requires Sound(y) && y.kernel.current.Some? && y.kernel.current.value in y.doing
    requires y.doing[y.kernel.current.value] == InWait(c, l) && IsCondition(y, c)
    ensures Sound(Relock(Rerun(y), l))
  {
    hide Base, On, Woken, Rerun;
    RerunBase(y);
    RerunKeepsObjects(y);
    var w := Relock(Rerun(y), l);
    RelockBase(Rerun(y), l);
    forall p ensures OkAt(w, p) {
      assert OkAt(y, p);
    }
  }

  lemma ResumeBlock(y: System, b: Queue)
    requires Sound(y) && y.kernel.current.Some? && y.kernel.current.value in y.doing
    requires y.doing[y.kernel.current.value] == InBlock(b) && IsBarrier(y, b)
    ensures Sound(Leave(Rerun(y), b))
  {
    hide Base, On, Woken, Rerun;
    var z := Rerun(y);
    RerunBase(y);
    RerunKeepsObjects(y);
    var w := Leave(z, b);
    PutBase(z, b, w.objects[b]);
    assert OkAt(y, b);
    assert OkAt(w, b);
    forall p | p != b ensures OkAt(w, p) {
      assert OkAt(y, p);
    }
  }

  /** A change of the kernel that leaves the queues alone, and of what threads do that none of them sees. */
  lemma QueuesUntouched(y: System, z: System)
    requires Sound(y) && Orderly(z.kernel) && z.doing.Keys == z.kernel.where.Keys
    requires z.kernel.queues == y.kernel.queues && z.woken == y.woken && z.objects == y.objects
    requires forall t :: t in z.doing ==> if t in y.doing then z.doing[t] == y.doing[t] else z.doing[t] == Free
    requires forall t :: t in y.doing && y.doing[t] != Free ==> t in z.doing
    ensures Sound(z)
  {
    hide Orderly, Ok;
    forall q ensures Split(On(z.kernel, q), Woken(z, q), z.doing, q) && OkAt(z, q) {
      assert Split(On(y.kernel, q), Woken(y, q), y.doing, q) && OkAt(y, q);
    }
  }

  lemma ForkSound(y: System, t: Thread)
    requires Sound(y) && t !in y.doing
    ensures Sound(y.(kernel := MakeReady(y.kernel, t), doing := y.doing[t := Free]))
  {
    var z := y.(kernel := MakeReady(y.kernel, t), doing := y.doing[t := Free]);
    assert t !in y.kernel.where.Keys;
    ForkOrderly(y.kernel, t);
    hide Sound, Orderly;
    assert z.doing.Keys == y.doing.Keys + {t} && z.kernel.where.Keys == y.kernel.where.Keys + {t};
    QueuesUntouched(y, z);
  }

  lemma YieldSound(y: System)
    requires Sound(y) && y.kernel.current.Some?
    ensures Sound(y.(kernel := Yield(y.kernel)))
  {
    YieldOrderly(y.kernel);
    CurrentRuns(y.kernel);
    hide Sound, Orderly;
    var k := Yield(y.kernel);
    assert k.where.Keys == y.kernel.where.Keys;
    QueuesUntouched(y, y.(kernel := k));
  }

  lemma SwitchSound(y: System)
    requires Sound(y) && y.kernel.current == None && y.kernel.ready != []
    ensures Sound(y.(kernel := Dispatch(y.kernel)))
  {
    DispatchOrderly(y.kernel);
    CurrentRuns(y.kernel);
    hide Sound, Orderly;
    var k := Dispatch(y.kernel);
    assert k.where.Keys == y.kernel.where.Keys;
    QueuesUntouched(y, y.(kernel := k));
  }

  lemma FinishSound(y: System)
    requires Sound(y) && RunningFree(y)
    ensures Sound(y.(kernel := Finish(y.kernel), doing := y.doing - {y.kernel.current.value}))
  {
    FinishOrderly(y.kernel);
    var t := y.kernel.current.value;
    var z := y.(kernel := Finish(y.kernel), doing := y.doing - {t});
    hide Sound, Orderly;
    assert z.doing.Keys == y.doing.Keys - {t} && z.kernel.where.Keys == y.kernel.where.Keys - {t};
    QueuesUntouched(y, z);
  }

  lemma NobodyAsleep(y: System, q: Queue)
    requires Base(y) && Typed(y) && q !in y.objects
    ensures On(y.kernel, q) == [] && Woken(y, q) == {}
  {
    assert Split(On(y.kernel, q), Woken(y, q), y.doing, q);
    forall t ensures t !in On(y.kernel, q) && t !in Woken(y, q) {
      if t in y.doing {
        assert Fits(y, y.doing[t]);
      }
    }
    EmptyIff(On(y.kernel, q));
  }

  lemma EmptyIff(s: seq<Thread>)
    ensures s == [] <==> forall t :: t !in s
  {
    if s != [] {
      assert s[0] in s;
    }
  }

  lemma CreateSound(y: System, q: Queue, o: Object)
    requires Sound(y) && Typed(y) && q !in y.objects && Fresh(o)
    ensures Sound(Put(y, q, o))
  {
    var z := Put(y, q, o);
    PutBase(y, q, o);
    NobodyAsleep(y, q);
    hide Base, On, Woken;
    assert OkAt(z, q);
    OnlyAt(y, z, q);
  }

  // ---- what threads do stays fitting ----

  predicate SameKind(o: Object, p: Object) {
    (o.Semaphore? == p.Semaphore?) && (o.Lock? == p.Lock?) && (o.Condition? == p.Condition?) && (o.Barrier? == p.Barrier?)
  }

  /** Objects keep their kinds. */
  ghost predicate SameKinds(y: System, z: System) {
    forall q :: q in y.objects ==> q in z.objects && SameKind(y.objects[q], z.objects[q])
  }

  lemma TypedStays(y: System, z: System)
    requires Typed(y) && SameKinds(y, z)
    requires forall t :: t in z.doing ==> (t in y.doing && z.doing[t] == y.doing[t]) || Fits(y, z.doing[t])
    ensures Typed(z)
  {
  }

  lemma {:induction false} WakeTimesTyped(y: System, q: Queue, n: nat)
    ensures WakeTimes(y, q, n).doing == y.doing && WakeTimes(y, q, n).objects == y.objects
    decreases n
  {
    if n > 0 {
      WakeTimesTyped(WakeOne(y, q), q, n - 1);
    }
  }

  lemma TryPTyped(y: System, s: Queue)
    requires Typed(y) && y.kernel.current.Some? && IsSemaphore(y, s)
    ensures Typed(TryP(y, s))
  {
    hide Typed, SleepOn;
    TypedStays(y, TryP(y, s));
  }

  lemma VTyped(y: System, s: Queue)
    requires Typed(y) && IsSemaphore(y, s)
    ensures Typed(V(y, s))
  {
    hide On, Woken, Wake, Typed;
    TypedStays(y, V(y, s));
  }

  lemma TryAcquireTyped(y: System, l: Queue)
    requires Typed(y) && y.kernel.current.Some? && IsLock(y, l)
    ensures Typed(TryAcquire(y, l))
  {
    hide Typed, SleepOn;
    TypedStays(y, TryAcquire(y, l));
  }

  lemma ReleaseTyped(y: System, l: Queue)
    requires Typed(y) && y.kernel.current.Some? && IsLock(y, l)
    ensures Typed(Release(y, l)) && Release(y, l).kernel.current == y.kernel.current && SameKinds(y, Release(y, l))
  {
    hide On, Woken, Typed;
    TypedStays(y, Release(y, l));
  }

  lemma WaitTyped(y: System, c: Queue, l: Queue)
    requires Typed(y) && y.kernel.current.Some? && IsCondition(y, c) && IsLock(y, l)
    ensures Typed(Wait(y, c, l))
  {
    hide Typed, SleepOn, Release;
    ReleaseTyped(y, l);
    if y.objects[l].owner == y.kernel.current {
      TypedStays(Release(y, l), Wait(y, c, l));
    }
  }

  lemma BlockTyped(y: System, b: Queue)
    requires Typed(y) && y.kernel.current.Some? && IsBarrier(y, b)
    ensures Typed(Block(y, b))
  {
    hide WakeTimes, Typed, SleepOn;
    WakeTimesTyped(y, b, y.objects[b].count + 1);
    TypedStays(y, Block(y, b));
  }

  lemma PerformTyped(y: System, op: Op)
    requires Typed(y) && y.kernel.current.Some? && Allowed(y, op)
    ensures Typed(Perform(y, op))
  {
    hide On, Woken, WakeTimes, Yield, MakeReady, Finish, Typed, Wake, TryP, V, TryAcquire, Release, Wait, Block;
    match op
    case DoP(s) => TryPTyped(y, s);
    case DoV(s) => VTyped(y, s);
    case DoAcquire(l) => TryAcquireTyped(y, l);
    case DoRelease(l) => ReleaseTyped(y, l);
    case DoWait(c, l) => WaitTyped(y, c, l);
    case DoBlock(b) => BlockTyped(y, b);
    case DoBroadcast(c, l) =>
      WakeTimesTyped(y, c, |On(y.kernel, c)|);
      TypedStays(y, Perform(y, op));
    case _ => TypedStays(y, Perform(y, op));
  }

  lemma ResumeTyped(y: System)
    requires Typed(y) && y.kernel.current.Some? && y.kernel.current.value in y.doing
    ensures Fits(y, y.doing[y.kernel.current.value]) && Typed(Resume(y))
  {
    var d, z := y.doing[y.kernel.current.value], Rerun(y);
    assert Fits(y, d);
    hide Woken, Typed, TryP, TryAcquire;
    TypedStays(y, z);
    match d
    case Free =>
    case InP(s) => TryPTyped(z, s);
    case InAcquire(l) => TryAcquireTyped(z, l);
    case InWait(_, l) => TypedStays(z, Relock(z, l));
    case InBlock(b) => TypedStays(z, Leave(z, b));
    case Relocking(l) => TryAcquireTyped(z, l);
  }

  lemma PerformSound(y: System, op: Op)
    requires Inv(y) && y.kernel.current.Some? && Allowed(y, op) && (RunningFree(y) || op == DoYield)
    ensures Sound(Perform(y, op))
  {
    hide TryP, V, TryAcquire, Release, Wait, Signal, WakeTimes, Block, MakeReady, Yield, Finish, Base, Typed, Ok, On, Woken;
    match op
    case DoP(s) => ReadyToTry(y, s); TryPSound(y, s);
    case DoV(s) => VSound(y, s);
    case DoAcquire(l) => ReadyToLock(y, l); TryAcquireSound(y, l);
    case DoRelease(l) => ReleaseSound(y, l);
    case DoWait(c, l) => WaitSound(y, c, l);
    case DoSignal(c, l) => SignalSound(y, c, l);
    case DoBroadcast(c, l) => BroadcastSound(y, c, |On(y.kernel, c)|);
    case DoBlock(b) =>
      if y.objects[b].count + 1 < y.objects[b].size {
        BlockSleeps(y, b);
      } else {
        BlockWakes(y, b);
      }
    case DoFork(t) => ForkSound(y, t);
    case DoYield => YieldSound(y);
    case DoFinish => FinishSound(y);
    case DoCreate(q, o) => CreateSound(y, q, o);
  }

  lemma ReadyToTry(y: System, s: Queue)
    requires Sound(y) && RunningFree(y) && IsSemaphore(y, s)
    ensures Slack(y, s)
  {
    hide Base, On, Woken;
    assert OkAt(y, s);
  }

  lemma ReadyToLock(y: System, l: Queue)
    requires Sound(y) && RunningFree(y) && IsLock(y, l)
    ensures Trying(y, l)
  {
    hide Base, On, Woken;
    assert OkAt(y, l);
  }

  lemma ResumeSound(y: System)
    requires Inv(y) && y.kernel.current.Some? && y.kernel.current.value in y.doing && Fits(y, y.doing[y.kernel.current.value])
    requires y.doing[y.kernel.current.value] != Free
    ensures Sound(Resume(y))
  {
    hide TryP, TryAcquire, Rerun, Leave, Sound, Typed;
    RerunKeepsObjects(y);
    var d := y.doing[y.kernel.current.value];
    match d
    case InP(s) => ResumeP(y, s);
    case InAcquire(l) => ResumeAcquire(y, l);
    case InWait(c, l) => ResumeWait(y, c, l);
    case InBlock(b) => ResumeBlock(y, b);
    case Relocking(l) => ResumeAcquire(y, l);
  }

  /** Every step, of any thread or handler, keeps the invariant. */
  lemma StepKeeps(y: System, e: Event)
    requires Inv(y) && Enabled(y, e)
    ensures Inv(Step(y, e))
  {
    hide Sound, Perform, Resume, V, Dispatch;
    match e
    case Call(op) => PerformSound(y, op); PerformTyped(y, op);
    case Continue => ResumeTyped(y); ResumeSound(y);
    case Switch => SwitchSound(y);
    case Handler(s) => VSound(y, s); VTyped(y, s);
  }

  // ---- runs ----

  function Boot(main: Thread): System {
    System(Threads.Boot(main), map[main := Free], map[], map[])
  }

  lemma BootInv(main: Thread)
    ensures Inv(Boot(main))
  {
    BootOrderly(main);
  }

  /** The events can happen in this order from y. */
  ghost predicate Possible(y: System, events: seq<Event>)
    requires Inv(y)
    decreases |events|
  {
    events == [] || (Enabled(y, events[0]) && (StepKeeps(y, events[0]); Possible(Step(y, events[0]), events[1..])))
  }

  ghost function After(y: System, events: seq<Event>): System
    requires Inv(y) && Possible(y, events)
    decreases |events|
  {
    if events == [] then y else StepKeeps(y, events[0]); After(Step(y, events[0]), events[1..])
  }

  lemma {:induction false} RunKeeps(y: System, events: seq<Event>)
    requires Inv(y) && Possible(y, events)
    ensures Inv(After(y, events))
    decreases |events|
  {
    hide Inv, Enabled, Step;
    if events != [] {
      StepKeeps(y, events[0]);
      RunKeeps(Step(y, events[0]), events[1..]);
    }
  }

  /** y is a state of some run since the main thread started. */
  ghost predicate Reachable(y: System) {
    exists main: Thread, events: seq<Event> :: BootedTo(main, events, y)
  }

  ghost predicate BootedTo(main: Thread, events: seq<Event>, y: System) {
    BootInv(main); Possible(Boot(main), events) && y == After(Boot(main), events)
  }

  lemma ReachableInv(y: System)
    requires Reachable(y)
    ensures Inv(y)
  {
    hide Inv, Possible, After;
    var main, events :| BootedTo(main, events, y);
    BootInv(main);
    RunKeeps(Boot(main), events);
  }

  // ---- what every reachable state satisfies ----

  /** Each live thread is running, or on the ready list once, or on one wait queue once; a dead one is nowhere. */
  lemma OnePlace(y: System, t: Thread)
    requires Reachable(y)
    ensures t in y.doing ==> t in y.kernel.where
    ensures y.kernel.current == Some(t) <==> t in y.doing && y.kernel.where[t] == Running
    ensures t in y.kernel.ready <==> t in y.doing && y.kernel.where[t] == OnReadyList
    ensures forall q :: t in On(y.kernel, q) <==> t in y.doing && y.kernel.where[t] == Waiting(q)
    ensures Distinct(y.kernel.ready) && forall q :: Distinct(On(y.kernel, q))
  {
    ReachableInv(y);
    var k := y.kernel;
    assert t in y.doing <==> t in y.doing.Keys;
    assert t in k.where <==> t in k.where.Keys;
    assert Holds(Front(k), k.where, Running) && Holds(k.ready, k.where, OnReadyList);
    hide Reachable, Ok, Split;
    assert k.current == Some(t) <==> t in Front(k);
    forall q ensures (t in On(k, q) <==> t in k.where && k.where[t] == Waiting(q)) && Distinct(On(k, q)) {
      assert Holds(On(k, q), k.where, Waiting(q));
    }
  }

  /** The ready list is served in the order in which threads became ready. */
  lemma ServedInOrder(y: System)
    requires Reachable(y)
    ensures y.kernel.readied == y.kernel.dispatched + y.kernel.ready
  {
    hide Reachable;
    ReachableInv(y);
  }

  /** A semaphore's value is what it started with and the operations done on it make it. */
  lemma SemaphoreConserves(y: System, s: Queue)
    requires Reachable(y) && IsSemaphore(y, s)
    ensures var o := y.objects[s]; o.value == o.initial + o.ups - o.downs
  {
    ReachableInv(y);
    hide Reachable, Base, Typed, On, Woken;
    assert OkAt(y, s);
  }

  /** While threads wait on a semaphore, every unit of it is spoken for by a waiter already woken. */
  lemma NoLostWakeup(y: System, s: Queue)
    requires Reachable(y) && IsSemaphore(y, s) && On(y.kernel, s) != []
    ensures y.objects[s].value <= |Woken(y, s)|
    ensures forall t :: t in Woken(y, s) ==> t in y.doing && y.doing[t] == InP(s) && t !in On(y.kernel, s)
  {
    ReachableInv(y);
    hide Reachable, Orderly, On, Woken;
    assert OkAt(y, s) && Split(On(y.kernel, s), Woken(y, s), y.doing, s);
    forall t | t in Woken(y, s) ensures y.doing[t] == InP(s) {
      assert Fits(y, y.doing[t]);
    }
  }

  /** At most one thread is between its Acquire and its Release: the owner. */
  lemma LockExcludes(y: System, l: Queue)
    requires Reachable(y) && IsLock(y, l)
    ensures y.objects[l].inside == (if y.objects[l].owner.Some? then {y.objects[l].owner.value} else {}) && |y.objects[l].inside| <= 1
  {
    ReachableInv(y);
    hide Reachable, Base, Typed, On, Woken;
    assert OkAt(y, l);
  }

  /** A thread waiting for a lock waits behind an owner or behind a waiter already woken. */
  lemma LockNotStranded(y: System, l: Queue)
    requires Reachable(y) && IsLock(y, l) && On(y.kernel, l) != []
    ensures y.objects[l].owner.Some? || Woken(y, l) != {}
  {
    ReachableInv(y);
    hide Reachable, Base, Typed, On, Woken;
    assert OkAt(y, l);
  }

  /** A barrier lets whole groups go, so departures never exceed the whole groups that have arrived. */
  lemma BarrierWholeGroups(y: System, b: Queue)
    requires Reachable(y) && IsBarrier(y, b)
    ensures var o := y.objects[b];
      && |On(y.kernel, b)| == o.count < o.size
      && o.left + |Woken(y, b)| == o.released == o.size * (o.arrived / o.size)
  {
    ReachableInv(y);
    hide Reachable, Base, Typed, On, Woken;
    assert OkAt(y, b);
    var o := y.objects[b];
    SplitUnique(o.arrived, o.size, o.groups, o.count);
  }

  /** A thread about to leave the barrier leaves with all of its group arrived. */
  lemma LeavesWithGroup(y: System, b: Queue, t: Thread)
    requires Reachable(y) && IsBarrier(y, b) && t in Woken(y, b)
    ensures var o := y.objects[b]; 0 < o.size && t in o.ticket && (o.ticket[t] / o.size + 1) * o.size <= o.arrived
  {
    ReachableInv(y);
    hide Reachable, Base, Typed, On, Woken;
    assert OkAt(y, b);
    var o := y.objects[b];
    BlockBound(o.ticket[t], o.size, o.groups);
    MulMonotone(o.ticket[t] / o.size + 1, o.groups, o.size);
  }

  // ---- only the owner frees a lock ----

  /** The owner of l after z is as after y. */
  predicate SameOwner(y: System, z: System, l: Queue) {
    IsLock(y, l) && IsLock(z, l) ==> z.objects[l].owner == y.objects[l].owner
  }

  lemma TryAcquireOwner(y: System, m: Queue, l: Queue)
    requires y.kernel.current.Some? && IsLock(y, m) && IsLock(y, l) && y.objects[l].owner.Some?
    ensures SameOwner(y, TryAcquire(y, m), l)
  {
    hide SleepOn;
  }

  lemma PerformOwner(y: System, op: Op, l: Queue)
    requires y.kernel.current.Some? && Allowed(y, op) && IsLock(y, l) && y.objects[l].owner.Some?
    requires !(y.kernel.current == y.objects[l].owner && (op == DoRelease(l) || (op.DoWait? && op.l == l)))
    ensures SameOwner(y, Perform(y, op), l)
  {
    hide WakeTimes, On, Woken, SleepOn, Wake, Yield, MakeReady, Finish, TryAcquire;
    if op.DoBroadcast? {
      WakeTimesTyped(y, op.c, |On(y.kernel, op.c)|);
    } else if op.DoBlock? {
      WakeTimesTyped(y, op.b, y.objects[op.b].count + 1);
    } else if op.DoAcquire? {
      TryAcquireOwner(y, op.l, l);
    }
  }

  lemma ResumeOwner(y: System, l: Queue)
    requires y.kernel.current.Some? && y.kernel.current.value in y.doing && Fits(y, y.doing[y.kernel.current.value])
    requires IsLock(y, l) && y.objects[l].owner.Some?
    ensures SameOwner(y, Resume(y), l)
  {
    hide Woken, SleepOn, TryAcquire;
    var d, z := y.doing[y.kernel.current.value], Rerun(y);
    if d.InAcquire? || d.Relocking? {
      TryAcquireOwner(z, d.lock, l);
    }
  }

  /** A lock changes hands only by its owner's Release or Wait; from no one, any thread may take it. */
  lemma OnlyOwnerFrees(y: System, e: Event, l: Queue)
    requires Inv(y) && Enabled(y, e) && IsLock(y, l) && y.objects[l].owner.Some?
    requires IsLock(Step(y, e), l) && Step(y, e).objects[l].owner != y.objects[l].owner
    ensures y.kernel.current == y.objects[l].owner
    ensures e.Call? && (e.op == DoRelease(l) || (e.op.DoWait? && e.op.l == l))
  {
    hide Sound, Perform, Resume, WakeOne, Dispatch;
    match e
    case Call(op) =>
      if !(y.kernel.current == y.objects[l].owner && (op == DoRelease(l) || (op.DoWait? && op.l == l))) {
        PerformOwner(y, op, l);
      }
    case Continue => ResumeOwner(y, l);
    case Switch =>
    case Handler(s) => WakeOneEffect(y, s);
  }
}
