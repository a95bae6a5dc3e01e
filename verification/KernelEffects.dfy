/**
 * What each step of the kernel does, in full: who runs, who is ready and in what order, who waits where,
 * what each thread is doing and what each object holds.  And who gets to run: threads that yield take
 * turns in the order of the ready list.
 */
module KernelEffects {
  import opened Collections
  import opened Threads
  import opened Synchronization
  import opened KernelRuns
  import opened KernelFrame

  /** z has this running thread, ready list, doings and objects, and the queues of y but for those listed. */
  ghost predicate Becomes(y: System, z: System, current: Option<Thread>, ready: seq<Thread>,
                          queues: map<Queue, seq<Thread>>, doing: map<Thread, Doing>, objects: map<Queue, Object>) {
    && z.kernel.current == current && z.kernel.ready == ready && z.doing == doing && z.objects == objects
    && forall q :: On(z.kernel, q) == if q in queues then queues[q] else On(y.kernel, q)
  }

  function First(s: seq<Thread>): seq<Thread> {
    if s == [] then [] else [s[0]]
  }

  function Rest(s: seq<Thread>): seq<Thread> {
    if s == [] then [] else s[1..]
  }

  /** The running thread goes to the end of the queue of q. */
  ghost predicate FallsAsleep(y: System, z: System, q: Queue, d: Doing, objects: map<Queue, Object>) {
    y.kernel.current.Some? &&
    var t := y.kernel.current.value;
    Becomes(y, z, None, y.kernel.ready, map[q := On(y.kernel, q) + [t]], y.doing[t := d], objects)
  }

  /** The head of the queue of q, if any, goes to the end of the ready list. */
  ghost predicate HeadReadied(y: System, z: System, q: Queue, doing: map<Thread, Doing>, objects: map<Queue, Object>) {
    var s := On(y.kernel, q);
    Becomes(y, z, y.kernel.current, y.kernel.ready + First(s), map[q := Rest(s)], doing, objects)
  }

  /** The whole queue of q, in order, goes to the end of the ready list. */
  ghost predicate AllReadied(y: System, z: System, q: Queue, objects: map<Queue, Object>) {
    Becomes(y, z, y.kernel.current, y.kernel.ready + On(y.kernel, q), map[q := []], y.doing, objects)
  }

  /** Nothing changes but what a thread is doing and an object holds. */
  ghost predicate GoesOn(y: System, z: System, doing: map<Thread, Doing>, objects: map<Queue, Object>) {
    Becomes(y, z, y.kernel.current, y.kernel.ready, map[], doing, objects)
  }

  // ---- the primitives ----

  lemma SleepFalls(y: System, q: Queue, d: Doing)
    requires y.kernel.current.Some?
    ensures FallsAsleep(y, Sleep(y, q, d), q, d, y.objects)
  {
  }

  lemma WakeReadies(y: System, q: Queue)
    ensures HeadReadied(y, WakeOne(y, q), q, y.doing, y.objects)
  {
    assert y.kernel.ready + [] == y.kernel.ready;
  }

  lemma {:induction false} WakeTimesReadies(y: System, q: Queue, n: nat)
    requires |On(y.kernel, q)| <= n
    ensures AllReadied(y, WakeTimes(y, q, n), q, y.objects)
    decreases n
  {
    var s := On(y.kernel, q);
    if n == 0 {
      assert y.kernel.ready + s == y.kernel.ready;
    } else {
      WakeReadies(y, q);
      hide WakeOne, On;
      var x := WakeOne(y, q);
      WakeTimesReadies(x, q, n - 1);
      assert s == First(s) + Rest(s);
      assert y.kernel.ready + First(s) + Rest(s) == y.kernel.ready + s;
    }
  }

  // ---- the operations ----

  /** P, called or come back to: a unit is taken, or the thread sleeps. */
  ghost predicate TriesP(y: System, z: System, s: Queue) {
    && IsSemaphore(y, s) && y.kernel.current.Some?
    && var o, t := y.objects[s], y.kernel.current.value;
       if o.value > 0 then GoesOn(y, z, y.doing[t := Free], y.objects[s := Semaphore(o.initial, o.value - 1, o.downs + 1, o.ups)])
       else FallsAsleep(y, z, s, InP(s), y.objects)
  }

  ghost predicate DoesV(y: System, z: System, s: Queue) {
    && IsSemaphore(y, s)
    && var o := y.objects[s]; HeadReadied(y, z, s, y.doing, y.objects[s := Semaphore(o.initial, o.value + 1, o.downs, o.ups + 1)])
  }

  /** Acquire, called or come back to: the lock becomes the thread's unless it is another's. */
  ghost predicate TriesAcquire(y: System, z: System, l: Queue) {
    && IsLock(y, l) && y.kernel.current.Some?
    && var o, t := y.objects[l], y.kernel.current.value;
       if o.owner == None || o.owner == Some(t) then GoesOn(y, z, y.doing[t := Free], y.objects[l := Lock(Some(t), o.inside + {t})])
       else FallsAsleep(y, z, l, InAcquire(l), y.objects)
  }

  /** The objects once the running thread no longer has the lock. */
  function Unlocked(y: System, l: Queue): map<Queue, Object>
    requires IsLock(y, l) && y.kernel.current.Some?
  {
    y.objects[l := Lock(None, y.objects[l].inside - {y.kernel.current.value})]
  }

  predicate Owns(y: System, l: Queue) {
    IsLock(y, l) && y.kernel.current.Some? && y.objects[l].owner == y.kernel.current
  }

  ghost predicate DoesWait(y: System, z: System, c: Queue, l: Queue) {
    Owns(y, l) &&
    var t, s := y.kernel.current.value, On(y.kernel, l);
    Becomes(y, z, None, y.kernel.ready + First(s), map[l := Rest(s), c := On(y.kernel, c) + [t]], y.doing[t := InWait(c, l)], Unlocked(y, l))
  }

  /** block: the thread waits for the others of its group, or lets them go and goes on. */
  ghost predicate DoesBlock(y: System, z: System, b: Queue) {
    && IsBarrier(y, b) && y.kernel.current.Some?
    && var o, t := y.objects[b], y.kernel.current.value;
       var ticket := o.ticket[t := o.arrived];
       if o.count + 1 < o.size
       then FallsAsleep(y, z, b, InBlock(b), y.objects[b := Barrier(o.size, o.count + 1, o.arrived + 1, o.groups, o.released, o.left, ticket)])
       else AllReadied(y, z, b, y.objects[b := Barrier(o.size, 0, o.arrived + 1, o.groups + 1, o.released + o.count + 1, o.left + 1, ticket)])
  }

  ghost predicate DoesYield(y: System, z: System) {
    y.kernel.current.Some? &&
    var t, s := y.kernel.current.value, y.kernel.ready;
    if s == [] then GoesOn(y, z, y.doing, y.objects) else Becomes(y, z, Some(s[0]), s[1..] + [t], map[], y.doing, y.objects)
  }

  ghost predicate CallEffect(y: System, z: System, op: Op) {
    match op
    case DoP(s) => TriesP(y, z, s)
    case DoV(s) => DoesV(y, z, s)
    case DoAcquire(l) => TriesAcquire(y, z, l)
    case DoRelease(l) =>
      if Owns(y, l) then HeadReadied(y, z, l, y.doing, Unlocked(y, l)) else GoesOn(y, z, y.doing, y.objects)
    case DoWait(c, l) => if Owns(y, l) then DoesWait(y, z, c, l) else GoesOn(y, z, y.doing, y.objects)
    case DoSignal(c, l) => if Owns(y, l) then HeadReadied(y, z, c, y.doing, y.objects) else GoesOn(y, z, y.doing, y.objects)
    case DoBroadcast(c, l) => if Owns(y, l) then AllReadied(y, z, c, y.objects) else GoesOn(y, z, y.doing, y.objects)
    case DoBlock(b) => DoesBlock(y, z, b)
    case DoFork(t) => Becomes(y, z, y.kernel.current, y.kernel.ready + [t], map[], y.doing[t := Free], y.objects)
    case DoYield => DoesYield(y, z)
    case DoFinish => y.kernel.current.Some? && Becomes(y, z, None, y.kernel.ready, map[], y.doing - {y.kernel.current.value}, y.objects)
    case DoCreate(q, o) => GoesOn(y, z, y.doing, y.objects[q := o])
  }

  /** Back from Sleep, or from Wait's: the operation tries again or ends. */
  ghost predicate ContinueEffect(y: System, z: System) {
    y.kernel.current.Some? && y.kernel.current.value in y.doing &&
    var t := y.kernel.current.value;
    match y.doing[t]
    case Free => false
    case InP(s) => TriesP(y, z, s)
    case InAcquire(l) => TriesAcquire(y, z, l)
    case InWait(_, l) => GoesOn(y, z, y.doing[t := Relocking(l)], y.objects)
    case InBlock(b) => IsBarrier(y, b) && GoesOn(y, z, y.doing[t := Free], y.objects[b := y.objects[b].(left := y.objects[b].left + 1)])
    case Relocking(l) => TriesAcquire(y, z, l)
  }

  ghost predicate Effect(y: System, z: System, e: Event) {
    match e
    case Call(op) => CallEffect(y, z, op)
    case Continue => ContinueEffect(y, z)
    case Switch => y.kernel.ready != [] && Becomes(y, z, Some(y.kernel.ready[0]), y.kernel.ready[1..], map[], y.doing, y.objects)
    case Handler(s) => DoesV(y, z, s)
  }

  // ---- every step has its effect ----

  lemma TryPEffect(y: System, s: Queue)
    requires y.kernel.current.Some? && IsSemaphore(y, s) && y.kernel.current.value in y.doing
    ensures y.doing[y.kernel.current.value] == Free ==> TriesP(y, TryP(y, s), s)
  {
    SleepFalls(y, s, InP(s));
    hide Sleep, On;
    assert y.doing[y.kernel.current.value] == Free ==> y.doing[y.kernel.current.value := Free] == y.doing;
  }

  lemma TryAcquireEffect(y: System, l: Queue)
    requires y.kernel.current.Some? && IsLock(y, l) && y.kernel.current.value in y.doing
    ensures y.doing[y.kernel.current.value] == Free ==> TriesAcquire(y, TryAcquire(y, l), l)
  {
    SleepFalls(y, l, InAcquire(l));
    hide Sleep, On;
    assert y.doing[y.kernel.current.value] == Free ==> y.doing[y.kernel.current.value := Free] == y.doing;
  }

  lemma VHasEffect(y: System, s: Queue)
    requires IsSemaphore(y, s)
    ensures DoesV(y, V(y, s), s)
  {
    WakeReadies(y, s);
    hide WakeOne, On;
  }

  lemma ReleaseHasEffect(y: System, l: Queue)
    requires Owns(y, l)
    ensures HeadReadied(y, Release(y, l), l, y.doing, Unlocked(y, l))
  {
    WakeReadies(y, l);
    hide WakeOne, On;
  }

  lemma WaitHasEffect(y: System, c: Queue, l: Queue)
    requires Owns(y, l) && c != l
    ensures DoesWait(y, Wait(y, c, l), c, l)
  {
    ReleaseHasEffect(y, l);
    var x := Release(y, l);
    SleepFalls(x, c, InWait(c, l));
    hide Release, Sleep, On;
  }

  lemma QueueFits(y: System, b: Queue)
    requires Inv(y) && IsBarrier(y, b)
    ensures |On(y.kernel, b)| == y.objects[b].count
  {
    hide Base, Typed, On, Woken;
    assert OkAt(y, b);
  }

  lemma BlockHasEffect(y: System, b: Queue)
    requires y.kernel.current.Some? && IsBarrier(y, b) && |On(y.kernel, b)| == y.objects[b].count
    ensures DoesBlock(y, Block(y, b), b)
  {
    hide On, WakeTimes, Sleep;
    var t, o := y.kernel.current.value, y.objects[b];
    if o.count + 1 < o.size {
      SleepFalls(Put(y, b, Joined(o, t)), b, InBlock(b));
    } else {
      WakeTimesReadies(y, b, o.count + 1);
    }
  }

  lemma CallHasEffect(y: System, op: Op)
    requires Inv(y) && Enabled(y, Call(op))
    ensures CallEffect(y, Perform(y, op), op)
  {
    hide Sound, TryP, V, TryAcquire, Release, Wait, WakeOne, WakeTimes, Block, On, Woken, TriesP, TriesAcquire, DoesV, DoesWait, DoesBlock;
    match op
    case DoP(s) => TryPEffect(y, s);
    case DoV(s) => VHasEffect(y, s);
    case DoAcquire(l) => TryAcquireEffect(y, l);
    case DoRelease(l) =>
      if Owns(y, l) {
        ReleaseHasEffect(y, l);
      } else {
        ReleaseByOther(y, l);
      }
    case DoWait(c, l) =>
      if Owns(y, l) {
        WaitHasEffect(y, c, l);
      } else {
        WaitByOther(y, c, l);
      }
    case DoSignal(c, l) => WakeReadies(y, c);
    case DoBroadcast(c, l) => WakeTimesReadies(y, c, |On(y.kernel, c)|);
    case DoBlock(b) => QueueFits(y, b); BlockHasEffect(y, b);
    case DoFork(t) => ForkHasEffect(y, t);
    case DoYield => YieldHasEffect(y);
    case DoFinish => FinishHasEffect(y);
    case DoCreate(q, o) =>
  }

  lemma ReleaseByOther(y: System, l: Queue)
    requires IsLock(y, l) && y.kernel.current.Some? && !Owns(y, l)
    ensures Release(y, l) == y
  {
  }

  lemma WaitByOther(y: System, c: Queue, l: Queue)
    requires IsLock(y, l) && y.kernel.current.Some? && !Owns(y, l)
    ensures Wait(y, c, l) == y
  {
  }

  lemma ForkHasEffect(y: System, t: Thread)
    ensures CallEffect(y, y.(kernel := MakeReady(y.kernel, t), doing := y.doing[t := Free]), DoFork(t))
  {
  }

  lemma YieldHasEffect(y: System)
    requires y.kernel.current.Some?
    ensures DoesYield(y, y.(kernel := Yield(y.kernel)))
  {
  }

  lemma FinishHasEffect(y: System)
    requires y.kernel.current.Some?
    ensures CallEffect(y, y.(kernel := Finish(y.kernel), doing := y.doing - {y.kernel.current.value}), DoFinish)
  {
  }

  /** Coming back from Sleep changes only what the thread itself is doing. */
  lemma BackToP(y: System, x: System, z: System, s: Queue)
    requires y.kernel.current.Some? && x.kernel == y.kernel && x.objects == y.objects && x.doing == y.doing[y.kernel.current.value := Free]
    requires TriesP(x, z, s)
    ensures TriesP(y, z, s)
  {
    var t := y.kernel.current.value;
    assert x.doing[t := Free] == y.doing[t := Free] && x.doing[t := InP(s)] == y.doing[t := InP(s)];
    hide On;
  }

  lemma BackToAcquire(y: System, x: System, z: System, l: Queue)
    requires y.kernel.current.Some? && x.kernel == y.kernel && x.objects == y.objects && x.doing == y.doing[y.kernel.current.value := Free]
    requires TriesAcquire(x, z, l)
    ensures TriesAcquire(y, z, l)
  {
    var t := y.kernel.current.value;
    assert x.doing[t := Free] == y.doing[t := Free] && x.doing[t := InAcquire(l)] == y.doing[t := InAcquire(l)];
    hide On;
  }

  lemma FitsNow(y: System)
    requires Inv(y) && y.kernel.current.Some? && y.kernel.current.value in y.doing
    ensures Fits(y, y.doing[y.kernel.current.value])
  {
    hide Sound, Fits;
  }

  lemma ContinueHasEffect(y: System)
    requires Inv(y) && Enabled(y, Continue)
    ensures Fits(y, y.doing[y.kernel.current.value]) && ContinueEffect(y, Resume(y))
  {
    hide Inv, Rerun, TryP, TryAcquire, On, Woken, TriesP, TriesAcquire;
    FitsNow(y);
    RerunEffect(y);
    var t, x := y.kernel.current.value, Rerun(y);
    var d := y.doing[t];
    match d
    case Free =>
    case InP(s) => TryPEffect(x, s); BackToP(y, x, TryP(x, s), s);
    case InAcquire(l) => TryAcquireEffect(x, l); BackToAcquire(y, x, TryAcquire(x, l), l);
    case InWait(_, l) => assert y.doing[t := Free][t := Relocking(l)] == y.doing[t := Relocking(l)];
    case InBlock(b) =>
    case Relocking(l) => TryAcquireEffect(x, l); BackToAcquire(y, x, TryAcquire(x, l), l);
  }

  /** Every step of the kernel has exactly its effect. */
  lemma StepEffect(y: System, e: Event)
    requires Inv(y) && Enabled(y, e)
    ensures Effect(y, Step(y, e), e)
  {
    hide Inv, Perform, Resume, V, CallEffect, ContinueEffect, DoesV;
    match e
    case Call(op) => CallHasEffect(y, op);
    case Continue => ContinueHasEffect(y);
    case Switch =>
    case Handler(s) => VHasEffect(y, s);
  }

  // ---- who gets to run ----

  /** The kernel after n yields by whoever is running. */
  function Yields(k: Kernel, n: nat): (r: Kernel)
    requires k.current.Some?
    ensures r.current.Some?
    decreases n
  {
    if n == 0 then k else Yield(Yields(k, n - 1))
  }

  /** Yielding serves the ready list in order: its n-th thread runs after n yields, the yielders queue up behind. */
  lemma {:induction false} TurnComes(k: Kernel, n: nat)
    requires k.current.Some? && 1 <= n <= |k.ready|
    ensures Yields(k, n).current == Some(k.ready[n - 1])
    ensures Yields(k, n).ready == k.ready[n..] + [k.current.value] + k.ready[..n - 1]
    decreases n
  {
    var t := k.current.value;
    if n == 1 {
      assert Yields(k, 0) == k;
      assert k.ready[1..] + [t] + k.ready[..0] == k.ready[1..] + [t];
    } else {
      TurnComes(k, n - 1);
      var s := k.ready[n - 1..] + [t] + k.ready[..n - 2];
      assert s[0] == k.ready[n - 1];
      assert s[1..] + [k.ready[n - 2]] == k.ready[n..] + [t] + k.ready[..n - 1];
    }
  }

  /** After one round everything is as it was. */
  lemma RoundRobin(k: Kernel)
    requires k.current.Some?
    ensures Yields(k, |k.ready| + 1).current == k.current && Yields(k, |k.ready| + 1).ready == k.ready
  {
    var n := |k.ready|;
    if n == 0 {
      assert Yields(k, 0) == k;
    } else {
      TurnComes(k, n);
      assert k.ready[n..] + [k.current.value] + k.ready[..n - 1] == [k.current.value] + k.ready[..n - 1];
      assert k.ready[..n - 1] + [k.ready[n - 1]] == k.ready;
    }
  }

  ghost predicate GivesProcessor(y: System, e: Event) {
    e == Switch || (e == Call(DoYield) && y.kernel.ready != [])
  }

  /** The log of dispatches gains the thread that has come to run, when the processor is given away and only then. */
  lemma DispatchLogged(y: System, e: Event)
    requires Inv(y) && Enabled(y, e)
    ensures var z := Step(y, e);
      && (if GivesProcessor(y, e) then z.kernel.current.Some? && z.kernel.dispatched == y.kernel.dispatched + [z.kernel.current.value]
          else z.kernel.dispatched == y.kernel.dispatched)
      && y.kernel.readied <= z.kernel.readied
  {
    hide Sound, On, Woken;
    match e
    case Call(op) => PerformLogs(y, op);
    case Continue => ResumeLogs(y);
    case Switch =>
    case Handler(s) => WakeLogs(y, s);
  }

  /** No dispatch, and at most more threads made ready. */
  predicate OnlyReadies(y: System, z: System) {
    z.kernel.dispatched == y.kernel.dispatched && y.kernel.readied <= z.kernel.readied
  }

  lemma WakeLogs(y: System, q: Queue)
    ensures OnlyReadies(y, WakeOne(y, q))
  {
  }

  lemma {:induction false} WakeTimesLogs(y: System, q: Queue, n: nat)
    ensures OnlyReadies(y, WakeTimes(y, q, n))
    decreases n
  {
    if n > 0 {
      WakeLogs(y, q);
      hide WakeOne;
      WakeTimesLogs(WakeOne(y, q), q, n - 1);
    }
  }

  lemma PerformLogs(y: System, op: Op)
    requires y.kernel.current.Some? && Allowed(y, op)
    ensures op != DoYield ==> OnlyReadies(y, Perform(y, op))
    ensures op == DoYield ==> y.kernel.readied <= Perform(y, op).kernel.readied
    ensures op == DoYield ==>
      Perform(y, op).kernel.dispatched == y.kernel.dispatched + if y.kernel.ready == [] then [] else [Perform(y, op).kernel.current.value]
  {
    hide On, Woken, WakeTimes, WakeOne;
    match op
    case DoV(s) => WakeLogs(y, s);
    case DoRelease(l) => WakeLogs(y, l);
    case DoWait(c, l) => WakeLogs(y, l);
    case DoSignal(c, l) => WakeLogs(y, c);
    case DoBroadcast(c, l) => WakeTimesLogs(y, c, |On(y.kernel, c)|);
    case DoBlock(b) => WakeTimesLogs(y, b, y.objects[b].count + 1);
    case _ =>
  }

  lemma ResumeLogs(y: System)
    requires Inv(y) && Enabled(y, Continue)
    ensures Fits(y, y.doing[y.kernel.current.value]) && OnlyReadies(y, Resume(y))
  {
    FitsNow(y);
    hide Inv, On, Woken;
  }

  lemma {:induction false} LogsGrow(y: System, events: seq<Event>)
    requires Inv(y) && Possible(y, events)
    ensures y.kernel.dispatched <= After(y, events).kernel.dispatched && y.kernel.readied <= After(y, events).kernel.readied
    decreases |events|
  {
    hide Inv, Enabled, Step;
    if events != [] {
      StepKeeps(y, events[0]);
      DispatchLogged(y, events[0]);
      LogsGrow(Step(y, events[0]), events[1..]);
    }
  }

  /**
   * Whatever else happens, the thread at place i of the ready list is the one that gets the processor at the
   * i-th dispatch from now.
   */
  lemma TurnIsKept(y: System, events: seq<Event>, i: nat)
    requires Inv(y) && Possible(y, events) && i < |y.kernel.ready|
    requires |y.kernel.dispatched| + i < |After(y, events).kernel.dispatched|
    ensures After(y, events).kernel.dispatched[|y.kernel.dispatched| + i] == y.kernel.ready[i]
  {
    RunKeeps(y, events);
    LogsGrow(y, events);
    var z := After(y, events);
    assert y.kernel.readied == y.kernel.dispatched + y.kernel.ready && z.kernel.readied == z.kernel.dispatched + z.kernel.ready;
    hide Inv, After, Possible;
    var n := |y.kernel.dispatched| + i;
    assert z.kernel.dispatched[n] == z.kernel.readied[n] == y.kernel.readied[n];
  }
}
