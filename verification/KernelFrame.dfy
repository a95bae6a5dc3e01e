/** What a step of the kernel leaves alone: the parts a client of the kernel relies on. */
module KernelFrame {
  import opened Collections
  import opened Threads
  import opened Synchronization
  import opened KernelRuns

  /** The operation or sleep concerns object q. */
  predicate Names(op: Op, q: Queue) {
    match op
    case DoP(s) => s == q
    case DoV(s) => s == q
    case DoAcquire(l) => l == q
    case DoRelease(l) => l == q
    case DoWait(c, l) => c == q || l == q
    case DoSignal(c, l) => c == q
    case DoBroadcast(c, l) => c == q
    case DoBlock(b) => b == q
    case DoFork(_) => false
    case DoYield => false
    case DoFinish => false
    case DoCreate(p, _) => p == q
  }

  predicate Concerns(d: Doing, q: Queue) {
    AsleepOn(d) == Some(q) || ((d.InWait? || d.Relocking?) && d.lock == q)
  }

  ghost predicate Involves(y: System, e: Event, q: Queue) {
    match e
    case Call(op) => Names(op, q)
    case Continue => y.kernel.current.Some? && y.kernel.current.value in y.doing && Concerns(y.doing[y.kernel.current.value], q)
    case Switch => false
    case Handler(s) => s == q
  }

  lemma ComposeUnchanged(x: System, y: System, z: System, q: Queue)
    requires Unchanged(x, y, q) && Unchanged(y, z, q)
    ensures Unchanged(x, z, q)
  {
  }

  lemma SleepElsewhere(y: System, p: Queue, d: Doing, q: Queue)
    requires y.kernel.current.Some? && p != q
    ensures Unchanged(y, Sleep(y, p, d), q)
  {
    SleepEffect(y, p, d);
  }

  lemma WakeElsewhere(y: System, p: Queue, q: Queue)
    requires p != q
    ensures Unchanged(y, WakeOne(y, p), q)
  {
    WakeOneEffect(y, p);
  }

  lemma {:induction false} WakeTimesElsewhere(y: System, p: Queue, n: nat, q: Queue)
    requires p != q
    ensures Unchanged(y, WakeTimes(y, p, n), q)
    decreases n
  {
    hide WakeOne, On, Woken;
    if n > 0 {
      WakeElsewhere(y, p, q);
      WakeTimesElsewhere(WakeOne(y, p), p, n - 1, q);
    }
  }

  lemma PutElsewhere(y: System, p: Queue, o: Object, q: Queue)
    requires p != q
    ensures Unchanged(y, Put(y, p, o), q)
  {
  }

  lemma TryPElsewhere(y: System, s: Queue, q: Queue)
    requires y.kernel.current.Some? && IsSemaphore(y, s) && s != q
    ensures Unchanged(y, TryP(y, s), q)
  {
    hide Sleep, Put, Unchanged;
    var o := y.objects[s];
    if o.value == 0 {
      SleepElsewhere(y, s, InP(s), q);
    } else {
      PutElsewhere(y, s, o.(value := o.value - 1, downs := o.downs + 1), q);
    }
  }

  lemma TryAcquireElsewhere(y: System, l: Queue, q: Queue)
    requires y.kernel.current.Some? && IsLock(y, l) && l != q
    ensures Unchanged(y, TryAcquire(y, l), q)
  {
    hide Sleep, Put, Unchanged;
    var t, o := y.kernel.current.value, y.objects[l];
    if o.owner.Some? && o.owner != Some(t) {
      SleepElsewhere(y, l, InAcquire(l), q);
    } else {
      PutElsewhere(y, l, o.(owner := Some(t), inside := o.inside + {t}), q);
    }
  }

  lemma VElsewhere(y: System, s: Queue, q: Queue)
    requires IsSemaphore(y, s) && s != q
    ensures Unchanged(y, V(y, s), q)
  {
    WakeElsewhere(y, s, q);
    hide WakeOne, On, Woken;
  }

  lemma ReleaseElsewhere(y: System, l: Queue, q: Queue)
    requires y.kernel.current.Some? && IsLock(y, l) && l != q
    ensures Unchanged(y, Release(y, l), q) && Release(y, l).kernel.current == y.kernel.current
  {
    WakeElsewhere(y, l, q);
    WakeOneEffect(y, l);
    hide WakeOne, On, Woken;
  }

  lemma BlockElsewhere(y: System, b: Queue, q: Queue)
    requires y.kernel.current.Some? && IsBarrier(y, b) && b != q
    ensures Unchanged(y, Block(y, b), q)
  {
    hide WakeTimes, Sleep, On, Woken, Joined, Completed, Unchanged, Put;
    var t, o := y.kernel.current.value, y.objects[b];
    if o.count + 1 >= o.size {
      WakeTimesElsewhere(y, b, o.count + 1, q);
      PutElsewhere(WakeTimes(y, b, o.count + 1), b, Completed(o, t), q);
      ComposeUnchanged(y, WakeTimes(y, b, o.count + 1), Block(y, b), q);
    } else {
      PutElsewhere(y, b, Joined(o, t), q);
      assert Put(y, b, Joined(o, t)).kernel == y.kernel by { PutKernel(y, b, Joined(o, t)); }
      SleepElsewhere(Put(y, b, Joined(o, t)), b, InBlock(b), q);
      ComposeUnchanged(y, Put(y, b, Joined(o, t)), Block(y, b), q);
    }
  }

  lemma PutKernel(y: System, q: Queue, o: Object)
    ensures Put(y, q, o).kernel == y.kernel && Put(y, q, o).doing == y.doing
  {
  }

  lemma WaitElsewhere(y: System, c: Queue, l: Queue, q: Queue)
    requires y.kernel.current.Some? && IsLock(y, l) && c != q && l != q
    ensures Unchanged(y, Wait(y, c, l), q)
  {
    hide Sleep, Release, Unchanged;
    ReleaseElsewhere(y, l, q);
    InvisibleToItself(y, q);
    if y.objects[l].owner == y.kernel.current {
      SleepElsewhere(Release(y, l), c, InWait(c, l), q);
      ComposeUnchanged(y, Release(y, l), Wait(y, c, l), q);
    }
  }

  lemma InvisibleToItself(y: System, q: Queue)
    ensures Unchanged(y, y, q)
  {
  }

  lemma PerformElsewhere(y: System, op: Op, q: Queue)
    requires y.kernel.current.Some? && Allowed(y, op) && !Names(op, q)
    ensures Unchanged(y, Perform(y, op), q)
  {
    hide TryP, V, TryAcquire, Release, Wait, WakeTimes, WakeOne, Block;
    InvisibleToItself(y, q);
    match op
    case DoP(s) => TryPElsewhere(y, s, q);
    case DoV(s) => VElsewhere(y, s, q);
    case DoAcquire(l) => TryAcquireElsewhere(y, l, q);
    case DoRelease(l) => ReleaseElsewhere(y, l, q);
    case DoWait(c, l) => WaitElsewhere(y, c, l, q);
    case DoSignal(c, l) => WakeElsewhere(y, c, q);
    case DoBroadcast(c, l) => WakeTimesElsewhere(y, c, |On(y.kernel, c)|, q);
    case DoBlock(b) => BlockElsewhere(y, b, q);
    case DoFork(t) =>
    case DoYield =>
    case DoFinish =>
    case DoCreate(p, o) =>
  }

  lemma RerunElsewhere(y: System, q: Queue)
    requires y.kernel.current.Some? && y.kernel.current.value in y.doing && AsleepOn(y.doing[y.kernel.current.value]) != Some(q)
    ensures Unchanged(y, Rerun(y), q)
  {
  }

  lemma ResumeElsewhere(y: System, q: Queue)
    requires y.kernel.current.Some? && y.kernel.current.value in y.doing && Fits(y, y.doing[y.kernel.current.value])
    requires !Concerns(y.doing[y.kernel.current.value], q)
    ensures Unchanged(y, Resume(y), q)
  {
    RerunElsewhere(y, q);
    RerunKeepsObjects(y);
    hide TryP, TryAcquire, Rerun, Unchanged;
    var d, z := y.doing[y.kernel.current.value], Rerun(y);
    assert z.kernel == y.kernel by { RerunKernel(y); }
    match d
    case Free =>
    case InP(s) => TryPElsewhere(z, s, q); ComposeUnchanged(y, z, Resume(y), q);
    case InAcquire(l) => TryAcquireElsewhere(z, l, q); ComposeUnchanged(y, z, Resume(y), q);
    case InWait(_, l) => RelockElsewhere(z, l, q); ComposeUnchanged(y, z, Resume(y), q);
    case InBlock(b) =>
      PutElsewhere(z, b, z.objects[b].(left := z.objects[b].left + 1), q);
      ComposeUnchanged(y, z, Resume(y), q);
    case Relocking(l) => TryAcquireElsewhere(z, l, q); ComposeUnchanged(y, z, Resume(y), q);
  }

  lemma RelockElsewhere(y: System, l: Queue, q: Queue)
    requires y.kernel.current.Some?
    ensures Unchanged(y, Relock(y, l), q)
  {
  }

  lemma RerunKernel(y: System)
    requires y.kernel.current.Some? && y.kernel.current.value in y.doing
    ensures Rerun(y).kernel == y.kernel
  {
  }

  /** An event that does not involve an object leaves it, its queue and its woken threads as they were. */
  lemma StepElsewhere(y: System, e: Event, q: Queue)
    requires Inv(y) && Enabled(y, e) && !Involves(y, e, q)
    ensures Unchanged(y, Step(y, e), q)
  {
    hide Sound, Perform, Resume, V, Unchanged;
    match e
    case Call(op) => PerformElsewhere(y, op, q);
    case Continue => ResumeElsewhere(y, q);
    case Switch => SwitchElsewhere(y, q);
    case Handler(s) => VElsewhere(y, s, q);
  }

  lemma SwitchElsewhere(y: System, q: Queue)
    requires y.kernel.ready != []
    ensures Unchanged(y, y.(kernel := Dispatch(y.kernel)), q)
  {
  }

  // ---- what threads other than the running one are doing ----

  /** No thread but the running one changes what it is doing, and none appears but a forked one. */
  ghost predicate OthersSame(y: System, z: System) {
    forall t :: y.kernel.current != Some(t) ==>
      if t in y.doing then t in z.doing && z.doing[t] == y.doing[t] else t in z.doing ==> z.doing[t] == Free
  }

  lemma TryPOthers(y: System, s: Queue)
    requires y.kernel.current.Some? && IsSemaphore(y, s)
    ensures OthersSame(y, TryP(y, s))
  {
    hide SleepOn;
  }

  lemma TryAcquireOthers(y: System, l: Queue)
    requires y.kernel.current.Some? && IsLock(y, l)
    ensures OthersSame(y, TryAcquire(y, l))
  {
    hide SleepOn;
  }

  lemma WakeDoing(y: System, q: Queue)
    ensures WakeOne(y, q).doing == y.doing && WakeOne(y, q).kernel.current == y.kernel.current
  {
  }

  lemma PerformOthers(y: System, op: Op)
    requires y.kernel.current.Some? && Allowed(y, op)
    ensures OthersSame(y, Perform(y, op))
  {
    hide On, Woken, WakeTimes, WakeOne, SleepOn, Yield, MakeReady, Finish, TryP, TryAcquire;
    match op
    case DoP(s) => TryPOthers(y, s);
    case DoV(s) => WakeDoing(y, s);
    case DoAcquire(l) => TryAcquireOthers(y, l);
    case DoRelease(l) => WakeDoing(y, l);
    case DoWait(c, l) => WakeDoing(y, l);
    case DoSignal(c, l) => WakeDoing(y, c);
    case DoBroadcast(c, l) => WakeTimesTyped(y, c, |On(y.kernel, c)|);
    case DoBlock(b) => WakeTimesTyped(y, b, y.objects[b].count + 1);
    case DoFork(t) =>
    case DoYield =>
    case DoFinish =>
    case DoCreate(q, o) =>
  }

  lemma ResumeOthers(y: System)
    requires y.kernel.current.Some? && y.kernel.current.value in y.doing && Fits(y, y.doing[y.kernel.current.value])
    ensures OthersSame(y, Resume(y))
  {
    hide Woken, TryP, TryAcquire;
    var d, z := y.doing[y.kernel.current.value], Rerun(y);
    match d
    case Free =>
    case InP(s) => TryPOthers(z, s);
    case InAcquire(l) => TryAcquireOthers(z, l);
    case InWait(_, l) =>
    case InBlock(b) =>
    case Relocking(l) => TryAcquireOthers(z, l);
  }

  lemma StepOthers(y: System, e: Event)
    requires Inv(y) && Enabled(y, e)
    ensures OthersSame(y, Step(y, e))
  {
    hide Sound, Perform, Resume, OthersSame;
    match e
    case Call(op) => PerformOthers(y, op);
    case Continue => ResumeOthers(y);
    case Switch => SwitchOthers(y);
    case Handler(s) => VOthers(y, s);
  }

  lemma SwitchOthers(y: System)
    requires y.kernel.ready != []
    ensures OthersSame(y, y.(kernel := Dispatch(y.kernel)))
  {
    hide Dispatch;
  }

  lemma VOthers(y: System, s: Queue)
    requires IsSemaphore(y, s)
    ensures OthersSame(y, V(y, s)) && V(y, s).doing == y.doing
  {
    WakeDoing(y, s);
    hide WakeOne;
  }

  // ---- what the running thread comes to do ----

  lemma PerformOwn(y: System, op: Op, q: Queue)
    requires Enabled(y, Call(op)) && !Names(op, q)
    ensures var t, z := y.kernel.current.value, Perform(y, op); RunningFree(y) && t in z.doing ==> !Concerns(z.doing[t], q)
    ensures var t, z := y.kernel.current.value, Perform(y, op); t !in z.doing ==> op == DoFinish
    ensures op == DoYield ==> Perform(y, op).doing == y.doing
  {
    hide On, Woken, WakeTimes, WakeOne, SleepOn, Yield, MakeReady, Finish;
    match op
    case DoV(s) => WakeDoing(y, s);
    case DoRelease(l) => WakeDoing(y, l);
    case DoWait(c, l) => WakeDoing(y, l);
    case DoSignal(c, l) => WakeDoing(y, c);
    case DoBroadcast(c, l) => WakeTimesTyped(y, c, |On(y.kernel, c)|);
    case DoBlock(b) => WakeTimesTyped(y, b, y.objects[b].count + 1);
    case _ =>
  }

  lemma ResumeOwn(y: System, q: Queue)
    requires y.kernel.current.Some? && y.kernel.current.value in y.doing && Fits(y, y.doing[y.kernel.current.value])
    requires !Concerns(y.doing[y.kernel.current.value], q)
    ensures var t, z := y.kernel.current.value, Resume(y); t in z.doing && !Concerns(z.doing[t], q)
  {
    hide Woken, SleepOn;
  }

  // ---- what the operations of a lock do ----

  function Owner(y: System, l: Queue): Option<Thread>
    requires IsLock(y, l)
  {
    y.objects[l].owner
  }

  /** The loop of Acquire ends with the thread asleep and nothing else changed, or owning the lock. */
  lemma AcquireEffect(y: System, l: Queue, c: Queue)
    requires y.kernel.current.Some? && IsLock(y, l) && l != c
    ensures var t, z := y.kernel.current.value, TryAcquire(y, l);
      && IsLock(z, l) && Unchanged(y, z, c)
      && if Owner(y, l).Some? && Owner(y, l) != Some(t) then z.doing == y.doing[t := InAcquire(l)] && Owner(z, l) == Owner(y, l)
         else z.doing == y.doing && Owner(z, l) == Some(t)
  {
    TryAcquireElsewhere(y, l, c);
    hide SleepOn, On, Woken;
  }

  lemma ReleaseEffect(y: System, l: Queue, c: Queue)
    requires y.kernel.current.Some? && IsLock(y, l) && Owner(y, l) == y.kernel.current && l != c
    ensures var z := Release(y, l);
      IsLock(z, l) && Owner(z, l) == None && z.doing == y.doing && z.kernel.current == y.kernel.current && Unchanged(y, z, c)
  {
    ReleaseElsewhere(y, l, c);
    WakeDoing(y, l);
    hide WakeOne, On, Woken;
  }

  lemma NotOn(y: System, q: Queue)
    requires Inv(y) && y.kernel.current.Some?
    ensures y.kernel.current.value !in On(y.kernel, q)
  {
    CurrentRuns(y.kernel);
    assert Holds(On(y.kernel, q), y.kernel.where, Waiting(q));
  }

  lemma RerunEffect(y: System)
    requires y.kernel.current.Some? && y.kernel.current.value in y.doing
    ensures var z := Rerun(y); z.kernel == y.kernel && z.objects == y.objects && z.doing == y.doing[y.kernel.current.value := Free]
  {
  }

  // ---- and of a semaphore ----

  function ValueOf(y: System, s: Queue): nat
    requires IsSemaphore(y, s)
  {
    y.objects[s].value
  }

  lemma PEffect(y: System, s: Queue, q: Queue)
    requires y.kernel.current.Some? && IsSemaphore(y, s) && s != q
    ensures var t, z := y.kernel.current.value, TryP(y, s);
      && IsSemaphore(z, s) && Unchanged(y, z, q)
      && if ValueOf(y, s) == 0 then z.doing == y.doing[t := InP(s)] && ValueOf(z, s) == 0
         else z.doing == y.doing && ValueOf(z, s) == ValueOf(y, s) - 1
  {
    TryPElsewhere(y, s, q);
    hide SleepOn, On, Woken;
  }

  lemma VEffect(y: System, s: Queue, q: Queue)
    requires IsSemaphore(y, s) && s != q
    ensures var z := V(y, s); IsSemaphore(z, s) && Unchanged(y, z, q) && z.doing == y.doing && ValueOf(z, s) == ValueOf(y, s) + 1
  {
    VElsewhere(y, s, q);
    WakeDoing(y, s);
    hide WakeOne, On, Woken;
  }
}
