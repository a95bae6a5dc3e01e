/**
 * Semaphores, locks, conditions and barriers (threads/synch.cc) over the thread kernel.  An operation
 * runs with interrupts off from its start, or from the return of Sleep, to its end or its next Sleep:
 * each such stretch is one step.  Wait enables them again between Sleep and Acquire, so its way back is two
 * steps.  Between steps any ready thread may come to run.
 */
module Synchronization {
  import opened Collections
  import opened Threads

  /** What a thread that is asleep, or has been woken but not yet run, goes on with; Relocking is past Sleep in Wait. */
  datatype Doing =
    | Free | InP(sem: Queue) | InAcquire(lock: Queue) | InWait(cond: Queue, lock: Queue) | InBlock(barrier: Queue)
    | Relocking(lock: Queue)

  /**
   * downs and ups count the completed P and V operations.  A lock is locked when it has an owner;
   * inside holds the threads between Acquire and their Release.  Arrivals at a barrier are numbered by
   * ticket; groups and released count those let go, left those that have returned from block.
   */
  datatype Object =
    | Semaphore(initial: nat, value: nat, downs: nat, ups: nat)
    | Lock(owner: Option<Thread>, inside: set<Thread>)
    | Condition
    | Barrier(size: nat, count: nat, arrived: nat, groups: nat, released: nat, left: nat, ticket: map<Thread, nat>)

  /** An object and its wait queue go by the same number. */
  datatype System = System(
    kernel: Kernel,
    doing: map<Thread, Doing>,
    woken: map<Queue, set<Thread>>, // taken off each queue and not yet run again
    objects: map<Queue, Object>)

  function Woken(y: System, q: Queue): set<Thread> {
    if q in y.woken then y.woken[q] else {}
  }

  function AsleepOn(d: Doing): Option<Queue> {
    match d
    case Free => None
    case InP(s) => Some(s)
    case InAcquire(l) => Some(l)
    case InWait(c, _) => Some(c)
    case InBlock(b) => Some(b)
    case Relocking(_) => None
  }

  // ---- threads, their queues and what they are doing ----

  /** The threads asleep for q are those on its queue and those woken from it, and none is both. */
  ghost predicate Split(queue: seq<Thread>, woken: set<Thread>, doing: map<Thread, Doing>, q: Queue) {
    && (forall t :: t in queue ==> t !in woken)
    && (forall t :: t in queue || t in woken <==> t in doing && AsleepOn(doing[t]) == Some(q))
  }

  /** A thread that is doing something either waits on the queue for it or has been woken from it. */
  ghost predicate Consistent(y: System) {
    && y.doing.Keys == y.kernel.where.Keys
    && (forall q :: Split(On(y.kernel, q), Woken(y, q), y.doing, q))
  }

  ghost predicate Base(y: System) {
    Orderly(y.kernel) && Consistent(y)
  }

  /** Take the head of the queue, if any, and make it ready. */
  function WakeOne(y: System, q: Queue): System {
    if On(y.kernel, q) == [] then y
    else y.(kernel := Wake(y.kernel, q), woken := y.woken[q := Woken(y, q) + {On(y.kernel, q)[0]}])
  }

  /** The running thread goes to sleep on q. */
  function Sleep(y: System, q: Queue, d: Doing): System
    requires y.kernel.current.Some?
  {
    y.(kernel := SleepOn(y.kernel, q), doing := y.doing[y.kernel.current.value := d])
  }

  /** The running thread is back from Sleep. */
  function Rerun(y: System): System
    requires y.kernel.current.Some? && y.kernel.current.value in y.doing
  {
    var t := y.kernel.current.value;
    var d := y.doing[t];
    var q := AsleepOn(d);
    y.(doing := y.doing[t := Free], woken := if q.Some? then y.woken[q.value := Woken(y, q.value) - {t}] else y.woken)
  }

  lemma HeadOnce(k: Kernel, q: Queue)
    requires Orderly(k) && On(k, q) != []
    ensures On(k, q)[0] in k.where && On(k, q)[0] !in On(k, q)[1..] && forall t :: t in On(k, q) <==> t == On(k, q)[0] || t in On(k, q)[1..]
  {
    assert Holds(On(k, q), k.where, Waiting(q));
  }

  /** What WakeOne does to the queues: q loses its head to the woken, the others stay. */
  lemma WakeOneEffect(y: System, q: Queue)
    ensures var z := WakeOne(y, q); z.kernel.current == y.kernel.current && z.doing == y.doing && z.objects == y.objects
    ensures var z := WakeOne(y, q); forall p :: p != q ==> On(z.kernel, p) == On(y.kernel, p) && Woken(z, p) == Woken(y, p)
    ensures var z := WakeOne(y, q);
      if On(y.kernel, q) == [] then z == y
      else On(z.kernel, q) == On(y.kernel, q)[1..] && Woken(z, q) == Woken(y, q) + {On(y.kernel, q)[0]}
  {
  }

  lemma WakeOneBase(y: System, q: Queue)
    requires Base(y)
    ensures Base(WakeOne(y, q))
    ensures On(y.kernel, q) != [] ==> On(y.kernel, q)[0] !in Woken(y, q)
  {
    WakeOneEffect(y, q);
    WakeOrderly(y.kernel, q);
    if On(y.kernel, q) != [] {
      HeadOnce(y.kernel, q);
      var z := WakeOne(y, q);
      assert z.kernel.where.Keys == y.kernel.where.Keys;
      hide Orderly, Wake, WakeOne, On, Woken;
      assert Split(On(y.kernel, q), Woken(y, q), y.doing, q);
      assert Split(On(z.kernel, q), Woken(z, q), z.doing, q);
      forall p | p != q ensures Split(On(z.kernel, p), Woken(z, p), z.doing, p) {
        assert Split(On(y.kernel, p), Woken(y, p), y.doing, p);
      }
    }
  }

  /** What Sleep does to the queues: q gains the running thread at its end. */
  lemma SleepEffect(y: System, q: Queue, d: Doing)
    requires y.kernel.current.Some?
    ensures var z := Sleep(y, q, d); z.kernel.current == None && z.woken == y.woken && z.doing == y.doing[y.kernel.current.value := d]
    ensures var z := Sleep(y, q, d); On(z.kernel, q) == On(y.kernel, q) + [y.kernel.current.value]
    ensures var z := Sleep(y, q, d); forall p :: (p != q ==> On(z.kernel, p) == On(y.kernel, p)) && Woken(z, p) == Woken(y, p)
  {
  }

  ghost predicate RunningFree(y: System) {
    y.kernel.current.Some? && y.kernel.current.value in y.doing && y.doing[y.kernel.current.value] == Free
  }

  lemma SplitSleeps(queue: seq<Thread>, woken: set<Thread>, doing: map<Thread, Doing>, p: Queue, t: Thread, d: Doing)
    requires Split(queue, woken, doing, p) && t in doing && doing[t] == Free
    ensures Split(if AsleepOn(d) == Some(p) then queue + [t] else queue, woken, doing[t := d], p)
  {
  }

  lemma SleepBase(y: System, q: Queue, d: Doing)
    requires Base(y) && RunningFree(y) && AsleepOn(d) == Some(q)
    ensures Base(Sleep(y, q, d))
  {
    SleepEffect(y, q, d);
    SleepOrderly(y.kernel, q);
    var z, t := Sleep(y, q, d), y.kernel.current.value;
    assert z.kernel.where.Keys == y.kernel.where.Keys + {t};
    hide Orderly, SleepOn, Sleep, On, Woken;
    hide Split;
    forall p ensures Split(On(z.kernel, p), Woken(z, p), z.doing, p) {
      SplitSleeps(On(y.kernel, p), Woken(y, p), y.doing, p, t, d);
    }
  }

  lemma RerunBase(y: System)
    requires Base(y) && y.kernel.current.Some?
    ensures y.kernel.current.value in y.doing && Base(Rerun(y)) && RunningFree(Rerun(y))
    ensures var t, z := y.kernel.current.value, Rerun(y);
      && z.kernel == y.kernel
      && (forall p: Queue :: AsleepOn(y.doing[t]) != Some(p) ==> Woken(z, p) == Woken(y, p))
      && (forall p: Queue :: AsleepOn(y.doing[t]) == Some(p) ==> t in Woken(y, p) && Woken(z, p) == Woken(y, p) - {t})
  {
    var t := y.kernel.current.value;
    CurrentRuns(y.kernel);
    assert t in y.doing.Keys;
    var z := Rerun(y);
    forall p ensures t !in On(y.kernel, p) {
      assert Holds(On(y.kernel, p), y.kernel.where, Waiting(p));
    }
    hide Orderly, On;
    forall p ensures Split(On(z.kernel, p), Woken(z, p), z.doing, p) {
      assert Split(On(y.kernel, p), Woken(y, p), y.doing, p);
    }
  }

  // ---- what each object keeps ----

  function Holder(owner: Option<Thread>): set<Thread> {
    if owner.Some? then {owner.value} else {}
  }

  /** The value is what the operations make it, and waiters are left only to those already woken. */
  ghost predicate SemaphoreOk(o: Object, queue: seq<Thread>, woken: nat)
    requires o.Semaphore?
  {
    o.value + o.downs == o.initial + o.ups && (queue != [] ==> o.value <= woken)
  }

  /** One thread at most is inside, the owner, and waiters have an owner or a woken waiter ahead of them. */
  ghost predicate LockOk(o: Object, queue: seq<Thread>, woken: set<Thread>)
    requires o.Lock?
  {
    o.inside == Holder(o.owner) && (queue != [] ==> o.owner.Some? || woken != {})
  }

  function Whole(groups: nat, size: nat): nat {
    groups * size
  }

  /** The queue is the group still forming; whole groups are released, and leave in their own time. */
  ghost predicate BarrierOk(o: Object, queue: seq<Thread>, woken: set<Thread>)
    requires o.Barrier?
  {
    && |queue| == o.count < o.size && o.arrived == o.released + o.count
    && o.released == Whole(o.groups, o.size) && o.left + |woken| == o.released
    && (forall j :: 0 <= j < |queue| ==> queue[j] in o.ticket && o.ticket[queue[j]] == o.released + j)
    && (forall t :: t in woken ==> t in o.ticket && o.ticket[t] < o.released)
  }

  ghost predicate Ok(o: Object, queue: seq<Thread>, woken: set<Thread>) {
    match o
    case Semaphore(_, _, _, _) => SemaphoreOk(o, queue, |woken|)
    case Lock(_, _) => LockOk(o, queue, woken)
    case Condition => true
    case Barrier(_, _, _, _, _, _, _) => BarrierOk(o, queue, woken)
  }

  ghost predicate OkAt(y: System, q: Queue) {
    q in y.objects ==> Ok(y.objects[q], On(y.kernel, q), Woken(y, q))
  }

  ghost predicate Sound(y: System) {
    Base(y) && forall q :: OkAt(y, q)
  }

  /** Nothing happened at q. */
  ghost predicate Unchanged(y: System, z: System, q: Queue) {
    && On(z.kernel, q) == On(y.kernel, q) && Woken(z, q) == Woken(y, q)
    && (q in z.objects <==> q in y.objects) && (q in y.objects ==> z.objects[q] == y.objects[q])
  }

  lemma OnlyAt(y: System, z: System, q: Queue)
    requires forall p :: OkAt(y, p)
    requires OkAt(z, q) && forall p :: p != q ==> Unchanged(y, z, p)
    ensures forall p :: OkAt(z, p)
  {
    hide Ok, On, Woken;
    forall p ensures OkAt(z, p) {
      if p != q {
        assert Unchanged(y, z, p) && OkAt(y, p);
      }
    }
  }

  // ---- the operations ----

  function Put(y: System, q: Queue, o: Object): System {
    y.(objects := y.objects[q := o])
  }

  lemma PutBase(y: System, q: Queue, o: Object)
    requires Base(y)
    ensures Base(Put(y, q, o)) && forall p :: On(Put(y, q, o).kernel, p) == On(y.kernel, p) && Woken(Put(y, q, o), p) == Woken(y, p)
  {
    hide Orderly, Split;
    var z := Put(y, q, o);
    forall p ensures Split(On(z.kernel, p), Woken(z, p), z.doing, p) {
      assert Split(On(y.kernel, p), Woken(y, p), y.doing, p);
    }
  }

  /** The loop of P: to sleep while the value is zero, else take one. */
  function TryP(y: System, s: Queue): System
    requires y.kernel.current.Some? && s in y.objects && y.objects[s].Semaphore?
  {
    var o := y.objects[s];
    if o.value == 0 then Sleep(y, s, InP(s)) else Put(y, s, o.(value := o.value - 1, downs := o.downs + 1))
  }

  function V(y: System, s: Queue): System
    requires s in y.objects && y.objects[s].Semaphore?
  {
    var o := y.objects[s];
    Put(WakeOne(y, s), s, o.(value := o.value + 1, ups := o.ups + 1))
  }

  /** The invariant but for semaphore s, which may have just lost a woken waiter that has yet to try. */
  ghost predicate Slack(y: System, s: Queue) {
    && Base(y) && RunningFree(y) && (forall q :: q != s ==> OkAt(y, q))
    && s in y.objects && y.objects[s].Semaphore?
    && SemaphoreOk(y.objects[s], On(y.kernel, s), |Woken(y, s)| + 1)
  }

  lemma TryPSound(y: System, s: Queue)
    requires Slack(y, s)
    ensures Sound(TryP(y, s))
  {
    hide Base, On, Woken, Sleep;
    var o, z := y.objects[s], TryP(y, s);
    if o.value == 0 {
      SleepBase(y, s, InP(s));
      SleepEffect(y, s, InP(s));
      SleepKeepsObjects(y, s, InP(s));
    } else {
      PutBase(y, s, z.objects[s]);
    }
    assert OkAt(z, s);
    forall p | p != s ensures OkAt(z, p) {
      assert OkAt(y, p);
    }
  }

  lemma VSound(y: System, s: Queue)
    requires Sound(y) && s in y.objects && y.objects[s].Semaphore?
    ensures Sound(V(y, s)) && V(y, s).kernel.current == y.kernel.current && V(y, s).doing == y.doing
  {
    hide Base, WakeOne, On, Woken;
    WakeOneBase(y, s);
    WakeOneEffect(y, s);
    var z := V(y, s);
    PutBase(WakeOne(y, s), s, z.objects[s]);
    assert OkAt(y, s);
    assert OkAt(z, s);
    OnlyAt(y, z, s);
  }

  /** The loop of Acquire: to sleep while another thread owns the lock, else own it. */
  function TryAcquire(y: System, l: Queue): System
    requires y.kernel.current.Some? && l in y.objects && y.objects[l].Lock?
  {
    var t, o := y.kernel.current.value, y.objects[l];
    if o.owner.Some? && o.owner != Some(t) then Sleep(y, l, InAcquire(l))
    else Put(y, l, o.(owner := Some(t), inside := o.inside + {t}))
  }

  /** Release by any thread but the owner does nothing. */
  function Release(y: System, l: Queue): System
    requires y.kernel.current.Some? && l in y.objects && y.objects[l].Lock?
  {
    var t, o := y.kernel.current.value, y.objects[l];
    if o.owner != Some(t) then y
    else Put(WakeOne(y, l), l, o.(owner := None, inside := o.inside - {t}))
  }

  /** The invariant but that lock l may have lost a woken waiter that has yet to try. */
  ghost predicate Trying(y: System, l: Queue) {
    && Base(y) && RunningFree(y) && (forall q :: q != l ==> OkAt(y, q))
    && l in y.objects && y.objects[l].Lock? && y.objects[l].inside == Holder(y.objects[l].owner)
  }

  lemma TryAcquireSound(y: System, l: Queue)
    requires Trying(y, l)
    ensures Sound(TryAcquire(y, l))
  {
    hide Base, On, Woken, Sleep;
    var t, o, z := y.kernel.current.value, y.objects[l], TryAcquire(y, l);
    if o.owner.Some? && o.owner != Some(t) {
      SleepBase(y, l, InAcquire(l));
      SleepEffect(y, l, InAcquire(l));
      SleepKeepsObjects(y, l, InAcquire(l));
    } else {
      PutBase(y, l, z.objects[l]);
    }
    assert OkAt(z, l);
    forall p | p != l ensures OkAt(z, p) {
      assert OkAt(y, p);
    }
  }

  lemma ReleaseSound(y: System, l: Queue)
    requires Sound(y) && RunningFree(y) && l in y.objects && y.objects[l].Lock?
    ensures Sound(Release(y, l)) && RunningFree(Release(y, l)) && Release(y, l).kernel.current == y.kernel.current
  {
    hide Base, WakeOne, On, Woken;
    var t, o, z := y.kernel.current.value, y.objects[l], Release(y, l);
    if o.owner == Some(t) {
      WakeOneBase(y, l);
      WakeOneEffect(y, l);
      PutBase(WakeOne(y, l), l, z.objects[l]);
      assert OkAt(y, l);
      assert OkAt(z, l);
      OnlyAt(y, z, l);
    }
  }

  /** Wait gives the lock up and sleeps on the condition; Acquire follows when the thread runs again. */
  function Wait(y: System, c: Queue, l: Queue): System
    requires y.kernel.current.Some? && l in y.objects && y.objects[l].Lock?
  {
    if y.objects[l].owner != y.kernel.current then y else Sleep(Release(y, l), c, InWait(c, l))
  }

  function Signal(y: System, c: Queue, l: Queue): System
    requires y.kernel.current.Some? && l in y.objects && y.objects[l].Lock?
  {
    if y.objects[l].owner != y.kernel.current then y else WakeOne(y, c)
  }

  /** The loop of Broadcast: n wakes empty a queue of n. */
  function WakeTimes(y: System, q: Queue, n: nat): System
    decreases n
  {
    if n == 0 then y else WakeTimes(WakeOne(y, q), q, n - 1)
  }

  function Broadcast(y: System, c: Queue, l: Queue): System
    requires y.kernel.current.Some? && l in y.objects && y.objects[l].Lock?
  {
    if y.objects[l].owner != y.kernel.current then y else WakeTimes(y, c, |On(y.kernel, c)|)
  }

  lemma WaitSound(y: System, c: Queue, l: Queue)
    requires Sound(y) && RunningFree(y) && l in y.objects && y.objects[l].Lock? && c in y.objects && y.objects[c].Condition?
    ensures Sound(Wait(y, c, l))
  {
    hide Base, On, Woken, Sleep, WakeOne;
    ReleaseSound(y, l);
    var r := Release(y, l);
    if y.objects[l].owner == y.kernel.current {
      SleepBase(r, c, InWait(c, l));
      SleepEffect(r, c, InWait(c, l));
      SleepKeepsObjects(r, c, InWait(c, l));
      WakeOneEffect(y, l);
      var z := Wait(y, c, l);
      assert OkAt(z, c);
      OnlyAt(r, z, c);
    }
  }

  lemma SignalSound(y: System, c: Queue, l: Queue)
    requires Sound(y) && RunningFree(y) && l in y.objects && y.objects[l].Lock? && c in y.objects && y.objects[c].Condition?
    ensures Sound(Signal(y, c, l))
  {
    WakeConditionSound(y, c);
  }

  lemma WakeConditionSound(y: System, c: Queue)
    requires Sound(y) && c in y.objects && y.objects[c].Condition?
    ensures Sound(WakeOne(y, c)) && WakeOne(y, c).objects == y.objects
  {
    hide Base, On, Woken, WakeOne;
    WakeOneBase(y, c);
    WakeOneEffect(y, c);
    var z := WakeOne(y, c);
    assert OkAt(z, c);
    OnlyAt(y, z, c);
  }

  lemma {:induction false} BroadcastSound(y: System, c: Queue, n: nat)
    requires Sound(y) && c in y.objects && y.objects[c].Condition?
    ensures Sound(WakeTimes(y, c, n)) && WakeTimes(y, c, n).objects == y.objects
    decreases n
  {
    hide Sound, WakeOne;
    if n > 0 {
      WakeConditionSound(y, c);
      BroadcastSound(WakeOne(y, c), c, n - 1);
    }
  }

  /** Barrier::block: the thread that completes the group wakes the others and goes on. */
  function Block(y: System, b: Queue): System
    requires y.kernel.current.Some? && b in y.objects && y.objects[b].Barrier?
  {
    var t, o := y.kernel.current.value, y.objects[b];
    var n := o.count + 1;
    if n >= o.size then Put(WakeTimes(y, b, n), b, Completed(o, t))
    else Sleep(Put(y, b, Joined(o, t)), b, InBlock(b))
  }

  function Members(s: seq<Thread>): set<Thread> {
    if s == [] then {} else {s[0]} + Members(s[1..])
  }

  lemma {:induction false} MembersAre(s: seq<Thread>)
    ensures forall t :: t in Members(s) <==> t in s
  {
    if s != [] {
      MembersAre(s[1..]);
    }
  }

  /** z is y with the whole queue of q moved to the woken, and nothing else touched. */
  ghost predicate Emptied(y: System, z: System, q: Queue) {
    && z.kernel.current == y.kernel.current && z.doing == y.doing && z.objects == y.objects
    && (forall p :: p != q ==> On(z.kernel, p) == On(y.kernel, p) && Woken(z, p) == Woken(y, p))
    && On(z.kernel, q) == [] && Woken(z, q) == Woken(y, q) + Members(On(y.kernel, q))
    && |Woken(z, q)| == |Woken(y, q)| + |On(y.kernel, q)|
  }

  lemma EmptiedFirst(y: System, x: System, z: System, q: Queue)
    requires On(y.kernel, q) != [] && x == WakeOne(y, q) && Emptied(x, z, q) && On(y.kernel, q)[0] !in Woken(y, q)
    ensures Emptied(y, z, q)
  {
    WakeOneEffect(y, q);
    hide WakeOne, On, Woken;
  }

  lemma NoneToWake(y: System, q: Queue)
    requires On(y.kernel, q) == []
    ensures Emptied(y, y, q)
  {
    hide On, Woken;
    assert Members([]) == {};
  }

  lemma {:induction false} WakeAll(y: System, q: Queue, n: nat)
    requires Base(y) && |On(y.kernel, q)| <= n
    ensures Base(WakeTimes(y, q, n)) && Emptied(y, WakeTimes(y, q, n), q)
    decreases n
  {
    hide Base, WakeOne, Emptied, On, Woken;
    if n == 0 {
      NoneToWake(y, q);
    } else {
      var x := WakeOne(y, q);
      WakeOneBase(y, q);
      WakeOneEffect(y, q);
      WakeAll(x, q, n - 1);
      if On(y.kernel, q) != [] {
        EmptiedFirst(y, x, WakeTimes(x, q, n - 1), q);
      }
    }
  }

  /** Broadcast by the owner of the lock wakes every thread on the condition, by anyone else none. */
  lemma BroadcastWakesAll(y: System, c: Queue, l: Queue)
    requires Base(y) && y.kernel.current.Some? && l in y.objects && y.objects[l].Lock?
    ensures var z := Broadcast(y, c, l); if y.objects[l].owner == y.kernel.current then Emptied(y, z, c) else z == y
  {
    hide Base, WakeTimes, Emptied;
    WakeAll(y, c, |On(y.kernel, c)|);
  }

  function Joined(o: Object, t: Thread): (r: Object)
    requires o.Barrier?
    ensures r.Barrier?
  {
    o.(count := o.count + 1, arrived := o.arrived + 1, ticket := o.ticket[t := o.arrived])
  }

  function Completed(o: Object, t: Thread): (r: Object)
    requires o.Barrier?
    ensures r.Barrier?
  {
    Barrier(o.size, 0, o.arrived + 1, o.groups + 1, o.released + o.count + 1, o.left + 1, o.ticket[t := o.arrived])
  }

  lemma BarrierJoins(o: Object, queue: seq<Thread>, woken: set<Thread>, t: Thread)
    requires o.Barrier? && BarrierOk(o, queue, woken) && o.count + 1 < o.size && t !in queue && t !in woken
    ensures BarrierOk(Joined(o, t), queue + [t], woken)
  {
  }

  lemma BarrierCompletes(o: Object, queue: seq<Thread>, woken: set<Thread>, t: Thread, woken': set<Thread>)
    requires o.Barrier? && BarrierOk(o, queue, woken) && o.count + 1 >= o.size && t !in queue && t !in woken
    requires woken' == woken + Members(queue) && |woken'| == |woken| + |queue|
    ensures BarrierOk(Completed(o, t), [], woken')
  {
    MembersAre(queue);
    OneGroupMore(o.groups, o.size);
    hide Whole;
  }

  lemma OneGroupMore(groups: nat, size: nat)
    ensures Whole(groups + 1, size) == Whole(groups, size) + size
  {
  }

  lemma RunningIsNotAsleep(y: System, q: Queue)
    requires Base(y) && RunningFree(y)
    ensures y.kernel.current.value !in Woken(y, q) && y.kernel.current.value !in On(y.kernel, q)
  {
    assert Split(On(y.kernel, q), Woken(y, q), y.doing, q);
  }

  lemma BlockWakes(y: System, b: Queue)
    requires Sound(y) && RunningFree(y) && b in y.objects && y.objects[b].Barrier? && y.objects[b].count + 1 >= y.objects[b].size
    ensures Sound(Block(y, b))
  {
    hide Base, WakeTimes, On, Woken, BarrierOk, Completed, Joined;
    var t, o, z := y.kernel.current.value, y.objects[b], Block(y, b);
    assert OkAt(y, b);
    RunningIsNotAsleep(y, b);
    QueueShorter(o, On(y.kernel, b), Woken(y, b));
    WakeAll(y, b, o.count + 1);
    var x := WakeTimes(y, b, o.count + 1);
    BarrierCompletes(o, On(y.kernel, b), Woken(y, b), t, Woken(x, b));
    PutBase(x, b, Completed(o, t));
    assert OkAt(z, b);
    OnlyAt(y, z, b);
  }

  lemma QueueShorter(o: Object, queue: seq<Thread>, woken: set<Thread>)
    requires o.Barrier? && BarrierOk(o, queue, woken)
    ensures |queue| == o.count
  {
  }

  lemma BlockSleeps(y: System, b: Queue)
    requires Sound(y) && RunningFree(y) && b in y.objects && y.objects[b].Barrier? && y.objects[b].count + 1 < y.objects[b].size
    ensures Sound(Block(y, b))
  {
    hide Base, Sleep, WakeTimes, On, Woken, BarrierOk, Completed, Joined;
    var t, o, z := y.kernel.current.value, y.objects[b], Block(y, b);
    var w := Put(y, b, Joined(o, t));
    assert OkAt(y, b);
    RunningIsNotAsleep(y, b);
    BarrierJoins(o, On(y.kernel, b), Woken(y, b), t);
    PutBase(y, b, Joined(o, t));
    SleepBase(w, b, InBlock(b));
    SleepEffect(w, b, InBlock(b));
    SleepKeepsObjects(w, b, InBlock(b));
    assert OkAt(z, b);
    OnlyAt(y, z, b);
  }

  lemma SleepKeepsObjects(y: System, q: Queue, d: Doing)
    requires y.kernel.current.Some?
    ensures Sleep(y, q, d).objects == y.objects
  {
  }

  /** A released thread returns from block. */
  function Leave(y: System, b: Queue): System
    requires b in y.objects && y.objects[b].Barrier?
  {
    Put(y, b, y.objects[b].(left := y.objects[b].left + 1))
  }
}
