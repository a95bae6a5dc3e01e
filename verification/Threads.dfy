/**
 * Where threads are: the running thread, the ready list and the wait queues, changed only by the
 * primitives of scheduler.cc and thread.cc.  A context switch is a step of its own, so any
 * interleaving the simulator can produce is a sequence of these steps.
 */
module Threads {
  import opened Collections

  type Thread = nat

  /** Each semaphore, lock, condition and barrier has a wait queue, named by a number. */
  type Queue = nat

  datatype Place = Running | OnReadyList | Waiting(queue: Queue)

  /** where is the inverse of the three; readied and dispatched log the traffic of the ready list. */
  datatype Kernel = Kernel(
    current: Option<Thread>,
    ready: seq<Thread>,
    queues: map<Queue, seq<Thread>>,
    where: map<Thread, Place>,
    readied: seq<Thread>,
    dispatched: seq<Thread>)

  function On(k: Kernel, q: Queue): seq<Thread> {
    if q in k.queues then k.queues[q] else []
  }

  // ---- the invariant ----

  /** The list holds exactly the threads whose place is p, each once. */
  ghost predicate Holds(s: seq<Thread>, where: map<Thread, Place>, p: Place) {
    Distinct(s) && forall t :: t in s <==> t in where && where[t] == p
  }

  function Front(k: Kernel): seq<Thread> {
    if k.current.Some? then [k.current.value] else []
  }

  /** Every live thread is in exactly one place, once. */
  ghost predicate Placed(k: Kernel) {
    && Holds(Front(k), k.where, Running)
    && Holds(k.ready, k.where, OnReadyList)
    && (forall q :: Holds(On(k, q), k.where, Waiting(q)))
  }

  /** Threads are dispatched in the order in which they became ready. */
  ghost predicate FirstReadyFirst(k: Kernel) {
    k.readied == k.dispatched + k.ready
  }

  ghost predicate Orderly(k: Kernel) {
    Placed(k) && FirstReadyFirst(k)
  }

  // ---- the primitives ----

  /** Scheduler::ReadyToRun for a thread that is nowhere else. */
  function MakeReady(k: Kernel, t: Thread): Kernel {
    k.(ready := k.ready + [t], where := k.where[t := OnReadyList], readied := k.readied + [t])
  }

  /** Scheduler::FindNextToRun and Run, when there is no running thread to put aside. */
  function Dispatch(k: Kernel): Kernel
    requires k.ready != []
  {
    var t := k.ready[0];
    k.(current := Some(t), ready := k.ready[1..], where := k.where[t := Running], dispatched := k.dispatched + [t])
  }

  /** queue->Append(currentThread); currentThread->Sleep(): the processor is left to the next step. */
  function SleepOn(k: Kernel, q: Queue): Kernel
    requires k.current.Some?
  {
    var t := k.current.value;
    k.(current := None, queues := k.queues[q := On(k, q) + [t]], where := k.where[t := Waiting(q)])
  }

  /** queue->Remove() and ReadyToRun, if the queue has a thread to give. */
  function Wake(k: Kernel, q: Queue): Kernel {
    if On(k, q) == [] then k
    else MakeReady(k.(queues := k.queues[q := On(k, q)[1..]]), On(k, q)[0])
  }

  /** Thread::Yield: nothing, if no other thread is ready. */
  function Yield(k: Kernel): Kernel
    requires k.current.Some?
  {
    if k.ready == [] then k
    else
      var t, next := k.current.value, k.ready[0];
      k.(current := Some(next), ready := k.ready[1..] + [t], where := k.where[t := OnReadyList][next := Running],
         readied := k.readied + [t], dispatched := k.dispatched + [next])
  }

  /** Thread::Finish: the thread is gone from every place. */
  function Finish(k: Kernel): Kernel
    requires k.current.Some?
  {
    k.(current := None, where := k.where - {k.current.value})
  }

  function Boot(main: Thread): Kernel {
    Kernel(Some(main), [], map[], map[main := Running], [], [])
  }

  // ---- each keeps every thread in one place ----

  lemma Arrives(s: seq<Thread>, where: map<Thread, Place>, p: Place, t: Thread)
    requires Holds(s, where, p) && !(t in where && where[t] == p)
    ensures Holds(s + [t], where[t := p], p)
  {
  }

  lemma Leaves(s: seq<Thread>, where: map<Thread, Place>, p: Place, p': Place)
    requires Holds(s, where, p) && s != [] && p' != p
    ensures Holds(s[1..], where[s[0] := p'], p)
  {
    forall t | t in s && t != s[0] ensures t in s[1..] {
    }
  }

  lemma Elsewhere(s: seq<Thread>, where: map<Thread, Place>, p: Place, t: Thread, p': Place)
    requires Holds(s, where, p) && p' != p && !(t in where && where[t] == p)
    ensures Holds(s, where[t := p'], p)
  {
  }

  lemma Gone(s: seq<Thread>, where: map<Thread, Place>, p: Place, t: Thread)
    requires Holds(s, where, p) && !(t in where && where[t] == p)
    ensures Holds(s, where - {t}, p)
  {
  }

  lemma BootOrderly(main: Thread)
    ensures Orderly(Boot(main))
  {
  }

  lemma ForkOrderly(k: Kernel, t: Thread)
    requires Orderly(k) && t !in k.where
    ensures Orderly(MakeReady(k, t))
  {
    hide Holds;
    var k' := MakeReady(k, t);
    Arrives(k.ready, k.where, OnReadyList, t);
    Elsewhere(Front(k), k.where, Running, t, OnReadyList);
    forall q ensures Holds(On(k', q), k'.where, Waiting(q)) {
      Elsewhere(On(k, q), k.where, Waiting(q), t, OnReadyList);
    }
  }

  lemma CurrentRuns(k: Kernel)
    requires Placed(k)
    ensures k.current.Some? ==> k.current.value in k.where && k.where[k.current.value] == Running
    ensures k.ready != [] ==> k.ready[0] in k.where && k.where[k.ready[0]] == OnReadyList
    ensures k.current == None ==> Front(k) == []
  {
    assert k.current.Some? ==> k.current.value in Front(k);
  }

  lemma DispatchPlaced(k: Kernel)
    requires Placed(k) && k.current == None && k.ready != []
    ensures Placed(Dispatch(k))
  {
    CurrentRuns(k);
    hide Holds;
    var t, k' := k.ready[0], Dispatch(k);
    Leaves(k.ready, k.where, OnReadyList, Running);
    Arrives([], k.where, Running, t);
    assert [] + [t] == [t];
    forall q ensures Holds(On(k', q), k'.where, Waiting(q)) {
      Elsewhere(On(k, q), k.where, Waiting(q), t, Running);
    }
  }

  lemma DispatchOrderly(k: Kernel)
    requires Orderly(k) && k.current == None && k.ready != []
    ensures Orderly(Dispatch(k))
  {
    hide Placed;
    DispatchPlaced(k);
    assert k.ready == [k.ready[0]] + k.ready[1..];
  }

  lemma SleepOrderly(k: Kernel, q: Queue)
    requires Orderly(k) && k.current.Some?
    ensures Orderly(SleepOn(k, q))
  {
    CurrentRuns(k);
    hide Holds;
    var t, k' := k.current.value, SleepOn(k, q);
    Leaves(Front(k), k.where, Running, Waiting(q));
    Elsewhere(k.ready, k.where, OnReadyList, t, Waiting(q));
    Arrives(On(k, q), k.where, Waiting(q), t);
    forall p | p != q ensures Holds(On(k', p), k'.where, Waiting(p)) {
      Elsewhere(On(k, p), k.where, Waiting(p), t, Waiting(q));
    }
  }

  lemma WakeOrderly(k: Kernel, q: Queue)
    requires Orderly(k)
    ensures Orderly(Wake(k, q))
  {
    if On(k, q) != [] {
      var t, k' := On(k, q)[0], Wake(k, q);
      assert t in k.where && k.where[t] == Waiting(q);
      hide Holds;
      Leaves(On(k, q), k.where, Waiting(q), OnReadyList);
      Arrives(k.ready, k.where, OnReadyList, t);
      Elsewhere(Front(k), k.where, Running, t, OnReadyList);
      forall p | p != q ensures Holds(On(k', p), k'.where, Waiting(p)) {
        Elsewhere(On(k, p), k.where, Waiting(p), t, OnReadyList);
      }
    }
  }

  function PutAside(k: Kernel): Kernel
    requires k.current.Some?
  {
    MakeReady(k.(current := None), k.current.value)
  }

  lemma PutAsideOrderly(k: Kernel)
    requires Orderly(k) && k.current.Some?
    ensures Orderly(PutAside(k))
  {
    CurrentRuns(k);
    hide Holds;
    var t, k' := k.current.value, PutAside(k);
    Leaves(Front(k), k.where, Running, OnReadyList);
    Arrives(k.ready, k.where, OnReadyList, t);
    forall q ensures Holds(On(k', q), k'.where, Waiting(q)) {
      Elsewhere(On(k, q), k.where, Waiting(q), t, OnReadyList);
    }
  }

  /** Yielding is going to the end of the ready list and dispatching its head. */
  lemma YieldOrderly(k: Kernel)
    requires Orderly(k) && k.current.Some?
    ensures Orderly(Yield(k)) && (k.ready == [] ==> Yield(k) == k)
    ensures k.ready != [] ==> Yield(k).current == Some(k.ready[0]) && Yield(k).ready == k.ready[1..] + [k.current.value] && Yield(k).queues == k.queues
  {
    if k.ready != [] {
      PutAsideOrderly(k);
      DispatchOrderly(PutAside(k));
      assert (k.ready + [k.current.value])[1..] == k.ready[1..] + [k.current.value];
      assert Yield(k) == Dispatch(PutAside(k));
    }
  }

  lemma FinishOrderly(k: Kernel)
    requires Orderly(k) && k.current.Some?
    ensures Orderly(Finish(k))
  {
    CurrentRuns(k);
    hide Holds;
    var t, k' := k.current.value, Finish(k);
    Leaves(Front(k), k.where, Running, OnReadyList);
    assert k.where[t := OnReadyList] - {t} == k'.where;
    Gone([], k.where[t := OnReadyList], Running, t);
    Gone(k.ready, k.where, OnReadyList, t);
    forall q ensures Holds(On(k', q), k'.where, Waiting(q)) {
      Gone(On(k, q), k.where, Waiting(q), t);
    }
  }
}
