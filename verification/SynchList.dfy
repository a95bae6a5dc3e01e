/**
 * The synchronized list (threads/synchlist.cc) run by any number of threads on the kernel, among
 * whatever else they and the interrupt handlers do with other objects.  A step runs from one point at
 * which the processor can be lost to the next.
 */
module SynchList {
  import opened Collections
  import opened Threads
  import opened Synchronization
  import opened KernelRuns
  import opened KernelFrame

  type Item = nat

  /** Where a thread is in Append or Remove; Appending and Removing begin with the call of Acquire. */
  datatype Pc = Idle | Appending(item: Item) | Signalling | Unlocking | Removing | Returning(item: Item)

  /** signalled holds the removers a signal has reached and that have not tested the list since. */
  datatype State = State(
    y: System, lock: Queue, cond: Queue, items: seq<Item>, pc: map<Thread, Pc>,
    signalled: set<Thread>, appended: seq<Item>, removed: seq<Item>)

  function PcOf(m: State, t: Thread): Pc {
    if t in m.pc then m.pc[t] else Idle
  }

  datatype Move =
    | StartAppend(item: Item) | PutItem | SignalWaiter | Unlock
    | StartRemove | TakeItem | Return
    | Other(e: Event)

  /** Code outside the list leaves its lock and condition alone; in the midst of a call only the timer strikes. */
  ghost predicate Foreign(m: State, e: Event) {
    && Enabled(m.y, e)
    && (e.Call? ==> !Names(e.op, m.lock) && !Names(e.op, m.cond))
    && (e.Call? && e.op != DoYield ==> PcOf(m, m.y.kernel.current.value) == Idle)
  }

  ghost predicate CanMove(m: State, v: Move) {
    && (!v.Other? ==> RunningFree(m.y))
    && IsLock(m.y, m.lock) && IsCondition(m.y, m.cond)
    && match v
       case StartAppend(_) => PcOf(m, m.y.kernel.current.value) == Idle
       case PutItem => PcOf(m, m.y.kernel.current.value).Appending?
       case SignalWaiter => PcOf(m, m.y.kernel.current.value) == Signalling
       case Unlock => PcOf(m, m.y.kernel.current.value) == Unlocking
       case StartRemove => PcOf(m, m.y.kernel.current.value) == Idle
       case TakeItem => PcOf(m, m.y.kernel.current.value) == Removing
       case Return => PcOf(m, m.y.kernel.current.value).Returning?
       case Other(e) => Inv(m.y) && Foreign(m, e)
  }

  /** Test the list; wait on the condition if it is empty, else take its head. */
  function Take(m: State, t: Thread): State
    requires m.y.kernel.current == Some(t) && IsLock(m.y, m.lock)
  {
    if m.items == [] then m.(y := Wait(m.y, m.cond, m.lock), signalled := m.signalled - {t})
    else m.(items := m.items[1..], removed := m.removed + [m.items[0]],
            signalled := m.signalled - {t}, pc := m.pc[t := Returning(m.items[0])])
  }

  function SignalOne(m: State, t: Thread): State
    requires m.y.kernel.current == Some(t) && IsLock(m.y, m.lock)
  {
    var queue := On(m.y.kernel, m.cond);
    m.(y := Signal(m.y, m.cond, m.lock), pc := m.pc[t := Unlocking],
       signalled := if m.y.objects[m.lock].owner == Some(t) && queue != [] then m.signalled + {queue[0]} else m.signalled)
  }

  ghost function Next(m: State, v: Move): State
    requires CanMove(m, v)
  {
    if v.Other? then m.(y := Step(m.y, v.e))
    else
      var t := m.y.kernel.current.value;
      match v
      case StartAppend(x) => m.(y := TryAcquire(m.y, m.lock), pc := m.pc[t := Appending(x)])
      case PutItem => m.(items := m.items + [m.pc[t].item], appended := m.appended + [m.pc[t].item], pc := m.pc[t := Signalling])
      case SignalWaiter => SignalOne(m, t)
      case Unlock => m.(y := Release(m.y, m.lock), pc := m.pc[t := Idle])
      case StartRemove => m.(y := TryAcquire(m.y, m.lock), pc := m.pc[t := Removing])
      case TakeItem => Take(m, t)
      case Return => m.(y := Release(m.y, m.lock), pc := m.pc[t := Idle])
  }

  // ---- the invariant ----

  /** What a thread at this point may be asleep for. */
  predicate Agrees(p: Pc, d: Doing, l: Queue, c: Queue) {
    match p
    case Idle => !Concerns(d, l) && !Concerns(d, c)
    case Appending(_) => d == Free || d == InAcquire(l)
    case Removing => d == Free || d == InAcquire(l) || d == InWait(c, l) || d == Relocking(l)
    case _ => d == Free
  }

  /** The thread has the lock: it is past Acquire and has not released it. */
  predicate Inside(p: Pc, d: Doing) {
    p != Idle && d == Free
  }

  /** The part of a state the invariant speaks of. */
  datatype View = View(owner: Option<Thread>, doing: map<Thread, Doing>, queue: seq<Thread>,
                       pc: map<Thread, Pc>, signalled: set<Thread>, items: nat)

  function Seen(m: State): View
    requires IsLock(m.y, m.lock)
  {
    View(Owner(m.y, m.lock), m.y.doing, On(m.y.kernel, m.cond), m.pc, m.signalled, |m.items|)
  }

  function At(v: View, t: Thread): Pc {
    if t in v.pc then v.pc[t] else Idle
  }

  ghost predicate ThreadOk(v: View, l: Queue, c: Queue, t: Thread) {
    && (At(v, t) != Idle ==> t in v.doing)
    && (t in v.doing ==> Agrees(At(v, t), v.doing[t], l, c))
    && (t in v.doing && Inside(At(v, t), v.doing[t]) <==> v.owner == Some(t))
    && (t in v.signalled ==> At(v, t) == Removing && t !in v.queue)
    && (t in v.queue ==> At(v, t) == Removing)
  }

  /** The owner has appended an item and not yet signalled. */
  predicate SignalDue(v: View) {
    v.owner.Some? && At(v, v.owner.value) == Signalling
  }

  /** Removers wait only if the items there are spoken for by removers already signalled. */
  ghost predicate NoneForgotten(v: View) {
    v.queue != [] ==> v.items <= |v.signalled| + if SignalDue(v) then 1 else 0
  }

  ghost predicate ViewInv(v: View, l: Queue, c: Queue) {
    (forall t :: ThreadOk(v, l, c, t)) && NoneForgotten(v)
  }

  ghost predicate ListInv(m: State) {
    && Inv(m.y) && IsLock(m.y, m.lock) && IsCondition(m.y, m.cond) && m.lock != m.cond
    && ViewInv(Seen(m), m.lock, m.cond)
    && m.appended == m.removed + m.items
  }

  // ---- the moves on what the invariant speaks of ----

  /** The thread at pc p goes to sleep in Acquire, or comes out of it. */
  lemma AcquireView(v: View, l: Queue, c: Queue, t: Thread, p: Pc, w: View)
    requires ViewInv(v, l, c) && t in v.doing && t !in v.queue && (p.Appending? || p == Removing)
    requires At(v, t) == Idle || (At(v, t) == p && v.doing[t] != Free)
    requires w == if v.owner.Some? && v.owner != Some(t) then v.(doing := v.doing[t := InAcquire(l)], pc := v.pc[t := p])
                  else v.(owner := Some(t), doing := v.doing[t := Free], pc := v.pc[t := p])
    ensures ViewInv(w, l, c)
  {
    forall u ensures ThreadOk(w, l, c, u) {
      assert ThreadOk(v, l, c, u) && ThreadOk(v, l, c, t);
    }
    assert SignalDue(v) ==> SignalDue(w) by {
      if SignalDue(v) {
        assert ThreadOk(v, l, c, v.owner.value) && ThreadOk(v, l, c, t);
      }
    }
  }

  /** The thread comes out of Sleep in Wait, with Acquire to call. */
  lemma RelockView(v: View, l: Queue, c: Queue, t: Thread)
    requires ViewInv(v, l, c) && t in v.doing && v.doing[t] == InWait(c, l)
    requires At(v, t) == Removing
    ensures ViewInv(v.(doing := v.doing[t := Relocking(l)]), l, c)
  {
    var w := v.(doing := v.doing[t := Relocking(l)]);
    forall u ensures ThreadOk(w, l, c, u) {
      assert ThreadOk(v, l, c, u);
    }
  }

  lemma PutView(v: View, l: Queue, c: Queue, t: Thread)
    requires ViewInv(v, l, c) && t in v.doing && v.doing[t] == Free && At(v, t).Appending?
    ensures ViewInv(v.(items := v.items + 1, pc := v.pc[t := Signalling]), l, c)
  {
    var w := v.(items := v.items + 1, pc := v.pc[t := Signalling]);
    assert ThreadOk(v, l, c, t);
    forall u ensures ThreadOk(w, l, c, u) {
      assert ThreadOk(v, l, c, u);
    }
  }

  lemma SignalView(v: View, l: Queue, c: Queue, t: Thread, w: View)
    requires ViewInv(v, l, c) && t in v.doing && v.doing[t] == Free && At(v, t) == Signalling
    requires v.queue != [] ==> v.queue[0] !in v.queue[1..]
    requires w == if v.queue == [] then v.(pc := v.pc[t := Unlocking])
                  else v.(queue := v.queue[1..], signalled := v.signalled + {v.queue[0]}, pc := v.pc[t := Unlocking])
    ensures v.owner == Some(t) && ViewInv(w, l, c)
  {
    assert ThreadOk(v, l, c, t);
    forall u ensures ThreadOk(w, l, c, u) {
      assert ThreadOk(v, l, c, u);
    }
    if v.queue != [] {
      assert ThreadOk(v, l, c, v.queue[0]);
    }
  }

  lemma ReleaseView(v: View, l: Queue, c: Queue, t: Thread)
    requires ViewInv(v, l, c) && t in v.doing && v.doing[t] == Free && (At(v, t) == Unlocking || At(v, t).Returning?)
    ensures v.owner == Some(t) && ViewInv(v.(owner := None, pc := v.pc[t := Idle]), l, c)
  {
    var w := v.(owner := None, pc := v.pc[t := Idle]);
    assert ThreadOk(v, l, c, t);
    forall u ensures ThreadOk(w, l, c, u) {
      assert ThreadOk(v, l, c, u);
    }
  }

  lemma WaitView(v: View, l: Queue, c: Queue, t: Thread)
    requires ViewInv(v, l, c) && t in v.doing && v.doing[t] == Free && At(v, t) == Removing && v.items == 0
    ensures v.owner == Some(t)
    ensures ViewInv(v.(owner := None, doing := v.doing[t := InWait(c, l)], queue := v.queue + [t], signalled := v.signalled - {t}), l, c)
  {
    var w := v.(owner := None, doing := v.doing[t := InWait(c, l)], queue := v.queue + [t], signalled := v.signalled - {t});
    assert ThreadOk(v, l, c, t);
    forall u ensures ThreadOk(w, l, c, u) {
      assert ThreadOk(v, l, c, u);
    }
  }

  lemma TakeView(v: View, l: Queue, c: Queue, t: Thread, x: Item)
    requires ViewInv(v, l, c) && t in v.doing && v.doing[t] == Free && At(v, t) == Removing && v.items > 0 && t !in v.queue
    ensures ViewInv(v.(items := v.items - 1, signalled := v.signalled - {t}, pc := v.pc[t := Returning(x)]), l, c)
  {
    var w := v.(items := v.items - 1, signalled := v.signalled - {t}, pc := v.pc[t := Returning(x)]);
    assert ThreadOk(v, l, c, t);
    forall u ensures ThreadOk(w, l, c, u) {
      assert ThreadOk(v, l, c, u);
    }
  }

  /** A step that has nothing to do with the list, taken by a thread that is outside it or merely yields. */
  lemma OtherView(v: View, l: Queue, c: Queue, w: View, t: Option<Thread>)
    requires ViewInv(v, l, c) && w == v.(doing := w.doing)
    requires forall u :: t != Some(u) ==> if u in v.doing then u in w.doing && w.doing[u] == v.doing[u] else u in w.doing ==> w.doing[u] == Free
    requires t.Some? && t.value in w.doing ==>
               (t.value in v.doing && w.doing[t.value] == v.doing[t.value]) || (At(v, t.value) == Idle && Agrees(Idle, w.doing[t.value], l, c))
    requires t.Some? && t.value !in w.doing ==> At(v, t.value) == Idle
    ensures ViewInv(w, l, c)
  {
    forall u ensures ThreadOk(w, l, c, u) {
      assert ThreadOk(v, l, c, u);
    }
  }

  // ---- the moves on the system ----

  lemma NotOnQueue(y: System, q: Queue)
    requires Inv(y) && RunningFree(y)
    ensures y.kernel.current.value !in On(y.kernel, q)
  {
    hide Typed, Ok;
    RunningIsNotAsleep(y, q);
  }

  lemma StartKeeps(m: State, p: Pc)
    requires ListInv(m) && RunningFree(m.y) && PcOf(m, m.y.kernel.current.value) == Idle && (p.Appending? || p == Removing)
    ensures ListInv(m.(y := TryAcquire(m.y, m.lock), pc := m.pc[m.y.kernel.current.value := p]))
  {
    var t := m.y.kernel.current.value;
    var n := m.(y := TryAcquire(m.y, m.lock), pc := m.pc[t := p]);
    StepKeeps(m.y, Call(DoAcquire(m.lock)));
    hide Inv, ViewInv, TryAcquire, On, Woken;
    AcquireEffect(m.y, m.lock, m.cond);
    NotOnQueue(m.y, m.cond);
    assert m.y.doing[t := Free] == m.y.doing;
    AcquireView(Seen(m), m.lock, m.cond, t, p, Seen(n));
  }

  lemma HeadOf(y: System, q: Queue)
    requires Inv(y) && On(y.kernel, q) != []
    ensures On(y.kernel, q)[0] !in On(y.kernel, q)[1..]
  {
    hide Ok, Split, Placed, On;
    HeadOnce(y.kernel, q);
  }

  lemma SignalKeeps(m: State)
    requires ListInv(m) && RunningFree(m.y) && PcOf(m, m.y.kernel.current.value) == Signalling
    ensures ListInv(SignalOne(m, m.y.kernel.current.value))
  {
    hide Sound, ViewInv, On, Woken, WakeOne;
    var t, n := m.y.kernel.current.value, SignalOne(m, m.y.kernel.current.value);
    StepKeeps(m.y, Call(DoSignal(m.cond, m.lock)));
    if On(m.y.kernel, m.cond) != [] {
      HeadOf(m.y, m.cond);
    }
    WakeOneEffect(m.y, m.cond);
    var v := Seen(m);
    SignalView(v, m.lock, m.cond, t, if v.queue == [] then v.(pc := v.pc[t := Unlocking])
      else v.(queue := v.queue[1..], signalled := v.signalled + {v.queue[0]}, pc := v.pc[t := Unlocking]));
  }

  lemma UnlockKeeps(m: State)
    requires ListInv(m) && RunningFree(m.y)
    requires var p := PcOf(m, m.y.kernel.current.value); p == Unlocking || p.Returning?
    ensures ListInv(m.(y := Release(m.y, m.lock), pc := m.pc[m.y.kernel.current.value := Idle]))
  {
    StepKeeps(m.y, Call(DoRelease(m.lock)));
    hide Inv, ViewInv, On, Woken, Release;
    ReleaseView(Seen(m), m.lock, m.cond, m.y.kernel.current.value);
    ReleaseEffect(m.y, m.lock, m.cond);
  }

  lemma WaitKeeps(m: State)
    requires ListInv(m) && RunningFree(m.y) && PcOf(m, m.y.kernel.current.value) == Removing && m.items == []
    ensures ListInv(Take(m, m.y.kernel.current.value))
  {
    StepKeeps(m.y, Call(DoWait(m.cond, m.lock)));
    hide Inv, ViewInv, On, Woken, Release, Sleep;
    WaitView(Seen(m), m.lock, m.cond, m.y.kernel.current.value);
    ReleaseEffect(m.y, m.lock, m.cond);
    var r := Release(m.y, m.lock);
    SleepEffect(r, m.cond, InWait(m.cond, m.lock));
    SleepElsewhere(r, m.cond, InWait(m.cond, m.lock), m.lock);
  }

  lemma TakeKeeps(m: State)
    requires ListInv(m) && RunningFree(m.y) && PcOf(m, m.y.kernel.current.value) == Removing && m.items != []
    ensures ListInv(Take(m, m.y.kernel.current.value))
  {
    hide Inv, ViewInv, On, Woken;
    NotOnQueue(m.y, m.cond);
    TakeView(Seen(m), m.lock, m.cond, m.y.kernel.current.value, m.items[0]);
    assert m.items == [m.items[0]] + m.items[1..];
  }

  lemma PutKeeps(m: State)
    requires ListInv(m) && RunningFree(m.y) && PcOf(m, m.y.kernel.current.value).Appending?
    ensures var t := m.y.kernel.current.value;
      ListInv(m.(items := m.items + [m.pc[t].item], appended := m.appended + [m.pc[t].item], pc := m.pc[t := Signalling]))
  {
    hide Inv, ViewInv, On, Woken;
    PutView(Seen(m), m.lock, m.cond, m.y.kernel.current.value);
  }

  /** Back from Sleep in Wait: the thread is not inside again before it has the lock. */
  lemma WokenKeeps(m: State)
    requires ListInv(m) && Enabled(m.y, Continue)
    requires var t := m.y.kernel.current.value; t in m.y.doing && PcOf(m, t) != Idle && m.y.doing[t].InWait?
    ensures ListInv(m.(y := Step(m.y, Continue)))
  {
    hide Sound, ViewInv, On, Woken, Rerun;
    StepKeeps(m.y, Continue);
    RerunEffect(m.y);
    var t, n := m.y.kernel.current.value, m.(y := Step(m.y, Continue));
    AtThread(m, t);
    assert n.y == Relock(Rerun(m.y), m.lock);
    hide Inv, Step;
    assert n.y.doing == m.y.doing[t := Relocking(m.lock)];
    RelockView(Seen(m), m.lock, m.cond, t);
  }

  /** Back from Sleep in Acquire, or in Wait with the lock to get. */
  lemma ResumeKeeps(m: State)
    requires ListInv(m) && Enabled(m.y, Continue)
    requires var t := m.y.kernel.current.value; t in m.y.doing && PcOf(m, t) != Idle && !m.y.doing[t].InWait?
    ensures ListInv(m.(y := Step(m.y, Continue)))
  {
    hide Sound, ViewInv, TryAcquire, On, Woken, Rerun;
    StepKeeps(m.y, Continue);
    RerunEffect(m.y);
    NotOn(m.y, m.cond);
    var t, z := m.y.kernel.current.value, Rerun(m.y);
    var p, n := PcOf(m, t), m.(y := Step(m.y, Continue));
    AtThread(m, t);
    assert n.y == TryAcquire(z, m.lock);
    hide Inv, Step;
    AcquireEffect(z, m.lock, m.cond);
    assert m.pc[t := p] == m.pc;
    assert m.y.doing[t := Free][t := InAcquire(m.lock)] == m.y.doing[t := InAcquire(m.lock)];
    AcquireView(Seen(m), m.lock, m.cond, t, p, Seen(n));
  }

  lemma AtThread(m: State, t: Thread)
    requires ListInv(m)
    ensures ThreadOk(Seen(m), m.lock, m.cond, t)
  {
    hide Inv, ThreadOk;
  }

  lemma UninvolvedKeeps(m: State, e: Event)
    requires ListInv(m) && Enabled(m.y, e) && !Involves(m.y, e, m.lock) && !Involves(m.y, e, m.cond)
    requires var t, z := m.y.kernel.current, Step(m.y, e);
      && (t.Some? && t.value in z.doing ==>
            (t.value in m.y.doing && z.doing[t.value] == m.y.doing[t.value]) || (PcOf(m, t.value) == Idle && Agrees(Idle, z.doing[t.value], m.lock, m.cond)))
      && (t.Some? && t.value !in z.doing ==> PcOf(m, t.value) == Idle)
    ensures ListInv(m.(y := Step(m.y, e)))
  {
    hide Sound, ViewInv, Step, On, Woken, Involves;
    StepKeeps(m.y, e);
    StepElsewhere(m.y, e, m.lock);
    StepElsewhere(m.y, e, m.cond);
    StepOthers(m.y, e);
    OtherView(Seen(m), m.lock, m.cond, Seen(m.(y := Step(m.y, e))), m.y.kernel.current);
  }

  lemma ForeignCall(m: State, op: Op)
    requires ListInv(m) && Foreign(m, Call(op))
    ensures ListInv(m.(y := Step(m.y, Call(op))))
  {
    hide Sound, ViewInv, Perform, On, Woken;
    PerformOwn(m.y, op, m.lock);
    PerformOwn(m.y, op, m.cond);
    UninvolvedKeeps(m, Call(op));
  }

  lemma ForeignContinue(m: State)
    requires ListInv(m) && Enabled(m.y, Continue)
    ensures ListInv(m.(y := Step(m.y, Continue)))
  {
    var t := m.y.kernel.current.value;
    assert ThreadOk(Seen(m), m.lock, m.cond, t) && Fits(m.y, m.y.doing[t]);
    hide Sound, ViewInv, Resume, On, Woken;
    if PcOf(m, t) == Idle {
      ResumeOwn(m.y, m.lock);
      ResumeOwn(m.y, m.cond);
      UninvolvedKeeps(m, Continue);
    } else if m.y.doing[t].InWait? {
      WokenKeeps(m);
    } else {
      ResumeKeeps(m);
    }
  }

  lemma OtherKeeps(m: State, e: Event)
    requires ListInv(m) && Foreign(m, e)
    ensures ListInv(m.(y := Step(m.y, e)))
  {
    hide Sound, ViewInv, Perform, Resume, Dispatch, WakeOne, On, Woken;
    match e
    case Call(op) => ForeignCall(m, op);
    case Continue => ForeignContinue(m);
    case Switch => UninvolvedKeeps(m, e);
    case Handler(s) =>
      VOthers(m.y, s);
      UninvolvedKeeps(m, e);
  }

  lemma MoveKeeps(m: State, v: Move)
    requires ListInv(m) && CanMove(m, v)
    ensures ListInv(Next(m, v))
  {
    hide ListInv, Inv, Foreign, TryAcquire, Release, SignalOne, Take, Step, RunningFree;
    match v
    case StartAppend(x) => StartKeeps(m, Appending(x));
    case PutItem => PutKeeps(m);
    case SignalWaiter => SignalKeeps(m);
    case Unlock => UnlockKeeps(m);
    case StartRemove => StartKeeps(m, Removing);
    case TakeItem =>
      if m.items == [] {
        WaitKeeps(m);
      } else {
        TakeKeeps(m);
      }
    case Return => UnlockKeeps(m);
    case Other(e) => OtherKeeps(m, e);
  }

  // ---- runs ----

  /** A list just made: nothing in it, nobody at its lock or its condition. */
  ghost predicate NewList(m: State) {
    && Inv(m.y) && m.lock != m.cond && IsLock(m.y, m.lock) && IsCondition(m.y, m.cond)
    && Owner(m.y, m.lock) == None && On(m.y.kernel, m.cond) == []
    && (forall t :: t in m.y.doing ==> !Concerns(m.y.doing[t], m.lock) && !Concerns(m.y.doing[t], m.cond))
    && m.items == [] && m.pc == map[] && m.signalled == {} && m.appended == [] && m.removed == []
  }

  lemma NewListInv(m: State)
    requires NewList(m)
    ensures ListInv(m)
  {
    hide Inv, On;
  }

  ghost predicate Possible(m: State, moves: seq<Move>)
    requires ListInv(m)
    decreases |moves|
  {
    moves == [] || (CanMove(m, moves[0]) && (MoveKeeps(m, moves[0]); Possible(Next(m, moves[0]), moves[1..])))
  }

  ghost function After(m: State, moves: seq<Move>): State
    requires ListInv(m) && Possible(m, moves)
    decreases |moves|
  {
    if moves == [] then m else MoveKeeps(m, moves[0]); After(Next(m, moves[0]), moves[1..])
  }

  lemma {:induction false} RunKeeps(m: State, moves: seq<Move>)
    requires ListInv(m) && Possible(m, moves)
    ensures ListInv(After(m, moves))
    decreases |moves|
  {
    hide ListInv, CanMove, Next;
    if moves != [] {
      MoveKeeps(m, moves[0]);
      RunKeeps(Next(m, moves[0]), moves[1..]);
    }
  }

  ghost predicate RunsTo(m: State, moves: seq<Move>, n: State) {
    NewList(m) && (NewListInv(m); Possible(m, moves) && n == After(m, moves))
  }

  /** n is a state of some run of the kernel and the list since the list was made. */
  ghost predicate Reached(n: State) {
    exists m: State, moves: seq<Move> :: RunsTo(m, moves, n)
  }

  lemma ReachedInv(n: State)
    requires Reached(n)
    ensures ListInv(n)
  {
    hide ListInv, Possible, After, NewList;
    var m, moves :| RunsTo(m, moves, n);
    NewListInv(m);
    RunKeeps(m, moves);
  }

  /**
   * The list is a first-in first-out queue over every interleaving: what has been removed, followed by
   * what is still there, is what was appended, in that order.
   */
  lemma LinearizableFifo(n: State)
    requires Reached(n)
    ensures n.appended == n.removed + n.items
  {
    hide Reached, Inv, ViewInv;
    ReachedInv(n);
  }

  /** The next Remove to take an item takes the oldest one not yet removed. */
  lemma TakesOldest(n: State)
    requires Reached(n) && CanMove(n, TakeItem) && n.items != []
    ensures |n.removed| < |n.appended|
    ensures Next(n, TakeItem).pc[n.y.kernel.current.value] == Returning(n.appended[|n.removed|])
  {
    hide Reached, Inv, ViewInv, RunningFree;
    ReachedInv(n);
  }

  /** Only the owner of the lock is inside, so no two threads are. */
  lemma OneInside(n: State, t: Thread, u: Thread)
    requires Reached(n) && t in n.y.doing && u in n.y.doing
    requires Inside(PcOf(n, t), n.y.doing[t]) && Inside(PcOf(n, u), n.y.doing[u])
    ensures t == u
  {
    hide Reached, Inv, On;
    ReachedInv(n);
    assert ThreadOk(Seen(n), n.lock, n.cond, t) && ThreadOk(Seen(n), n.lock, n.cond, u);
  }

  /**
   * While a remover waits on the condition, the items there number no more than the removers already
   * signalled and not yet back, one more while the appender that holds the lock has still to signal.
   */
  lemma WaitersCovered(n: State)
    requires Reached(n) && On(n.y.kernel, n.cond) != []
    ensures IsLock(n.y, n.lock) && |n.items| <= |n.signalled| + if SignalDue(Seen(n)) then 1 else 0
    ensures forall t :: t in n.signalled ==> t in n.y.doing && PcOf(n, t) == Removing && t !in On(n.y.kernel, n.cond)
  {
    hide Reached, Inv, On;
    ReachedInv(n);
    forall t | t in n.signalled ensures t in n.y.doing && PcOf(n, t) == Removing && t !in On(n.y.kernel, n.cond) {
      assert ThreadOk(Seen(n), n.lock, n.cond, t);
    }
  }

  /** The lock is held exactly by the thread that is inside; one that has returned has let it go. */
  lemma HeldWhileInside(n: State, t: Thread)
    requires Reached(n)
    ensures IsLock(n.y, n.lock) && (Owner(n.y, n.lock) == Some(t) <==> t in n.y.doing && Inside(PcOf(n, t), n.y.doing[t]))
  {
    hide Reached, Inv, On;
    ReachedInv(n);
    AtThread(n, t);
  }

  // ---- what the caller asked for ----

  /** The item of a thread's last call, if it was Append, and what the thread has put in and taken out since. */
  datatype Told = Told(asked: Option<Item>, put: seq<Item>, took: seq<Item>)

  ghost function Tell(m: State, v: Move, t: Thread, s: Told): Told
    requires CanMove(m, v)
  {
    if m.y.kernel.current != Some(t) then s
    else if v.StartAppend? then Told(Some(v.item), [], [])
    else if v == StartRemove then Told(None, [], [])
    else s.(put := s.put + Gained(m.appended, Next(m, v).appended), took := s.took + Gained(m.removed, Next(m, v).removed))
  }

  /** The story of thread t over a run. */
  ghost function Story(m: State, moves: seq<Move>, t: Thread, s: Told): Told
    requires ListInv(m) && Possible(m, moves)
    decreases |moves|
  {
    if moves == [] then s
    else MoveKeeps(m, moves[0]); Story(Next(m, moves[0]), moves[1..], t, Tell(m, moves[0], t, s))
  }

  ghost predicate ToldOk(m: State, t: Thread, s: Told) {
    match PcOf(m, t)
    case Idle => true
    case Appending(x) => s == Told(Some(x), [], [])
    case Signalling => s.asked.Some? && s == Told(s.asked, [s.asked.value], [])
    case Unlocking => s.asked.Some? && s == Told(s.asked, [s.asked.value], [])
    case Removing => s == Told(None, [], [])
    case Returning(x) => s == Told(None, [], [x])
  }

  lemma TellKeeps(m: State, v: Move, t: Thread, s: Told)
    requires CanMove(m, v) && ToldOk(m, t, s)
    ensures ToldOk(Next(m, v), t, Tell(m, v, t, s))
  {
    hide Inv, Foreign, TryAcquire, Release, Signal, Wait, Step, On, Gained;
    assert s.put + [] == s.put && s.took + [] == s.took;
    GainedOne(m.appended, 0);
    GainedOne(m.removed, 0);
    if v == PutItem {
      var x := PcOf(m, m.y.kernel.current.value).item;
      GainedOne(m.appended, x);
      assert [] + [x] == [x];
    } else if v == TakeItem && m.items != [] {
      GainedOne(m.removed, m.items[0]);
      assert [] + [m.items[0]] == [m.items[0]];
    }
  }

  lemma {:induction false} StoryOk(m: State, moves: seq<Move>, t: Thread, s: Told)
    requires ListInv(m) && Possible(m, moves) && ToldOk(m, t, s)
    ensures ToldOk(After(m, moves), t, Story(m, moves, t, s))
    decreases |moves|
  {
    hide ListInv, CanMove, Next, Tell, ToldOk;
    if moves != [] {
      MoveKeeps(m, moves[0]);
      TellKeeps(m, moves[0], t, s);
      StoryOk(Next(m, moves[0]), moves[1..], t, Tell(m, moves[0], t, s));
    }
  }

  lemma RunStory(m: State, moves: seq<Move>, n: State, t: Thread)
    requires RunsTo(m, moves, n)
    ensures ListInv(m) && Possible(m, moves) && n == After(m, moves) && ToldOk(n, t, Story(m, moves, t, Told(None, [], [])))
  {
    NewListInv(m);
    assert m.pc == map[];
    hide ListInv, Possible, After, NewList, Story;
    StoryOk(m, moves, t, Told(None, [], []));
  }

  /** What Append puts on the list is the item it was called with, and an Append that is done has put it there once. */
  lemma AppendsItsItem(m: State, moves: seq<Move>, n: State)
    requires RunsTo(m, moves, n) && (CanMove(n, PutItem) || CanMove(n, Unlock))
    ensures ListInv(m) && Possible(m, moves)
    ensures var told := Story(m, moves, n.y.kernel.current.value, Told(None, [], []));
      && told.asked.Some? && told.took == []
      && (CanMove(n, PutItem) ==> told.put == [] && Next(n, PutItem).appended == n.appended + [told.asked.value])
      && (CanMove(n, Unlock) ==> told.put == [told.asked.value])
  {
    RunStory(m, moves, n, n.y.kernel.current.value);
    hide ListInv, Possible, After, Story, Inv, RunsTo, RunningFree;
  }

  /** A Remove that is done has taken the one item it returns, and put nothing there. */
  lemma RemovesItsItem(m: State, moves: seq<Move>, n: State)
    requires RunsTo(m, moves, n) && CanMove(n, Return)
    ensures ListInv(m) && Possible(m, moves)
    ensures var t := n.y.kernel.current.value;
      Story(m, moves, t, Told(None, [], [])) == Told(None, [], [n.pc[t].item])
  {
    RunStory(m, moves, n, n.y.kernel.current.value);
    hide ListInv, Possible, After, Story, Inv, RunsTo, RunningFree;
  }
}
