/**
 * The synchronous disk (filesys/synchdisk.cc) over the asynchronous one (machine/disk.cc), used by any
 * number of threads on the kernel.  A request is carried out on the disk at once and completes with an
 * interrupt later; the semaphore carries the news from the handler to the thread that holds the lock.
 */
module SynchDisk {
  import opened Collections
  import opened Threads
  import opened Synchronization
  import opened KernelRuns
  import opened KernelFrame
  import opened KernelEffects

  type Data = seq<int>

  datatype Request = Read(sector: nat) | Write(sector: nat, data: Data)

  /** Locking begins with Acquire, Awaiting with P; data is what a read found. */
  datatype Pc = Idle | Locking(r: Request) | Issued(r: Request, data: Data) | Awaiting(r: Request, data: Data)

  /** log holds the writes in the order in which they reached the disk, start what it held before. */
  datatype State = State(
    y: System, lock: Queue, sem: Queue, disk: seq<Data>, active: bool, pc: map<Thread, Pc>,
    start: seq<Data>, log: seq<Request>)

  function PcOf(m: State, t: Thread): Pc {
    if t in m.pc then m.pc[t] else Idle
  }

  datatype Move = Start(r: Request) | Issue | CallP | Return | Interrupt | Other(e: Event)

  predicate InRange(m: State, r: Request) {
    r.sector < |m.disk|
  }

  ghost predicate Foreign(m: State, e: Event) {
    && Enabled(m.y, e)
    && (e.Call? ==> !Names(e.op, m.lock) && !Names(e.op, m.sem))
    && (e.Call? && e.op != DoYield ==> PcOf(m, m.y.kernel.current.value) == Idle)
    && e != Handler(m.sem)
  }

  ghost predicate CanMove(m: State, v: Move) {
    && (!v.Other? && v != Interrupt ==> RunningFree(m.y))
    && IsLock(m.y, m.lock) && IsSemaphore(m.y, m.sem)
    && match v
       case Start(r) => PcOf(m, m.y.kernel.current.value) == Idle && InRange(m, r)
       case Issue => PcOf(m, m.y.kernel.current.value).Locking?
       case CallP => PcOf(m, m.y.kernel.current.value).Issued?
       case Return => PcOf(m, m.y.kernel.current.value).Awaiting?
       case Interrupt => m.active && Enabled(m.y, Handler(m.sem))
       case Other(e) => Inv(m.y) && Foreign(m, e)
  }

  /** ReadRequest or WriteRequest. */
  function Carry(m: State, t: Thread, r: Request): State
    requires InRange(m, r)
  {
    match r
    case Read(n) => m.(active := true, pc := m.pc[t := Issued(r, m.disk[n])])
    case Write(n, d) => m.(active := true, disk := m.disk[n := d], log := m.log + [r], pc := m.pc[t := Issued(r, d)])
  }

  ghost function Next(m: State, v: Move): State
    requires CanMove(m, v)
  {
    if v.Other? then m.(y := Step(m.y, v.e))
    else if v == Interrupt then m.(active := false, y := V(m.y, m.sem))
    else
      var t := m.y.kernel.current.value;
      match v
      case Start(r) => m.(y := TryAcquire(m.y, m.lock), pc := m.pc[t := Locking(r)])
      case Issue => if InRange(m, m.pc[t].r) then Carry(m, t, m.pc[t].r) else m
      case CallP => m.(y := TryP(m.y, m.sem), pc := m.pc[t := Awaiting(m.pc[t].r, m.pc[t].data)])
      case Return => m.(y := Release(m.y, m.lock), pc := m.pc[t := Idle])
  }

  /** The last thing written to the sector, or what it held at the start. */
  function Latest(start: seq<Data>, log: seq<Request>, n: nat): Data
    requires n < |start|
  {
    if log == [] then start[n]
    else
      var last := log[|log| - 1];
      if last.Write? && last.sector == n then last.data else Latest(start, log[..|log| - 1], n)
  }

  // ---- the invariant ----

  predicate Agrees(p: Pc, d: Doing, l: Queue, s: Queue) {
    match p
    case Idle => !Concerns(d, l) && !Concerns(d, s)
    case Locking(_) => d == Free || d == InAcquire(l)
    case Issued(_, _) => d == Free
    case Awaiting(_, _) => d == Free || d == InP(s)
  }

  /** The thread holds the lock: past Acquire, or on to the request. */
  predicate Inside(p: Pc, d: Doing) {
    p.Issued? || p.Awaiting? || (p.Locking? && d == Free)
  }

  /** The request has been made and its completion not yet taken. */
  predicate InFlight(p: Pc, d: Doing) {
    p.Issued? || (p.Awaiting? && d != Free)
  }

  datatype View = View(owner: Option<Thread>, doing: map<Thread, Doing>, value: nat, active: bool, pc: map<Thread, Pc>, disk: seq<Data>)

  function Seen(m: State): View
    requires IsLock(m.y, m.lock) && IsSemaphore(m.y, m.sem)
  {
    View(m.y.objects[m.lock].owner, m.y.doing, m.y.objects[m.sem].value, m.active, m.pc, m.disk)
  }

  function At(v: View, t: Thread): Pc {
    if t in v.pc then v.pc[t] else Idle
  }

  ghost predicate ThreadOk(v: View, l: Queue, s: Queue, t: Thread) {
    && (At(v, t) != Idle ==> t in v.doing && At(v, t).r.sector < |v.disk|)
    && (t in v.doing ==> Agrees(At(v, t), v.doing[t], l, s))
    && (t in v.doing && Inside(At(v, t), v.doing[t]) <==> v.owner == Some(t))
    && (At(v, t).Issued? || At(v, t).Awaiting? ==> At(v, t).r.sector < |v.disk| && v.disk[At(v, t).r.sector] == At(v, t).data)
    && (At(v, t).Issued? || At(v, t).Awaiting? ==> At(v, t).r.Write? ==> At(v, t).r.data == At(v, t).data)
  }

  /** The owner's request is under way. */
  predicate Busy(v: View) {
    v.owner.Some? && v.owner.value in v.doing && InFlight(At(v, v.owner.value), v.doing[v.owner.value])
  }

  /** One completion, still to come from the disk or waiting in the semaphore, for one request under way. */
  ghost predicate OneCompletion(v: View) {
    (if v.active then 1 else 0) + v.value == if Busy(v) then 1 else 0
  }

  ghost predicate ViewInv(v: View, l: Queue, s: Queue) {
    (forall t :: ThreadOk(v, l, s, t)) && OneCompletion(v)
  }

  ghost predicate DiskInv(m: State) {
    && Inv(m.y) && IsLock(m.y, m.lock) && IsSemaphore(m.y, m.sem) && m.lock != m.sem
    && ViewInv(Seen(m), m.lock, m.sem)
    && |m.disk| == |m.start|
    && forall n: nat :: n < |m.disk| ==> m.disk[n] == Latest(m.start, m.log, n)
  }

  // ---- the moves on what the invariant speaks of ----

  lemma AcquireView(v: View, l: Queue, s: Queue, t: Thread, p: Pc, w: View)
    requires ViewInv(v, l, s) && t in v.doing && p.Locking? && p.r.sector < |v.disk|
    requires At(v, t) == Idle || (At(v, t) == p && v.doing[t] != Free)
    requires w == if v.owner.Some? && v.owner != Some(t) then v.(doing := v.doing[t := InAcquire(l)], pc := v.pc[t := p])
                  else v.(owner := Some(t), doing := v.doing[t := Free], pc := v.pc[t := p])
    ensures ViewInv(w, l, s)
  {
    assert ThreadOk(v, l, s, t);
    forall u ensures ThreadOk(w, l, s, u) {
      assert ThreadOk(v, l, s, u);
    }
  }

  lemma IssueView(v: View, l: Queue, s: Queue, t: Thread, data: Data)
    requires ViewInv(v, l, s) && t in v.doing && v.doing[t] == Free && At(v, t).Locking? && (At(v, t).r.Write? ==> At(v, t).r.data == data)
    requires At(v, t).r.sector < |v.disk| && (At(v, t).r.Read? ==> v.disk[At(v, t).r.sector] == data)
    ensures !v.active && ViewInv(v.(active := true, disk := v.disk[At(v, t).r.sector := data], pc := v.pc[t := Issued(At(v, t).r, data)]), l, s)
  {
    var w := v.(active := true, disk := v.disk[At(v, t).r.sector := data], pc := v.pc[t := Issued(At(v, t).r, data)]);
    assert ThreadOk(v, l, s, t);
    forall u ensures ThreadOk(w, l, s, u) {
      assert ThreadOk(v, l, s, u);
    }
  }

  /** P sleeps on zero or takes the completion; by the call or on the way back from Sleep. */
  lemma PView(v: View, l: Queue, s: Queue, t: Thread, w: View)
    requires ViewInv(v, l, s) && t in v.doing && InFlight(At(v, t), v.doing[t])
    requires var p := Awaiting(At(v, t).r, At(v, t).data);
      w == if v.value == 0 then v.(doing := v.doing[t := InP(s)], pc := v.pc[t := p])
           else v.(value := v.value - 1, doing := v.doing[t := Free], pc := v.pc[t := p])
    ensures ViewInv(w, l, s)
  {
    assert ThreadOk(v, l, s, t);
    forall u ensures ThreadOk(w, l, s, u) {
      assert ThreadOk(v, l, s, u);
    }
  }

  lemma ReturnView(v: View, l: Queue, s: Queue, t: Thread)
    requires ViewInv(v, l, s) && t in v.doing && v.doing[t] == Free && At(v, t).Awaiting?
    ensures v.owner == Some(t) && ViewInv(v.(owner := None, pc := v.pc[t := Idle]), l, s)
  {
    var w := v.(owner := None, pc := v.pc[t := Idle]);
    assert ThreadOk(v, l, s, t);
    forall u ensures ThreadOk(w, l, s, u) {
      assert ThreadOk(v, l, s, u);
    }
  }

  lemma InterruptView(v: View, l: Queue, s: Queue)
    requires ViewInv(v, l, s) && v.active
    ensures ViewInv(v.(active := false, value := v.value + 1), l, s)
  {
    var w := v.(active := false, value := v.value + 1);
    forall u ensures ThreadOk(w, l, s, u) {
      assert ThreadOk(v, l, s, u);
    }
  }

  lemma OtherView(v: View, l: Queue, s: Queue, w: View, t: Option<Thread>)
    requires ViewInv(v, l, s) && w == v.(doing := w.doing)
    requires forall u :: t != Some(u) ==> if u in v.doing then u in w.doing && w.doing[u] == v.doing[u] else u in w.doing ==> w.doing[u] == Free
    requires t.Some? && t.value in w.doing ==>
               (t.value in v.doing && w.doing[t.value] == v.doing[t.value]) || (At(v, t.value) == Idle && Agrees(Idle, w.doing[t.value], l, s))
    requires t.Some? && t.value !in w.doing ==> At(v, t.value) == Idle
    ensures ViewInv(w, l, s)
  {
    forall u ensures ThreadOk(w, l, s, u) {
      assert ThreadOk(v, l, s, u);
    }
    if v.owner.Some? {
      assert ThreadOk(v, l, s, v.owner.value);
    }
  }

  // ---- the moves on the system ----

  lemma StartKeeps(m: State, r: Request)
    requires DiskInv(m) && RunningFree(m.y) && PcOf(m, m.y.kernel.current.value) == Idle && InRange(m, r)
    ensures DiskInv(m.(y := TryAcquire(m.y, m.lock), pc := m.pc[m.y.kernel.current.value := Locking(r)]))
  {
    hide Sound, ViewInv, TryAcquire, On, Woken, Latest;
    var t := m.y.kernel.current.value;
    var n := m.(y := TryAcquire(m.y, m.lock), pc := m.pc[t := Locking(r)]);
    StepKeeps(m.y, Call(DoAcquire(m.lock)));
    AcquireEffect(m.y, m.lock, m.sem);
    assert m.y.doing[t := Free] == m.y.doing;
    AcquireView(Seen(m), m.lock, m.sem, t, Locking(r), Seen(n));
  }

  lemma {:induction false} LatestWrite(start: seq<Data>, log: seq<Request>, r: Request, n: nat)
    requires n < |start|
    ensures Latest(start, log + [r], n) == if r.Write? && r.sector == n then r.data else Latest(start, log, n)
  {
    assert (log + [r])[..|log|] == log;
  }

  /** The request finds the disk inactive: the assertion in ReadRequest and WriteRequest holds. */
  lemma IssueKeeps(m: State)
    requires DiskInv(m) && CanMove(m, Issue)
    ensures !m.active && InRange(m, m.pc[m.y.kernel.current.value].r) && DiskInv(Next(m, Issue))
  {
    hide Inv, On, Woken, Latest;
    var t, n := m.y.kernel.current.value, Next(m, Issue);
    assert ThreadOk(Seen(m), m.lock, m.sem, t);
    hide ViewInv;
    var r := m.pc[t].r;
    var data := if r.Write? then r.data else m.disk[r.sector];
    IssueView(Seen(m), m.lock, m.sem, t, data);
    assert m.disk[r.sector := data] == n.disk;
    if r.Write? {
      forall k: nat | k < |n.disk| ensures n.disk[k] == Latest(n.start, n.log, k) {
        LatestWrite(m.start, m.log, r, k);
      }
    }
  }

  lemma CallPKeeps(m: State)
    requires DiskInv(m) && CanMove(m, CallP)
    ensures DiskInv(Next(m, CallP))
  {
    hide Sound, ViewInv, TryP, On, Woken, Latest;
    var t, n := m.y.kernel.current.value, Next(m, CallP);
    StepKeeps(m.y, Call(DoP(m.sem)));
    PEffect(m.y, m.sem, m.lock);
    assert m.y.doing[t := Free] == m.y.doing;
    PView(Seen(m), m.lock, m.sem, t, Seen(n));
  }

  lemma ReturnKeeps(m: State)
    requires DiskInv(m) && CanMove(m, Return)
    ensures DiskInv(Next(m, Return))
  {
    hide Sound, ViewInv, Release, On, Woken, Latest;
    StepKeeps(m.y, Call(DoRelease(m.lock)));
    ReturnView(Seen(m), m.lock, m.sem, m.y.kernel.current.value);
    ReleaseEffect(m.y, m.lock, m.sem);
  }

  lemma InterruptKeeps(m: State)
    requires DiskInv(m) && CanMove(m, Interrupt)
    ensures DiskInv(Next(m, Interrupt))
  {
    hide Sound, ViewInv, V, On, Woken, Latest;
    StepKeeps(m.y, Handler(m.sem));
    VEffect(m.y, m.sem, m.lock);
    InterruptView(Seen(m), m.lock, m.sem);
  }

  /** Back from Sleep in Acquire. */
  lemma ResumeLocking(m: State)
    requires DiskInv(m) && Enabled(m.y, Continue)
    requires var t := m.y.kernel.current.value; t in m.y.doing && PcOf(m, t).Locking?
    ensures DiskInv(m.(y := Step(m.y, Continue)))
  {
    hide Sound, ViewInv, TryAcquire, On, Woken, Rerun, Latest;
    var t, z := m.y.kernel.current.value, Rerun(m.y);
    var p, n := PcOf(m, t), m.(y := Step(m.y, Continue));
    AtThread(m, t);
    StepKeeps(m.y, Continue);
    RerunEffect(m.y);
    assert n.y == TryAcquire(z, m.lock);
    hide Inv, Step;
    AcquireEffect(z, m.lock, m.sem);
    assert m.pc[t := p] == m.pc;
    assert m.y.doing[t := Free][t := InAcquire(m.lock)] == m.y.doing[t := InAcquire(m.lock)];
    AcquireView(Seen(m), m.lock, m.sem, t, p, Seen(n));
  }

  /** Back from Sleep in P. */
  lemma ResumeAwaiting(m: State)
    requires DiskInv(m) && Enabled(m.y, Continue)
    requires var t := m.y.kernel.current.value; t in m.y.doing && PcOf(m, t).Awaiting?
    ensures DiskInv(m.(y := Step(m.y, Continue)))
  {
    hide Sound, ViewInv, TryP, On, Woken, Rerun, Latest;
    var t, z := m.y.kernel.current.value, Rerun(m.y);
    var p, n := PcOf(m, t), m.(y := Step(m.y, Continue));
    AtThread(m, t);
    StepKeeps(m.y, Continue);
    RerunEffect(m.y);
    assert n.y == TryP(z, m.sem);
    hide Inv, Step;
    PEffect(z, m.sem, m.lock);
    assert m.pc[t := p] == m.pc;
    assert m.y.doing[t := Free][t := InP(m.sem)] == m.y.doing[t := InP(m.sem)];
    PView(Seen(m), m.lock, m.sem, t, Seen(n));
  }

  lemma AtThread(m: State, t: Thread)
    requires DiskInv(m)
    ensures ThreadOk(Seen(m), m.lock, m.sem, t)
  {
    hide Inv, ThreadOk, Latest;
  }

  lemma UninvolvedKeeps(m: State, e: Event)
    requires DiskInv(m) && Enabled(m.y, e) && !Involves(m.y, e, m.lock) && !Involves(m.y, e, m.sem)
    requires var t, z := m.y.kernel.current, Step(m.y, e);
      && (t.Some? && t.value in z.doing ==>
            (t.value in m.y.doing && z.doing[t.value] == m.y.doing[t.value]) || (PcOf(m, t.value) == Idle && Agrees(Idle, z.doing[t.value], m.lock, m.sem)))
      && (t.Some? && t.value !in z.doing ==> PcOf(m, t.value) == Idle)
    ensures DiskInv(m.(y := Step(m.y, e)))
  {
    hide Sound, ViewInv, Step, On, Woken, Involves, Latest;
    StepKeeps(m.y, e);
    StepElsewhere(m.y, e, m.lock);
    StepElsewhere(m.y, e, m.sem);
    StepOthers(m.y, e);
    OtherView(Seen(m), m.lock, m.sem, Seen(m.(y := Step(m.y, e))), m.y.kernel.current);
  }

  lemma ForeignCall(m: State, op: Op)
    requires DiskInv(m) && Foreign(m, Call(op))
    ensures DiskInv(m.(y := Step(m.y, Call(op))))
  {
    hide Sound, ViewInv, Perform, On, Woken, Latest;
    PerformOwn(m.y, op, m.lock);
    PerformOwn(m.y, op, m.sem);
    UninvolvedKeeps(m, Call(op));
  }

  lemma ForeignContinue(m: State)
    requires DiskInv(m) && Enabled(m.y, Continue)
    ensures DiskInv(m.(y := Step(m.y, Continue)))
  {
    hide Sound, ViewInv, Resume, On, Woken, Latest;
    var t := m.y.kernel.current.value;
    AtThread(m, t);
    assert Fits(m.y, m.y.doing[t]);
    if PcOf(m, t) == Idle {
      ResumeOwn(m.y, m.lock);
      ResumeOwn(m.y, m.sem);
      UninvolvedKeeps(m, Continue);
    } else if PcOf(m, t).Locking? {
      ResumeLocking(m);
    } else {
      ResumeAwaiting(m);
    }
  }

  lemma OtherKeeps(m: State, e: Event)
    requires DiskInv(m) && Foreign(m, e)
    ensures DiskInv(m.(y := Step(m.y, e)))
  {
    hide Sound, ViewInv, Perform, Resume, Dispatch, WakeOne, On, Woken, Latest;
    match e
    case Call(op) => ForeignCall(m, op);
    case Continue => ForeignContinue(m);
    case Switch => UninvolvedKeeps(m, e);
    case Handler(s) =>
      VOthers(m.y, s);
      UninvolvedKeeps(m, e);
  }

  lemma MoveKeeps(m: State, v: Move)
    requires DiskInv(m) && CanMove(m, v)
    ensures DiskInv(Next(m, v))
  {
    hide DiskInv, Inv, Foreign, TryAcquire, TryP, Release, V, Carry, Step, RunningFree;
    match v
    case Start(r) => StartKeeps(m, r);
    case Issue => IssueKeeps(m);
    case CallP => CallPKeeps(m);
    case Return => ReturnKeeps(m);
    case Interrupt => InterruptKeeps(m);
    case Other(e) => OtherKeeps(m, e);
  }

  // ---- runs ----

  /** A disk just opened: no request made, nobody at its lock or its semaphore. */
  ghost predicate NewDisk(m: State) {
    && Inv(m.y) && m.lock != m.sem && IsLock(m.y, m.lock) && IsSemaphore(m.y, m.sem) && ValueOf(m.y, m.sem) == 0
    && m.y.objects[m.lock].owner == None && !m.active
    && (forall t :: t in m.y.doing ==> !Concerns(m.y.doing[t], m.lock) && !Concerns(m.y.doing[t], m.sem))
    && m.pc == map[] && m.log == [] && m.disk == m.start
  }

  lemma NewDiskInv(m: State)
    requires NewDisk(m)
    ensures DiskInv(m)
  {
    hide Inv;
  }

  ghost predicate Possible(m: State, moves: seq<Move>)
    requires DiskInv(m)
    decreases |moves|
  {
    moves == [] || (CanMove(m, moves[0]) && (MoveKeeps(m, moves[0]); Possible(Next(m, moves[0]), moves[1..])))
  }

  ghost function After(m: State, moves: seq<Move>): State
    requires DiskInv(m) && Possible(m, moves)
    decreases |moves|
  {
    if moves == [] then m else MoveKeeps(m, moves[0]); After(Next(m, moves[0]), moves[1..])
  }

  lemma {:induction false} RunKeeps(m: State, moves: seq<Move>)
    requires DiskInv(m) && Possible(m, moves)
    ensures DiskInv(After(m, moves))
    decreases |moves|
  {
    hide DiskInv, CanMove, Next;
    if moves != [] {
      MoveKeeps(m, moves[0]);
      RunKeeps(Next(m, moves[0]), moves[1..]);
    }
  }

  ghost predicate RunsTo(m: State, moves: seq<Move>, n: State) {
    NewDisk(m) && (NewDiskInv(m); Possible(m, moves) && n == After(m, moves))
  }

  /** n is a state of some run of the kernel and the disk since the disk was opened. */
  ghost predicate Reached(n: State) {
    exists m: State, moves: seq<Move> :: RunsTo(m, moves, n)
  }

  lemma ReachedInv(n: State)
    requires Reached(n)
    ensures DiskInv(n)
  {
    hide DiskInv, Possible, After, NewDisk;
    var m, moves :| RunsTo(m, moves, n);
    NewDiskInv(m);
    RunKeeps(m, moves);
  }

  /** A thread that makes its request finds the disk inactive and its sector in range, in every run. */
  lemma NeverActiveAtRequest(n: State)
    requires Reached(n) && CanMove(n, Issue)
    ensures !n.active && InRange(n, n.pc[n.y.kernel.current.value].r)
  {
    hide Reached, DiskInv, CanMove, Next;
    ReachedInv(n);
    IssueKeeps(n);
  }

  /** While the disk is active exactly one request is outstanding, and its thread holds the lock. */
  lemma OneOutstanding(n: State)
    requires Reached(n)
    ensures IsLock(n.y, n.lock) && IsSemaphore(n.y, n.sem)
    ensures n.active ==> Busy(Seen(n)) && ValueOf(n.y, n.sem) == 0
    ensures forall t :: t in n.y.doing && InFlight(PcOf(n, t), n.y.doing[t]) ==> n.y.objects[n.lock].owner == Some(t)
  {
    hide Reached, Inv, Latest;
    ReachedInv(n);
    forall t | t in n.y.doing && InFlight(PcOf(n, t), n.y.doing[t]) ensures n.y.objects[n.lock].owner == Some(t) {
      AtThread(n, t);
    }
  }

  // ---- what the caller asked for ----

  /** What a thread last asked for, and what it has written since. */
  datatype Told = Told(asked: Option<Request>, wrote: seq<Request>)

  ghost function Tell(m: State, v: Move, t: Thread, s: Told): Told
    requires CanMove(m, v)
  {
    if m.y.kernel.current != Some(t) then s
    else if v.Start? then Told(Some(v.r), [])
    else s.(wrote := s.wrote + Gained(m.log, Next(m, v).log))
  }

  /** The story of thread t over a run. */
  ghost function Story(m: State, moves: seq<Move>, t: Thread, s: Told): Told
    requires DiskInv(m) && Possible(m, moves)
    decreases |moves|
  {
    if moves == [] then s
    else MoveKeeps(m, moves[0]); Story(Next(m, moves[0]), moves[1..], t, Tell(m, moves[0], t, s))
  }

  /** A thread in the midst of a request is at the one it asked for, and has written it once if it has got that far. */
  ghost predicate ToldOk(m: State, t: Thread, s: Told) {
    var p := PcOf(m, t);
    p != Idle ==> s.asked == Some(p.r) && s.wrote == if !p.Locking? && p.r.Write? then [p.r] else []
  }

  lemma TellKeeps(m: State, v: Move, t: Thread, s: Told)
    requires DiskInv(m) && CanMove(m, v) && ToldOk(m, t, s)
    ensures ToldOk(Next(m, v), t, Tell(m, v, t, s))
  {
    hide DiskInv, Inv, Foreign, TryAcquire, TryP, Release, V, Step;
    if v == Issue {
      IssueKeeps(m);
    }
    assert s.wrote + [] == s.wrote && m.log[|m.log|..] == [];
    assert forall q: Request :: (m.log + [q])[|m.log|..] == [q];
  }

  lemma {:induction false} StoryOk(m: State, moves: seq<Move>, t: Thread, s: Told)
    requires DiskInv(m) && Possible(m, moves) && ToldOk(m, t, s)
    ensures ToldOk(After(m, moves), t, Story(m, moves, t, s))
    decreases |moves|
  {
    hide DiskInv, CanMove, Next, Tell, ToldOk;
    if moves != [] {
      MoveKeeps(m, moves[0]);
      TellKeeps(m, moves[0], t, s);
      StoryOk(Next(m, moves[0]), moves[1..], t, Tell(m, moves[0], t, s));
    }
  }

  lemma RunsReach(m: State, moves: seq<Move>, n: State)
    requires RunsTo(m, moves, n)
    ensures DiskInv(m) && Possible(m, moves) && n == After(m, moves) && DiskInv(n) && Reached(n)
  {
    NewDiskInv(m);
    hide DiskInv, Possible, After, NewDisk;
    RunKeeps(m, moves);
  }

  /**
   * A thread that is about to return has been served what it asked for.  A WriteSector has written its
   * data to its sector, once; a ReadSector has the last thing written to its sector, and has written nothing.
   */
  lemma ReadsLatestWrite(m: State, moves: seq<Move>, n: State)
    requires RunsTo(m, moves, n) && CanMove(n, Return)
    ensures DiskInv(m) && Possible(m, moves)
    ensures var t := n.y.kernel.current.value;
      var told := Story(m, moves, t, Told(None, []));
      && !n.active && told.asked.Some? && told.asked.value.sector < |n.start|
      && n.pc[t].data == Latest(n.start, n.log, told.asked.value.sector)
      && (told.asked.value.Read? ==> told.wrote == [])
      && (told.asked.value.Write? ==> told.wrote == [told.asked.value] && n.pc[t].data == told.asked.value.data)
  {
    hide Reached, Inv, Latest, Possible, After, Story;
    RunsReach(m, moves, n);
    var t := n.y.kernel.current.value;
    StoryOk(m, moves, t, Told(None, []));
    AtThread(n, t);
  }

  /** The lock is held exactly by the thread whose request is being served; a thread that has returned has let it go. */
  lemma HeldWhileServing(n: State, t: Thread)
    requires Reached(n)
    ensures IsLock(n.y, n.lock) && (n.y.objects[n.lock].owner == Some(t) <==> t in n.y.doing && Inside(PcOf(n, t), n.y.doing[t]))
  {
    hide Reached, Inv, Latest;
    ReachedInv(n);
    AtThread(n, t);
  }

  lemma WaiterOwns(n: State, t: Thread)
    requires DiskInv(n) && t in On(n.y.kernel, n.sem)
    ensures n.y.objects[n.lock].owner == Some(t)
  {
    assert Split(On(n.y.kernel, n.sem), Woken(n.y, n.sem), n.y.doing, n.sem);
    hide Orderly, Latest, On, Woken, Ok;
    assert ThreadOk(Seen(n), n.lock, n.sem, t) && Fits(n.y, n.y.doing[t]);
  }

  lemma TwoDiffer(s: seq<Thread>)
    requires Distinct(s)
    ensures |s| > 1 ==> exists t, u :: t in s && u in s && t != u
  {
    if |s| > 1 {
      assert s[0] in s && s[1] in s && s[0] != s[1];
    }
  }

  lemma OneWaits(n: State)
    requires DiskInv(n)
    ensures |On(n.y.kernel, n.sem)| <= 1
  {
    var s := On(n.y.kernel, n.sem);
    assert Distinct(s) by {
      assert Holds(s, n.y.kernel.where, Waiting(n.sem));
    }
    hide DiskInv, On;
    forall t | t in s ensures n.y.objects[n.lock].owner == Some(t) {
      WaiterOwns(n, t);
    }
    TwoDiffer(s);
  }

  /** The interrupt leaves the disk inactive, one completion in the semaphore and nobody asleep on it. */
  lemma InterruptWakes(n: State)
    requires Reached(n) && CanMove(n, Interrupt)
    ensures var z := Next(n, Interrupt); !z.active && IsSemaphore(z.y, n.sem) && ValueOf(z.y, n.sem) == 1 && On(z.y.kernel, n.sem) == []
  {
    hide Reached, Inv, Latest, On, Woken, V;
    ReachedInv(n);
    OneWaits(n);
    VHasEffect(n.y, n.sem);
  }
}
