/**
 * Post offices run by threads on their kernels.  On each machine any thread may send, under sendLock and
 * waiting on messageSent for the network to take the packet; the postal worker waits on
 * messageAvailable for the network to have one.  Sending is the protocol of SynchDisk with the network as
 * the device and the destination for the sector.  Every step is a step of module PostOffice or none.
 */
module PostRooms {
  import opened Collections
  import opened Threads
  import opened Synchronization
  import opened KernelRuns
  import opened KernelFrame
  import D = SynchDisk
  import P = PostOffice

  /** Where the worker is in its loop: before P, in it, past it, or with a packet in its buffer. */
  datatype At = Looping | Sleeping | Holding | Bearing

  /** d is the kernel with the sending side; avail is messageAvailable. */
  datatype Host = Host(d: D.State, avail: Queue, worker: Thread, at: At)

  // ---- the worker among other threads ----

  /** Only the worker has to do with messageAvailable, and it sleeps only there. */
  ghost predicate WorkerOnly(y: System, avail: Queue, worker: Thread, at: At) {
    && IsSemaphore(y, avail) && worker in y.doing
    && y.doing[worker] == (if at == Sleeping then InP(avail) else Free)
    && (forall t :: t in y.doing && t != worker ==> !Concerns(y.doing[t], avail))
  }

  /** What may happen that is not the worker's doing: of itself it only loses the processor. */
  ghost predicate Aside(y: System, e: Event, avail: Queue, worker: Thread) {
    && Enabled(y, e) && (e.Call? ==> !Names(e.op, avail)) && e != Handler(avail)
    && (y.kernel.current == Some(worker) ==> e.Handler? || e == Call(DoYield))
  }

  lemma AsideKeeps(y: System, e: Event, avail: Queue, worker: Thread, at: At)
    requires Inv(y) && WorkerOnly(y, avail, worker, at) && Aside(y, e, avail, worker)
    ensures WorkerOnly(Step(y, e), avail, worker, at) && ValueOf(Step(y, e), avail) == ValueOf(y, avail)
  {
    var z, t := Step(y, e), y.kernel.current;
    assert !Involves(y, e, avail);
    StepElsewhere(y, e, avail);
    StepOthers(y, e);
    hide Sound, Perform, Resume, Dispatch, On, Woken;
    match e
    case Call(op) => PerformOwn(y, op, avail);
    case Continue =>
      assert Fits(y, y.doing[t.value]);
      ResumeOwn(y, avail);
    case Switch =>
    case Handler(s) => VOthers(y, s);
  }

  /** P of the worker, called or come back to: it takes the token or sleeps. */
  lemma WorkerTriesP(y: System, avail: Queue, worker: Thread, at: At)
    requires Inv(y) && WorkerOnly(y, avail, worker, at) && y.kernel.current == Some(worker) && y.doing[worker] == Free
    ensures var z := TryP(y, avail); WorkerOnly(z, avail, worker, if ValueOf(y, avail) == 0 then Sleeping else Holding)
    ensures ValueOf(TryP(y, avail), avail) == if ValueOf(y, avail) == 0 then 0 else ValueOf(y, avail) - 1
  {
    hide Inv, On, Woken, TryP;
    PEffect(y, avail, avail + 1);
  }

  lemma WorkerComesBack(y: System, avail: Queue, worker: Thread)
    requires Inv(y) && WorkerOnly(y, avail, worker, Sleeping) && y.kernel.current == Some(worker)
    ensures Enabled(y, Continue) && IsSemaphore(Rerun(y), avail) && Step(y, Continue) == TryP(Rerun(y), avail)
    ensures var z := Step(y, Continue); WorkerOnly(z, avail, worker, if ValueOf(y, avail) == 0 then Sleeping else Holding)
    ensures ValueOf(Step(y, Continue), avail) == if ValueOf(y, avail) == 0 then 0 else ValueOf(y, avail) - 1
  {
    hide Sound, On, Woken, TryP, Rerun;
    RerunEffect(y);
    assert Fits(y, y.doing[worker]);
    PEffect(Rerun(y), avail, avail + 1);
  }

  lemma TokenArrives(y: System, avail: Queue, worker: Thread, at: At)
    requires Inv(y) && WorkerOnly(y, avail, worker, at)
    ensures WorkerOnly(V(y, avail), avail, worker, at) && ValueOf(V(y, avail), avail) == ValueOf(y, avail) + 1
  {
    hide Inv, On, Woken, V;
    VEffect(y, avail, avail + 1);
  }

  // ---- one machine ----

  /** What went to the network, as the device logs it and as the post office does. */
  ghost predicate Logged(log: seq<D.Request>, sent: seq<P.Sent>) {
    |log| == |sent| && forall i :: 0 <= i < |log| ==> |sent[i].mail.data| <= P.MAX_MAIL && log[i] == D.Write(sent[i].to, P.Encode(sent[i].mail))
  }

  predicate WorkerAt(at: At, w: P.Worker) {
    match at
    case Looping => w == P.AtP
    case Sleeping => w == P.AtP
    case Holding => w == P.HasToken
    case Bearing => w.Delivering?
  }

  /** The host and the machine of the post office agree; n machines can be written to. */
  ghost predicate HostInv(h: Host, m: P.Machine, n: nat) {
    && D.DiskInv(h.d) && |h.d.disk| == n && D.PcOf(h.d, h.worker) == D.Idle
    && h.avail != h.d.lock && h.avail != h.d.sem
    && WorkerOnly(h.d.y, h.avail, h.worker, h.at) && ValueOf(h.d.y, h.avail) == m.available && WorkerAt(h.at, m.worker)
    && Logged(h.d.log, m.sent)
  }

  datatype Act =
    | StartSend(to: nat, mail: P.Mail) | Transmit(mail: P.Mail, lost: bool) | Device(v: D.Move)
    | Arrive | WorkerP | WorkerWakes | WorkerReceive | WorkerPut
    | Fetch(box: nat)

  function Running(h: Host): Option<Thread> {
    h.d.y.kernel.current
  }

  /** The event of the kernel behind a move of the sending side, if it has one. */
  function EventOf(d: D.State, v: D.Move): Option<Event> {
    match v
    case Start(_) => Some(Call(DoAcquire(d.lock)))
    case Issue => None
    case CallP => Some(Call(DoP(d.sem)))
    case Return => Some(Call(DoRelease(d.lock)))
    case Interrupt => Some(Handler(d.sem))
    case Other(e) => Some(e)
  }

  /** The rest of sending and everything else, as long as messageAvailable is left to the worker. */
  ghost predicate DeviceMove(h: Host, v: D.Move) {
    && D.CanMove(h.d, v) && !v.Start? && v != D.Issue
    && (v.Other? ==> Aside(h.d.y, v.e, h.avail, h.worker))
  }

  ghost predicate CanAct(h: Host, m: P.Machine, c: Act, n: nat, boxes: nat) {
    match c
    case StartSend(to, mail) =>
      to < n && P.Legal(mail, boxes) && Running(h) != Some(h.worker) && D.CanMove(h.d, D.Start(D.Write(to, P.Encode(mail))))
    case Transmit(mail, lost) =>
      && D.CanMove(h.d, D.Issue) && P.Legal(mail, boxes)
      && var r := h.d.pc[Running(h).value].r; r.Write? && r.data == P.Encode(mail)
    case Device(v) => DeviceMove(h, v)
    case Arrive => Enabled(h.d.y, Handler(h.avail))
    case WorkerP => RunningFree(h.d.y) && Running(h) == Some(h.worker) && h.at == Looping
    case WorkerWakes => Running(h) == Some(h.worker) && h.at == Sleeping
    case WorkerReceive => RunningFree(h.d.y) && Running(h) == Some(h.worker) && h.at == Holding
    case WorkerPut => RunningFree(h.d.y) && Running(h) == Some(h.worker) && h.at == Bearing
    case Fetch(box) => RunningFree(h.d.y) && Running(h) != Some(h.worker) && box < |m.boxes| && m.boxes[box] != []
  }

  /** CheckPktAvail finds a packet and room for it. */
  predicate Filled(m: P.Machine) {
    m.inbox == None && m.wire != []
  }

  /** The step of the post office that machine b takes, if it takes one. */
  ghost function Abstract(h: Host, m: P.Machine, b: nat, c: Act): Option<P.Move> {
    match c
    case Transmit(mail, lost) =>
      if Running(h).Some? && Running(h).value in h.d.pc && h.d.pc[Running(h).value].Locking?
      then Some(P.Send(b, h.d.pc[Running(h).value].r.sector, mail, lost)) else None
    case Arrive => Some(P.Poll(b))
    case WorkerP => if m.available > 0 then Some(P.WorkerP(b)) else None
    case WorkerWakes => if m.available > 0 then Some(P.WorkerP(b)) else None
    case WorkerReceive => Some(P.WorkerReceive(b))
    case WorkerPut => Some(P.WorkerPut(b))
    case Fetch(box) => Some(P.Receive(b, box))
    case _ => None
  }

  ghost function ActOn(h: Host, m: P.Machine, c: Act, n: nat, boxes: nat): Host
    requires HostInv(h, m, n) && CanAct(h, m, c, n, boxes)
  {
    match c
    case StartSend(to, mail) => h.(d := D.Next(h.d, D.Start(D.Write(to, P.Encode(mail)))))
    case Transmit(_, _) => h.(d := D.Next(h.d, D.Issue))
    case Device(v) => h.(d := D.Next(h.d, v))
    case Arrive => if Filled(m) then h.(d := h.d.(y := V(h.d.y, h.avail))) else h
    case WorkerP => h.(d := h.d.(y := TryP(h.d.y, h.avail)), at := if m.available > 0 then Holding else Sleeping)
    case WorkerWakes =>
      WorkerComesBack(h.d.y, h.avail, h.worker);
      h.(d := h.d.(y := Step(h.d.y, Continue)), at := if m.available > 0 then Holding else Sleeping)
    case WorkerReceive => h.(at := Bearing)
    case WorkerPut => h.(at := Looping)
    case Fetch(_) => h
  }

  // ---- a machine's steps keep what it knows ----

  /** A move of the sending side but the transmission itself is one event of the kernel. */
  lemma DeviceStep(d: D.State, v: D.Move)
    requires D.DiskInv(d) && D.CanMove(d, v) && v != D.Issue
    ensures var e, z := EventOf(d, v).value, D.Next(d, v);
      && Enabled(d.y, e) && z.y == Step(d.y, e) && z.log == d.log && z.disk == d.disk
      && z.lock == d.lock && z.sem == d.sem
      && (forall t: Thread :: d.y.kernel.current != Some(t) ==> D.PcOf(z, t) == D.PcOf(d, t))
      && (v.Other? || v == D.Interrupt ==> z.pc == d.pc)
  {
    hide Sound, D.ViewInv, TryAcquire, TryP, Release, WakeOne, Resume, Dispatch, On, Woken, D.Latest;
  }

  lemma DeviceAside(h: Host, m: P.Machine, v: D.Move, n: nat)
    requires HostInv(h, m, n) && D.CanMove(h.d, v) && v != D.Issue
    requires v.Other? ==> Aside(h.d.y, v.e, h.avail, h.worker)
    requires v.Start? ==> Running(h) != Some(h.worker)
    ensures Aside(h.d.y, EventOf(h.d, v).value, h.avail, h.worker) && (!v.Other? && v != D.Interrupt ==> Running(h) != Some(h.worker))
  {
    DeviceStep(h.d, v);
    hide D.DiskInv, Inv, Step, WorkerOnly, Logged;
  }

  lemma DeviceKeeps(h: Host, m: P.Machine, v: D.Move, n: nat)
    requires HostInv(h, m, n) && D.CanMove(h.d, v) && v != D.Issue
    requires v.Other? ==> Aside(h.d.y, v.e, h.avail, h.worker)
    requires v.Start? ==> Running(h) != Some(h.worker)
    ensures HostInv(h.(d := D.Next(h.d, v)), m, n)
  {
    DiskHasInv(h.d);
    hide D.DiskInv, D.CanMove, D.Next, Aside, Logged, Step, Inv, EventOf;
    DeviceStep(h.d, v);
    DeviceAside(h, m, v, n);
    D.MoveKeeps(h.d, v);
    AsideKeeps(h.d.y, EventOf(h.d, v).value, h.avail, h.worker, h.at);
    assert D.PcOf(D.Next(h.d, v), h.worker) == D.Idle;
  }

  lemma DiskHasInv(d: D.State)
    requires D.DiskInv(d)
    ensures Inv(d.y)
  {
    hide Inv;
  }

  lemma TransmitKeeps(h: Host, m: P.Machine, n: nat, mail: P.Mail, lost: bool, m': P.Machine)
    requires HostInv(h, m, n) && D.CanMove(h.d, D.Issue) && |mail.data| <= P.MAX_MAIL
    requires var r := h.d.pc[Running(h).value].r; r == D.Write(r.sector, P.Encode(mail)) && m'.sent == m.sent + [P.Sent(r.sector, mail, lost)]
    requires m'.available == m.available && m'.worker == m.worker
    ensures !h.d.active && h.d.pc[Running(h).value].r.sector < n
    ensures HostInv(h.(d := D.Next(h.d, D.Issue)), m', n)
  {
    hide D.DiskInv, Inv, WorkerOnly, P.Encode;
    D.IssueKeeps(h.d);
    D.MoveKeeps(h.d, D.Issue);
  }

  /** An event foreign to the sending side leaves what it knows. */
  lemma SendingSideKeeps(h: Host, m: P.Machine, e: Event, n: nat)
    requires HostInv(h, m, n) && Enabled(h.d.y, e) && e != Handler(h.d.sem)
    requires e.Call? ==> !Names(e.op, h.d.lock) && !Names(e.op, h.d.sem) && (e.op == DoYield || Running(h) == Some(h.worker))
    ensures Inv(h.d.y) && D.DiskInv(h.d.(y := Step(h.d.y, e)))
  {
    DiskHasInv(h.d);
    assert IsLock(h.d.y, h.d.lock) && IsSemaphore(h.d.y, h.d.sem);
    hide D.DiskInv, Step, Inv, WorkerOnly, Logged;
    D.MoveKeeps(h.d, D.Other(e));
  }

  lemma HandlerIsV(y: System, s: Queue)
    requires Inv(y) && Enabled(y, Handler(s))
    ensures Step(y, Handler(s)) == V(y, s)
  {
    hide Inv, V;
  }

  lemma PollKeeps(h: Host, m: P.Machine, m': P.Machine, n: nat)
    requires HostInv(h, m, n) && Enabled(h.d.y, Handler(h.avail))
    requires m'.available == m.available + 1 && m'.worker == m.worker && m'.sent == m.sent
    ensures HostInv(h.(d := h.d.(y := V(h.d.y, h.avail))), m', n)
  {
    hide D.DiskInv, Inv, WorkerOnly, Logged, V, Enabled;
    SendingSideKeeps(h, m, Handler(h.avail), n);
    HandlerIsV(h.d.y, h.avail);
    TokenArrives(h.d.y, h.avail, h.worker, h.at);
  }

  /** The worker's P, called or come back to, is the worker's step of the post office or none. */
  lemma WorkerPKeeps(h: Host, m: P.Machine, n: nat)
    requires HostInv(h, m, n) && RunningFree(h.d.y) && Running(h) == Some(h.worker) && h.at == Looping
    ensures var at := if m.available > 0 then Holding else Sleeping;
      HostInv(h.(d := h.d.(y := TryP(h.d.y, h.avail)), at := at),
              if m.available > 0 then m.(worker := P.HasToken, available := m.available - 1) else m, n)
  {
    SendingSideKeeps(h, m, Call(DoP(h.avail)), n);
    WorkerTriesP(h.d.y, h.avail, h.worker, h.at);
    hide D.DiskInv, Inv, Logged, TryP;
  }

  lemma WorkerWakesKeeps(h: Host, m: P.Machine, n: nat)
    requires HostInv(h, m, n) && Running(h) == Some(h.worker) && h.at == Sleeping
    ensures Inv(h.d.y) && Enabled(h.d.y, Continue)
    ensures var at := if m.available > 0 then Holding else Sleeping;
      HostInv(h.(d := h.d.(y := Step(h.d.y, Continue)), at := at),
              if m.available > 0 then m.(worker := P.HasToken, available := m.available - 1) else m, n)
  {
    DiskHasInv(h.d);
    WorkerComesBack(h.d.y, h.avail, h.worker);
    SendingSideKeeps(h, m, Continue, n);
    hide D.DiskInv, Inv, Logged, Step;
  }

  // ---- all machines ----

  datatype World = World(hosts: seq<Host>, net: seq<P.Machine>)

  ghost predicate WorldInv(w: World, boxes: nat) {
    && |w.hosts| == |w.net| && P.NetInv(w.net, boxes)
    && forall b :: 0 <= b < |w.net| ==> HostInv(w.hosts[b], w.net[b], |w.net|)
  }

  ghost predicate CanMove(w: World, b: nat, c: Act, boxes: nat) {
    b < |w.net| == |w.hosts| && CanAct(w.hosts[b], w.net[b], c, |w.net|, boxes)
  }

  /** Every step of a machine that touches the network or the mail is a step the post office can take. */
  lemma Refines(w: World, b: nat, c: Act, boxes: nat)
    requires WorldInv(w, boxes) && CanMove(w, b, c, boxes)
    ensures var pm := Abstract(w.hosts[b], w.net[b], b, c); pm.Some? ==> P.CanMove(w.net, pm.value, boxes)
    ensures c.Transmit? ==> Abstract(w.hosts[b], w.net[b], b, c).Some? && !w.hosts[b].d.active
  {
    hide D.DiskInv, P.NetInv, WorkerOnly, Logged, Inv, D.Next, D.CanMove, P.Encode;
    if c.Transmit? {
      TransmitReady(w.hosts[b], w.net[b], |w.net|);
    }
  }

  /** A thread that is about to transmit finds the network idle and its destination a machine. */
  lemma TransmitReady(h: Host, m: P.Machine, n: nat)
    requires HostInv(h, m, n) && D.CanMove(h.d, D.Issue)
    ensures Running(h).Some? && Running(h).value in h.d.pc && h.d.pc[Running(h).value].Locking?
    ensures h.d.pc[Running(h).value].r.sector < n && !h.d.active
  {
    hide D.DiskInv, Inv, WorkerOnly, Logged;
    D.IssueKeeps(h.d);
  }

  ghost function Next(w: World, b: nat, c: Act, boxes: nat): (w': World)
    requires WorldInv(w, boxes) && CanMove(w, b, c, boxes)
    ensures |w'.hosts| == |w'.net| == |w.net|
  {
    var h, m := w.hosts[b], w.net[b];
    Refines(w, b, c, boxes);
    var pm := Abstract(h, m, b, c);
    World(w.hosts[b := ActOn(h, m, c, |w.net|, boxes)], if pm.Some? then P.Next(w.net, pm.value, boxes) else w.net)
  }

  /** The machine whose step it is. */
  function Actor(v: P.Move): nat {
    match v
    case Send(a, _, _, _) => a
    case Poll(b) => b
    case WorkerP(b) => b
    case WorkerReceive(b) => b
    case WorkerPut(b) => b
    case Receive(b, _) => b
  }

  /** What machine c knows of itself is not changed by a step of another, but for what is on the wire to it. */
  lemma OthersKeep(net: seq<P.Machine>, v: P.Move, boxes: nat, b: nat, c: nat)
    requires P.NetInv(net, boxes) && P.CanMove(net, v, boxes) && c < |net|
    requires b == Actor(v)
    ensures c != b ==> var m, m' := net[c], P.Next(net, v, boxes)[c]; m'.available == m.available && m'.worker == m.worker && m'.sent == m.sent
  {
    hide P.NetInv, P.Encode, P.Parse;
  }

  lemma SameHost(h: Host, m: P.Machine, m': P.Machine, n: nat)
    requires HostInv(h, m, n) && m'.available == m.available && m'.worker == m.worker && m'.sent == m.sent
    ensures HostInv(h, m', n)
  {
  }

  /** The worker past P, past Receive, past Put. */
  lemma WorkerMoves(h: Host, m: P.Machine, m': P.Machine, at: At, n: nat)
    requires HostInv(h, m, n) && h.at != Sleeping && at != Sleeping && WorkerAt(at, m'.worker)
    requires m'.available == m.available && m'.sent == m.sent
    ensures HostInv(h.(at := at), m', n)
  {
    hide D.DiskInv, Logged;
  }

  lemma PutEnds(m: P.Machine, b: nat, boxes: nat)
    requires P.MachineOk(m, b, boxes) && m.worker.Delivering?
    ensures P.PutOn(m).worker == P.AtP && P.PutOn(m).available == m.available && P.PutOn(m).sent == m.sent
  {
    hide P.Parse, P.GoodPacket, P.InBox;
  }

  lemma SenderKeeps(w: World, b: nat, mail: P.Mail, lost: bool, boxes: nat)
    requires WorldInv(w, boxes) && CanMove(w, b, Transmit(mail, lost), boxes)
    ensures HostInv(Next(w, b, Transmit(mail, lost), boxes).hosts[b], Next(w, b, Transmit(mail, lost), boxes).net[b], |w.net|)
  {
    var h, m, c := w.hosts[b], w.net[b], Transmit(mail, lost);
    Refines(w, b, c, boxes);
    TransmitReady(h, m, |w.net|);
    hide D.DiskInv, P.NetInv, WorkerOnly, Logged, Inv, P.Encode, D.Next, D.CanMove;
    var r := h.d.pc[Running(h).value].r;
    var m' := P.SendOn(w.net, b, r.sector, mail, lost)[b];
    assert Next(w, b, c, boxes).net[b] == m';
    TransmitKeeps(h, m, |w.net|, mail, lost, m');
  }

  lemma WorkerTakes(w: World, b: nat, c: Act, boxes: nat)
    requires WorldInv(w, boxes) && CanMove(w, b, c, boxes) && (c.WorkerP? || c.WorkerWakes?)
    ensures HostInv(Next(w, b, c, boxes).hosts[b], Next(w, b, c, boxes).net[b], |w.net|)
  {
    hide D.DiskInv, Logged, P.NetInv, Inv, TryP, Step, RunningFree, WorkerOnly;
    var h, m := w.hosts[b], w.net[b];
    Refines(w, b, c, boxes);
    assert HostInv(h, m, |w.net|);
    hide HostInv;
    if c.WorkerP? {
      WorkerPKeeps(h, m, |w.net|);
    } else {
      WorkerWakesKeeps(h, m, |w.net|);
    }
  }

  lemma WorkerDelivers(w: World, b: nat, c: Act, boxes: nat)
    requires WorldInv(w, boxes) && CanMove(w, b, c, boxes) && (c.WorkerReceive? || c.WorkerPut?)
    ensures HostInv(Next(w, b, c, boxes).hosts[b], Next(w, b, c, boxes).net[b], |w.net|)
  {
    hide D.DiskInv, WorkerOnly, Logged, P.MachineOk, P.Matches, RunningFree, P.Parse;
    var h, m := w.hosts[b], w.net[b];
    Refines(w, b, c, boxes);
    assert P.MachineOk(m, b, boxes) && HostInv(h, m, |w.net|);
    assert c.WorkerPut? ==> m.worker.Delivering?;
    hide HostInv, P.NetInv;
    if c.WorkerReceive? {
      WorkerMoves(h, m, P.ReceiveOn(m), Bearing, |w.net|);
    } else {
      PutEnds(m, b, boxes);
      WorkerMoves(h, m, P.PutOn(m), Looping, |w.net|);
    }
  }

  lemma OwnKeeps(w: World, b: nat, c: Act, boxes: nat)
    requires WorldInv(w, boxes) && CanMove(w, b, c, boxes)
    ensures HostInv(Next(w, b, c, boxes).hosts[b], Next(w, b, c, boxes).net[b], |w.net|)
  {
    var h, m := w.hosts[b], w.net[b];
    Refines(w, b, c, boxes);
    hide D.DiskInv, P.NetInv, WorkerOnly, Logged, Inv, V, P.Encode, D.Next, D.CanMove;
    match c
    case StartSend(to, mail) => DeviceKeeps(h, m, D.Start(D.Write(to, P.Encode(mail))), |w.net|);
    case Transmit(mail, lost) => SenderKeeps(w, b, mail, lost, boxes);
    case Device(v) => DeviceKeeps(h, m, v, |w.net|);
    case Arrive =>
      if Filled(m) {
        PollKeeps(h, m, P.PollOn(m), |w.net|);
      }
    case Fetch(box) => SameHost(h, m, P.GetOn(m, box), |w.net|);
    case WorkerP => WorkerTakes(w, b, c, boxes);
    case WorkerWakes => WorkerTakes(w, b, c, boxes);
    case WorkerReceive => WorkerDelivers(w, b, c, boxes);
    case WorkerPut => WorkerDelivers(w, b, c, boxes);
  }

  /** Every step of every machine keeps the network, the kernels and the worker in agreement. */
  lemma MoveKeeps(w: World, b: nat, c: Act, boxes: nat)
    requires WorldInv(w, boxes) && CanMove(w, b, c, boxes)
    ensures WorldInv(Next(w, b, c, boxes), boxes)
  {
    hide HostInv, P.NetInv, CanAct, ActOn, P.Next, P.CanMove;
    Refines(w, b, c, boxes);
    OwnKeeps(w, b, c, boxes);
    var w', pm := Next(w, b, c, boxes), Abstract(w.hosts[b], w.net[b], b, c);
    if pm.Some? {
      P.MoveKeeps(w.net, pm.value, boxes);
    }
    forall k | 0 <= k < |w'.net| ensures HostInv(w'.hosts[k], w'.net[k], |w'.net|) {
      if k != b && pm.Some? {
        OthersKeep(w.net, pm.value, boxes, b, k);
        SameHost(w.hosts[k], w.net[k], w'.net[k], |w.net|);
      }
    }
  }

  // ---- runs ----

  /** A machine just started: nothing sent, the worker at the top of its loop. */
  ghost predicate NewHost(h: Host, n: nat) {
    && D.NewDisk(h.d) && |h.d.disk| == n && h.avail != h.d.lock && h.avail != h.d.sem && h.at == Looping
    && WorkerOnly(h.d.y, h.avail, h.worker, Looping) && ValueOf(h.d.y, h.avail) == 0
  }

  ghost predicate NewWorld(w: World, boxes: nat) {
    |w.hosts| == |w.net| && w.net == P.NewNet(|w.net|, boxes) && forall b :: 0 <= b < |w.hosts| ==> NewHost(w.hosts[b], |w.net|)
  }

  lemma NewWorldInv(w: World, boxes: nat)
    requires NewWorld(w, boxes)
    ensures WorldInv(w, boxes)
  {
    hide P.NetInv, WorkerOnly, D.DiskInv, Inv;
    P.NewNetInv(|w.net|, boxes);
    forall b | 0 <= b < |w.net| ensures HostInv(w.hosts[b], w.net[b], |w.net|) {
      D.NewDiskInv(w.hosts[b].d);
    }
  }

  ghost predicate Possible(w: World, moves: seq<(nat, Act)>, boxes: nat)
    requires WorldInv(w, boxes)
    decreases |moves|
  {
    moves == [] || (CanMove(w, moves[0].0, moves[0].1, boxes) &&
                    (MoveKeeps(w, moves[0].0, moves[0].1, boxes); Possible(Next(w, moves[0].0, moves[0].1, boxes), moves[1..], boxes)))
  }

  ghost function After(w: World, moves: seq<(nat, Act)>, boxes: nat): World
    requires WorldInv(w, boxes) && Possible(w, moves, boxes)
    decreases |moves|
  {
    if moves == [] then w
    else MoveKeeps(w, moves[0].0, moves[0].1, boxes); After(Next(w, moves[0].0, moves[0].1, boxes), moves[1..], boxes)
  }

  lemma {:induction false} RunKeeps(w: World, moves: seq<(nat, Act)>, boxes: nat)
    requires WorldInv(w, boxes) && Possible(w, moves, boxes)
    ensures WorldInv(After(w, moves, boxes), boxes)
    decreases |moves|
  {
    hide WorldInv, CanMove, Next;
    if moves != [] {
      MoveKeeps(w, moves[0].0, moves[0].1, boxes);
      RunKeeps(Next(w, moves[0].0, moves[0].1, boxes), moves[1..], boxes);
    }
  }

  ghost predicate RunsTo(w: World, moves: seq<(nat, Act)>, boxes: nat, z: World) {
    NewWorld(w, boxes) && (NewWorldInv(w, boxes); Possible(w, moves, boxes) && z == After(w, moves, boxes))
  }

  /** z is a state of some run of the machines, each with its kernel, threads and interrupts. */
  ghost predicate Reached(z: World, boxes: nat) {
    exists w: World, moves: seq<(nat, Act)> :: RunsTo(w, moves, boxes, z)
  }

  lemma ReachedInv(z: World, boxes: nat)
    requires Reached(z, boxes)
    ensures WorldInv(z, boxes)
  {
    hide WorldInv, Possible, After, NewWorld;
    var w, moves :| RunsTo(w, moves, boxes, z);
    NewWorldInv(w, boxes);
    RunKeeps(w, moves, boxes);
  }

  /** Whatever threads and interrupts do on the machines, mail is delivered once, in order and unchanged. */
  lemma RoomsDeliver(z: World, boxes: nat, a: nat, b: nat, k: nat)
    requires Reached(z, boxes) && a < |z.net| && b < |z.net| && k < boxes
    ensures k < |z.net[b].got| && P.From(z.net[b].got[k], a) <= P.ToBox(P.Arriving(z.net[a].sent, b), k)
    ensures P.Subsequence(P.From(z.net[b].got[k], a), P.Mails(z.net[a].sent))
  {
    hide Reached, P.NetInv, HostInv;
    ReachedInv(z, boxes);
    P.InOrderDelivery(z.net, boxes, a, b, k);
  }

  /** Network::Send is never called while the last packet is under way, nor for a machine that is not there. */
  lemma NeverBusyAtSend(z: World, boxes: nat, b: nat, mail: P.Mail, lost: bool)
    requires Reached(z, boxes) && CanMove(z, b, Transmit(mail, lost), boxes)
    ensures !z.hosts[b].d.active
    ensures Abstract(z.hosts[b], z.net[b], b, Transmit(mail, lost)).Some?
    ensures P.CanMove(z.net, Abstract(z.hosts[b], z.net[b], b, Transmit(mail, lost)).value, boxes)
  {
    hide Reached, WorldInv, CanMove, P.CanMove, Abstract;
    ReachedInv(z, boxes);
    Refines(z, b, Transmit(mail, lost), boxes);
  }

  /** The worker, past P, finds a packet in the inbox. */
  lemma WorkerFindsPacket(z: World, boxes: nat, b: nat)
    requires Reached(z, boxes) && CanMove(z, b, WorkerReceive, boxes)
    ensures z.net[b].inbox.Some?
  {
    hide Reached, D.DiskInv, WorkerOnly, Logged, P.InOrder, P.GoodPacket, P.Matches;
    ReachedInv(z, boxes);
    assert P.MachineOk(z.net[b], b, boxes) && HostInv(z.hosts[b], z.net[b], |z.net|);
  }

  // ---- what the caller asked for ----

  /** Where and what a thread last asked to send, and what it has sent since. */
  datatype Told = Told(asked: Option<(nat, P.Mail)>, sent: seq<P.Sent>)

  ghost function Tell(w: World, mover: nat, c: Act, boxes: nat, b: nat, t: Thread, s: Told): Told
    requires WorldInv(w, boxes) && CanMove(w, mover, c, boxes) && b < |w.net|
  {
    if mover != b || Running(w.hosts[b]) != Some(t) then s
    else if c.StartSend? then Told(Some((c.to, c.mail)), [])
    else s.(sent := s.sent + Gained(w.net[b].sent, Next(w, mover, c, boxes).net[b].sent))
  }

  /** The story of thread t of machine b over a run. */
  ghost function Story(w: World, moves: seq<(nat, Act)>, boxes: nat, b: nat, t: Thread, s: Told): Told
    requires WorldInv(w, boxes) && Possible(w, moves, boxes) && b < |w.net|
    decreases |moves|
  {
    if moves == [] then s
    else
      MoveKeeps(w, moves[0].0, moves[0].1, boxes);
      Story(Next(w, moves[0].0, moves[0].1, boxes), moves[1..], boxes, b, t, Tell(w, moves[0].0, moves[0].1, boxes, b, t, s))
  }

  /** A thread in the midst of Send is at the packet it was called with, and has sent it once if it has got that far. */
  ghost predicate ToldOk(d: D.State, t: Thread, s: Told) {
    var p := D.PcOf(d, t);
    p != D.Idle ==>
      && s.asked.Some? && |s.asked.value.1.data| <= P.MAX_MAIL && p.r == D.Write(s.asked.value.0, P.Encode(s.asked.value.1))
      && (if p.Locking? then s.sent == [] else |s.sent| == 1 && s.sent[0].to == s.asked.value.0 && s.sent[0].mail == s.asked.value.1)
  }

  lemma EncodeOnce(x: P.Mail, y: P.Mail)
    requires |x.data| <= P.MAX_MAIL && |y.data| <= P.MAX_MAIL && P.Encode(x) == P.Encode(y)
    ensures x == y
  {
    hide P.Encode, P.Parse;
    P.ParseEncode(x, []);
    P.ParseEncode(y, []);
  }

  lemma OnlySendLogs(net: seq<P.Machine>, v: P.Move, boxes: nat)
    requires P.NetInv(net, boxes) && P.CanMove(net, v, boxes) && !v.Send?
    ensures P.Next(net, v, boxes)[Actor(v)].sent == net[Actor(v)].sent
  {
    hide P.NetInv, P.Parse, P.Encode;
  }

  /** Only a transmission adds to what the machine has sent. */
  lemma SentStays(w: World, b: nat, c: Act, boxes: nat)
    requires WorldInv(w, boxes) && CanMove(w, b, c, boxes) && !c.Transmit?
    ensures Next(w, b, c, boxes).net[b].sent == w.net[b].sent
  {
    hide HostInv, P.NetInv, CanAct, ActOn, P.Next, P.CanMove;
    Refines(w, b, c, boxes);
    var pm := Abstract(w.hosts[b], w.net[b], b, c);
    if pm.Some? {
      OnlySendLogs(w.net, pm.value, boxes);
    }
  }

  /** A transmission adds the mail, for the machine in the sender's hand. */
  lemma SentGains(w: World, b: nat, mail: P.Mail, lost: bool, boxes: nat)
    requires WorldInv(w, boxes) && CanMove(w, b, Transmit(mail, lost), boxes)
    ensures var h := w.hosts[b];
      && Running(h).Some? && Running(h).value in h.d.pc && h.d.pc[Running(h).value].Locking?
      && Next(w, b, Transmit(mail, lost), boxes).net[b].sent == w.net[b].sent + [P.Sent(h.d.pc[Running(h).value].r.sector, mail, lost)]
  {
    Refines(w, b, Transmit(mail, lost), boxes);
    TransmitReady(w.hosts[b], w.net[b], |w.net|);
    hide D.DiskInv, P.NetInv, WorkerOnly, Logged, Inv, P.Encode, D.Next, D.CanMove, ActOn;
  }

  /** How far the running thread gets by a move of the sending side. */
  lemma DevicePc(d: D.State, v: D.Move)
    requires D.DiskInv(d) && D.CanMove(d, v) && d.y.kernel.current.Some?
    ensures var t := d.y.kernel.current.value; var p, q := D.PcOf(d, t), D.PcOf(D.Next(d, v), t);
      && (v.Start? ==> q == D.Locking(v.r))
      && (v == D.Issue ==> p.Locking? && q.Issued? && q.r == p.r)
      && (v == D.CallP ==> p.Issued? && q.Awaiting? && q.r == p.r)
      && (v == D.Return ==> q == D.Idle)
      && (v == D.Interrupt || v.Other? ==> q == p)
  {
    hide D.DiskInv, TryAcquire, TryP, Release, V, Step, D.Foreign;
    if v == D.Issue {
      D.IssueKeeps(d);
    }
  }

  /** A thread that is not running stays where it is in Send. */
  lemma OthersPc(w: World, b: nat, c: Act, boxes: nat, t: Thread)
    requires WorldInv(w, boxes) && CanMove(w, b, c, boxes) && Running(w.hosts[b]) != Some(t)
    ensures D.PcOf(Next(w, b, c, boxes).hosts[b].d, t) == D.PcOf(w.hosts[b].d, t)
  {
    var h := w.hosts[b];
    assert HostInv(h, w.net[b], |w.net|);
    hide D.DiskInv, P.NetInv, WorkerOnly, Logged, Inv, P.Encode, D.Next, D.CanMove, P.Next, Step, V, TryP, Abstract;
    match c
    case StartSend(to, mail) => DeviceStep(h.d, D.Start(D.Write(to, P.Encode(mail))));
    case Transmit(_, _) => OthersIssue(h.d, t);
    case Device(v) => DeviceStep(h.d, v);
    case Arrive =>
    case WorkerP =>
    case WorkerWakes =>
    case WorkerReceive =>
    case WorkerPut =>
    case Fetch(_) =>
  }

  lemma OthersIssue(d: D.State, t: Thread)
    requires D.DiskInv(d) && D.CanMove(d, D.Issue) && d.y.kernel.current != Some(t)
    ensures D.PcOf(D.Next(d, D.Issue), t) == D.PcOf(d, t)
  {
    hide D.DiskInv;
  }

  lemma TransmitStory(w: World, b: nat, mail: P.Mail, lost: bool, boxes: nat, t: Thread, s: Told)
    requires WorldInv(w, boxes) && CanMove(w, b, Transmit(mail, lost), boxes) && Running(w.hosts[b]) == Some(t) && ToldOk(w.hosts[b].d, t, s)
    ensures ToldOk(D.Next(w.hosts[b].d, D.Issue), t, s.(sent := s.sent + Gained(w.net[b].sent, Next(w, b, Transmit(mail, lost), boxes).net[b].sent)))
  {
    hide D.DiskInv, P.NetInv, WorkerOnly, Logged, Inv, P.Encode, D.Next, D.CanMove, Next;
    var h := w.hosts[b];
    assert HostInv(h, w.net[b], |w.net|);
    DevicePc(h.d, D.Issue);
    SentGains(w, b, mail, lost, boxes);
    GainedOne(w.net[b].sent, P.Sent(h.d.pc[t].r.sector, mail, lost));
    EncodeOnce(mail, s.asked.value.1);
  }

  /** A move of the sending side that transmits nothing keeps the story. */
  lemma DeviceStory(d: D.State, v: D.Move, t: Thread, s: Told)
    requires D.DiskInv(d) && D.CanMove(d, v) && v != D.Issue && !v.Start? && d.y.kernel.current == Some(t) && ToldOk(d, t, s)
    ensures ToldOk(D.Next(d, v), t, s)
  {
    hide D.DiskInv, D.Next, D.CanMove, P.Encode;
    DevicePc(d, v);
  }

  lemma StartStory(d: D.State, to: nat, mail: P.Mail, t: Thread)
    requires |mail.data| <= P.MAX_MAIL && D.DiskInv(d) && D.CanMove(d, D.Start(D.Write(to, P.Encode(mail)))) && d.y.kernel.current == Some(t)
    ensures ToldOk(D.Next(d, D.Start(D.Write(to, P.Encode(mail)))), t, Told(Some((to, mail)), []))
  {
    hide D.DiskInv, D.Next, D.CanMove, P.Encode;
    DevicePc(d, D.Start(D.Write(to, P.Encode(mail))));
  }

  /** The running thread's own steps keep its story. */
  lemma OwnStory(w: World, b: nat, c: Act, boxes: nat, t: Thread, s: Told)
    requires WorldInv(w, boxes) && CanMove(w, b, c, boxes) && Running(w.hosts[b]) == Some(t) && ToldOk(w.hosts[b].d, t, s)
    ensures ToldOk(Next(w, b, c, boxes).hosts[b].d, t, Tell(w, b, c, boxes, b, t, s))
  {
    hide D.DiskInv, P.NetInv, WorkerOnly, Logged, Inv, P.Encode, D.Next, D.CanMove, P.Next, Step, V, TryP, Abstract;
    var h := w.hosts[b];
    assert HostInv(h, w.net[b], |w.net|);
    if !c.Transmit? {
      SentStays(w, b, c, boxes);
      assert s.sent + [] == s.sent;
    }
    hide HostInv;
    match c
    case StartSend(to, mail) => StartStory(h.d, to, mail, t);
    case Transmit(mail, lost) => TransmitStory(w, b, mail, lost, boxes, t, s);
    case Device(v) => DeviceStory(h.d, v, t, s);
    case Arrive =>
    case WorkerP =>
    case WorkerWakes =>
    case WorkerReceive =>
    case WorkerPut =>
    case Fetch(_) =>
  }

  lemma TellKeeps(w: World, mover: nat, c: Act, boxes: nat, b: nat, t: Thread, s: Told)
    requires WorldInv(w, boxes) && CanMove(w, mover, c, boxes) && b < |w.net| && ToldOk(w.hosts[b].d, t, s)
    ensures ToldOk(Next(w, mover, c, boxes).hosts[b].d, t, Tell(w, mover, c, boxes, b, t, s))
  {
    if mover == b {
      if Running(w.hosts[b]) == Some(t) {
        OwnStory(w, b, c, boxes, t, s);
      } else {
        hide WorldInv, CanMove, Next;
        OthersPc(w, b, c, boxes, t);
      }
    } else {
      hide WorldInv, CanMove, ToldOk, ActOn, Abstract, P.Next;
    }
  }

  lemma {:induction false} StoryOk(w: World, moves: seq<(nat, Act)>, boxes: nat, b: nat, t: Thread, s: Told)
    requires WorldInv(w, boxes) && Possible(w, moves, boxes) && b < |w.net| && ToldOk(w.hosts[b].d, t, s)
    ensures |After(w, moves, boxes).hosts| == |After(w, moves, boxes).net| == |w.net|
    ensures ToldOk(After(w, moves, boxes).hosts[b].d, t, Story(w, moves, boxes, b, t, s))
    decreases |moves|
  {
    hide HostInv, P.NetInv, CanMove, Next, Tell, ToldOk;
    if moves != [] {
      var m := moves[0];
      MoveKeeps(w, m.0, m.1, boxes);
      TellKeeps(w, m.0, m.1, boxes, b, t, s);
      StoryOk(Next(w, m.0, m.1, boxes), moves[1..], boxes, b, t, Tell(w, m.0, m.1, boxes, b, t, s));
    }
  }

  lemma RunStory(w: World, moves: seq<(nat, Act)>, boxes: nat, z: World, b: nat, t: Thread)
    requires RunsTo(w, moves, boxes, z) && b < |w.net|
    ensures WorldInv(w, boxes) && Possible(w, moves, boxes) && WorldInv(z, boxes) && |z.net| == |w.net|
    ensures ToldOk(z.hosts[b].d, t, Story(w, moves, boxes, b, t, Told(None, [])))
  {
    NewWorldInv(w, boxes);
    assert D.PcOf(w.hosts[b].d, t) == D.Idle;
    hide P.NetInv, HostInv, Possible, After, NewWorld, Story, D.NewDisk;
    RunKeeps(w, moves, boxes);
    StoryOk(w, moves, boxes, b, t, Told(None, []));
  }

  /** What a thread hands to the network is the mail of its own Send, for the machine of its own Send, and it has not handed it over before. */
  lemma TransmitsWhatWasAsked(w: World, moves: seq<(nat, Act)>, boxes: nat, z: World, b: nat, mail: P.Mail, lost: bool)
    requires RunsTo(w, moves, boxes, z) && CanMove(z, b, Transmit(mail, lost), boxes)
    ensures WorldInv(w, boxes) && Possible(w, moves, boxes) && WorldInv(z, boxes) && b < |w.net| && Running(z.hosts[b]).Some?
    ensures var told := Story(w, moves, boxes, b, Running(z.hosts[b]).value, Told(None, []));
      && told.asked.Some? && told.asked.value.1 == mail && told.sent == []
      && Next(z, b, Transmit(mail, lost), boxes).net[b].sent == z.net[b].sent + [P.Sent(told.asked.value.0, mail, lost)]
  {
    hide NewWorld, Possible, After, Story, P.Encode, HostInv, P.NetInv, Next;
    RunReaches(w, moves, boxes, z);
    SentGains(z, b, mail, lost, boxes);
    var t := Running(z.hosts[b]).value;
    RunStory(w, moves, boxes, z, b, t);
    EncodeOnce(mail, Story(w, moves, boxes, b, t, Told(None, [])).asked.value.1);
  }

  /** A thread that returns from Send has handed its mail to the network once, for the machine it named, and nothing else. */
  lemma SendsOnce(w: World, moves: seq<(nat, Act)>, boxes: nat, z: World, b: nat)
    requires RunsTo(w, moves, boxes, z) && CanMove(z, b, Device(D.Return), boxes)
    ensures WorldInv(w, boxes) && Possible(w, moves, boxes) && b < |w.net| && Running(z.hosts[b]).Some?
    ensures var told := Story(w, moves, boxes, b, Running(z.hosts[b]).value, Told(None, []));
      && told.asked.Some? && |told.sent| == 1 && told.sent[0].to == told.asked.value.0 && told.sent[0].mail == told.asked.value.1
  {
    hide NewWorld, Possible, After, Story, P.Encode, HostInv, P.NetInv;
    RunReaches(w, moves, boxes, z);
    RunStory(w, moves, boxes, z, b, Running(z.hosts[b]).value);
  }

  lemma RunReaches(w: World, moves: seq<(nat, Act)>, boxes: nat, z: World)
    requires RunsTo(w, moves, boxes, z)
    ensures WorldInv(w, boxes) && Possible(w, moves, boxes) && WorldInv(z, boxes) && |z.net| == |w.net|
  {
    NewWorldInv(w, boxes);
    hide P.NetInv, HostInv, Possible, NewWorld;
    RunKeeps(w, moves, boxes);
    AfterLength(w, moves, boxes);
  }

  lemma {:induction false} AfterLength(w: World, moves: seq<(nat, Act)>, boxes: nat)
    requires WorldInv(w, boxes) && Possible(w, moves, boxes)
    ensures |After(w, moves, boxes).net| == |w.net|
    decreases |moves|
  {
    hide WorldInv, CanMove;
    if moves != [] {
      MoveKeeps(w, moves[0].0, moves[0].1, boxes);
      AfterLength(Next(w, moves[0].0, moves[0].1, boxes), moves[1..], boxes);
    }
  }
}
