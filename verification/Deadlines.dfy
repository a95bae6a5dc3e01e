/**
 * What those who ask for interrupts may count on.  A request is for so many ticks after the moment it is
 * made, by the kernel's devices or by a handler while it runs; every run of the clock is held to that.
 */
module Deadlines {
  import opened Lists
  import opened Interrupts

  /** The interrupts that were asked for at time now. */
  function Asked(rs: seq<Request>, now: nat): multiset<Entry<Pending>> {
    if rs == [] then multiset{} else multiset{Entry(rs[0].what, now + rs[0].fromNow)} + Asked(rs[1..], now)
  }

  /** What the handlers of the interrupts that have fired asked for, each when it ran. */
  function ByHandlers(fired: seq<Fired>, h: Handlers): multiset<Entry<Pending>> {
    if fired == [] then multiset{}
    else
      var n := |fired| - 1;
      ByHandlers(fired[..n], h) + Asked(h(n, fired[n].entry.item), fired[n].at)
  }

  /** What was asked for from outside the handlers in the course of a run. */
  ghost function ByDevices(c: Clock, h: Handlers, events: seq<Event>): multiset<Entry<Pending>>
    requires Future(h)
    decreases |events|
  {
    if events == [] then multiset{}
    else (if events[0].Ask? then Asked([events[0].r], c.total) else multiset{}) + ByDevices(Step(c, h, events[0]), h, events[1..])
  }

  // ---- the clock does what it is asked ----

  /** All that was ever put on the list is what was asked for. */
  ghost predicate Accounted(c: Clock, h: Handlers, devices: multiset<Entry<Pending>>) {
    c.scheduled == devices + ByHandlers(c.fired, h)
  }

  lemma {:induction false} ScheduleAllAsked(c: Clock, rs: seq<Request>)
    ensures var d := ScheduleAll(c, rs); d.scheduled == c.scheduled + Asked(rs, c.total) && d.fired == c.fired && d.total == c.total
    decreases |rs|
  {
    hide InsertSorted;
    if rs != [] {
      ScheduleAllAsked(Schedule(c, rs[0]), rs[1..]);
    }
  }

  lemma FireAccounted(c: Clock, h: Handlers, e: Entry<Pending>, devices: multiset<Entry<Pending>>)
    requires Accounted(c, h, devices)
    ensures Accounted(Fire(c, h, e), h, devices)
  {
    hide ScheduleAll, Asked;
    var d := c.(fired := c.fired + [Fired(e, c.total)]);
    assert d.fired[..|c.fired|] == c.fired;
    ScheduleAllAsked(d, h(|c.fired|, e.item));
  }

  lemma CheckAccounted(c: Clock, h: Handlers, advanceClock: bool, devices: multiset<Entry<Pending>>)
    requires Accounted(c, h, devices)
    ensures Accounted(CheckIfDue(c, h, advanceClock).0, h, devices)
  {
    hide InsertSorted, Fire, ByHandlers;
    if c.pending != [] {
      var e, rest := c.pending[0], c.(pending := c.pending[1..]);
      FireAccounted(if e.key > c.total then rest.(idle := c.idle + (e.key - c.total), total := e.key) else rest, h, e, devices);
    }
  }

  lemma {:induction false} DrainAccounted(c: Clock, h: Handlers, devices: multiset<Entry<Pending>>)
    requires Future(h) && Accounted(c, h, devices)
    ensures Accounted(Drain(c, h), h, devices)
    decreases Due(c.pending, c.total)
  {
    hide Accounted, CheckIfDue, Future, Due;
    CheckAccounted(c, h, false, devices);
    if CheckIfDue(c, h, false).1 {
      CheckProgress(c, h);
      DrainAccounted(CheckIfDue(c, h, false).0, h, devices);
    }
  }

  lemma StepAccounted(c: Clock, h: Handlers, e: Event, devices: multiset<Entry<Pending>>)
    requires Future(h) && Accounted(c, h, devices)
    ensures Accounted(Step(c, h, e), h, devices + if e.Ask? then Asked([e.r], c.total) else multiset{})
  {
    hide Future, Drain, CheckIfDue, InsertSorted, ByHandlers;
    match e
    case Tick => DrainAccounted(Advance(c), h, devices);
    case Wait =>
      CheckAccounted(c.(status := IdleMode), h, true, devices);
      DrainAccounted(CheckIfDue(c.(status := IdleMode), h, true).0, h, devices);
    case Ask(r) => assert [r][1..] == [];
    case Switch(_) =>
  }

  lemma {:induction false} RunAccounted(c: Clock, h: Handlers, events: seq<Event>, devices: multiset<Entry<Pending>>)
    requires Future(h) && Accounted(c, h, devices)
    ensures Accounted(Run(c, h, events), h, devices + ByDevices(c, h, events))
    decreases |events|
  {
    hide Future, Accounted, Step, Asked;
    if events == [] {
      assert devices + multiset{} == devices;
    } else {
      var more := devices + if events[0].Ask? then Asked([events[0].r], c.total) else multiset{};
      StepAccounted(c, h, events[0], devices);
      RunAccounted(Step(c, h, events[0]), h, events[1..], more);
      assert more + ByDevices(Step(c, h, events[0]), h, events[1..]) == devices + ByDevices(c, h, events);
    }
  }

  // ---- runs of a machine from its start ----

  function NewClock(): Clock {
    Clock([], SystemMode, 0, 0, 0, 0, [], multiset{})
  }

  /** Everything asked for in the run, by devices and by handlers. */
  ghost function Requested(h: Handlers, events: seq<Event>): multiset<Entry<Pending>>
    requires Future(h)
  {
    ByDevices(NewClock(), h, events) + ByHandlers(Run(NewClock(), h, events).fired, h)
  }

  lemma StartGood(h: Handlers, events: seq<Event>)
    requires Future(h)
    ensures Good(Run(NewClock(), h, events))
  {
    hide Future, Run, Good;
    NewClockGood();
    ClockRun(NewClock(), h, events);
  }

  /** Every request is pending or has fired, once; nothing else is or has; and none fires before its time. */
  lemma EveryRequestKept(h: Handlers, events: seq<Event>)
    requires Future(h)
    ensures var z := Run(NewClock(), h, events); Good(z) && Requested(h, events) == multiset(z.pending) + Entries(z.fired)
    ensures var z := Run(NewClock(), h, events); forall i :: 0 <= i < |z.fired| ==> z.fired[i].entry.key <= z.fired[i].at <= z.total
  {
    hide Future, Run, ByDevices, Entries, ByHandlers, Sorted, NotBefore, NewClock;
    StartGood(h, events);
    StartAccounted(h);
    RunAccounted(NewClock(), h, events, multiset{});
    assert multiset{} + ByDevices(NewClock(), h, events) == ByDevices(NewClock(), h, events);
  }

  lemma StartAccounted(h: Handlers)
    ensures Accounted(NewClock(), h, multiset{})
  {
  }

  lemma {:induction false} NotAmong(fired: seq<Fired>, e: Entry<Pending>, now: nat)
    requires forall i :: 0 <= i < |fired| ==> fired[i].entry.key <= now
    requires e.key > now
    ensures Entries(fired)[e] == 0
  {
    if fired != [] {
      NotAmong(fired[..|fired| - 1], e, now);
    }
  }

  /** An interrupt asked for k ticks ahead at time T has not fired while the clock is below T + k. */
  lemma NotBeforeItsTime(h: Handlers, events: seq<Event>, e: Entry<Pending>)
    requires Future(h) && e.key > Run(NewClock(), h, events).total
    ensures var z := Run(NewClock(), h, events); Entries(z.fired)[e] == 0 && multiset(z.pending)[e] == Requested(h, events)[e]
  {
    var z := Run(NewClock(), h, events);
    hide Future, Run, Requested, Entries, Good;
    EveryRequestKept(h, events);
    NotAmong(z.fired, e, z.total);
  }

  lemma NonePending(s: seq<Entry<Pending>>, e: Entry<Pending>, now: nat)
    requires e.key <= now && forall i :: 0 <= i < |s| ==> s[i].key > now
    ensures multiset(s)[e] == 0
  {
    if e in s {
      assert false;
    }
  }

  lemma {:induction false} RunSnoc(c: Clock, h: Handlers, events: seq<Event>, e: Event)
    requires Future(h)
    ensures Run(c, h, events + [e]) == Step(Run(c, h, events), h, e)
    decreases |events|
  {
    hide Future, Step;
    if events == [] {
      assert events + [e] == [e] && [e][1..] == [];
    } else {
      assert (events + [e])[1..] == events[1..] + [e] && (events + [e])[0] == events[0];
      RunSnoc(Step(c, h, events[0]), h, events[1..], e);
    }
  }

  /** A tick of a busy machine that ends at or past T + k leaves it fired, whoever asked for it. */
  lemma FiredByTick(h: Handlers, events: seq<Event>, e: Entry<Pending>)
    requires Future(h) && Run(NewClock(), h, events).status != IdleMode
    requires e.key <= Run(NewClock(), h, events + [Tick]).total
    ensures var z := Run(NewClock(), h, events + [Tick]); Entries(z.fired)[e] == Requested(h, events + [Tick])[e]
  {
    var c, z := Run(NewClock(), h, events), Run(NewClock(), h, events + [Tick]);
    hide Future, Run, Requested, Entries, Good, Drain;
    RunSnoc(NewClock(), h, events, Tick);
    StartGood(h, events);
    EveryRequestKept(h, events + [Tick]);
    AdvanceGood(c);
    AdvanceKeeps(c);
    hide Advance;
    BusyDrainLeavesNothing(Advance(c), h);
    assert z == Drain(Advance(c), h);
    NonePending(z.pending, e, z.total);
  }

  lemma {:induction false} ByDevicesAppend(c: Clock, h: Handlers, one: seq<Event>, two: seq<Event>)
    requires Future(h)
    ensures ByDevices(c, h, one + two) == ByDevices(c, h, one) + ByDevices(Run(c, h, one), h, two)
    decreases |one|
  {
    hide Future, Step, Asked;
    if one == [] {
      assert one + two == two;
    } else {
      assert (one + two)[1..] == one[1..] + two && (one + two)[0] == one[0];
      ByDevicesAppend(Step(c, h, one[0]), h, one[1..], two);
    }
  }

  lemma AskFirst(c: Clock, h: Handlers, r: Request, after: seq<Event>)
    requires Future(h)
    ensures Entry(r.what, c.total + r.fromNow) in ByDevices(c, h, [Ask(r)] + after)
  {
    hide Future, Step;
    assert ([Ask(r)] + after)[0] == Ask(r);
    assert Entry(r.what, c.total + r.fromNow) in Asked([r], c.total);
  }

  /** What a device asks for at any point of a run is among the run's requests. */
  lemma AskIsRequested(h: Handlers, before: seq<Event>, r: Request, after: seq<Event>)
    requires Future(h)
    ensures Entry(r.what, Run(NewClock(), h, before).total + r.fromNow) in Requested(h, before + [Ask(r)] + after)
  {
    hide Future, Run, Step, ByHandlers, ByDevices, NewClock;
    var c := Run(NewClock(), h, before);
    assert before + [Ask(r)] + after == before + ([Ask(r)] + after);
    ByDevicesAppend(NewClock(), h, before, [Ask(r)] + after);
    AskFirst(c, h, r, after);
  }

  /**
   * A device that at time T asks to be interrupted in k ticks waits while the clock is below T + k, and has
   * been interrupted once a tick of the busy machine ends at or past it.
   */
  lemma DeviceIsServed(h: Handlers, before: seq<Event>, r: Request, after: seq<Event>)
    requires Future(h)
    ensures var run := before + [Ask(r)] + after;
      var e, z := Entry(r.what, Run(NewClock(), h, before).total + r.fromNow), Run(NewClock(), h, run);
      && (z.total < e.key ==> e in z.pending && e !in Entries(z.fired))
      && (z.status != IdleMode && e.key <= Run(NewClock(), h, run + [Tick]).total ==> e in Entries(Run(NewClock(), h, run + [Tick]).fired))
  {
    hide Future, Run, Requested, Entries;
    var run := before + [Ask(r)] + after;
    var e, z := Entry(r.what, Run(NewClock(), h, before).total + r.fromNow), Run(NewClock(), h, run);
    AskIsRequested(h, before, r, after);
    if z.total < e.key {
      NotBeforeItsTime(h, run, e);
      assert e in multiset(z.pending);
    }
    if z.status != IdleMode && e.key <= Run(NewClock(), h, run + [Tick]).total {
      FiredByTick(h, run, e);
      AskIsRequested(h, before, r, after + [Tick]);
      assert before + [Ask(r)] + (after + [Tick]) == run + [Tick];
    }
  }

  /** Something was asked for by now and has not fired. */
  ghost predicate Late(h: Handlers, events: seq<Event>)
    requires Future(h)
  {
    exists e: Entry<Pending> :: e.key <= Run(NewClock(), h, events).total
                                && Entries(Run(NewClock(), h, events).fired)[e] < Requested(h, events)[e]
  }

  lemma LateIsDue(h: Handlers, events: seq<Event>)
    requires Future(h)
    ensures Late(h, events) <==> SomeDue(Run(NewClock(), h, events))
  {
    var z := Run(NewClock(), h, events);
    hide Future, Run, Requested, Entries, Good;
    EveryRequestKept(h, events);
    if SomeDue(z) {
      var i :| 0 <= i < |z.pending| && z.pending[i].key <= z.total;
      assert z.pending[i] in multiset(z.pending);
    }
    if Late(h, events) {
      var e: Entry<Pending> :| e.key <= z.total && Entries(z.fired)[e] < Requested(h, events)[e];
      assert e in z.pending;
    }
  }

  // ---- ticks and idling, exactly ----

  /** How far a tick moves the clock, and which counter it is put down to. */
  lemma TickLength(c: Clock, h: Handlers)
    requires Good(c) && Future(h)
    ensures var d := OneTick(c, h);
      && d.total == c.total + (if c.status == SystemMode then 10 else 1) && d.status == c.status
      && d.system == c.system + (if c.status == SystemMode then 10 else 0)
      && d.user == c.user + (if c.status == SystemMode then 0 else 1) && d.idle == c.idle
  {
    hide Good, Future, Drain;
    AdvanceGood(c);
    DrainGood(Advance(c), h);
    DrainCounters(Advance(c), h);
  }

  predicate SameCounters(c: Clock, d: Clock) {
    d.system == c.system && d.user == c.user && d.idle == c.idle && d.total == c.total && d.status == c.status
  }

  lemma {:induction false} ScheduleAllCounters(c: Clock, rs: seq<Request>)
    ensures SameCounters(c, ScheduleAll(c, rs))
    decreases |rs|
  {
    hide InsertSorted;
    if rs != [] {
      ScheduleAllCounters(Schedule(c, rs[0]), rs[1..]);
    }
  }

  lemma {:induction false} DrainCounters(c: Clock, h: Handlers)
    requires Future(h)
    ensures SameCounters(c, Drain(c, h))
    decreases Due(c.pending, c.total)
  {
    hide Future, ScheduleAll, InsertSorted, Due;
    var (d, more) := CheckIfDue(c, h, false);
    if more {
      CheckProgress(c, h);
      var e := c.pending[0];
      ScheduleAllCounters(c.(pending := c.pending[1..], fired := c.fired + [Fired(e, c.total)]), h(|c.fired|, e.item));
      DrainCounters(d, h);
    }
  }

  /** The machine idle, with the clock at its next interrupt if that is still to come. */
  function AtNext(c: Clock): Clock {
    if c.pending == [] || c.pending[0].key <= c.total then c.(status := IdleMode)
    else c.(status := IdleMode, total := c.pending[0].key, idle := c.idle + (c.pending[0].key - c.total))
  }

  /** There is something to wait for: any interrupt but a lone timer's. */
  predicate Waiting(c: Clock) {
    c.pending != [] && !(|c.pending| == 1 && c.pending[0].item.device == TimerInt)
  }

  /**
   * Idling moves the clock to the next interrupt and serves what is then due, or says that there is
   * nothing to wait for; the time passed is idle time.
   */
  lemma IdleServes(c: Clock, h: Handlers)
    requires Good(c) && Future(h)
    ensures Idle(c, h).1 <==> Waiting(c)
    ensures Idle(c, h).0 == Drain(AtNext(c), h).(status := if Waiting(c) then SystemMode else IdleMode)
    ensures Idle(c, h).0.total == AtNext(c).total && Idle(c, h).0.idle == AtNext(c).idle
  {
    hide Good, Future, Fire;
    DrainCounters(AtNext(c), h);
    if |c.pending| == 1 {
      InsertIntoEmpty(c.pending[0]);
      assert c.pending == [c.pending[0]] && c.pending[1..] == [];
    }
    hide InsertSorted;
    assert c.pending != [] ==> CheckIfDue(c.(status := IdleMode), h, true) == CheckIfDue(AtNext(c), h, false);
  }

  lemma AtNextGood(c: Clock)
    requires Good(c)
    ensures Good(AtNext(c))
  {
    hide Sorted, Entries;
    LaterInTime(c.fired, c.total, AtNext(c).total);
  }

  /** Neither a tick nor an idle wait leaves a request late, but for an idle machine's lone timer, and then it does. */
  lemma OnlyLoneTimerLate(h: Handlers, events: seq<Event>, e: Event)
    requires Future(h) && (e == Tick || e == Wait)
    ensures Late(h, events + [e]) <==> var c := Run(NewClock(), h, events); TimerLast(if e == Tick then Advance(c) else AtNext(c), h)
  {
    var c, z := Run(NewClock(), h, events), Run(NewClock(), h, events + [e]);
    hide Future, Run, Late, Good, Drain, TimerLast, CheckIfDue;
    LateIsDue(h, events + [e]);
    RunSnoc(NewClock(), h, events, e);
    EveryRequestKept(h, events);
    if e == Tick {
      AdvanceGood(c);
      DrainLeavesTimer(Advance(c), h);
    } else {
      AtNextGood(c);
      IdleServes(c, h);
      DrainLeavesTimer(AtNext(c), h);
    }
  }

  // ---- the counters over a run ----

  /** How many ticks of the run found the machine in system mode, or did not. */
  ghost function Ticks(c: Clock, h: Handlers, events: seq<Event>, system: bool): nat
    requires Future(h)
    decreases |events|
  {
    if events == [] then 0
    else (if events[0] == Tick && (c.status == SystemMode) == system then 1 else 0) + Ticks(Step(c, h, events[0]), h, events[1..], system)
  }

  lemma StepCounters(c: Clock, h: Handlers, e: Event)
    requires Good(c) && Future(h)
    ensures var d := Step(c, h, e);
      && d.system == c.system + (if e == Tick && c.status == SystemMode then 10 else 0)
      && d.user == c.user + (if e == Tick && c.status != SystemMode then 1 else 0)
  {
    hide Good, Future, OneTick, Drain, CheckIfDue, InsertSorted;
    match e
    case Tick => TickLength(c, h);
    case Wait =>
      IdleServes(c, h);
      DrainCounters(AtNext(c), h);
    case Ask(_) =>
    case Switch(_) =>
  }

  lemma StepGood(c: Clock, h: Handlers, e: Event)
    requires Good(c) && Future(h)
    ensures Good(Step(c, h, e))
  {
    hide Good, Future, Step;
    ClockRun(c, h, [e]);
    assert [e][1..] == [];
    assert Run(c, h, [e]) == Step(c, h, e);
  }

  /** System time is ten for every tick in system mode, user time one for every other tick, and the rest is idle. */
  lemma {:induction false} TimeIsCounted(c: Clock, h: Handlers, events: seq<Event>)
    requires Good(c) && Future(h)
    ensures var z := Run(c, h, events);
      && z.system == c.system + 10 * Ticks(c, h, events, true) && z.user == c.user + Ticks(c, h, events, false)
      && z.total == z.idle + z.system + z.user
    decreases |events|
  {
    hide Future, Step, Sorted, InTime, NotBefore, Entries;
    if events != [] {
      StepCounters(c, h, events[0]);
      StepGood(c, h, events[0]);
      TimeIsCounted(Step(c, h, events[0]), h, events[1..]);
    }
  }
}
