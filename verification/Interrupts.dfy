/**
 * The simulated hardware's clock and pending interrupts (machine/interrupt.cc).  Handlers are a
 * parameter: whenever an interrupt fires its handler may schedule any number of others, each strictly
 * in the future, which is what Schedule asserts.
 */
module Interrupts {
  import opened Collections
  import opened Lists

  const SYSTEM_TICK: nat := 10
  const USER_TICK: nat := 1

  datatype Mode = IdleMode | SystemMode | UserMode

  datatype Device = TimerInt | DiskInt | ConsoleWriteInt | ConsoleReadInt | NetworkSendInt | NetworkRecvInt

  datatype Pending = Pending(handler: nat, device: Device)

  datatype Request = Request(what: Pending, fromNow: nat)

  /** What the handler asks for when the n-th interrupt to fire is this one. */
  type Handlers = (nat, Pending) -> seq<Request>

  datatype Fired = Fired(entry: Entry<Pending>, at: nat)

  /** fired and scheduled log the interrupts that have fired and all that were ever scheduled. */
  datatype Clock = Clock(
    pending: seq<Entry<Pending>>, status: Mode,
    total: nat, idle: nat, system: nat, user: nat,
    fired: seq<Fired>, scheduled: multiset<Entry<Pending>>)

  ghost predicate Future(h: Handlers) {
    forall n, p, i :: 0 <= i < |h(n, p)| ==> h(n, p)[i].fromNow > 0
  }

  // ---- the operations ----

  function Schedule(c: Clock, r: Request): Clock {
    var e := Entry(r.what, c.total + r.fromNow);
    c.(pending := InsertSorted(c.pending, e), scheduled := c.scheduled + multiset{e})
  }

  function ScheduleAll(c: Clock, rs: seq<Request>): Clock
    decreases |rs|
  {
    if rs == [] then c else ScheduleAll(Schedule(c, rs[0]), rs[1..])
  }

  /** Call the handler of an interrupt just taken off the list. */
  function Fire(c: Clock, h: Handlers, e: Entry<Pending>): Clock {
    ScheduleAll(c.(fired := c.fired + [Fired(e, c.total)]), h(|c.fired|, e.item))
  }

  /** Only an idle machine with no other interrupt to wait for leaves the timer unfired. */
  predicate NothingElse(c: Clock, e: Entry<Pending>) {
    c.status == IdleMode && e.item.device == TimerInt && c.pending == []
  }

  function CheckIfDue(c: Clock, h: Handlers, advanceClock: bool): (Clock, bool) {
    if c.pending == [] then (c, false)
    else
      var e, rest := c.pending[0], c.(pending := c.pending[1..]);
      if !advanceClock && e.key > c.total then (c.(pending := InsertSorted(rest.pending, e)), false)
      else
        var d := if e.key > c.total then rest.(idle := c.idle + (e.key - c.total), total := e.key) else rest;
        if NothingElse(d, e) then (d.(pending := InsertSorted(d.pending, e)), false) else (Fire(d, h, e), true)
  }

  /** The number of pending interrupts whose time has come. */
  function Due(s: seq<Entry<Pending>>, now: int): nat {
    if s == [] then 0 else (if s[0].key <= now then 1 else 0) + Due(s[1..], now)
  }

  lemma {:induction false} DueAppend(s: seq<Entry<Pending>>, t: seq<Entry<Pending>>, now: int)
    ensures Due(s + t, now) == Due(s, now) + Due(t, now)
  {
    if s == [] {
      assert s + t == t;
    } else {
      assert (s + t)[1..] == s[1..] + t;
      DueAppend(s[1..], t, now);
    }
  }

  lemma InsertDue(s: seq<Entry<Pending>>, e: Entry<Pending>, now: int)
    ensures Due(InsertSorted(s, e), now) == Due(s, now) + if e.key <= now then 1 else 0
  {
    var p := Position(s, e.key);
    DueAppend(s[..p] + [e], s[p..], now);
    DueAppend(s[..p], [e], now);
    DueAppend(s[..p], s[p..], now);
    assert s == s[..p] + s[p..];
    assert [e][1..] == [];
  }

  /** A handler that schedules only for the future leaves as many interrupts due as it found. */
  lemma {:induction false} ScheduleAllDue(c: Clock, rs: seq<Request>)
    requires forall i :: 0 <= i < |rs| ==> rs[i].fromNow > 0
    ensures Due(ScheduleAll(c, rs).pending, c.total) == Due(c.pending, c.total) && ScheduleAll(c, rs).total == c.total
    decreases |rs|
  {
    hide InsertSorted, Due;
    if rs != [] {
      InsertDue(c.pending, Entry(rs[0].what, c.total + rs[0].fromNow), c.total);
      ScheduleAllDue(Schedule(c, rs[0]), rs[1..]);
    }
  }

  /** Each turn of the drain loop fires one interrupt that was due. */
  lemma CheckProgress(c: Clock, h: Handlers)
    requires Future(h) && CheckIfDue(c, h, false).1
    ensures Due(CheckIfDue(c, h, false).0.pending, CheckIfDue(c, h, false).0.total) < Due(c.pending, c.total)
  {
    var e, rest := c.pending[0], c.(pending := c.pending[1..]);
    var d := rest.(fired := c.fired + [Fired(e, c.total)]);
    ScheduleAllDue(d, h(|c.fired|, e.item));
  }

  /** while (CheckIfDue(FALSE)) ; */
  ghost function Drain(c: Clock, h: Handlers): Clock
    requires Future(h)
    decreases Due(c.pending, c.total)
  {
    var (d, more) := CheckIfDue(c, h, false);
    if more then CheckProgress(c, h); Drain(d, h) else d
  }

  ghost function OneTick(c: Clock, h: Handlers): Clock
    requires Future(h)
  {
    Drain(Advance(c), h)
  }

  function Advance(c: Clock): Clock {
    if c.status == SystemMode then c.(total := c.total + SYSTEM_TICK, system := c.system + SYSTEM_TICK)
    else c.(total := c.total + USER_TICK, user := c.user + USER_TICK)
  }

  /** The flag is false when there is nothing to wait for and the machine halts. */
  ghost function Idle(c: Clock, h: Handlers): (Clock, bool)
    requires Future(h)
  {
    var (d, any) := CheckIfDue(c.(status := IdleMode), h, true);
    if any then (Drain(d, h).(status := SystemMode), true) else (d, false)
  }

  // ---- what every state satisfies ----

  function Entries(fired: seq<Fired>): multiset<Entry<Pending>> {
    if fired == [] then multiset{} else Entries(fired[..|fired| - 1]) + multiset{fired[|fired| - 1].entry}
  }

  /** None fired before its time, and neither the times of firing nor the times asked for ever went down. */
  ghost predicate InTime(fired: seq<Fired>, now: nat) {
    && (forall i :: 0 <= i < |fired| ==> fired[i].entry.key <= fired[i].at <= now)
    && (forall i, j :: 0 <= i < j < |fired| ==> fired[i].at <= fired[j].at && fired[i].entry.key <= fired[j].entry.key)
  }

  /** Nothing pending was due before the last interrupt that fired. */
  ghost predicate NotBefore(pending: seq<Entry<Pending>>, fired: seq<Fired>) {
    fired != [] ==> forall i :: 0 <= i < |pending| ==> fired[|fired| - 1].entry.key <= pending[i].key
  }

  ghost predicate Good(c: Clock) {
    && Sorted(c.pending) && InTime(c.fired, c.total) && NotBefore(c.pending, c.fired)
    && c.scheduled == multiset(c.pending) + Entries(c.fired)
    && c.total == c.idle + c.system + c.user
  }

  lemma InsertNotBefore(s: seq<Entry<Pending>>, e: Entry<Pending>, fired: seq<Fired>)
    requires NotBefore(s, fired) && (fired != [] ==> fired[|fired| - 1].entry.key <= e.key)
    ensures NotBefore(InsertSorted(s, e), fired)
  {
  }

  lemma ScheduleGood(c: Clock, r: Request)
    requires Good(c)
    ensures Good(Schedule(c, r))
  {
    hide Sorted, InsertSorted, Entries;
    var e := Entry(r.what, c.total + r.fromNow);
    InsertKeepsSorted(c.pending, e);
    InsertConserves(c.pending, e);
    InsertNotBefore(c.pending, e, c.fired);
  }

  lemma {:induction false} ScheduleAllGood(c: Clock, rs: seq<Request>)
    requires Good(c)
    ensures var d := ScheduleAll(c, rs); Good(d) && d.fired == c.fired && d.total == c.total && d.status == c.status
    decreases |rs|
  {
    hide Good, InsertSorted;
    if rs != [] {
      ScheduleGood(c, rs[0]);
      ScheduleAllGood(Schedule(c, rs[0]), rs[1..]);
    }
  }

  lemma FiredInTime(fired: seq<Fired>, now: nat, now': nat, e: Entry<Pending>)
    requires InTime(fired, now) && now <= now' && e.key <= now' && (fired != [] ==> fired[|fired| - 1].entry.key <= e.key)
    ensures InTime(fired + [Fired(e, now')], now')
  {
    var more := fired + [Fired(e, now')];
    forall i | 0 <= i < |fired| ensures fired[i].at <= now' && fired[i].entry.key <= e.key {
    }
    forall i, j | 0 <= i < j < |more| ensures more[i].at <= more[j].at && more[i].entry.key <= more[j].entry.key {
      if j < |fired| {
        assert fired[i].at <= fired[j].at && fired[i].entry.key <= fired[j].entry.key;
      }
    }
  }

  lemma EntriesSnoc(fired: seq<Fired>, f: Fired)
    ensures Entries(fired + [f]) == Entries(fired) + multiset{f.entry}
  {
    assert (fired + [f])[..|fired|] == fired;
  }

  lemma HeadOfSorted(s: seq<Entry<Pending>>)
    requires Sorted(s) && s != []
    ensures Sorted(s[1..]) && multiset(s) == multiset(s[1..]) + multiset{s[0]}
    ensures forall i :: 0 <= i < |s[1..]| ==> s[0].key <= s[1..][i].key
  {
    assert s == [s[0]] + s[1..];
  }

  /** Firing an interrupt that is due, and was first in the list, keeps everything in order. */
  lemma FireGood(c: Clock, h: Handlers, e: Entry<Pending>)
    requires Sorted(c.pending) && NotBefore(c.pending, c.fired) && InTime(c.fired, c.total)
    requires e.key <= c.total && (c.fired != [] ==> c.fired[|c.fired| - 1].entry.key <= e.key)
    requires forall i :: 0 <= i < |c.pending| ==> e.key <= c.pending[i].key
    requires c.scheduled == multiset(c.pending) + multiset{e} + Entries(c.fired) && c.total == c.idle + c.system + c.user
    ensures var d := Fire(c, h, e); Good(d) && d.fired == c.fired + [Fired(e, c.total)] && d.total == c.total && d.status == c.status
  {
    hide Sorted, ScheduleAll, Entries, InTime;
    FiredInTime(c.fired, c.total, c.total, e);
    EntriesSnoc(c.fired, Fired(e, c.total));
    ScheduleAllGood(c.(fired := c.fired + [Fired(e, c.total)]), h(|c.fired|, e.item));
  }

  lemma PutBackGood(c: Clock, e: Entry<Pending>)
    requires Sorted(c.pending) && NotBefore(c.pending, c.fired) && InTime(c.fired, c.total)
    requires c.fired != [] ==> c.fired[|c.fired| - 1].entry.key <= e.key
    requires c.scheduled == multiset(c.pending) + multiset{e} + Entries(c.fired) && c.total == c.idle + c.system + c.user
    ensures Good(c.(pending := InsertSorted(c.pending, e)))
  {
    hide Sorted, InsertSorted, Entries, InTime;
    InsertKeepsSorted(c.pending, e);
    InsertConserves(c.pending, e);
    InsertNotBefore(c.pending, e, c.fired);
  }

  lemma LaterInTime(fired: seq<Fired>, now: nat, now': nat)
    requires InTime(fired, now) && now <= now'
    ensures InTime(fired, now')
  {
  }

  /** A check fires at most the first pending interrupt, never early, and conserves the rest. */
  lemma CheckGood(c: Clock, h: Handlers, advanceClock: bool)
    requires Good(c)
    ensures var (d, any) := CheckIfDue(c, h, advanceClock);
      && Good(d) && c.total <= d.total && (!advanceClock ==> d.total == c.total) && d.status == c.status
      && d.fired == if any then c.fired + [Fired(c.pending[0], d.total)] else c.fired
  {
    hide Sorted, InsertSorted, Entries, InTime, ScheduleAll, Fire;
    if c.pending != [] {
      var e, rest := c.pending[0], c.(pending := c.pending[1..]);
      HeadOfSorted(c.pending);
      if !advanceClock && e.key > c.total {
        PutBackGood(rest, e);
      } else {
        var d := if e.key > c.total then rest.(idle := c.idle + (e.key - c.total), total := e.key) else rest;
        LaterInTime(c.fired, c.total, d.total);
        if NothingElse(d, e) {
          PutBackGood(d, e);
        } else {
          FireGood(d, h, e);
        }
      }
    }
  }

  /** What a drain may leave: nothing due, unless an idle machine has only its timer to wait for. */
  ghost predicate Drained(c: Clock) {
    || (forall i :: 0 <= i < |c.pending| ==> c.pending[i].key > c.total)
    || (c.status == IdleMode && |c.pending| == 1 && c.pending[0].item.device == TimerInt)
  }

  lemma StopsWhenDrained(c: Clock, h: Handlers)
    requires Good(c) && !CheckIfDue(c, h, false).1
    ensures Drained(CheckIfDue(c, h, false).0)
  {
    hide Entries, InTime, NotBefore, Fire, InsertSorted;
    if c.pending != [] {
      var e, rest := c.pending[0], c.pending[1..];
      if e.key > c.total {
        forall i | 0 <= i < |InsertSorted(rest, e)| ensures InsertSorted(rest, e)[i].key > c.total {
          InsertedAt(rest, e, i);
        }
      } else {
        InsertIntoEmpty(e);
      }
    }
  }

  lemma InsertIntoEmpty(e: Entry<Pending>)
    ensures InsertSorted([], e) == [e]
  {
  }

  /** The drain loop ends with nothing due, having fired what was due in order. */
  lemma {:induction false} DrainGood(c: Clock, h: Handlers)
    requires Good(c) && Future(h)
    ensures var d := Drain(c, h); Good(d) && Drained(d) && d.total == c.total && d.status == c.status && c.fired <= d.fired
    decreases Due(c.pending, c.total)
  {
    hide Good, CheckIfDue, Drained;
    CheckGood(c, h, false);
    if CheckIfDue(c, h, false).1 {
      CheckProgress(c, h);
      DrainGood(CheckIfDue(c, h, false).0, h);
    } else {
      StopsWhenDrained(c, h);
    }
  }

  /** While the machine is not idle, a drain leaves nothing due. */
  lemma BusyDrainLeavesNothing(c: Clock, h: Handlers)
    requires Good(c) && Future(h) && c.status != IdleMode
    ensures var d := Drain(c, h); forall i :: 0 <= i < |d.pending| ==> d.pending[i].key > d.total
  {
    hide Good, Drain;
    DrainGood(c, h);
  }

  ghost predicate AllDue(c: Clock) {
    forall i :: 0 <= i < |c.pending| ==> c.pending[i].key <= c.total
  }

  ghost predicate SomeDue(c: Clock) {
    exists i :: 0 <= i < |c.pending| && c.pending[i].key <= c.total
  }

  /** Idle, everything pending is due, a timer comes last and no handler before it schedules anything. */
  ghost predicate TimerLast(c: Clock, h: Handlers) {
    && c.status == IdleMode && c.pending != [] && AllDue(c)
    && c.pending[|c.pending| - 1].item.device == TimerInt
    && (forall i :: 0 <= i < |c.pending| - 1 ==> h(|c.fired| + i, c.pending[i].item) == [])
  }

  lemma {:induction false} DueCount(s: seq<Entry<Pending>>, now: int)
    ensures Due(s, now) <= |s| && (Due(s, now) == |s| <==> forall i :: 0 <= i < |s| ==> s[i].key <= now)
  {
    if s != [] {
      DueCount(s[1..], now);
      assert s == [s[0]] + s[1..];
    }
  }

  lemma {:induction false} ScheduleAllSize(c: Clock, rs: seq<Request>)
    ensures |ScheduleAll(c, rs).pending| == |c.pending| + |rs|
    decreases |rs|
  {
    if rs != [] {
      ScheduleAllSize(Schedule(c, rs[0]), rs[1..]);
    }
  }

  /** With one more fired and off the list, its handler having asked for nothing, the rest decide. */
  lemma TimerLastTail(c: Clock, h: Handlers, d: Clock)
    requires |c.pending| > 1 && c.pending[0].key <= c.total && h(|c.fired|, c.pending[0].item) == []
    requires d.pending == c.pending[1..] && |d.fired| == |c.fired| + 1 && d.total == c.total && d.status == c.status
    ensures TimerLast(d, h) <==> TimerLast(c, h)
  {
    if TimerLast(d, h) {
      forall i | 0 <= i < |c.pending| ensures c.pending[i].key <= c.total {
        assert i > 0 ==> c.pending[i] == d.pending[i - 1];
      }
      forall i | 0 <= i < |c.pending| - 1 ensures h(|c.fired| + i, c.pending[i].item) == [] {
        assert i > 0 ==> c.pending[i] == d.pending[i - 1] && |c.fired| + i == |d.fired| + (i - 1);
      }
    }
    if TimerLast(c, h) {
      forall i | 0 <= i < |d.pending| - 1 ensures h(|d.fired| + i, d.pending[i].item) == [] {
        assert d.pending[i] == c.pending[i + 1] && |d.fired| + i == |c.fired| + (i + 1);
      }
    }
  }

  /** An interrupt scheduled for the future is pending and not due. */
  lemma SchedulingLeavesOneAhead(c: Clock, rs: seq<Request>)
    requires rs != [] && forall i :: 0 <= i < |rs| ==> rs[i].fromNow > 0
    ensures !AllDue(ScheduleAll(c, rs))
  {
    ScheduleAllSize(c, rs);
    ScheduleAllDue(c, rs);
    DueCount(c.pending, c.total);
    DueCount(ScheduleAll(c, rs).pending, c.total);
  }

  /** Firing the first of several interrupts makes no difference to what the drain will leave. */
  lemma FireKeepsTimerLast(c: Clock, h: Handlers)
    requires Future(h) && CheckIfDue(c, h, false).1
    ensures TimerLast(CheckIfDue(c, h, false).0, h) <==> TimerLast(c, h)
  {
    var e, rs := c.pending[0], h(|c.fired|, c.pending[0].item);
    var b, d := c.(pending := c.pending[1..], fired := c.fired + [Fired(e, c.total)]), CheckIfDue(c, h, false).0;
    assert d == ScheduleAll(b, rs);
    if rs != [] {
      SchedulingLeavesOneAhead(b, rs);
      assert TimerLast(c, h) ==> |c.pending| == 1;
    } else if |c.pending| > 1 {
      TimerLastTail(c, h, d);
    }
  }

  /**
   * A drain ends with something still due exactly when an idle machine comes down to its timer alone:
   * all that is pending is due, a timer is last and no handler before it schedules anything.
   */
  lemma {:induction false} DrainLeavesTimer(c: Clock, h: Handlers)
    requires Good(c) && Future(h)
    ensures SomeDue(Drain(c, h)) <==> TimerLast(c, h)
    decreases Due(c.pending, c.total)
  {
    var (d, more) := CheckIfDue(c, h, false);
    if more {
      CheckGood(c, h, false);
      CheckProgress(c, h);
      FireKeepsTimerLast(c, h);
      hide Good, CheckIfDue, TimerLast;
      DrainLeavesTimer(d, h);
    } else {
      StopsAtTimer(c, h);
      hide Good, CheckIfDue, TimerLast, SomeDue;
    }
  }

  lemma StopsAtTimer(c: Clock, h: Handlers)
    requires Good(c) && !CheckIfDue(c, h, false).1
    ensures SomeDue(CheckIfDue(c, h, false).0) <==> TimerLast(c, h)
  {
    hide Entries, InTime, NotBefore, Fire, InsertSorted;
    if c.pending != [] {
      var e, rest := c.pending[0], c.pending[1..];
      if e.key > c.total {
        forall i | 0 <= i < |InsertSorted(rest, e)| ensures InsertSorted(rest, e)[i].key > c.total {
          InsertedAt(rest, e, i);
        }
      } else {
        InsertIntoEmpty(e);
        assert c.pending == [e] + rest;
        assert CheckIfDue(c, h, false).0.pending[0] == e;
      }
    }
  }

  /** Such a timer stays where it is. */
  lemma IdleDrainLeavesTimer(c: Clock, h: Handlers, e: Entry<Pending>)
    requires Future(h) && c.status == IdleMode && c.pending == [e] && e.item.device == TimerInt && e.key <= c.total
    ensures Drain(c, h) == c
  {
    InsertIntoEmpty(e);
    assert [e][1..] == [];
  }

  lemma AdvanceGood(c: Clock)
    requires Good(c)
    ensures Good(Advance(c)) && Advance(c).total > c.total
  {
    hide Sorted, Entries;
    LaterInTime(c.fired, c.total, Advance(c).total);
  }

  lemma OneTickGood(c: Clock, h: Handlers)
    requires Good(c) && Future(h)
    ensures var d := OneTick(c, h); Good(d) && Drained(d) && c.total < d.total && d.status == c.status && c.fired <= d.fired
  {
    hide Good, Drained, Advance;
    AdvanceGood(c);
    assert Advance(c).fired == c.fired && Advance(c).status == c.status by { AdvanceKeeps(c); }
    DrainGood(Advance(c), h);
  }

  lemma AdvanceKeeps(c: Clock)
    ensures Advance(c).fired == c.fired && Advance(c).status == c.status
  {
  }

  lemma RestatusGood(c: Clock, status: Mode)
    requires Good(c)
    ensures Good(c.(status := status))
  {
  }

  /** When the machine idles, the clock moves to the next interrupt and no further. */
  lemma IdleGood(c: Clock, h: Handlers)
    requires Good(c) && Future(h)
    ensures var (d, any) := Idle(c, h); Good(d) && c.total <= d.total && c.fired <= d.fired && (any ==> c.fired < d.fired && d.status == SystemMode)
  {
    hide Good, CheckIfDue, Drained;
    RestatusGood(c, IdleMode);
    CheckGood(c.(status := IdleMode), h, true);
    var (d, any) := CheckIfDue(c.(status := IdleMode), h, true);
    if any {
      DrainGood(d, h);
      RestatusGood(Drain(d, h), SystemMode);
    }
  }

  // ---- runs ----

  datatype Event = Tick | Wait | Ask(r: Request) | Switch(status: Mode)

  ghost function Step(c: Clock, h: Handlers, e: Event): Clock
    requires Future(h)
  {
    match e
    case Tick => OneTick(c, h)
    case Wait => Idle(c, h).0
    case Ask(r) => Schedule(c, r)
    case Switch(status) => c.(status := status)
  }

  ghost function Run(c: Clock, h: Handlers, events: seq<Event>): Clock
    requires Future(h)
    decreases |events|
  {
    if events == [] then c else Run(Step(c, h, events[0]), h, events[1..])
  }

  /**
   * Over every run, whatever the handlers do: the list stays sorted and accounts with the fired ones
   * for all that were scheduled, none fires early, times of firing never go down, and the three tick
   * counters add up to the total.
   */
  lemma {:induction false} ClockRun(c: Clock, h: Handlers, events: seq<Event>)
    requires Good(c) && Future(h)
    ensures Good(Run(c, h, events)) && c.fired <= Run(c, h, events).fired && c.total <= Run(c, h, events).total
    decreases |events|
  {
    hide Good, OneTick, Idle, Schedule;
    if events != [] {
      match events[0] {
        case Tick => OneTickGood(c, h);
        case Wait => IdleGood(c, h);
        case Ask(r) => ScheduleGood(c, r); ScheduleKeeps(c, r);
        case Switch(status) => RestatusGood(c, status);
      }
      ClockRun(Step(c, h, events[0]), h, events[1..]);
    }
  }

  lemma ScheduleKeeps(c: Clock, r: Request)
    ensures Schedule(c, r).fired == c.fired && Schedule(c, r).total == c.total
  {
  }

  lemma NewClockGood()
    ensures Good(Clock([], SystemMode, 0, 0, 0, 0, [], multiset{}))
  {
  }

  // ---- the object ----

  class Interrupt {
    const handlers: Handlers
    const pending: List<Pending>
    var status: Mode
    var totalTicks: nat
    var idleTicks: nat
    var systemTicks: nat
    var userTicks: nat
    ghost var fired: seq<Fired>
    ghost var scheduled: multiset<Entry<Pending>>
    var count: nat // how many have fired; the handlers' first argument

    ghost predicate Valid()
      reads this, pending, pending.elements
    {
      pending.Valid() && Future(handlers) && Good(State()) && count == |fired|
    }

    ghost function State(): Clock
      reads this, pending
    {
      Clock(pending.Contents(), status, totalTicks, idleTicks, systemTicks, userTicks, fired, scheduled)
    }

    constructor (handlers: Handlers)
      requires Future(handlers)
      ensures Valid() && fresh(pending) && pending.elements == {} && State() == Clock([], SystemMode, 0, 0, 0, 0, [], multiset{})
    {
      hide Good, Future, List.Contents, List.Valid;
      this.handlers := handlers;
      pending := new List();
      status, count := SystemMode, 0;
      totalTicks, idleTicks, systemTicks, userTicks := 0, 0, 0, 0;
      fired, scheduled := [], multiset{};
      new;
      NewClockGood();
    }

    /** Interrupt::Schedule; a handler calls it too, while the interrupt it serves is in no list. */
    method ScheduleInterrupt(what: Pending, fromNow: nat)
      requires pending.Valid()
      modifies this`scheduled, pending, pending.elements
      ensures pending.Valid() && fresh(pending.elements - old(pending.elements))
      ensures multiset(pending.Contents()) == multiset(old(pending.Contents())) + multiset{Entry(what, totalTicks + fromNow)}
      ensures State() == Schedule(old(State()), Request(what, fromNow)) && (old(Valid()) ==> Valid())
    {
      hide Good, Future, InsertSorted, List.Contents, List.Valid;
      InsertConserves(pending.Contents(), Entry(what, totalTicks + fromNow));
      if Good(State()) {
        ScheduleGood(State(), Request(what, fromNow));
      }
      var when := totalTicks + fromNow;
      pending.SortedInsert(what, when);
      scheduled := scheduled + multiset{Entry(what, when)};
    }

    /** What a handler asks for, one request after another. */
    method ScheduleRequests(requests: seq<Request>)
      requires pending.Valid()
      modifies this`scheduled, pending, pending.elements
      ensures pending.Valid() && fresh(pending.elements - old(pending.elements))
      ensures State() == ScheduleAll(old(State()), requests)
    {
      hide Schedule, List.Contents, List.Valid, Valid;
      ghost var c := State();
      assert requests[0..] == requests;
      for i := 0 to |requests|
        invariant pending.Valid() && fresh(pending.elements - old(pending.elements))
        invariant ScheduleAll(State(), requests[i..]) == ScheduleAll(c, requests)
      {
        assert requests[i..][0] == requests[i] && requests[i..][1..] == requests[i + 1..];
        ScheduleInterrupt(requests[i].what, requests[i].fromNow);
      }
    }

    /** Call the handler of the interrupt. */
    method Invoke(e: Entry<Pending>, ghost c: Clock)
      requires pending.Valid() && Future(handlers) && count == |fired| && State() == c && Good(Fire(c, handlers, e))
      modifies this, pending, pending.elements
      ensures Valid() && fresh(pending.elements - old(pending.elements))
      ensures State() == Fire(c, handlers, e)
    {
      hide Good, Future, InsertSorted, ScheduleAll, List.Contents, List.Valid;
      var requests := handlers(count, e.item);
      fired, count := fired + [Fired(e, totalTicks)], count + 1;
      ScheduleRequests(requests);
    }

    method CheckDue(advanceClock: bool) returns (any: bool)
      requires Valid()
      modifies this, pending, pending.elements
      ensures Valid() && fresh(pending.elements - old(pending.elements))
      ensures (State(), any) == CheckIfDue(old(State()), handlers, advanceClock)
    {
      hide Good, Future, InsertSorted, ScheduleAll, List.Contents, List.Valid;
      CheckGood(State(), handlers, advanceClock);
      var toOccur := pending.SortedRemove();
      if toOccur == None {
        return false;
      }
      var what, when := toOccur.value.item, toOccur.value.key;
      if advanceClock && when > totalTicks {
        idleTicks := idleTicks + (when - totalTicks);
        totalTicks := when;
      } else if when > totalTicks {
        pending.SortedInsert(what, when);
        return false;
      }
      var alone := pending.IsEmpty();
      if status == IdleMode && what.device == TimerInt && alone {
        pending.SortedInsert(what, when);
        return false;
      }
      Invoke(toOccur.value, State());
      any := true;
    }

    /** while (CheckIfDue(FALSE)) ; */
    method DrainDue()
      requires Valid()
      modifies this, pending, pending.elements
      ensures Valid() && fresh(pending.elements - old(pending.elements))
      ensures State() == Drain(old(State()), handlers)
    {
      hide Good, Future, CheckIfDue, List.Contents, List.Valid;
      ghost var c := State();
      var more := true;
      while more
        invariant Valid() && fresh(pending.elements - old(pending.elements))
        invariant Drain(c, handlers) == if more then Drain(State(), handlers) else State()
        decreases more, Due(pending.Contents(), totalTicks)
      {
        ghost var d := State();
        more := CheckDue(false);
        if more {
          CheckProgress(d, handlers);
        }
      }
    }

    /** Interrupt::OneTick up to the yield it may end with. */
    method TickOnce()
      requires Valid()
      modifies this, pending, pending.elements
      ensures Valid() && fresh(pending.elements - old(pending.elements))
      ensures State() == OneTick(old(State()), handlers)
    {
      hide Good, Future, Drain, List.Contents, List.Valid;
      AdvanceGood(State());
      if status == SystemMode {
        totalTicks, systemTicks := totalTicks + SYSTEM_TICK, systemTicks + SYSTEM_TICK;
      } else {
        totalTicks, userTicks := totalTicks + USER_TICK, userTicks + USER_TICK;
      }
      DrainDue();
    }

    /** Interrupt::Idle; false where the source halts. */
    method IdleOnce() returns (any: bool)
      requires Valid()
      modifies this, pending, pending.elements
      ensures Valid() && fresh(pending.elements - old(pending.elements))
      ensures (State(), any) == Idle(old(State()), handlers)
    {
      hide Good, Future, Drain, CheckIfDue, List.Contents, List.Valid;
      RestatusGood(State(), IdleMode);
      status := IdleMode;
      any := CheckDue(true);
      if any {
        DrainDue();
        RestatusGood(State(), SystemMode);
        status := SystemMode;
      }
    }
  }
}
