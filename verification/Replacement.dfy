/**
 * The replacement policies FIFO and LRU.  Both keep frame numbers in an array with -1 in the empty
 * slots; they differ only in what a touch does.  The functions below say what each operation makes
 * of the slots, the class performs them in place.
 */
module Replacement {

  datatype Kind = Fifo | Lru

  const EMPTY := -1

  // ---- specification over the slots ----

  /** Index of the first slot at or after i that holds x, or the length. */
  function Find(q: seq<int>, x: int, i: nat): (k: nat)
    requires i <= |q|
    ensures i <= k <= |q| && (k < |q| ==> q[k] == x)
    ensures forall j :: i <= j < k ==> q[j] != x
    decreases |q| - i
  {
    if i == |q| || q[i] == x then i else Find(q, x, i + 1)
  }

  /** Put p into the first empty slot; without one nothing happens. */
  function Put(q: seq<int>, p: int): (r: seq<int>)
    ensures |r| == |q|
  {
    var k := Find(q, EMPTY, 0);
    if k < |q| then q[k := p] else q
  }

  /** Take the frame in front and send it to the back. */
  function Rotate(q: seq<int>): (r: seq<int>)
    requires 0 < |q|
    ensures |r| == |q|
  {
    q[1..] + [q[0]]
  }

  /** The slot where a shift that starts at i stops: the first empty slot after i, or the last slot. */
  function Stop(q: seq<int>, i: nat): (e: nat)
    requires i < |q|
    ensures i <= e < |q|
  {
    var k := Find(q, EMPTY, i + 1);
    if k < |q| then k else |q| - 1
  }

  /** Drop slot i, close the gap up to where the shift stops, and put x there. */
  function ShiftOut(q: seq<int>, i: nat, x: int): (r: seq<int>)
    requires i < |q|
    ensures |r| == |q|
  {
    var e := Stop(q, i);
    q[..i] + q[i + 1..e + 1] + [x] + q[e + 1..]
  }

  /** Release frame p. */
  function Drop(q: seq<int>, p: int): (r: seq<int>)
    requires p in q
    ensures |r| == |q|
  {
    ShiftOut(q, Find(q, p, 0), EMPTY)
  }

  /** Record an access to frame p: nothing for FIFO, a move towards the back for LRU. */
  function Mark(kind: Kind, q: seq<int>, p: int): (r: seq<int>)
    requires p in q
    ensures |r| == |q|
  {
    if kind == Fifo then q else ShiftOut(q, Find(q, p, 0), p)
  }

  // ---- the frames in the queue are exactly the frames in use ----

  /** Slots hold -1 or frame numbers; a frame in use is in exactly one slot, any other in none. */
  ghost predicate Agrees(q: seq<int>, used: seq<bool>) {
    && |q| == |used|
    && (forall x :: x in q ==> x == EMPTY || 0 <= x < |used|)
    && (forall p :: 0 <= p < |used| ==> multiset(q)[p] == if used[p] then 1 else 0)
  }

  lemma Twice(q: seq<int>, i: nat, j: nat)
    requires i < j < |q| && q[i] == q[j]
    ensures multiset(q)[q[i]] >= 2
  {
    assert q == q[..i] + [q[i]] + q[i + 1..j] + [q[j]] + q[j + 1..];
  }

  /** With every frame in use there is no empty slot, so the frame in front is a frame. */
  lemma FullHasNoHole(q: seq<int>, used: seq<bool>)
    requires Agrees(q, used) && forall p :: 0 <= p < |used| ==> used[p]
    ensures forall i :: 0 <= i < |q| ==> 0 <= q[i] < |q|
  {
    assert forall i :: 0 <= i < |q| ==> q[i] in q;
    if i :| 0 <= i < |q| && q[i] == EMPTY {
      var rest := q[..i] + q[i + 1..];
      forall p | 0 <= p < |q| ensures p in rest {
        assert used[p] && multiset(q)[p] == 1;
        var k :| 0 <= k < |q| && q[k] == p;
        assert if k < i then rest[k] == p else rest[k - 1] == p;
      }
      Pigeonhole(rest, |q|);
    }
  }

  /** With a frame free there is an empty slot to put it in. */
  lemma FreeHasHole(q: seq<int>, used: seq<bool>, p: nat)
    requires Agrees(q, used) && p < |used| && !used[p]
    ensures Find(q, EMPTY, 0) < |q|
  {
    if Find(q, EMPTY, 0) == |q| {
      assert forall i :: 0 <= i < |q| ==> q[i] != EMPTY && q[i] in q;
      forall i, j | 0 <= i < j < |q| ensures q[i] != q[j] {
        if q[i] == q[j] {
          Twice(q, i, j);
        }
      }
      DistinctCovers(q, |q|, p);
    }
  }

  function Range(n: nat): (r: set<int>)
    ensures |r| == n && forall p :: p in r <==> 0 <= p < n
  {
    if n == 0 then {} else Range(n - 1) + {n - 1}
  }

  /** n - 1 slots cannot cover n numbers. */
  lemma Pigeonhole(s: seq<int>, n: nat)
    requires |s| < n
    ensures exists p :: 0 <= p < n && p !in s
  {
    ElementsSize(s);
    if forall p :: 0 <= p < n ==> p in s {
      SubsetSize(Range(n), set x | x in s);
    }
  }

  lemma {:induction false} ElementsSize(s: seq<int>)
    ensures |set x | x in s| <= |s|
  {
    if s != [] {
      ElementsSize(s[1..]);
      assert (set x | x in s) == (set x | x in s[1..]) + {s[0]};
    }
  }

  lemma {:induction false} SubsetSize(a: set<int>, b: set<int>)
    requires a <= b
    ensures |a| <= |b|
  {
    assert b == a + (b - a);
  }

  /** n distinct numbers below n are all of them. */
  lemma DistinctCovers(s: seq<int>, n: nat, p: nat)
    requires |s| == n && p < n
    requires forall i :: 0 <= i < |s| ==> 0 <= s[i] < n
    requires forall i, j :: 0 <= i < j < |s| ==> s[i] != s[j]
    ensures p in s
  {
    DistinctSize(s);
    if p !in s {
      SubsetSize((set x | x in s), Range(n) - {p});
    }
  }

  lemma {:induction false} DistinctSize(s: seq<int>)
    requires forall i, j :: 0 <= i < j < |s| ==> s[i] != s[j]
    ensures |set x | x in s| == |s|
  {
    if s != [] {
      DistinctSize(s[1..]);
      assert (set x | x in s) == (set x | x in s[1..]) + {s[0]};
      assert s[0] !in s[1..];
    }
  }

  /** A frame brought into use takes an empty slot. */
  lemma PutAgrees(q: seq<int>, used: seq<bool>, p: nat)
    requires Agrees(q, used) && p < |used| && !used[p]
    ensures Agrees(Put(q, p), used[p := true])
  {
    FreeHasHole(q, used, p);
    var k := Find(q, EMPTY, 0);
    assert q == q[..k] + [EMPTY] + q[k + 1..];
    assert Put(q, p) == q[..k] + [p] + q[k + 1..];
    forall x | x in Put(q, p) ensures x == p || x in q {
      assert x in q[..k] || x == p || x in q[k + 1..];
    }
  }

  /** Choosing a victim keeps every frame queued. */
  lemma RotateAgrees(q: seq<int>, used: seq<bool>)
    requires Agrees(q, used) && 0 < |q|
    ensures Agrees(Rotate(q), used)
  {
    assert q == [q[0]] + q[1..];
    assert multiset(Rotate(q)) == multiset(q);
    forall x | x in Rotate(q) ensures x in q {
      assert x in multiset(Rotate(q));
    }
  }

  /** A shift takes out one occurrence of q[i] and puts in x; everything else only moves. */
  lemma ShiftOutConserves(q: seq<int>, i: nat, x: int)
    requires i < |q|
    ensures multiset(ShiftOut(q, i, x)) == multiset(q) - multiset{q[i]} + multiset{x}
  {
    var e := Stop(q, i);
    var a, b, c := q[..i], q[i + 1..e + 1], q[e + 1..];
    assert q == a + [q[i]] + b + c;
    assert ShiftOut(q, i, x) == a + b + [x] + c;
  }

  lemma MarkAgrees(kind: Kind, q: seq<int>, used: seq<bool>, p: nat)
    requires Agrees(q, used) && p in q
    ensures Agrees(Mark(kind, q, p), used)
  {
    if kind == Lru {
      ShiftOutConserves(q, Find(q, p, 0), p);
      assert multiset(Mark(kind, q, p)) == multiset(q);
      forall x | x in Mark(kind, q, p) ensures x in q {
        assert x in multiset(Mark(kind, q, p));
      }
    }
  }

  lemma UsedIsQueued(q: seq<int>, used: seq<bool>, p: nat)
    requires Agrees(q, used) && p < |used| && used[p]
    ensures p in q
  {
    assert multiset(q)[p] == 1;
    assert p in multiset(q);
  }

  lemma DropAgrees(q: seq<int>, used: seq<bool>, p: nat)
    requires Agrees(q, used) && p in q
    ensures Agrees(Drop(q, p), used[p := false])
  {
    ShiftOutConserves(q, Find(q, p, 0), EMPTY);
    forall x | x in Drop(q, p) ensures x == EMPTY || x in q {
      assert x in multiset(Drop(q, p));
    }
  }

  // ---- in what order frames are replaced ----

  datatype Use = Loaded(p: int) | Replaced | Cleared(p: int) | Touched(p: int)

  /** A queue with, for each frame in it, the time of the last use that counts; the clock is in now. */
  datatype History = History(q: seq<int>, last: map<int, nat>, now: nat)

  ghost predicate Full(q: seq<int>) {
    0 < |q| && forall i :: 0 <= i < |q| ==> q[i] != EMPTY
  }

  /** What the memory manager guarantees: a fresh frame and a slot for it, a full queue to replace from. */
  ghost predicate Legal(q: seq<int>, u: Use) {
    match u
    case Loaded(p) => p != EMPTY && p !in q && EMPTY in q
    case Replaced => Full(q)
    case Cleared(p) => p != EMPTY && p in q
    case Touched(p) => p != EMPTY && p in q
  }

  /** The queue after one use. */
  function Used(kind: Kind, q: seq<int>, u: Use): seq<int> {
    match u
    case Loaded(p) => Put(q, p)
    case Replaced => if q == [] then q else Rotate(q)
    case Cleared(p) => if p in q then Drop(q, p) else q
    case Touched(p) => if p in q then Mark(kind, q, p) else q
  }

  /** Under FIFO loading a frame counts, under LRU touching it does too. */
  function Next(kind: Kind, h: History, u: Use): History {
    var last := match u
      case Loaded(p) => h.last[p := h.now]
      case Replaced => if h.q == [] then h.last else h.last[h.q[0] := h.now]
      case Cleared(p) => h.last
      case Touched(p) => if kind == Lru && p in h.q then h.last[p := h.now] else h.last;
    History(Used(kind, h.q, u), last, h.now + 1)
  }

  /** A memory of n frames, none in use. */
  function Booted(n: nat): History {
    History(seq(n, _ => EMPTY), map[], 0)
  }

  function After(kind: Kind, h: History, uses: seq<Use>): History {
    if uses == [] then h else Next(kind, After(kind, h, uses[..|uses| - 1]), uses[|uses| - 1])
  }

  ghost predicate LegalRun(kind: Kind, h: History, uses: seq<Use>) {
    uses == [] ||
    (LegalRun(kind, h, uses[..|uses| - 1]) && Legal(After(kind, h, uses[..|uses| - 1]).q, uses[|uses| - 1]))
  }

  /** The first k slots hold frames, each used later than the one before it; the rest are empty. */
  ghost predicate InOrder(h: History, k: nat) {
    && k <= |h.q|
    && (forall i :: k <= i < |h.q| ==> h.q[i] == EMPTY)
    && (forall i :: 0 <= i < k ==> h.q[i] != EMPTY && h.q[i] in h.last && h.last[h.q[i]] < h.now)
    && (forall i, j :: 0 <= i < j < k ==> h.last[h.q[i]] < h.last[h.q[j]])
  }

  lemma FirstEmpty(q: seq<int>, k: nat, i: nat)
    requires i <= k <= |q| && (k < |q| ==> q[k] == EMPTY) && forall j :: i <= j < k ==> q[j] != EMPTY
    ensures Find(q, EMPTY, i) == k
  {
    var f := Find(q, EMPTY, i);
    assert f >= k;
  }

  lemma LoadInOrder(h: History, p: int, k: nat)
    requires InOrder(h, k) && Legal(h.q, Loaded(p))
    ensures k < |h.q| && InOrder(Next(Fifo, h, Loaded(p)), k + 1)
  {
    FirstEmpty(h.q, k, 0);
    var t := Next(Fifo, h, Loaded(p));
    assert forall i :: 0 <= i < k ==> t.q[i] == h.q[i] && h.q[i] in h.q;
  }

  /** Moving slot i of a full queue to the back, with the newest time stamp, keeps the order. */
  lemma BackInOrder(h: History, i: nat, r: seq<int>)
    requires InOrder(h, |h.q|) && i < |h.q| == |r|
    requires forall a :: 0 <= a < |r| - 1 ==> r[a] == h.q[if a < i then a else a + 1]
    requires r[|r| - 1] == h.q[i]
    ensures InOrder(History(r, h.last[h.q[i] := h.now], h.now + 1), |r|)
  {
    var t, n := History(r, h.last[h.q[i] := h.now], h.now + 1), |r|;
    forall a | 0 <= a < n - 1 ensures r[a] != h.q[i] && t.last[r[a]] == h.last[h.q[if a < i then a else a + 1]] {
      assert if a < i then h.last[h.q[a]] < h.last[h.q[i]] else h.last[h.q[i]] < h.last[h.q[a + 1]];
    }
    forall a, b | 0 <= a < b < n ensures t.last[t.q[a]] < t.last[t.q[b]] {
      if b < n - 1 {
        assert h.last[h.q[if a < i then a else a + 1]] < h.last[h.q[if b < i then b else b + 1]];
      }
    }
  }

  lemma ReplaceInOrder(kind: Kind, h: History)
    requires InOrder(h, |h.q|) && Full(h.q)
    ensures InOrder(Next(kind, h, Replaced), |h.q|)
  {
    BackInOrder(h, 0, Rotate(h.q));
  }

  /** Where each slot of a shift came from. */
  lemma ShiftOutAt(q: seq<int>, i: nat, x: int, k: nat)
    requires i < |q| && k < |q|
    ensures var e := Stop(q, i); ShiftOut(q, i, x)[k] == if k < i || k > e then q[k] else if k < e then q[k + 1] else x
  {
  }

  /** Where a shift over the first k slots, the rest being empty, leaves the frames. */
  lemma ShiftOutPrefix(h: History, k: nat, i: nat, x: int)
    requires InOrder(h, k) && i < k
    ensures Stop(h.q, i) == if k < |h.q| then k else k - 1
    ensures forall j :: 0 <= j < k - 1 ==> ShiftOut(h.q, i, x)[j] == if j < i then h.q[j] else h.q[j + 1]
    ensures forall j :: k - 1 <= j < |h.q| && j != Stop(h.q, i) ==> ShiftOut(h.q, i, x)[j] == EMPTY
    ensures ShiftOut(h.q, i, x)[Stop(h.q, i)] == x
  {
    FirstEmpty(h.q, k, i + 1);
    var r, e := ShiftOut(h.q, i, x), Stop(h.q, i);
    forall j | 0 <= j < |h.q| ensures r[j] == if j < i || j > e then h.q[j] else if j < e then h.q[j + 1] else x {
      ShiftOutAt(h.q, i, x, j);
    }
    forall j | 0 <= j < k - 1 ensures r[j] == if j < i then h.q[j] else h.q[j + 1] {
    }
    forall j | k - 1 <= j < |h.q| && j != e ensures r[j] == EMPTY {
    }
  }

  /** Slot i dropped and the gap closed, the stamps as they were. */
  lemma ClosedUp(h: History, k: nat, i: nat, q: seq<int>)
    requires InOrder(h, k) && i < k && |q| == |h.q|
    requires (forall j :: 0 <= j < i ==> q[j] == h.q[j]) && (forall j :: i <= j < k - 1 ==> q[j] == h.q[j + 1])
    requires forall j :: k - 1 <= j < |q| ==> q[j] == EMPTY
    ensures InOrder(History(q, h.last, h.now + 1), k - 1)
  {
    forall j | 0 <= j < k - 1 ensures q[j] != EMPTY && q[j] in h.last && h.last[q[j]] < h.now {
      var s := if j < i then j else j + 1;
      assert q[j] == h.q[s];
    }
    forall a, b | 0 <= a < b < k - 1 ensures h.last[q[a]] < h.last[q[b]] {
      var s, t := if a < i then a else a + 1, if b < i then b else b + 1;
      assert q[a] == h.q[s] && q[b] == h.q[t] && h.last[h.q[s]] < h.last[h.q[t]];
    }
  }

  lemma ClearInOrder(h: History, p: int, k: nat)
    requires InOrder(h, k) && Legal(h.q, Cleared(p))
    ensures 0 < k && InOrder(Next(Fifo, h, Cleared(p)), k - 1)
  {
    var i := Find(h.q, p, 0);
    assert i < k;
    ShiftOutPrefix(h, k, i, EMPTY);
    hide InOrder, ShiftOut, Stop;
    ClosedUp(h, k, i, ShiftOut(h.q, i, EMPTY));
  }

  lemma FifoStep(h: History, u: Use, k: nat) returns (k': nat)
    requires InOrder(h, k) && Legal(h.q, u)
    ensures InOrder(Next(Fifo, h, u), k')
  {
    hide Next;
    match u
    case Loaded(p) =>
      LoadInOrder(h, p, k);
      k' := k + 1;
    case Replaced =>
      FirstEmpty(h.q, k, 0);
      ReplaceInOrder(Fifo, h);
      k' := k;
    case Cleared(p) =>
      ClearInOrder(h, p, k);
      k' := k - 1;
    case Touched(p) =>
      TouchFifo(h, p, k);
      k' := k;
  }

  lemma TouchFifo(h: History, p: int, k: nat)
    requires InOrder(h, k)
    ensures InOrder(Next(Fifo, h, Touched(p)), k)
  {
  }

  lemma {:induction false} FifoInOrder(n: nat, uses: seq<Use>) returns (k: nat)
    requires LegalRun(Fifo, Booted(n), uses)
    ensures InOrder(After(Fifo, Booted(n), uses), k)
    decreases |uses|
  {
    if uses == [] {
      k := 0;
    } else {
      k := FifoInOrder(n, uses[..|uses| - 1]);
      k := FifoStep(After(Fifo, Booted(n), uses[..|uses| - 1]), uses[|uses| - 1], k);
    }
  }

  /** FIFO, in every run: when memory is full the next victim is the frame loaded longest ago. */
  lemma FifoVictim(n: nat, uses: seq<Use>)
    requires LegalRun(Fifo, Booted(n), uses)
    ensures var h := After(Fifo, Booted(n), uses);
      Full(h.q) ==> h.q[0] in h.last && forall i :: 0 < i < |h.q| ==> h.q[i] in h.last && h.last[h.q[0]] < h.last[h.q[i]]
  {
    var k := FifoInOrder(n, uses);
  }

  // ---- LRU ----

  /** Every frame in the queue is there once and carries the time of its last use. */
  ghost predicate Stamped(h: History) {
    && (forall i :: 0 <= i < |h.q| && h.q[i] != EMPTY ==> h.q[i] in h.last && h.last[h.q[i]] < h.now)
    && (forall i, j :: 0 <= i < j < |h.q| && h.q[i] != EMPTY ==> h.q[i] != h.q[j])
  }

  /** Empty slots skipped, a frame used at or after the given time stands before those used later than it. */
  ghost predicate Ordered(h: History, since: nat) {
    && Stamped(h)
    && (forall i, j :: 0 <= i < j < |h.q| && h.q[i] != EMPTY && h.q[j] != EMPTY && since <= h.last[h.q[i]] ==>
          h.last[h.q[i]] < h.last[h.q[j]])
  }

  ghost predicate EmptyAfter(q: seq<int>, k: nat) {
    forall j :: k < j < |q| ==> q[j] == EMPTY
  }

  /** The slot a load or a touch puts its frame into is behind all others. */
  ghost predicate Tidy(q: seq<int>, u: Use) {
    match u
    case Loaded(_) => EmptyAfter(q, Find(q, EMPTY, 0))
    case Touched(p) => p in q ==> EmptyAfter(q, Stop(q, Find(q, p, 0)))
    case _ => true
  }

  lemma LruLoad(h: History, p: int, since: nat)
    requires Ordered(h, since) && since <= h.now && Legal(h.q, Loaded(p))
    ensures Stamped(Next(Lru, h, Loaded(p))) && (Ordered(Next(Lru, h, Loaded(p)), since) <==> Tidy(h.q, Loaded(p)))
  {
    var k, t := Find(h.q, EMPTY, 0), Next(Lru, h, Loaded(p));
    assert t.q == h.q[k := p];
    assert forall i :: 0 <= i < |h.q| ==> h.q[i] in h.q;
    if j :| k < j < |h.q| && h.q[j] != EMPTY {
      assert t.q[k] == p && t.q[j] == h.q[j] && t.last[t.q[j]] < h.now;
    }
  }

  /** The slot that slot k of the queue came from, in a shift from slot i to slot e. */
  function From(i: nat, e: nat, k: nat): nat {
    if k < i || k > e then k else k + 1
  }

  lemma ShiftFrom(q: seq<int>, i: nat, x: int)
    requires i < |q|
    ensures ShiftOut(q, i, x)[Stop(q, i)] == x
    ensures var e, r := Stop(q, i), ShiftOut(q, i, x);
      forall k :: 0 <= k < |q| && k != e ==> From(i, e, k) < |q| && From(i, e, k) != i && r[k] == q[From(i, e, k)]
  {
    var e, r := Stop(q, i), ShiftOut(q, i, x);
    forall k | 0 <= k < |q| ensures r[k] == if k == e then x else q[From(i, e, k)] {
      ShiftOutAt(q, i, x, k);
    }
  }

  /** Slot i dropped, the frames up to slot e closing up. */
  lemma DroppedOrder(h: History, i: nat, e: nat, q: seq<int>, since: nat)
    requires Ordered(h, since) && i <= e < |h.q| == |q| && q[e] == EMPTY
    requires forall k :: 0 <= k < |q| && k != e ==> From(i, e, k) < |q| && From(i, e, k) != i && q[k] == h.q[From(i, e, k)]
    ensures Ordered(History(q, h.last, h.now + 1), since)
  {
    forall a, b | 0 <= a < b < |q| && q[a] != EMPTY ensures q[a] != q[b] {
      if q[b] != EMPTY {
        assert From(i, e, a) < From(i, e, b);
      }
    }
    forall a, b | 0 <= a < b < |q| && q[a] != EMPTY && q[b] != EMPTY && since <= h.last[q[a]] ensures h.last[q[a]] < h.last[q[b]] {
      assert From(i, e, a) < From(i, e, b);
    }
  }

  lemma LruClear(h: History, p: int, since: nat)
    requires Ordered(h, since) && Legal(h.q, Cleared(p))
    ensures Ordered(Next(Lru, h, Cleared(p)), since)
  {
    var i := Find(h.q, p, 0);
    ShiftFrom(h.q, i, EMPTY);
    hide Ordered, ShiftOut;
    DroppedOrder(h, i, Stop(h.q, i), ShiftOut(h.q, i, EMPTY), since);
  }

  /** Frame h.q[i] moved to slot e with the newest time stamp, the frames between closing up. */
  lemma MovedOrder(h: History, i: nat, e: nat, q: seq<int>, since: nat)
    requires Ordered(h, since) && since <= h.now && i <= e < |h.q| == |q| && q[e] == h.q[i] != EMPTY
    requires forall k :: 0 <= k < |q| && k != e ==> From(i, e, k) < |q| && From(i, e, k) != i && q[k] == h.q[From(i, e, k)]
    ensures var t := History(q, h.last[h.q[i] := h.now], h.now + 1); Stamped(t) && (Ordered(t, since) <==> EmptyAfter(h.q, e))
  {
    var p, t := h.q[i], History(q, h.last[h.q[i] := h.now], h.now + 1);
    forall k | 0 <= k < |q| && k != e ensures q[k] != p {
      assert h.q[i] != h.q[From(i, e, k)];
    }
    forall a, b | 0 <= a < b < |q| && q[a] != EMPTY ensures q[a] != q[b] {
      if a != e && b != e {
        assert From(i, e, a) < From(i, e, b);
      }
    }
    if j :| e < j < |h.q| && h.q[j] != EMPTY {
      assert q[j] == h.q[j] && t.last[q[e]] == h.now > t.last[q[j]];
    }
  }

  lemma LruTouch(h: History, p: int, since: nat)
    requires Ordered(h, since) && since <= h.now && Legal(h.q, Touched(p))
    ensures Stamped(Next(Lru, h, Touched(p))) && (Ordered(Next(Lru, h, Touched(p)), since) <==> Tidy(h.q, Touched(p)))
  {
    var i := Find(h.q, p, 0);
    ShiftFrom(h.q, i, p);
    hide Ordered, Stamped, ShiftOut;
    MovedOrder(h, i, Stop(h.q, i), ShiftOut(h.q, i, p), since);
  }

  lemma LruReplace(h: History, since: nat)
    requires Ordered(h, since) && Legal(h.q, Replaced)
    ensures Ordered(Next(Lru, h, Replaced), since)
  {
    var t, n := Next(Lru, h, Replaced), |h.q|;
    assert t.q[n - 1] == h.q[0] && forall k :: 0 <= k < n - 1 ==> t.q[k] == h.q[k + 1] && h.q[0] != h.q[k + 1];
  }

  /** The order of use survives an operation exactly when the slot that a load or touch fills is behind all frames. */
  lemma LruStep(h: History, u: Use, since: nat)
    requires Ordered(h, since) && since <= h.now && Legal(h.q, u)
    ensures Stamped(Next(Lru, h, u)) && (Ordered(Next(Lru, h, u), since) <==> Tidy(h.q, u))
  {
    hide Next, Ordered, Stamped;
    match u
    case Loaded(p) => LruLoad(h, p, since);
    case Replaced => LruReplace(h, since); OrderedStamped(Next(Lru, h, u), since);
    case Cleared(p) => LruClear(h, p, since); OrderedStamped(Next(Lru, h, u), since);
    case Touched(p) => LruTouch(h, p, since);
  }

  lemma OrderedStamped(h: History, since: nat)
    requires Ordered(h, since)
    ensures Stamped(h)
  {
  }

  ghost predicate OrderedThroughout(h: History, uses: seq<Use>) {
    forall k :: 0 <= k <= |uses| ==> Ordered(After(Lru, h, uses[..k]), 0)
  }

  ghost predicate TidyThroughout(h: History, uses: seq<Use>) {
    forall k :: 0 <= k < |uses| ==> Tidy(After(Lru, h, uses[..k]).q, uses[k])
  }

  lemma Prefixes<T>(s: seq<T>, k: nat)
    requires k < |s|
    ensures s[..|s| - 1][..k] == s[..k]
  {
  }

  /** Least recently used, from boot: the order of use holds throughout a run exactly when every step is tidy. */
  lemma {:induction false} LruRun(n: nat, uses: seq<Use>)
    requires LegalRun(Lru, Booted(n), uses)
    ensures OrderedThroughout(Booted(n), uses) <==> TidyThroughout(Booted(n), uses)
    decreases |uses|
  {
    hide Ordered, Tidy, Next, Legal;
    var h, m := Booted(n), |uses|;
    if m == 0 {
      assert uses[..0] == uses;
      BootOrdered(n);
    } else {
      var before := uses[..m - 1];
      LruRun(n, before);
      forall k | 0 <= k < m ensures before[..k] == uses[..k] {
        Prefixes(uses, k);
      }
      assert uses[..m] == uses && before[..m - 1] == before;
      assert OrderedThroughout(h, uses) <==> OrderedThroughout(h, before) && Ordered(After(Lru, h, uses), 0);
      assert TidyThroughout(h, uses) <==> TidyThroughout(h, before) && Tidy(After(Lru, h, before).q, uses[m - 1]);
      if OrderedThroughout(h, before) {
        assert Ordered(After(Lru, h, before[..m - 1]), 0);
        LruStep(After(Lru, h, before), uses[m - 1], 0);
      }
    }
  }

  lemma BootOrdered(n: nat)
    ensures Ordered(Booted(n), 0)
  {
  }

  /** In a tidy run, when memory is full the next victim is the frame used longest ago. */
  lemma LruVictim(n: nat, uses: seq<Use>)
    requires LegalRun(Lru, Booted(n), uses) && TidyThroughout(Booted(n), uses)
    ensures var h := After(Lru, Booted(n), uses);
      Full(h.q) ==> h.q[0] in h.last && forall i :: 0 < i < |h.q| ==> h.q[i] in h.last && h.last[h.q[0]] < h.last[h.q[i]]
  {
    LruRun(n, uses);
    assert uses[..|uses|] == uses;
  }

  lemma {:induction false} LruStamped(n: nat, uses: seq<Use>)
    requires LegalRun(Lru, Booted(n), uses)
    ensures Stamped(After(Lru, Booted(n), uses))
    decreases |uses|
  {
    hide Next, Legal, Tidy;
    if uses != [] {
      LruStamped(n, uses[..|uses| - 1]);
      var h := After(Lru, Booted(n), uses[..|uses| - 1]);
      LruStep(h, uses[|uses| - 1], h.now);
    }
  }

  ghost predicate NoClears(uses: seq<Use>) {
    forall i :: 0 <= i < |uses| ==> uses[i].Replaced? || uses[i].Touched?
  }

  lemma FullStep(h: History, u: Use)
    requires Full(h.q) && Legal(h.q, u) && (u.Replaced? || u.Touched?)
    ensures Full(Next(Lru, h, u).q) && Tidy(h.q, u) && Next(Lru, h, u).now == h.now + 1
  {
    if u.Touched? {
      var i := Find(h.q, u.p, 0);
      FirstEmpty(h.q, |h.q|, i + 1);
      ShiftFrom(h.q, i, u.p);
    }
  }

  lemma {:induction false} LruSince(n: nat, before: seq<Use>, uses: seq<Use>)
    requires LegalRun(Lru, Booted(n), before + uses)
    requires Full(After(Lru, Booted(n), before).q) && NoClears(uses)
    ensures var since, h := After(Lru, Booted(n), before).now, After(Lru, Booted(n), before + uses);
      Full(h.q) && since <= h.now && Ordered(h, since)
    decreases |uses|
  {
    if uses == [] {
      assert before + uses == before;
      LruStamped(n, before);
    } else {
      var m := |uses|;
      assert (before + uses)[..|before + uses| - 1] == before + uses[..m - 1];
      LruSince(n, before, uses[..m - 1]);
      hide Next, Legal, Ordered, Tidy, Full;
      var h := After(Lru, Booted(n), before + uses[..m - 1]);
      FullStep(h, uses[m - 1]);
      LruStep(h, uses[m - 1], After(Lru, Booted(n), before).now);
    }
  }

  /**
   * However the slots filled, once memory is full and until the next clear a victim is a frame not used
   * since then or else the frame used longest ago.
   */
  lemma LruOnceFull(n: nat, before: seq<Use>, uses: seq<Use>)
    requires LegalRun(Lru, Booted(n), before + uses)
    requires Full(After(Lru, Booted(n), before).q) && NoClears(uses)
    ensures var since, h := After(Lru, Booted(n), before).now, After(Lru, Booted(n), before + uses);
      && Full(h.q) && h.q[0] in h.last
      && (since <= h.last[h.q[0]] ==> forall i :: 0 < i < |h.q| ==> h.q[i] in h.last && h.last[h.q[0]] < h.last[h.q[i]])
  {
    LruSince(n, before, uses);
  }

  lemma PutAt(q: seq<int>, p: int, k: nat)
    requires k < |q| && q[k] == EMPTY && forall j :: 0 <= j < k ==> q[j] != EMPTY
    ensures Put(q, p) == q[k := p]
  {
    FirstEmpty(q, k, 0);
  }

  lemma MarkAt(q: seq<int>, p: int, i: nat, e: nat)
    requires i < e < |q| && q[i] == p && q[e] == EMPTY && forall j :: 0 <= j < i ==> q[j] != p
    requires forall j :: i < j < e ==> q[j] != EMPTY
    ensures p in q && Mark(Lru, q, p) == q[..i] + q[i + 1..e + 1] + [p] + q[e + 1..]
  {
    FirstEmpty(q, e, i + 1);
  }

  lemma MarkAtEnd(q: seq<int>, p: int, i: nat)
    requires i < |q| && q[i] == p && (forall j :: 0 <= j < i ==> q[j] != p) && forall j :: i < j < |q| ==> q[j] != EMPTY
    ensures p in q && Mark(Lru, q, p) == q[..i] + q[i + 1..] + [p]
  {
    FirstEmpty(q, |q|, i + 1);
  }

  /**
   * Before memory is full LRU is not least-recently-used.  With three frames: 0 is loaded and touched
   * twice, then 1 and 2 are loaded and touched; frame 0 is the one touched longest ago, and the victim
   * is frame 1.
   */
  lemma LruBeforeFull() returns (uses: seq<Use>)
    ensures var h0 := History([EMPTY, EMPTY, EMPTY], map[], 0); var h := After(Lru, h0, uses);
      LegalRun(Lru, h0, uses) && Full(h.q) && h.q == [1, 0, 2] && h.last == map[0 := 2, 1 := 4, 2 := 6]
  {
    hide Put, Mark, After, LegalRun, Next, Legal;
    var h0 := History([EMPTY, EMPTY, EMPTY], map[], 0);
    uses := LoadAndTouch(h0, [], h0, 0, 0, 1);
    uses := TouchAgain(h0, uses);
    uses := LoadAndTouch(h0, uses, History([EMPTY, EMPTY, 0], map[0 := 2], 3), 1, 0, 1);
    var h := After(Lru, h0, uses);
    assert h.q == [EMPTY, 1, 0] && h.last == map[0 := 2, 1 := 4];
    uses := LoadLast(h0, uses);
  }

  lemma LoadAndTouch(h0: History, uses: seq<Use>, h: History, p: int, k: nat, e: nat) returns (more: seq<Use>)
    requires (uses == [] && h == h0) || (LegalRun(Lru, h0, uses) && After(Lru, h0, uses) == h)
    requires p != EMPTY && p !in h.q && k < e < |h.q| && h.q[k] == EMPTY && h.q[e] == EMPTY && (forall j :: 0 <= j < k ==> h.q[j] != EMPTY)
    requires forall j :: k < j < e ==> h.q[j] != EMPTY
    ensures LegalRun(Lru, h0, more)
    ensures After(Lru, h0, more) == History(h.q[..k] + h.q[k + 1..e + 1] + [p] + h.q[e + 1..], h.last[p := h.now + 1], h.now + 2)
  {
    hide Put, Mark;
    var g := History(h.q[k := p], h.last[p := h.now], h.now + 1);
    PutAt(h.q, p, k);
    more := Extend(h0, uses, h, Loaded(p), g);
    MarkAt(g.q, p, k, e);
    assert g.q[..k] + g.q[k + 1..e + 1] + [p] + g.q[e + 1..] == h.q[..k] + h.q[k + 1..e + 1] + [p] + h.q[e + 1..];
    assert h.last[p := h.now][p := h.now + 1] == h.last[p := h.now + 1];
    more := Extend(h0, more, g, Touched(p), Next(Lru, g, Touched(p)));
  }

  lemma TouchAgain(h0: History, uses: seq<Use>) returns (more: seq<Use>)
    requires LegalRun(Lru, h0, uses) && After(Lru, h0, uses) == History([EMPTY, 0, EMPTY], map[0 := 1], 2)
    ensures LegalRun(Lru, h0, more) && After(Lru, h0, more) == History([EMPTY, EMPTY, 0], map[0 := 2], 3)
  {
    hide Mark;
    var h := After(Lru, h0, uses);
    MarkAt(h.q, 0, 1, 2);
    more := Extend(h0, uses, h, Touched(0), History([EMPTY, EMPTY, 0], map[0 := 2], 3));
  }

  lemma LoadLast(h0: History, uses: seq<Use>) returns (more: seq<Use>)
    requires LegalRun(Lru, h0, uses) && After(Lru, h0, uses) == History([EMPTY, 1, 0], map[0 := 2, 1 := 4], 5)
    ensures LegalRun(Lru, h0, more) && After(Lru, h0, more) == History([1, 0, 2], map[0 := 2, 1 := 4, 2 := 6], 7)
  {
    hide Put, Mark;
    var h := After(Lru, h0, uses);
    var g := History([2, 1, 0], map[0 := 2, 1 := 4, 2 := 5], 6);
    PutAt(h.q, 2, 0);
    more := Extend(h0, uses, h, Loaded(2), g);
    MarkAtEnd(g.q, 2, 0);
    more := Extend(h0, more, g, Touched(2), History([1, 0, 2], map[0 := 2, 1 := 4, 2 := 6], 7));
  }

  lemma Extend(h0: History, uses: seq<Use>, h: History, u: Use, h': History) returns (more: seq<Use>)
    requires LegalRun(Lru, h0, uses) && After(Lru, h0, uses) == h && Legal(h.q, u) && Next(Lru, h, u) == h'
    ensures LegalRun(Lru, h0, more) && After(Lru, h0, more) == h'
  {
    more := uses + [u];
    assert more[..|more| - 1] == uses;
  }

  // ---- what the memory manager asks is legal ----

  lemma LoadLegal(q: seq<int>, used: seq<bool>, p: nat)
    requires Agrees(q, used) && p < |used| && !used[p]
    ensures Legal(q, Loaded(p))
  {
    FreeHasHole(q, used, p);
    assert multiset(q)[p] == 0;
    assert p !in multiset(q);
  }

  lemma ReplaceLegal(q: seq<int>, used: seq<bool>)
    requires Agrees(q, used) && 0 < |q| && forall p :: 0 <= p < |used| ==> used[p]
    ensures Legal(q, Replaced)
  {
    FullHasNoHole(q, used);
  }

  // ---- the policy objects, working in place ----

  class ReplacementQueue {
    const kind: Kind
    const queue: array<int>
    ghost var uses: seq<Use> // all that was asked of the policy since it was made

    /** The queue is what these uses, each legal in its turn, make of an empty one. */
    ghost predicate Logged()
      reads this, queue
    {
      LegalRun(kind, Booted(queue.Length), uses) && After(kind, Booted(queue.Length), uses).q == queue[..]
    }

    ghost predicate Unused()
      reads this, queue
    {
      Logged() && forall i :: 0 <= i < queue.Length ==> queue[i] == EMPTY
    }

    constructor (kind: Kind, numFrames: nat)
      ensures this.kind == kind && fresh(queue) && queue.Length == numFrames && Unused()
    {
      this.kind := kind;
      queue := new int[numFrames](_ => EMPTY);
      uses := [];
    }

    ghost method Log(u: Use, was: seq<int>)
      requires |was| == queue.Length && queue[..] == Used(kind, was, u)
      modifies this
      ensures uses == old(uses) + [u]
      ensures LegalRun(kind, Booted(queue.Length), old(uses)) && After(kind, Booted(queue.Length), old(uses)).q == was && Legal(was, u) ==> Logged()
    {
      hide Used, Legal;
      uses := uses + [u];
      assert uses[..|uses| - 1] == old(uses);
    }

    /** What follows a use u that found the queue holding was. */
    ghost predicate Keeps(u: Use, was: seq<int>, logged: bool)
      reads this, queue
    {
      queue[..] == Used(kind, was, u) && (logged && Legal(was, u) ==> Logged())
    }

    method PageUsed(p: int)
      modifies this, queue
      ensures queue[..] == Put(old(queue[..]), p)
      ensures uses == old(uses) + [Loaded(p)] && Keeps(Loaded(p), old(queue[..]), old(Logged()))
    {
      FillFirst(p);
      Log(Loaded(p), old(queue[..]));
    }

    method FillFirst(p: int)
      modifies queue
      ensures queue[..] == Put(old(queue[..]), p)
    {
      for i := 0 to queue.Length
        invariant queue[..] == old(queue[..])
        invariant forall j :: 0 <= j < i ==> queue[j] != EMPTY
      {
        if queue[i] == EMPTY {
          PutAt(queue[..], p, i);
          queue[i] := p;
          return;
        }
      }
      FirstEmpty(queue[..], queue.Length, 0);
    }

    method GetReplacement() returns (page: int)
      requires 0 < queue.Length
      modifies this, queue
      ensures page == old(queue[0]) && queue[..] == Rotate(old(queue[..]))
      ensures uses == old(uses) + [Replaced] && Keeps(Replaced, old(queue[..]), old(Logged()))
    {
      page := queue[0];
      var i := 1;
      while i < queue.Length
        invariant 1 <= i <= queue.Length
        invariant forall j :: 0 <= j < i - 1 ==> queue[j] == old(queue[j + 1])
        invariant forall j :: i - 1 <= j < queue.Length ==> queue[j] == old(queue[j])
        modifies queue
      {
        queue[i - 1] := queue[i];
        i := i + 1;
      }
      queue[queue.Length - 1] := page;
      assert queue[..] == Rotate(old(queue[..]));
      Log(Replaced, old(queue[..]));
    }

    /** The loops clearPage and markPage share: find p, close the gap, stop where x is to go. */
    method Shift(p: int, x: int)
      requires p in queue[..] && p != EMPTY
      modifies queue
      ensures queue[..] == ShiftOut(old(queue[..]), Find(old(queue[..]), p, 0), x)
    {
      ghost var q := queue[..];
      var i := 0;
      while queue[i] != p
        invariant 0 <= i < queue.Length && queue[..] == q
        invariant forall j :: 0 <= j < i ==> q[j] != p
        decreases queue.Length - i
      {
        assert p in q[i..];
        i := i + 1;
      }
      ghost var first := i;
      assert Find(q, p, 0) == first;
      while i < queue.Length - 1 && queue[i] != EMPTY
        invariant first <= i < queue.Length
        invariant forall j :: 0 <= j < first || i <= j < queue.Length ==> queue[j] == q[j]
        invariant forall j :: first <= j < i ==> queue[j] == q[j + 1]
        invariant forall j :: first < j < i ==> q[j] != EMPTY
        decreases queue.Length - i
      {
        queue[i] := queue[i + 1];
        i := i + 1;
      }
      queue[i] := x;
      ShiftStops(q, first, i);
      forall j | 0 <= j < |q| ensures queue[j] == ShiftOut(q, first, x)[j] {
        ShiftOutAt(q, first, x, j);
      }
    }

    method ClearPage(p: int)
      requires p in queue[..] && p != EMPTY
      modifies this, queue
      ensures queue[..] == Drop(old(queue[..]), p)
      ensures uses == old(uses) + [Cleared(p)] && Keeps(Cleared(p), old(queue[..]), old(Logged()))
    {
      Shift(p, EMPTY);
      Log(Cleared(p), old(queue[..]));
    }

    method MarkPage(p: int)
      requires p in queue[..] && p != EMPTY
      modifies this, queue
      ensures queue[..] == Mark(kind, old(queue[..]), p)
      ensures uses == old(uses) + [Touched(p)] && Keeps(Touched(p), old(queue[..]), old(Logged()))
    {
      if kind == Lru {
        Shift(p, p);
      }
      Log(Touched(p), old(queue[..]));
    }
  }

  lemma ShiftStops(q: seq<int>, i: nat, e: nat)
    requires i <= e < |q| && q[i] != EMPTY && (e == |q| - 1 || q[e] == EMPTY) && forall j :: i < j < e ==> q[j] != EMPTY
    ensures Stop(q, i) == e
  {
    if e > i && q[e] == EMPTY {
      FirstEmpty(q, e, i + 1);
    } else {
      FirstEmpty(q, |q|, i + 1);
    }
  }
}
