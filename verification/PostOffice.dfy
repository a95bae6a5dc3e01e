/**
 * Post offices (network/post.cc) on a datagram network with a one-packet inbox on each machine
 * (machine/network.cc).  Any number of machines step in any order: threads send and receive, the
 * network loses packets or passes them on, the poll fills the inbox, the postal worker empties it.
 */
module PostOffice {
  import opened Arithmetic
  import opened Collections
  import U = UserMemory

  const HEADER: nat := 12 // sizeof(MailHeader): two mailbox numbers and a length
  const MAX_PACKET: nat := 52
  const MAX_MAIL: nat := MAX_PACKET - HEADER

  datatype Mail = Mail(toBox: Word, fromBox: Word, data: seq<Byte>)

  /** What a mailbox holds: the mail and the machine it came from. */
  datatype Letter = Letter(from: nat, mail: Mail)

  datatype Packet = Packet(from: nat, to: nat, payload: seq<Byte>)

  // ---- mail as bytes ----

  /** PostOffice::Send lays the mail header out before the data. */
  function Encode(m: Mail): (r: seq<Byte>)
    requires |m.data| <= MAX_MAIL
    ensures |r| == HEADER + |m.data|
  {
    U.Encode(m.toBox, 4) + U.Encode(m.fromBox, 4) + U.Encode(|m.data|, 4) + m.data
  }

  /** PostalDelivery reads the header back, and as much data as it announces. */
  function Parse(b: seq<Byte>): Mail {
    if |b| < HEADER then Mail(0, 0, [])
    else
      var length := U.Decode(b[8..12]);
      Mail(U.Decode(b[0..4]), U.Decode(b[4..8]), if HEADER + length <= |b| then b[HEADER..HEADER + length] else [])
  }

  /** Whatever stands in the buffer beyond the packet, the mail read back is the mail sent. */
  lemma ParseEncode(m: Mail, rest: seq<Byte>)
    requires |m.data| <= MAX_MAIL
    ensures Parse(Encode(m) + rest) == m
  {
    var b := Encode(m) + rest;
    assert b[0..4] == U.Encode(m.toBox, 4);
    assert b[4..8] == U.Encode(m.fromBox, 4);
    assert b[8..12] == U.Encode(|m.data|, 4);
    assert b[HEADER..HEADER + |m.data|] == m.data;
    U.DecodeEncode(m.toBox, 4);
    U.DecodeEncode(m.fromBox, 4);
    U.DecodeEncode(|m.data|, 4);
  }

  // ---- the state ----

  /** A message as its sender knows it: for which machine, and whether the network lost it. */
  datatype Sent = Sent(to: nat, mail: Mail, lost: bool)

  /** The postal worker: about to do P, past it, or with a packet in its buffer. */
  datatype Worker = AtP | HasToken | Delivering(from: nat)

  /**
   * wire holds the packets on their way to the machine; available is the value of messageAvailable.
   * sent, wired, put and got log what was sent from here, put on the wire to here, put into mailboxes
   * and received from each mailbox.
   */
  datatype Machine = Machine(
    wire: seq<Packet>, inbox: Option<Packet>, available: nat, worker: Worker, buffer: seq<Byte>, boxes: seq<seq<Letter>>,
    sent: seq<Sent>, wired: seq<Letter>, put: seq<Letter>, got: seq<seq<Letter>>)

  datatype Move =
    | Send(a: nat, b: nat, mail: Mail, lost: bool)
    | Poll(b: nat) | WorkerP(b: nat) | WorkerReceive(b: nat) | WorkerPut(b: nat)
    | Receive(b: nat, box: nat)

  /** What the assertions of Send demand of a message. */
  predicate Legal(m: Mail, boxes: nat) {
    |m.data| <= MAX_MAIL && m.toBox < boxes
  }

  function LetterOf(p: Packet): Letter {
    Letter(p.from, Parse(p.payload))
  }

  ghost predicate CanMove(net: seq<Machine>, v: Move, boxes: nat) {
    match v
    case Send(a, b, mail, lost) => a < |net| && b < |net| && Legal(mail, boxes)
    case Poll(b) => b < |net|
    case WorkerP(b) => b < |net| && net[b].worker == AtP && net[b].available > 0
    case WorkerReceive(b) => b < |net| && net[b].worker == HasToken
    case WorkerPut(b) => b < |net| && net[b].worker.Delivering?
    case Receive(b, box) => b < |net| && box < |net[b].boxes| && net[b].boxes[box] != []
  }

  /** Network::Send: the packet is lost, or put on the wire to its destination. */
  function SendOn(net: seq<Machine>, a: nat, b: nat, mail: Mail, lost: bool): seq<Machine>
    requires a < |net| && b < |net| && |mail.data| <= MAX_MAIL
  {
    var n := net[a := net[a].(sent := net[a].sent + [Sent(b, mail, lost)])];
    if lost then n
    else n[b := n[b].(wire := n[b].wire + [Packet(a, b, Encode(mail))], wired := n[b].wired + [Letter(a, mail)])]
  }

  /** CheckPktAvail: nothing if a packet is buffered already or none has come. */
  function PollOn(m: Machine): Machine {
    if m.inbox.Some? || m.wire == [] then m
    else m.(inbox := Some(m.wire[0]), wire := m.wire[1..], available := m.available + 1)
  }

  /** Network::Receive into the worker's buffer; an empty inbox would leave the buffer as it was. */
  function ReceiveOn(m: Machine): Machine {
    match m.inbox
    case None => m.(worker := Delivering(0))
    case Some(p) =>
      m.(inbox := None, worker := Delivering(p.from),
         buffer := if |p.payload| <= |m.buffer| then Overwrite(m.buffer, 0, p.payload) else m.buffer)
  }

  /** MailBox::Put; the mailbox is a synchronized list. */
  function PutOn(m: Machine): Machine
    requires m.worker.Delivering?
  {
    var letter := Letter(m.worker.from, Parse(m.buffer));
    var k := letter.mail.toBox;
    if k < |m.boxes| then m.(worker := AtP, boxes := m.boxes[k := m.boxes[k] + [letter]], put := m.put + [letter]) else m
  }

  function GetOn(m: Machine, k: nat): Machine
    requires k < |m.boxes| && m.boxes[k] != [] && |m.got| == |m.boxes|
  {
    m.(boxes := m.boxes[k := m.boxes[k][1..]], got := m.got[k := m.got[k] + [m.boxes[k][0]]])
  }

  // ---- what each machine keeps ----

  function Letters(ps: seq<Packet>): seq<Letter> {
    if ps == [] then [] else [LetterOf(ps[0])] + Letters(ps[1..])
  }

  function InBox(s: seq<Letter>, k: nat): seq<Letter> {
    if s == [] then []
    else InBox(s[..|s| - 1], k) + if s[|s| - 1].mail.toBox == k then [s[|s| - 1]] else []
  }

  function InHand(m: Machine): seq<Letter> {
    if m.worker.Delivering? then [Letter(m.worker.from, Parse(m.buffer))] else []
  }

  function Buffered(m: Machine): seq<Letter> {
    if m.inbox.Some? then [LetterOf(m.inbox.value)] else []
  }

  /** The bytes of a legal mail for this machine. */
  ghost predicate GoodPacket(p: Packet, b: nat, boxes: nat) {
    p.to == b && exists m: Mail :: Carries(p, m, boxes)
  }

  ghost predicate Carries(p: Packet, m: Mail, boxes: nat) {
    Legal(m, boxes) && p.payload == Encode(m)
  }

  /** The inbox is full exactly when a token is out: in the semaphore, or in the worker's hand. */
  predicate OneToken(m: Machine) {
    m.available + (if m.worker == HasToken then 1 else 0) == if m.inbox.Some? then 1 else 0
  }

  /** Nothing on its way is lost, doubled or reordered: wire, inbox, worker, mailboxes. */
  ghost predicate InOrder(m: Machine) {
    m.wired == m.put + InHand(m) + Buffered(m) + Letters(m.wire)
  }

  ghost predicate MachineOk(m: Machine, b: nat, boxes: nat) {
    && |m.buffer| == MAX_PACKET && |m.boxes| == |m.got| == boxes
    && (forall i :: 0 <= i < |m.wire| ==> GoodPacket(m.wire[i], b, boxes))
    && (m.inbox.Some? ==> GoodPacket(m.inbox.value, b, boxes))
    && (m.worker.Delivering? ==> Parse(m.buffer).toBox < boxes)
    && OneToken(m) && InOrder(m)
    && (forall k :: 0 <= k < boxes ==> InBox(m.put, k) == m.got[k] + m.boxes[k])
  }

  lemma {:induction false} LettersSnoc(ps: seq<Packet>, p: Packet)
    ensures Letters(ps + [p]) == Letters(ps) + [LetterOf(p)]
  {
    if ps != [] {
      assert (ps + [p])[1..] == ps[1..] + [p];
      LettersSnoc(ps[1..], p);
    }
  }

  lemma InBoxSnoc(s: seq<Letter>, x: Letter, k: nat)
    ensures InBox(s + [x], k) == InBox(s, k) + if x.mail.toBox == k then [x] else []
  {
    assert (s + [x])[..|s|] == s;
  }

  lemma PacketLetter(p: Packet, b: nat, boxes: nat)
    requires GoodPacket(p, b, boxes)
    ensures HEADER <= |p.payload| <= MAX_PACKET && Parse(p.payload).toBox < boxes
  {
    var m: Mail :| Carries(p, m, boxes);
    ParseEncode(m, []);
    assert Encode(m) + [] == Encode(m);
  }

  /** The stale tail of the worker's buffer does not matter. */
  lemma BufferParses(p: Packet, b: nat, boxes: nat, buffer: seq<Byte>)
    requires GoodPacket(p, b, boxes) && |buffer| == MAX_PACKET
    ensures |p.payload| <= |buffer| && Parse(Overwrite(buffer, 0, p.payload)) == Parse(p.payload)
  {
    var m: Mail :| Carries(p, m, boxes);
    ParseEncode(m, []);
    assert Encode(m) + [] == Encode(m);
    ParseEncode(m, buffer[|p.payload|..]);
    assert Overwrite(buffer, 0, p.payload) == Encode(m) + buffer[|p.payload|..];
  }

  lemma PollKeeps(m: Machine, b: nat, boxes: nat)
    requires MachineOk(m, b, boxes)
    ensures MachineOk(PollOn(m), b, boxes)
  {
    hide Parse, GoodPacket;
    var n := PollOn(m);
    if m.inbox.None? && m.wire != [] {
      assert Letters(m.wire) == [LetterOf(m.wire[0])] + Letters(m.wire[1..]);
    }
  }

  lemma WorkerPKeeps(m: Machine, b: nat, boxes: nat)
    requires MachineOk(m, b, boxes) && m.worker == AtP && m.available > 0
    ensures MachineOk(m.(worker := HasToken, available := m.available - 1), b, boxes)
  {
    hide Parse, GoodPacket;
  }

  /** The worker never finds the inbox empty. */
  lemma ReceiveKeeps(m: Machine, b: nat, boxes: nat)
    requires MachineOk(m, b, boxes) && m.worker == HasToken
    ensures m.inbox.Some? && MachineOk(ReceiveOn(m), b, boxes)
  {
    hide Parse, GoodPacket, Overwrite;
    PacketLetter(m.inbox.value, b, boxes);
    BufferParses(m.inbox.value, b, boxes, m.buffer);
  }

  lemma PutKeeps(m: Machine, b: nat, boxes: nat)
    requires MachineOk(m, b, boxes) && m.worker.Delivering?
    ensures MachineOk(PutOn(m), b, boxes)
  {
    hide Parse, GoodPacket, InBox;
    var n, letter := PutOn(m), Letter(m.worker.from, Parse(m.buffer));
    forall k | 0 <= k < boxes ensures InBox(n.put, k) == n.got[k] + n.boxes[k] {
      InBoxSnoc(m.put, letter, k);
    }
  }

  lemma GetKeeps(m: Machine, b: nat, boxes: nat, k: nat)
    requires MachineOk(m, b, boxes) && k < boxes && m.boxes[k] != []
    ensures MachineOk(GetOn(m, k), b, boxes)
  {
    hide Parse, GoodPacket, InBox;
    var n := GetOn(m, k);
    assert m.boxes[k] == [m.boxes[k][0]] + m.boxes[k][1..];
    forall j | 0 <= j < boxes ensures InBox(n.put, j) == n.got[j] + n.boxes[j] {
      assert InBox(m.put, j) == m.got[j] + m.boxes[j];
    }
  }

  lemma ArriveKeeps(m: Machine, a: nat, b: nat, boxes: nat, mail: Mail)
    requires MachineOk(m, b, boxes) && Legal(mail, boxes)
    ensures MachineOk(m.(wire := m.wire + [Packet(a, b, Encode(mail))], wired := m.wired + [Letter(a, mail)]), b, boxes)
  {
    hide Parse, Encode, Letters, InBox, GoodPacket;
    var p := Packet(a, b, Encode(mail));
    EncodedIsGood(a, b, boxes, mail);
    LettersSnoc(m.wire, p);
  }

  lemma EncodedIsGood(a: nat, b: nat, boxes: nat, mail: Mail)
    requires Legal(mail, boxes)
    ensures var p := Packet(a, b, Encode(mail)); GoodPacket(p, b, boxes) && LetterOf(p) == Letter(a, mail)
  {
    assert Carries(Packet(a, b, Encode(mail)), mail, boxes);
    ParseEncode(mail, []);
    assert Encode(mail) + [] == Encode(mail);
  }

  // ---- what senders and receivers know of each other ----

  /** The mails in s that came from machine a. */
  function From(s: seq<Letter>, a: nat): seq<Mail> {
    if s == [] then []
    else From(s[..|s| - 1], a) + if s[|s| - 1].from == a then [s[|s| - 1].mail] else []
  }

  /** The mails sent to machine b that were not lost. */
  function Arriving(s: seq<Sent>, b: nat): seq<Mail> {
    if s == [] then []
    else
      var x := s[|s| - 1];
      Arriving(s[..|s| - 1], b) + if x.to == b && !x.lost then [x.mail] else []
  }

  lemma FromSnoc(s: seq<Letter>, x: Letter, a: nat)
    ensures From(s + [x], a) == From(s, a) + if x.from == a then [x.mail] else []
  {
    assert (s + [x])[..|s|] == s;
  }

  lemma ArrivingSnoc(s: seq<Sent>, x: Sent, b: nat)
    ensures Arriving(s + [x], b) == Arriving(s, b) + if x.to == b && !x.lost then [x.mail] else []
  {
    assert (s + [x])[..|s|] == s;
  }

  /** What reached the wire to b from a is what a sent to b and the network did not lose, in order. */
  ghost predicate Matches(net: seq<Machine>, a: nat, b: nat)
    requires a < |net| && b < |net|
  {
    From(net[b].wired, a) == Arriving(net[a].sent, b)
  }

  ghost predicate NetInv(net: seq<Machine>, boxes: nat) {
    && (forall b :: 0 <= b < |net| ==> MachineOk(net[b], b, boxes))
    && (forall a, b :: 0 <= a < |net| && 0 <= b < |net| ==> Matches(net, a, b))
  }

  ghost function Next(net: seq<Machine>, v: Move, boxes: nat): (r: seq<Machine>)
    requires CanMove(net, v, boxes) && NetInv(net, boxes)
    ensures |r| == |net|
  {
    match v
    case Send(a, b, mail, lost) => SendOn(net, a, b, mail, lost)
    case Poll(b) => net[b := PollOn(net[b])]
    case WorkerP(b) => net[b := net[b].(worker := HasToken, available := net[b].available - 1)]
    case WorkerReceive(b) => net[b := ReceiveOn(net[b])]
    case WorkerPut(b) => net[b := PutOn(net[b])]
    case Receive(b, box) => net[b := GetOn(net[b], box)]
  }

  /** A step of one machine that neither sends nor receives a packet from the wire's other end. */
  lemma LocalKeeps(net: seq<Machine>, b: nat, m: Machine, boxes: nat)
    requires NetInv(net, boxes) && b < |net| && MachineOk(m, b, boxes) && m.wired == net[b].wired && m.sent == net[b].sent
    ensures NetInv(net[b := m], boxes)
  {
    hide MachineOk;
    var n := net[b := m];
    forall a, c | 0 <= a < |n| && 0 <= c < |n| ensures Matches(n, a, c) {
      assert Matches(net, a, c);
    }
  }

  lemma SendMatches(net: seq<Machine>, a: nat, b: nat, mail: Mail, lost: bool, x: nat, y: nat)
    requires a < |net| && b < |net| && x < |net| && y < |net| && |mail.data| <= MAX_MAIL && Matches(net, x, y)
    ensures Matches(SendOn(net, a, b, mail, lost), x, y)
  {
    hide Encode, From, Arriving;
    ArrivingSnoc(net[a].sent, Sent(b, mail, lost), y);
    FromSnoc(net[b].wired, Letter(a, mail), x);
  }

  lemma SentKeeps(m: Machine, b: nat, boxes: nat, x: Sent)
    requires MachineOk(m, b, boxes)
    ensures MachineOk(m.(sent := m.sent + [x]), b, boxes)
  {
    hide Parse, GoodPacket, InBox;
  }

  lemma SendKeeps(net: seq<Machine>, a: nat, b: nat, mail: Mail, lost: bool, boxes: nat)
    requires NetInv(net, boxes) && a < |net| && b < |net| && Legal(mail, boxes)
    ensures NetInv(SendOn(net, a, b, mail, lost), boxes)
  {
    hide MachineOk, Matches, Encode;
    var n := SendOn(net, a, b, mail, lost);
    SentKeeps(net[a], a, boxes, Sent(b, mail, lost));
    var m := if a == b then net[a].(sent := net[a].sent + [Sent(b, mail, lost)]) else net[b];
    ArriveKeeps(m, a, b, boxes, mail);
    forall x, y | 0 <= x < |n| && 0 <= y < |n| ensures Matches(n, x, y) {
      SendMatches(net, a, b, mail, lost, x, y);
    }
  }

  lemma MoveKeeps(net: seq<Machine>, v: Move, boxes: nat)
    requires NetInv(net, boxes) && CanMove(net, v, boxes)
    ensures NetInv(Next(net, v, boxes), boxes)
  {
    hide SendOn, Matches, Parse, GoodPacket, InBox;
    match v
    case Send(a, b, mail, lost) => SendKeeps(net, a, b, mail, lost, boxes);
    case Poll(b) => PollKeeps(net[b], b, boxes); LocalKeeps(net, b, PollOn(net[b]), boxes);
    case WorkerP(b) =>
      WorkerPKeeps(net[b], b, boxes);
      LocalKeeps(net, b, net[b].(worker := HasToken, available := net[b].available - 1), boxes);
    case WorkerReceive(b) => ReceiveKeeps(net[b], b, boxes); LocalKeeps(net, b, ReceiveOn(net[b]), boxes);
    case WorkerPut(b) => PutKeeps(net[b], b, boxes); LocalKeeps(net, b, PutOn(net[b]), boxes);
    case Receive(b, box) => GetKeeps(net[b], b, boxes, box); LocalKeeps(net, b, GetOn(net[b], box), boxes);
  }

  // ---- runs ----

  function NewMachine(boxes: nat): Machine {
    Machine([], None, 0, AtP, Zeros(MAX_PACKET), seq(boxes, _ => []), [], [], [], seq(boxes, _ => []))
  }

  function NewNet(machines: nat, boxes: nat): seq<Machine> {
    seq(machines, _ => NewMachine(boxes))
  }

  lemma NewNetInv(machines: nat, boxes: nat)
    ensures NetInv(NewNet(machines, boxes), boxes)
  {
    var net := NewNet(machines, boxes);
    forall a, b | 0 <= a < |net| && 0 <= b < |net| ensures Matches(net, a, b) {
    }
  }

  ghost predicate Possible(net: seq<Machine>, moves: seq<Move>, boxes: nat)
    requires NetInv(net, boxes)
    decreases |moves|
  {
    moves == [] || (CanMove(net, moves[0], boxes) && (MoveKeeps(net, moves[0], boxes); Possible(Next(net, moves[0], boxes), moves[1..], boxes)))
  }

  ghost function After(net: seq<Machine>, moves: seq<Move>, boxes: nat): seq<Machine>
    requires NetInv(net, boxes) && Possible(net, moves, boxes)
    decreases |moves|
  {
    if moves == [] then net else MoveKeeps(net, moves[0], boxes); After(Next(net, moves[0], boxes), moves[1..], boxes)
  }

  lemma {:induction false} RunKeeps(net: seq<Machine>, moves: seq<Move>, boxes: nat)
    requires NetInv(net, boxes) && Possible(net, moves, boxes)
    ensures NetInv(After(net, moves, boxes), boxes)
    decreases |moves|
  {
    hide NetInv, CanMove, Next;
    if moves != [] {
      MoveKeeps(net, moves[0], boxes);
      RunKeeps(Next(net, moves[0], boxes), moves[1..], boxes);
    }
  }

  ghost predicate RunsTo(machines: nat, moves: seq<Move>, boxes: nat, net: seq<Machine>) {
    NewNetInv(machines, boxes); Possible(NewNet(machines, boxes), moves, boxes) && net == After(NewNet(machines, boxes), moves, boxes)
  }

  /** net is a state of some run of post offices with this many mailboxes each. */
  ghost predicate Reached(net: seq<Machine>, boxes: nat) {
    exists machines: nat, moves: seq<Move> :: RunsTo(machines, moves, boxes, net)
  }

  lemma ReachedInv(net: seq<Machine>, boxes: nat)
    requires Reached(net, boxes)
    ensures NetInv(net, boxes)
  {
    hide NetInv, Possible, After, NewNet;
    var machines, moves :| RunsTo(machines, moves, boxes, net);
    NewNetInv(machines, boxes);
    RunKeeps(NewNet(machines, boxes), moves, boxes);
  }

  // ---- what every run promises ----

  /** The inbox is full exactly when a messageAvailable token is out, and there is never a second one. */
  lemma InboxAndToken(net: seq<Machine>, boxes: nat, b: nat)
    requires Reached(net, boxes) && b < |net|
    ensures net[b].inbox.Some? <==> net[b].available == 1 || net[b].worker == HasToken
    ensures net[b].available <= 1 && !(net[b].available == 1 && net[b].worker == HasToken)
  {
    hide Reached, Matches, InOrder;
    ReachedInv(net, boxes);
    assert MachineOk(net[b], b, boxes);
  }

  /** x is y with some elements left out. */
  ghost predicate Subsequence<T>(x: seq<T>, y: seq<T>) {
    if x == [] then true
    else y != [] && ((x[|x| - 1] == y[|y| - 1] && Subsequence(x[..|x| - 1], y[..|y| - 1])) || Subsequence(x, y[..|y| - 1]))
  }

  function ToBox(s: seq<Mail>, k: nat): seq<Mail> {
    if s == [] then [] else ToBox(s[..|s| - 1], k) + if s[|s| - 1].toBox == k then [s[|s| - 1]] else []
  }

  /** Every mail sent, lost or not, to whatever machine. */
  function Mails(s: seq<Sent>): seq<Mail> {
    if s == [] then [] else Mails(s[..|s| - 1]) + [s[|s| - 1].mail]
  }

  lemma {:induction false} FromAppend(s: seq<Letter>, t: seq<Letter>, a: nat)
    ensures From(s + t, a) == From(s, a) + From(t, a)
  {
    if t == [] {
      assert s + t == s;
    } else {
      FromAppend(s, t[..|t| - 1], a);
      assert (s + t)[..|s + t| - 1] == s + t[..|t| - 1];
    }
  }

  lemma {:induction false} InBoxAppend(s: seq<Letter>, t: seq<Letter>, k: nat)
    ensures InBox(s + t, k) == InBox(s, k) + InBox(t, k)
  {
    if t == [] {
      assert s + t == s;
    } else {
      InBoxAppend(s, t[..|t| - 1], k);
      assert (s + t)[..|s + t| - 1] == s + t[..|t| - 1];
    }
  }

  lemma ToBoxSnoc(s: seq<Mail>, x: Mail, k: nat)
    ensures ToBox(s + [x], k) == ToBox(s, k) + if x.toBox == k then [x] else []
  {
    assert (s + [x])[..|s|] == s;
  }

  /** Sorting by mailbox and picking one sender's mail can be done in either order. */
  lemma {:induction false} FiltersCommute(s: seq<Letter>, a: nat, k: nat)
    ensures From(InBox(s, k), a) == ToBox(From(s, a), k)
  {
    if s != [] {
      var rest, x := s[..|s| - 1], s[|s| - 1];
      FiltersCommute(rest, a, k);
      FromSnoc(InBox(rest, k), x, a);
      ToBoxSnoc(From(rest, a), x.mail, k);
      assert InBox(rest, k) + [] == InBox(rest, k) && From(rest, a) + [] == From(rest, a);
    }
  }

  /** A subsequence stays one when the longer sequence grows, with or without the shorter. */
  lemma SubsequenceGrows<T>(x: seq<T>, y: seq<T>, e: T)
    requires Subsequence(x, y)
    ensures Subsequence(x, y + [e]) && Subsequence(x + [e], y + [e])
  {
    assert (y + [e])[..|y|] == y && (x + [e])[..|x|] == x;
  }

  lemma {:induction false} ArrivingIsSubsequence(s: seq<Sent>, b: nat, k: nat)
    ensures Subsequence(ToBox(Arriving(s, b), k), Mails(s))
  {
    if s != [] {
      var rest, x := s[..|s| - 1], s[|s| - 1];
      ArrivingIsSubsequence(rest, b, k);
      SubsequenceGrows(ToBox(Arriving(rest, b), k), Mails(rest), x.mail);
      ToBoxSnoc(Arriving(rest, b), x.mail, k);
      assert Arriving(rest, b) + [] == Arriving(rest, b) && ToBox(Arriving(rest, b), k) + [] == ToBox(Arriving(rest, b), k);
    }
  }

  lemma {:induction false} PrefixIsSubsequence<T>(p: seq<T>, x: seq<T>, y: seq<T>)
    requires p <= x && Subsequence(x, y)
    ensures Subsequence(p, y)
    decreases |y|
  {
    if p != [] {
      var y' := y[..|y| - 1];
      if Subsequence(x, y') {
        PrefixIsSubsequence(p, x, y');
      } else if p == x {
      } else {
        PrefixIsSubsequence(p, x[..|x| - 1], y');
      }
    }
  }

  lemma InOrderDelivery(net: seq<Machine>, boxes: nat, a: nat, b: nat, k: nat)
    requires NetInv(net, boxes) && a < |net| && b < |net| && k < boxes
    ensures k < |net[b].got| && From(net[b].got[k], a) <= ToBox(Arriving(net[a].sent, b), k)
    ensures Subsequence(From(net[b].got[k], a), Mails(net[a].sent))
  {
    hide OneToken, GoodPacket, Parse, From, InBox, ToBox, Arriving, Subsequence, Mails;
    var m := net[b];
    assert MachineOk(m, b, boxes) && Matches(net, a, b);
    var rest := InHand(m) + Buffered(m) + Letters(m.wire);
    assert m.wired == m.put + rest;
    InBoxAppend(m.put, rest, k);
    var later := m.boxes[k] + InBox(rest, k);
    assert InBox(m.wired, k) == m.got[k] + later;
    FromAppend(m.got[k], later, a);
    FiltersCommute(m.wired, a, k);
    ArrivingIsSubsequence(net[a].sent, b, k);
    PrefixIsSubsequence(From(m.got[k], a), ToBox(Arriving(net[a].sent, b), k), Mails(net[a].sent));
  }

  /**
   * For each sender and each mailbox: what has been received is the beginning of what was sent there
   * and not lost, each message once, in order and unchanged; so it is a subsequence of what was sent.
   */
  lemma DeliveredInOrder(net: seq<Machine>, boxes: nat, a: nat, b: nat, k: nat)
    requires Reached(net, boxes) && a < |net| && b < |net| && k < boxes
    ensures k < |net[b].got| && From(net[b].got[k], a) <= ToBox(Arriving(net[a].sent, b), k)
    ensures Subsequence(From(net[b].got[k], a), Mails(net[a].sent))
  {
    hide Reached, NetInv;
    ReachedInv(net, boxes);
    InOrderDelivery(net, boxes, a, b, k);
  }

  // ---- nothing gets stuck ----

  function Count(boxes: seq<seq<Letter>>): nat {
    if boxes == [] then 0 else Count(boxes[..|boxes| - 1]) + |boxes[|boxes| - 1]|
  }

  lemma {:induction false} CountUpdate(boxes: seq<seq<Letter>>, k: nat, box: seq<Letter>)
    requires k < |boxes|
    ensures Count(boxes[k := box]) == Count(boxes) - |boxes[k]| + |box|
  {
    var n := |boxes| - 1;
    if k == n {
      assert boxes[k := box][..n] == boxes[..n];
    } else {
      CountUpdate(boxes[..n], k, box);
      assert boxes[k := box][..n] == boxes[..n][k := box];
    }
  }

  lemma {:induction false} CountZero(boxes: seq<seq<Letter>>)
    ensures Count(boxes) == 0 <==> forall k :: 0 <= k < |boxes| ==> boxes[k] == []
  {
    if boxes != [] {
      CountZero(boxes[..|boxes| - 1]);
    }
  }

  /** How many steps the letters at a machine are from being received. */
  function Distance(m: Machine): nat {
    5 * |m.wire| + (if m.inbox == None then 0 else if m.worker == HasToken then 3 else 4)
    + (if m.worker.Delivering? then 2 else 0) + Count(m.boxes)
  }

  /** Everything that reached the machine has been received. */
  predicate Finished(m: Machine) {
    m.wire == [] && m.inbox == None && m.worker == AtP && forall k :: 0 <= k < |m.boxes| ==> m.boxes[k] == []
  }

  /** The step that brings some letter nearer to being received. */
  ghost function Forward(m: Machine, b: nat): Move {
    if m.worker.Delivering? then WorkerPut(b)
    else if m.worker == HasToken then WorkerReceive(b)
    else if m.available > 0 then WorkerP(b)
    else if m.wire != [] then Poll(b)
    else Receive(b, FirstFull(m.boxes))
  }

  function FirstFull(boxes: seq<seq<Letter>>): (k: nat)
    ensures k <= |boxes| && (k < |boxes| ==> boxes[k] != []) && forall j :: 0 <= j < k ==> boxes[j] == []
  {
    if boxes == [] || boxes[0] != [] then 0 else 1 + FirstFull(boxes[1..])
  }

  /** Until all is received there is such a step, and it concerns no other machine. */
  lemma ForwardMoves(net: seq<Machine>, boxes: nat, b: nat)
    requires NetInv(net, boxes) && b < |net| && !Finished(net[b])
    ensures CanMove(net, Forward(net[b], b), boxes)
    ensures var z := Next(net, Forward(net[b], b), boxes);
      z == net[b := z[b]] && z[b].sent == net[b].sent && Distance(z[b]) < Distance(net[b])
  {
    hide Matches, InOrder, GoodPacket, Encode, Overwrite, InBox, Count;
    var m := net[b];
    assert MachineOk(m, b, boxes);
    if m.worker.Delivering? {
      hide Parse;
      var letter := Letter(m.worker.from, Parse(m.buffer));
      var k := letter.mail.toBox;
      CountUpdate(m.boxes, k, m.boxes[k] + [letter]);
    } else {
      hide Parse;
      if m.worker == AtP && m.available == 0 && m.wire == [] {
        var k := FirstFull(m.boxes);
        CountUpdate(m.boxes, k, m.boxes[k][1..]);
      }
    }
  }

  /** Only machine b has changed, and it has sent nothing. */
  ghost predicate OnlyAt(net: seq<Machine>, z: seq<Machine>, b: nat) {
    |z| == |net| && b < |net| && z == net[b := z[b]] && z[b].sent == net[b].sent
  }

  /** Every mailbox of b has given out all that any machine sent to it and the network did not lose. */
  ghost predicate AllGot(z: seq<Machine>, b: nat, boxes: nat)
    requires b < |z|
  {
    |z[b].got| == boxes && forall a, k :: 0 <= a < |z| && 0 <= k < boxes ==> From(z[b].got[k], a) == ToBox(Arriving(z[a].sent, b), k)
  }

  /** Whatever has been sent to b and not lost can be received in full by steps of b alone. */
  lemma {:induction false} NothingStuck(net: seq<Machine>, boxes: nat, b: nat) returns (moves: seq<Move>)
    requires NetInv(net, boxes) && b < |net|
    ensures Possible(net, moves, boxes) && OnlyAt(net, After(net, moves, boxes), b) && AllGot(After(net, moves, boxes), b, boxes)
    decreases Distance(net[b])
  {
    hide NetInv, CanMove, Next, Distance, Forward, AllGot;
    if Finished(net[b]) {
      moves := [];
      AllReceived(net, boxes, b);
    } else {
      var v := Forward(net[b], b);
      ForwardMoves(net, boxes, b);
      MoveKeeps(net, v, boxes);
      var z := Next(net, v, boxes);
      var rest := NothingStuck(z, boxes, b);
      moves := [v] + rest;
      assert moves[1..] == rest && moves[0] == v;
    }
  }

  lemma AllReceived(net: seq<Machine>, boxes: nat, b: nat)
    requires NetInv(net, boxes) && b < |net| && Finished(net[b])
    ensures AllGot(net, b, boxes)
  {
    hide OneToken, GoodPacket, Parse, From, Arriving, ToBox, InBox;
    var m := net[b];
    assert MachineOk(m, b, boxes) && m.wired == m.put;
    forall a, k | 0 <= a < |net| && 0 <= k < boxes ensures From(m.got[k], a) == ToBox(Arriving(net[a].sent, b), k) {
      assert Matches(net, a, b);
      assert m.got[k] + m.boxes[k] == m.got[k];
      assert InBox(m.wired, k) == m.got[k] && From(m.wired, a) == Arriving(net[a].sent, b);
      FiltersCommute(m.wired, a, k);
    }
  }

  /** A receive takes the oldest letter of its mailbox and leaves the others. */
  lemma ReceiveTakesOldest(net: seq<Machine>, boxes: nat, b: nat, k: nat)
    requires NetInv(net, boxes) && CanMove(net, Receive(b, k), boxes)
    ensures var m, n := net[b], Next(net, Receive(b, k), boxes)[b];
      && [m.boxes[k][0]] + n.boxes[k] == m.boxes[k] && k < |m.got| == |n.got| && n.got[k] == m.got[k] + [m.boxes[k][0]]
      && (forall j :: 0 <= j < |m.boxes| && j != k ==> n.boxes[j] == m.boxes[j] && j < |m.got| && n.got[j] == m.got[j])
  {
    hide Matches, InOrder, OneToken, GoodPacket, Parse, InBox;
    assert MachineOk(net[b], b, boxes);
  }
}
