/** What holds in every reachable state of response delivery: who holds which lock, that
    no packet is lost, duplicated or reordered, and that every interrupt-IN request is
    resolved once and answered once. */
module DeliverySafety {
  import opened Bytes
  import opened Framing
  import opened RequestBuffers
  import opened Ownership
  import opened Delivery
  import opened Wrappers

  // ------------------------------------------------------------------- locks

  predicate IsReader(pc: Pc) {
    pc.Reader?
  }

  predicate HoldsResponses(pc: Pc) {
    pc.Sender? && (pc.send.SendLockBuffer? || pc.send.SendLockWire? || pc.send.SendWrite? || pc.send.SendUnlockResponses?)
  }

  predicate HoldsBuffer(pc: Pc) {
    pc.Reader? && (pc.read.SubmitLockWire? || pc.read.SubmitWrite?)
  }

  predicate HoldsWire(pc: Pc) {
    match pc
    case Sender(p) => p.SendWrite?
    case Reader(p) => p.SubmitWrite? || p.UnlinkWrite? || p.OtherWrite?
    case Timer(p) => p.TimerWrite?
    case Done => false
  }

  function HeldChannel(pc: Pc): Option<uint32> {
    if !pc.Sender? then None
    else match pc.send
      case SendLockChannel(_, _) => None
      case SendLockResponses(held, _) => held
      case SendLockBuffer(held, _) => held
      case SendLockWire(held, _, _) => held
      case SendWrite(held, _, _) => held
      case SendUnlockResponses(held) => held
      case SendUnlockChannel(c) => Some(c)
  }

  predicate HasPacket(pc: Pc) {
    pc.Sender? && (pc.send.SendLockBuffer? || pc.send.SendLockWire? || pc.send.SendWrite?) ==> pc.send.left != []
  }

  /** A lock is held by thread t exactly when t's program counter is between taking and
      releasing it, and the command reader is one thread. */
  ghost predicate LocksOk(s: State) {
    && Owns(s.pcs, Some(READER), IsReader)
    && Every(s.pcs, HasPacket)
    && Owns(s.pcs, s.locks.responses, HoldsResponses)
    && Owns(s.pcs, s.locks.buffer, HoldsBuffer)
    && Owns(s.pcs, s.locks.wire, HoldsWire)
    && OwnsEach(s.pcs, s.locks.channels, HeldChannel)
  }

  /** A step of thread t to counter pc that moves t's own locks as pc demands. */
  ghost predicate Moved(s: State, s': State, t: Tid, pc: Pc) {
    && s'.pcs == s.pcs[t := pc]
    && (IsReader(pc) <==> t == READER) && HasPacket(pc)
    && Moves(s.locks.responses, s'.locks.responses, t, HoldsResponses(pc))
    && Moves(s.locks.buffer, s'.locks.buffer, t, HoldsBuffer(pc))
    && Moves(s.locks.wire, s'.locks.wire, t, HoldsWire(pc))
    && MovesEach(s.locks.channels, s'.locks.channels, t, if t in s.pcs then HeldChannel(s.pcs[t]) else None, HeldChannel(pc))
  }

  lemma MovedKeepsLocks(s: State, s': State, t: Tid, pc: Pc)
    requires LocksOk(s) && Moved(s, s', t, pc)
    ensures LocksOk(s')
  {
    OwnsKept(s.pcs, Some(READER), Some(READER), IsReader, t, pc);
    OwnsKept(s.pcs, s.locks.responses, s'.locks.responses, HoldsResponses, t, pc);
    OwnsKept(s.pcs, s.locks.buffer, s'.locks.buffer, HoldsBuffer, t, pc);
    OwnsKept(s.pcs, s.locks.wire, s'.locks.wire, HoldsWire, t, pc);
    OwnsEachKept(s.pcs, s.locks.channels, s'.locks.channels, HeldChannel, t, pc);
  }

  /** What the lock invariant says of one thread. */
  ghost predicate LocksAt(s: State, t: Tid)
    requires t in s.pcs
  {
    var pc := s.pcs[t];
    && (IsReader(pc) <==> t == READER) && HasPacket(pc)
    && (HoldsResponses(pc) <==> s.locks.responses == Some(t))
    && (HoldsBuffer(pc) <==> s.locks.buffer == Some(t))
    && (HoldsWire(pc) <==> s.locks.wire == Some(t))
    && (HeldChannel(pc).Some? ==>
          HeldChannel(pc).value in s.locks.channels && s.locks.channels[HeldChannel(pc).value] == t)
  }

  lemma SenderMoves(s: State, t: Tid, pick: uint32)
    requires Enabled(s, Run(t, pick)) && LocksAt(s, t) && s.pcs[t].Sender?
    ensures var s' := Apply(s, Run(t, pick)); t in s'.pcs && Moved(s, s', t, s'.pcs[t])
  {
  }

  lemma ReaderMoves(s: State, t: Tid, pick: uint32)
    requires Enabled(s, Run(t, pick)) && LocksAt(s, t) && s.pcs[t].Reader?
    ensures var s' := Apply(s, Run(t, pick)); t in s'.pcs && Moved(s, s', t, s'.pcs[t])
  {
  }

  lemma TimerMoves(s: State, t: Tid, pick: uint32)
    requires Enabled(s, Run(t, pick)) && LocksAt(s, t) && s.pcs[t].Timer?
    ensures var s' := Apply(s, Run(t, pick)); t in s'.pcs && Moved(s, s', t, s'.pcs[t])
  {
  }

  lemma LocksKept(s: State, a: Action)
    requires LocksOk(s) && Enabled(s, a)
    ensures LocksOk(Apply(s, a))
  {
    var s' := Apply(s, a);
    match a
    case Run(t, pick) =>
      match s.pcs[t] {
        case Sender(_) => SenderMoves(s, t, pick);
        case Reader(_) => ReaderMoves(s, t, pick);
        case Timer(_) => TimerMoves(s, t, pick);
      }
      MovedKeepsLocks(s, s', t, s'.pcs[t]);
    case StartTimer(t) =>
      var mid := Goto(s, t, Timer(TimerLockBuffer(s.pcs[READER].read.id)));
      MovedKeepsLocks(s, mid, t, mid.pcs[t]);
      MovedKeepsLocks(mid, s', READER, Reader(ReadNext));
    case Arrive(t, _, _) => MovedKeepsLocks(s, s', t, s'.pcs[t]);
    case Send(t, _) => MovedKeepsLocks(s, s', t, s'.pcs[t]);
    case _ => MovedKeepsLocks(s, s', READER, s'.pcs[READER]);
  }

  lemma LocksGive(s: State, t: Tid)
    requires LocksOk(s) && t in s.pcs
    ensures LocksAt(s, t)
  {
  }

  // -------------------------------------------------- order and conservation

  /** The data of the replies, in the order of the socket. */
  function Received(wire: seq<Reply>): seq<Packet> {
    if wire == [] then []
    else
      var last := wire[|wire| - 1];
      Received(wire[..|wire| - 1])
      + if last.RetSubmit? && last.data.Some? then [last.data.value] else []
  }

  /** The sender that holds `responsesLock`. */
  function Holder(s: State): Option<SendPc> {
    if s.locks.responses.Some? && s.locks.responses.value in s.pcs && s.pcs[s.locks.responses.value].Sender? then
      Some(s.pcs[s.locks.responses.value].send)
    else None
  }

  function ReaderPc(s: State): ReadPc {
    if READER in s.pcs && s.pcs[READER].Reader? then s.pcs[READER].read else ReadNext
  }

  /** Picked for a waiter, not yet written. */
  function InFlight(p: Option<SendPc>): seq<Packet> {
    if p.Some? && (p.value.SendLockWire? || p.value.SendWrite?) && p.value.left != [] then [p.value.left[0]] else []
  }

  /** Not yet given to `Respond`. */
  function Unsent(p: Option<SendPc>): seq<Packet> {
    if p.None? then []
    else if p.value.SendLockBuffer? then p.value.left
    else if (p.value.SendLockWire? || p.value.SendWrite?) && p.value.left != [] then p.value.left[1..]
    else []
  }

  /** Taken from the buffer by `Request`, not yet written. */
  function Taken(r: ReadPc): seq<Packet> {
    if r.SubmitLockWire? || r.SubmitWrite? then [r.data] else []
  }

  predicate Ordered(p: Option<SendPc>, r: ReadPc, b: Buffer<Packet>, received: seq<Packet>, all: seq<Packet>) {
    && all == received + Taken(r) + InFlight(p) + b.responses + Unsent(p)
    && (b.waiting != {} ==> b.responses == [])
    && (InFlight(p) != [] ==> b.responses == [] && Taken(r) == [])
  }

  /** Everything accepted is written, on its way, or buffered, in the order in which it
      was accepted; and there are never both waiting requests and buffered responses. */
  predicate OrderOk(s: State) {
    Ordered(Holder(s), ReaderPc(s), s.buffer, Received(s.wire), Flatten(s.past.accepted))
  }

  lemma ReceivedAppend(wire: seq<Reply>, r: Reply)
    ensures Received(wire + [r]) == Received(wire) + if r.RetSubmit? && r.data.Some? then [r.data.value] else []
  {
    assert (wire + [r])[..|wire|] == wire;
  }

  lemma OrderedAccept(
      held: Option<uint32>, r: ReadPc, b: Buffer<Packet>, received: seq<Packet>, all: seq<Packet>, ps: seq<Packet>)
    requires Ordered(None, r, b, received, all)
    ensures Ordered(Some(SendRest(held, ps).send), r, b, received, all + ps)
  {
  }

  lemma OrderedSame(
      p: Option<SendPc>, r: ReadPc, r': ReadPc, b: Buffer<Packet>, b': Buffer<Packet>,
      received: seq<Packet>, all: seq<Packet>)
    requires Ordered(p, r, b, received, all) && Taken(r) == Taken(r')
    requires b'.responses == b.responses && (b'.waiting != {} ==> b.responses == [])
    ensures Ordered(p, r', b', received, all)
  {
  }

  lemma OrderedPick(
      held: Option<uint32>, left: seq<Packet>, r: ReadPc, b: Buffer<Packet>,
      received: seq<Packet>, all: seq<Packet>, id: uint32)
    requires Ordered(Some(SendLockBuffer(held, left)), r, b, received, all)
    requires left != [] && b.waiting != {} && Taken(r) == []
    ensures Ordered(Some(SendLockWire(held, left, id)), r, Pick(b, id), received, all)
  {
    assert left == [left[0]] + left[1..];
  }

  lemma OrderedStore(
      held: Option<uint32>, left: seq<Packet>, r: ReadPc, b: Buffer<Packet>, received: seq<Packet>, all: seq<Packet>)
    requires Ordered(Some(SendLockBuffer(held, left)), r, b, received, all)
    requires left != [] && b.waiting == {}
    ensures Ordered(Some(SendRest(held, left[1..]).send), r, Store(b, left[0]), received, all)
  {
    assert left == [left[0]] + left[1..];
    assert received + Taken(r) + [] + (b.responses + [left[0]]) + left[1..] ==
           received + Taken(r) + [] + b.responses + left;
  }

  lemma OrderedWrite(
      held: Option<uint32>, left: seq<Packet>, id: uint32, r: ReadPc, b: Buffer<Packet>,
      received: seq<Packet>, all: seq<Packet>)
    requires Ordered(Some(SendWrite(held, left, id)), r, b, received, all) && left != []
    ensures Ordered(Some(SendRest(held, left[1..]).send), r, b, received + [left[0]], all)
  {
    assert received + [] + [left[0]] + [] + left[1..] == (received + [left[0]]) + [] + [] + [] + left[1..];
  }

  lemma OrderedTake(p: Option<SendPc>, b: Buffer<Packet>, received: seq<Packet>, all: seq<Packet>, id: uint32)
    requires Ordered(p, SubmitLockBuffer(id), b, received, all) && b.responses != []
    ensures Ordered(p, SubmitLockWire(id, b.responses[0]), b.(responses := b.responses[1..]), received, all)
  {
    assert b.responses == [b.responses[0]] + b.responses[1..];
    assert InFlight(p) == [];
    assert received + [] + [] + b.responses + Unsent(p) ==
           received + [b.responses[0]] + [] + b.responses[1..] + Unsent(p);
  }

  lemma OrderedHandOver(
      p: Option<SendPc>, b: Buffer<Packet>, received: seq<Packet>, all: seq<Packet>, id: uint32, data: Packet)
    requires Ordered(p, SubmitWrite(id, data), b, received, all)
    ensures Ordered(p, SubmitStartTimer(id), b, received + [data], all)
  {
    assert received + [data] + InFlight(p) + b.responses + Unsent(p)
        == (received + [data]) + [] + InFlight(p) + b.responses + Unsent(p);
  }

  /** The data a step of pc writes. */
  function Written(pc: Pc): seq<Packet> {
    if pc.Sender? && pc.send.SendWrite? && pc.send.left != [] then [pc.send.left[0]]
    else if pc.Reader? && pc.read.SubmitWrite? then [pc.read.data]
    else []
  }

  /** The message a step of pc takes `responsesLock` for. */
  function Accepted(pc: Pc): seq<Message> {
    if pc.Sender? && pc.send.SendLockResponses? then [pc.send.msg] else []
  }

  lemma PassKeepsOrder(s: State, t: Tid, pick: uint32, got: seq<Packet>, all: seq<Packet>)
    requires Enabled(s, Run(t, pick)) && s.pcs[t].Sender? && READER in s.pcs && LocksAt(s, t) && LocksAt(s, READER)
    requires s.pcs[t].send.SendLockBuffer? && Ordered(Holder(s), ReaderPc(s), s.buffer, got, all)
    ensures var s' := Apply(s, Run(t, pick)); Ordered(Holder(s'), ReaderPc(s'), s'.buffer, got, all)
  {
    var SendLockBuffer(held, left) := s.pcs[t].send;
    if s.buffer.waiting != {} {
      OrderedPick(held, left, ReaderPc(s), s.buffer, got, all, pick);
    } else {
      OrderedStore(held, left, ReaderPc(s), s.buffer, got, all);
    }
  }

  lemma AcceptKeepsOrder(s: State, t: Tid, pick: uint32, got: seq<Packet>, all: seq<Packet>)
    requires Enabled(s, Run(t, pick)) && s.pcs[t].Sender? && READER in s.pcs && LocksAt(s, t) && LocksAt(s, READER)
    requires s.pcs[t].send.SendLockResponses? && Ordered(Holder(s), ReaderPc(s), s.buffer, got, all)
    ensures var s' := Apply(s, Run(t, pick));
            Ordered(Holder(s'), ReaderPc(s'), s'.buffer, got, all + Packets(s.pcs[t].send.msg))
  {
    var SendLockResponses(held, m) := s.pcs[t].send;
    OrderedAccept(held, ReaderPc(s), s.buffer, got, all, Packets(m));
  }

  lemma WriteKeepsOrder(s: State, t: Tid, pick: uint32, got: seq<Packet>, all: seq<Packet>)
    requires Enabled(s, Run(t, pick)) && s.pcs[t].Sender? && READER in s.pcs && LocksAt(s, t) && LocksAt(s, READER)
    requires s.pcs[t].send.SendWrite? && Ordered(Holder(s), ReaderPc(s), s.buffer, got, all)
    ensures var s' := Apply(s, Run(t, pick));
            Ordered(Holder(s'), ReaderPc(s'), s'.buffer, got + [s.pcs[t].send.left[0]], all)
  {
    var SendWrite(held, left, id) := s.pcs[t].send;
    OrderedWrite(held, left, id, ReaderPc(s), s.buffer, got, all);
  }

  /** The other steps of a sender move no packet. */
  lemma LockingKeepsOrder(s: State, t: Tid, pick: uint32, got: seq<Packet>, all: seq<Packet>)
    requires Enabled(s, Run(t, pick)) && s.pcs[t].Sender? && READER in s.pcs && LocksAt(s, t) && LocksAt(s, READER)
    requires !s.pcs[t].send.SendLockResponses? && !s.pcs[t].send.SendLockBuffer? && !s.pcs[t].send.SendWrite?
    requires Ordered(Holder(s), ReaderPc(s), s.buffer, got, all)
    ensures var s' := Apply(s, Run(t, pick)); Ordered(Holder(s'), ReaderPc(s'), s'.buffer, got, all)
  {
    var s' := Apply(s, Run(t, pick));
    assert InFlight(Holder(s')) == InFlight(Holder(s)) && Unsent(Holder(s')) == Unsent(Holder(s));
  }

  lemma SenderKeepsOrder(s: State, t: Tid, pick: uint32, got: seq<Packet>, all: seq<Packet>)
    requires Enabled(s, Run(t, pick)) && s.pcs[t].Sender? && READER in s.pcs && LocksAt(s, t) && LocksAt(s, READER)
    requires Ordered(Holder(s), ReaderPc(s), s.buffer, got, all)
    ensures var s' := Apply(s, Run(t, pick));
            Ordered(Holder(s'), ReaderPc(s'), s'.buffer, got + Written(s.pcs[t]), all + Flatten(Accepted(s.pcs[t])))
  {
    assert got + [] == got && all + [] == all;
    match s.pcs[t].send
    case SendLockResponses(_, m) =>
      AcceptKeepsOrder(s, t, pick, got, all);
      FlattenAppend([], m);
    case SendLockBuffer(_, _) => PassKeepsOrder(s, t, pick, got, all);
    case SendWrite(_, _, _) => WriteKeepsOrder(s, t, pick, got, all);
    case _ => LockingKeepsOrder(s, t, pick, got, all);
  }

  lemma ReaderKeepsOrder(s: State, t: Tid, pick: uint32, got: seq<Packet>, all: seq<Packet>)
    requires Enabled(s, Run(t, pick)) && s.pcs[t].Reader? && LocksAt(s, t)
    requires Ordered(Holder(s), ReaderPc(s), s.buffer, got, all)
    ensures var s' := Apply(s, Run(t, pick));
            Ordered(Holder(s'), ReaderPc(s'), s'.buffer, got + Written(s.pcs[t]), all + Flatten(Accepted(s.pcs[t])))
  {
    var s', p := Apply(s, Run(t, pick)), Holder(s);
    assert Holder(s') == p && got + [] == got && all + [] == all;
    match s.pcs[t].read
    case SubmitLockBuffer(id) =>
      if s.buffer.responses != [] {
        OrderedTake(p, s.buffer, got, all, id);
      } else {
        OrderedSame(p, ReaderPc(s), ReaderPc(s'), s.buffer, s'.buffer, got, all);
      }
    case SubmitWrite(id, data) => OrderedHandOver(p, s.buffer, got, all, id, data);
    case _ => OrderedSame(p, ReaderPc(s), ReaderPc(s'), s.buffer, s'.buffer, got, all);
  }

  lemma TimerKeepsOrder(s: State, t: Tid, pick: uint32, got: seq<Packet>, all: seq<Packet>)
    requires Enabled(s, Run(t, pick)) && s.pcs[t].Timer? && LocksAt(s, t)
    requires Ordered(Holder(s), ReaderPc(s), s.buffer, got, all)
    ensures var s' := Apply(s, Run(t, pick));
            Ordered(Holder(s'), ReaderPc(s'), s'.buffer, got + Written(s.pcs[t]), all + Flatten(Accepted(s.pcs[t])))
  {
    var s' := Apply(s, Run(t, pick));
    assert Holder(s') == Holder(s) && ReaderPc(s') == ReaderPc(s);
    assert got + [] == got && all + [] == all;
  }

  /** At most one reply is added to the wire, with the data that the counter says. */
  ghost predicate Adds(wire: seq<Reply>, wire': seq<Reply>, written: seq<Packet>) {
    || (wire' == wire && written == [])
    || (exists r :: wire' == wire + [r] && written == if r.RetSubmit? && r.data.Some? then [r.data.value] else [])
  }

  lemma AddsReceived(wire: seq<Reply>, wire': seq<Reply>, written: seq<Packet>)
    requires Adds(wire, wire', written)
    ensures Received(wire') == Received(wire) + written
  {
    if !(wire' == wire && written == []) {
      var r :| wire' == wire + [r] && written == if r.RetSubmit? && r.data.Some? then [r.data.value] else [];
      ReceivedAppend(wire, r);
    }
  }

  lemma SenderAdds(s: State, t: Tid, pick: uint32)
    requires Enabled(s, Run(t, pick)) && s.pcs[t].Sender?
    ensures Adds(s.wire, Apply(s, Run(t, pick)).wire, Written(s.pcs[t]))
  {
    if s.pcs[t].send.SendWrite? {
      var p := s.pcs[t].send;
      assert Apply(s, Run(t, pick)).wire == s.wire + [RetSubmit(p.id, Some(p.left[0]))];
    }
  }

  lemma ReaderAdds(s: State, t: Tid, pick: uint32)
    requires Enabled(s, Run(t, pick)) && s.pcs[t].Reader?
    ensures Adds(s.wire, Apply(s, Run(t, pick)).wire, Written(s.pcs[t]))
  {
    match s.pcs[t].read
    case SubmitWrite(id, data) => assert Apply(s, Run(t, pick)).wire == s.wire + [RetSubmit(id, Some(data))];
    case UnlinkWrite(target, reset) => assert Apply(s, Run(t, pick)).wire == s.wire + [RetUnlink(target, reset)];
    case OtherWrite => assert Apply(s, Run(t, pick)).wire == s.wire + [RetOther];
    case _ =>
  }

  lemma TimerAdds(s: State, t: Tid, pick: uint32)
    requires Enabled(s, Run(t, pick)) && s.pcs[t].Timer?
    ensures Adds(s.wire, Apply(s, Run(t, pick)).wire, Written(s.pcs[t]))
  {
    match s.pcs[t].timer
    case TimerWrite(id) => assert Apply(s, Run(t, pick)).wire == s.wire + [RetSubmit(id, None)];
    case _ =>
  }

  lemma AcceptedMore(accepted: seq<Message>, more: seq<Message>)
    requires |more| <= 1
    ensures Flatten(accepted + more) == Flatten(accepted) + Flatten(more)
  {
    if more == [] {
      assert accepted + more == accepted;
    } else {
      assert more == [more[0]] && [] + [more[0]] == more;
      FlattenAppend(accepted, more[0]);
      FlattenAppend([], more[0]);
    }
  }

  lemma ReplyAppends(s: State, t: Tid, pick: uint32)
    requires Enabled(s, Run(t, pick))
    ensures var s' := Apply(s, Run(t, pick));
            && Received(s'.wire) == Received(s.wire) + Written(s.pcs[t])
            && s'.past.accepted == s.past.accepted + Accepted(s.pcs[t])
            && Flatten(s'.past.accepted) == Flatten(s.past.accepted) + Flatten(Accepted(s.pcs[t]))
  {
    match s.pcs[t] {
      case Sender(_) => SenderAdds(s, t, pick);
      case Reader(_) => ReaderAdds(s, t, pick);
      case Timer(_) => TimerAdds(s, t, pick);
    }
    AddsReceived(s.wire, Apply(s, Run(t, pick)).wire, Written(s.pcs[t]));
    AcceptedMore(s.past.accepted, Accepted(s.pcs[t]));
  }

  lemma StartKeepsOrder(s: State, a: Action)
    requires LocksOk(s) && OrderOk(s) && Enabled(s, a) && !a.Run?
    ensures OrderOk(Apply(s, a))
  {
    var s' := Apply(s, a);
    assert Holder(s') == Holder(s) && s'.wire == s.wire && s'.past.accepted == s.past.accepted && s'.buffer == s.buffer;
    assert Taken(ReaderPc(s')) == Taken(ReaderPc(s));
    OrderedSame(Holder(s), ReaderPc(s), ReaderPc(s'), s.buffer, s.buffer, Received(s.wire), Flatten(s.past.accepted));
  }

  lemma OrderKept(s: State, a: Action)
    requires LocksOk(s) && OrderOk(s) && Enabled(s, a)
    ensures OrderOk(Apply(s, a))
  {
    match a
    case Run(t, pick) =>
      var got, all := Received(s.wire), Flatten(s.past.accepted);
      LocksGive(s, READER);
      LocksGive(s, t);
      ReplyAppends(s, t, pick);
      match s.pcs[t] {
        case Sender(_) => SenderKeepsOrder(s, t, pick, got, all);
        case Reader(_) => ReaderKeepsOrder(s, t, pick, got, all);
        case Timer(_) => TimerKeepsOrder(s, t, pick, got, all);
      }
    case _ => StartKeepsOrder(s, a);
  }
}
