/** A run that loses a message although all its packets reach the host: one of the
    requests times out between them. */
module LostMessage {
  import opened Bytes
  import opened Framing
  import opened Delivery
  import opened DeliverySafety
  import opened EndToEnd
  import opened Losses
  import opened Ownership
  import opened Reports
  import opened RequestBuffers
  import opened Wrappers
  import Machines

  lemma Then(before: seq<Action>, a: Action)
    ensures Reached(before + [a]) == Next(Reached(before), a).0
  {
    Machines.Append(Next, Initial, before, a);
  }

  /** Where the reader is, the sender (thread 1, holding `responsesLock`), and the timers
      of the first two requests (threads 3 and 2), if they are set. */
  predicate Scene(s: State, reader: ReadPc, sender: SendPc, two: Option<TimerPc>, three: bool) {
    && READER in s.pcs && s.pcs[READER] == Reader(reader)
    && 1 in s.pcs && s.pcs[1] == Sender(sender)
    && (if two.Some? then 2 in s.pcs && s.pcs[2] == Timer(two.value) else three ==> 2 !in s.pcs || s.pcs[2] == Done)
    && (!three ==> 2 !in s.pcs && 3 !in s.pcs)
  }

  predicate Locks(s: State, buffer: Option<Tid>, wire: Option<Tid>) {
    s.locks == LockOwners(map[], Some(1), buffer, wire)
  }

  predicate World(
      s: State, m: Message, waiting: set<uint32>, responses: seq<Packet>, wire: seq<Reply>, ids: set<uint32>) {
    && s.buffer == Buffer(waiting, responses) && s.wire == wire && s.past.accepted == [m] && s.past.fates.Keys == ids
    && forall t <- s.pcs :: t <= 3
  }

  /** The sender has stored the first packet and is about to respond with the others. */
  lemma ToFirstStored(m: Message)
    requires |Packets(m)| >= 2
    ensures var s := Reached([] + [Send(1, m)] + [Run(1, 0)] + [Run(1, 0)]);
            && Scene(s, ReadNext, SendLockBuffer(None, Packets(m)[1..]), None, false) && Locks(s, None, None)
            && World(s, m, {}, [Packets(m)[0]], [], {})
  {
    Then([], Send(1, m));
    Then([] + [Send(1, m)], Run(1, 0));
    Then([] + [Send(1, m)] + [Run(1, 0)], Run(1, 0));
  }

  /** Request 1 gets the first packet, and its timer is set. */
  lemma ToFirstTaken(m: Message, before: seq<Action>, sender: SendPc, p: Packet)
    requires var s := Reached(before);
             Scene(s, ReadNext, sender, None, false) && Locks(s, None, None) && World(s, m, {}, [p], [], {})
    ensures var s := Reached(before + [Submit(1)] + [Run(0, 0)]);
            && Scene(s, SubmitLockWire(1, p), sender, None, false) && Locks(s, Some(0), None)
            && World(s, m, {}, [], [], {1})
  {
    Then(before, Submit(1));
    Then(before + [Submit(1)], Run(0, 0));
  }

  lemma ToFirstRead(m: Message, before: seq<Action>, sender: SendPc, p: Packet)
    requires var s := Reached(before);
             && Scene(s, SubmitLockWire(1, p), sender, None, false) && Locks(s, Some(0), None)
             && World(s, m, {}, [], [], {1})
    ensures var s := Reached(before + [Run(0, 0)] + [Run(0, 0)] + [StartTimer(3)]);
            && Scene(s, ReadNext, sender, None, true) && 2 !in s.pcs && Locks(s, None, None)
            && World(s, m, {}, [], [RetSubmit(1, Some(p))], {1})
  {
    Then(before, Run(0, 0));
    Then(before + [Run(0, 0)], Run(0, 0));
    Then(before + [Run(0, 0)] + [Run(0, 0)], StartTimer(3));
  }

  /** Request 2 waits, and its timer is set. */
  lemma ToSecondWaits(m: Message, before: seq<Action>, sender: SendPc, wire: seq<Reply>)
    requires var s := Reached(before);
             && Scene(s, ReadNext, sender, None, true) && 2 !in s.pcs && Locks(s, None, None)
             && World(s, m, {}, [], wire, {1})
    ensures var s := Reached(before + [Submit(2)] + [Run(0, 0)] + [StartTimer(2)]);
            && Scene(s, ReadNext, sender, Some(TimerLockBuffer(2)), true) && Locks(s, None, None)
            && World(s, m, {2}, [], wire, {1, 2})
  {
    Then(before, Submit(2));
    Then(before + [Submit(2)], Run(0, 0));
    Then(before + [Submit(2)] + [Run(0, 0)], StartTimer(2));
  }

  /** Request 2 times out. */
  lemma ToTimedOut(m: Message, before: seq<Action>, sender: SendPc, wire: seq<Reply>)
    requires var s := Reached(before);
             && Scene(s, ReadNext, sender, Some(TimerLockBuffer(2)), true) && Locks(s, None, None)
             && World(s, m, {2}, [], wire, {1, 2})
    ensures var s := Reached(before + [Run(2, 0)] + [Run(2, 0)] + [Run(2, 0)]);
            && Scene(s, ReadNext, sender, None, true) && Locks(s, None, None)
            && World(s, m, {}, [], wire + [RetSubmit(2, None)], {1, 2})
  {
    Then(before, Run(2, 0));
    Then(before + [Run(2, 0)], Run(2, 0));
    Then(before + [Run(2, 0)] + [Run(2, 0)], Run(2, 0));
  }

  /** Nobody waits and nobody runs but the reader; ids and threads below these are used. */
  predicate Resting(s: State, m: Message, responses: seq<Packet>, wire: seq<Reply>, id: nat) {
    && READER in s.pcs && s.pcs[READER] == Reader(ReadNext) && (forall t <- s.pcs :: t <= id)
    && s.locks.buffer.None? && s.locks.wire.None? && s.buffer == Buffer({}, responses)
    && s.wire == wire && s.past.accepted == [m] && forall i <- s.past.fates :: i < id
  }

  /** The sender stores the other packets, with nobody waiting. */
  lemma {:induction false} ToAllStored(
      m: Message, before: seq<Action>, left: seq<Packet>, stored: seq<Packet>, wire: seq<Reply>)
    returns (actions: seq<Action>)
    requires var s := Reached(before);
             && (if left == [] then Scene(s, ReadNext, SendUnlockResponses(None), None, true)
                 else Scene(s, ReadNext, SendLockBuffer(None, left), None, true))
             && Locks(s, None, None) && World(s, m, {}, stored, wire, {1, 2})
    ensures Resting(Reached(actions), m, stored + left, wire, 3)
    decreases |left|
  {
    if left == [] {
      actions := before;
      assert stored + left == stored;
      NowResting(Reached(before), m, stored, wire);
    } else {
      Then(before, Run(1, 0));
      actions := ToAllStored(m, before + [Run(1, 0)], left[1..], stored + [left[0]], wire);
      assert stored + [left[0]] + left[1..] == stored + left;
    }
  }

  lemma NowResting(s: State, m: Message, responses: seq<Packet>, wire: seq<Reply>)
    requires Scene(s, ReadNext, SendUnlockResponses(None), None, true) && Locks(s, None, None)
    requires World(s, m, {}, responses, wire, {1, 2})
    ensures Resting(s, m, responses, wire, 3)
  {
    assert forall i :: i in s.past.fates <==> i in s.past.fates.Keys;
  }

  lemma Fetched(m: Message, before: seq<Action>, ps: seq<Packet>, wire: seq<Reply>, id: uint32)
    requires ps != [] && Resting(Reached(before), m, ps, wire, id) && id > 0
    ensures var fetch := [Submit(id), Run(0, 0), Run(0, 0), Run(0, 0), StartTimer(id + 1)];
            Resting(Reached(before + fetch), m, ps[1..], wire + [RetSubmit(id, Some(ps[0]))], id + 1)
  {
    var a := before + [Submit(id)];
    var b := a + [Run(0, 0)];
    var d := b + [Run(0, 0)];
    var e := d + [Run(0, 0)];
    Then(before, Submit(id));
    Then(a, Run(0, 0));
    Then(b, Run(0, 0));
    Then(d, Run(0, 0));
    Then(e, StartTimer(id + 1));
    assert before + [Submit(id), Run(0, 0), Run(0, 0), Run(0, 0), StartTimer(id + 1)] == e + [StartTimer(id + 1)];
  }

  /** Requests that find their responses in the buffer get all of them. */
  lemma {:induction false} ToAllFetched(
      m: Message, before: seq<Action>, ps: seq<Packet>, wire: seq<Reply>, id: nat)
    returns (actions: seq<Action>)
    requires 0 < id && id + |ps| <= 0x1_0000_0000 && Resting(Reached(before), m, ps, wire, id) && Whole(ps)
    ensures var s := Reached(actions);
            && s.past.accepted == [m]
            && Received(s.wire) == Received(wire) + ps && ReportsOf(s.wire) == ReportsOf(wire) + ps
    decreases |ps|
  {
    if ps == [] {
      actions := before;
    } else {
      var r, rest := RetSubmit(id, Some(ps[0])), ps[1..];
      assert ps == [ps[0]] + rest && ps[0] in ps && forall p <- rest :: p in ps;
      Fetched(m, before, ps, wire, id);
      var fetch := [Submit(id), Run(0, 0), Run(0, 0), Run(0, 0), StartTimer(id + 1)];
      actions := ToAllFetched(m, before + fetch, rest, wire + [r], id + 1);
      OneReply(wire, r);
      Associates(Received(wire), [ps[0]], rest);
      Associates(ReportsOf(wire), [ps[0]], rest);
    }
  }

  /** A packet on the wire and a timeout. */
  lemma PacketAndTimeout(p: Packet)
    requires |p| == PACKET_SIZE
    ensures var wire := [RetSubmit(1, Some(p))] + [RetSubmit(2, None)];
            Received(wire) == [p] && ReportsOf(wire) == [p] + [Zeros()]
  {
    var first := [RetSubmit(1, Some(p))];
    assert [] + first == first;
    OneReply([], RetSubmit(1, Some(p)));
    OneReply(first, RetSubmit(2, None));
  }

  /** Up to the timeout: one packet has been written and the others are to be stored. */
  lemma ToTimeout(m: Message) returns (actions: seq<Action>, wire: seq<Reply>)
    requires |Packets(m)| >= 2 && |Packets(m)[0]| == PACKET_SIZE
    ensures var s, ps := Reached(actions), Packets(m);
            && Scene(s, ReadNext, SendLockBuffer(None, ps[1..]), None, true) && Locks(s, None, None)
            && World(s, m, {}, [], wire, {1, 2})
            && Received(wire) == [ps[0]] && ReportsOf(wire) == [ps[0]] + [Zeros()]
  {
    var p, sender := Packets(m)[0], SendLockBuffer(None, Packets(m)[1..]);
    wire := [RetSubmit(1, Some(p))];
    actions := [] + [Send(1, m)] + [Run(1, 0)] + [Run(1, 0)];
    ToFirstStored(m);
    ToFirstTaken(m, actions, sender, p);
    actions := actions + [Submit(1)] + [Run(0, 0)];
    ToFirstRead(m, actions, sender, p);
    actions := actions + [Run(0, 0)] + [Run(0, 0)] + [StartTimer(3)];
    ToSecondWaits(m, actions, sender, wire);
    actions := actions + [Submit(2)] + [Run(0, 0)] + [StartTimer(2)];
    ToTimedOut(m, actions, sender, wire);
    actions := actions + [Run(2, 0)] + [Run(2, 0)] + [Run(2, 0)];
    wire := wire + [RetSubmit(2, None)];
    PacketAndTimeout(p);
  }

  lemma ToSpoiledWire(m: Message) returns (actions: seq<Action>)
    requires Deliverable(m) && |Packets(m)| >= 2
    ensures var s, ps := Reached(actions), Packets(m);
            && s.past.accepted == [m]
            && Received(s.wire) == [ps[0]] + ps[1..] && ReportsOf(s.wire) == [ps[0]] + [Zeros()] + ps[1..]
  {
    var ps := Packets(m)[1..];
    AllWhole(m);
    var toTimeout, wire := ToTimeout(m);
    var toStored := ToAllStored(m, toTimeout, ps, [], wire);
    assert [] + ps == ps;
    actions := ToAllFetched(m, toStored, ps, wire, 3);
  }

  lemma AllWhole(m: Message)
    requires Deliverable(m)
    ensures Whole(Packets(m)) && |Packets(m)| <= 129 && |Packets(m)| >= 1
    ensures |Packets(m)[0]| == PACKET_SIZE && Whole(Packets(m)[1..])
  {
    PacketsShape(m);
    FewPackets(m);
    assert forall p <- Packets(m)[1..] :: p in Packets(m);
  }

  function NoCommands(n: nat): seq<Event> {
    seq(n, _ => Failed(ERR_INVALID_COMMAND))
  }

  lemma {:induction false} RestFails(ps: seq<Packet>)
    requires forall p <- ps :: Step(Idle, p) == (Idle, Failed(ERR_INVALID_COMMAND))
    ensures Events(Idle, ps) == NoCommands(|ps|)
    decreases |ps|
  {
    if ps != [] {
      assert ps[0] in ps && forall p <- ps[1..] :: p in ps;
      RestFails(ps[1..]);
    }
  }

  lemma FirstOpens(m: Message)
    requires Deliverable(m) && |Packets(m)| >= 2
    ensures var tx := After(Idle, Packets(m)[..1]); tx.Open? && tx.header.channel == m.channel
  {
    var p := Packets(m)[0];
    PacketLeads(m, 0);
    PacketsShape(m);
    assert Packets(m)[..0] == [] && OnChannel([p], m.channel);
    StepEndsOrAdvances(Idle, p, m.channel);
  }

  lemma SpoiledEvents(m: Message)
    requires Deliverable(m) && |Packets(m)| >= 2 && m.channel != 0
    ensures var ps := Packets(m);
            Events(Idle, [ps[0]] + [Zeros()] + ps[1..]) ==
              [Waiting] + [Failed(ERR_INVALID_CHANNEL)] + NoCommands(|ps| - 1)
  {
    var ps := Packets(m);
    assert ps[..1] == [ps[0]] && ps[..0] == [];
    PacketLeads(m, 0);
    FirstOpens(m);
    ZerosFail(After(Idle, ps[..1]));
    forall p <- ps[1..] ensures Step(Idle, p) == (Idle, Failed(ERR_INVALID_COMMAND)) {
      var j :| 0 <= j < |ps[1..]| && ps[1..][j] == p;
      NoCommand(m, j + 1);
    }
    RestFails(ps[1..]);
    Machines.One(Step, Idle, ps[0]);
    Machines.Append(Step, Idle, [ps[0]], Zeros());
    Machines.Split(Step, Idle, [ps[0]] + [Zeros()], ps[1..]);
  }

  /** A run that loses a message: any message of more than one packet, on any channel but
      0, with one request that times out between its packets. All its packets are
      written, and the host, putting together what it reads, gets an error for the report
      of zeros and one for each packet after it, and no message. */
  lemma TimeoutLosesMessage(m: Message) returns (actions: seq<Action>)
    requires Deliverable(m) && |Packets(m)| >= 2 && m.channel != 0
    ensures var s := Reached(actions);
            && s.past.accepted == [m] && Received(s.wire) == Packets(m)
            && Events(Idle, ReportsOf(s.wire)) ==
               [Waiting] + [Failed(ERR_INVALID_CHANNEL)] + NoCommands(|Packets(m)| - 1)
            && Messages(Events(Idle, ReportsOf(s.wire))) == []
  {
    var ps := Packets(m);
    assert ps == [ps[0]] + ps[1..];
    actions := ToSpoiledWire(m);
    SpoiledEvents(m);
    NoneFinished([Waiting] + [Failed(ERR_INVALID_CHANNEL)] + NoCommands(|ps| - 1));
  }

  lemma {:induction false} NoneFinished(es: seq<Event>)
    requires forall e <- es :: !e.Finalised?
    ensures Messages(es) == []
  {
    if es != [] {
      assert es[0] in es && forall e <- es[1..] :: e in es;
      NoneFinished(es[1..]);
    }
  }
}
