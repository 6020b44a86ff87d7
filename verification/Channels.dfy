/** The CTAPHID server of `ctap_hid.go` and `channel.go`: it sends each packet to the
    channel it names, allocates channels, and answers finished messages. */
module Channels {
  import opened Bytes
  import opened Framing
  import opened Transactions
  import opened Wrappers
  import Machines

  /** The server between packets. `down` is a process that a panic has ended. */
  datatype Server = Server(maxId: uint32, txs: map<uint32, Tx>, down: bool)

  /** What one packet led to. */
  datatype Report =
    | Handled(channel: uint32, event: Event)
    | Opened(event: Event, newId: uint32, nonce: seq<byte>)
    | Refused(channel: uint32)
    | Down

  const InitialServer := Server(0, map[BROADCAST := Idle], false)

  /** The eight bytes of an INIT nonce. The source slices the payload to eight bytes, and
      a Go slice may be extended to its capacity: a payload that was cut to less than
      eight bytes in its only packet is followed there by the rest of the packet. With
      less room than that the slicing panics. */
  function Nonce(only: bool, m: Packet, payload: seq<byte>): (r: Option<seq<byte>>)
    ensures r.Some? ==> |r.value| == 8
  {
    if |payload| >= 8 then Some(payload[..8])
    else if only && |m| >= 15 then Some(m[7..15])
    else None
  }

  /** The finished messages the dispatch panics on. */
  predicate Undispatchable(channel: uint32, h: Header, nonce: Option<seq<byte>>) {
    if channel == BROADCAST then
      h.command !in {CMD_INIT, CMD_PING} || (h.command == CMD_INIT && nonce.None?)
    else
      h.command !in {CMD_MSG, CMD_CBOR, CMD_PING}
  }

  function NextId(maxId: uint32): uint32 { (maxId + 1) % 0x1_0000_0000 }

  /** What a channel's event leads to, once the channel has stored its transaction. */
  function Dispatch(s: Server, c: uint32, e: Event, nonce: Option<seq<byte>>): (Server, Report) {
    if e == Crashed || (e.Finalised? && Undispatchable(c, e.header, nonce)) then (s.(down := true), Down)
    else if c == BROADCAST && e.Finalised? && e.header.command == CMD_INIT then
      var id := NextId(s.maxId);
      (s.(maxId := id, txs := s.txs[id := Idle]), Opened(e, id, nonce.value))
    else (s, Handled(c, e))
  }

  /** The nonce of the message an event finalises, if it does. */
  function NonceOf(tx: Tx, m: Packet, e: Event): Option<seq<byte>> {
    if e.Finalised? then Nonce(tx == Idle, m, e.payload) else None
  }

  /** One packet reaching the server. */
  function Serve(s: Server, m: Packet): (Server, Report) {
    if s.down || |m| < 4 then (s.(down := true), Down)
    else
      var c := FromLE32(m[..4]);
      if c !in s.txs then (s, Refused(c))
      else
        var (tx, e) := Step(s.txs[c], m);
        Dispatch(s.(txs := s.txs[c := tx]), c, e, NonceOf(s.txs[c], m, e))
  }

  lemma ServeDelivers(s: Server, m: Packet)
    requires !s.down && |m| >= 4 && FromLE32(m[..4]) in s.txs
    ensures var c := FromLE32(m[..4]);
            var (tx, e) := Step(s.txs[c], m);
            && Serve(s, m) == Dispatch(s.(txs := s.txs[c := tx]), c, e, NonceOf(s.txs[c], m, e))
            && (e == Crashed ==> Serve(s, m).1 == Down)
  {
  }

  /** The keepalives of one CBOR request: those sent while it is worked on, and whether
      one more was on its way when it was done and comes after the response. */
  datatype Ticks = Ticks(before: nat, late: bool)

  function Keepalive(c: uint32): Message {
    Message(c, CMD_KEEPALIVE, [2])
  }

  /** A response with the keepalives around it. */
  function KeptAlive(c: uint32, response: Message, ticks: Ticks): seq<Message> {
    seq(ticks.before, _ => Keepalive(c)) + [response] + if ticks.late then [Keepalive(c)] else []
  }

  /** The messages sent back. `app` answers U2F and CTAP requests. */
  function Replies(app: (byte, seq<byte>) -> seq<byte>, r: Report, ticks: Ticks): seq<Message> {
    match r
    case Handled(c, Failed(code)) => [Message(c, CMD_ERROR, [code])]
    case Handled(c, Finalised(h, payload)) =>
      if h.command == CMD_PING then [Message(h.channel, CMD_PING, payload)]
      else
        var response := Message(h.channel, h.command, app(h.command, payload));
        if h.command == CMD_CBOR then KeptAlive(c, response, ticks) else [response]
    case Handled(_, _) => []
    case Opened(_, id, nonce) => [Message(BROADCAST, CMD_INIT, nonce + ToLE32(id) + [2, 0, 0, 1, 4])]
    case Refused(c) => [Message(c, CMD_ERROR, [ERR_INVALID_CHANNEL])]
    case Down => []
  }

  // ---------------------------------------------------------- non-interference

  /** The channels are the broadcast channel and exactly 1..maxId, and each stores a
      transaction of its own. */
  ghost predicate WellFormed(s: Server) {
    && s.maxId < BROADCAST
    && (forall c: uint32 :: c in s.txs <==> c == BROADCAST || 1 <= c <= s.maxId)
    && (forall c <- s.txs :: TxOk(s.txs[c], c) && (s.txs[c].Dead? ==> s.down))
  }

  lemma InitialIsWellFormed()
    ensures WellFormed(InitialServer)
  {
  }

  /** An allocation gives an id no live channel has, exactly until 2^32 - 2 ids are out;
      the next one would be the broadcast id itself. */
  lemma NewChannelIsFreshIff(s: Server)
    requires WellFormed(s)
    ensures NextId(s.maxId) !in s.txs <==> s.maxId < 0xFFFF_FFFE
    ensures s.maxId == 0xFFFF_FFFE ==> NextId(s.maxId) == BROADCAST
  {
  }

  function Opens(rs: seq<Report>): nat {
    if rs == [] then 0 else (if rs[0].Opened? then 1 else 0) + Opens(rs[1..])
  }

  lemma ServeKeepsWellFormed(s: Server, m: Packet)
    requires WellFormed(s) && (Serve(s, m).1.Opened? ==> s.maxId < 0xFFFF_FFFE)
    ensures WellFormed(Serve(s, m).0)
    ensures Serve(s, m).0.maxId == s.maxId + if Serve(s, m).1.Opened? then 1 else 0
  {
    if !s.down && |m| >= 4 {
      var c := FromLE32(m[..4]);
      if c in s.txs {
        assert OnChannel([m], c);
        StepEndsOrAdvances(s.txs[c], m, c);
      }
    }
  }

  /** The packets addressed to a channel. */
  function Sub(ms: seq<Packet>, c: uint32): seq<Packet> {
    if ms == [] then []
    else (if |ms[0]| >= 4 && FromLE32(ms[0][..4]) == c then [ms[0]] else []) + Sub(ms[1..], c)
  }

  /** The events reported for a channel. */
  function EventsOf(rs: seq<Report>, c: uint32): seq<Event> {
    if rs == [] then []
    else
      (match rs[0]
       case Handled(d, e) => if d == c then [e] else []
       case Opened(e, _, _) => if c == BROADCAST then [e] else []
       case _ => [])
      + EventsOf(rs[1..], c)
  }

  lemma {:induction false} DownStays(s: Server, ms: seq<Packet>)
    requires s.down
    ensures Machines.Final(Serve, s, ms).down
    decreases |ms|
  {
    if ms != [] {
      DownStays(Serve(s, ms[0]).0, ms[1..]);
    }
  }

  lemma ServeOn(s: Server, m: Packet, c: uint32)
    requires WellFormed(s) && c in s.txs && !Serve(s, m).0.down
    requires Serve(s, m).1.Opened? ==> s.maxId < 0xFFFF_FFFE
    ensures |m| >= 4 && c in Serve(s, m).0.txs
    ensures EventsOf([Serve(s, m).1], c) ==
            if FromLE32(m[..4]) == c then [Step(s.txs[c], m).1] else []
    ensures Serve(s, m).0.txs[c] ==
            if FromLE32(m[..4]) == c then Step(s.txs[c], m).0 else s.txs[c]
  {
    NewChannelIsFreshIff(s);
    assert [Serve(s, m).1][1..] == [];
  }

  /** Channels do not interfere: however packets of many channels are interleaved, what
      a channel finalises, fails and cancels, and the transaction it is left with, are
      those of its own packets run alone. */
  lemma {:induction false} NonInterference(s: Server, ms: seq<Packet>, c: uint32)
    requires WellFormed(s) && c in s.txs
    requires s.maxId + Opens(Machines.Outputs(Serve, s, ms)) <= 0xFFFF_FFFE
    requires !Machines.Final(Serve, s, ms).down
    ensures WellFormed(Machines.Final(Serve, s, ms)) && c in Machines.Final(Serve, s, ms).txs
    ensures Machines.Final(Serve, s, ms).txs[c] == After(s.txs[c], Sub(ms, c))
    ensures EventsOf(Machines.Outputs(Serve, s, ms), c) == Events(s.txs[c], Sub(ms, c))
    decreases |ms|
  {
    if ms != [] {
      var (t, r) := Serve(s, ms[0]);
      if t.down {
        DownStays(t, ms[1..]);
      }
      var rs := Machines.Outputs(Serve, s, ms);
      var later := Sub(ms[1..], c);
      assert rs[0] == r && rs[1..] == Machines.Outputs(Serve, t, ms[1..]);
      ServeOn(s, ms[0], c);
      ServeKeepsWellFormed(s, ms[0]);
      NonInterference(t, ms[1..], c);
      assert EventsOf(rs, c) == EventsOf([r], c) + EventsOf(rs[1..], c) by {
        assert [r][1..] == [];
      }
      if FromLE32(ms[0][..4]) == c {
        assert Sub(ms, c) == [ms[0]] + later;
        Machines.Split(Step, s.txs[c], [ms[0]], later);
        Machines.One(Step, s.txs[c], ms[0]);
      } else {
        assert Sub(ms, c) == later;
      }
    }
  }

  // ------------------------------------- reordering over many channels at once

  predicate IsOn(p: Packet, c: uint32) {
    |p| >= 4 && FromLE32(p[..4]) == c
  }

  lemma {:induction false} SubAppend(a: seq<Packet>, b: seq<Packet>, c: uint32)
    ensures Sub(a + b, c) == Sub(a, c) + Sub(b, c)
  {
    if a == [] {
      assert a + b == b;
    } else {
      assert (a + b)[1..] == a[1..] + b;
      SubAppend(a[1..], b, c);
    }
  }

  lemma {:induction false} SubAll(ps: seq<Packet>, c: uint32, here: bool)
    requires forall p <- ps :: IsOn(p, c) <==> here
    ensures Sub(ps, c) == if here then ps else []
  {
    if ps != [] {
      assert ps[0] in ps && ps == [ps[0]] + ps[1..] && forall p <- ps[1..] :: p in ps;
      SubAll(ps[1..], c, here);
    }
  }

  lemma SubPackets(m: Message, c: uint32)
    requires m.payload != []
    ensures Sub(Packets(m), c) == if m.channel == c then Packets(m) else []
  {
    PacketsShape(m);
    SubAll(Packets(m), c, m.channel == c);
  }

  /** How often a channel's packets contain one: as often as all the packets do. */
  lemma {:induction false} SubCounts(ms: seq<Packet>, c: uint32, p: Packet)
    ensures multiset(Sub(ms, c))[p] == if IsOn(p, c) then multiset(ms)[p] else 0
  {
    if ms != [] {
      assert ms == [ms[0]] + ms[1..];
      SubCounts(ms[1..], c, p);
    }
  }

  lemma SamePacketsOn(q: seq<Packet>, all: seq<Packet>, c: uint32)
    requires multiset(q) == multiset(all)
    ensures multiset(Sub(q, c)) == multiset(Sub(all, c))
  {
    forall p: Packet ensures multiset(Sub(q, c))[p] == multiset(Sub(all, c))[p] {
      SubCounts(q, c, p);
      SubCounts(all, c, p);
    }
  }

  /** One message in flight on each channel. */
  predicate OnePerChannel(msgs: seq<Message>) {
    forall i, j :: 0 <= i < j < |msgs| ==> msgs[i].channel != msgs[j].channel
  }

  lemma SubFlattenFirst(m: Message, rest: seq<Message>, c: uint32)
    requires m.payload != []
    ensures Sub(Flatten([m] + rest), c) == (if m.channel == c then Packets(m) else []) + Sub(Flatten(rest), c)
  {
    assert ([m] + rest)[1..] == rest;
    SubAppend(Packets(m), Flatten(rest), c);
    SubPackets(m, c);
  }

  lemma {:induction false} SubNone(msgs: seq<Message>, c: uint32)
    requires forall m <- msgs :: m.payload != [] && m.channel != c
    ensures Sub(Flatten(msgs), c) == []
  {
    if msgs != [] {
      assert msgs == [msgs[0]] + msgs[1..] && msgs[0] in msgs && forall m <- msgs[1..] :: m in msgs;
      SubFlattenFirst(msgs[0], msgs[1..], c);
      SubNone(msgs[1..], c);
    }
  }

  lemma {:induction false} SubFlatten(msgs: seq<Message>, k: nat)
    requires k < |msgs| && OnePerChannel(msgs) && forall m <- msgs :: m.payload != []
    ensures Sub(Flatten(msgs), msgs[k].channel) == Packets(msgs[k])
  {
    var first, rest, c := msgs[0], msgs[1..], msgs[k].channel;
    assert msgs == [first] + rest && first in msgs && forall m <- rest :: m in msgs;
    SubFlattenFirst(first, rest, c);
    if k == 0 {
      SubNone(rest, c);
    } else {
      SubFlatten(rest, k - 1);
    }
  }

  /** Every packet has a goroutine of its own, so with one message in flight on each of
      many channels their packets reach the server in any order. Whatever the order, a
      channel finalises a message if and only if its own packets have kept theirs, and
      then it is the message that was sent. */
  lemma AnyOrderNeverCorrupts(s: Server, msgs: seq<Message>, k: nat, q: seq<Packet>)
    requires k < |msgs| && OnePerChannel(msgs) && forall i :: 0 <= i < |msgs| ==> Deliverable(msgs[i])
    requires multiset(q) == multiset(Flatten(msgs))
    requires WellFormed(s) && msgs[k].channel in s.txs && s.txs[msgs[k].channel] == Idle
    requires s.maxId + Opens(Machines.Outputs(Serve, s, q)) <= 0xFFFF_FFFE && !Machines.Final(Serve, s, q).down
    ensures var m := msgs[k];
            var es := EventsOf(Machines.Outputs(Serve, s, q), m.channel);
            && Deliverable(m)
            && ((exists i :: 0 <= i < |es| && es[i].Finalised?) <==> Sub(q, m.channel) == Packets(m))
            && (forall e <- es :: e.Finalised? ==> e == Completed(m))
  {
    var m := msgs[k];
    NonInterference(s, q, m.channel);
    SamePacketsOn(q, Flatten(msgs), m.channel);
    SubFlatten(msgs, k);
    ReorderingNeverCorrupts(m, Sub(q, m.channel));
  }

  // -------------------------------------------------------------- echo

  /** Serving the packets of one channel runs that channel. */
  lemma {:induction false} ServeOne(s: Server, ms: seq<Packet>, c: uint32)
    requires !s.down && c in s.txs && OnChannel(ms, c)
    requires forall e <- Events(s.txs[c], ms) :: e == Waiting
    ensures Machines.Final(Serve, s, ms) == s.(txs := s.txs[c := After(s.txs[c], ms)])
    ensures Machines.Outputs(Serve, s, ms) == seq(|ms|, _ => Handled(c, Waiting))
    decreases |ms|
  {
    if ms != [] {
      assert ms[0] in ms;
      var es := Events(s.txs[c], ms);
      assert es[0] in es && forall e <- es[1..] :: e in es;
      var t := Serve(s, ms[0]).0;
      ServeOne(t, ms[1..], c);
    }
  }

  lemma FrontAndLast(m: Message, front: seq<Packet>, last: Packet)
    requires Deliverable(m) && Packets(m) == front + [last]
    ensures Events(Idle, front) == Waits(|front|)
    ensures Step(After(Idle, front), last) == (Idle, Completed(m))
    ensures OnChannel(front, m.channel) && OnChannel([last], m.channel)
    ensures NonceOf(After(Idle, front), last, Completed(m)) == Some(Pad(m.payload, 8))
  {
    PacketsRun(m);
    Machines.Append(Step, Idle, front, last);
    assert Events(Idle, front) == Events(Idle, Packets(m))[..|front|];
    PacketsShape(m);
    forall p <- Packets(m) ensures OnChannel([p], m.channel) {
    }
    assert forall p <- front :: p in Packets(m);
    assert last in Packets(m);
    PaddedNonce(m, front, last);
  }

  lemma PaddedNonce(m: Message, front: seq<Packet>, last: Packet)
    requires Deliverable(m) && Packets(m) == front + [last]
    ensures NonceOf(After(Idle, front), last, Completed(m)) == Some(Pad(m.payload, 8))
  {
    assert |m.payload| >= 8 ==> m.payload[..8] == Pad(m.payload, 8);
    if |m.payload| < 8 {
      var chunk := m.payload[..|m.payload|];
      assert chunk == m.payload;
      assert Packets(m) == [InitPacket(m.channel, m.command, |m.payload|, chunk)];
      assert |front| == 0 && last == Packets(m)[0];
      PaddingFollows(ToLE32(m.channel) + [m.command] + ToBE16(|m.payload| % 0x1_0000), m.payload);
    }
  }

  lemma PaddingFollows(head: seq<byte>, body: seq<byte>)
    requires |head| == 7 && |body| < 8
    ensures Pad(head + body, PACKET_SIZE)[7..15] == Pad(body, 8)
  {
  }

  lemma ServeLast(s: Server, tx: Tx, m: Packet, c: uint32, e: Event)
    requires !s.down && c in s.txs && s.txs[c] == Idle && OnChannel([m], c)
    requires Step(tx, m) == (Idle, e)
    ensures Serve(s.(txs := s.txs[c := tx]), m) == Dispatch(s, c, e, NonceOf(tx, m, e))
  {
    assert m in [m];
    assert s.txs[c := tx][c := Idle] == s.txs;
  }

  /** The packets of a message, served to a channel at rest, are reported as waiting
      until the last one, which dispatches exactly the message that was sent; as an INIT
      nonce its payload is padded with zeroes to eight bytes, or cut to eight. */
  lemma MessageServed(s: Server, m: Message)
    requires !s.down && m.channel in s.txs && s.txs[m.channel] == Idle && Deliverable(m)
    ensures Packets(m) != []
    ensures Machines.Outputs(Serve, s, Packets(m)) ==
            seq(|Packets(m)| - 1, _ => Handled(m.channel, Waiting))
            + [Dispatch(s, m.channel, Completed(m), Some(Pad(m.payload, 8))).1]
    ensures Machines.Final(Serve, s, Packets(m)) == Dispatch(s, m.channel, Completed(m), Some(Pad(m.payload, 8))).0
  {
    var c, ps := m.channel, Packets(m);
    assert ps != [] by {
      PacketsRun(m);
    }
    var front, last := ps[..|ps| - 1], ps[|ps| - 1];
    assert ps == front + [last];
    FrontAndLast(m, front, last);
    ServeOne(s, front, c);
    ServeLast(s, After(Idle, front), last, c, Completed(m));
    Machines.Append(Serve, s, front, last);
  }

  /** A PING of 1 to 7609 bytes on a channel at rest is answered at its last packet and
      not before, and the packets of the answer put together give the PING back. */
  lemma PingEchoes(app: (byte, seq<byte>) -> seq<byte>, ticks: Ticks, s: Server, c: uint32, payload: seq<byte>)
    requires !s.down && c in s.txs && s.txs[c] == Idle
    requires 1 <= |payload| <= MAX_PAYLOAD
    ensures var ping := Message(c, CMD_PING, payload);
            var rs := Machines.Outputs(Serve, s, Packets(ping));
            && rs != []
            && (forall i :: 0 <= i < |rs| - 1 ==> Replies(app, rs[i], ticks) == [])
            && Replies(app, rs[|rs| - 1], ticks) == [ping]
            && Reassembles(ping)
  {
    var ping := Message(c, CMD_PING, payload);
    MessageServed(s, ping);
    ReassemblesIff(ping);
  }

  // --------------------------------------------------------------- the answers

  /** Keepalives of channel c and nothing else. */
  predicate Alive(c: uint32, msgs: seq<Message>) {
    forall m <- msgs :: m == Message(c, CMD_KEEPALIVE, [2])
  }

  /** The answer to an INIT: the nonce, then a channel of the server that is at rest, then
      the version and the capabilities. */
  predicate Allocates(t: Server, nonce: seq<byte>, answer: seq<byte>) {
    && |answer| == 17 && answer[..8] == nonce && answer[12..] == [2, 0, 0, 1, 4]
    && FromLE32(answer[8..12]) in t.txs && t.txs[FromLE32(answer[8..12])] == Idle
  }

  /** What the messages sent back tell the host: one error with its code, one PING, one
      answer to an INIT, or one response, with nothing but keepalives around it. */
  ghost predicate Tells(app: (byte, seq<byte>) -> seq<byte>, t: Server, r: Report, msgs: seq<Message>) {
    match r
    case Down => msgs == []
    case Refused(c) => msgs == [Message(c, CMD_ERROR, [ERR_INVALID_CHANNEL])]
    case Opened(_, id, nonce) =>
      exists answer :: msgs == [Message(BROADCAST, CMD_INIT, answer)] && Allocates(t, nonce, answer)
    case Handled(c, e) =>
      match e
      case Failed(code) => msgs == [Message(c, CMD_ERROR, [code])]
      case Finalised(h, payload) =>
        if h.command == CMD_PING then msgs == [Message(h.channel, CMD_PING, payload)]
        else
          exists before: seq<Message>, late: seq<Message> ::
            && msgs == before + [Message(h.channel, h.command, app(h.command, payload))] + late
            && Alive(c, before) && Alive(c, late) && |late| <= 1 && (h.command != CMD_CBOR ==> before + late == [])
      case _ => msgs == []
  }

  lemma ReplyTells(app: (byte, seq<byte>) -> seq<byte>, t: Server, r: Report, ticks: Ticks)
    requires r.Opened? ==> |r.nonce| == 8 && r.newId in t.txs && t.txs[r.newId] == Idle
    ensures Tells(app, t, r, Replies(app, r, ticks))
  {
    match r
    case Opened(_, id, nonce) =>
      var answer := nonce + ToLE32(id) + [2, 0, 0, 1, 4];
      LE32RoundTrip(id);
      assert answer[..8] == nonce && answer[8..12] == ToLE32(id) && answer[12..] == [2, 0, 0, 1, 4];
      assert Allocates(t, nonce, answer);
    case Handled(c, e) =>
      if e.Finalised? && e.header.command != CMD_PING {
        var response := Message(e.header.channel, e.header.command, app(e.header.command, e.payload));
        var before, late := [], [];
        if e.header.command == CMD_CBOR {
          before := seq(ticks.before, _ => Keepalive(c));
          late := if ticks.late then [Keepalive(c)] else [];
        }
        assert Replies(app, r, ticks) == before + [response] + late;
        assert Alive(c, before) && Alive(c, late);
      }
    case _ =>
  }

  ghost predicate SentTells(app: (byte, seq<byte>) -> seq<byte>, t: Server, r: Report, sent: seq<Packet>) {
    exists msgs :: sent == Flatten(msgs) && Tells(app, t, r, msgs)
  }

  lemma SentIsTold(app: (byte, seq<byte>) -> seq<byte>, t: Server, r: Report, ticks: Ticks, sent: seq<Packet>)
    requires r.Opened? ==> |r.nonce| == 8 && r.newId in t.txs && t.txs[r.newId] == Idle
    requires sent == Flatten(Replies(app, r, ticks))
    ensures SentTells(app, t, r, sent)
  {
    ReplyTells(app, t, r, ticks);
  }

  /** A report of a channel that was opened names it and its nonce. */
  lemma OpenedIs(s: Server, m: Packet)
    requires Serve(s, m).1.Opened?
    ensures var (t, r) := Serve(s, m); |r.nonce| == 8 && r.newId in t.txs && t.txs[r.newId] == Idle
  {
  }

  /** The reports of a whole message, up to its last packet, and the last one. */
  lemma ServedQuietly(app: (byte, seq<byte>) -> seq<byte>, ticks: Ticks, s: Server, m: Message)
    requires !s.down && m.channel in s.txs && s.txs[m.channel] == Idle && Deliverable(m)
    ensures var rs := Machines.Outputs(Serve, s, Packets(m));
            && rs != [] && (forall i :: 0 <= i < |rs| - 1 ==> Replies(app, rs[i], ticks) == [])
            && rs[|rs| - 1] == Dispatch(s, m.channel, Completed(m), Some(Pad(m.payload, 8))).1
  {
    MessageServed(s, m);
  }

  /** An INIT with any payload, on a broadcast channel at rest, is answered at its last
      packet and not before, by one message that gives back the first eight bytes of the
      payload, zeroes for those it lacks, and the id of a channel that is at rest and,
      while fewer than 2^32 - 2 ids are out, did not exist before. */
  lemma InitAnswered(app: (byte, seq<byte>) -> seq<byte>, ticks: Ticks, s: Server, payload: seq<byte>)
    returns (answer: seq<byte>)
    requires WellFormed(s) && !s.down && s.txs[BROADCAST] == Idle && 1 <= |payload| <= MAX_PAYLOAD
    ensures var init := Message(BROADCAST, CMD_INIT, payload);
            var rs, t := Machines.Outputs(Serve, s, Packets(init)), Machines.Final(Serve, s, Packets(init));
            && rs != [] && (forall i :: 0 <= i < |rs| - 1 ==> Replies(app, rs[i], ticks) == [])
            && Replies(app, rs[|rs| - 1], ticks) == [Message(BROADCAST, CMD_INIT, answer)]
            && Reassembles(Message(BROADCAST, CMD_INIT, answer))
            && |answer| == 17 && Allocates(t, answer[..8], answer)
            && (forall i :: 0 <= i < 8 ==> answer[i] == if i < |payload| then payload[i] else 0)
            && (s.maxId < 0xFFFF_FFFE ==> FromLE32(answer[8..12]) !in s.txs)
  {
    var init := Message(BROADCAST, CMD_INIT, payload);
    ServedQuietly(app, ticks, s, init);
    MessageServed(s, init);
    NewChannelIsFreshIff(s);
    var id, nonce := NextId(s.maxId), Pad(payload, 8);
    answer := nonce + ToLE32(id) + [2, 0, 0, 1, 4];
    LE32RoundTrip(id);
    assert answer[..8] == nonce && answer[8..12] == ToLE32(id) && answer[12..] == [2, 0, 0, 1, 4];
    ReassemblesIff(Message(BROADCAST, CMD_INIT, answer));
  }

  /** A U2F or CTAP request on an allocated channel at rest is answered at its last packet
      and not before, by the application's response to exactly that request, on the same
      channel, with the same command, and nothing but keepalives around it. */
  lemma RequestAnswered(
      app: (byte, seq<byte>) -> seq<byte>, ticks: Ticks, s: Server, c: uint32, command: byte, payload: seq<byte>)
    returns (before: seq<Message>, late: seq<Message>)
    requires !s.down && c in s.txs && s.txs[c] == Idle && c != BROADCAST
    requires command in {CMD_MSG, CMD_CBOR} && 1 <= |payload| <= MAX_PAYLOAD
    ensures var request := Message(c, command, payload);
            var rs := Machines.Outputs(Serve, s, Packets(request));
            && rs != [] && (forall i :: 0 <= i < |rs| - 1 ==> Replies(app, rs[i], ticks) == [])
            && Replies(app, rs[|rs| - 1], ticks) == before + [Message(c, command, app(command, payload))] + late
            && Alive(c, before) && Alive(c, late) && |late| <= 1 && (command == CMD_MSG ==> before + late == [])
            && Machines.Final(Serve, s, Packets(request)) == s
  {
    var request := Message(c, command, payload);
    ServedQuietly(app, ticks, s, request);
    MessageServed(s, request);
    before, late := [], [];
    if command == CMD_CBOR {
      before := seq(ticks.before, _ => Keepalive(c));
      late := if ticks.late then [Keepalive(c)] else [];
    }
  }

  /** A packet that fails is answered by one error with the code, on its channel, and a
      packet for a channel that does not exist by one error and nothing else. */
  lemma ErrorAnswered(app: (byte, seq<byte>) -> seq<byte>, ticks: Ticks, s: Server, m: Packet)
    requires !s.down && |m| >= 4
    ensures var c, (t, r) := FromLE32(m[..4]), Serve(s, m);
            && (c !in s.txs ==> t == s && Replies(app, r, ticks) == [Message(c, CMD_ERROR, [ERR_INVALID_CHANNEL])])
            && (c in s.txs && Step(s.txs[c], m).1.Failed? ==>
                  && Replies(app, r, ticks) == [Message(c, CMD_ERROR, [Step(s.txs[c], m).1.code])]
                  && t == s.(txs := s.txs[c := Idle]))
  {
  }

  /** A whole message ends the process exactly if its command is none that the channel
      takes: INIT and PING on the broadcast channel, U2F, CTAP and PING on the others. */
  lemma DownIff(s: Server, m: Message)
    requires !s.down && m.channel in s.txs && s.txs[m.channel] == Idle && Deliverable(m)
    ensures Machines.Final(Serve, s, Packets(m)).down <==>
            m.command !in (if m.channel == BROADCAST then {CMD_INIT, CMD_PING} else {CMD_MSG, CMD_CBOR, CMD_PING})
  {
    MessageServed(s, m);
  }

  // --------------------------------------------------------- the mutable server

  /** Whether a step has left a channel and its parts as they were. */
  twostate predicate Kept(d: Channel)
    requires old(d.Valid())
    reads d, d.Parts()
  {
    d.Valid() && d.view == old(d.view) && d.transaction == old(d.transaction) && d.Parts() == old(d.Parts())
  }

  twostate lemma StaysKept(d: Channel)
    requires old(d.Valid()) && unchanged(d)
    requires d.transaction != null ==> unchanged(d.transaction) && unchanged(d.transaction.result)
    ensures Kept(d)
  {
  }

  /** `CTAPHIDServer`. `txs` are the stored transactions, as values. */
  class CTAPHIDServer {
    var maxChannelID: uint32
    var channels: map<uint32, Channel>
    ghost var txs: map<uint32, Tx>
    ghost var Repr: set<object>

    ghost predicate Valid()
      reads this, Repr
      ensures Valid() ==> this in Repr
    {
      && this in Repr
      && txs.Keys == channels.Keys
      && (forall c <- channels :: Holds(c, channels[c], txs[c]))
    }

    /** A channel of the server, with the transaction it stores. */
    ghost predicate Holds(c: uint32, d: Channel, tx: Tx)
      reads this, Repr
    {
      && d in Repr && (d.transaction == null || d.transaction in Repr) && d.Parts() <= Repr
      && d.Valid() && d.channelId == c && d.view == tx
    }

    ghost function State(): Server
      reads this
    {
      Server(maxChannelID, txs, false)
    }

    constructor ()
      ensures Valid() && fresh(Repr) && State() == InitialServer
    {
      var broadcast := new Channel(BROADCAST);
      maxChannelID := 0;
      channels := map[BROADCAST := broadcast];
      txs := map[BROADCAST := Idle];
      Repr := {this, broadcast};
    }

    /** `newChannel`. */
    method NewChannel() returns (id: uint32)
      requires Valid()
      modifies this
      ensures Valid() && fresh(Repr - old(Repr))
      ensures id == NextId(old(maxChannelID))
      ensures State() == Server(id, old(txs)[id := Idle], false)
    {
      var channel := new Channel((maxChannelID + 1) % 0x1_0000_0000);
      maxChannelID := (maxChannelID + 1) % 0x1_0000_0000;
      id := channel.channelId;
      channels := channels[id := channel];
      txs := txs[id := Idle];
      Repr := Repr + {channel};
    }

    /** One packet into one channel; the other channels are untouched. */
    method Deliver(channelId: uint32, message: Packet) returns (event: Event, only: bool)
      requires Valid() && channelId in channels
      modifies channels[channelId], channels[channelId].Parts(), this`Repr, this`txs
      ensures event == Step(old(txs)[channelId], message).1 && (only <==> old(txs)[channelId] == Idle)
      ensures event != Crashed ==>
        && Valid() && fresh(Repr - old(Repr))
        && txs == old(txs)[channelId := Step(old(txs)[channelId], message).0]
    {
      var channel := channels[channelId];
      event, only := channel.HandleMessage(message);
      if event != Crashed {
        forall c <- channels | c != channelId ensures Holds(c, channels[c], txs[c]) {
          StaysKept(channels[c]);
        }
        Update(channelId);
      }
    }

    /** The server's view of a channel that has changed. */
    ghost method Update(channelId: uint32)
      requires this in Repr && txs.Keys == channels.Keys && channelId in channels
      requires forall c <- channels | c != channelId :: Holds(c, channels[c], txs[c])
      requires channels[channelId] in Repr && channels[channelId].Valid() && channels[channelId].channelId == channelId
      modifies this`Repr, this`txs
      ensures Valid() && Repr == old(Repr) + channels[channelId].Parts()
      ensures txs == old(txs)[channelId := channels[channelId].view]
    {
      var channel := channels[channelId];
      Repr := Repr + channel.Parts();
      txs := txs[channelId := channel.view];
    }

    /** A CBOR request: keepalives every 50 ms until the response is there. */
    static method AnswerCBOR(channelId: uint32, response: Message, ticks: Ticks) returns (sent: seq<Packet>)
      ensures sent == Flatten(KeptAlive(channelId, response, ticks))
    {
      sent := [];
      ghost var msgs := [];
      for i := 0 to ticks.before
        invariant msgs == seq(i, _ => Keepalive(channelId)) && sent == Flatten(msgs)
      {
        FlattenAppend(msgs, Keepalive(channelId));
        var packets := CreateResponsePackets(channelId, CMD_KEEPALIVE, [2]);
        msgs, sent := msgs + [Keepalive(channelId)], sent + packets;
      }
      FlattenAppend(msgs, response);
      var packets := CreateResponsePackets(response.channel, response.command, response.payload);
      msgs, sent := msgs + [response], sent + packets;
      if ticks.late {
        FlattenAppend(msgs, Keepalive(channelId));
        var late := CreateResponsePackets(channelId, CMD_KEEPALIVE, [2]);
        msgs, sent := msgs + [Keepalive(channelId)], sent + late;
      }
      assert msgs == KeptAlive(channelId, response, ticks);
    }

    /** The dispatch of `handleFinalizedMessage` and `handleMessage`, with the packets
        it has sent. */
    method Answer(
        channelId: uint32, event: Event, nonce: Option<seq<byte>>, app: (byte, seq<byte>) -> seq<byte>, ticks: Ticks)
      returns (report: Report, sent: seq<Packet>)
      requires Valid()
      modifies this
      ensures Valid() && fresh(Repr - old(Repr))
      ensures report == Dispatch(old(State()), channelId, event, nonce).1
      ensures report != Down ==> State() == Dispatch(old(State()), channelId, event, nonce).0
      ensures sent == Flatten(Replies(app, report, ticks))
    {
      report, sent := Handled(channelId, event), [];
      match event {
        case Waiting =>
        case Cancelled =>
        case Crashed => report := Down;
        case Failed(code) => sent := CreateResponsePackets(channelId, CMD_ERROR, [code]);
        case Finalised(header, payload) =>
          if Undispatchable(channelId, header, nonce) {
            report := Down;
          } else if channelId == BROADCAST && header.command == CMD_INIT {
            var id := NewChannel();
            report := Opened(event, id, nonce.value);
            sent := CreateResponsePackets(BROADCAST, CMD_INIT, nonce.value + ToLE32(id) + [2, 0, 0, 1, 4]);
          } else if header.command == CMD_PING {
            sent := CreateResponsePackets(header.channel, CMD_PING, payload);
          } else if header.command == CMD_CBOR {
            sent := AnswerCBOR(channelId, Message(header.channel, CMD_CBOR, app(CMD_CBOR, payload)), ticks);
          } else {
            sent := CreateResponsePackets(header.channel, header.command, app(header.command, payload));
          }
      }
      assert |Replies(app, report, ticks)| == 1 ==> Replies(app, report, ticks)[1..] == [];
    }

    /** `HandleMessage`. After a panic nothing is promised about the state. */
    method HandleMessage(message: Packet, app: (byte, seq<byte>) -> seq<byte>, ticks: Ticks)
      returns (report: Report, sent: seq<Packet>)
      requires Valid()
      modifies Repr
      ensures report == Serve(old(State()), message).1
      ensures sent == Flatten(Replies(app, report, ticks))
      ensures report != Down ==>
        Valid() && fresh(Repr - old(Repr)) && State() == Serve(old(State()), message).0
      ensures SentTells(app, State(), report, sent)
    {
      report, sent := Respond(message, app, ticks);
      if report.Opened? {
        OpenedIs(old(State()), message);
      }
      SentIsTold(app, State(), report, ticks, sent);
    }

    /** The same, against the reports and replies specified. */
    method Respond(message: Packet, app: (byte, seq<byte>) -> seq<byte>, ticks: Ticks)
      returns (report: Report, sent: seq<Packet>)
      requires Valid()
      modifies Repr
      ensures report == Serve(old(State()), message).1
      ensures sent == Flatten(Replies(app, report, ticks))
      ensures report != Down ==>
        Valid() && fresh(Repr - old(Repr)) && State() == Serve(old(State()), message).0
    {
      if |message| < 4 { return Down, []; }
      var channelId := FromLE32(message[..4]);
      if channelId !in channels {
        report := Refused(channelId);
        sent := CreateResponsePackets(channelId, CMD_ERROR, [ERR_INVALID_CHANNEL]);
        return;
      }
      ghost var before := State();
      var event, only := Deliver(channelId, message);
      ServeDelivers(before, message);
      if event == Crashed { return Down, []; }
      var nonce := if event.Finalised? then Nonce(only, message, event.payload) else None;
      report, sent := Answer(channelId, event, nonce, app, ticks);
    }
  }
}
