/** CTAPHID packets: how a message is cut into 64-byte packets and how packets are
    put together again (section 8.1.4 of CTAP 2.0, "Message and packet structure").

    This module is the specification. The mutable transactions and channels of
    `Transactions` and `Channels` are proved against `Step`, and the packet-cutting
    loop against `Packets`. */
module Framing {
  import opened Bytes
  import Machines

  type Packet = seq<byte>

  const PACKET_SIZE := 64
  const INIT_ROOM := 57
  const CONT_ROOM := 59
  const MAX_PAYLOAD := 7609

  const BROADCAST: uint32 := 0xFFFF_FFFF

  const CMD_PING: byte := 0x81
  const CMD_MSG: byte := 0x83
  const CMD_INIT: byte := 0x86
  const CMD_CBOR: byte := 0x90
  const CMD_CANCEL: byte := 0x91
  const CMD_KEEPALIVE: byte := 0xBB
  const CMD_ERROR: byte := 0xBF

  const ERR_INVALID_COMMAND: byte := 0x01
  const ERR_INVALID_SEQUENCE: byte := 0x04
  const ERR_INVALID_CHANNEL: byte := 0x0B
  const ERR_OTHER: byte := 0x7F

  datatype Header = Header(channel: uint32, command: byte, length: uint16)

  /** What a sender hands to `sendResponse`. */
  datatype Message = Message(channel: uint32, command: byte, payload: seq<byte>)

  /** The transaction a channel holds: none, or one still waiting for packets. `Dead`
      is a process that a short packet has panicked. */
  datatype Tx = Idle | Open(header: Header, next: byte, payload: seq<byte>) | Dead

  datatype Event =
    | Waiting
    | Finalised(header: Header, payload: seq<byte>)
    | Failed(code: byte)
    | Cancelled
    | Crashed

  // ---------------------------------------------------------------- reassembly

  function Settle(h: Header, next: byte, payload: seq<byte>): (Tx, Event) {
    if |payload| >= h.length then (Idle, Finalised(h, payload[..h.length]))
    else (Open(h, next, payload), Waiting)
  }

  function Begin(m: Packet): (Tx, Event) {
    if |m| < 5 then (Dead, Crashed)
    else if m[4] < 0x80 then (Idle, Failed(ERR_INVALID_COMMAND))
    else if m[4] == CMD_CANCEL then (Idle, Cancelled)
    else if |m| < 7 then (Dead, Crashed)
    else Settle(Header(FromLE32(m[..4]), m[4], FromBE16(m[5..7])), 0, m[7..])
  }

  function Continue(h: Header, next: byte, got: seq<byte>, m: Packet): (Tx, Event) {
    if |m| < 4 then (Dead, Crashed)
    else if FromLE32(m[..4]) != h.channel then (Idle, Failed(ERR_INVALID_CHANNEL))
    else if |m| < 5 then (Dead, Crashed)
    else if m[4] == CMD_CANCEL then (Idle, Cancelled)
    else if m[4] >= 0x80 || m[4] != next then (Idle, Failed(ERR_INVALID_SEQUENCE))
    else Settle(h, (next + 1) % 0x100, got + m[5..])
  }

  /** One packet reaching a channel. */
  function Step(tx: Tx, m: Packet): (Tx, Event) {
    match tx
    case Idle => Begin(m)
    case Open(h, next, got) => Continue(h, next, got, m)
    case Dead => (Dead, Crashed)
  }

  function After(tx: Tx, ms: seq<Packet>): Tx {
    Machines.Final(Step, tx, ms)
  }

  function Events(tx: Tx, ms: seq<Packet>): seq<Event> {
    Machines.Outputs(Step, tx, ms)
  }

  // --------------------------------------------------- frames, declaratively

  ghost predicate IsInit(m: Packet, h: Header) {
    |m| >= 7 && m[4] >= 0x80 && m[4] != CMD_CANCEL &&
    h == Header(FromLE32(m[..4]), m[4], FromBE16(m[5..7]))
  }

  ghost predicate IsCont(m: Packet, channel: uint32, k: int) {
    |m| >= 5 && FromLE32(m[..4]) == channel && m[4] == k && k < 0x80
  }

  /** The bytes after the packet headers, in order. */
  ghost function Bodies(ms: seq<Packet>): seq<byte>
    requires ms != [] && |ms[0]| >= 7
    requires forall k :: 1 <= k < |ms| ==> |ms[k]| >= 5
  {
    if |ms| == 1 then ms[0][7..] else Bodies(ms[..|ms| - 1]) + ms[|ms| - 1][5..]
  }

  /** An init packet followed by continuations numbered 0, 1, 2, ... of its channel. */
  ghost predicate IsRun(ms: seq<Packet>, h: Header) {
    && ms != []
    && IsInit(ms[0], h)
    && forall k :: 1 <= k < |ms| ==> IsCont(ms[k], h.channel, k - 1)
  }

  /** A run that still lacks bytes. */
  ghost predicate IsPartial(ms: seq<Packet>, h: Header) {
    IsRun(ms, h) && |Bodies(ms)| < h.length
  }

  /** A run that first reaches its declared length with its last packet, and the
      payload it carries. */
  ghost predicate IsFrame(ms: seq<Packet>, h: Header, payload: seq<byte>) {
    && IsRun(ms, h)
    && (|ms| > 1 ==> IsPartial(ms[..|ms| - 1], h))
    && |Bodies(ms)| >= h.length
    && payload == Bodies(ms)[..h.length]
  }

  /** The events of packets that are taken in and complete nothing. */
  function Waits(n: nat): (es: seq<Event>)
    ensures |es| == n && forall i :: 0 <= i < n ==> es[i] == Waiting
  {
    seq(n, _ => Waiting)
  }

  lemma WaitsMore(n: nat, e: Event)
    ensures [Waiting] + (Waits(n) + [e]) == Waits(n + 1) + [e]
  {
  }

  /** The run without its last packet, and what that packet adds. */
  lemma PartialLess(part: seq<Packet>, m: Packet, h: Header)
    requires IsPartial(part + [m], h) && part != []
    ensures IsPartial(part, h) && IsCont(m, h.channel, |part| - 1) && Bodies(part + [m]) == Bodies(part) + m[5..]
  {
    var ms := part + [m];
    assert ms[..|part|] == part && ms[|part|] == m && ms[0] == part[0];
    assert forall k :: 1 <= k < |part| ==> ms[k] == part[k];
  }

  lemma {:induction false} PartialRuns(ms: seq<Packet>, h: Header)
    requires IsPartial(ms, h)
    ensures After(Idle, ms) == Open(h, |ms| - 1, Bodies(ms))
    ensures Events(Idle, ms) == Waits(|ms|)
  {
    var n := |ms| - 1;
    if n == 0 {
      assert ms == [ms[0]];
      Machines.One(Step, Idle, ms[0]);
    } else {
      var part, m := ms[..n], ms[n];
      assert ms == part + [m];
      PartialLess(part, m, h);
      PartialRuns(part, h);
      PartialMore(part, m, h, n - 1, Bodies(part));
    }
  }

  lemma PartialMore(part: seq<Packet>, m: Packet, h: Header, k: byte, got: seq<byte>)
    requires IsCont(m, h.channel, k) && |got + m[5..]| < h.length
    requires After(Idle, part) == Open(h, k, got) && Events(Idle, part) == Waits(|part|)
    ensures After(Idle, part + [m]) == Open(h, k + 1, got + m[5..])
    ensures Events(Idle, part + [m]) == Waits(|part| + 1)
  {
    assert Step(Open(h, k, got), m) == (Open(h, k + 1, got + m[5..]), Waiting);
    Machines.Append(Step, Idle, part, m);
  }

  /** A frame that starts on an idle channel is finalised by its last packet and not
      before, with the frame's header and payload, and leaves the channel idle. */
  lemma FrameCompletes(ms: seq<Packet>, h: Header, payload: seq<byte>)
    requires IsFrame(ms, h, payload)
    ensures After(Idle, ms) == Idle
    ensures Events(Idle, ms) == Waits(|ms| - 1) + [Finalised(h, payload)]
  {
    var n := |ms| - 1;
    if n == 0 {
      assert ms == [ms[0]];
      Machines.One(Step, Idle, ms[0]);
    } else {
      var part, m := ms[..n], ms[n];
      PartialRuns(part, h);
      assert IsCont(m, h.channel, n - 1);
      assert Step(After(Idle, part), m) == (Idle, Finalised(h, payload));
      assert ms == part + [m];
      Machines.Append(Step, Idle, part, m);
    }
  }

  /** The open transaction is what these packets, and no others, have made it. */
  ghost predicate MadeBy(tx: Tx, part: seq<Packet>) {
    && tx.Open? && IsPartial(part, tx.header)
    && tx.next == |part| - 1 && tx.payload == Bodies(part)
  }

  lemma MadeByFirst(m: Packet)
    requires Step(Idle, m).0.Open?
    ensures MadeBy(Step(Idle, m).0, [m])
  {
  }

  lemma MadeByMore(tx: Tx, part: seq<Packet>, m: Packet)
    requires MadeBy(tx, part) && Step(tx, m).0.Open?
    ensures MadeBy(Step(tx, m).0, part + [m])
  {
    ExtendsRun(part, m, tx.header);
  }

  /** Where an open transaction came from: some packet on an idle channel started it
      and every packet since was the next continuation. */
  lemma {:induction false} OpenOrigin(ms: seq<Packet>) returns (j: nat)
    requires After(Idle, ms).Open?
    ensures j < |ms| && After(Idle, ms[..j]) == Idle && MadeBy(After(Idle, ms), ms[j..])
  {
    var n := |ms| - 1;
    Machines.At(Step, Idle, ms, n);
    assert ms[..n + 1] == ms;
    if After(Idle, ms[..n]).Idle? {
      j := n;
      assert ms[j..] == [ms[n]];
      MadeByFirst(ms[n]);
    } else {
      j := OpenOrigin(ms[..n]);
      assert ms[..n][..j] == ms[..j];
      assert ms[j..] == ms[..n][j..] + [ms[n]];
      MadeByMore(After(Idle, ms[..n]), ms[..n][j..], ms[n]);
    }
  }

  lemma ExtendsRun(part: seq<Packet>, m: Packet, h: Header)
    requires IsRun(part, h) && IsCont(m, h.channel, |part| - 1)
    ensures IsRun(part + [m], h) && Bodies(part + [m]) == Bodies(part) + m[5..]
  {
    var f := part + [m];
    assert f[..|part|] == part && f[|part|] == m;
    forall k | 1 <= k < |f| ensures IsCont(f[k], h.channel, k - 1) {
      if k < |part| {
        assert IsCont(part[k], h.channel, k - 1);
      }
    }
  }

  /** Packet j meets a channel at rest: it is the first one, or the packet before it
      completed, failed or cancelled a transaction. */
  ghost predicate AtRest(ms: seq<Packet>, j: nat)
    requires j <= |ms|
  {
    j == 0 || Events(Idle, ms)[j - 1] !in {Waiting, Crashed}
  }

  lemma AtRestIffIdle(ms: seq<Packet>, j: nat)
    requires j <= |ms|
    ensures AtRest(ms, j) <==> After(Idle, ms[..j]) == Idle
  {
    if j > 0 {
      Machines.At(Step, Idle, ms, j - 1);
    }
  }

  /** Packets j..i of the stream, starting on a channel at rest, are a frame. */
  ghost predicate FrameAt(ms: seq<Packet>, j: nat, i: nat, h: Header, payload: seq<byte>)
    requires j <= i < |ms|
  {
    AtRest(ms, j) && IsFrame(ms[j..i + 1], h, payload)
  }

  lemma FinalisedHasFrame(ms: seq<Packet>, i: nat, h: Header, payload: seq<byte>) returns (j: nat)
    requires i < |ms| && Events(Idle, ms)[i] == Finalised(h, payload)
    ensures j <= i && FrameAt(ms, j, i, h, payload)
  {
    Machines.At(Step, Idle, ms, i);
    if After(Idle, ms[..i]).Idle? {
      j := i;
      assert ms[i..i + 1] == [ms[i]];
    } else {
      j := OpenOrigin(ms[..i]);
      assert ms[..i][..j] == ms[..j];
      ExtendsToFrame(ms[..i][j..], ms[i], After(Idle, ms[..i]).header, payload);
      assert ms[j..i + 1] == ms[..i][j..] + [ms[i]];
    }
    AtRestIffIdle(ms, j);
  }

  lemma ExtendsToFrame(part: seq<Packet>, m: Packet, h: Header, payload: seq<byte>)
    requires IsPartial(part, h) && |part| <= 0x100
    requires Step(Open(h, |part| - 1, Bodies(part)), m).1 == Finalised(h, payload)
    ensures IsFrame(part + [m], h, payload)
  {
    ExtendsRun(part, m, h);
    assert (part + [m])[..|part|] == part;
  }

  lemma Slices(ms: seq<Packet>, j: nat, i: nat)
    requires j <= i < |ms|
    ensures ms[j..i + 1][..i - j] == ms[j..i] && ms[j..i + 1][i - j] == ms[i]
    ensures ms[..i] == ms[..j] + ms[j..i]
  {
  }

  lemma FrameFinalises(ms: seq<Packet>, j: nat, i: nat, h: Header, payload: seq<byte>)
    requires j <= i < |ms| && FrameAt(ms, j, i, h, payload)
    ensures Events(Idle, ms)[i] == Finalised(h, payload)
  {
    var f := ms[j..i + 1];
    AtRestIffIdle(ms, j);
    FrameCompletes(f, h, payload);
    Machines.At(Step, Idle, f, i - j);
    Machines.At(Step, Idle, ms, i);
    Slices(ms, j, i);
    Machines.Split(Step, Idle, ms[..j], ms[j..i]);
  }

  /** Exactly what a channel finalises, on any packet sequence whatever: packet i
      completes (h, payload) if and only if the packets since some point at which the
      channel was at rest form a frame for it. */
  lemma FinalisedIffFrame(ms: seq<Packet>, i: nat, h: Header, payload: seq<byte>)
    requires i < |ms|
    ensures Events(Idle, ms)[i] == Finalised(h, payload) <==>
            exists j: nat | j <= i :: FrameAt(ms, j, i, h, payload)
  {
    if Events(Idle, ms)[i] == Finalised(h, payload) {
      var j := FinalisedHasFrame(ms, i, h, payload);
    }
    forall j: nat | j <= i && FrameAt(ms, j, i, h, payload)
      ensures Events(Idle, ms)[i] == Finalised(h, payload)
    {
      FrameFinalises(ms, j, i, h, payload);
    }
  }

  // ------------------------------------------------- transactions always end

  /** What a transaction stored on a channel satisfies between packets. */
  ghost predicate TxOk(tx: Tx, channel: uint32) {
    tx.Open? ==>
      && tx.header.channel == channel
      && |tx.payload| < tx.header.length
      && tx.next <= 0x80
  }

  ghost predicate OnChannel(ms: seq<Packet>, channel: uint32) {
    forall m <- ms :: |m| >= 4 && FromLE32(m[..4]) == channel
  }

  /** One packet keeps the invariant, and either ends the open transaction or raises
      its sequence number by one; the `uint8` never wraps. */
  lemma StepEndsOrAdvances(tx: Tx, m: Packet, channel: uint32)
    requires TxOk(tx, channel) && OnChannel([m], channel)
    ensures TxOk(Step(tx, m).0, channel)
    ensures tx.Open? && Step(tx, m).0.Open? ==> Step(tx, m).0.next == tx.next + 1
    ensures tx.Open? && tx.next == 0x80 ==> !Step(tx, m).0.Open?
    ensures Step(tx, m).1 == Waiting <==> Step(tx, m).0.Open?
  {
    assert m in [m];
  }

  /** Which error a packet gets: at rest, one that is no command; in a transaction, one of
      another channel, or one out of sequence. */
  lemma FailsIff(tx: Tx, m: Packet, code: byte)
    requires |m| >= 5 && !tx.Dead?
    ensures Step(tx, m).1 == Failed(code) <==>
            if tx == Idle then code == 0x01 && m[4] < 0x80
            else if FromLE32(m[..4]) != tx.header.channel then code == 0x0B
            else code == 0x04 && m[4] != CMD_CANCEL && (m[4] >= 0x80 || m[4] != tx.next)
  {
  }

  /** So an open transaction ends within 129 - next further packets, whatever they
      are: no stream of packets keeps a channel open for good. */
  lemma {:induction false} TransactionsEnd(tx: Tx, ms: seq<Packet>, channel: uint32)
    requires TxOk(tx, channel) && tx.Open? && OnChannel(ms, channel)
    requires |ms| >= 129 - tx.next
    ensures exists i :: 0 <= i < 129 - tx.next && Events(tx, ms)[i] != Waiting
    decreases |ms|
  {
    assert ms[0] in ms && OnChannel([ms[0]], channel) && OnChannel(ms[1..], channel);
    StepEndsOrAdvances(tx, ms[0], channel);
    if Step(tx, ms[0]).0.Open? {
      TransactionsEnd(Step(tx, ms[0]).0, ms[1..], channel);
      var i :| 0 <= i < 129 - tx.next - 1 && Events(Step(tx, ms[0]).0, ms[1..])[i] != Waiting;
      assert Events(tx, ms)[i + 1] != Waiting;
    } else {
      assert Events(tx, ms)[0] != Waiting;
    }
  }

  lemma {:induction false} BodiesLength(ms: seq<Packet>)
    requires ms != [] && forall m <- ms :: |m| == PACKET_SIZE
    ensures |Bodies(ms)| == INIT_ROOM + CONT_ROOM * (|ms| - 1)
  {
    assert forall k :: 0 <= k < |ms| ==> ms[k] in ms;
    if |ms| > 1 {
      BodiesLength(ms[..|ms| - 1]);
    }
  }

  /** With 64-byte packets nothing above 57 + 128 * 59 = 7609 bytes is ever finalised. */
  lemma FinalisedBound(ms: seq<Packet>, i: nat)
    requires forall m <- ms :: |m| == PACKET_SIZE
    requires i < |ms| && Events(Idle, ms)[i].Finalised?
    ensures |Events(Idle, ms)[i].payload| <= MAX_PAYLOAD
  {
    var e := Events(Idle, ms)[i];
    var j := FinalisedHasFrame(ms, i, e.header, e.payload);
    var f := ms[j..i + 1];
    assert forall m <- f :: m in ms;
    BodiesLength(f);
    if |f| > 1 {
      assert IsCont(f[|f| - 1], e.header.channel, |f| - 2);
    }
  }

  // ------------------------------------------------------------ fragmentation

  function InitPacket(channel: uint32, command: byte, total: nat, chunk: seq<byte>): Packet {
    Pad(ToLE32(channel) + [command] + ToBE16(total % 0x1_0000) + chunk, PACKET_SIZE)
  }

  function ContPacket(channel: uint32, k: nat, chunk: seq<byte>): Packet {
    Pad(ToLE32(channel) + [k % 0x100] + chunk, PACKET_SIZE)
  }

  function Min(a: nat, b: nat): nat { if a < b then a else b }

  /** Continuation packets number k, k + 1, ... for the rest of a payload. */
  function ContPackets(channel: uint32, k: nat, rest: seq<byte>): seq<Packet>
    decreases |rest|
  {
    if rest == [] then []
    else
      var n := Min(CONT_ROOM, |rest|);
      [ContPacket(channel, k, rest[..n])] + ContPackets(channel, k + 1, rest[n..])
  }

  /** The packets of a message. An empty payload has none. */
  function Packets(m: Message): seq<Packet> {
    if m.payload == [] then []
    else
      var n := Min(INIT_ROOM, |m.payload|);
      [InitPacket(m.channel, m.command, |m.payload|, m.payload[..n])]
      + ContPackets(m.channel, 0, m.payload[n..])
  }

  /** The packets of several messages, one message after the other. */
  function Flatten(msgs: seq<Message>): seq<Packet> {
    if msgs == [] then [] else Packets(msgs[0]) + Flatten(msgs[1..])
  }

  lemma {:induction false} FlattenAppend(a: seq<Message>, m: Message)
    ensures Flatten(a + [m]) == Flatten(a) + Packets(m)
  {
    if a == [] {
      assert [m][1..] == [] && a + [m] == [m];
    } else {
      assert (a + [m])[1..] == a[1..] + [m];
      FlattenAppend(a[1..], m);
    }
  }

  function CeilDiv(a: nat, b: nat): nat
    requires b > 0
  {
    (a + b - 1) / b
  }

  lemma ContPacketParses(channel: uint32, k: nat, chunk: seq<byte>)
    requires |chunk| <= CONT_ROOM
    ensures var p := ContPacket(channel, k, chunk);
            && |p| == PACKET_SIZE && FromLE32(p[..4]) == channel && p[4] == k % 0x100
            && p[5..5 + |chunk|] == chunk
  {
    var raw := ToLE32(channel) + [k % 0x100] + chunk;
    var p := ContPacket(channel, k, chunk);
    assert p[..|raw|] == raw;
    assert p[..4] == raw[..4] == ToLE32(channel);
    assert p[5..5 + |chunk|] == raw[5..] == chunk;
    LE32RoundTrip(channel);
  }

  lemma InitPacketParses(m: Message, chunk: seq<byte>)
    requires |chunk| <= INIT_ROOM
    ensures var p := InitPacket(m.channel, m.command, |m.payload|, chunk);
            && |p| == PACKET_SIZE && FromLE32(p[..4]) == m.channel && p[4] == m.command
            && FromBE16(p[5..7]) == |m.payload| % 0x1_0000 && p[7..7 + |chunk|] == chunk
  {
    var raw := ToLE32(m.channel) + [m.command] + ToBE16(|m.payload| % 0x1_0000) + chunk;
    var p := InitPacket(m.channel, m.command, |m.payload|, chunk);
    assert p[..|raw|] == raw;
    assert p[..4] == raw[..4] == ToLE32(m.channel);
    assert p[5..7] == raw[5..7] == ToBE16(|m.payload| % 0x1_0000);
    assert p[7..7 + |chunk|] == raw[7..] == chunk;
    LE32RoundTrip(m.channel);
    BE16RoundTrip(|m.payload| % 0x1_0000);
  }

  lemma CeilStep(n: nat)
    requires n > 0
    ensures CeilDiv(n, CONT_ROOM) == 1 + CeilDiv(n - Min(CONT_ROOM, n), CONT_ROOM)
  {
  }

  lemma {:induction false} ContPacketsShape(channel: uint32, k: nat, rest: seq<byte>)
    ensures var ps := ContPackets(channel, k, rest);
            && |ps| == CeilDiv(|rest|, CONT_ROOM)
            && forall i :: 0 <= i < |ps| ==>
                 |ps[i]| == PACKET_SIZE && FromLE32(ps[i][..4]) == channel && ps[i][4] == (k + i) % 0x100
    decreases |rest|
  {
    if rest != [] {
      var n := Min(CONT_ROOM, |rest|);
      CeilStep(|rest|);
      ContPacketParses(channel, k, rest[..n]);
      ContPacketsShape(channel, k + 1, rest[n..]);
      var ps, later := ContPackets(channel, k, rest), ContPackets(channel, k + 1, rest[n..]);
      forall i | 1 <= i < |ps| ensures ps[i] == later[i - 1] {
      }
    }
  }

  /** Every packet is 64 bytes on the message's channel, and there are
      1 + ceil(max(0, len - 57) / 59) of them. */
  lemma PacketsShape(m: Message)
    requires m.payload != []
    ensures var ps := Packets(m);
            && |ps| == 1 + CeilDiv(if |m.payload| > INIT_ROOM then |m.payload| - INIT_ROOM else 0, CONT_ROOM)
            && forall i :: 0 <= i < |ps| ==>
                 && |ps[i]| == PACKET_SIZE && FromLE32(ps[i][..4]) == m.channel
                 && ps[i][4] == if i == 0 then m.command else (i - 1) % 0x100
  {
    var n := Min(INIT_ROOM, |m.payload|);
    InitPacketParses(m, m.payload[..n]);
    ContPacketsShape(m.channel, 0, m.payload[n..]);
    var ps := Packets(m);
    forall i | 1 <= i < |ps| ensures ps[i] == ContPackets(m.channel, 0, m.payload[n..])[i - 1] {
    }
  }

  lemma ContStep(h: Header, k: byte, got: seq<byte>, chunk: seq<byte>)
    requires |chunk| <= CONT_ROOM && |got| + |chunk| <= h.length
    requires |chunk| == CONT_ROOM || |got| + |chunk| == h.length
    ensures Step(Open(h, k, got), ContPacket(h.channel, k, chunk)) ==
            if k == CMD_CANCEL then (Idle, Cancelled)
            else if k >= 0x80 then (Idle, Failed(ERR_INVALID_SEQUENCE))
            else if |got| + |chunk| == h.length then (Idle, Finalised(h, got + chunk))
            else (Open(h, k + 1, got + chunk), Waiting)
  {
    var p := ContPacket(h.channel, k, chunk);
    ContPacketParses(h.channel, k, chunk);
    assert (got + p[5..])[..|got| + |chunk|] == got + p[5..5 + |chunk|];
    assert |chunk| == CONT_ROOM ==> p[5..5 + |chunk|] == p[5..];
  }

  ghost predicate ContsRunTo(h: Header, k: byte, got: seq<byte>, rest: seq<byte>)
    requires k <= 0x80
  {
    var ps := ContPackets(h.channel, k, rest);
    var es := Events(Open(h, k, got), ps);
    if |rest| <= CONT_ROOM * (0x80 - k) then
      && ps != []
      && es == Waits(|ps| - 1) + [Finalised(h, got + rest)]
      && After(Open(h, k, got), ps) == Idle
    else
      |ps| > 0x80 - k && es[0x80 - k] == Failed(ERR_INVALID_SEQUENCE)
  }

  lemma ContPacketsMore(channel: uint32, k: nat, chunk: seq<byte>, later: seq<byte>)
    requires |chunk| == CONT_ROOM && later != []
    ensures ContPackets(channel, k, chunk + later) == [ContPacket(channel, k, chunk)] + ContPackets(channel, k + 1, later)
  {
    var rest := chunk + later;
    assert rest[..CONT_ROOM] == chunk && rest[CONT_ROOM..] == later;
  }

  /** A run of one more packet at the front. */
  lemma ConsRun(tx: Tx, p: Packet, ps: seq<Packet>)
    ensures Events(tx, [p] + ps) == [Step(tx, p).1] + Events(Step(tx, p).0, ps)
    ensures After(tx, [p] + ps) == After(Step(tx, p).0, ps)
  {
    Machines.Split(Step, tx, [p], ps);
    Machines.One(Step, tx, p);
  }

  /** The first of several continuations. */
  lemma FirstConts(h: Header, k: byte, got: seq<byte>, chunk: seq<byte>, later: seq<byte>)
    requires k < 0x80 && |chunk| == CONT_ROOM && later != [] && |got| + |chunk| + |later| == h.length
    ensures var ps, ps' := ContPackets(h.channel, k, chunk + later), ContPackets(h.channel, k + 1, later);
            var tx, tx' := Open(h, k, got), Open(h, k + 1, got + chunk);
            && |ps| == |ps'| + 1
            && Events(tx, ps) == [Waiting] + Events(tx', ps') && After(tx, ps) == After(tx', ps')
  {
    ContStep(h, k, got, chunk);
    ContPacketsMore(h.channel, k, chunk, later);
    ConsRun(Open(h, k, got), ContPacket(h.channel, k, chunk), ContPackets(h.channel, k + 1, later));
  }

  lemma ContsRunMore(h: Header, k: byte, got: seq<byte>, chunk: seq<byte>, later: seq<byte>)
    requires k < 0x80 && |chunk| == CONT_ROOM && later != [] && |got| + |chunk| + |later| == h.length
    requires ContsRunTo(h, k + 1, got + chunk, later)
    ensures ContsRunTo(h, k, got, chunk + later)
  {
    FirstConts(h, k, got, chunk, later);
    var n := |ContPackets(h.channel, k + 1, later)|;
    if |later| <= CONT_ROOM * (0x80 - (k + 1)) {
      assert (got + chunk) + later == got + (chunk + later);
      WaitsMore(n - 1, Finalised(h, got + (chunk + later)));
    }
  }

  /** Continuations fed to the transaction they belong to: with enough sequence
      numbers left they complete it at the last packet; otherwise packet 128 fails. */
  lemma {:induction false} ContsRun(h: Header, k: byte, got: seq<byte>, rest: seq<byte>)
    requires k <= 0x80 && rest != [] && |got| + |rest| == h.length
    ensures ContsRunTo(h, k, got, rest)
    decreases |rest|
  {
    var n := Min(CONT_ROOM, |rest|);
    var chunk, later := rest[..n], rest[n..];
    assert rest == chunk + later;
    if k < 0x80 && later != [] {
      ContsRun(h, k + 1, got + chunk, later);
      ContsRunMore(h, k, got, chunk, later);
    } else {
      ContStep(h, k, got, chunk);
      var ps := ContPackets(h.channel, k, rest);
      assert ps[0] == ContPacket(h.channel, k, chunk);
      if later == [] {
        assert chunk == rest && ps == [ps[0]];
        Machines.One(Step, Open(h, k, got), ps[0]);
      }
    }
  }

  predicate Deliverable(m: Message) {
    1 <= |m.payload| <= MAX_PAYLOAD && m.command >= 0x80 && m.command != CMD_CANCEL
  }

  /** The event a whole message is finalised with. */
  function Completed(m: Message): Event
    requires |m.payload| < 0x1_0000
  {
    Finalised(Header(m.channel, m.command, |m.payload|), m.payload)
  }

  /** The packets of m put together to m: the last packet, and no earlier one,
      finalises the header and payload that were sent. */
  ghost predicate Reassembles(m: Message) {
    var es := Events(Idle, Packets(m));
    && es != []
    && (forall i :: 0 <= i < |es| - 1 ==> es[i] == Waiting)
    && es[|es| - 1].Finalised?
    && es[|es| - 1].payload == m.payload
    && es[|es| - 1].header.channel == m.channel
    && es[|es| - 1].header.command == m.command
    && es[|es| - 1].header.length == |m.payload|
  }

  lemma PacketsRun(m: Message)
    requires Deliverable(m)
    ensures var ps := Packets(m);
            && ps != []
            && Events(Idle, ps) == Waits(|ps| - 1) + [Completed(m)]
            && After(Idle, ps) == Idle
  {
    var n := Min(INIT_ROOM, |m.payload|);
    var chunk, later := m.payload[..n], m.payload[n..];
    var h := Header(m.channel, m.command, |m.payload|);
    var ps := Packets(m);
    InitPacketParses(m, chunk);
    assert ps[1..] == ContPackets(m.channel, 0, later);
    if later == [] {
      assert ps[0][7..][..h.length] == m.payload && ps == [ps[0]];
      Machines.One(Step, Idle, ps[0]);
    } else {
      assert ps[0][7..] == chunk;
      ContsRun(h, 0, chunk, later);
      assert chunk + later == m.payload;
    }
  }

  /** Fragment then reassemble is the identity exactly for payloads of 1 to 7609 bytes
      under a command with bit 7 set other than CANCEL. */
  lemma ReassemblesIff(m: Message)
    ensures Reassembles(m) <==> Deliverable(m)
  {
    var ps := Packets(m);
    if Deliverable(m) {
      PacketsRun(m);
    } else if m.payload != [] {
      var n := Min(INIT_ROOM, |m.payload|);
      InitPacketParses(m, m.payload[..n]);
      assert Events(Idle, ps)[0] == Begin(ps[0]).1;
      if m.command >= 0x80 && m.command != CMD_CANCEL && |m.payload| < 0x1_0000 {
        var h := Header(m.channel, m.command, |m.payload|);
        assert ps[0][7..] == m.payload[..n];
        assert Begin(ps[0]) == (Open(h, 0, m.payload[..n]), Waiting);
        ContsRun(h, 0, m.payload[..n], m.payload[n..]);
        assert ps[1..] == ContPackets(m.channel, 0, m.payload[n..]);
        assert Events(Idle, ps)[0x81] == Failed(ERR_INVALID_SEQUENCE);
      }
    }
  }

  // ------------------------------------------------------------- reordering

  /** Reordering never corrupts: however the packets of one message are permuted on
      their way to the channel, a message is finalised if and only if they arrived in
      the order they were sent, and it is then the message that was sent. */
  lemma ReorderingNeverCorrupts(m: Message, q: seq<Packet>)
    requires Deliverable(m) && multiset(q) == multiset(Packets(m))
    ensures (exists i :: 0 <= i < |q| && Events(Idle, q)[i].Finalised?) <==> q == Packets(m)
    ensures forall e <- Events(Idle, q) :: e.Finalised? ==> e == Completed(m)
  {
    var ps := Packets(m);
    PacketsRun(m);
    if q == ps {
      assert Events(Idle, q)[|q| - 1].Finalised?;
    }
    forall i | 0 <= i < |q| && Events(Idle, q)[i].Finalised? ensures q == ps {
      FinalisedInOrder(m, q, i);
    }
  }

  lemma FinalisedInOrder(m: Message, q: seq<Packet>, i: nat)
    requires Deliverable(m) && multiset(q) == multiset(Packets(m))
    requires i < |q| && Events(Idle, q)[i].Finalised?
    ensures q == Packets(m)
  {
    var e := Events(Idle, q)[i];
    var j := FinalisedHasFrame(q, i, e.header, e.payload);
    var f := q[j..i + 1];
    forall p <- f ensures p in Packets(m) {
      assert p in multiset(q);
    }
    FrameFollows(m, f, e.header, e.payload);
    assert |q| == |multiset(q)| == |Packets(m)| == |f|;
  }

  lemma PacketsDistinct(m: Message, p: Packet)
    requires Deliverable(m) && p in Packets(m)
    ensures |p| == PACKET_SIZE
    ensures p[4] >= 0x80 ==> p == Packets(m)[0]
    ensures p[4] < 0x80 ==> p[4] + 1 < |Packets(m)| && p == Packets(m)[p[4] + 1]
  {
    var ps := Packets(m);
    var i :| 0 <= i < |ps| && ps[i] == p;
    assert |p| == PACKET_SIZE && |ps| <= 0x81 && p[4] == if i == 0 then m.command else (i - 1) % 0x100 by {
      PacketsShape(m);
    }
  }

  /** A frame built from packets of m alone is all of them in order. */
  lemma FrameFollows(m: Message, f: seq<Packet>, h: Header, payload: seq<byte>)
    requires Deliverable(m) && IsFrame(f, h, payload)
    requires forall p <- f :: p in Packets(m)
    ensures f == Packets(m)
  {
    var ps := Packets(m);
    forall k | 0 <= k < |f| ensures k < |ps| && f[k] == ps[k] && |f[k]| == PACKET_SIZE {
      RunFollows(m, f, h, k);
    }
    InitHeader(m, h);
    FrameLength(f, h, payload);
    assert |f| == |ps| by {
      PacketsShape(m);
    }
  }

  lemma InitHeader(m: Message, h: Header)
    requires Deliverable(m) && IsInit(Packets(m)[0], h)
    ensures h == Header(m.channel, m.command, |m.payload|)
  {
    InitPacketParses(m, m.payload[..Min(INIT_ROOM, |m.payload|)]);
  }

  lemma RunFollows(m: Message, f: seq<Packet>, h: Header, k: nat)
    requires Deliverable(m) && IsRun(f, h) && k < |f| && f[k] in Packets(m)
    ensures k < |Packets(m)| && f[k] == Packets(m)[k] && |f[k]| == PACKET_SIZE
  {
    PacketsDistinct(m, f[k]);
    if k > 0 {
      assert IsCont(f[k], h.channel, k - 1);
    } else {
      assert IsInit(f[0], h);
    }
  }

  lemma FrameLength(f: seq<Packet>, h: Header, payload: seq<byte>)
    requires IsFrame(f, h, payload) && forall p <- f :: |p| == PACKET_SIZE
    ensures h.length > 0 ==>
      |f| == 1 + CeilDiv(if h.length > INIT_ROOM then h.length - INIT_ROOM else 0, CONT_ROOM)
  {
    BodiesLength(f);
    if |f| > 1 {
      BodiesLength(f[..|f| - 1]);
    }
  }
}
