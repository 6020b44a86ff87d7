/** What the host reads for its interrupt-IN requests. A reply carries the whole transfer
    buffer, 64 bytes here, into which the response has been copied; a request that timed
    out is replied to with the zeroed buffer (`usbip_server.go`). */
module Reports {
  import opened Bytes
  import opened Framing
  import opened Delivery
  import opened DeliverySafety
  import opened EndToEnd
  import Machines

  /** The transfer buffer as it is made. */
  function Zeros(): Packet {
    Pad([], PACKET_SIZE)
  }

  /** The report that a reply to an interrupt-IN request carries. */
  function Report(r: Reply): seq<Packet> {
    if !r.RetSubmit? then []
    else [if r.data.Some? then Pad(r.data.value, PACKET_SIZE) else Zeros()]
  }

  function ReportsOf(wire: seq<Reply>): seq<Packet> {
    if wire == [] then [] else ReportsOf(wire[..|wire| - 1]) + Report(wire[|wire| - 1])
  }

  predicate IsTimeout(r: Reply) {
    r.RetSubmit? && r.data.None?
  }

  predicate NoTimeouts(wire: seq<Reply>) {
    forall r <- wire :: !IsTimeout(r)
  }

  predicate Whole(ps: seq<Packet>) {
    forall p <- ps :: |p| == PACKET_SIZE
  }

  lemma {:induction false} FlattenWhole(msgs: seq<Message>)
    ensures Whole(Flatten(msgs))
  {
    if msgs != [] {
      FlattenWhole(msgs[1..]);
      if msgs[0].payload != [] {
        PacketsShape(msgs[0]);
      }
    }
  }

  lemma ReceivedWhole(s: State)
    requires OrderOk(s)
    ensures Whole(Received(s.wire))
  {
    ReceivedPrefix(s);
    FlattenWhole(s.past.accepted);
    var got, all := Received(s.wire), Flatten(s.past.accepted);
    forall p <- got ensures |p| == PACKET_SIZE {
      assert got == all[..|got|];
      assert p in all;
    }
  }

  /** The non-nil data of a reply. */
  function DataOf(r: Reply): seq<Packet> {
    if r.RetSubmit? && r.data.Some? then [r.data.value] else []
  }

  lemma WholeSplit(a: seq<Packet>, b: seq<Packet>)
    ensures Whole(a + b) <==> Whole(a) && Whole(b)
  {
    assert forall p :: p in a + b <==> p in a || p in b;
  }

  lemma LastReceived(wire: seq<Reply>)
    requires wire != []
    ensures Received(wire) == Received(wire[..|wire| - 1]) + DataOf(wire[|wire| - 1])
  {
  }

  /** The reports and the data of one more reply. */
  lemma OneMore(wire: seq<Reply>)
    requires wire != [] && Whole(Received(wire))
    ensures var n := |wire| - 1;
            && ReportsOf(wire) == ReportsOf(wire[..n]) + Report(wire[n])
            && Received(wire) == Received(wire[..n]) + DataOf(wire[n])
            && Whole(Received(wire[..n])) && Whole(DataOf(wire[n]))
  {
    LastReceived(wire);
    WholeSplit(Received(wire[..|wire| - 1]), DataOf(wire[|wire| - 1]));
  }

  lemma PaddedIsWhole(r: Reply)
    requires Whole(DataOf(r))
    ensures r.RetSubmit? && r.data.Some? ==> Report(r) == [r.data.value]
  {
    if r.RetSubmit? && r.data.Some? {
      assert r.data.value in DataOf(r);
      var p := Pad(r.data.value, PACKET_SIZE);
      assert p[..PACKET_SIZE] == p;
    }
  }

  /** What one more reply adds to the data and the reports. */
  lemma OneReply(wire: seq<Reply>, r: Reply)
    requires Whole(DataOf(r))
    ensures Received(wire + [r]) == Received(wire) + DataOf(r)
    ensures ReportsOf(wire + [r]) == ReportsOf(wire) + if IsTimeout(r) then [Zeros()] else DataOf(r)
  {
    assert (wire + [r])[..|wire|] == wire;
    LastReceived(wire + [r]);
    PaddedIsWhole(r);
  }

  /** Without timeouts the host reads the data of the callbacks. */
  lemma {:induction false} ReportsAreData(wire: seq<Reply>)
    requires NoTimeouts(wire) && Whole(Received(wire))
    ensures ReportsOf(wire) == Received(wire)
  {
    if wire != [] {
      var n := |wire| - 1;
      assert wire[n] in wire && forall x <- wire[..n] :: x in wire;
      OneMore(wire);
      PaddedIsWhole(wire[n]);
      ReportsAreData(wire[..n]);
    }
  }

  // ------------------------------------------------------- a report of zeros

  lemma {:induction false} RunTxOk(tx: Tx, ms: seq<Packet>, c: uint32)
    requires TxOk(tx, c) && OnChannel(ms, c)
    ensures TxOk(After(tx, ms), c)
    decreases |ms|
  {
    if ms != [] {
      assert ms[0] in ms && OnChannel([ms[0]], c) && OnChannel(ms[1..], c);
      StepEndsOrAdvances(tx, ms[0], c);
      RunTxOk(Step(tx, ms[0]).0, ms[1..], c);
    }
  }

  /** Messages on channel 0, which no channel has, are errors of one packet. */
  predicate ShortOnZero(msgs: seq<Message>) {
    forall m <- msgs :: m.channel == 0 ==> |m.payload| <= INIT_ROOM
  }

  lemma PartIsOffZero(m: Message, part: seq<Packet>)
    requires Deliverable(m) && part < Packets(m) && (m.channel == 0 ==> |m.payload| <= INIT_ROOM)
    ensures After(Idle, part).Open? ==> After(Idle, part).header.channel != 0
  {
    PacketsShape(m);
    if m.channel == 0 {
      assert part == [];
    } else {
      forall p <- part ensures |p| >= 4 && FromLE32(p[..4]) == m.channel {
        var i :| 0 <= i < |part| && part[i] == p;
        assert p == Packets(m)[i];
      }
      RunTxOk(Idle, part, m.channel);
    }
  }

  /** Between any two packets of whole messages, the transaction under way, if there is
      one, is not of channel 0. */
  lemma {:induction false} PrefixIsOffZero(msgs: seq<Message>, got: seq<Packet>)
    requires (forall m <- msgs :: Deliverable(m)) && ShortOnZero(msgs) && got <= Flatten(msgs)
    ensures After(Idle, got).Open? ==> After(Idle, got).header.channel != 0
  {
    if msgs == [] {
      assert got == [];
    } else {
      var m, ps := msgs[0], Packets(msgs[0]);
      assert m in msgs && forall n <- msgs[1..] :: n in msgs;
      PrefixOfSum(got, ps, Flatten(msgs[1..]));
      if |got| < |ps| {
        PartIsOffZero(m, got);
      } else {
        PacketsRun(m);
        Machines.Split(Step, Idle, ps, got[|ps|..]);
        PrefixIsOffZero(msgs[1..], got[|ps|..]);
      }
    }
  }

  lemma ZerosParse()
    ensures |Zeros()| == PACKET_SIZE && FromLE32(Zeros()[..4]) == 0 && Zeros()[4] == 0
  {
  }

  /** A report of zeros fails any transaction but one of channel 0, and on a channel at
      rest it is an invalid command. */
  lemma ZerosFail(tx: Tx)
    requires tx.Open? ==> tx.header.channel != 0
    ensures Step(tx, Zeros()).1 == if tx.Open? then Failed(ERR_INVALID_CHANNEL)
                                 else if tx == Idle then Failed(ERR_INVALID_COMMAND) else Crashed
    ensures !tx.Dead? ==> Step(tx, Zeros()).0 == Idle
  {
    ZerosParse();
  }

  lemma {:induction false} ReportsAppend(a: seq<Reply>, b: seq<Reply>)
    ensures ReportsOf(a + b) == ReportsOf(a) + ReportsOf(b)
  {
    if b == [] {
      assert a + b == a;
    } else {
      var n := |b| - 1;
      assert (a + b)[..|a + b| - 1] == a + b[..n] && (a + b)[|a + b| - 1] == b[n];
      ReportsAppend(a, b[..n]);
    }
  }

  lemma Middle<T>(s: seq<T>, i: nat)
    requires i < |s|
    ensures s == s[..i] + [s[i]] + s[i + 1..]
  {
  }

  lemma ReportsOfOne(r: Reply)
    ensures ReportsOf([r]) == Report(r)
  {
    assert [r][..0] == [];
  }

  lemma ReportsSplit(wire: seq<Reply>, i: nat)
    requires i < |wire|
    ensures ReportsOf(wire[..i]) + Report(wire[i]) <= ReportsOf(wire)
  {
    var a, r, b := wire[..i], wire[i], wire[i + 1..];
    Middle(wire, i);
    ReportsAppend(a + [r], b);
    ReportsAppend(a, [r]);
    ReportsOfOne(r);
  }

  lemma DirtyAt(ps: seq<Packet>, before: seq<Packet>, p: Packet)
    requires before + [p] <= ps && Step(After(Idle, before), p).1 != Waiting && !Step(After(Idle, before), p).1.Finalised?
    ensures !Clean(Events(Idle, ps))
  {
    var i := |before|;
    assert ps[..i] == before && ps[i] == p;
    Machines.At(Step, Idle, ps, i);
    assert Events(Idle, ps)[i] in Events(Idle, ps);
  }

  lemma FirstTimeout(wire: seq<Reply>) returns (i: nat)
    requires !NoTimeouts(wire)
    ensures i < |wire| && IsTimeout(wire[i]) && NoTimeouts(wire[..i])
  {
    i := 0;
    while !IsTimeout(wire[i])
      invariant i < |wire| && NoTimeouts(wire[..i])
      invariant exists k :: i <= k < |wire| && IsTimeout(wire[k])
      decreases |wire| - i
    {
      assert wire[..i + 1] == wire[..i] + [wire[i]];
      i := i + 1;
    }
  }

  lemma {:induction false} ReceivedSplit(wire: seq<Reply>, i: nat)
    requires i <= |wire|
    ensures Received(wire[..i]) <= Received(wire)
    decreases |wire|
  {
    if i < |wire| {
      var n := |wire| - 1;
      assert wire[..n][..i] == wire[..i] && wire == wire[..n] + [wire[n]];
      ReceivedSplit(wire[..n], i);
      ReceivedAppend(wire[..n], wire[n]);
    } else {
      assert wire[..i] == wire;
    }
  }

  lemma TimeoutSpoils(s: State)
    requires OrderOk(s) && (forall m <- s.past.accepted :: Deliverable(m)) && ShortOnZero(s.past.accepted)
    requires !NoTimeouts(s.wire)
    ensures !Clean(Events(Idle, ReportsOf(s.wire)))
  {
    var i := FirstTimeout(s.wire);
    var before := Received(s.wire[..i]);
    ReceivedWhole(s);
    ReceivedPrefix(s);
    ReceivedSplit(s.wire, i);
    assert Whole(before) by {
      assert forall p <- before :: p in Received(s.wire);
    }
    ReportsAreData(s.wire[..i]);
    PrefixIsOffZero(s.past.accepted, before);
    ZerosFail(After(Idle, before));
    ReportsSplit(s.wire, i);
    DirtyAt(ReportsOf(s.wire), before, Zeros());
  }

  /** In every interleaving: what the host reads, all of it put together with the
      transaction code, gives no error exactly if no request has timed out. */
  lemma ReportsCleanIff(actions: seq<Action>)
    requires forall m <- Reached(actions).past.accepted :: Deliverable(m)
    requires ShortOnZero(Reached(actions).past.accepted)
    ensures var s := Reached(actions); Clean(Events(Idle, ReportsOf(s.wire))) <==> NoTimeouts(s.wire)
    ensures var s := Reached(actions);
            NoTimeouts(s.wire) ==> Messages(Events(Idle, ReportsOf(s.wire))) <= s.past.accepted
  {
    Reachable(actions);
    var s := Reached(actions);
    if NoTimeouts(s.wire) {
      ReceivedWhole(s);
      ReportsAreData(s.wire);
      CallbackDataIsPrefix(actions);
    } else {
      TimeoutSpoils(s);
    }
  }

  // ------------------------------------------------- a host that skips channel 0

  predicate OffZero(p: Packet) {
    |p| >= 4 && FromLE32(p[..4]) != 0
  }

  function Skipped(ps: seq<Packet>): seq<Packet> {
    if ps == [] then [] else Skipped(ps[..|ps| - 1]) + if OffZero(ps[|ps| - 1]) then [ps[|ps| - 1]] else []
  }

  function Elsewhere(msgs: seq<Message>): seq<Message> {
    if msgs == [] then [] else (if msgs[0].channel != 0 then [msgs[0]] else []) + Elsewhere(msgs[1..])
  }

  lemma {:induction false} SkippedSplit(a: seq<Packet>, b: seq<Packet>)
    ensures Skipped(a + b) == Skipped(a) + Skipped(b)
  {
    if b == [] {
      assert a + b == a;
    } else {
      var n := |b| - 1;
      assert (a + b)[..|a + b| - 1] == a + b[..n];
      SkippedSplit(a, b[..n]);
    }
  }

  lemma SkippedPrefix(got: seq<Packet>, all: seq<Packet>)
    requires got <= all
    ensures Skipped(got) <= Skipped(all)
  {
    assert all == got + all[|got|..];
    SkippedSplit(got, all[|got|..]);
  }

  lemma {:induction false} SkippedAll(ps: seq<Packet>, keep: bool)
    requires forall p <- ps :: OffZero(p) <==> keep
    ensures Skipped(ps) == if keep then ps else []
  {
    if ps != [] {
      var n := |ps| - 1;
      assert ps[n] in ps && ps == ps[..n] + [ps[n]] && forall p <- ps[..n] :: p in ps;
      SkippedAll(ps[..n], keep);
    }
  }

  lemma SkippedPackets(m: Message)
    requires m.payload != []
    ensures Skipped(Packets(m)) == if m.channel != 0 then Packets(m) else []
  {
    PacketsShape(m);
    SkippedAll(Packets(m), m.channel != 0);
  }

  lemma ElsewhereFirst(m: Message, rest: seq<Message>)
    ensures Flatten((if m.channel != 0 then [m] else []) + rest) ==
            (if m.channel != 0 then Packets(m) else []) + Flatten(rest)
  {
    if m.channel != 0 {
      assert ([m] + rest)[1..] == rest;
    } else {
      assert [] + rest == rest;
    }
  }

  lemma {:induction false} SkippedFlatten(msgs: seq<Message>)
    requires forall m <- msgs :: Deliverable(m)
    ensures Skipped(Flatten(msgs)) == Flatten(Elsewhere(msgs))
  {
    if msgs != [] {
      assert msgs[0] in msgs && forall m <- msgs[1..] :: m in msgs;
      SkippedSplit(Packets(msgs[0]), Flatten(msgs[1..]));
      SkippedPackets(msgs[0]);
      SkippedFlatten(msgs[1..]);
      ElsewhereFirst(msgs[0], Elsewhere(msgs[1..]));
    }
  }

  lemma {:induction false} ElsewhereIsPart(msgs: seq<Message>)
    ensures forall m <- Elsewhere(msgs) :: m in msgs
  {
    if msgs != [] {
      ElsewhereIsPart(msgs[1..]);
      assert forall m <- msgs[1..] :: m in msgs;
    }
  }

  lemma SkippedReport(r: Reply)
    requires Whole(DataOf(r))
    ensures Skipped(Report(r)) == Skipped(DataOf(r))
  {
    PaddedIsWhole(r);
    if IsTimeout(r) {
      ZerosParse();
      SkippedAll([Zeros()], false);
    }
  }

  lemma {:induction false} SkippedReports(wire: seq<Reply>)
    requires Whole(Received(wire))
    ensures Skipped(ReportsOf(wire)) == Skipped(Received(wire))
  {
    if wire != [] {
      var n := |wire| - 1;
      OneMore(wire);
      SkippedReports(wire[..n]);
      SkippedReport(wire[n]);
      SkippedSplit(ReportsOf(wire[..n]), Report(wire[n]));
      SkippedSplit(Received(wire[..n]), DataOf(wire[n]));
    }
  }

  /** In every interleaving, timeouts or not: a host that skips the reports of channel 0
      puts together, without an error, a prefix of the messages of the other channels. */
  lemma OffZeroReportsArePrefix(actions: seq<Action>)
    requires forall m <- Reached(actions).past.accepted :: Deliverable(m)
    ensures var s := Reached(actions);
            var read := Skipped(ReportsOf(s.wire));
            && read <= Flatten(Elsewhere(s.past.accepted))
            && Messages(Events(Idle, read)) <= Elsewhere(s.past.accepted)
            && Clean(Events(Idle, read))
  {
    Reachable(actions);
    var s := Reached(actions);
    ReceivedWhole(s);
    ReceivedPrefix(s);
    SkippedReports(s.wire);
    SkippedPrefix(Received(s.wire), Flatten(s.past.accepted));
    SkippedFlatten(s.past.accepted);
    ElsewhereIsPart(s.past.accepted);
    PrefixReassembles(Elsewhere(s.past.accepted), Skipped(Received(s.wire)));
  }
}
