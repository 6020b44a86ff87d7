/** Which messages a host loses that puts together all the reports it reads, timeouts
    included. */
module Losses {
  import opened Bytes
  import opened Framing
  import opened Delivery
  import opened DeliverySafety
  import opened EndToEnd
  import opened Reports
  import Machines

  // ----------------------------------------------------------- what gets through

  /** For each reply with data the timeout replies between it and the reply with data
      before it, and the timeout replies after the last one. */
  function Gaps(wire: seq<Reply>): (seq<nat>, nat) {
    if wire == [] then ([], 0)
    else
      var (gaps, late) := Gaps(wire[..|wire| - 1]);
      var r := wire[|wire| - 1];
      if IsTimeout(r) then (gaps, late + 1) else if DataOf(r) != [] then (gaps + [late], 0) else (gaps, late)
  }

  /** No timeout reply between the first reply and the last. */
  predicate Unbroken(gaps: seq<nat>) {
    forall i :: 1 <= i < |gaps| ==> gaps[i] == 0
  }

  /** The messages that have been written whole, with no timeout reply between their first
      packet and their last. */
  function Kept(msgs: seq<Message>, gaps: seq<nat>): seq<Message> {
    if msgs == [] then []
    else
      var n := |Packets(msgs[0])|;
      if |gaps| < n then []
      else (if Unbroken(gaps[..n]) then [msgs[0]] else []) + Kept(msgs[1..], gaps[n..])
  }

  lemma GapsMore(wire: seq<Reply>, r: Reply)
    ensures var (gaps, late) := Gaps(wire);
            Gaps(wire + [r]) == if IsTimeout(r) then (gaps, late + 1)
                                else if DataOf(r) != [] then (gaps + [late], 0) else (gaps, late)
  {
    assert (wire + [r])[..|wire|] == wire;
  }

  lemma {:induction false} GapsAppend(a: seq<Reply>, b: seq<Reply>)
    requires Gaps(a).1 == 0
    ensures Gaps(a + b) == (Gaps(a).0 + Gaps(b).0, Gaps(b).1)
  {
    if b == [] {
      assert a + b == a && Gaps(a).0 + [] == Gaps(a).0;
    } else {
      var front, r := b[..|b| - 1], b[|b| - 1];
      assert b == front + [r] && a + b == (a + front) + [r];
      GapsAppend(a, front);
      GapsMore(front, r);
      GapsMore(a + front, r);
      Associates(Gaps(a).0, Gaps(front).0, [Gaps(front).1]);
    }
  }

  lemma {:induction false} DataAppend(a: seq<Reply>, b: seq<Reply>)
    ensures Received(a + b) == Received(a) + Received(b)
  {
    if b == [] {
      assert a + b == a;
    } else {
      var front, r := b[..|b| - 1], b[|b| - 1];
      assert b == front + [r] && a + b == (a + front) + [r];
      DataAppend(a, front);
      ReceivedAppend(front, r);
      ReceivedAppend(a + front, r);
    }
  }

  lemma {:induction false} GapsPrefix(wire: seq<Reply>, k: nat)
    requires k <= |wire|
    ensures Gaps(wire[..k]).0 <= Gaps(wire).0
    decreases |wire|
  {
    if k < |wire| {
      var front, r := wire[..|wire| - 1], wire[|wire| - 1];
      assert wire == front + [r] && wire[..k] == front[..k];
      GapsPrefix(front, k);
      GapsMore(front, r);
    } else {
      assert wire[..k] == wire;
    }
  }

  predicate NoTimeoutBetween(wire: seq<Reply>, x: nat, y: nat)
    requires y <= |wire|
  {
    forall j :: x < j < y ==> !IsTimeout(wire[j])
  }

  /** No gap after that of packet p. */
  predicate Steady(gaps: seq<nat>, late: nat, p: nat) {
    late == 0 && forall i :: p < i < |gaps| ==> gaps[i] == 0
  }

  lemma SteadyMore(gaps: seq<nat>, late: nat, p: nat)
    requires p < |gaps|
    ensures Steady(gaps + [late], 0, p) <==> Steady(gaps, late, p)
  {
    var more := gaps + [late];
    assert more[|gaps|] == late && forall i :: 0 <= i < |gaps| ==> more[i] == gaps[i];
  }

  lemma OneFurther(wire: seq<Reply>, x: nat, y: nat)
    requires x < y < |wire|
    ensures NoTimeoutBetween(wire, x, y + 1) <==> NoTimeoutBetween(wire, x, y) && !IsTimeout(wire[y])
  {
  }

  lemma {:induction false} SteadyIff(wire: seq<Reply>, x: nat, y: nat)
    requires x < y <= |wire| && DataOf(wire[x]) != []
    ensures |Gaps(wire[..x]).0| < |Gaps(wire[..y]).0|
    ensures Steady(Gaps(wire[..y]).0, Gaps(wire[..y]).1, |Gaps(wire[..x]).0|) <==> NoTimeoutBetween(wire, x, y)
    decreases y
  {
    var front, r := wire[..y - 1], wire[y - 1];
    assert wire[..y] == front + [r];
    GapsMore(front, r);
    if y > x + 1 {
      SteadyIff(wire, x, y - 1);
      OneFurther(wire, x, y - 1);
      SteadyMore(Gaps(front).0, Gaps(front).1, |Gaps(wire[..x]).0|);
    }
  }

  /** What `Gaps` says of two replies with data, at x and at y: no gap up to the second
      exactly if no timeout reply is between them. */
  lemma GapsIff(wire: seq<Reply>, x: nat, y: nat)
    requires x < y < |wire| && DataOf(wire[x]) != [] && DataOf(wire[y]) != []
    ensures var gaps, p, q := Gaps(wire).0, |Gaps(wire[..x]).0|, |Gaps(wire[..y]).0|;
            p < q < |gaps| && (Steady(gaps[..q + 1], 0, p) <==> NoTimeoutBetween(wire, x, y))
  {
    SteadyIff(wire, x, y);
    SteadyMore(Gaps(wire[..y]).0, Gaps(wire[..y]).1, |Gaps(wire[..x]).0|);
    assert wire[..y + 1] == wire[..y] + [wire[y]];
    GapsMore(wire[..y], wire[y]);
    GapsPrefix(wire, y + 1);
    PrefixIs(Gaps(wire[..y + 1]).0, Gaps(wire).0);
  }

  lemma PrefixIs<T>(a: seq<T>, b: seq<T>)
    requires a <= b
    ensures a == b[..|a|]
  {
  }

  /** One more packet: the transaction and the messages. */
  lemma ReadMore(ps: seq<Packet>, p: Packet)
    ensures var (tx, e) := Step(After(Idle, ps), p);
            && After(Idle, ps + [p]) == tx
            && Messages(Events(Idle, ps + [p])) == Messages(Events(Idle, ps)) + MessageOf(e)
  {
    Machines.Append(Step, Idle, ps, p);
    var e := Step(After(Idle, ps), p).1;
    MessagesSplit(Events(Idle, ps), [e]);
    MessagesFirst(e, []);
    assert [e] == [e] + [];
  }

  /** Where the packets of a message lead: to its last packet nothing is finished, and a
      packet of it but the first is no command on a channel at rest. */
  lemma PacketLeads(m: Message, j: nat)
    requires Deliverable(m) && j < |Packets(m)|
    ensures var ps := Packets(m);
            && Step(After(Idle, ps[..j]), ps[j]) ==
               (After(Idle, ps[..j + 1]), if j == |ps| - 1 then Completed(m) else Waiting)
            && (j == |ps| - 1 ==> After(Idle, ps[..j + 1]) == Idle)
            && (j > 0 ==> Step(Idle, ps[j]) == (Idle, Failed(ERR_INVALID_COMMAND)))
  {
    var ps := Packets(m);
    PacketsRun(m);
    Machines.At(Step, Idle, ps, j);
    assert ps[..|ps|] == ps;
    if j > 0 {
      NoCommand(m, j);
    }
  }

  /** The packets of a deliverable message have sequence numbers below 128. */
  lemma FewPackets(m: Message)
    requires Deliverable(m)
    ensures |Packets(m)| <= 129
  {
    PacketsShape(m);
  }

  /** A packet whose fifth byte has bit 7 clear is no command. */
  lemma NotACommand(p: Packet)
    requires |p| == PACKET_SIZE && p[4] < 0x80
    ensures Step(Idle, p) == (Idle, Failed(ERR_INVALID_COMMAND))
  {
  }

  lemma PacketAt(m: Message, j: nat)
    requires m.payload != [] && 0 < j < |Packets(m)|
    ensures |Packets(m)[j]| == PACKET_SIZE && Packets(m)[j][4] == (j - 1) % 0x100
  {
    PacketsShape(m);
  }

  lemma Small(n: nat)
    requires n < 0x80
    ensures n % 0x100 == n
  {
  }

  lemma NoCommand(m: Message, j: nat)
    requires Deliverable(m) && 0 < j < |Packets(m)|
    ensures Step(Idle, Packets(m)[j]) == (Idle, Failed(ERR_INVALID_COMMAND))
  {
    FewPackets(m);
    PacketAt(m, j);
    Small(j - 1);
    NotACommand(Packets(m)[j]);
  }

  /** A report of zeros ends the transaction of a message that is under way. */
  lemma ZerosEnd(m: Message, j: nat)
    requires Deliverable(m) && j < |Packets(m)| && (m.channel == 0 ==> |m.payload| <= INIT_ROOM)
    ensures var (tx, e) := Step(After(Idle, Packets(m)[..j]), Zeros()); tx == Idle && MessageOf(e) == []
  {
    var part := Packets(m)[..j];
    assert part < Packets(m);
    PartIsOffZero(m, part);
    PacketLeads(m, j);
    ZerosFail(After(Idle, part));
  }

  /** What the host has made of the reports so far: its transaction, the messages it has
      put together, and the gaps. */
  datatype Reading = Reading(tx: Tx, got: seq<Message>, gaps: seq<nat>, late: nat)

  function ReadData(x: Reading, p: Packet): Reading {
    var (tx, e) := Step(x.tx, p);
    Reading(tx, x.got + MessageOf(e), x.gaps + [x.late], 0)
  }

  function ReadZeros(x: Reading): Reading {
    var (tx, e) := Step(x.tx, Zeros());
    Reading(tx, x.got + MessageOf(e), x.gaps, x.late + 1)
  }

  function Read(wire: seq<Reply>): Reading {
    if wire == [] then Reading(Idle, [], [], 0)
    else
      var x, r := Read(wire[..|wire| - 1]), wire[|wire| - 1];
      if IsTimeout(r) then ReadZeros(x) else if DataOf(r) != [] then ReadData(x, DataOf(r)[0]) else x
  }

  lemma ReadReply(wire: seq<Reply>, r: Reply)
    ensures var x := Read(wire);
            Read(wire + [r]) ==
              if IsTimeout(r) then ReadZeros(x) else if DataOf(r) != [] then ReadData(x, DataOf(r)[0]) else x
  {
    assert (wire + [r])[..|wire|] == wire;
  }

  lemma {:induction false} ReadIs(wire: seq<Reply>)
    requires Whole(Received(wire))
    ensures var reports := ReportsOf(wire);
            Read(wire) == Reading(After(Idle, reports), Messages(Events(Idle, reports)), Gaps(wire).0, Gaps(wire).1)
  {
    if wire != [] {
      var front, r := wire[..|wire| - 1], wire[|wire| - 1];
      assert wire == front + [r];
      OneMore(wire);
      ReadIs(front);
      ReadReply(front, r);
      GapsMore(front, r);
      OneReply(front, r);
      if IsTimeout(r) {
        ReadMore(ReportsOf(front), Zeros());
      } else if DataOf(r) != [] {
        ReadMore(ReportsOf(front), DataOf(r)[0]);
      } else {
        assert ReportsOf(front) + [] == ReportsOf(front);
      }
    }
  }

  /** After a part of a message and any timeouts: no message yet, and the transaction is
      under way if no timeout has come since the first packet. */
  ghost predicate PartRead(m: Message, j: nat, x: Reading)
    requires j <= |Packets(m)|
  {
    && |x.gaps| == j && x.got == []
    && x.tx == if Unbroken(x.gaps + [x.late]) then After(Idle, Packets(m)[..j]) else Idle
  }

  lemma TimeoutRead(m: Message, j: nat, x: Reading)
    requires Deliverable(m) && j < |Packets(m)| && (m.channel == 0 ==> |m.payload| <= INIT_ROOM)
    requires PartRead(m, j, x)
    ensures PartRead(m, j, ReadZeros(x))
  {
    ZerosEnd(m, j);
    ZerosFail(Idle);
    var more := x.gaps + [x.late + 1];
    if j > 0 {
      assert more[j] != 0;
    } else {
      assert Packets(m)[..j] == [];
    }
  }

  lemma UnbrokenMore(gaps: seq<nat>)
    requires gaps != []
    ensures Unbroken(gaps + [0]) <==> Unbroken(gaps)
  {
    assert forall i :: 0 <= i < |gaps| ==> (gaps + [0])[i] == gaps[i];
  }

  lemma PacketRead(m: Message, j: nat, x: Reading)
    requires Deliverable(m) && j < |Packets(m)| && PartRead(m, j, x)
    ensures var y := ReadData(x, Packets(m)[j]);
            && y.gaps == x.gaps + [x.late] && y.late == 0
            && if j < |Packets(m)| - 1 then PartRead(m, j + 1, y)
               else y.tx == Idle && y.got == if Unbroken(y.gaps) then [m] else []
  {
    PacketLeads(m, j);
    UnbrokenMore(x.gaps + [x.late]);
    assert j == 0 ==> Unbroken(x.gaps + [x.late]);
  }

  lemma OneTaken<T>(a: seq<T>, b: seq<T>, ps: seq<T>, j: nat)
    requires j <= |ps| && a + b == ps[..j] && |b| <= 1
    ensures if b == [] then a == ps[..j] else j > 0 && a == ps[..j - 1] && b == [ps[j - 1]]
  {
    if b == [] {
      assert a + b == a;
    } else {
      assert a == (a + b)[..j - 1] && b[0] == (a + b)[j - 1];
    }
  }

  lemma {:induction false} PartIsRead(m: Message, wire: seq<Reply>, j: nat)
    requires Deliverable(m) && (m.channel == 0 ==> |m.payload| <= INIT_ROOM)
    requires j < |Packets(m)| && Received(wire) == Packets(m)[..j]
    ensures PartRead(m, j, Read(wire))
  {
    if wire != [] {
      var front, r := wire[..|wire| - 1], wire[|wire| - 1];
      assert wire == front + [r];
      ReceivedAppend(front, r);
      ReadReply(front, r);
      OneTaken(Received(front), DataOf(r), Packets(m), j);
      if DataOf(r) != [] {
        PartIsRead(m, front, j - 1);
        PacketRead(m, j - 1, Read(front));
      } else {
        PartIsRead(m, front, j);
        TimeoutRead(m, j, Read(front));
      }
    }
  }

  /** The reply with the n-th packet. */
  lemma {:induction false} ReplyOf(wire: seq<Reply>, n: nat) returns (i: nat)
    requires n < |Received(wire)|
    ensures i < |wire| && Received(wire[..i]) == Received(wire)[..n] && DataOf(wire[i]) == [Received(wire)[n]]
  {
    var front, r := wire[..|wire| - 1], wire[|wire| - 1];
    assert wire == front + [r];
    ReceivedAppend(front, r);
    if n < |Received(front)| {
      i := ReplyOf(front, n);
      assert wire[..i] == front[..i];
    } else {
      i := |front|;
      assert Received(front) == Received(wire)[..n];
    }
  }

  lemma {:induction false} NoData(wire: seq<Reply>)
    requires Received(wire) == []
    ensures Read(wire).got == [] && Read(wire).tx == Idle
  {
    if wire != [] {
      var front, r := wire[..|wire| - 1], wire[|wire| - 1];
      assert wire == front + [r];
      ReceivedAppend(front, r);
      ReadReply(front, r);
      NoData(front);
      ZerosFail(Idle);
    }
  }

  /** The wire up to the last packet of a message. */
  lemma WholeIsRead(m: Message, wire: seq<Reply>, r: Reply, n: nat)
    requires Deliverable(m) && (m.channel == 0 ==> |m.payload| <= INIT_ROOM)
    requires n + 1 == |Packets(m)| && Received(wire) == Packets(m)[..n] && DataOf(r) == [Packets(m)[n]]
    ensures var x := Read(wire + [r]);
            |x.gaps| == n + 1 && x.late == 0 && x.tx == Idle && x.got == if Unbroken(x.gaps) then [m] else []
  {
    PartIsRead(m, wire, n);
    ReadReply(wire, r);
    PacketRead(m, n, Read(wire));
  }

  /** And the rest of it. */
  lemma FirstMessage(m: Message, wire: seq<Reply>) returns (front: seq<Reply>, r: Reply, rest: seq<Reply>)
    requires Deliverable(m) && Packets(m) <= Received(wire)
    ensures wire == front + [r] + rest && Received(front + [r]) == Packets(m)
    ensures var n := |Packets(m)| - 1; n >= 0 && Received(front) == Packets(m)[..n] && DataOf(r) == [Packets(m)[n]]
  {
    var n := |Packets(m)| - 1;
    PacketsRun(m);
    var i := ReplyOf(wire, n);
    front, r, rest := wire[..i], wire[i], wire[i + 1..];
    assert Received(wire)[..n] == Packets(m)[..n];
    ReceivedAppend(front, r);
  }

  /** A host at rest goes on as it started. */
  lemma ReadThen(a: seq<Reply>, b: seq<Reply>)
    requires Whole(Received(a)) && Whole(Received(b)) && Read(a).tx == Idle && Read(a).late == 0
    ensures Whole(Received(a + b))
    ensures Read(a + b).got == Read(a).got + Read(b).got && Read(a + b).gaps == Read(a).gaps + Read(b).gaps
  {
    DataAppend(a, b);
    WholeSplit(Received(a), Received(b));
    ReadIs(a);
    ReadIs(b);
    ReadIs(a + b);
    GapsAppend(a, b);
    ReportsAppend(a, b);
    Machines.Split(Step, Idle, ReportsOf(a), ReportsOf(b));
    MessagesSplit(Events(Idle, ReportsOf(a)), Events(Idle, ReportsOf(b)));
  }

  lemma KeptFirst(m: Message, rest: seq<Message>, gaps: seq<nat>, later: seq<nat>)
    requires |gaps| == |Packets(m)|
    ensures Kept([m] + rest, gaps + later) == (if Unbroken(gaps) then [m] else []) + Kept(rest, later)
  {
    assert ([m] + rest)[1..] == rest && (gaps + later)[..|gaps|] == gaps && (gaps + later)[|gaps|..] == later;
  }

  lemma {:induction false} ReadIsKept(msgs: seq<Message>, wire: seq<Reply>)
    requires (forall m <- msgs :: Deliverable(m)) && ShortOnZero(msgs) && Received(wire) <= Flatten(msgs)
    ensures Read(wire).got == Kept(msgs, Read(wire).gaps)
  {
    if msgs == [] {
      NoData(wire);
    } else {
      var m, rest, got := msgs[0], msgs[1..], Received(wire);
      var ps := Packets(m);
      assert msgs == [m] + rest && m in msgs && forall n <- rest :: n in msgs;
      PrefixOfSum(got, ps, Flatten(rest));
      if |got| < |ps| {
        assert got == ps[..|got|];
        PartIsRead(m, wire, |got|);
      } else {
        var front, r, b := FirstMessage(m, wire);
        var a := front + [r];
        WholeIsRead(m, front, r, |ps| - 1);
        DataAppend(a, b);
        assert Received(b) == got[|ps|..];
        ReadIsKept(rest, b);
        WholeParts(msgs, got, ps, Received(b));
        ReadThen(a, b);
        KeptFirst(m, rest, Read(a).gaps, Read(b).gaps);
      }
    }
  }

  lemma WholeParts(msgs: seq<Message>, got: seq<Packet>, a: seq<Packet>, b: seq<Packet>)
    requires got <= Flatten(msgs) && got == a + b
    ensures Whole(a) && Whole(b)
  {
    FlattenWhole(msgs);
    assert forall p <- got :: p in Flatten(msgs);
    WholeSplit(a, b);
  }

  /** For every wire whose data is a prefix of the packets of some messages: what the
      host puts together from all its reports are exactly the messages written whole with
      no timeout reply between their first packet and their last, in order. */
  lemma WhatIsRead(msgs: seq<Message>, wire: seq<Reply>)
    requires (forall m <- msgs :: Deliverable(m)) && ShortOnZero(msgs) && Received(wire) <= Flatten(msgs)
    ensures Messages(Events(Idle, ReportsOf(wire))) == Kept(msgs, Gaps(wire).0)
  {
    WholeParts(msgs, Received(wire), Received(wire), []);
    ReadIs(wire);
    ReadIsKept(msgs, wire);
  }

  /** In every interleaving, timeouts or not: the messages that the host puts together
      from the reports it reads. */
  lemma MessagesReadAre(actions: seq<Action>)
    requires forall m <- Reached(actions).past.accepted :: Deliverable(m)
    requires ShortOnZero(Reached(actions).past.accepted)
    ensures var s := Reached(actions);
            Messages(Events(Idle, ReportsOf(s.wire))) == Kept(s.past.accepted, Gaps(s.wire).0)
  {
    Reachable(actions);
    var s := Reached(actions);
    ReceivedPrefix(s);
    WhatIsRead(s.past.accepted, s.wire);
  }
}
