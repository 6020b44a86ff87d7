/** Delivery and framing put together: the non-nil data given to the callbacks of
    interrupt-IN requests, put together with the transaction code, is a prefix of what was
    sent. What a timeout adds to that on the connection is in the module `Reports`. */
module EndToEnd {
  import opened Bytes
  import opened Framing
  import opened Ownership
  import opened Duties
  import opened Delivery
  import opened DeliverySafety
  import opened DeliveryAnswers
  import opened Wrappers
  import DeliveryProgress
  import Machines

  function MessageOf(e: Event): seq<Message> {
    if e.Finalised? then [Message(e.header.channel, e.header.command, e.payload)] else []
  }

  /** The messages a stream of events finalised. */
  function Messages(es: seq<Event>): seq<Message> {
    if es == [] then [] else MessageOf(es[0]) + Messages(es[1..])
  }

  lemma MessagesFirst(e: Event, es: seq<Event>)
    ensures Messages([e] + es) == MessageOf(e) + Messages(es)
  {
    assert ([e] + es)[1..] == es;
  }

  lemma Associates<T>(a: seq<T>, b: seq<T>, c: seq<T>)
    ensures a + (b + c) == a + b + c
  {
  }

  lemma {:induction false} MessagesSplit(a: seq<Event>, b: seq<Event>)
    ensures Messages(a + b) == Messages(a) + Messages(b)
  {
    if a == [] {
      assert a + b == b;
    } else {
      var e, es := a[0], a[1..];
      assert a == [e] + es && a + b == [e] + (es + b);
      MessagesFirst(e, es);
      MessagesFirst(e, es + b);
      MessagesSplit(es, b);
      Associates(MessageOf(e), Messages(es), Messages(b));
    }
  }

  lemma {:induction false} NoMessages(es: seq<Event>)
    requires forall e <- es :: e == Waiting
    ensures Messages(es) == []
  {
    if es != [] {
      assert es[0] in es && forall e <- es[1..] :: e in es;
      NoMessages(es[1..]);
    }
  }

  ghost predicate Clean(es: seq<Event>) {
    forall e <- es :: e == Waiting || e.Finalised?
  }

  lemma WholeMessage(m: Message)
    requires Deliverable(m)
    ensures Messages(Events(Idle, Packets(m))) == [m] && Clean(Events(Idle, Packets(m)))
  {
    PacketsRun(m);
    var front := Waits(|Packets(m)| - 1);
    MessagesSplit(front, [Completed(m)]);
    NoMessages(front);
    assert [Completed(m)][1..] == [];
  }

  lemma PartOfMessage(m: Message, part: seq<Packet>)
    requires Deliverable(m) && part < Packets(m)
    ensures Messages(Events(Idle, part)) == [] && Clean(Events(Idle, part))
  {
    PacketsRun(m);
    var ps := Packets(m);
    assert ps == part + ps[|part|..];
    Machines.Split(Step, Idle, part, ps[|part|..]);
    assert Events(Idle, part) == Events(Idle, ps)[..|part|];
    NoMessages(Events(Idle, part));
  }

  lemma MessageThen(m: Message, rest: seq<Packet>)
    requires Deliverable(m)
    ensures Messages(Events(Idle, Packets(m) + rest)) == [m] + Messages(Events(Idle, rest))
    ensures Clean(Events(Idle, rest)) ==> Clean(Events(Idle, Packets(m) + rest))
  {
    WholeMessage(m);
    PacketsRun(m);
    Machines.Split(Step, Idle, Packets(m), rest);
    MessagesSplit(Events(Idle, Packets(m)), Events(Idle, rest));
  }

  lemma PrefixOfSum<T>(got: seq<T>, a: seq<T>, b: seq<T>)
    requires got <= a + b
    ensures |got| < |a| ==> got < a
    ensures |got| >= |a| ==> got == a + got[|a|..] && got[|a|..] <= b
  {
    if |got| < |a| {
      assert got == (a + b)[..|got|] == a[..|got|];
    } else {
      assert b == (a + b)[|a|..] && got == (a + b)[..|got|];
    }
  }

  /** Any prefix of the packets of whole messages is put together to a prefix of the
      messages, without an error or a cancel; all the packets give all the messages. */
  lemma {:induction false} PrefixReassembles(msgs: seq<Message>, got: seq<Packet>)
    requires (forall m <- msgs :: Deliverable(m)) && got <= Flatten(msgs)
    ensures Messages(Events(Idle, got)) <= msgs
    ensures got == Flatten(msgs) ==> Messages(Events(Idle, got)) == msgs
    ensures Clean(Events(Idle, got))
  {
    if msgs == [] {
      assert got == [];
    } else {
      var m, ps := msgs[0], Packets(msgs[0]);
      assert m in msgs && forall n <- msgs[1..] :: n in msgs;
      PrefixOfSum(got, ps, Flatten(msgs[1..]));
      if |got| < |ps| {
        PartOfMessage(m, got);
      } else {
        var rest := got[|ps|..];
        PrefixReassembles(msgs[1..], rest);
        MessageThen(m, rest);
        assert msgs == [m] + msgs[1..];
      }
    }
  }

  ghost predicate Inv(s: State) {
    LocksOk(s) && OrderOk(s) && AnswersOk(s)
  }

  lemma InitialInv()
    ensures Inv(Initial)
  {
    assert Flatten([]) == [] && Received([]) == [];
  }

  lemma NextKeepsInv(s: State, a: Action)
    requires Inv(s)
    ensures Inv(Next(s, a).0)
  {
    if Enabled(s, a) {
      LocksKept(s, a);
      OrderKept(s, a);
      AnswersKept(s, a);
    }
  }

  /** The invariant of every interleaving. */
  lemma Reachable(actions: seq<Action>)
    ensures Inv(Reached(actions))
  {
    InitialInv();
    forall s: State, a: Action | Inv(s) ensures Inv(Next(s, a).0) {
      NextKeepsInv(s, a);
    }
    Machines.Preserved(Next, Inv, Initial, actions);
  }

  lemma HeadIsPrefix<T>(a: seq<T>, b: seq<T>, c: seq<T>, d: seq<T>, e: seq<T>)
    ensures a <= a + b + c + d + e
  {
  }

  lemma EmptyParts<T>(a: seq<T>, d: seq<T>)
    ensures a + [] + [] + d + [] == a + d
  {
  }

  lemma ReceivedPrefix(s: State)
    requires OrderOk(s)
    ensures Received(s.wire) <= Flatten(s.past.accepted)
  {
    HeadIsPrefix(Received(s.wire), Taken(ReaderPc(s)), InFlight(Holder(s)), s.buffer.responses, Unsent(Holder(s)));
  }

  /** In every interleaving, the non-nil data given to interrupt-IN requests is, in the
      order of their replies, a prefix of the packets of the messages in the order in
      which they took `responsesLock`. Put together with the transaction code it gives a
      prefix of those messages, with no error or cancel on the way. */
  lemma CallbackDataIsPrefix(actions: seq<Action>)
    requires forall m <- Reached(actions).past.accepted :: Deliverable(m)
    ensures var s := Reached(actions);
            var got := Received(s.wire);
            && got <= Flatten(s.past.accepted)
            && Messages(Events(Idle, got)) <= s.past.accepted
            && Clean(Events(Idle, got))
  {
    Reachable(actions);
    ReceivedPrefix(Reached(actions));
    PrefixReassembles(Reached(actions).past.accepted, Received(Reached(actions).wire));
  }

  /** In every interleaving: a request is resolved at most once, and it has been once its
      timer has run. RET_UNLINK carries ECONNRESET only for a request that this unlink
      resolved, and then no RET_SUBMIT for it is ever written, before or after. */
  lemma ResolvedOnce(actions: seq<Action>, id: uint32)
    requires id in Reached(actions).past.fates
    ensures var s := Reached(actions);
            && |s.past.fates[id]| <= 1
            && (id in s.past.fired ==> |s.past.fates[id]| == 1)
            && (RetUnlink(id, true) in s.wire ==>
                  s.past.fates[id] == [ByUnlink] && forall r <- s.wire :: !(r.RetSubmit? && r.id == id))
            && (forall d :: RetSubmit(id, d) in s.wire ==>
                  s.past.fates[id] == [if d.Some? then ByResponse else ByTimeout])
  {
    Reachable(actions);
    var s := Reached(actions);
    forall i | 0 <= i < |s.wire| && AnswerTo(s.wire[i]).Some? ensures Settled(s.past.fates, AnswerTo(s.wire[i]).value) {
      assert Answers(s.wire)[i] == AnswerTo(s.wire[i]);
    }
  }

  /** An unlink reports ECONNRESET exactly if its request has been submitted and nothing
      has resolved it yet, and it is then the unlink that resolves it. */
  lemma UnlinkResetIff(actions: seq<Action>, target: uint32, pick: uint32)
    requires var s := Reached(actions);
             READER in s.pcs && s.pcs[READER] == Reader(UnlinkLockBuffer(target)) && Enabled(s, Run(READER, pick))
    ensures var s := Reached(actions);
            var s' := Apply(s, Run(READER, pick));
            var unresolved := target in s.past.fates && s.past.fates[target] == [];
            && s'.pcs[READER] == Reader(UnlinkLockWire(target, unresolved))
            && (unresolved ==> s'.past.fates[target] == [ByUnlink])
  {
    Reachable(actions);
    assert UnresolvedAt(Reached(actions)) && Pending(ReaderPc(Reached(actions))).None?;
  }

  /** No two replies answer the same request. */
  lemma AnsweredOnce(actions: seq<Action>, i: nat, j: nat)
    requires i < j < |Reached(actions).wire|
    ensures var w := Reached(actions).wire;
            AnswerTo(w[i]).Some? && AnswerTo(w[j]).Some? ==> AnswerTo(w[i]).value.id != AnswerTo(w[j]).value.id
  {
    Reachable(actions);
    var answers := Answers(Reached(actions).wire);
    assert answers[i] == AnswerTo(Reached(actions).wire[i]) && answers[j] == AnswerTo(Reached(actions).wire[j]);
  }

  predicate Quiet(s: State) {
    forall t <- s.pcs :: if t == READER then s.pcs[t] == Reader(ReadNext) else s.pcs[t] == Done
  }

  /** When every thread has finished and the reader is back at the socket, every request
      ever submitted has been resolved once and its answer is on the wire. */
  lemma QuietAnswersAll(actions: seq<Action>, id: uint32)
    requires Quiet(Reached(actions)) && id in Reached(actions).past.fates
    ensures var s := Reached(actions);
            && |s.past.fates[id]| == 1
            && exists r :: r in s.wire && AnswerTo(r) == Some(Claim(id, s.past.fates[id][0]))
  {
    Reachable(actions);
    var s := Reached(actions);
    assert ReaderPc(s) == ReadNext;
    assert id in s.past.fired && id !in s.buffer.waiting;
    assert IsAnswered(Answers(s.wire), id);
    var i :| 0 <= i < |s.wire| && Answers(s.wire)[i].Some? && Answers(s.wire)[i].value.id == id;
    assert Settled(s.past.fates, Answers(s.wire)[i].value);
    assert s.wire[i] in s.wire && AnswerTo(s.wire[i]) == Answers(s.wire)[i];
  }

  /** And every accepted message has been written or is buffered for requests to come. */
  lemma QuietDeliversAll(actions: seq<Action>)
    requires Quiet(Reached(actions))
    ensures var s := Reached(actions);
            Flatten(s.past.accepted) == Received(s.wire) + s.buffer.responses && s.buffer.waiting == {}
  {
    Reachable(actions);
    var s := Reached(actions);
    EmptyParts(Received(s.wire), s.buffer.responses);
    forall id <- s.buffer.waiting ensures false {
      QuietAnswersAll(actions, id);
    }
  }

  /** In every interleaving, whichever waiters are picked, everything accepted is
      written, in flight or buffered, in order, without loss or duplicate; and there are
      never both waiting requests and buffered responses. */
  lemma Conservation(actions: seq<Action>)
    ensures var s := Reached(actions);
            && Flatten(s.past.accepted) ==
               Received(s.wire) + Taken(ReaderPc(s)) + InFlight(Holder(s)) + s.buffer.responses + Unsent(Holder(s))
            && (s.buffer.waiting == {} || s.buffer.responses == [])
  {
    Reachable(actions);
  }

  /** No interleaving deadlocks: a thread with something to do can step, or it waits,
      through a chain of lock holders that never closes into a ring, for a thread that
      can. */
  lemma NeverStuck(actions: seq<Action>, t: Tid) returns (chain: seq<Tid>, pick: uint32)
    requires t in Reached(actions).pcs && !DeliveryProgress.AtRest(Reached(actions).pcs[t])
    ensures chain != [] && chain[0] == t
    ensures forall k :: 0 <= k < |chain| - 1 ==> DeliveryProgress.WaitsFor(Reached(actions), chain[k], chain[k + 1])
    ensures Enabled(Reached(actions), Run(chain[|chain| - 1], pick))
    ensures !DeliveryProgress.WaitsFor(Reached(actions), chain[|chain| - 1], chain[0])
  {
    Reachable(actions);
    chain, pick := DeliveryProgress.SomeoneProgresses(Reached(actions), t);
    DeliveryProgress.NoCyclicWait(Reached(actions), chain);
  }
}
