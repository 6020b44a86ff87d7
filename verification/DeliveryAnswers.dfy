/** Every interrupt-IN request is resolved once and answered once, whatever the
    interleaving of responses, timers and unlinks. */
module DeliveryAnswers {
  import opened Bytes
  import opened Ownership
  import opened Duties
  import opened Delivery
  import opened DeliverySafety
  import opened Wrappers

  /** The request a thread has resolved and not yet answered. */
  function Duty(pc: Pc): Option<Claim<Fate>> {
    match pc
    case Sender(SendLockWire(_, _, id)) => Some(Claim(id, ByResponse))
    case Sender(SendWrite(_, _, id)) => Some(Claim(id, ByResponse))
    case Reader(SubmitLockWire(id, _)) => Some(Claim(id, ByResponse))
    case Reader(SubmitWrite(id, _)) => Some(Claim(id, ByResponse))
    case Reader(UnlinkLockWire(id, reset)) => if reset then Some(Claim(id, ByUnlink)) else None
    case Reader(UnlinkWrite(id, reset)) => if reset then Some(Claim(id, ByUnlink)) else None
    case Timer(TimerLockWire(id)) => Some(Claim(id, ByTimeout))
    case Timer(TimerWrite(id)) => Some(Claim(id, ByTimeout))
    case _ => None
  }

  /** The request a reply answers: RET_SUBMIT with data or without, or RET_UNLINK with
      ECONNRESET for the request it cancelled. */
  function AnswerTo(r: Reply): Option<Claim<Fate>> {
    match r
    case RetSubmit(id, data) => Some(Claim(id, if data.Some? then ByResponse else ByTimeout))
    case RetUnlink(id, reset) => if reset then Some(Claim(id, ByUnlink)) else None
    case RetOther => None
  }

  function Answers(wire: seq<Reply>): seq<Option<Claim<Fate>>> {
    seq(|wire|, i requires 0 <= i < |wire| => AnswerTo(wire[i]))
  }

  /** The request the reader is about to hand to `Request`. */
  function Pending(r: ReadPc): Option<uint32> {
    if r.SubmitLockBuffer? then Some(r.id) else None
  }

  /** The submitted requests that are not resolved are the waiting ones and the one
      about to be handed over; no request is resolved twice. */
  ghost predicate Unresolved(fates: map<uint32, seq<Fate>>, waiting: set<uint32>, pending: Option<uint32>) {
    && (forall id: uint32 :: id in fates && fates[id] == [] <==> id in waiting || pending == Some(id))
    && (pending.Some? ==> pending.value !in waiting)
    && (forall id <- fates :: |fates[id]| <= 1)
  }

  predicate Submitting(r: ReadPc, id: uint32) {
    (r.SubmitLockBuffer? || r.SubmitLockWire? || r.SubmitWrite? || r.SubmitStartTimer?) && r.id == id
  }

  ghost predicate TimerSet(pcs: map<Tid, Pc>, id: uint32) {
    exists t :: t in pcs && pcs[t] == Timer(TimerLockBuffer(id))
  }

  ghost predicate UnresolvedAt(s: State) {
    Unresolved(s.past.fates, s.buffer.waiting, Pending(ReaderPc(s)))
  }

  /** Every submitted request has had its timer, has it running, or is about to get it. */
  ghost predicate Timed(pcs: map<Tid, Pc>, r: ReadPc, past: History) {
    && (forall id <- past.fates :: id in past.fired || Submitting(r, id) || TimerSet(pcs, id))
    && (forall id: uint32 :: Submitting(r, id) ==> id in past.fates)
    && (forall t <- pcs :: pcs[t].Timer? && pcs[t].timer.TimerLockBuffer? ==>
          pcs[t].timer.id in past.fates && Pending(r) != Some(pcs[t].timer.id))
    && (forall id <- past.fired :: id in past.fates && Pending(r) != Some(id))
  }

  ghost predicate AnswersOk(s: State) {
    && Pledged(s.pcs, Duty, Answers(s.wire), s.past.fates)
    && UnresolvedAt(s)
    && Timed(s.pcs, ReaderPc(s), s.past)
    && (forall id <- s.past.fired :: id !in s.buffer.waiting)
  }

  lemma AnswersAppend(wire: seq<Reply>, r: Reply)
    ensures Answers(wire + [r]) == Answers(wire) + [AnswerTo(r)]
  {
  }

  lemma TimerSetKept(pcs: map<Tid, Pc>, t: Tid, pc: Pc, id: uint32)
    requires TimerSet(pcs, id) && (t in pcs ==> pcs[t] != Timer(TimerLockBuffer(id)))
    ensures TimerSet(pcs[t := pc], id)
  {
    var u :| u in pcs && pcs[u] == Timer(TimerLockBuffer(id));
    assert u in pcs[t := pc] && pcs[t := pc][u] == pcs[u];
  }

  /** A step that is not a timer's cancellation and leaves the reader where it is. */
  lemma TimedKept(pcs: map<Tid, Pc>, r: ReadPc, past: History, past': History, t: Tid, pc: Pc)
    requires Timed(pcs, r, past) && !pc.Timer? && (t in pcs ==> !pcs[t].Timer? || !pcs[t].timer.TimerLockBuffer?)
    requires past'.fates.Keys == past.fates.Keys && past'.fired == past.fired
    ensures Timed(pcs[t := pc], r, past')
  {
    forall id | TimerSet(pcs, id) ensures TimerSet(pcs[t := pc], id) {
      TimerSetKept(pcs, t, pc, id);
    }
  }

  ghost predicate PledgedAt(s: State) {
    && Pledged(s.pcs, Duty, Answers(s.wire), s.past.fates)
    && (forall id <- s.buffer.waiting :: id in s.past.fates && s.past.fates[id] == [])
    && (forall id: uint32 :: Pending(ReaderPc(s)) == Some(id) ==> id in s.past.fates && s.past.fates[id] == [])
  }

  lemma SenderPledged(s: State, t: Tid, pick: uint32)
    requires Enabled(s, Run(t, pick)) && s.pcs[t].Sender?
    requires PledgedAt(s)
    ensures var s' := Apply(s, Run(t, pick)); Pledged(s'.pcs, Duty, Answers(s'.wire), s'.past.fates)
  {
    var pc' := Apply(s, Run(t, pick)).pcs[t];
    match s.pcs[t].send
    case SendLockBuffer(held, left) =>
      if s.buffer.waiting != {} {
        PledgedResolve(s.pcs, Duty, Answers(s.wire), s.past.fates, t, pc', Claim(pick, ByResponse));
      } else {
        PledgedIdle(s.pcs, Duty, Answers(s.wire), s.past.fates, t, pc');
      }
    case SendWrite(held, left, id) =>
      AnswersAppend(s.wire, RetSubmit(id, Some(left[0])));
      PledgedAnswer(s.pcs, Duty, Answers(s.wire), s.past.fates, t, pc');
    case _ =>
      PledgedIdle(s.pcs, Duty, Answers(s.wire), s.past.fates, t, pc');
  }

  lemma SenderUnresolved(s: State, t: Tid, pick: uint32)
    requires Enabled(s, Run(t, pick)) && s.pcs[t].Sender? && t != READER && UnresolvedAt(s)
    ensures var s' := Apply(s, Run(t, pick));
            UnresolvedAt(s') && ReaderPc(s') == ReaderPc(s)
            && s'.past.fates.Keys == s.past.fates.Keys && s'.past.fired == s.past.fired
            && s'.buffer.waiting <= s.buffer.waiting
  {
    assert ReaderPc(Apply(s, Run(t, pick))) == ReaderPc(s);
  }

  lemma SenderAnswers(s: State, t: Tid, pick: uint32)
    requires Enabled(s, Run(t, pick)) && s.pcs[t].Sender? && t != READER && AnswersOk(s)
    ensures AnswersOk(Apply(s, Run(t, pick)))
  {
    var s' := Apply(s, Run(t, pick));
    SenderPledged(s, t, pick);
    SenderUnresolved(s, t, pick);
    TimedKept(s.pcs, ReaderPc(s), s.past, s'.past, t, s'.pcs[t]);
  }

  lemma ReaderPledged(s: State, t: Tid, pick: uint32)
    requires Enabled(s, Run(t, pick)) && s.pcs[t].Reader? && t == READER
    requires PledgedAt(s)
    ensures var s' := Apply(s, Run(t, pick)); Pledged(s'.pcs, Duty, Answers(s'.wire), s'.past.fates)
  {
    var pc' := Apply(s, Run(t, pick)).pcs[t];
    var r, answers, fates := s.pcs[t].read, Answers(s.wire), s.past.fates;
    if r.SubmitLockBuffer? && s.buffer.responses != [] {
      PledgedResolve(s.pcs, Duty, answers, fates, t, pc', Claim(r.id, ByResponse));
    } else if r.UnlinkLockBuffer? && r.target in s.buffer.waiting {
      PledgedResolve(s.pcs, Duty, answers, fates, t, pc', Claim(r.target, ByUnlink));
    } else if r.SubmitWrite? || r.UnlinkWrite? || r.OtherWrite? {
      ReaderReplies(s, t, pick);
    } else {
      PledgedIdle(s.pcs, Duty, answers, fates, t, pc');
    }
  }

  lemma ReaderReplies(s: State, t: Tid, pick: uint32)
    requires Enabled(s, Run(t, pick)) && s.pcs[t].Reader? && t == READER
    requires s.pcs[t].read.SubmitWrite? || s.pcs[t].read.UnlinkWrite? || s.pcs[t].read.OtherWrite?
    requires PledgedAt(s)
    ensures var s' := Apply(s, Run(t, pick)); Pledged(s'.pcs, Duty, Answers(s'.wire), s'.past.fates)
  {
    var s' := Apply(s, Run(t, pick));
    var answers, fates := Answers(s.wire), s.past.fates;
    var reply := s'.wire[|s.wire|];
    AnswersAppend(s.wire, reply);
    if AnswerTo(reply).Some? {
      PledgedAnswer(s.pcs, Duty, answers, fates, t, s'.pcs[t]);
    } else {
      PledgedNoise(s.pcs, Duty, answers, fates);
      PledgedIdle(s.pcs, Duty, answers + [None], fates, t, s'.pcs[t]);
    }
  }

  /** The reader moves on with the same request, or with none once its timer is set. */
  lemma ReaderTimed(pcs: map<Tid, Pc>, r: ReadPc, r': ReadPc, past: History, past': History)
    requires READER in pcs && pcs[READER] == Reader(r) && Timed(pcs, r, past)
    requires past'.fates.Keys == past.fates.Keys && past'.fired == past.fired
    requires forall id: uint32 :: Submitting(r, id) <==> Submitting(r', id)
    requires Pending(r').None?
    ensures Timed(pcs[READER := Reader(r')], r', past')
  {
    forall id | TimerSet(pcs, id) ensures TimerSet(pcs[READER := Reader(r')], id) {
      TimerSetKept(pcs, READER, Reader(r'), id);
    }
  }

  lemma ReaderUnresolved(s: State, t: Tid, pick: uint32)
    requires Enabled(s, Run(t, pick)) && s.pcs[t].Reader? && t == READER && UnresolvedAt(s)
    ensures var s' := Apply(s, Run(t, pick));
            UnresolvedAt(s') && Pending(ReaderPc(s')).None?
            && s'.past.fates.Keys == s.past.fates.Keys && s'.past.fired == s.past.fired
            && forall id <- s'.buffer.waiting :: id in s.buffer.waiting || Pending(ReaderPc(s)) == Some(id)
  {
  }

  lemma ReaderAnswers(s: State, t: Tid, pick: uint32)
    requires Enabled(s, Run(t, pick)) && s.pcs[t].Reader? && t == READER && AnswersOk(s)
    ensures AnswersOk(Apply(s, Run(t, pick)))
  {
    var s' := Apply(s, Run(t, pick));
    ReaderPledged(s, t, pick);
    ReaderUnresolved(s, t, pick);
    ReaderTimed(s.pcs, ReaderPc(s), ReaderPc(s'), s.past, s'.past);
  }

  lemma TimerPledged(s: State, t: Tid, pick: uint32)
    requires Enabled(s, Run(t, pick)) && s.pcs[t].Timer?
    requires PledgedAt(s)
    ensures var s' := Apply(s, Run(t, pick)); Pledged(s'.pcs, Duty, Answers(s'.wire), s'.past.fates)
  {
    var pc' := Apply(s, Run(t, pick)).pcs[t];
    match s.pcs[t].timer
    case TimerLockBuffer(id) =>
      if id in s.buffer.waiting {
        PledgedResolve(s.pcs, Duty, Answers(s.wire), s.past.fates, t, pc', Claim(id, ByTimeout));
      } else {
        PledgedIdle(s.pcs, Duty, Answers(s.wire), s.past.fates, t, pc');
      }
    case TimerLockWire(id) =>
      PledgedIdle(s.pcs, Duty, Answers(s.wire), s.past.fates, t, pc');
    case TimerWrite(id) =>
      AnswersAppend(s.wire, RetSubmit(id, None));
      PledgedAnswer(s.pcs, Duty, Answers(s.wire), s.past.fates, t, pc');
  }

  lemma TimerUnresolved(s: State, t: Tid, pick: uint32)
    requires Enabled(s, Run(t, pick)) && s.pcs[t].Timer? && t != READER && UnresolvedAt(s)
    ensures var s' := Apply(s, Run(t, pick));
            UnresolvedAt(s') && ReaderPc(s') == ReaderPc(s) && s'.past.fates.Keys == s.past.fates.Keys
            && s'.buffer.waiting <= s.buffer.waiting
            && s'.past.fired == s.past.fired + if s.pcs[t].timer.TimerLockBuffer? then {s.pcs[t].timer.id} else {}
  {
    assert ReaderPc(Apply(s, Run(t, pick))) == ReaderPc(s);
  }

  lemma TimerAnswers(s: State, t: Tid, pick: uint32)
    requires Enabled(s, Run(t, pick)) && s.pcs[t].Timer? && t != READER && AnswersOk(s)
    ensures AnswersOk(Apply(s, Run(t, pick)))
  {
    var s' := Apply(s, Run(t, pick));
    TimerPledged(s, t, pick);
    TimerUnresolved(s, t, pick);
    forall id | s.pcs[t] != Timer(TimerLockBuffer(id)) && TimerSet(s.pcs, id) ensures TimerSet(s'.pcs, id) {
      TimerSetKept(s.pcs, t, s'.pcs[t], id);
    }
    assert Timed(s'.pcs, ReaderPc(s'), s'.past);
  }

  lemma SubmitAnswers(s: State, id: uint32)
    requires AnswersOk(s) && Enabled(s, Submit(id))
    ensures AnswersOk(Apply(s, Submit(id)))
  {
    var s' := Apply(s, Submit(id));
    PledgedNew(s.pcs, Duty, Answers(s.wire), s.past.fates, id);
    PledgedIdle(s.pcs, Duty, Answers(s.wire), s'.past.fates, READER, s'.pcs[READER]);
    SubmitTimed(s.pcs, s.past, id);
  }

  lemma StartTimerAnswers(s: State, t: Tid)
    requires AnswersOk(s) && Enabled(s, StartTimer(t))
    ensures AnswersOk(Apply(s, StartTimer(t)))
  {
    var timer := Timer(TimerLockBuffer(s.pcs[READER].read.id));
    PledgedIdle(s.pcs, Duty, Answers(s.wire), s.past.fates, t, timer);
    PledgedIdle(s.pcs[t := timer], Duty, Answers(s.wire), s.past.fates, READER, Reader(ReadNext));
    StartTimed(s.pcs, s.past, t, s.pcs[READER].read.id);
  }

  /** A sender starts. */
  lemma SenderStarts(s: State, t: Tid, pc: SendPc)
    requires READER in s.pcs && AnswersOk(s) && t !in s.pcs && Duty(Sender(pc)).None?
    ensures AnswersOk(Goto(s, t, Sender(pc)))
  {
    PledgedIdle(s.pcs, Duty, Answers(s.wire), s.past.fates, t, Sender(pc));
    TimedKept(s.pcs, ReaderPc(s), s.past, s.past, t, Sender(pc));
  }

  /** The reader reads a command other than a submit. */
  lemma CommandRead(s: State, pc: ReadPc)
    requires AtCommand(s) && AnswersOk(s) && (pc.UnlinkLockBuffer? || pc.OtherLockWire?)
    ensures AnswersOk(Goto(s, READER, Reader(pc)))
  {
    PledgedIdle(s.pcs, Duty, Answers(s.wire), s.past.fates, READER, Reader(pc));
    ReaderTimed(s.pcs, ReadNext, pc, s.past, s.past);
  }

  /** A thread starts, or the reader reads a command. */
  lemma StartAnswers(s: State, a: Action)
    requires LocksOk(s) && AnswersOk(s) && Enabled(s, a) && !a.Run?
    ensures AnswersOk(Apply(s, a))
  {
    match a
    case Arrive(t, c, answer) => SenderStarts(s, t, SendLockChannel(c, answer));
    case Send(t, m) => SenderStarts(s, t, SendLockResponses(None, m));
    case Submit(id) => SubmitAnswers(s, id);
    case Unlink(target) => CommandRead(s, UnlinkLockBuffer(target));
    case Other => CommandRead(s, OtherLockWire);
    case StartTimer(t) => StartTimerAnswers(s, t);
  }

  lemma SubmitTimed(pcs: map<Tid, Pc>, past: History, id: uint32)
    requires READER in pcs && pcs[READER] == Reader(ReadNext) && Timed(pcs, ReadNext, past) && id !in past.fates
    ensures Timed(pcs[READER := Reader(SubmitLockBuffer(id))], SubmitLockBuffer(id), past.(fates := past.fates[id := []]))
  {
    forall other | TimerSet(pcs, other) ensures TimerSet(pcs[READER := Reader(SubmitLockBuffer(id))], other) {
      TimerSetKept(pcs, READER, Reader(SubmitLockBuffer(id)), other);
    }
  }

  lemma StartTimed(pcs: map<Tid, Pc>, past: History, t: Tid, id: uint32)
    requires READER in pcs && pcs[READER] == Reader(SubmitStartTimer(id)) && Timed(pcs, SubmitStartTimer(id), past) && t !in pcs
    ensures Timed(pcs[t := Timer(TimerLockBuffer(id))][READER := Reader(ReadNext)], ReadNext, past)
  {
    var pcs' := pcs[t := Timer(TimerLockBuffer(id))][READER := Reader(ReadNext)];
    assert t in pcs' && pcs'[t] == Timer(TimerLockBuffer(id));
    forall other | TimerSet(pcs, other) ensures TimerSet(pcs', other) {
      TimerSetKept(pcs, t, Timer(TimerLockBuffer(id)), other);
      TimerSetKept(pcs[t := Timer(TimerLockBuffer(id))], READER, Reader(ReadNext), other);
    }
  }

  lemma AnswersKept(s: State, a: Action)
    requires LocksOk(s) && AnswersOk(s) && Enabled(s, a)
    ensures AnswersOk(Apply(s, a))
  {
    match a
    case Run(t, pick) =>
      LocksGive(s, t);
      match s.pcs[t] {
        case Sender(_) => SenderAnswers(s, t, pick);
        case Reader(_) => ReaderAnswers(s, t, pick);
        case Timer(_) => TimerAnswers(s, t, pick);
      }
    case _ => StartAnswers(s, a);
  }
}
