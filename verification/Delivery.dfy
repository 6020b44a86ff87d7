/** Response delivery as a transition system. Channel handlers, keepalive senders, the
    USB/IP command reader and the one-second timers run concurrently under four kinds of
    lock: a channel's `messageLock`, `responsesLock`, the request buffer's lock, and the
    connection's `responseMutex`. A thread's program counter says which lock it is about
    to take or what it does with the locks it has.

    Sources: `ctap_hid/channel.go`, `ctap_hid/ctap_hid.go`, `util/request_buffer.go`,
    `usb/usb_device.go`, `usbip/usbip_server.go`. Writes to the socket succeed. */
module Delivery {
  import opened Bytes
  import opened Framing
  import opened RequestBuffers
  import opened Ownership
  import opened Wrappers
  import Machines

  /** The thread that reads USB/IP commands. All others come and go. */
  const READER: Tid := 0

  /** How an interrupt-IN request was resolved. */
  datatype Fate = ByResponse | ByTimeout | ByUnlink

  /** A reply on the connection: RET_SUBMIT of an interrupt-IN request with its data
      (none after a timeout), RET_UNLINK with whether its status is ECONNRESET, or the
      RET_SUBMIT of any other endpoint. */
  datatype Reply =
    | RetSubmit(id: uint32, data: Option<Packet>)
    | RetUnlink(target: uint32, reset: bool)
    | RetOther

  /** A response on its way out; `held` is the channel whose messageLock is held. */
  datatype SendPc =
    | SendLockChannel(channel: uint32, answer: Option<Message>)
    | SendLockResponses(held: Option<uint32>, msg: Message)
    | SendLockBuffer(held: Option<uint32>, left: seq<Packet>)
    | SendLockWire(held: Option<uint32>, left: seq<Packet>, id: uint32)
    | SendWrite(held: Option<uint32>, left: seq<Packet>, id: uint32)
    | SendUnlockResponses(held: Option<uint32>)
    | SendUnlockChannel(channel: uint32)

  /** The command reader. */
  datatype ReadPc =
    | ReadNext
    | SubmitLockBuffer(id: uint32)
    | SubmitLockWire(id: uint32, data: Packet)
    | SubmitWrite(id: uint32, data: Packet)
    | SubmitStartTimer(id: uint32)
    | UnlinkLockBuffer(target: uint32)
    | UnlinkLockWire(target: uint32, reset: bool)
    | UnlinkWrite(target: uint32, reset: bool)
    | OtherLockWire
    | OtherWrite

  /** A timer that has fired. */
  datatype TimerPc =
    | TimerLockBuffer(id: uint32)
    | TimerLockWire(id: uint32)
    | TimerWrite(id: uint32)

  datatype Pc = Sender(send: SendPc) | Reader(read: ReadPc) | Timer(timer: TimerPc) | Done

  datatype LockOwners = LockOwners(
    channels: map<uint32, Tid>, responses: Option<Tid>, buffer: Option<Tid>, wire: Option<Tid>)

  /** The messages in the order in which they took `responsesLock`, how often and how
      each submitted interrupt request was resolved, and the ids whose timer has run
      its cancellation. */
  datatype History = History(accepted: seq<Message>, fates: map<uint32, seq<Fate>>, fired: set<uint32>)

  datatype State = State(
    pcs: map<Tid, Pc>, locks: LockOwners, buffer: Buffer<Packet>, wire: seq<Reply>, past: History)

  const Initial := State(
    map[READER := Reader(ReadNext)], LockOwners(map[], None, None, None), Buffer({}, []), [], History([], map[], {}))

  /** `Arrive` is the goroutine of a packet for a channel, `Send` a keepalive tick or the
      error for an unknown channel; `Submit`, `Unlink` and `Other` are commands read;
      `StartTimer` is `SetTimeout`; `Run` is the next step of a thread, where `pick` is
      the waiter a map iteration comes upon. */
  datatype Action =
    | Arrive(t: Tid, channel: uint32, answer: Option<Message>)
    | Send(t: Tid, msg: Message)
    | Submit(id: uint32)
    | Unlink(target: uint32)
    | Other
    | StartTimer(t: Tid)
    | Run(t: Tid, pick: uint32)

  predicate CanSend(s: State, pc: SendPc, pick: uint32) {
    match pc
    case SendLockChannel(c, _) => c !in s.locks.channels
    case SendLockResponses(_, _) => s.locks.responses.None?
    case SendLockBuffer(_, left) =>
      s.locks.buffer.None? && left != [] && (s.buffer.waiting != {} ==> pick in s.buffer.waiting)
    case SendLockWire(_, _, _) => s.locks.wire.None?
    case SendWrite(_, left, _) => left != []
    case SendUnlockResponses(_) => true
    case SendUnlockChannel(_) => true
  }

  predicate CanRead(s: State, pc: ReadPc) {
    match pc
    case SubmitLockBuffer(_) => s.locks.buffer.None?
    case UnlinkLockBuffer(_) => s.locks.buffer.None?
    case SubmitLockWire(_, _) => s.locks.wire.None?
    case UnlinkLockWire(_, _) => s.locks.wire.None?
    case OtherLockWire => s.locks.wire.None?
    case ReadNext => false
    case SubmitStartTimer(_) => false
    case _ => true
  }

  predicate CanTime(s: State, pc: TimerPc) {
    match pc
    case TimerLockBuffer(_) => s.locks.buffer.None?
    case TimerLockWire(_) => s.locks.wire.None?
    case TimerWrite(_) => true
  }

  predicate CanRun(s: State, pc: Pc, pick: uint32) {
    match pc
    case Sender(p) => CanSend(s, p, pick)
    case Reader(p) => CanRead(s, p)
    case Timer(p) => CanTime(s, p)
    case Done => false
  }

  predicate AtCommand(s: State) {
    READER in s.pcs && s.pcs[READER] == Reader(ReadNext)
  }

  predicate Enabled(s: State, a: Action) {
    match a
    case Arrive(t, _, _) => t !in s.pcs
    case Send(t, _) => t !in s.pcs
    case Submit(id) => AtCommand(s) && id !in s.past.fates
    case Unlink(_) => AtCommand(s)
    case Other => AtCommand(s)
    case StartTimer(t) => READER in s.pcs && s.pcs[READER].Reader? && s.pcs[READER].read.SubmitStartTimer? && t !in s.pcs
    case Run(t, pick) => t in s.pcs && CanRun(s, s.pcs[t], pick)
  }

  /** Where a sender goes with packets left: the next `Respond`, or the unlock. */
  function SendRest(held: Option<uint32>, left: seq<Packet>): Pc {
    Sender(if left == [] then SendUnlockResponses(held) else SendLockBuffer(held, left))
  }

  function Resolve(past: History, id: uint32, f: Fate): History {
    past.(fates := past.fates[id := (if id in past.fates then past.fates[id] else []) + [f]])
  }

  function Goto(s: State, t: Tid, pc: Pc): State {
    s.(pcs := s.pcs[t := pc])
  }

  function TakeWire(s: State, t: Tid): State {
    s.(locks := s.locks.(wire := Some(t)))
  }

  /** Writes a reply and gives the wire up. */
  function WriteReply(s: State, r: Reply): State {
    s.(locks := s.locks.(wire := None), wire := s.wire + [r])
  }

  /** A step of a thread that sends a response. */
  function RunSender(s: State, t: Tid, pc: SendPc, pick: uint32): State
    requires CanSend(s, pc, pick)
  {
    match pc
    case SendLockChannel(c, answer) =>
      Goto(s.(locks := s.locks.(channels := s.locks.channels[c := t])), t,
           Sender(if answer.Some? then SendLockResponses(Some(c), answer.value) else SendUnlockChannel(c)))
    case SendLockResponses(held, m) =>
      Goto(s.(locks := s.locks.(responses := Some(t)), past := s.past.(accepted := s.past.accepted + [m])), t,
           SendRest(held, Packets(m)))
    case SendLockBuffer(held, left) =>
      if s.buffer.waiting != {} then
        Goto(s.(buffer := Pick(s.buffer, pick), past := Resolve(s.past, pick, ByResponse)), t,
             Sender(SendLockWire(held, left, pick)))
      else
        Goto(s.(buffer := Store(s.buffer, left[0])), t, SendRest(held, left[1..]))
    case SendLockWire(held, left, id) => Goto(TakeWire(s, t), t, Sender(SendWrite(held, left, id)))
    case SendWrite(held, left, id) => Goto(WriteReply(s, RetSubmit(id, Some(left[0]))), t, SendRest(held, left[1..]))
    case SendUnlockResponses(held) =>
      Goto(s.(locks := s.locks.(responses := None)), t,
           if held.Some? then Sender(SendUnlockChannel(held.value)) else Done)
    case SendUnlockChannel(c) =>
      Goto(s.(locks := s.locks.(channels := s.locks.channels - {c})), t, Done)
  }

  /** A step of the command reader. When a response is at hand, `Request` calls back with
      the buffer still locked. */
  function RunReader(s: State, t: Tid, pc: ReadPc): State {
    match pc
    case SubmitLockBuffer(id) =>
      var (b, response) := TakeOrWait(s.buffer, id);
      if response.Some? then
        Goto(s.(buffer := b, locks := s.locks.(buffer := Some(t)), past := Resolve(s.past, id, ByResponse)), t,
             Reader(SubmitLockWire(id, response.value)))
      else
        Goto(s.(buffer := b), t, Reader(SubmitStartTimer(id)))
    case SubmitLockWire(id, data) => Goto(TakeWire(s, t), t, Reader(SubmitWrite(id, data)))
    case SubmitWrite(id, data) =>
      var s1 := WriteReply(s, RetSubmit(id, Some(data)));
      Goto(s1.(locks := s1.locks.(buffer := None)), t, Reader(SubmitStartTimer(id)))
    case UnlinkLockBuffer(target) =>
      var (b, removed) := Withdraw(s.buffer, target);
      Goto(s.(buffer := b, past := if removed then Resolve(s.past, target, ByUnlink) else s.past), t,
           Reader(UnlinkLockWire(target, removed)))
    case UnlinkLockWire(target, reset) => Goto(TakeWire(s, t), t, Reader(UnlinkWrite(target, reset)))
    case UnlinkWrite(target, reset) => Goto(WriteReply(s, RetUnlink(target, reset)), t, Reader(ReadNext))
    case OtherLockWire => Goto(TakeWire(s, t), t, Reader(OtherWrite))
    case OtherWrite => Goto(WriteReply(s, RetOther), t, Reader(ReadNext))
    case _ => s
  }

  /** A step of a timer. */
  function RunTimer(s: State, t: Tid, pc: TimerPc): State {
    match pc
    case TimerLockBuffer(id) =>
      var (b, removed) := Withdraw(s.buffer, id);
      var past := if removed then Resolve(s.past, id, ByTimeout) else s.past;
      Goto(s.(buffer := b, past := past.(fired := past.fired + {id})), t,
           if removed then Timer(TimerLockWire(id)) else Done)
    case TimerLockWire(id) => Goto(TakeWire(s, t), t, Timer(TimerWrite(id)))
    case TimerWrite(id) => Goto(WriteReply(s, RetSubmit(id, None)), t, Done)
  }

  function Apply(s: State, a: Action): State
    requires Enabled(s, a)
  {
    match a
    case Arrive(t, c, answer) => Goto(s, t, Sender(SendLockChannel(c, answer)))
    case Send(t, m) => Goto(s, t, Sender(SendLockResponses(None, m)))
    case Submit(id) =>
      Goto(s.(past := s.past.(fates := s.past.fates[id := []])), READER, Reader(SubmitLockBuffer(id)))
    case Unlink(target) => Goto(s, READER, Reader(UnlinkLockBuffer(target)))
    case Other => Goto(s, READER, Reader(OtherLockWire))
    case StartTimer(t) =>
      Goto(Goto(s, t, Timer(TimerLockBuffer(s.pcs[READER].read.id))), READER, Reader(ReadNext))
    case Run(t, pick) =>
      match s.pcs[t]
      case Sender(p) => RunSender(s, t, p, pick)
      case Reader(p) => RunReader(s, t, p)
      case Timer(p) => RunTimer(s, t, p)
  }

  /** An action that is not enabled does not happen. */
  function Next(s: State, a: Action): (State, bool) {
    if Enabled(s, a) then (Apply(s, a), true) else (s, false)
  }

  function Reached(actions: seq<Action>): State {
    Machines.Final(Next, Initial, actions)
  }
}
