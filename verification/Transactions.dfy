/** The mutable side of `transaction.go`, `channel.go` and the packet-cutting loop of
    `ctap_hid.go`. Each method is proved against the specification in `Framing`. A
    panic of the source (a packet too short to parse) is reported in the result. */
module Transactions {
  import opened Bytes
  import opened Framing

  /** `transactionResult`. `home` is the channel whose transaction it belongs to: channels
      share nothing. */
  class TransactionResult {
    ghost const home: object
    var header: Header
    var sequenceNumber: byte
    var payload: seq<byte>

    constructor (header: Header, payload: seq<byte>, ghost home: object)
      ensures this.header == header && sequenceNumber == 0 && this.payload == payload && this.home == home
    {
      this.home := home;
      this.header, sequenceNumber, this.payload := header, 0, payload;
    }
  }

  /** `ctapHIDTransaction`. */
  class Transaction {
    ghost const home: object
    var done: bool
    var cancelled: bool
    var errorCode: byte
    var result: TransactionResult?

    constructor (ghost home: object)
      ensures !done && !cancelled && errorCode == 0 && result == null && this.home == home
    {
      this.home := home;
      done, cancelled, errorCode, result := false, false, 0, null;
    }

    ghost predicate Valid()
      reads this, result
    {
      && (errorCode != 0 || cancelled <==> result == null)
      && (result != null ==> result.home == home)
      && (result == null ==> done)
      && (result != null && done ==> |result.payload| == result.header.length)
      && (result != null && !done ==> |result.payload| < result.header.length)
    }

    /** What the channel still holds, and what it has to report: an error first, even on
        a transaction that was cancelled before. */
    ghost function View(): (Tx, Event)
      requires Valid()
      reads this, result
    {
      if !done then (Open(result.header, result.sequenceNumber, result.payload), Waiting)
      else if errorCode != 0 then (Idle, Failed(errorCode))
      else if cancelled then (Idle, Cancelled)
      else (Idle, Finalised(result.header, result.payload))
    }

    method Finish()
      modifies this`done
      ensures done
    {
      done := true;
    }

    method Error(code: byte)
      requires code != 0
      modifies this
      ensures Valid() && View() == (Idle, Failed(code)) && result == null && cancelled == old(cancelled)
    {
      done := true;
      errorCode := code;
      result := null;
    }

    method Cancel()
      modifies this
      ensures Valid() && View() == (Idle, if errorCode != 0 then Failed(errorCode) else Cancelled) && result == null
      ensures errorCode == old(errorCode) && cancelled
    {
      done := true;
      cancelled := true;
      result := null;
    }

    /** Cuts the payload to the declared length and finishes, once enough has come. */
    method Settle(payload: seq<byte>) returns (finished: bool)
      requires !done && !cancelled && errorCode == 0 && result != null && result.home == home
      modifies this`done, result`payload
      ensures Valid() && result == old(result)
      ensures finished <==> |payload| >= result.header.length
      ensures var next := result.sequenceNumber;
              View() == Framing.Settle(result.header, next, payload)
    {
      result.payload := payload;
      finished := |result.payload| >= result.header.length;
      if finished {
        result.payload := result.payload[..result.header.length];
        Finish();
      }
    }

    /** `addMessage`. A packet after the end of the sequence is an error of its own. */
    method AddMessage(message: Packet) returns (panicked: bool)
      requires Valid()
      modifies this, result
      ensures Valid()
      ensures result == old(result) || result == null
      ensures old(done) ==> !panicked && View() == (Idle, Failed(ERR_OTHER))
      ensures !old(done) ==>
        var (tx, event) := Step(old(View()).0, message);
        && (panicked <==> event == Crashed)
        && (!panicked ==> View() == (tx, event))
    {
      panicked := false;
      if done {
        Error(ERR_OTHER);
        return;
      }
      if |message| < 4 { return true; }
      var channelId := FromLE32(message[..4]);
      if channelId != result.header.channel {
        Error(ERR_INVALID_CHANNEL);
        return;
      }
      if |message| < 5 { return true; }
      var sequenceNumber := message[4];
      if sequenceNumber == CMD_CANCEL {
        Cancel();
        return;
      } else if sequenceNumber >= 0x80 {
        Error(ERR_INVALID_SEQUENCE);
        return;
      } else if sequenceNumber != result.sequenceNumber {
        Error(ERR_INVALID_SEQUENCE);
        return;
      }
      var finished := Settle(result.payload + message[5..]);
      if !finished {
        result.sequenceNumber := (result.sequenceNumber + 1) % 0x100;
      }
    }
  }

  /** `newCTAPHIDTransaction`; null stands for its panic. */
  method NewTransaction(message: Packet, ghost home: object) returns (transaction: Transaction?)
    ensures transaction == null <==> Begin(message).1 == Crashed
    ensures transaction != null ==>
      && fresh(transaction) && transaction.home == home && transaction.Valid() && transaction.View() == Begin(message)
      && (transaction.result != null ==> fresh(transaction.result))
  {
    if |message| < 5 { return null; }
    var channelId, command := FromLE32(message[..4]), message[4];
    transaction := new Transaction(home);
    if command < 0x80 {
      transaction.Error(ERR_INVALID_COMMAND);
      return;
    }
    if command == CMD_CANCEL {
      transaction.Cancel();
      return;
    }
    if |message| < 7 { return null; }
    var payloadLength := FromBE16(message[5..7]);
    var payload := message[7..];
    transaction.result := new TransactionResult(Header(channelId, command, payloadLength), payload, home);
    var _ := transaction.Settle(payload);
  }

  /** `ctapHIDChannel`, up to what it does with a finished transaction. `view` is the
      transaction it stores, as a value. */
  class Channel {
    const channelId: uint32
    var transaction: Transaction?
    ghost var view: Tx

    constructor (channelId: uint32)
      ensures Valid() && Parts() == {} && this.channelId == channelId && view == Idle
    {
      this.channelId := channelId;
      transaction := null;
      view := Idle;
    }

    /** What the channel changes besides itself. */
    ghost function Parts(): set<object>
      reads this, transaction
    {
      if transaction == null then {}
      else if transaction.result == null then {transaction}
      else {transaction, transaction.result}
    }

    ghost predicate Valid()
      reads this, Parts()
    {
      && (transaction == null ==> view == Idle)
      && (transaction != null ==>
            && transaction.home == this
            && !transaction.done && transaction.result != null
            && transaction.Valid()
            && view == transaction.View().0)
    }

    /** `handleMessage`: start or advance the transaction and drop it once it is done.
        `only` says that the packet started one. */
    method HandleMessage(message: Packet) returns (event: Event, only: bool)
      requires Valid()
      modifies this, Parts()
      ensures event == Step(old(view), message).1 && (only <==> old(view) == Idle)
      ensures event != Crashed ==>
        Valid() && fresh(Parts() - old(Parts())) && view == Step(old(view), message).0
    {
      only := transaction == null;
      if transaction == null {
        transaction := NewTransaction(message, this);
        if transaction == null { return Crashed, only; }
      } else {
        var panicked := transaction.AddMessage(message);
        if panicked { return Crashed, only; }
      }
      view := transaction.View().0;
      event := Waiting;
      if transaction.done {
        if transaction.errorCode != 0 {
          event := Failed(transaction.errorCode);
        } else if !transaction.cancelled {
          event := Finalised(transaction.result.header, transaction.result.payload);
        } else {
          event := Cancelled;
        }
        transaction := null;
      }
    }
  }

  /** `createResponsePackets`: the loop that consumes the payload. */
  method CreateResponsePackets(channelId: uint32, command: byte, payload: seq<byte>)
    returns (packets: seq<Packet>)
    ensures packets == Packets(Message(channelId, command, payload))
  {
    packets := [];
    var sequence: int := -1;
    var left := payload;
    while left != []
      invariant sequence >= -1
      invariant sequence == -1 ==> packets == [] && left == payload
      invariant sequence >= 0 ==>
        (&& payload != []
         && packets + ContPackets(channelId, sequence, left) == Packets(Message(channelId, command, payload)))
      decreases |left|
    {
      var packet := ToLE32(channelId);
      if sequence < 0 {
        packet := packet + [command] + ToBE16(|left| % 0x1_0000);
      } else {
        packet := packet + [sequence % 0x100];
      }
      sequence := sequence + 1;
      var bytesLeft := PACKET_SIZE - |packet|;
      if bytesLeft > |left| {
        bytesLeft := |left|;
      }
      packet := packet + left[..bytesLeft];
      left := left[bytesLeft..];
      packet := Pad(packet, PACKET_SIZE);
      packets := packets + [packet];
    }
  }
}
