/** `request_buffer.go`: waiting requests on one side, undelivered responses on the
    other. The functions are the buffer as a value; the class is the mutable buffer. */
module RequestBuffers {
  import opened Bytes
  import opened Wrappers

  /** The ids that wait and the responses that nobody has asked for yet. */
  datatype Buffer<D> = Buffer(waiting: set<uint32>, responses: seq<D>)

  /** `Request`: the oldest response, or a place among the waiting. */
  function TakeOrWait<D>(b: Buffer<D>, id: uint32): (Buffer<D>, Option<D>) {
    if b.responses != [] then (b.(responses := b.responses[1..]), Some(b.responses[0]))
    else (b.(waiting := b.waiting + {id}), None)
  }

  /** `CancelRequest`. */
  function Withdraw<D>(b: Buffer<D>, id: uint32): (Buffer<D>, bool) {
    (b.(waiting := b.waiting - {id}), id in b.waiting)
  }

  /** `Respond` when something waits: `id` is the waiter the map iteration came upon. */
  function Pick<D>(b: Buffer<D>, id: uint32): Buffer<D> {
    b.(waiting := b.waiting - {id})
  }

  /** `Respond` when nothing waits. */
  function Store<D>(b: Buffer<D>, data: D): Buffer<D> {
    b.(responses := b.responses + [data])
  }

  /** `RequestBuffer`, over callbacks `C` and data `D`. The caller of a method makes the
      callback call that the method's result describes. */
  class RequestBuffer<C, D> {
    var waitingForData: map<uint32, C>
    var responses: seq<D>

    ghost function Value(): Buffer<D>
      reads this
    {
      Buffer(waitingForData.Keys, responses)
    }

    constructor ()
      ensures waitingForData == map[] && responses == []
    {
      waitingForData, responses := map[], [];
    }

    /** `Request`. The callback is called on `response` before the lock is given up. */
    method Request(id: uint32, request: C) returns (finished: bool, response: Option<D>)
      modifies this
      ensures (Value(), response) == TakeOrWait(old(Value()), id)
      ensures finished <==> response.Some?
      ensures waitingForData == if finished then old(waitingForData) else old(waitingForData)[id := request]
    {
      if |responses| > 0 {
        response := Some(responses[0]);
        responses := responses[1..];
        return true, response;
      } else {
        waitingForData := waitingForData[id := request];
        assert Value().waiting == old(Value()).waiting + {id};
        return false, None;
      }
    }

    method CancelRequest(id: uint32) returns (removed: bool)
      modifies this`waitingForData
      ensures (Value(), removed) == Withdraw(old(Value()), id)
      ensures waitingForData == old(waitingForData) - {id}
    {
      if id in waitingForData {
        waitingForData := waitingForData - {id};
        return true;
      } else {
        assert waitingForData - {id} == waitingForData;
        return false;
      }
    }

    /** `Respond` up to the unlock. With a waiter picked, its callback is still to be
        called, and that happens without the lock. */
    method Respond(data: D) returns (picked: Option<(uint32, C)>)
      modifies this
      ensures picked.None? <==> old(waitingForData) == map[]
      ensures picked.None? ==> Value() == Store(old(Value()), data)
      ensures picked.Some? ==>
        && picked.value.0 in old(waitingForData) && picked.value.1 == old(waitingForData)[picked.value.0]
        && Value() == Pick(old(Value()), picked.value.0)
        && waitingForData == old(waitingForData) - {picked.value.0}
    {
      if |waitingForData| > 0 {
        assert waitingForData.Keys != {};
        var id :| id in waitingForData;
        picked := Some((id, waitingForData[id]));
        waitingForData := waitingForData - {id};
      } else {
        responses := responses + [data];
        picked := None;
      }
    }
  }
}
