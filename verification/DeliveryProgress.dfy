/** No cyclic wait: every thread takes channel lock, `responsesLock`, buffer lock and
    wire in that order only, so waiting threads never form a cycle and every one of them
    waits, directly or not, for a thread that can take its next step. */
module DeliveryProgress {
  import opened Bytes
  import opened Ownership
  import opened Delivery
  import opened DeliverySafety
  import opened Wrappers

  datatype Lock = ChannelLock(channel: uint32) | ResponsesLock | BufferLock | WireLock

  function Rank(l: Lock): nat {
    match l
    case ChannelLock(_) => 0
    case ResponsesLock => 1
    case BufferLock => 2
    case WireLock => 3
  }

  /** The lock a thread is about to take. */
  function Wants(pc: Pc): Option<Lock> {
    match pc
    case Sender(SendLockChannel(c, _)) => Some(ChannelLock(c))
    case Sender(SendLockResponses(_, _)) => Some(ResponsesLock)
    case Sender(SendLockBuffer(_, _)) => Some(BufferLock)
    case Sender(SendLockWire(_, _, _)) => Some(WireLock)
    case Reader(SubmitLockBuffer(_)) => Some(BufferLock)
    case Reader(SubmitLockWire(_, _)) => Some(WireLock)
    case Reader(UnlinkLockBuffer(_)) => Some(BufferLock)
    case Reader(UnlinkLockWire(_, _)) => Some(WireLock)
    case Reader(OtherLockWire) => Some(WireLock)
    case Timer(TimerLockBuffer(_)) => Some(BufferLock)
    case Timer(TimerLockWire(_)) => Some(WireLock)
    case _ => None
  }

  function Owner(s: State, l: Lock): Option<Tid> {
    match l
    case ChannelLock(c) => if c in s.locks.channels then Some(s.locks.channels[c]) else None
    case ResponsesLock => s.locks.responses
    case BufferLock => s.locks.buffer
    case WireLock => s.locks.wire
  }

  /** Thread t is about to take a lock that thread u holds. */
  predicate WaitsFor(s: State, t: Tid, u: Tid) {
    t in s.pcs && Wants(s.pcs[t]).Some? && Owner(s, Wants(s.pcs[t]).value) == Some(u)
  }

  lemma OwnerClimbs(s: State, t: Tid, u: Tid)
    requires LocksOk(s) && WaitsFor(s, t, u)
    ensures u in s.pcs && (s.pcs[u].Sender? || s.pcs[u].Reader? || s.pcs[u].Timer?)
    ensures Wants(s.pcs[u]).Some? ==> Rank(Wants(s.pcs[u]).value) > Rank(Wants(s.pcs[t]).value)
    ensures s.pcs[u].Reader? ==> s.pcs[u].read.SubmitLockWire? || s.pcs[u].read.SubmitWrite?
                                 || s.pcs[u].read.UnlinkWrite? || s.pcs[u].read.OtherWrite?
  {
    LocksGive(s, u);
  }

  lemma {:induction false} RanksClimb(s: State, ts: seq<Tid>, i: nat)
    requires LocksOk(s) && i < |ts|
    requires forall k :: 0 <= k < |ts| - 1 ==> WaitsFor(s, ts[k], ts[k + 1])
    requires ts[|ts| - 1] in s.pcs && Wants(s.pcs[ts[|ts| - 1]]).Some?
    ensures ts[i] in s.pcs && Wants(s.pcs[ts[i]]).Some? && ts[0] in s.pcs && Wants(s.pcs[ts[0]]).Some?
    ensures Rank(Wants(s.pcs[ts[i]]).value) >= Rank(Wants(s.pcs[ts[0]]).value) + i
    decreases i
  {
    if i == 0 {
      assert |ts| > 1 ==> WaitsFor(s, ts[0], ts[0 + 1]);
    } else {
      RanksClimb(s, ts, i - 1);
      assert WaitsFor(s, ts[i - 1], ts[i - 1 + 1]);
      OwnerClimbs(s, ts[i - 1], ts[i]);
      assert i < |ts| - 1 ==> WaitsFor(s, ts[i], ts[i + 1]);
    }
  }

  /** No threads wait for each other in a ring. */
  lemma NoCyclicWait(s: State, ts: seq<Tid>)
    requires LocksOk(s) && ts != []
    requires forall k :: 0 <= k < |ts| - 1 ==> WaitsFor(s, ts[k], ts[k + 1])
    ensures !WaitsFor(s, ts[|ts| - 1], ts[0])
  {
    if WaitsFor(s, ts[|ts| - 1], ts[0]) {
      RanksClimb(s, ts, |ts| - 1);
      OwnerClimbs(s, ts[|ts| - 1], ts[0]);
    }
  }

  /** Finished, or waiting for the next command or for its timer to be set. */
  predicate AtRest(pc: Pc) {
    pc.Done? || (pc.Reader? && (pc.read.ReadNext? || pc.read.SubmitStartTimer?))
  }

  lemma StepsUnlessBlocked(s: State, t: Tid) returns (pick: uint32)
    requires LocksOk(s) && t in s.pcs && !AtRest(s.pcs[t])
    requires Wants(s.pcs[t]).Some? ==> Owner(s, Wants(s.pcs[t]).value).None?
    ensures Enabled(s, Run(t, pick))
  {
    LocksGive(s, t);
    if s.buffer.waiting != {} {
      pick :| pick in s.buffer.waiting;
    } else {
      pick := 0;
    }
  }

  /** From any thread that is not at rest, following the holders of the locks that are
      waited for leads to a thread that can step. */
  lemma {:induction false} SomeoneProgresses(s: State, t: Tid) returns (chain: seq<Tid>, pick: uint32)
    requires LocksOk(s) && t in s.pcs && !AtRest(s.pcs[t])
    ensures chain != [] && chain[0] == t
    ensures forall k :: 0 <= k < |chain| - 1 ==> WaitsFor(s, chain[k], chain[k + 1])
    ensures Enabled(s, Run(chain[|chain| - 1], pick))
    decreases if Wants(s.pcs[t]).Some? then 4 - Rank(Wants(s.pcs[t]).value) else 0
  {
    var l := Wants(s.pcs[t]);
    if l.Some? && Owner(s, l.value).Some? {
      var u := Owner(s, l.value).value;
      OwnerClimbs(s, t, u);
      var rest;
      rest, pick := SomeoneProgresses(s, u);
      chain := [t] + rest;
      forall k | 0 <= k < |chain| - 1 ensures WaitsFor(s, chain[k], chain[k + 1]) {
        if k > 0 {
          assert WaitsFor(s, rest[k - 1], rest[k]);
        }
      }
    } else {
      pick := StepsUnlessBlocked(s, t);
      chain := [t];
    }
  }
}
