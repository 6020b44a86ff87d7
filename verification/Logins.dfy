/** The counters that relying parties read in the replies of a process, over any run of
    logins, new and deleted credentials, and restarts, also in the middle of a login. */
module Logins {
  import opened Bytes
  import opened Vault
  import opened Clients
  import opened Wrappers
  import C = Counters
  import Machines

  /** The libraries, and the PIN settings of the run. */
  datatype Env = Env(crypto: Crypto, pinEnabled: bool, token: seq<byte>)

  /** `Cut` is a login that ends with the process, before the save (none) or after it,
      written or not; the process is then started again. */
  datatype Call =
    | Login(r: Request, yes: bool, written: bool)
    | Make(entry: Entry, written: bool)
    | Forget(id: Id, written: bool)
    | Restarted
    | Cut(rp: string, allow: Option<seq<Id>>, saved: Option<bool>)

  /** The vault after a login that was cut, before the restart. */
  function CutOff(s: C.State, rp: string, allow: Option<seq<Id>>, saved: Option<bool>): C.State {
    var t := C.Step(s, C.Select(rp, allow));
    if saved.None? then t else C.Step(t, C.Save(saved.value))
  }

  function Do(env: Env, s: C.State, call: Call): (C.State, Option<Reply>) {
    match call
    case Login(r, yes, written) =>
      var (t, reply) := Handle(env.crypto, env.pinEnabled, env.token, s, r, yes, written);
      (t, Some(reply))
    case Make(e, written) => (if e.id in s.used then s else C.Created(s, e.(counter := 0), written), None)
    case Forget(id, written) => (C.Dropped(s, id, written), None)
    case Restarted => (C.Step(s, C.Restart), None)
    case Cut(rp, allow, saved) => (C.Step(CutOff(s, rp, allow, saved), C.Restart), None)
  }

  function Ran(env: Env, disk: seq<Entry>, calls: seq<Call>): C.State {
    Machines.Final((s, call) => Do(env, s, call), C.Started(disk), calls)
  }

  function Replies(env: Env, disk: seq<Entry>, calls: seq<Call>): (rs: seq<Option<Reply>>)
    ensures |rs| == |calls|
  {
    Machines.Outputs((s, call) => Do(env, s, call), C.Started(disk), calls)
  }

  lemma RanMore(env: Env, disk: seq<Entry>, calls: seq<Call>, n: nat)
    requires n < |calls|
    ensures Ran(env, disk, calls[..n + 1]) == Do(env, Ran(env, disk, calls[..n]), calls[n]).0
    ensures Replies(env, disk, calls)[n] == Do(env, Ran(env, disk, calls[..n]), calls[n]).1
  {
    Machines.At((s, call) => Do(env, s, call), C.Started(disk), calls, n);
  }

  /** SHA-256. */
  ghost predicate Hashes(env: Env) {
    forall rp :: |env.crypto.hash(rp)| == 32
  }

  /** The counter a relying party reads, as an unsigned number. */
  function Counter(reply: Reply): nat
    requires reply.Assertion? && |reply.authData| == 37
  {
    FromBE32(reply.authData[33..37])
  }

  // ------------------------------------------------------------- what is read

  predicate NonNegative(es: seq<Entry>) {
    forall e <- es :: e.counter >= 0
  }

  /** What a caller can look at before a call: the first match, if it gets incremented, is
      not at the largest counter, and at a restart no counter on disk is behind one that
      was emitted. */
  predicate Guarded(s: C.State, call: Call) {
    match call
    case Login(r, _, _) => r.Request? ==> C.Guarded(s, C.Select(r.rp, r.allow))
    case Restarted => C.Guarded(s, C.Restart)
    case Cut(rp, allow, saved) =>
      C.Guarded(s, C.Select(rp, allow)) && C.Guarded(CutOff(s, rp, allow, saved), C.Restart)
    case _ => true
  }

  /** What every guarded call keeps. */
  predicate Kept(s: C.State) {
    && C.Inv(s) && s.phase == C.Idle && NonNegative(s.mem) && NonNegative(s.disk)
    && forall x <- s.emitted :: x.counter >= 0
  }

  lemma BumpNonNegative(mem: seq<Entry>, i: nat)
    requires i < |mem| && NonNegative(mem) && mem[i].counter != C.MAX_INT32
    ensures NonNegative(C.Bump(mem, i))
  {
    forall e <- C.Bump(mem, i) ensures e.counter >= 0 {
      var k :| 0 <= k < |mem| && C.Bump(mem, i)[k] == e;
      assert mem[k] in mem;
    }
  }

  lemma CeremonyKeeps(s: C.State, rp: string, allow: Option<seq<Id>>, written: bool, yes: bool)
    requires Kept(s) && C.Guarded(s, C.Select(rp, allow))
    ensures Kept(C.Ceremony(s, rp, allow, written, yes))
  {
    var i := C.Picks(s, rp, allow);
    if i.Some? {
      BumpNonNegative(s.mem, i.value);
      var s1 := C.Step(s, C.Select(rp, allow));
      var s2 := C.Step(s1, C.Save(written));
      var s3 := C.Step(s2, C.Approve(yes));
      C.StepKeepsInv(s, C.Select(rp, allow));
      C.StepKeepsInv(s1, C.Save(written));
      C.StepKeepsInv(s2, C.Approve(yes));
      C.StepKeepsInv(s3, C.Emit);
      assert C.Bump(s.mem, i.value)[i.value] in C.Bump(s.mem, i.value);
    }
  }

  lemma CutKeeps(s: C.State, rp: string, allow: Option<seq<Id>>, saved: Option<bool>)
    requires Kept(s) && Guarded(s, Cut(rp, allow, saved))
    ensures Kept(C.Step(CutOff(s, rp, allow, saved), C.Restart))
  {
    var t := C.Step(s, C.Select(rp, allow));
    C.StepKeepsInv(s, C.Select(rp, allow));
    if C.Picks(s, rp, allow).Some? {
      BumpNonNegative(s.mem, C.Picks(s, rp, allow).value);
    }
    if saved.Some? {
      C.StepKeepsInv(t, C.Save(saved.value));
    }
    C.StepKeepsInv(CutOff(s, rp, allow, saved), C.Restart);
  }

  lemma MakeKeeps(s: C.State, e: Entry, written: bool)
    requires Kept(s) && e.id !in s.used && e.counter == 0
    ensures Kept(C.Created(s, e, written))
  {
    C.StepKeepsInv(s, C.Create(e));
    C.StepKeepsInv(C.Step(s, C.Create(e)), C.Save(written));
  }

  lemma ForgetKeeps(s: C.State, id: Id, written: bool)
    requires Kept(s)
    ensures Kept(C.Dropped(s, id, written))
  {
    C.StepKeepsInv(s, C.Delete(id));
    C.StepKeepsInv(C.Step(s, C.Delete(id)), C.Save(written));
    C.DeleteKeeps(s.mem, id, s.emitted);
  }

  lemma DoKeeps(env: Env, s: C.State, call: Call)
    requires Kept(s) && Guarded(s, call)
    ensures Kept(Do(env, s, call).0)
  {
    match call
    case Login(r, yes, written) =>
      if r.Request? {
        CeremonyKeeps(s, r.rp, r.allow, written, yes || !AsksUser(r));
      }
    case Make(e, written) =>
      if e.id !in s.used {
        MakeKeeps(s, e.(counter := 0), written);
      }
    case Forget(id, written) => ForgetKeeps(s, id, written);
    case Restarted => C.StepKeepsInv(s, C.Restart);
    case Cut(rp, allow, saved) => CutKeeps(s, rp, allow, saved);
  }

  /** Every call of the run is guarded. */
  ghost predicate GuardedRun(env: Env, disk: seq<Entry>, calls: seq<Call>) {
    forall n :: 0 <= n < |calls| ==> Guarded(Ran(env, disk, calls[..n]), calls[n])
  }

  lemma {:induction false} RunKeeps(env: Env, disk: seq<Entry>, calls: seq<Call>, n: nat)
    requires Unique(disk) && NonNegative(disk) && GuardedRun(env, disk, calls) && n <= |calls|
    ensures Kept(Ran(env, disk, calls[..n]))
  {
    if n > 0 {
      RunKeeps(env, disk, calls, n - 1);
      RanMore(env, disk, calls, n - 1);
      DoKeeps(env, Ran(env, disk, calls[..n - 1]), calls[n - 1]);
    }
  }

  /** What a reply adds to the log of emitted counters: the counter that can be read in it. */
  lemma ReplyEmits(env: Env, s: C.State, call: Call)
    requires Hashes(env) && Kept(s) && Guarded(s, call)
    ensures var (t, reply) := Do(env, s, call);
            && s.emitted <= t.emitted
            && (reply.Some? && reply.value.Assertion? ==>
                  && |reply.value.authData| == 37 && Counter(reply.value) <= C.MAX_INT32
                  && t.emitted == s.emitted + [C.Emission(reply.value.id, Counter(reply.value))])
  {
    if call.Login? {
      AssertionProves(env.crypto, env.pinEnabled, env.token, s, call.r, call.yes, call.written);
      DoKeeps(env, s, call);
      var (t, reply) := Do(env, s, call);
      if reply.value.Assertion? {
        var x := t.emitted[|s.emitted|];
        assert x in t.emitted;
      }
    }
  }

  lemma {:induction false} EmittedGrows(env: Env, disk: seq<Entry>, calls: seq<Call>, m: nat, n: nat)
    requires Hashes(env) && Unique(disk) && NonNegative(disk) && GuardedRun(env, disk, calls) && m <= n <= |calls|
    ensures Ran(env, disk, calls[..m]).emitted <= Ran(env, disk, calls[..n]).emitted
  {
    if m < n {
      EmittedGrows(env, disk, calls, m, n - 1);
      RunKeeps(env, disk, calls, n - 1);
      RanMore(env, disk, calls, n - 1);
      ReplyEmits(env, Ran(env, disk, calls[..n - 1]), calls[n - 1]);
    }
  }

  ghost predicate ReadAt(rs: seq<Option<Reply>>, i: nat) {
    i < |rs| && rs[i].Some? && rs[i].value.Assertion?
  }

  lemma AssertionAt(env: Env, disk: seq<Entry>, calls: seq<Call>, i: nat)
    requires Hashes(env) && Unique(disk) && NonNegative(disk) && GuardedRun(env, disk, calls)
    requires ReadAt(Replies(env, disk, calls), i)
    ensures var reply := Replies(env, disk, calls)[i].value;
            var xs, ys := Ran(env, disk, calls[..i]).emitted, Ran(env, disk, calls[..i + 1]).emitted;
            && |reply.authData| == 37 && Counter(reply) <= C.MAX_INT32
            && ys == xs + [C.Emission(reply.id, Counter(reply))] && C.Increasing(ys)
  {
    RunKeeps(env, disk, calls, i);
    RunKeeps(env, disk, calls, i + 1);
    RanMore(env, disk, calls, i);
    ReplyEmits(env, Ran(env, disk, calls[..i]), calls[i]);
  }

  lemma LastBeats(xs: seq<C.Emission>, x: C.Emission, ys: seq<C.Emission>, y: C.Emission)
    requires xs + [x] <= ys && C.Increasing(ys + [y]) && x.id == y.id
    ensures x.counter < y.counter
  {
    var all := ys + [y];
    assert all[|xs|] == ys[|xs|] == (xs + [x])[|xs|] == x && all[|ys|] == y;
  }

  /** Two assertions of one credential, read in this order. */
  ghost predicate ReadBoth(rs: seq<Option<Reply>>, i: nat, j: nat) {
    i < j && ReadAt(rs, i) && ReadAt(rs, j) && rs[i].value.id == rs[j].value.id
  }

  /** Over every run, with saves that may fail and restarts anywhere: as long as every
      call is guarded, the counters that relying parties read in the assertions of one
      credential strictly increase. */
  lemma ReadCountersIncrease(env: Env, disk: seq<Entry>, calls: seq<Call>, i: nat, j: nat)
    requires Hashes(env) && Unique(disk) && NonNegative(disk) && GuardedRun(env, disk, calls)
    requires ReadBoth(Replies(env, disk, calls), i, j)
    ensures var a, b := Replies(env, disk, calls)[i].value, Replies(env, disk, calls)[j].value;
            |a.authData| == 37 && |b.authData| == 37 && Counter(a) < Counter(b)
  {
    var rs := Replies(env, disk, calls);
    AssertionAt(env, disk, calls, i);
    AssertionAt(env, disk, calls, j);
    EmittedGrows(env, disk, calls, i + 1, j);
    LastBeats(
      Ran(env, disk, calls[..i]).emitted, C.Emission(rs[i].value.id, Counter(rs[i].value)),
      Ran(env, disk, calls[..j]).emitted, C.Emission(rs[j].value.id, Counter(rs[j].value)));
  }

  // ------------------------------------------------------------- durable runs

  /** Every save of the call is written, and no counter is at its largest when it is
      incremented. */
  predicate Written(s: C.State, call: Call) {
    match call
    case Login(r, _, written) => written && (r.Request? ==> C.Guarded(s, C.Select(r.rp, r.allow)))
    case Make(_, written) => written
    case Forget(_, written) => written
    case Restarted => true
    case Cut(rp, allow, saved) => saved != Some(false) && C.Guarded(s, C.Select(rp, allow))
  }

  ghost predicate WrittenRun(env: Env, disk: seq<Entry>, calls: seq<Call>) {
    forall n :: 0 <= n < |calls| ==> Written(Ran(env, disk, calls[..n]), calls[n])
  }

  /** With every save written, memory and disk agree between calls, and a restart finds
      no counter behind. */
  lemma WrittenIsGuarded(env: Env, s: C.State, call: Call)
    requires Kept(s) && s.disk == s.mem && Written(s, call)
    ensures Guarded(s, call) && Do(env, s, call).0.disk == Do(env, s, call).0.mem
  {
    if call.Cut? {
      C.StepKeepsInv(s, C.Select(call.rp, call.allow));
      var t := C.Step(s, C.Select(call.rp, call.allow));
      if call.saved.Some? {
        C.StepKeepsInv(t, C.Save(true));
      }
    }
  }

  lemma {:induction false} WrittenRunKeeps(env: Env, disk: seq<Entry>, calls: seq<Call>, n: nat)
    requires Unique(disk) && NonNegative(disk) && WrittenRun(env, disk, calls) && n <= |calls|
    ensures var s := Ran(env, disk, calls[..n]); Kept(s) && s.disk == s.mem
  {
    if n > 0 {
      WrittenRunKeeps(env, disk, calls, n - 1);
      RanMore(env, disk, calls, n - 1);
      var s := Ran(env, disk, calls[..n - 1]);
      WrittenIsGuarded(env, s, calls[n - 1]);
      DoKeeps(env, s, calls[n - 1]);
    }
  }

  /** If every save is written, the counters that relying parties read strictly increase
      over any run with restarts at any point, up to the wrap-around of int32. */
  lemma WrittenReadCountersIncrease(env: Env, disk: seq<Entry>, calls: seq<Call>, i: nat, j: nat)
    requires Hashes(env) && Unique(disk) && NonNegative(disk) && WrittenRun(env, disk, calls)
    requires ReadBoth(Replies(env, disk, calls), i, j)
    ensures var a, b := Replies(env, disk, calls)[i].value, Replies(env, disk, calls)[j].value;
            |a.authData| == 37 && |b.authData| == 37 && Counter(a) < Counter(b)
  {
    forall n | 0 <= n < |calls| ensures Guarded(Ran(env, disk, calls[..n]), calls[n]) {
      WrittenRunKeeps(env, disk, calls, n);
      WrittenIsGuarded(env, Ran(env, disk, calls[..n]), calls[n]);
    }
    ReadCountersIncrease(env, disk, calls, i, j);
  }
}
