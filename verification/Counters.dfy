/** Signature counters over restarts (`fido_client.go`, `ctap.go`). A ceremony is four
    steps: pick a credential and increment its counter in memory, save the vault, ask
    the user, put the counter into the authenticator data. The process can be restarted
    between any two of them. */
module Counters {
  import opened Machines
  import opened Vault
  import opened Wrappers

  const MAX_INT32 := 0x7fff_ffff

  /** A counter that was put into the authenticator data of a credential. */
  datatype Emission = Emission(id: Id, counter: int32)

  /** What is under way, and at which position of the vault. Dirty is a credential just
      created or deleted, not yet saved. */
  datatype Phase = Idle | Dirty | Bumped(i: nat) | Selected(i: nat) | Approved(i: nat)

  /** The vault in memory, the vault that a load would give, what has been emitted, and
      the credential ids that have ever been in use. */
  datatype State = State(mem: seq<Entry>, disk: seq<Entry>, phase: Phase, emitted: seq<Emission>, used: set<Id>)

  datatype Action =
    | Select(rp: string, allow: Option<seq<Id>>)
    | Save(written: bool)
    | Approve(yes: bool)
    | Emit
    | Create(entry: Entry)
    | Delete(id: Id)
    | Resave(written: bool)
    | Restart

  /** Go's int32 increment. */
  function Increment(n: int32): int32 {
    if n == MAX_INT32 then -0x8000_0000 else n + 1
  }

  predicate Holding(p: Phase) {
    p.Bumped? || p.Selected? || p.Approved?
  }

  /** The position `GetAssertionSource` picks: the first match. */
  function Picks(s: State, rp: string, allow: Option<seq<Id>>): (r: Option<nat>)
    ensures r.Some? ==> r.value < |s.mem| && s.mem[r.value].rp.id == rp && Allowed(allow, s.mem[r.value].id)
  {
    MatchingExact(s.mem, rp, allow, 0);
    var r := Matching(s.mem, rp, allow);
    if r == [] then None else Some(r[0])
  }

  /** The first match it is, and none exactly if nothing matches. */
  lemma PicksFirst(s: State, rp: string, allow: Option<seq<Id>>, i: nat)
    ensures Picks(s, rp, allow) == Some(i) <==> FirstMatch(s.mem, rp, allow, i)
    ensures Picks(s, rp, allow) == None <==>
            forall e <- s.mem :: !(e.rp.id == rp && (allow.Some? ==> e.id in allow.value))
  {
    FirstMatchIff(s.mem, rp, allow, i);
  }

  function Bump(mem: seq<Entry>, i: nat): seq<Entry>
    requires i < |mem|
  {
    mem[i := mem[i].(counter := Increment(mem[i].counter))]
  }

  /** A step that the current phase does not allow changes nothing. */
  function Step(s: State, a: Action): State {
    match a
    case Select(rp, allow) =>
      var i := Picks(s, rp, allow);
      if s.phase != Idle || i.None? then s else s.(mem := Bump(s.mem, i.value), phase := Bumped(i.value))
    case Save(written) =>
      if !s.phase.Bumped? && !s.phase.Dirty? then s
      else s.(disk := if written then s.mem else s.disk, phase := if s.phase.Bumped? then Selected(s.phase.i) else Idle)
    case Approve(yes) =>
      if !s.phase.Selected? then s else s.(phase := if yes then Approved(s.phase.i) else Idle)
    case Emit =>
      if !s.phase.Approved? || s.phase.i >= |s.mem| then s
      else s.(emitted := s.emitted + [Emission(s.mem[s.phase.i].id, s.mem[s.phase.i].counter)], phase := Idle)
    case Create(e) =>
      if s.phase != Idle || e.id in s.used then s
      else s.(mem := s.mem + [e.(counter := 0)], phase := Dirty, used := s.used + {e.id})
    case Delete(id) =>
      if s.phase != Idle || !Holds(s.mem, id) then s else s.(mem := Deleted(s.mem, id), phase := Dirty)
    case Resave(written) => if s.phase != Idle then s else s.(disk := if written then s.mem else s.disk)
    case Restart => s.(mem := s.disk, phase := Idle)
  }

  function After(s: State, actions: seq<Action>): State {
    Final((s, a) => (Step(s, a), ()), s, actions)
  }

  /** A process started with this vault on disk. */
  function Started(disk: seq<Entry>): State {
    State(disk, disk, Idle, [], set e <- disk :: e.id)
  }

  // --------------------------------------------------------------- invariants

  /** The counters emitted for one credential strictly increase. */
  predicate Increasing(xs: seq<Emission>) {
    forall i, j :: 0 <= i < j < |xs| && xs[i].id == xs[j].id ==> xs[i].counter < xs[j].counter
  }

  /** The vault's counter has not fallen behind this emission. */
  predicate Ahead(es: seq<Entry>, x: Emission) {
    forall e <- es :: e.id == x.id ==> x.counter <= e.counter
  }

  predicate AllAhead(es: seq<Entry>, xs: seq<Emission>) {
    forall x <- xs :: Ahead(es, x)
  }

  /** A counter that is larger than all those emitted for the credential. */
  predicate Beats(e: Entry, xs: seq<Emission>) {
    forall x <- xs :: x.id == e.id ==> x.counter < e.counter
  }

  predicate Known(s: State) {
    && (forall e <- s.mem :: e.id in s.used) && (forall e <- s.disk :: e.id in s.used)
    && (forall x <- s.emitted :: x.id in s.used)
  }

  predicate Inv(s: State) {
    && Unique(s.mem) && Unique(s.disk) && Known(s)
    && Increasing(s.emitted) && AllAhead(s.mem, s.emitted)
    && (Holding(s.phase) ==> s.phase.i < |s.mem| && Beats(s.mem[s.phase.i], s.emitted))
  }

  /** What a caller can look at before a step: the counter about to be incremented is
      below the largest, and at a restart no counter on disk is behind one that was
      emitted. */
  predicate Guarded(s: State, a: Action) {
    match a
    case Select(rp, allow) =>
      var i := Picks(s, rp, allow); s.phase == Idle && i.Some? ==> s.mem[i.value].counter != MAX_INT32
    case Restart => AllAhead(s.disk, s.emitted)
    case _ => true
  }

  lemma BumpKeeps(mem: seq<Entry>, i: nat, xs: seq<Emission>)
    requires i < |mem| && Unique(mem) && AllAhead(mem, xs) && mem[i].counter != MAX_INT32
    ensures Unique(Bump(mem, i)) && AllAhead(Bump(mem, i), xs) && Beats(Bump(mem, i)[i], xs)
    ensures forall e <- Bump(mem, i) :: exists d <- mem :: e.id == d.id
  {
    forall x <- xs ensures Ahead(Bump(mem, i), x) && (x.id == mem[i].id ==> x.counter <= mem[i].counter) {
      assert Ahead(mem, x) && mem[i] in mem;
      forall e <- Bump(mem, i) | e.id == x.id ensures x.counter <= e.counter {
        var k :| 0 <= k < |mem| && Bump(mem, i)[k] == e;
        assert mem[k] in mem;
      }
    }
    forall e <- Bump(mem, i) ensures exists d <- mem :: e.id == d.id {
      var k :| 0 <= k < |mem| && Bump(mem, i)[k] == e;
      assert mem[k] in mem;
    }
  }

  lemma EmitKeeps(mem: seq<Entry>, i: nat, xs: seq<Emission>)
    requires i < |mem| && Unique(mem) && AllAhead(mem, xs) && Increasing(xs) && Beats(mem[i], xs)
    ensures var ys := xs + [Emission(mem[i].id, mem[i].counter)]; Increasing(ys) && AllAhead(mem, ys)
  {
    var x := Emission(mem[i].id, mem[i].counter);
    forall e <- mem | e.id == x.id ensures x.counter <= e.counter {
      var k :| 0 <= k < |mem| && mem[k] == e;
      assert k == i;
    }
    assert Ahead(mem, x);
  }

  lemma DeleteKeeps(mem: seq<Entry>, id: Id, xs: seq<Emission>)
    requires Unique(mem) && AllAhead(mem, xs)
    ensures Unique(Deleted(mem, id)) && AllAhead(Deleted(mem, id), xs)
    ensures forall e <- Deleted(mem, id) :: e in mem
  {
    forall e <- Deleted(mem, id) ensures e in mem {
      DeletedKeepsOthers(mem, id, e);
    }
    if mem == [] {
    } else {
      DeletedKeepsOthers(mem, id, mem[0]);
    }
    forall x <- xs ensures Ahead(Deleted(mem, id), x) {
      assert Ahead(mem, x);
    }
  }

  lemma StepKeepsInv(s: State, a: Action)
    requires Inv(s) && Guarded(s, a)
    ensures Inv(Step(s, a))
  {
    match a
    case Select(rp, allow) =>
      if s.phase == Idle && Picks(s, rp, allow).Some? {
        BumpKeeps(s.mem, Picks(s, rp, allow).value, s.emitted);
      }
    case Save(written) =>
    case Approve(yes) =>
    case Emit =>
      if s.phase.Approved? {
        EmitKeeps(s.mem, s.phase.i, s.emitted);
      }
    case Create(e) =>
      if s.phase == Idle && e.id !in s.used {
        forall x <- s.emitted ensures Ahead(Step(s, a).mem, x) {
          assert Ahead(s.mem, x);
        }
      }
    case Delete(id) => DeleteKeeps(s.mem, id, s.emitted);
    case Resave(written) =>
    case Restart =>
  }

  /** Every step of the run is guarded. */
  ghost predicate GuardedRun(s: State, actions: seq<Action>) {
    forall n :: 0 <= n < |actions| ==> Guarded(After(s, actions[..n]), actions[n])
  }

  lemma AfterMore(s: State, actions: seq<Action>)
    requires actions != []
    ensures var n := |actions| - 1; After(s, actions) == Step(After(s, actions[..n]), actions[n])
  {
    var n := |actions| - 1;
    assert actions == actions[..n] + [actions[n]];
    Append((s, a) => (Step(s, a), ()), s, actions[..n], actions[n]);
  }

  lemma {:induction false} RunKeepsInv(s: State, actions: seq<Action>)
    requires Inv(s) && GuardedRun(s, actions)
    ensures Inv(After(s, actions))
  {
    if actions != [] {
      var n := |actions| - 1;
      assert GuardedRun(s, actions[..n]) by {
        forall k | 0 <= k < n ensures Guarded(After(s, actions[..n][..k]), actions[..n][k]) {
          assert actions[..n][..k] == actions[..k];
        }
      }
      RunKeepsInv(s, actions[..n]);
      AfterMore(s, actions);
      StepKeepsInv(After(s, actions[..n]), actions[n]);
    }
  }

  /** Over every run, with saves that may fail and restarts anywhere: as long as every
      step is guarded, the counters emitted for each credential strictly increase. */
  lemma CountersIncrease(disk: seq<Entry>, actions: seq<Action>)
    requires Unique(disk) && GuardedRun(Started(disk), actions)
    ensures Increasing(After(Started(disk), actions).emitted)
  {
    RunKeepsInv(Started(disk), actions);
  }

  // ------------------------------------------------------------- durable runs

  /** With every save written, a counter is on disk before it is emitted. */
  predicate Durable(s: State) {
    AllAhead(s.disk, s.emitted) && (s.phase.Idle? || s.phase.Selected? || s.phase.Approved? ==> s.disk == s.mem)
  }

  lemma StepKeepsDurable(s: State, a: Action)
    requires Inv(s) && Durable(s) && (a.Save? ==> a.written)
    requires a.Select? ==> Guarded(s, a)
    ensures Guarded(s, a) && Inv(Step(s, a)) && Durable(Step(s, a))
  {
    StepKeepsInv(s, a);
  }

  /** Every save of the run is written, and no counter is at its largest when it is
      incremented. */
  ghost predicate WrittenRun(s: State, actions: seq<Action>) {
    forall n :: 0 <= n < |actions| ==>
      && (actions[n].Save? ==> actions[n].written)
      && (actions[n].Select? ==> Guarded(After(s, actions[..n]), actions[n]))
  }

  lemma {:induction false} RunKeepsDurable(s: State, actions: seq<Action>)
    requires Inv(s) && Durable(s) && WrittenRun(s, actions)
    ensures Inv(After(s, actions)) && Durable(After(s, actions))
  {
    if actions != [] {
      var n := |actions| - 1;
      assert WrittenRun(s, actions[..n]) by {
        forall k | 0 <= k < n
          ensures actions[..n][k].Save? ==> actions[..n][k].written
          ensures actions[..n][k].Select? ==> Guarded(After(s, actions[..n][..k]), actions[..n][k])
        {
          assert actions[..n][..k] == actions[..k] && actions[..n][k] == actions[k];
        }
      }
      RunKeepsDurable(s, actions[..n]);
      AfterMore(s, actions);
      StepKeepsDurable(After(s, actions[..n]), actions[n]);
    }
  }

  /** If every save is written, the emitted counters strictly increase over any run with
      restarts at any point, up to the wrap-around of int32; and at any point every
      counter on disk is at least the last one emitted. */
  lemma WrittenCountersIncrease(disk: seq<Entry>, actions: seq<Action>)
    requires Unique(disk) && WrittenRun(Started(disk), actions)
    ensures var s := After(Started(disk), actions); Increasing(s.emitted) && AllAhead(s.disk, s.emitted)
  {
    RunKeepsDurable(Started(disk), actions);
  }

  // ---------------------------------------------------------- the other half

  /** `handleGetAssertion` as a whole. */
  function Ceremony(s: State, rp: string, allow: Option<seq<Id>>, written: bool, yes: bool): State {
    var i := Picks(s, rp, allow);
    if i.None? then s
    else
      var mem := Bump(s.mem, i.value);
      var t := s.(mem := mem, disk := if written then mem else s.disk);
      if yes then t.(emitted := s.emitted + [Emission(mem[i.value].id, mem[i.value].counter)]) else t
  }

  /** It is the four steps in a row. */
  lemma CeremonyIsFourSteps(s: State, rp: string, allow: Option<seq<Id>>, written: bool, yes: bool)
    requires s.phase == Idle
    ensures After(s, [Select(rp, allow), Save(written), Approve(yes), Emit]) == Ceremony(s, rp, allow, written, yes)
  {
    var steps := [Select(rp, allow), Save(written), Approve(yes), Emit];
    assert steps[..3][..2] == steps[..2] && steps[..2][..1] == steps[..1] && steps[..1][..0] == [];
    AfterMore(s, steps);
    AfterMore(s, steps[..3]);
    AfterMore(s, steps[..2]);
    AfterMore(s, steps[..1]);
  }

  /** `NewCredentialSource` and `DeleteIdentity` as wholes: change the vault, save it. */
  function Created(s: State, e: Entry, written: bool): State {
    var mem := s.mem + [e];
    s.(mem := mem, disk := if written then mem else s.disk, used := s.used + {e.id})
  }

  function Dropped(s: State, id: Id, written: bool): State {
    if !Holds(s.mem, id) then s
    else
      var mem := Deleted(s.mem, id);
      s.(mem := mem, disk := if written then mem else s.disk)
  }

  lemma ChangesAreTwoSteps(s: State, e: Entry, id: Id, written: bool)
    requires s.phase == Idle && e.id !in s.used && e.counter == 0
    ensures After(s, [Create(e), Save(written)]) == Created(s, e, written)
    ensures After(s, [Delete(id), Save(written)]) == Dropped(s, id, written)
  {
    var create, drop := [Create(e), Save(written)], [Delete(id), Save(written)];
    assert create[..1][..0] == [] && drop[..1][..0] == [];
    AfterMore(s, create);
    AfterMore(s, create[..1]);
    AfterMore(s, drop);
    AfterMore(s, drop[..1]);
  }

  lemma PicksOnly(s: State, i: nat)
    requires Unique(s.mem) && i < |s.mem|
    ensures Picks(s, s.mem[i].rp.id, Some([s.mem[i].id])) == Some(i)
  {
    var rp, allow := s.mem[i].rp.id, Some([s.mem[i].id]);
    var r := Matching(s.mem, rp, allow);
    MatchingExact(s.mem, rp, allow, i);
    assert s.mem[r[0]].id == s.mem[i].id;
  }

  lemma IncreasingMore(xs: seq<Emission>, x: Emission)
    requires Increasing(xs)
    ensures Increasing(xs + [x]) <==> forall y <- xs :: y.id == x.id ==> y.counter < x.counter
  {
    var ys := xs + [x];
    if Increasing(ys) {
      forall y <- xs | y.id == x.id ensures y.counter < x.counter {
        var k :| 0 <= k < |xs| && xs[k] == y;
        assert ys[k] == y && ys[|xs|] == x;
      }
    }
  }

  /** The guards are exact. Restart at any reachable state and sign in with one of the
      credentials on disk: the counter it emits is one more than the disk has, and the
      counters still increase exactly when the disk's was not behind an emitted one and
      was not the largest. So a save that failed without a trace but a log line, followed
      by a restart, repeats counters. */
  lemma RestartIff(s: State, i: nat, written: bool)
    requires Inv(s) && i < |s.disk|
    ensures var e := s.disk[i];
            var t := Ceremony(Step(s, Restart), e.rp.id, Some([e.id]), written, true);
            && t.emitted == s.emitted + [Emission(e.id, Increment(e.counter))]
            && (Increasing(t.emitted) <==> forall x <- s.emitted :: x.id == e.id ==> x.counter < Increment(e.counter))
            && (e.counter != MAX_INT32 ==>
                  (Increasing(t.emitted) <==> forall x <- s.emitted :: x.id == e.id ==> x.counter <= e.counter))
  {
    var e := s.disk[i];
    PicksOnly(Step(s, Restart), i);
    IncreasingMore(s.emitted, Emission(e.id, Increment(e.counter)));
  }

  /** One failed save, then a restart and the same sign-in: the same counter twice. */
  lemma FailedSaveRepeats(s: State, i: nat, written: bool)
    requires Inv(s) && s.phase == Idle && s.disk == s.mem && i < |s.mem|
    ensures var e := s.mem[i];
            var t := Ceremony(s, e.rp.id, Some([e.id]), false, true);
            var u := Ceremony(Step(t, Restart), e.rp.id, Some([e.id]), written, true);
            var x := Emission(e.id, Increment(e.counter));
            u.emitted == s.emitted + [x, x] && !Increasing(u.emitted)
  {
    var e := s.mem[i];
    PicksOnly(s, i);
    var t := Ceremony(s, e.rp.id, Some([e.id]), false, true);
    assert t.disk == s.mem;
    PicksOnly(Step(t, Restart), i);
    var u := Ceremony(Step(t, Restart), e.rp.id, Some([e.id]), written, true);
    assert u.emitted[|s.emitted|] == u.emitted[|s.emitted| + 1];
  }
}
