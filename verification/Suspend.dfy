/** Suspend against the attach watchdog (`sleep_linux.go`, `server_linux.go`): the
    goroutine that handles sleep signals and the watchdog loop, step by step. */
module Suspend {
  import opened Machines
  import opened Wrappers

  /** The handler waits for a signal; going down it marks the suspend, detaches, closes
      the lock; coming up it takes a lock, clears the mark, re-attaches. */
  datatype Handler = Waiting | Marked | Detached | Rearmed | Cleared

  /** The watchdog sleeps; having read "not pending" it checks; having seen no device it
      attaches. */
  datatype Watchdog = Sleeping | Checking | Attaching

  type Lock = nat

  /** `Close` is the handler's; `Collect` is the finalizer that `os.NewFile` sets, which
      closes a file that nothing refers to at some later garbage collection. */
  datatype Event =
    | Mark | Detach | Close(lock: Lock) | Take(lock: Lock) | Clear | Reattach | WatchdogAttach | Collect(lock: Lock)

  datatype State = State(
    pending: bool, handler: Handler, watchdog: Watchdog, lock: Option<Lock>, next: Lock, log: seq<Event>)

  /** A sleep signal (and whether logind grants a lock, if one is asked for), the
      handler's next step on it, the watchdog's steps, and a collection. */
  datatype Action =
    | Signal(down: bool, granted: bool) | Handle | Poll | Check(attached: bool) | Attach | CollectGarbage(lock: Lock)

  predicate Closed(log: seq<Event>, l: Lock) {
    Close(l) in log || Collect(l) in log
  }

  /** The locks that logind still holds the machine awake for. */
  function Open(s: State): set<Lock> {
    set l | 0 <= l < s.next && !Closed(s.log, l)
  }

  function Logged(s: State, e: Event): State {
    s.(log := s.log + [e])
  }

  function Step(s: State, a: Action): State {
    match a
    case Signal(down, granted) =>
      if !s.handler.Waiting? then s
      else if down then Logged(s, Mark).(pending := true, handler := Marked)
      else if granted then Logged(s, Take(s.next)).(lock := Some(s.next), next := s.next + 1, handler := Rearmed)
      else s.(lock := None, handler := Rearmed)
    case Handle =>
      (match s.handler
       case Waiting => s
       case Marked => Logged(s, Detach).(handler := Detached)
       case Detached => (if s.lock.Some? then Logged(s, Close(s.lock.value)) else s).(lock := None, handler := Waiting)
       case Rearmed => Logged(s, Clear).(pending := false, handler := Cleared)
       case Cleared => Logged(s, Reattach).(handler := Waiting))
    case Poll => if s.watchdog.Sleeping? && !s.pending then s.(watchdog := Checking) else s
    case Check(attached) => if !s.watchdog.Checking? then s else s.(watchdog := if attached then Sleeping else Attaching)
    case Attach => if !s.watchdog.Attaching? then s else Logged(s, WatchdogAttach).(watchdog := Sleeping)
    case CollectGarbage(l) => if l !in Open(s) || s.lock == Some(l) then s else Logged(s, Collect(l))
  }

  function After(s: State, actions: seq<Action>): State {
    Final((s, a) => (Step(s, a), ()), s, actions)
  }

  /** The bridge after its first attach; the first lock can have been refused. */
  function Started(granted: bool): State {
    State(false, Waiting, Sleeping, if granted then Some(0) else None, if granted then 1 else 0, [])
  }

  lemma AfterMore(s: State, actions: seq<Action>)
    requires actions != []
    ensures var n := |actions| - 1; After(s, actions) == Step(After(s, actions[..n]), actions[n])
  {
    var n := |actions| - 1;
    assert actions == actions[..n] + [actions[n]];
    Append((s, a) => (Step(s, a), ()), s, actions[..n], actions[n]);
  }

  // ------------------------------------------------------------- the two loops

  /** A signal off the bus: something else, or a sleep signal. */
  datatype BusSignal = Other | PrepareForSleep(down: bool, granted: bool)

  function Steps(signals: seq<BusSignal>): seq<Action> {
    if signals == [] then []
    else
      var n := |signals| - 1;
      Steps(signals[..n]) + match signals[n]
                            case Other => []
                            case PrepareForSleep(down, granted) => [Signal(down, granted), Handle, Handle]
  }

  class Bridge {
    var sleepPending: bool
    var lock: Option<Lock>
    var nextLock: Lock
    ghost var log: seq<Event>

    ghost function View(): State
      reads this
    {
      State(sleepPending, Waiting, Sleeping, lock, nextLock, log)
    }

    constructor (granted: bool)
      ensures View() == Started(granted)
    {
      sleepPending, lock, nextLock, log := false, if granted then Some(0) else None, if granted then 1 else 0, [];
    }

    /** `handleSleepSignals`, run alone until the channel is closed. */
    method HandleSleepSignals(signals: seq<BusSignal>)
      modifies this
      ensures View() == After(old(View()), Steps(signals))
    {
      ghost var before := View();
      for i := 0 to |signals|
        invariant View() == After(before, Steps(signals[..i]))
      {
        StepsMore(signals, i);
        match signals[i] {
          case Other =>
          case PrepareForSleep(down, granted) =>
            ThreeMore(before, Steps(signals[..i]), Signal(down, granted));
            HandleSleepSignal(down, granted);
        }
      }
      assert signals[..|signals|] == signals;
    }

    /** What the handler does for one sleep signal. */
    method HandleSleepSignal(down: bool, granted: bool)
      modifies this
      ensures View() == Step(Step(Step(old(View()), Signal(down, granted)), Handle), Handle)
    {
      if down {
        sleepPending := true;
        log := log + [Mark];
        log := log + [Detach];
        if lock.Some? {
          log := log + [Close(lock.value)];
          lock := None;
        }
      } else {
        if granted {
          lock := Some(nextLock);
          log := log + [Take(nextLock)];
          nextLock := nextLock + 1;
        } else {
          lock := None;
        }
        sleepPending := false;
        log := log + [Clear];
        log := log + [Reattach];
      }
    }

    /** One turn of the watchdog loop, run alone. */
    method Turn(attached: bool)
      modifies this`log
      ensures View() == Step(Step(Step(old(View()), Poll), Check(attached)), Attach)
      ensures log == old(log) + if !sleepPending && !attached then [WatchdogAttach] else []
    {
      if sleepPending { return; }
      if attached { return; }
      log := log + [WatchdogAttach];
    }
  }

  lemma StepsMore(signals: seq<BusSignal>, i: nat)
    requires i < |signals|
    ensures Steps(signals[..i + 1]) ==
            if signals[i].Other? then Steps(signals[..i])
            else Steps(signals[..i]) + [Signal(signals[i].down, signals[i].granted), Handle, Handle]
  {
    assert signals[..i + 1][..i] == signals[..i];
  }

  lemma ThreeMore(s: State, actions: seq<Action>, a: Action)
    ensures After(s, actions + [a, Handle, Handle]) == Step(Step(Step(After(s, actions), a), Handle), Handle)
  {
    var all := actions + [a, Handle, Handle];
    var n := |actions|;
    assert all[..n + 2][..n + 1] == all[..n + 1] && all[..n + 1][..n] == actions;
    AfterMore(s, all);
    AfterMore(s, all[..n + 2]);
    AfterMore(s, all[..n + 1]);
  }

  // ------------------------------------------- no attach into a pending suspend

  function Attaches(log: seq<Event>): nat {
    if log == [] then 0
    else Attaches(log[..|log| - 1]) + if log[|log| - 1] == WatchdogAttach then 1 else 0
  }

  /** The watchdog's iterations that have already read "not pending". */
  function InFlight(s: State): nat {
    if s.watchdog.Sleeping? then 0 else 1
  }

  /** No step of the run clears the mark. */
  ghost predicate StaysPending(s: State, actions: seq<Action>) {
    forall n :: 0 <= n <= |actions| ==> After(s, actions[..n]).pending
  }

  lemma StaysPendingLess(s: State, actions: seq<Action>)
    requires StaysPending(s, actions) && actions != []
    ensures StaysPending(s, actions[..|actions| - 1]) && After(s, actions[..|actions| - 1]).pending
  {
    var n := |actions| - 1;
    forall k | 0 <= k <= n ensures After(s, actions[..n][..k]).pending {
      assert actions[..n][..k] == actions[..k];
    }
  }

  lemma AttachesMore(log: seq<Event>, e: Event)
    ensures Attaches(log + [e]) == Attaches(log) + if e == WatchdogAttach then 1 else 0
  {
    assert (log + [e])[..|log|] == log;
  }

  lemma OtherEvent(log: seq<Event>, log': seq<Event>)
    requires log' == log || (|log'| == |log| + 1 && log' == log + [log'[|log|]] && !log'[|log|].WatchdogAttach?)
    ensures Attaches(log') == Attaches(log)
  {
    if log' != log {
      AttachesMore(log, log'[|log|]);
    }
  }

  lemma PendingStep(s: State, a: Action)
    requires s.pending
    ensures Attaches(Step(s, a).log) + InFlight(Step(s, a)) <= Attaches(s.log) + InFlight(s)
  {
    if a.Attach? && s.watchdog.Attaching? {
      AttachesMore(s.log, WatchdogAttach);
    } else {
      OtherEvent(s.log, Step(s, a).log);
    }
  }

  /** While a suspend is pending, whatever the interleaving, the watchdog attaches at
      most once, and not at all if no iteration was in flight when it was marked. */
  lemma {:induction false} AtMostOneAttach(s: State, actions: seq<Action>)
    requires StaysPending(s, actions)
    ensures Attaches(After(s, actions).log) + InFlight(After(s, actions)) <= Attaches(s.log) + InFlight(s)
  {
    if actions != [] {
      var n := |actions| - 1;
      StaysPendingLess(s, actions);
      AtMostOneAttach(s, actions[..n]);
      AfterMore(s, actions);
      PendingStep(After(s, actions[..n]), actions[n]);
    }
  }

  /** The code's comment on the mark says that the watchdog cannot re-attach between the
      detach and the suspend. With an iteration in flight it does: here it puts the port
      back after the detach and before the lock is closed. */
  lemma AttachAfterDetach(s: State)
    requires s.handler.Waiting? && !s.watchdog.Sleeping?
    ensures var t := Step(Step(Step(Step(s, Signal(true, false)), Handle), Check(false)), Attach);
            t.handler.Detached? && t.log == s.log + [Mark, Detach, WatchdogAttach]
  {
  }

  /** The bound is exact: the watchdog can attach while a suspend is pending exactly if
      an iteration was in flight when the suspend was marked. */
  lemma AttachAfterDetachIff(s: State)
    requires s.handler.Waiting?
    ensures var t := Step(s, Signal(true, false));
            (exists actions :: StaysPending(t, actions) && Attaches(After(t, actions).log) > Attaches(t.log)) <==>
              !s.watchdog.Sleeping?
  {
    var t := Step(s, Signal(true, false));
    if !s.watchdog.Sleeping? {
      InFlightAttaches(t);
    } else {
      forall actions | StaysPending(t, actions) ensures Attaches(After(t, actions).log) <= Attaches(t.log) {
        AtMostOneAttach(t, actions);
      }
    }
  }

  lemma InFlightAttaches(t: State)
    requires t.pending && !t.watchdog.Sleeping?
    ensures StaysPending(t, [Check(false), Attach]) && Attaches(After(t, [Check(false), Attach]).log) > Attaches(t.log)
  {
    var actions := [Check(false), Attach];
    assert actions[..1][..0] == [] && actions[..0] == [] && actions[..2] == actions;
    AfterMore(t, actions);
    AfterMore(t, actions[..1]);
    AttachesMore(t.log, WatchdogAttach);
  }

  // ------------------------------------------------------------------ the port

  /** The port is attached at first, and then as the last detach or attach left it. */
  predicate Attached(log: seq<Event>) {
    if log == [] then true
    else
      var e := log[|log| - 1];
      if e.Detach? then false else if e.Reattach? || e.WatchdogAttach? then true else Attached(log[..|log| - 1])
  }

  lemma AttachedMore(log: seq<Event>, e: Event)
    ensures Attached(log + [e]) <==> !e.Detach? && (e.Reattach? || e.WatchdogAttach? || Attached(log))
  {
    assert (log + [e])[..|log|] == log;
  }

  /** A resume signal ends with the mark cleared and then the port attached, a suspend
      signal with the port detached and then the lock closed, if there is one. */
  lemma SignalEnds(s: State, down: bool, granted: bool)
    requires s.handler.Waiting?
    ensures var t := Step(Step(Step(s, Signal(down, granted)), Handle), Handle);
            && t.handler.Waiting? && t.pending == down && (Attached(t.log) <==> !down)
            && t.log == s.log + (if down then [Mark, Detach] + (if s.lock.Some? then [Close(s.lock.value)] else [])
                                 else (if granted then [Take(s.next)] else []) + [Clear, Reattach])
  {
    var t := Step(Step(Step(s, Signal(down, granted)), Handle), Handle);
    if down {
      AttachedMore(s.log + [Mark], Detach);
      if s.lock.Some? {
        AttachedMore(s.log + [Mark] + [Detach], Close(s.lock.value));
      }
    } else {
      AttachedMore(t.log[..|t.log| - 1], Reattach);
    }
  }

  /** What every step keeps. */
  predicate PortOk(s: State) {
    && (s.handler.Waiting? && !s.pending ==> Attached(s.log))
    && (s.handler.Marked? || s.handler.Detached? ==> s.pending) && (s.handler.Cleared? ==> !s.pending)
  }

  lemma OtherKeepsPort(s: State, t: State)
    requires PortOk(s) && t.handler == s.handler && t.pending == s.pending
    requires t.log == s.log || (exists e :: t.log == s.log + [e] && !e.Detach?)
    ensures PortOk(t)
  {
    if t.log != s.log {
      var e :| t.log == s.log + [e] && !e.Detach?;
      AttachedMore(s.log, e);
    }
  }

  lemma PortStep(s: State, a: Action)
    requires PortOk(s)
    ensures PortOk(Step(s, a))
  {
    var t := Step(s, a);
    if a.Handle? && s.handler.Cleared? {
      AttachedMore(s.log, Reattach);
    } else if a.Attach? && s.watchdog.Attaching? {
      assert t.log == s.log + [WatchdogAttach];
      OtherKeepsPort(s, t);
    } else if a.CollectGarbage? && t.log != s.log {
      assert t.log == s.log + [Collect(a.lock)];
      OtherKeepsPort(s, t);
    }
  }

  /** Over every run: between signals, outside a suspend, the port is attached. */
  lemma {:induction false} AttachedOutsideSuspend(granted: bool, actions: seq<Action>)
    ensures var s := After(Started(granted), actions); s.handler.Waiting? && !s.pending ==> Attached(s.log)
    ensures PortOk(After(Started(granted), actions))
  {
    if actions != [] {
      AttachedOutsideSuspend(granted, actions[..|actions| - 1]);
      AfterMore(Started(granted), actions);
      PortStep(After(Started(granted), actions[..|actions| - 1]), actions[|actions| - 1]);
    }
  }

  // ----------------------------------------------------------------- the locks

  /** The handler's latest event in the log. */
  function LastOfHandler(log: seq<Event>): Option<Event> {
    if log == [] then None
    else
      var e := log[|log| - 1];
      if e.WatchdogAttach? || e.Collect? then LastOfHandler(log[..|log| - 1]) else Some(e)
  }

  /** What every step keeps, for any signals: a lock in hand is open, a lock is closed
      once at most, and by the handler right after a detach, which comes right after a
      mark. */
  ghost predicate LocksOk(s: State) {
    && (s.lock.Some? ==> s.lock.value < s.next && !Closed(s.log, s.lock.value))
    && (forall l: Lock :: Closed(s.log, l) ==> l < s.next)
    && (s.handler.Marked? ==> LastOfHandler(s.log) == Some(Mark))
    && (s.handler.Detached? ==> LastOfHandler(s.log) == Some(Detach))
    && Disciplined(s.log)
  }

  /** What the log before it allows an event to be. */
  predicate Allowed(before: seq<Event>, e: Event) {
    && (e.Close? ==> !Closed(before, e.lock) && LastOfHandler(before) == Some(Detach))
    && (e.Detach? ==> LastOfHandler(before) == Some(Mark))
    && (e.Collect? ==> !Closed(before, e.lock))
  }

  predicate Disciplined(log: seq<Event>) {
    log != [] ==> Disciplined(log[..|log| - 1]) && Allowed(log[..|log| - 1], log[|log| - 1])
  }

  lemma LogMore(log: seq<Event>, e: Event)
    ensures LastOfHandler(log + [e]) == if e.WatchdogAttach? || e.Collect? then LastOfHandler(log) else Some(e)
    ensures forall l: Lock :: Closed(log + [e], l) <==> Closed(log, l) || e == Close(l) || e == Collect(l)
    ensures Disciplined(log + [e]) <==> Disciplined(log) && Allowed(log, e)
  {
    assert (log + [e])[..|log|] == log;
  }

  /** A step that notes an event the log allows. */
  lemma NotedOk(s: State, t: State, e: Event)
    requires LocksOk(s) && t.log == s.log + [e] && Allowed(s.log, e)
    requires t.next == if e == Take(s.next) then s.next + 1 else s.next
    requires t.lock == s.lock || t.lock == None || (e == Take(s.next) && t.lock == Some(s.next))
    requires (e.Close? || e.Collect?) ==> e.lock < s.next && t.lock != Some(e.lock)
    requires t.handler.Marked? ==> e.Mark? || (s.handler.Marked? && (e.WatchdogAttach? || e.Collect?))
    requires t.handler.Detached? ==> e.Detach? || (s.handler.Detached? && (e.WatchdogAttach? || e.Collect?))
    ensures LocksOk(t)
  {
    LogMore(s.log, e);
  }

  lemma HandleKeepsLocks(s: State)
    requires LocksOk(s)
    ensures LocksOk(Step(s, Handle))
  {
    var t := Step(s, Handle);
    match s.handler
    case Waiting =>
    case Marked => NotedOk(s, t, Detach);
    case Detached =>
      if s.lock.Some? {
        NotedOk(s, t, Close(s.lock.value));
      }
    case Rearmed => NotedOk(s, t, Clear);
    case Cleared => NotedOk(s, t, Reattach);
  }

  lemma LocksStep(s: State, a: Action)
    requires LocksOk(s)
    ensures LocksOk(Step(s, a))
  {
    var t := Step(s, a);
    match a
    case Handle => HandleKeepsLocks(s);
    case Signal(down, granted) =>
      if t.log != s.log {
        NotedOk(s, t, if down then Mark else Take(s.next));
      }
    case Poll =>
    case Check(attached) =>
    case Attach =>
      if t.log != s.log {
        NotedOk(s, t, WatchdogAttach);
      }
    case CollectGarbage(l) =>
      if t.log != s.log {
        NotedOk(s, t, Collect(l));
      }
  }

  lemma {:induction false} LocksRun(granted: bool, actions: seq<Action>)
    ensures LocksOk(After(Started(granted), actions))
  {
    if actions != [] {
      LocksRun(granted, actions[..|actions| - 1]);
      AfterMore(Started(granted), actions);
      LocksStep(After(Started(granted), actions[..|actions| - 1]), actions[|actions| - 1]);
    }
  }

  lemma {:induction false} DisciplinedAt(log: seq<Event>, k: nat)
    requires Disciplined(log) && k < |log|
    ensures Allowed(log[..k], log[k])
  {
    var n := |log| - 1;
    if k < n {
      DisciplinedAt(log[..n], k);
      assert log[..n][..k] == log[..k] && log[..n][k] == log[k];
    }
  }

  /** Over every run, with any signals in any order, locks granted or refused, and
      collections at any time: no lock is closed twice, by whomever; and the handler
      closes a lock only after the detach of its own suspend. */
  lemma LocksClosedInOrder(granted: bool, actions: seq<Action>, k: nat)
    requires k < |After(Started(granted), actions).log|
    ensures var log := After(Started(granted), actions).log;
            && (log[k].Close? || log[k].Collect? ==> !Closed(log[..k], log[k].lock))
            && (log[k].Close? ==> LastOfHandler(log[..k]) == Some(Detach))
            && (log[k].Detach? ==> LastOfHandler(log[..k]) == Some(Mark))
  {
    LocksRun(granted, actions);
    DisciplinedAt(After(Started(granted), actions).log, k);
  }

  /** Exactly the lock in hand is open outside a suspend, and from the moment it is taken
      on a resume; none is between a suspend and its resume. */
  predicate Healthy(s: State) {
    match s.handler
    case Waiting => if s.pending then s.lock == None && Open(s) == {} else s.lock.Some? && Open(s) == {s.lock.value}
    case Rearmed => s.lock.Some? && Open(s) == {s.lock.value}
    case Cleared => s.lock.Some? && Open(s) == {s.lock.value}
    case _ => true
  }

  /** A resume signal comes while a suspend is pending, and logind grants the lock. */
  predicate GoodResume(s: State, a: Action) {
    s.handler.Waiting? && a.Signal? && !a.down ==> s.pending && a.granted
  }

  function InHand(s: State): set<Lock> {
    if s.lock.Some? then {s.lock.value} else {}
  }

  /** What good resumes keep. */
  ghost predicate OneLock(s: State) {
    && LocksOk(s) && Healthy(s) && Open(s) == InHand(s)
    && (s.handler.Marked? || s.handler.Detached? || s.handler.Rearmed? ==> s.pending)
    && (s.handler.Cleared? ==> !s.pending)
  }

  lemma OpenMore(s: State, t: State, e: Event)
    requires LocksOk(s) && t.log == s.log + [e] && t.next == (if e == Take(s.next) then s.next + 1 else s.next)
    ensures e == Take(s.next) ==> Open(t) == Open(s) + {s.next}
    ensures e.Close? || e.Collect? ==> Open(t) == Open(s) - {e.lock}
    ensures !e.Take? && !e.Close? && !e.Collect? ==> Open(t) == Open(s)
  {
    LogMore(s.log, e);
  }

  lemma OneLockStep(s: State, a: Action)
    requires OneLock(s) && GoodResume(s, a)
    ensures OneLock(Step(s, a))
  {
    LocksStep(s, a);
    var t := Step(s, a);
    if t.log != s.log {
      OpenMore(s, t, t.log[|t.log| - 1]);
    } else {
      assert Open(t) == Open(s);
    }
  }

  lemma BadResumeSpoils(s: State, a: Action)
    requires LocksOk(s) && Healthy(s) && !GoodResume(s, a)
    ensures !Healthy(Step(s, a))
  {
    if a.granted {
      OpenMore(s, Step(s, a), Take(s.next));
      assert s.lock.value in Open(s) && s.lock.value != s.next;
    }
  }

  lemma {:induction false} GoodRunKeepsOneLock(actions: seq<Action>)
    requires forall n :: 0 <= n < |actions| ==> GoodResume(After(Started(true), actions[..n]), actions[n])
    ensures OneLock(After(Started(true), actions))
  {
    var s0 := Started(true);
    if actions == [] {
      assert Open(s0) == {0};
    } else {
      var n := |actions| - 1;
      forall k | 0 <= k < n ensures GoodResume(After(s0, actions[..n][..k]), actions[..n][k]) {
        assert actions[..n][..k] == actions[..k] && actions[..n][k] == actions[k];
      }
      GoodRunKeepsOneLock(actions[..n]);
      AfterMore(s0, actions);
      OneLockStep(After(s0, actions[..n]), actions[n]);
    }
  }

  ghost predicate AlwaysHealthy(granted: bool, actions: seq<Action>) {
    forall n :: 0 <= n <= |actions| ==> Healthy(After(Started(granted), actions[..n]))
  }

  ghost predicate GoodResumes(granted: bool, actions: seq<Action>) {
    granted && forall n :: 0 <= n < |actions| ==> GoodResume(After(Started(granted), actions[..n]), actions[n])
  }

  lemma AfterOneMore(s: State, actions: seq<Action>, n: nat)
    requires n < |actions|
    ensures After(s, actions[..n + 1]) == Step(After(s, actions[..n]), actions[n])
  {
    assert actions[..n + 1][..n] == actions[..n];
    AfterMore(s, actions[..n + 1]);
  }

  /** Over every run, with collections at any time: exactly one lock is open outside a
      suspend, the one in hand, and none inside, throughout the run if and only if the
      first lock is granted and every resume signal comes while a suspend is pending and
      gets its lock. A second suspend signal in a row does no harm. */
  lemma OneLockOutsideSuspend(granted: bool, actions: seq<Action>)
    ensures AlwaysHealthy(granted, actions) <==> GoodResumes(granted, actions)
  {
    var s0 := Started(granted);
    if GoodResumes(granted, actions) {
      forall n | 0 <= n <= |actions| ensures Healthy(After(s0, actions[..n])) {
        forall k | 0 <= k < n ensures GoodResume(After(s0, actions[..n][..k]), actions[..n][k]) {
          assert actions[..n][..k] == actions[..k] && actions[..n][k] == actions[k];
        }
        GoodRunKeepsOneLock(actions[..n]);
      }
    }
    if AlwaysHealthy(granted, actions) {
      assert Healthy(After(s0, actions[..0]));
      forall n | 0 <= n < |actions| ensures GoodResume(After(s0, actions[..n]), actions[n]) {
        LocksRun(granted, actions[..n]);
        AfterOneMore(s0, actions, n);
        assert Healthy(After(s0, actions[..n + 1]));
        if !GoodResume(After(s0, actions[..n]), actions[n]) {
          BadResumeSpoils(After(s0, actions[..n]), actions[n]);
        }
      }
    }
  }

  /** The lock has been taken, is not in hand, and the handler has not closed it. */
  predicate Forgotten(s: State, l: Lock) {
    l < s.next && Close(l) !in s.log && s.lock != Some(l)
  }

  lemma ForgottenStep(s: State, l: Lock, a: Action)
    requires Forgotten(s, l)
    ensures Forgotten(Step(s, a), l)
  {
  }

  lemma {:induction false} ForgottenRun(s: State, l: Lock, actions: seq<Action>)
    requires Forgotten(s, l)
    ensures Forgotten(After(s, actions), l)
  {
    if actions != [] {
      ForgottenRun(s, l, actions[..|actions| - 1]);
      AfterMore(s, actions);
      ForgottenStep(After(s, actions[..|actions| - 1]), l, actions[|actions| - 1]);
    }
  }

  /** A resume signal outside a suspend forgets the lock in hand. Whatever happens then,
      the handler does not close it: it stays open, and delays every suspend, exactly
      until a garbage collection closes it, which can happen at any time. */
  lemma OnlyCollectionCloses(s: State, granted: bool, actions: seq<Action>)
    requires LocksOk(s) && s.handler.Waiting? && s.lock.Some?
    ensures var l, t := s.lock.value, After(Step(s, Signal(false, granted)), actions);
            && Close(l) !in t.log
            && (l in Open(t) <==> Collect(l) !in t.log)
            && l !in Open(Step(t, CollectGarbage(l)))
  {
    LogMore(s.log, Take(s.next));
    ForgottenRun(Step(s, Signal(false, granted)), s.lock.value, actions);
  }
}
