/** How many comparisons overlapping PIN requests can get out of a process that allows
    eight, by how many of them are in flight at a time, over all channels. */
module PinLimit {
  import opened Bytes
  import opened Pin
  import opened PinThreads
  import opened Wrappers

  /** The handlers that have not finished. */
  function InFlight(pcs: map<Tid, Pc>): set<Tid> {
    set t | t in pcs && !pcs[t].Finished?
  }

  /** At no point of the run are more than k handlers in flight. */
  ghost predicate AtMost(c: Crypto, s: Machine, actions: seq<Action>, k: nat) {
    forall n :: 0 <= n <= |actions| ==> |InFlight(Ran(c, s, actions[..n]).pcs)| <= k
  }

  /** No request carries the PIN hash. */
  predicate OnlyGuesses(c: Crypto, hash: seq<byte>, actions: seq<Action>) {
    forall a <- actions :: a.Start? ==> Misses(c, hash, a.r)
  }

  // ------------------------------------------------------------ the arithmetic

  /** The binomial coefficient of m + v over v, by Pascal's rule; none below zero. */
  function Ways(m: int, v: nat): nat
    decreases m + v
  {
    if m < 0 then 0 else if v == 0 then 1 else Ways(m - 1, v) + Ways(m, v - 1)
  }

  lemma {:induction false} WaysGrow(m: int, v: nat)
    ensures Ways(m, v) <= Ways(m + 1, v)
    ensures m >= 0 ==> Ways(m, v) >= 1
    decreases m + v
  {
    if m >= 0 && v > 0 {
      WaysGrow(m - 1, v);
      WaysGrow(m, v - 1);
    }
  }

  /** The most comparisons with k handlers in flight. */
  function Most(k: nat): nat {
    WaysGrow(k, MAX_RETRIES);
    Ways(k, MAX_RETRIES) - 1
  }

  lemma MostIs()
    ensures Most(0) == 0 && Most(1) == 8 && Most(2) == 44
  {
    assert Ways(1, 4) == 5 && Ways(2, 4) == 15;
  }

  lemma {:induction false} WaysMonotone(m: int, n: int, v: nat)
    requires m <= n
    ensures Ways(m, v) <= Ways(n, v)
    decreases n - m
  {
    if m < n {
      WaysGrow(m, v);
      WaysMonotone(m + 1, n, v);
    }
  }

  /** The comparisons that can have been made when the counter is down to `low` and h(v)
      handlers are about to write back at least v - 1. */
  function Room(k: nat, h: nat -> nat, low: nat, high: nat): nat
    decreases high
  {
    if high <= low then 0 else Room(k, h, low, high - 1) + Ways(k - 1 - h(high), high)
  }

  lemma {:induction false} RoomSame(k: nat, h: nat -> nat, g: nat -> nat, low: nat, high: nat)
    requires forall v :: low < v <= high ==> h(v) == g(v)
    ensures Room(k, h, low, high) == Room(k, g, low, high)
    decreases high
  {
    if high > low {
      RoomSame(k, h, g, low, high - 1);
    }
  }

  lemma {:induction false} RoomSplit(k: nat, h: nat -> nat, low: nat, mid: nat, high: nat)
    requires low <= mid <= high
    ensures Room(k, h, low, high) == Room(k, h, low, mid) + Room(k, h, mid, high)
    decreases high
  {
    if high > mid {
      RoomSplit(k, h, low, mid, high - 1);
    }
  }

  lemma {:induction false} RoomBelow(k: nat, h: nat -> nat, m: int, low: nat, high: nat)
    requires forall v :: low < v <= high ==> k - h(v) <= m
    requires m >= 0
    ensures Room(k, h, low, high) < Ways(m, high)
    decreases high
  {
    WaysGrow(m, high);
    if high > low {
      RoomBelow(k, h, m, low, high - 1);
      WaysMonotone(k - 1 - h(high), m - 1, high);
    }
  }

  /** A handler that was to write back x - 1 does so, where the counter is above that. */
  lemma WriteLowers(k: nat, h: nat -> nat, low: nat, x: nat)
    requires 1 <= x <= low && h(x) <= k
    ensures Room(k, h, x, low) + Ways(k - h(x), x) > 0
  {
    WaysGrow(k - h(x), x);
  }

  /** Or below: what the handlers in between were good for is one less than that one. */
  lemma WriteRaises(k: nat, h: nat -> nat, low: nat, x: nat)
    requires low < x && h(x) <= k && forall v: nat :: 1 <= v <= x ==> h(x) <= h(v)
    ensures Room(k, h, low, x) < Ways(k - h(x), x)
  {
    RoomBelow(k, h, k - h(x), low, x - 1);
  }

  /** Either way it allows one comparison more. */
  lemma WriteAllows(k: nat, h: nat -> nat, g: nat -> nat, low: nat, x: nat, high: nat)
    requires 1 <= x <= high && low <= high && 1 <= h(x) <= k
    requires forall v: nat :: 1 <= v <= x ==> h(x) <= h(v)
    requires g(x) == h(x) - 1 && forall v: nat :: v > x ==> g(v) == h(v)
    ensures Room(k, g, x - 1, high) > Room(k, h, low, high)
  {
    RoomSplit(k, g, x - 1, x, high);
    RoomSame(k, g, h, x, high);
    assert Room(k, g, x - 1, x) == Room(k, g, x - 1, x - 1) + Ways(k - h(x), x);
    if low < x {
      RoomSplit(k, h, low, x, high);
      WriteRaises(k, h, low, x);
    } else {
      RoomSplit(k, h, x, low, high);
      WriteLowers(k, h, low, x);
    }
  }

  // ------------------------------------------------------------ the upper bound

  /** A handler that is about to spend n retries less one, or has passed the assertion of
      a counter of one at least, as the counter that it will be about to write back. */
  function Held(pc: Pc): nat {
    match pc
    case Spend(_, n) => if n >= 1 then n else 1
    case Fetch(_) => 1
    case _ => 0
  }

  function Holding(pcs: map<Tid, Pc>, v: nat): set<Tid> {
    set t | t in pcs && Held(pcs[t]) >= v
  }

  function Holders(pcs: map<Tid, Pc>): nat -> nat {
    (v: nat) => |Holding(pcs, v)|
  }

  lemma Fewer<T>(a: set<T>, b: set<T>)
    requires a <= b
    ensures |a| <= |b|
  {
    assert b == a + (b - a);
  }

  lemma HoldersMove(pcs: map<Tid, Pc>, t: Tid, pc: Pc, v: nat)
    requires t in pcs
    ensures Holders(pcs[t := pc])(v) ==
            Holders(pcs)(v) + (if Held(pc) >= v then 1 else 0) - (if Held(pcs[t]) >= v then 1 else 0)
  {
    var rest := Holding(pcs, v) - {t};
    assert Holding(pcs, v) == if Held(pcs[t]) >= v then rest + {t} else rest;
    assert Holding(pcs[t := pc], v) == if Held(pc) >= v then rest + {t} else rest;
  }

  lemma HoldersOrder(pcs: map<Tid, Pc>, v: nat, w: nat)
    requires 1 <= v <= w
    ensures Holders(pcs)(w) <= Holders(pcs)(v) <= |InFlight(pcs)|
  {
    Fewer(Holding(pcs, w), Holding(pcs, v));
    Fewer(Holding(pcs, v), InFlight(pcs));
  }

  function Level(retries: int): nat {
    if retries < 0 then 0 else retries
  }

  predicate HeldOk(pcs: map<Tid, Pc>) {
    forall t <- pcs :: Held(pcs[t]) <= MAX_RETRIES
  }

  lemma OneMoves(c: Crypto, hash: seq<byte>, s: Machine, u: Machine, t: Tid, pc: Pc)
    requires AllGuessing(c, hash, s) && HeldOk(s.pcs) && u.hash == s.hash && u.pcs == s.pcs[t := pc]
    requires Guessing(c, hash, pc) && Held(pc) <= MAX_RETRIES
    ensures AllGuessing(c, hash, u) && HeldOk(u.pcs)
  {
  }

  /** What guesses keep with at most k of them in flight. */
  ghost predicate Limited(c: Crypto, hash: seq<byte>, s: Machine, k: nat) {
    && AllGuessing(c, hash, s) && s.retries <= MAX_RETRIES
    && HeldOk(s.pcs)
    && s.past.tries + |AtCompare(s.pcs)| <= Room(k, Holders(s.pcs), Level(s.retries), MAX_RETRIES)
  }

  /** A step other than a write-back changes what a handler holds up to the counter only. */
  lemma HoldsOn(c: Crypto, hash: seq<byte>, s: Machine, pc: Pc, v: nat)
    requires s.hash == Some(hash) && Guessing(c, hash, pc) && !pc.Spend?
    requires v > Level(s.retries) && s.retries <= MAX_RETRIES
    ensures var e := EffectOf(c, s, pc);
            && e.retries == s.retries && e.note != Some(Spent)
            && (e.next.Some? ==> (Held(e.next.value) >= v <==> Held(pc) >= v) && Held(e.next.value) <= MAX_RETRIES)
  {
  }

  lemma RoomStays(c: Crypto, hash: seq<byte>, s: Machine, t: Tid, k: nat)
    requires s.hash == Some(hash) && s.retries <= MAX_RETRIES && t in s.pcs && !s.pcs[t].Spend?
    requires Guessing(c, hash, s.pcs[t]) && EffectOf(c, s, s.pcs[t]).next.Some?
    ensures var next := EffectOf(c, s, s.pcs[t]).next.value;
            Room(k, Holders(s.pcs[t := next]), Level(s.retries), MAX_RETRIES) ==
            Room(k, Holders(s.pcs), Level(s.retries), MAX_RETRIES)
  {
    var next := EffectOf(c, s, s.pcs[t]).next.value;
    forall v: nat | Level(s.retries) < v <= MAX_RETRIES
      ensures Holders(s.pcs)(v) == Holders(s.pcs[t := next])(v)
    {
      HoldsOn(c, hash, s, s.pcs[t], v);
      HoldersMove(s.pcs, t, next, v);
    }
    RoomSame(k, Holders(s.pcs), Holders(s.pcs[t := next]), Level(s.retries), MAX_RETRIES);
  }

  lemma LimitedPut(c: Crypto, hash: seq<byte>, s: Machine, t: Tid, k: nat)
    requires Limited(c, hash, s, k) && t in s.pcs && !s.pcs[t].Spend?
    ensures Limited(c, hash, Put(s, t, EffectOf(c, s, s.pcs[t])), k)
  {
    var pc, e := s.pcs[t], EffectOf(c, s, s.pcs[t]);
    GuessGoesOn(c, hash, s, pc);
    HoldsOn(c, hash, s, pc, MAX_RETRIES + 1);
    if e.next.Some? {
      var next := e.next.value;
      OneMoves(c, hash, s, Put(s, t, e), t, next);
      AtCompareMoves(s.pcs, t, next);
      RoomStays(c, hash, s, t, k);
    }
  }

  /** Writing the counter back allows one comparison more. */
  lemma SpendAllows(pcs: map<Tid, Pc>, t: Tid, next: Pc, k: nat, low: nat)
    requires t in pcs && 1 <= Held(pcs[t]) <= MAX_RETRIES && Held(next) == 0 && |InFlight(pcs)| <= k
    requires low <= MAX_RETRIES
    ensures Room(k, Holders(pcs[t := next]), Held(pcs[t]) - 1, MAX_RETRIES) > Room(k, Holders(pcs), low, MAX_RETRIES)
  {
    var h, g, x := Holders(pcs), Holders(pcs[t := next]), Held(pcs[t]);
    forall v: nat | v >= x ensures g(v) == h(v) - if v == x then 1 else 0 {
      HoldersMove(pcs, t, next, v);
    }
    forall v: nat | 1 <= v <= x ensures h(x) <= h(v) {
      HoldersOrder(pcs, v, x);
    }
    HoldersOrder(pcs, x, x);
    assert t in Holding(pcs, x);
    WriteAllows(k, h, g, low, x, MAX_RETRIES);
  }

  lemma LimitedSpend(c: Crypto, hash: seq<byte>, s: Machine, t: Tid, k: nat)
    requires Limited(c, hash, s, k) && t in s.pcs && s.pcs[t].Spend? && |InFlight(s.pcs)| <= k
    ensures Limited(c, hash, Put(s, t, EffectOf(c, s, s.pcs[t])), k)
  {
    var next := Compare(s.pcs[t].r);
    OneMoves(c, hash, s, Put(s, t, EffectOf(c, s, s.pcs[t])), t, next);
    AtCompareMoves(s.pcs, t, next);
    SpendAllows(s.pcs, t, next, k, Level(s.retries));
  }

  /** A handler that holds nothing is not a holder. */
  lemma HoldersStart(pcs: map<Tid, Pc>, t: Tid, pc: Pc, k: nat, low: nat)
    requires t !in pcs && Held(pc) == 0
    ensures Room(k, Holders(pcs[t := pc]), low, MAX_RETRIES) == Room(k, Holders(pcs), low, MAX_RETRIES)
  {
    forall v: nat | low < v <= MAX_RETRIES ensures Holders(pcs)(v) == Holders(pcs[t := pc])(v) {
      assert Holding(pcs, v) == Holding(pcs[t := pc], v);
    }
    RoomSame(k, Holders(pcs), Holders(pcs[t := pc]), low, MAX_RETRIES);
  }

  lemma LimitedStart(c: Crypto, hash: seq<byte>, s: Machine, t: Tid, r: Request, k: nat)
    requires Limited(c, hash, s, k) && t !in s.pcs && Misses(c, hash, r)
    ensures Limited(c, hash, s.(pcs := s.pcs[t := Begin(r)]), k)
  {
    OneMoves(c, hash, s, s.(pcs := s.pcs[t := Begin(r)]), t, Begin(r));
    AtCompareMoves(s.pcs, t, Begin(r));
    HoldersStart(s.pcs, t, Begin(r), k, Level(s.retries));
  }

  lemma LimitedGo(c: Crypto, hash: seq<byte>, s: Machine, a: Action, k: nat)
    requires Limited(c, hash, s, k) && |InFlight(s.pcs)| <= k && (a.Start? ==> Misses(c, hash, a.r))
    ensures Limited(c, hash, Go(c, s, a), k)
  {
    match a
    case Start(t, r) =>
      if !s.dead && t !in s.pcs {
        LimitedStart(c, hash, s, t, r, k);
      }
    case Run(t) =>
      if !s.dead && t in s.pcs {
        if s.pcs[t].Spend? {
          LimitedSpend(c, hash, s, t, k);
        } else {
          LimitedPut(c, hash, s, t, k);
        }
      }
  }

  lemma FreshLimited(c: Crypto, enabled: bool, hash: seq<byte>, k: nat)
    ensures Limited(c, hash, Fresh(enabled, Some(hash)), k)
  {
    assert AtCompare(Fresh(enabled, Some(hash)).pcs) == {};
  }

  lemma {:induction false} LimitedRun(
      c: Crypto, enabled: bool, hash: seq<byte>, actions: seq<Action>, k: nat, n: nat)
    requires OnlyGuesses(c, hash, actions) && AtMost(c, Fresh(enabled, Some(hash)), actions, k) && n <= |actions|
    ensures Limited(c, hash, Ran(c, Fresh(enabled, Some(hash)), actions[..n]), k)
  {
    var s := Fresh(enabled, Some(hash));
    if n == 0 {
      FreshLimited(c, enabled, hash, k);
    } else {
      LimitedRun(c, enabled, hash, actions, k, n - 1);
      RanPrefix(c, s, actions, n - 1);
      assert actions[n - 1] in actions && |InFlight(Ran(c, s, actions[..n - 1]).pcs)| <= k;
      LimitedGo(c, hash, Ran(c, s, actions[..n - 1]), actions[n - 1], k);
    }
  }

  /** Over every run in which at most k handlers are in flight: requests that never carry
      the PIN hash get Most(k) comparisons at most, no token, and no change of the PIN. */
  lemma GuessesLimited(c: Crypto, enabled: bool, hash: seq<byte>, actions: seq<Action>, k: nat)
    requires OnlyGuesses(c, hash, actions) && AtMost(c, Fresh(enabled, Some(hash)), actions, k)
    ensures var s := Ran(c, Fresh(enabled, Some(hash)), actions);
            && s.past.tries <= Most(k) && s.hash == Some(hash)
            && forall t <- s.pcs :: s.pcs[t].Finished? ==> Ended(s.pcs[t])
  {
    assert actions[..|actions|] == actions;
    LimitedRun(c, enabled, hash, actions, k, |actions|);
    var s := Ran(c, Fresh(enabled, Some(hash)), actions);
    RoomBelow(k, Holders(s.pcs), k, Level(s.retries), MAX_RETRIES);
  }

  // ------------------------------------------------------- a run that reaches it

  lemma {:induction false} RunsOfOne(c: Crypto, s: Machine, actions: seq<Action>, t: Tid)
    requires forall a <- actions :: a.t == t
    ensures InFlight(Ran(c, s, actions).pcs) <= InFlight(s.pcs) + {t}
  {
    if actions != [] {
      var n := |actions| - 1;
      assert actions[n] in actions && forall a <- actions[..n] :: a in actions;
      RunsOfOne(c, s, actions[..n], t);
      RanMore(c, s, actions);
    }
  }

  /** Whatever one handler does adds one to those in flight at most. */
  lemma OneMoreAtMost(c: Crypto, s: Machine, actions: seq<Action>, t: Tid, k: nat)
    requires (forall a <- actions :: a.t == t) && |InFlight(s.pcs) + {t}| <= k
    ensures AtMost(c, s, actions, k)
  {
    forall n | 0 <= n <= |actions| ensures |InFlight(Ran(c, s, actions[..n]).pcs)| <= k {
      assert forall a <- actions[..n] :: a in actions;
      RunsOfOne(c, s, actions[..n], t);
      Fewer(InFlight(Ran(c, s, actions[..n]).pcs), InFlight(s.pcs) + {t});
    }
  }

  lemma AtMostThen(c: Crypto, s: Machine, a: seq<Action>, b: seq<Action>, k: nat)
    requires AtMost(c, s, a, k) && AtMost(c, Ran(c, s, a), b, k)
    ensures AtMost(c, s, a + b, k)
  {
    forall n | 0 <= n <= |a + b| ensures |InFlight(Ran(c, s, (a + b)[..n]).pcs)| <= k {
      if n <= |a| {
        assert (a + b)[..n] == a[..n];
      } else {
        assert (a + b)[..n] == a + b[..n - |a|];
        RanThen(c, s, a, b[..n - |a|]);
      }
    }
  }

  lemma FourParts(
      c: Crypto, s: Machine, a: seq<Action>, b: seq<Action>, d: seq<Action>, e: seq<Action>, k: nat)
    requires AtMost(c, s, a, k) && AtMost(c, Ran(c, s, a), b, k)
    requires AtMost(c, Ran(c, Ran(c, s, a), b), d, k) && AtMost(c, Ran(c, Ran(c, Ran(c, s, a), b), d), e, k)
    ensures Ran(c, s, a + b + d + e) == Ran(c, Ran(c, Ran(c, Ran(c, s, a), b), d), e)
    ensures AtMost(c, s, a + b + d + e, k)
  {
    RanThen(c, s, a, b);
    AtMostThen(c, s, a, b, k);
    RanThen(c, s, a + b, d);
    AtMostThen(c, s, a + b, d, k);
    RanThen(c, s, a + b + d, e);
    AtMostThen(c, s, a + b + d, e, k);
  }

  /** A process with a PIN set, in which the handlers from `next` on are not started. */
  predicate Open(s: Machine, hash: seq<byte>, next: Tid) {
    s.enabled && !s.dead && s.hash == Some(hash) && forall t <- s.pcs :: t < next
  }

  /** The handlers of s are where they were, and all later ones have finished. */
  predicate Resumes(s: Machine, u: Machine) {
    && (forall t <- s.pcs :: t in u.pcs && u.pcs[t] == s.pcs[t])
    && (forall t <- u.pcs :: t !in s.pcs ==> u.pcs[t].Finished?)
  }

  lemma SameInFlight(s: Machine, u: Machine)
    requires Resumes(s, u)
    ensures InFlight(u.pcs) == InFlight(s.pcs)
  {
  }

  predicate Sends(actions: seq<Action>, r: Request) {
    forall a <- actions :: a.Start? ==> a.r == r
  }

  function Reads(t: Tid, r: Request): seq<Action> {
    [Start(t, r), Run(t), Run(t), Run(t), Run(t)]
  }

  /** The state after a handler has written back what it read, and compared. */
  function Guessed(s: Machine, t: Tid, n: int): Machine {
    s.(retries := n - 1, pcs := s.pcs[t := Finished(Reply(PIN_INVALID, Empty))],
       past := Noted(Noted(s.past, t, Spent), t, Tried(false)))
  }

  lemma Guesses(c: Crypto, hash: seq<byte>, r: Request, s: Machine, t: Tid, n: int)
    requires WrongGuess(c, hash, r) && !s.dead && s.hash == Some(hash) && t in s.pcs && s.pcs[t] == Spend(r, n)
    ensures Ran(c, s, [Run(t), Run(t)]) == Guessed(s, t, n)
  {
    var actions := [Run(t), Run(t)];
    RanPrefix(c, s, actions, 0);
    RanPrefix(c, s, actions, 1);
    assert actions[..2] == actions;
    assert s.pcs[t := Compare(r)][t := Finished(Reply(PIN_INVALID, Empty))] ==
           s.pcs[t := Finished(Reply(PIN_INVALID, Empty))];
  }

  /** Handler t has read the counter and has not written it back. */
  function Waiting(s: Machine, t: Tid, r: Request): Machine {
    s.(pcs := s.pcs[t := Spend(r, s.retries)])
  }

  lemma ReadsAndWaits(c: Crypto, hash: seq<byte>, r: Request, s: Machine, t: Tid, k: nat)
    requires WrongGuess(c, hash, r) && Open(s, hash, t) && InRange(s.retries) && |InFlight(s.pcs)| < k
    ensures var u := Waiting(s, t, r);
            && Ran(c, s, Reads(t, r)) == u && Open(u, hash, t + 1)
            && InFlight(u.pcs) == InFlight(s.pcs) + {t} && |InFlight(u.pcs)| == |InFlight(s.pcs)| + 1
    ensures AtMost(c, s, Reads(t, r), k)
  {
    Readies(c, s, t, r);
    assert InFlight(Waiting(s, t, r).pcs) == InFlight(s.pcs) + {t};
    OneMoreAtMost(c, s, Reads(t, r), t, k);
  }

  /** Meanwhile others have brought the process to u. */
  lemma WritesAndTries(
      c: Crypto, hash: seq<byte>, r: Request, s: Machine, u: Machine, t: Tid, next: Tid, k: nat)
    requires WrongGuess(c, hash, r) && Open(s, hash, t) && Open(u, hash, next) && |InFlight(s.pcs)| < k
    requires Resumes(Waiting(s, t, r), u)
    ensures var v := Guessed(u, t, s.retries);
            && Ran(c, u, [Run(t), Run(t)]) == v && Open(v, hash, next)
            && Resumes(s, v) && InFlight(v.pcs) == InFlight(s.pcs)
    ensures AtMost(c, u, [Run(t), Run(t)], k)
  {
    Guesses(c, hash, r, u, t, s.retries);
    SameInFlight(Waiting(s, t, r), u);
    SameInFlight(s, Guessed(u, t, s.retries));
    assert InFlight(u.pcs) + {t} == InFlight(s.pcs) + {t};
    OneMoreAtMost(c, u, [Run(t), Run(t)], t, k);
  }

  lemma ResumesToo(s: Machine, u: Machine, v: Machine)
    requires Resumes(s, u) && Resumes(u, v)
    ensures Resumes(s, v)
  {
  }

  /** With j handlers to use and the counter at n: one reads the counter and waits, the
      others do the same thing with one handler less, it writes the counter back and
      compares, and all start again from n - 1. */
  lemma {:induction false} Play(
      c: Crypto, hash: seq<byte>, r: Request, s: Machine, next: Tid, j: nat, n: nat, k: nat)
    returns (actions: seq<Action>, last: Tid)
    requires WrongGuess(c, hash, r) && Open(s, hash, next) && s.retries == n <= MAX_RETRIES
    requires |InFlight(s.pcs)| + j <= k
    ensures var u := Ran(c, s, actions);
            Open(u, hash, last) && Resumes(s, u) && u.past.tries == s.past.tries + Ways(j, n) - 1
    ensures AtMost(c, s, actions, k) && Sends(actions, r)
    decreases j + n
  {
    if j == 0 || n == 0 {
      actions, last := [], next;
      assert Ways(j, n) == 1 by {
        WaysOne(j, n);
      }
    } else {
      var t := next;
      var s1 := Waiting(s, t, r);
      ReadsAndWaits(c, hash, r, s, t, k);
      var inner, next1 := Play(c, hash, r, s1, next + 1, j - 1, n, k);
      var u := Ran(c, s1, inner);
      WritesAndTries(c, hash, r, s, u, t, next1, k);
      var outer, next2 := Play(c, hash, r, Guessed(u, t, n), next1, j, n - 1, k);
      FourParts(c, s, Reads(t, r), inner, [Run(t), Run(t)], outer, k);
      actions, last := Reads(t, r) + inner + [Run(t), Run(t)] + outer, next2;
      ResumesToo(s, Guessed(u, t, n), Ran(c, Guessed(u, t, n), outer));
    }
  }

  lemma {:induction false} WaysOne(m: nat, v: nat)
    requires m == 0 || v == 0
    ensures Ways(m, v) == 1
  {
    if v > 0 {
      WaysOne(m, v - 1);
    }
  }

  /** The bound is sharp: with at most k handlers in flight, guesses get no more than n
      comparisons out of every run exactly if n is Most(k) at least. */
  lemma SharpLimit(c: Crypto, hash: seq<byte>, r: Request, k: nat, n: nat)
    requires WrongGuess(c, hash, r)
    ensures (forall actions :: OnlyGuesses(c, hash, actions) && AtMost(c, Fresh(true, Some(hash)), actions, k) ==>
               Ran(c, Fresh(true, Some(hash)), actions).past.tries <= n) <==> Most(k) <= n
  {
    var s := Fresh(true, Some(hash));
    if Most(k) <= n {
      forall actions | OnlyGuesses(c, hash, actions) && AtMost(c, s, actions, k)
        ensures Ran(c, s, actions).past.tries <= n
      {
        GuessesLimited(c, true, hash, actions, k);
      }
    } else {
      assert InFlight(s.pcs) == {};
      var actions, _ := Play(c, hash, r, s, 0, k, MAX_RETRIES, k);
      assert OnlyGuesses(c, hash, actions);
      assert Ran(c, s, actions).past.tries > n;
    }
  }

  /** The limit of eight comparisons holds over every run exactly if no two PIN requests
      are ever in flight at once, over all channels; with two it is 44. */
  lemma LimitIff(c: Crypto, hash: seq<byte>, r: Request, k: nat)
    requires WrongGuess(c, hash, r)
    ensures (forall actions :: OnlyGuesses(c, hash, actions) && AtMost(c, Fresh(true, Some(hash)), actions, k) ==>
               Ran(c, Fresh(true, Some(hash)), actions).past.tries <= MAX_RETRIES) <==> k <= 1
    ensures Most(0) == 0 && Most(1) == 8 && Most(2) == 44
  {
    MostIs();
    SharpLimit(c, hash, r, k, MAX_RETRIES);
    if k >= 2 {
      WaysMonotone(2, k, MAX_RETRIES);
    } else {
      WaysMonotone(k, 1, MAX_RETRIES);
    }
  }

  // ------------------------------------------------------------ one at a time

  /** What the handler in flight, if there is one, knows of the counter. */
  predicate Knows(pc: Pc, retries: int) {
    match pc
    case Gate(_) => InRange(retries)
    case Fetch(_) => InRange(retries)
    case Spend(_, n) => n == retries && InRange(n)
    case _ => true
  }

  ghost predicate Alone(s: Machine) {
    (forall t <- s.pcs :: Knows(s.pcs[t], s.retries)) && |InFlight(s.pcs)| <= 1
  }

  lemma EffectKnows(c: Crypto, s: Machine, pc: Pc)
    requires Knows(pc, s.retries)
    ensures var e := EffectOf(c, s, pc); e.next.Some? ==> Knows(e.next.value, e.retries)
  {
  }

  lemma OnlyOne(pcs: map<Tid, Pc>, t: Tid, u: Tid)
    requires |InFlight(pcs)| <= 1 && t in InFlight(pcs) && u in pcs && u != t
    ensures pcs[u].Finished?
  {
    if u in InFlight(pcs) {
      Fewer({t, u}, InFlight(pcs));
    }
  }

  lemma AloneGo(c: Crypto, s: Machine, a: Action)
    requires Alone(s) && |InFlight(Go(c, s, a).pcs)| <= 1
    ensures Alone(Go(c, s, a))
  {
    if a.Run? && !s.dead && a.t in s.pcs && !s.pcs[a.t].Finished? {
      EffectKnows(c, s, s.pcs[a.t]);
      forall u <- s.pcs | u != a.t ensures s.pcs[u].Finished? {
        OnlyOne(s.pcs, a.t, u);
      }
    }
  }

  lemma {:induction false} AloneRun(
      c: Crypto, enabled: bool, hash: Option<seq<byte>>, actions: seq<Action>, n: nat)
    requires AtMost(c, Fresh(enabled, hash), actions, 1) && n <= |actions|
    ensures Alone(Ran(c, Fresh(enabled, hash), actions[..n]))
  {
    var s := Fresh(enabled, hash);
    if n == 0 {
      assert InFlight(s.pcs) == {};
    } else {
      AloneRun(c, enabled, hash, actions, n - 1);
      RanPrefix(c, s, actions, n - 1);
      AloneGo(c, Ran(c, s, actions[..n - 1]), actions[n - 1]);
    }
  }

  /** With one request in flight at a time no write-back is stale or short, so by
      `AccountingIff` the count is right throughout. */
  lemma OneAtATime(c: Crypto, enabled: bool, hash: Option<seq<byte>>, actions: seq<Action>)
    requires AtMost(c, Fresh(enabled, hash), actions, 1)
    ensures var s := Fresh(enabled, hash);
            NeverStale(c, s, actions) && NeverShort(c, s, actions) && AlwaysBalanced(c, s, actions)
  {
    var s := Fresh(enabled, hash);
    forall n | 0 <= n < |actions|
      ensures var u := Ran(c, s, actions[..n]); !StaleWrite(u, actions[n]) && !ShortWrite(u, actions[n])
    {
      AloneRun(c, enabled, hash, actions, n);
    }
    AccountingIff(c, enabled, hash, actions);
  }

  /** Two handlers that read the counter before either of them writes it back. */
  lemma TwoReadThenWrite(c: Crypto, hash: seq<byte>, r: Request) returns (actions: seq<Action>)
    requires WrongGuess(c, hash, r)
    ensures AtMost(c, Fresh(true, Some(hash)), actions, 2) && !NeverStale(c, Fresh(true, Some(hash)), actions)
  {
    var s := Fresh(true, Some(hash));
    var s1 := Waiting(s, 0, r);
    var s2 := Waiting(s1, 1, r);
    assert InFlight(s.pcs) == {};
    ReadsAndWaits(c, hash, r, s, 0, 2);
    ReadsAndWaits(c, hash, r, s1, 1, 2);
    LastTwo(c, s2, 1, 0);
    RanThen(c, s, Reads(0, r), Reads(1, r));
    AtMostThen(c, s, Reads(0, r), Reads(1, r), 2);
    var both := Reads(0, r) + Reads(1, r);
    actions := both + [Run(0), Run(1)];
    AtMostThen(c, s, both, [Run(0), Run(1)], 2);
    RanThen(c, s, both, [Run(0)]);
    RanOne(c, s2, Run(0));
    var n := |both| + 1;
    assert actions[..n] == both + [Run(0)] && actions[n] == Run(1);
    assert StaleWrite(Ran(c, s, actions[..n]), actions[n]);
  }

  /** So the count of retries is right over every run exactly if no two PIN requests are
      ever in flight at once. */
  lemma BalancedIff(c: Crypto, hash: seq<byte>, r: Request, k: nat)
    requires WrongGuess(c, hash, r)
    ensures (forall actions :: AtMost(c, Fresh(true, Some(hash)), actions, k) ==>
               AlwaysBalanced(c, Fresh(true, Some(hash)), actions)) <==> k <= 1
  {
    var s := Fresh(true, Some(hash));
    if k <= 1 {
      forall actions | AtMost(c, s, actions, k) ensures AlwaysBalanced(c, s, actions) {
        OneAtATime(c, true, Some(hash), actions);
      }
    } else {
      var actions := TwoReadThenWrite(c, hash, r);
      AccountingIff(c, true, Some(hash), actions);
      assert AtMost(c, s, actions, k) && !AlwaysBalanced(c, s, actions);
    }
  }

  // ---------------------------------------------------------- the blocked status

  /** Some handler has reported that the PIN is blocked. */
  predicate Blocked(s: Machine) {
    exists t <- s.pcs :: s.pcs[t] == Finished(Reply(PIN_BLOCKED, Empty))
  }

  lemma NoEffectBlocks(c: Crypto, s: Machine, pc: Pc)
    requires Knows(pc, s.retries) && pc != Finished(Reply(PIN_BLOCKED, Empty))
    ensures EffectOf(c, s, pc).next != Some(Finished(Reply(PIN_BLOCKED, Empty)))
  {
  }

  lemma {:induction false} NeverBlocked(
      c: Crypto, enabled: bool, hash: Option<seq<byte>>, actions: seq<Action>, n: nat)
    requires AtMost(c, Fresh(enabled, hash), actions, 1) && n <= |actions|
    ensures !Blocked(Ran(c, Fresh(enabled, hash), actions[..n]))
  {
    if n > 0 {
      var s := Ran(c, Fresh(enabled, hash), actions[..n - 1]);
      NeverBlocked(c, enabled, hash, actions, n - 1);
      AloneRun(c, enabled, hash, actions, n - 1);
      RanPrefix(c, Fresh(enabled, hash), actions, n - 1);
      var a := actions[n - 1];
      if a.Run? && !s.dead && a.t in s.pcs {
        NoEffectBlocks(c, s, s.pcs[a.t]);
      }
    }
  }

  /** j whole guesses, one after the other. */
  lemma {:induction false} WholeGuesses(
      c: Crypto, hash: seq<byte>, r: Request, s: Machine, next: Tid, j: nat)
    returns (actions: seq<Action>, last: Tid)
    requires WrongGuess(c, hash, r) && Open(s, hash, next) && j <= s.retries <= MAX_RETRIES && InFlight(s.pcs) == {}
    ensures var u := Ran(c, s, actions);
            Open(u, hash, last) && InFlight(u.pcs) == {} && u.retries == s.retries - j
    ensures AtMost(c, s, actions, 1)
    decreases j
  {
    if j == 0 {
      actions, last := [], next;
    } else {
      var t, n := next, s.retries;
      var s1 := Waiting(s, t, r);
      var guess := Reads(t, r) + [Run(t), Run(t)];
      ReadsAndWaits(c, hash, r, s, t, 1);
      WritesAndTries(c, hash, r, s, s1, t, t + 1, 1);
      RanThen(c, s, Reads(t, r), [Run(t), Run(t)]);
      AtMostThen(c, s, Reads(t, r), [Run(t), Run(t)], 1);
      var u := Guessed(s1, t, n);
      var later, next1 := WholeGuesses(c, hash, r, u, next + 1, j - 1);
      RanThen(c, s, guess, later);
      AtMostThen(c, s, guess, later, 1);
      actions, last := guess + later, next1;
    }
  }

  /** After seven wrong guesses one handler passes the assertion and another spends the
      last retry before the first one looks at the result. */
  lemma BlockedWithTwo(c: Crypto, hash: seq<byte>, r: Request) returns (actions: seq<Action>)
    requires WrongGuess(c, hash, r)
    ensures var s := Fresh(true, Some(hash)); AtMost(c, s, actions, 2) && Blocked(Ran(c, s, actions))
  {
    var s := Fresh(true, Some(hash));
    assert InFlight(s.pcs) == {};
    var guesses, t := WholeGuesses(c, hash, r, s, 0, MAX_RETRIES - 1);
    var s1 := Ran(c, s, guesses);
    var s2 := s1.(pcs := s1.pcs[t := Gate(r)]);
    PassesAssertion(c, hash, r, s1, t);
    ReadsAndWaits(c, hash, r, s2, t + 1, 2);
    var s3 := Waiting(s2, t + 1, r);
    BlockedWhenOverlapping(c, s3, t, t + 1, r, r);
    LastTwo(c, s3, t, t + 1);
    FourParts(c, s, guesses, [Start(t, r), Run(t)], Reads(t + 1, r), [Run(t + 1), Run(t)], 2);
    actions := guesses + [Start(t, r), Run(t)] + Reads(t + 1, r) + [Run(t + 1), Run(t)];
    assert t in Ran(c, s, actions).pcs;
  }

  lemma PassesAssertion(c: Crypto, hash: seq<byte>, r: Request, s: Machine, t: Tid)
    requires WrongGuess(c, hash, r) && Open(s, hash, t) && InRange(s.retries)
    requires InFlight(s.pcs) == {}
    ensures var u := s.(pcs := s.pcs[t := Gate(r)]);
            Ran(c, s, [Start(t, r), Run(t)]) == u && Open(u, hash, t + 1) && InFlight(u.pcs) == {t}
    ensures AtMost(c, s, [Start(t, r), Run(t)], 2)
  {
    OneMoreAtMost(c, s, [Start(t, r), Run(t)], t, 2);
    var actions := [Start(t, r), Run(t)];
    RanPrefix(c, s, actions, 0);
    RanPrefix(c, s, actions, 1);
    assert actions[..2] == actions;
    assert s.pcs[t := Begin(r)][t := Gate(r)] == s.pcs[t := Gate(r)];
  }

  lemma LastTwo(c: Crypto, s: Machine, t: Tid, u: Tid)
    requires InFlight(s.pcs) == {t, u} && t != u
    ensures AtMost(c, s, [Run(u), Run(t)], 2)
  {
    RanOne(c, s, Run(u));
    RunsOfOne(c, s, [Run(u)], u);
    assert {t, u} + {u} == {t, u} && InFlight(Go(c, s, Run(u)).pcs) + {t} <= {t, u};
    Fewer(InFlight(Go(c, s, Run(u)).pcs) + {t}, {t, u});
    OneMoreAtMost(c, s, [Run(u)], u, 2);
    OneMoreAtMost(c, Go(c, s, Run(u)), [Run(t)], t, 2);
    AtMostThen(c, s, [Run(u)], [Run(t)], 2);
    assert [Run(u)] + [Run(t)] == [Run(u), Run(t)];
  }

  /** The blocked status can be reported exactly if two PIN requests can be in flight. */
  lemma BlockedIff(c: Crypto, hash: seq<byte>, r: Request, k: nat)
    requires WrongGuess(c, hash, r)
    ensures (exists actions :: AtMost(c, Fresh(true, Some(hash)), actions, k)
                               && Blocked(Ran(c, Fresh(true, Some(hash)), actions))) <==> k >= 2
  {
    var s := Fresh(true, Some(hash));
    if k >= 2 {
      var actions := BlockedWithTwo(c, hash, r);
      assert AtMost(c, s, actions, k);
    } else {
      forall actions | AtMost(c, s, actions, k) ensures !Blocked(Ran(c, s, actions)) {
        assert actions[..|actions|] == actions;
        NeverBlocked(c, true, Some(hash), actions, |actions|);
      }
    }
  }
}
