/** PIN requests that overlap. Every packet is handled on a goroutine of its own, only
    the lock of its channel is held, and neither `ctap.go` nor `fido_client.go` has a lock.
    So the handlers of different channels interleave between any two accesses to the
    client's fields: a call of `PINRetries` reads the counter once for its assertion and
    once for its result, and spending a retry is a read and a later write. */
module PinThreads {
  import opened Bytes
  import opened Pin
  import opened Wrappers
  import Machines

  type Tid = nat

  /** Where a handler is. */
  datatype Pc =
    | Begin(r: Request)           // arguments; then the assertion of the first PINRetries, or the test for a set PIN
    | Gate(r: Request)            // the result of the first PINRetries
    | Assertion(r: Request)       // the assertion of the second one
    | Fetch(r: Request)           // its result
    | Spend(r: Request, n: int)   // SetPINRetries(n - 1)
    | Compare(r: Request)         // the comparison with PINHash
    | Restore(r: Request)         // SetPINRetries(8) after a match
    | Store(r: Request)           // SetPINHash of a changed PIN
    | FirstReset(pin: seq<byte>)  // SetPINRetries(8) of a new PIN
    | FirstStore(pin: seq<byte>)  // SetPINHash of a new PIN
    | Finished(out: Outcome)

  datatype Note = Spent | Tried(equal: bool) | Restored

  /** What a handler did to the retry counter or with the stored hash. */
  datatype Entry = Entry(t: Tid, note: Note)

  /** Everything that was noted, and what it comes to: the retries spent since the last
      reset, the comparisons, and the log as the module `Pin` keeps it. */
  datatype History = History(log: seq<Entry>, spends: nat, tries: nat, marks: seq<Mark>)

  datatype Machine = Machine(
    enabled: bool, retries: int, hash: Option<seq<byte>>, past: History, dead: bool, pcs: map<Tid, Pc>)

  datatype Action = Start(t: Tid, r: Request) | Run(t: Tid)

  predicate InRange(n: int) {
    0 < n <= MAX_RETRIES
  }

  function Secret(c: Crypto, r: Request): Option<seq<byte>> {
    if r.Request? && r.key.Some? then c.shared(r.key.value) else None
  }

  function Ends(status: byte): Option<Pc> {
    Some(Finished(Reply(status, Empty)))
  }

  /** Done, without a PIN token. */
  predicate Ended(pc: Pc) {
    pc.Finished? && !(pc.out.Reply? && pc.out.body.Token?)
  }

  /** A PIN being set, up to `SetPINRetries`. */
  function SetPc(c: Crypto, hash: Option<seq<byte>>, r: Request): (pc: Option<Pc>)
    requires r.Request?
    ensures pc.Some? ==> Ended(pc.value) || (pc.value.FirstReset? && hash.None?)
  {
    if hash.Some? then Ends(PIN_AUTH_INVALID)
    else if r.key.None? || r.auth.None? || r.newPin.None? then Ends(MISSING_PARAM)
    else
      var secret := c.shared(r.key.value);
      if secret.None? then None
      else if c.auth(secret.value, r.newPin.value) != r.auth.value then Ends(PIN_AUTH_INVALID)
      else if !Decryptable(r.newPin.value) then None
      else
        var pin := Unpad(c.decrypt(secret.value, r.newPin.value));
        if |pin| < 4 then Ends(PIN_POLICY_VIOLATION) else Some(FirstReset(pin))
  }

  /** The assertion of the first `PINRetries`. */
  function ReadPc(retries: int, r: Request): Option<Pc> {
    if InRange(retries) then Some(Gate(r)) else None
  }

  function BeginPc(c: Crypto, s: Machine, r: Request): (pc: Option<Pc>)
    ensures pc.Some? ==> pc.value == Gate(r) || Ended(pc.value) || (pc.value.FirstReset? && s.hash.None?)
  {
    if !s.enabled then Ends(INVALID_COMMAND)
    else if r.Garbled? then Ends(INVALID_CBOR)
    else if r.protocol != 1 then Ends(INVALID_PARAMETER)
    else if r.sub == 1 then ReadPc(s.retries, r)
    else if r.sub == 2 then Some(Finished(Reply(OK, KeyAgreement)))
    else if r.sub == 3 then SetPc(c, s.hash, r)
    else if r.sub == 4 then
      if r.key.None? || r.auth.None? then Ends(MISSING_PARAM) else ReadPc(s.retries, r)
    else if r.sub == 5 then
      if r.pinHash.None? then Ends(MISSING_PARAM)
      else if r.key.None? then None
      else if r.key.value.x.None? then Ends(MISSING_PARAM)
      else ReadPc(s.retries, r)
    else Ends(MISSING_PARAM)
  }

  function GatePc(c: Crypto, retries: int, r: Request): (pc: Option<Pc>)
    ensures pc.Some? ==> pc.value == Assertion(r) || Ended(pc.value)
  {
    if !r.Request? then Ends(INVALID_CBOR)
    else if r.sub == 1 then Some(Finished(Reply(OK, Retries(retries % 0x100))))
    else if (if r.sub == 4 then retries == 0 else retries <= 0) then Ends(PIN_BLOCKED)
    else
      var secret := Secret(c, r);
      if secret.None? then None
      else if r.sub == 4 && r.auth != Some(c.auth(secret.value, Slice(r.newPin) + Slice(r.pinHash))) then
        Ends(PIN_AUTH_INVALID)
      else Some(Assertion(r))
  }

  /** What one step of a handler does to the fields, what it notes, and where it goes;
      a panic goes nowhere. */
  datatype Effect = Effect(retries: int, hash: Option<seq<byte>>, note: Option<Note>, next: Option<Pc>)

  function CompareEffect(c: Crypto, s: Machine, r: Request): Effect {
    var secret := Secret(c, r);
    if secret.None? || !Decryptable(Slice(r.pinHash)) then Effect(s.retries, s.hash, None, None)
    else if c.decrypt(secret.value, Slice(r.pinHash)) == Slice(s.hash) then
      Effect(s.retries, s.hash, Some(Tried(true)), Some(Restore(r)))
    else Effect(s.retries, s.hash, Some(Tried(false)), Ends(PIN_INVALID))
  }

  function RestoredPc(c: Crypto, r: Request): Option<Pc> {
    var secret := Secret(c, r);
    if secret.None? then None
    else if r.sub == 5 then Some(Finished(Reply(OK, Token(c.token(secret.value)))))
    else Some(Store(r))
  }

  function StoreEffect(c: Crypto, s: Machine, r: Request): Effect {
    var secret := Secret(c, r);
    if secret.None? || !Decryptable(Slice(r.newPin)) then Effect(s.retries, s.hash, None, None)
    else
      var pin := Unpad(c.decrypt(secret.value, Slice(r.newPin)));
      if |pin| < 4 then Effect(s.retries, s.hash, None, Ends(PIN_POLICY_VIOLATION))
      else Effect(s.retries, Some(c.digest(pin)), None, Ends(OK))
  }

  function EffectOf(c: Crypto, s: Machine, pc: Pc): Effect {
    match pc
    case Begin(r) => Effect(s.retries, s.hash, None, BeginPc(c, s, r))
    case Gate(r) => Effect(s.retries, s.hash, None, GatePc(c, s.retries, r))
    case Assertion(r) => Effect(s.retries, s.hash, None, if InRange(s.retries) then Some(Fetch(r)) else None)
    case Fetch(r) => Effect(s.retries, s.hash, None, Some(Spend(r, s.retries)))
    case Spend(r, n) => Effect(n - 1, s.hash, Some(Spent), Some(Compare(r)))
    case Compare(r) => CompareEffect(c, s, r)
    case Restore(r) => Effect(MAX_RETRIES, s.hash, Some(Restored), RestoredPc(c, r))
    case Store(r) => StoreEffect(c, s, r)
    case FirstReset(pin) => Effect(MAX_RETRIES, s.hash, Some(Restored), Some(FirstStore(pin)))
    case FirstStore(pin) => Effect(s.retries, Some(c.digest(pin)), None, Ends(OK))
    case Finished(_) => Effect(s.retries, s.hash, None, Some(pc))
  }

  function Noted(h: History, t: Tid, note: Note): History {
    var log := h.log + [Entry(t, note)];
    match note
    case Spent => History(log, h.spends + 1, h.tries, h.marks)
    case Tried(equal) => History(log, h.spends, h.tries + 1, h.marks + [Compared(equal)])
    case Restored => History(log, 0, h.tries, h.marks + [Reset])
  }

  function Put(s: Machine, t: Tid, e: Effect): Machine {
    Machine(s.enabled, e.retries, e.hash, if e.note.Some? then Noted(s.past, t, e.note.value) else s.past, e.next.None?,
            if e.next.Some? then s.pcs[t := e.next.value] else s.pcs)
  }

  /** A dead process does nothing. */
  function Go(c: Crypto, s: Machine, a: Action): Machine {
    match a
    case Start(t, r) => if s.dead || t in s.pcs then s else s.(pcs := s.pcs[t := Begin(r)])
    case Run(t) => if s.dead || t !in s.pcs then s else Put(s, t, EffectOf(c, s, s.pcs[t]))
  }

  function Ran(c: Crypto, s: Machine, actions: seq<Action>): Machine {
    Machines.Final((s, a) => (Go(c, s, a), ()), s, actions)
  }

  function Fresh(enabled: bool, hash: Option<seq<byte>>): Machine {
    Machine(enabled, MAX_RETRIES, hash, History([], 0, 0, []), false, map[])
  }

  lemma RanMore(c: Crypto, s: Machine, actions: seq<Action>)
    requires actions != []
    ensures var n := |actions| - 1; Ran(c, s, actions) == Go(c, Ran(c, s, actions[..n]), actions[n])
  {
    var n := |actions| - 1;
    assert actions == actions[..n] + [actions[n]];
    Machines.Append((s, a) => (Go(c, s, a), ()), s, actions[..n], actions[n]);
  }

  lemma RanThen(c: Crypto, s: Machine, a: seq<Action>, b: seq<Action>)
    ensures Ran(c, s, a + b) == Ran(c, Ran(c, s, a), b)
  {
    Machines.Split((s, a) => (Go(c, s, a), ()), s, a, b);
  }

  lemma RanOne(c: Crypto, s: Machine, a: Action)
    ensures Ran(c, s, [a]) == Go(c, s, a)
  {
    Machines.One((s, a) => (Go(c, s, a), ()), s, a);
  }

  // -------------------------------------------------------- what the history says

  /** The retries spent since the last reset. */
  function Spends(log: seq<Entry>): nat {
    if log == [] || log[|log| - 1].note == Restored then 0
    else Spends(log[..|log| - 1]) + if log[|log| - 1].note == Spent then 1 else 0
  }

  /** The comparisons made. */
  function Tries(log: seq<Entry>): nat {
    if log == [] then 0 else Tries(log[..|log| - 1]) + if log[|log| - 1].note.Tried? then 1 else 0
  }

  /** The log as the module `Pin` keeps it. */
  function Plain(log: seq<Entry>): seq<Mark> {
    if log == [] then []
    else
      Plain(log[..|log| - 1])
      + match log[|log| - 1].note
        case Spent => []
        case Tried(equal) => [Compared(equal)]
        case Restored => [Reset]
  }

  predicate Faithful(h: History) {
    h.spends == Spends(h.log) && h.tries == Tries(h.log) && h.marks == Plain(h.log)
  }

  lemma NotedFaithful(h: History, t: Tid, note: Note)
    requires Faithful(h)
    ensures Faithful(Noted(h, t, note))
  {
    var log := h.log + [Entry(t, note)];
    assert log[..|log| - 1] == h.log;
  }

  /** In every run the counts that the history carries are those of its log. */
  lemma {:induction false} HistoryIsFaithful(c: Crypto, enabled: bool, hash: Option<seq<byte>>, actions: seq<Action>)
    ensures Faithful(Ran(c, Fresh(enabled, hash), actions).past)
  {
    if actions != [] {
      var n := |actions| - 1;
      HistoryIsFaithful(c, enabled, hash, actions[..n]);
      RanMore(c, Fresh(enabled, hash), actions);
      var s, a := Ran(c, Fresh(enabled, hash), actions[..n]), actions[n];
      if a.Run? && !s.dead && a.t in s.pcs {
        var e := EffectOf(c, s, s.pcs[a.t]);
        if e.note.Some? {
          NotedFaithful(s.past, a.t, e.note.value);
        }
      }
    }
  }

  // ---------------------------------------------------------- spent and remaining

  predicate Balanced(s: Machine) {
    s.past.spends + s.retries == MAX_RETRIES
  }

  /** A handler is about to write the counter back, and the counter is no longer what the
      handler read. */
  predicate StaleWrite(s: Machine, a: Action) {
    a.Run? && !s.dead && a.t in s.pcs && s.pcs[a.t].Spend? && s.pcs[a.t].n != s.retries
  }

  /** Which steps write the counter, and what they note. */
  predicate Accounts(pc: Pc, retries: int, e: Effect) {
    if pc.Spend? then e.note == Some(Spent) && e.retries == pc.n - 1
    else if pc.Restore? || pc.FirstReset? then e.note == Some(Restored) && e.retries == MAX_RETRIES
    else e.retries == retries && e.note != Some(Spent) && e.note != Some(Restored)
  }

  lemma EffectAccounts(c: Crypto, s: Machine, pc: Pc)
    ensures Accounts(pc, s.retries, EffectOf(c, s, pc))
  {
  }

  lemma PutBalances(s: Machine, t: Tid, e: Effect)
    requires Balanced(s) && t in s.pcs && Accounts(s.pcs[t], s.retries, e)
    ensures Balanced(Put(s, t, e)) <==> !(s.pcs[t].Spend? && s.pcs[t].n != s.retries)
  {
  }

  lemma BalancedStep(c: Crypto, s: Machine, a: Action)
    requires Balanced(s)
    ensures Balanced(Go(c, s, a)) <==> !StaleWrite(s, a)
  {
    if a.Run? && !s.dead && a.t in s.pcs {
      EffectAccounts(c, s, s.pcs[a.t]);
      PutBalances(s, a.t, EffectOf(c, s, s.pcs[a.t]));
    }
  }

  ghost predicate AlwaysBalanced(c: Crypto, s: Machine, actions: seq<Action>) {
    forall n :: 0 <= n <= |actions| ==> Balanced(Ran(c, s, actions[..n]))
  }

  ghost predicate NeverStale(c: Crypto, s: Machine, actions: seq<Action>) {
    forall n :: 0 <= n < |actions| ==> !StaleWrite(Ran(c, s, actions[..n]), actions[n])
  }

  lemma RanPrefix(c: Crypto, s: Machine, actions: seq<Action>, n: nat)
    requires n < |actions|
    ensures Ran(c, s, actions[..n + 1]) == Go(c, Ran(c, s, actions[..n]), actions[n])
  {
    assert actions[..n + 1][..n] == actions[..n];
    RanMore(c, s, actions[..n + 1]);
  }

  lemma {:induction false} NeverStaleBalances(c: Crypto, s: Machine, actions: seq<Action>, n: nat)
    requires Balanced(s) && NeverStale(c, s, actions) && n <= |actions|
    ensures Balanced(Ran(c, s, actions[..n]))
  {
    if n > 0 {
      NeverStaleBalances(c, s, actions, n - 1);
      RanPrefix(c, s, actions, n - 1);
      BalancedStep(c, Ran(c, s, actions[..n - 1]), actions[n - 1]);
    }
  }

  /** Over every run of any number of handlers: the retries spent since the last reset and
      those left add up to eight throughout the run if and only if every write-back of the
      counter still sees the value that its handler read. */
  lemma AccountingIff(c: Crypto, enabled: bool, hash: Option<seq<byte>>, actions: seq<Action>)
    ensures var s := Fresh(enabled, hash); AlwaysBalanced(c, s, actions) <==> NeverStale(c, s, actions)
  {
    var s := Fresh(enabled, hash);
    if NeverStale(c, s, actions) {
      forall n | 0 <= n <= |actions| ensures Balanced(Ran(c, s, actions[..n])) {
        NeverStaleBalances(c, s, actions, n);
      }
    }
    if AlwaysBalanced(c, s, actions) {
      forall n | 0 <= n < |actions| ensures !StaleWrite(Ran(c, s, actions[..n]), actions[n]) {
        RanPrefix(c, s, actions, n);
        assert Balanced(Ran(c, s, actions[..n])) && Balanced(Ran(c, s, actions[..n + 1]));
        BalancedStep(c, Ran(c, s, actions[..n]), actions[n]);
      }
    }
  }

  // ------------------------------------------------------------ lost decrements

  /** A request for a PIN token that gets as far as a comparison and fails it. */
  predicate WrongGuess(c: Crypto, hash: seq<byte>, r: Request) {
    && r.Request? && r.protocol == 1 && r.sub == 5 && r.pinHash.Some? && r.key.Some? && r.key.value.x.Some?
    && c.shared(r.key.value).Some? && Decryptable(r.pinHash.value)
    && c.decrypt(c.shared(r.key.value).value, r.pinHash.value) != hash
  }

  lemma Readies(c: Crypto, s: Machine, t: Tid, r: Request)
    requires s.enabled && !s.dead && InRange(s.retries) && s.hash.Some? && t !in s.pcs && WrongGuess(c, s.hash.value, r)
    ensures Ran(c, s, [Start(t, r), Run(t), Run(t), Run(t), Run(t)]) == s.(pcs := s.pcs[t := Spend(r, s.retries)])
  {
    var actions := [Start(t, r), Run(t), Run(t), Run(t), Run(t)];
    RanPrefix(c, s, actions, 0);
    RanPrefix(c, s, actions, 1);
    RanPrefix(c, s, actions, 2);
    RanPrefix(c, s, actions, 3);
    RanPrefix(c, s, actions, 4);
    assert actions[..5] == actions;
    assert s.pcs[t := Fetch(r)][t := Spend(r, s.retries)] == s.pcs[t := Spend(r, s.retries)];
  }

  function Tids(m: nat): (ts: set<Tid>)
    ensures forall t: Tid :: t in ts <==> t < m
  {
    if m == 0 then {} else Tids(m - 1) + {m - 1}
  }

  function Spents(k: nat): seq<Entry> {
    seq(k, (i: nat) => Entry(i, Spent))
  }

  function WrongTries(k: nat): seq<Entry> {
    seq(k, (i: nat) => Entry(i, Tried(false)))
  }

  /** m handlers, the first k of which have spent their retry, or compared as well. */
  function Spending(hash: seq<byte>, r: Request, m: nat, k: nat): Machine {
    Machine(true, if k == 0 then MAX_RETRIES else MAX_RETRIES - 1, Some(hash), History(Spents(k), k, 0, []), false,
            map t | t in Tids(m) :: if t < k then Compare(r) else Spend(r, MAX_RETRIES))
  }

  function Comparing(hash: seq<byte>, r: Request, m: nat, k: nat): Machine {
    Machine(true, MAX_RETRIES - 1, Some(hash),
            History(Spents(m) + WrongTries(k), m, k, seq(k, _ => Compared(false))), false,
            map t | t in Tids(m) :: if t < k then Finished(Reply(PIN_INVALID, Empty)) else Compare(r))
  }

  lemma {:induction false} AllReady(c: Crypto, hash: seq<byte>, r: Request, m: nat) returns (actions: seq<Action>)
    requires WrongGuess(c, hash, r)
    ensures Ran(c, Fresh(true, Some(hash)), actions) == Spending(hash, r, m, 0)
  {
    if m == 0 {
      actions := [];
      assert Spending(hash, r, 0, 0).pcs == map[];
    } else {
      var t := m - 1;
      var before := AllReady(c, hash, r, t);
      actions := before + [Start(t, r), Run(t), Run(t), Run(t), Run(t)];
      RanThen(c, Fresh(true, Some(hash)), before, [Start(t, r), Run(t), Run(t), Run(t), Run(t)]);
      Readies(c, Spending(hash, r, t, 0), t, r);
      assert Spending(hash, r, m, 0).pcs == Spending(hash, r, t, 0).pcs[t := Spend(r, MAX_RETRIES)];
    }
  }

  function Turns(k: nat): seq<Action> {
    seq(k, (i: nat) => Run(i))
  }

  lemma SpendingStep(c: Crypto, hash: seq<byte>, r: Request, m: nat, k: nat)
    requires k < m
    ensures Go(c, Spending(hash, r, m, k), Run(k)) == Spending(hash, r, m, k + 1)
  {
    var s, u := Spending(hash, r, m, k), Spending(hash, r, m, k + 1);
    assert u.past == Noted(s.past, k, Spent);
    assert u.pcs == s.pcs[k := Compare(r)];
  }

  lemma ComparingStep(c: Crypto, hash: seq<byte>, r: Request, m: nat, k: nat)
    requires k < m && WrongGuess(c, hash, r)
    ensures Go(c, Comparing(hash, r, m, k), Run(k)) == Comparing(hash, r, m, k + 1)
  {
    var s, u := Comparing(hash, r, m, k), Comparing(hash, r, m, k + 1);
    assert u.past == Noted(s.past, k, Tried(false));
    assert u.pcs == s.pcs[k := Finished(Reply(PIN_INVALID, Empty))];
  }

  lemma {:induction false} AllSpend(c: Crypto, hash: seq<byte>, r: Request, m: nat, k: nat)
    requires k <= m
    ensures Ran(c, Spending(hash, r, m, 0), Turns(k)) == Spending(hash, r, m, k)
  {
    if k > 0 {
      AllSpend(c, hash, r, m, k - 1);
      assert Turns(k)[..k - 1] == Turns(k - 1);
      RanMore(c, Spending(hash, r, m, 0), Turns(k));
      SpendingStep(c, hash, r, m, k - 1);
    }
  }

  lemma {:induction false} AllCompare(c: Crypto, hash: seq<byte>, r: Request, m: nat, k: nat)
    requires k <= m && WrongGuess(c, hash, r)
    ensures Ran(c, Comparing(hash, r, m, 0), Turns(k)) == Comparing(hash, r, m, k)
  {
    if k > 0 {
      AllCompare(c, hash, r, m, k - 1);
      assert Turns(k)[..k - 1] == Turns(k - 1);
      RanMore(c, Comparing(hash, r, m, 0), Turns(k));
      ComparingStep(c, hash, r, m, k - 1);
    }
  }

  /** Any number of wrong guesses for one retry: when m handlers all read the counter
      before any of them writes it back, m wrong comparisons are made, no reset, and seven
      retries are left. So the limit of eight does not hold for requests that overlap. */
  lemma LostDecrements(c: Crypto, hash: seq<byte>, r: Request, m: nat) returns (actions: seq<Action>)
    requires WrongGuess(c, hash, r) && m > 0
    ensures var s := Ran(c, Fresh(true, Some(hash)), actions);
            && !s.dead && s.retries == 7 && s.hash == Some(hash)
            && s.past.log == Spents(m) + WrongTries(m) && s.past.tries == m
            && s.past.marks == seq(m, _ => Compared(false))
  {
    var readies := AllReady(c, hash, r, m);
    actions := readies + Turns(m) + Turns(m);
    RanThen(c, Fresh(true, Some(hash)), readies + Turns(m), Turns(m));
    RanThen(c, Fresh(true, Some(hash)), readies, Turns(m));
    AllSpend(c, hash, r, m, m);
    var s, u := Spending(hash, r, m, m), Comparing(hash, r, m, 0);
    assert s.past == u.past && s.pcs == u.pcs;
    AllCompare(c, hash, r, m, m);
  }

  // ----------------------------------------------- what overlapping guesses can get

  /** A handler that serves a request without the PIN hash while a PIN is set. */
  predicate Guessing(c: Crypto, hash: seq<byte>, pc: Pc) {
    match pc
    case Begin(r) => Misses(c, hash, r)
    case Gate(r) => Misses(c, hash, r)
    case Assertion(r) => Misses(c, hash, r)
    case Fetch(r) => Misses(c, hash, r)
    case Spend(r, _) => Misses(c, hash, r)
    case Compare(r) => Misses(c, hash, r)
    case Finished(_) => Ended(pc)
    case _ => false
  }

  predicate AllGuessing(c: Crypto, hash: seq<byte>, s: Machine) {
    s.hash == Some(hash) && forall t <- s.pcs :: Guessing(c, hash, s.pcs[t])
  }

  /** A guess goes on as a guess, keeps the hash, and never matches. */
  lemma GuessGoesOn(c: Crypto, hash: seq<byte>, s: Machine, pc: Pc)
    requires s.hash == Some(hash) && Guessing(c, hash, pc)
    ensures var e := EffectOf(c, s, pc);
            && e.hash == s.hash && e.note != Some(Tried(true))
            && (e.next.Some? ==> Guessing(c, hash, e.next.value) && (e.next.value.Compare? <==> pc.Spend?))
            && (e.note == Some(Tried(false)) ==> pc.Compare? && e.next.Some?)
  {
  }

  function AtCompare(pcs: map<Tid, Pc>): set<Tid> {
    set t | t in pcs && pcs[t].Compare?
  }

  lemma AtCompareMoves(pcs: map<Tid, Pc>, t: Tid, pc: Pc)
    ensures var before := t in pcs && pcs[t].Compare?;
            |AtCompare(pcs[t := pc])| ==
            |AtCompare(pcs)| + (if pc.Compare? then 1 else 0) - (if before then 1 else 0)
  {
    var rest := AtCompare(pcs) - {t};
    assert AtCompare(pcs) == if t in pcs && pcs[t].Compare? then rest + {t} else rest;
    assert AtCompare(pcs[t := pc]) == if pc.Compare? then rest + {t} else rest;
  }

  /** A handler is about to spend a retry that it read as none: another one wrote the
      counter between its assertion and its result. */
  predicate ShortWrite(s: Machine, a: Action) {
    a.Run? && !s.dead && a.t in s.pcs && s.pcs[a.t].Spend? && s.pcs[a.t].n < 1
  }

  /** What guesses keep while no write-back is stale or short. */
  ghost predicate Guarded(c: Crypto, hash: seq<byte>, s: Machine) {
    && AllGuessing(c, hash, s) && Balanced(s) && s.retries >= 0
    && s.past.tries + |AtCompare(s.pcs)| <= s.past.spends
  }

  lemma GuardedRun(c: Crypto, hash: seq<byte>, s: Machine, t: Tid)
    requires Guarded(c, hash, s) && t in s.pcs && !s.dead && !StaleWrite(s, Run(t)) && !ShortWrite(s, Run(t))
    ensures Guarded(c, hash, Put(s, t, EffectOf(c, s, s.pcs[t])))
  {
    var e := EffectOf(c, s, s.pcs[t]);
    BalancedStep(c, s, Run(t));
    EffectAccounts(c, s, s.pcs[t]);
    GuessGoesOn(c, hash, s, s.pcs[t]);
    if e.next.Some? {
      AtCompareMoves(s.pcs, t, e.next.value);
    }
  }

  lemma GuardedStep(c: Crypto, hash: seq<byte>, s: Machine, a: Action)
    requires Guarded(c, hash, s) && !StaleWrite(s, a) && !ShortWrite(s, a) && (a.Start? ==> Misses(c, hash, a.r))
    ensures Guarded(c, hash, Go(c, s, a))
  {
    match a
    case Start(t, r) =>
      if !s.dead && t !in s.pcs {
        AtCompareMoves(s.pcs, t, Begin(r));
      }
    case Run(t) =>
      if !s.dead && t in s.pcs {
        GuardedRun(c, hash, s, t);
      }
  }

  ghost predicate NeverShort(c: Crypto, s: Machine, actions: seq<Action>) {
    forall n :: 0 <= n < |actions| ==> !ShortWrite(Ran(c, s, actions[..n]), actions[n])
  }

  lemma {:induction false} GuessesBounded(c: Crypto, enabled: bool, hash: seq<byte>, actions: seq<Action>, n: nat)
    requires NeverStale(c, Fresh(enabled, Some(hash)), actions) && NeverShort(c, Fresh(enabled, Some(hash)), actions)
    requires forall a <- actions :: a.Start? ==> Misses(c, hash, a.r)
    requires n <= |actions|
    ensures Guarded(c, hash, Ran(c, Fresh(enabled, Some(hash)), actions[..n]))
  {
    var s := Fresh(enabled, Some(hash));
    if n == 0 {
      assert AtCompare(s.pcs) == {};
    } else {
      GuessesBounded(c, enabled, hash, actions, n - 1);
      RanPrefix(c, s, actions, n - 1);
      assert actions[n - 1] in actions;
      GuardedStep(c, hash, Ran(c, s, actions[..n - 1]), actions[n - 1]);
    }
  }

  /** Over every run of overlapping handlers in which no write-back of the counter is
      stale or short: requests that never carry the PIN hash get eight comparisons at
      most, no token, and no change of the PIN. */
  lemma EightOverlappingGuesses(c: Crypto, enabled: bool, hash: seq<byte>, actions: seq<Action>)
    requires NeverStale(c, Fresh(enabled, Some(hash)), actions) && NeverShort(c, Fresh(enabled, Some(hash)), actions)
    requires forall a <- actions :: a.Start? ==> Misses(c, hash, a.r)
    ensures var s := Ran(c, Fresh(enabled, Some(hash)), actions);
            && s.past.tries <= MAX_RETRIES && s.hash == Some(hash)
            && forall t <- s.pcs :: s.pcs[t].Finished? ==> Ended(s.pcs[t])
  {
    assert actions[..|actions|] == actions;
    GuessesBounded(c, enabled, hash, actions, |actions|);
  }

  // ------------------------------------------------ resets and PINs without a match

  predicate Setting(pc: Pc) {
    pc.FirstReset? || pc.FirstStore?
  }

  /** A handler that resets the counter or stores a PIN as a changed one has matched the
      stored hash; one that sets a first PIN has not compared at all. */
  predicate HasMatched(pc: Pc, t: Tid, log: seq<Entry>) {
    && (pc.Restore? || pc.Store? ==> Entry(t, Tried(true)) in log)
    && (pc.Finished? && !Ended(pc) ==> Entry(t, Tried(true)) in log)
    && (pc.Begin? || Setting(pc) ==> Entry(t, Tried(true)) !in log)
  }

  ghost predicate Matched(s: Machine) {
    && (forall t <- s.pcs :: HasMatched(s.pcs[t], t, s.past.log))
    && (forall e <- s.past.log :: e.t in s.pcs)
  }

  /** Where a handler goes keeps what is known of its comparisons. */
  predicate KeepsMatch(pc: Pc, e: Effect) {
    && (e.note == Some(Tried(true)) ==> e.next.Some? && e.next.value.Restore?)
    && (e.next.Some? ==>
          && (e.next.value.Restore? ==> e.note == Some(Tried(true)))
          && (e.next.value.Store? || (e.next.value.Finished? && !Ended(e.next.value)) ==>
                pc.Restore? || pc == e.next.value)
          && !e.next.value.Begin?
          && (Setting(e.next.value) ==> e.note != Some(Tried(true)) && (pc.Begin? || pc.FirstReset?)))
  }

  lemma EffectKeepsMatch(c: Crypto, s: Machine, pc: Pc)
    ensures KeepsMatch(pc, EffectOf(c, s, pc))
  {
  }

  lemma PutMatched(s: Machine, t: Tid, e: Effect)
    requires Matched(s) && t in s.pcs && KeepsMatch(s.pcs[t], e)
    ensures Matched(Put(s, t, e))
  {
    var u := Put(s, t, e);
    assert HasMatched(s.pcs[t], t, s.past.log);
    forall v <- u.pcs ensures HasMatched(u.pcs[v], v, u.past.log) {
      if v != t {
        assert HasMatched(s.pcs[v], v, s.past.log);
      } else if e.next.None? {
        assert u.pcs[v] == s.pcs[v];
      }
    }
  }

  lemma MatchedGo(c: Crypto, s: Machine, a: Action)
    requires Matched(s)
    ensures Matched(Go(c, s, a))
  {
    if a.Run? && !s.dead && a.t in s.pcs {
      EffectKeepsMatch(c, s, s.pcs[a.t]);
      PutMatched(s, a.t, EffectOf(c, s, s.pcs[a.t]));
    }
  }

  lemma {:induction false} MatchedRun(c: Crypto, s: Machine, actions: seq<Action>)
    requires Matched(s)
    ensures Matched(Ran(c, s, actions))
  {
    if actions != [] {
      MatchedRun(c, s, actions[..|actions| - 1]);
      RanMore(c, s, actions);
      MatchedGo(c, Ran(c, s, actions[..|actions| - 1]), actions[|actions| - 1]);
    }
  }

  /** Every run starts matched, so every reachable state is. */
  lemma FreshMatched(c: Crypto, enabled: bool, hash: Option<seq<byte>>, actions: seq<Action>)
    ensures Matched(Ran(c, Fresh(enabled, hash), actions))
  {
    MatchedRun(c, Fresh(enabled, hash), actions);
  }

  /** A PIN is set and no handler is past the test for one and before its reset. */
  predicate Secured(s: Machine) {
    s.hash.Some? && forall t <- s.pcs :: !s.pcs[t].FirstReset?
  }

  /** Entry k of the log resets the counter for a handler that has not matched. */
  predicate Unmatched(log: seq<Entry>, k: nat) {
    k < |log| && log[k].note == Restored && Entry(log[k].t, Tried(true)) !in log[..k]
  }

  lemma SecuredEffect(c: Crypto, s: Machine, pc: Pc)
    requires s.hash.Some? && !pc.FirstReset?
    ensures var e := EffectOf(c, s, pc);
            && e.hash.Some? && (e.next.Some? ==> !e.next.value.FirstReset?)
            && (e.note == Some(Restored) ==> pc.Restore?)
  {
  }

  lemma SecuredStep(c: Crypto, s: Machine, a: Action)
    requires Secured(s) && Matched(s)
    ensures var u := Go(c, s, a);
            && Secured(u) && s.past.log <= u.past.log && |u.past.log| <= |s.past.log| + 1
            && !Unmatched(u.past.log, |s.past.log|)
  {
    if a.Run? && !s.dead && a.t in s.pcs {
      SecuredEffect(c, s, s.pcs[a.t]);
      assert HasMatched(s.pcs[a.t], a.t, s.past.log);
    }
  }

  /** Once a PIN is set and nobody is about to set a first one, the PIN stays set and
      every later reset is made by a handler that has matched the stored hash. */
  lemma {:induction false} ResetNeedsMatch(c: Crypto, s: Machine, actions: seq<Action>, k: nat)
    requires Secured(s) && Matched(s)
    ensures var u := Ran(c, s, actions);
            Secured(u) && Matched(u) && s.past.log <= u.past.log && (k >= |s.past.log| ==> !Unmatched(u.past.log, k))
  {
    if actions != [] {
      var before := actions[..|actions| - 1];
      ResetNeedsMatch(c, s, before, k);
      RanMore(c, s, actions);
      var u := Ran(c, s, before);
      SecuredStep(c, u, actions[|actions| - 1]);
      MatchedGo(c, u, actions[|actions| - 1]);
      var v := Ran(c, s, actions);
      if k < |u.past.log| {
        assert v.past.log[k] == u.past.log[k] && v.past.log[..k] == u.past.log[..k];
      }
    }
  }

  /** And exactly then: with a PIN set, some continuation resets the counter without a
      match if and only if a handler is past its test for a set PIN and about to reset. */
  lemma UnmatchedResetIff(c: Crypto, s: Machine)
    requires Matched(s) && s.hash.Some? && !s.dead
    ensures (exists actions, k: nat :: k >= |s.past.log| && Unmatched(Ran(c, s, actions).past.log, k)) <==> !Secured(s)
  {
    if Secured(s) {
      forall actions, k: nat | k >= |s.past.log| ensures !Unmatched(Ran(c, s, actions).past.log, k) {
        ResetNeedsMatch(c, s, actions, k);
      }
    } else {
      var t :| t in s.pcs && s.pcs[t].FirstReset?;
      assert HasMatched(s.pcs[t], t, s.past.log);
      RanOne(c, s, Run(t));
      var u := Ran(c, s, [Run(t)]);
      assert u.past.log == s.past.log + [Entry(t, Restored)] && u.past.log[..|s.past.log|] == s.past.log;
      assert Unmatched(u.past.log, |s.past.log|);
    }
  }

  /** Two first PINs at once: both handlers find no PIN, and the second one resets the
      counter and replaces the PIN of the first without any comparison. */
  lemma FirstPINsOverlap(c: Crypto, s: Machine, t: Tid, u: Tid, pin: seq<byte>, other: seq<byte>)
    requires !s.dead && t != u && t in s.pcs && u in s.pcs
    requires s.pcs[t] == FirstReset(pin) && s.pcs[u] == FirstReset(other)
    ensures var v := Ran(c, s, [Run(t), Run(t), Run(u), Run(u)]);
            && v.past.log == s.past.log + [Entry(t, Restored), Entry(u, Restored)]
            && v.hash == Some(c.digest(other)) && v.retries == MAX_RETRIES && !v.dead
  {
    var actions := [Run(t), Run(t), Run(u), Run(u)];
    RanPrefix(c, s, actions, 0);
    RanPrefix(c, s, actions, 1);
    RanPrefix(c, s, actions, 2);
    RanPrefix(c, s, actions, 3);
    assert actions[..4] == actions;
  }

  /** That happens: with no PIN set, any two valid requests for a first PIN get there. */
  lemma FirstPINsMeet(c: Crypto, r: Request, other: Request)
    requires BeginPc(c, Fresh(true, None), r).Some? && BeginPc(c, Fresh(true, None), r).value.FirstReset?
    requires BeginPc(c, Fresh(true, None), other).Some? && BeginPc(c, Fresh(true, None), other).value.FirstReset?
    ensures var s := Ran(c, Fresh(true, None), [Start(0, r), Start(1, other), Run(0), Run(1)]);
            && !s.dead && 0 in s.pcs && s.pcs[0] == BeginPc(c, Fresh(true, None), r).value
            && 1 in s.pcs && s.pcs[1] == BeginPc(c, Fresh(true, None), other).value
  {
    var actions := [Start(0, r), Start(1, other), Run(0), Run(1)];
    RanPrefix(c, Fresh(true, None), actions, 0);
    RanPrefix(c, Fresh(true, None), actions, 1);
    RanPrefix(c, Fresh(true, None), actions, 2);
    RanPrefix(c, Fresh(true, None), actions, 3);
    assert actions[..4] == actions;
    BeginReadsHash(c, Fresh(true, None), Ran(c, Fresh(true, None), actions[..2]), r);
    BeginReadsHash(c, Fresh(true, None), Ran(c, Fresh(true, None), actions[..3]), other);
  }

  lemma BeginReadsHash(c: Crypto, s: Machine, u: Machine, r: Request)
    requires s.enabled == u.enabled && s.retries == u.retries && s.hash == u.hash
    ensures BeginPc(c, s, r) == BeginPc(c, u, r)
  {
  }

  /** A blocked PIN is reported after all when handlers overlap: one passes the assertion
      with one retry left, and another spends it before the first reads the result. */
  lemma BlockedWhenOverlapping(c: Crypto, s: Machine, t: Tid, u: Tid, r: Request, other: Request)
    requires !s.dead && t in s.pcs && u in s.pcs && s.pcs[t] == Gate(r) && s.pcs[u] == Spend(other, 1)
    requires r.Request? && r.sub in {4, 5}
    ensures Ran(c, s, [Run(u), Run(t)]).pcs == s.pcs[u := Compare(other)][t := Finished(Reply(PIN_BLOCKED, Empty))]
  {
    var actions := [Run(u), Run(t)];
    RanPrefix(c, s, actions, 0);
    RanPrefix(c, s, actions, 1);
    assert actions[..2] == actions;
  }

  /** In every run of overlapping handlers: a PIN token is given only to a handler that
      has matched the stored hash, and a step changes the stored hash only for a handler
      that has matched it or that sets a first PIN. */
  lemma OverlappingGrants(c: Crypto, enabled: bool, hash: Option<seq<byte>>, actions: seq<Action>, t: Tid)
    requires t in Ran(c, Fresh(enabled, hash), actions).pcs
    ensures var s := Ran(c, Fresh(enabled, hash), actions);
            && (s.pcs[t].Finished? && !Ended(s.pcs[t]) ==> Entry(t, Tried(true)) in s.past.log)
            && (Go(c, s, Run(t)).hash != s.hash ==> s.pcs[t].FirstStore? || Entry(t, Tried(true)) in s.past.log)
  {
    FreshMatched(c, enabled, hash, actions);
    var s := Ran(c, Fresh(enabled, hash), actions);
    assert HasMatched(s.pcs[t], t, s.past.log);
  }

  // --------------------------------------------------------- one request at a time

  /** The steps a handler has before it at most. */
  function Left(pc: Pc): nat {
    match pc
    case Begin(_) => 8
    case Gate(_) => 7
    case Assertion(_) => 6
    case Fetch(_) => 5
    case Spend(_, _) => 4
    case Compare(_) => 3
    case Restore(_) => 2
    case Store(_) => 1
    case FirstReset(_) => 2
    case FirstStore(_) => 1
    case Finished(_) => 0
  }

  lemma EffectShrinks(c: Crypto, s: Machine, pc: Pc)
    requires !pc.Finished?
    ensures var e := EffectOf(c, s, pc); e.next.Some? ==> Left(e.next.value) < Left(pc)
  {
  }

  /** Handler t runs to its end with nobody else running. */
  function Complete(c: Crypto, s: Machine, t: Tid): Machine
    requires t in s.pcs
    decreases if s.dead then 0 else 1 + Left(s.pcs[t])
  {
    if s.dead || s.pcs[t].Finished? then s
    else
      EffectShrinks(c, s, s.pcs[t]);
      Complete(c, Put(s, t, EffectOf(c, s, s.pcs[t])), t)
  }

  /** Running alone is a run. */
  lemma {:induction false} CompleteIsRun(c: Crypto, s: Machine, t: Tid) returns (actions: seq<Action>)
    requires t in s.pcs
    ensures Ran(c, s, actions) == Complete(c, s, t)
    decreases if s.dead then 0 else 1 + Left(s.pcs[t])
  {
    if s.dead || s.pcs[t].Finished? {
      actions := [];
    } else {
      EffectShrinks(c, s, s.pcs[t]);
      var later := CompleteIsRun(c, Put(s, t, EffectOf(c, s, s.pcs[t])), t);
      actions := [Run(t)] + later;
      RanThen(c, s, [Run(t)], later);
      RanOne(c, s, Run(t));
    }
  }

  function View(s: Machine): State {
    State(s.enabled, s.retries, s.hash, s.past.marks, s.dead)
  }

  /** The handler ended as the request does in `Pin`. */
  predicate Serves(u: Machine, t: Tid, result: (State, Outcome)) {
    View(u) == result.0 && if u.dead then result.1 == Crashed else t in u.pcs && u.pcs[t] == Finished(result.1)
  }

  /** Handler t is alone, and its next step takes it to u. */
  lemma Then(c: Crypto, s: Machine, t: Tid)
    requires !s.dead && t in s.pcs && !s.pcs[t].Finished?
    ensures var u := Put(s, t, EffectOf(c, s, s.pcs[t])); t in u.pcs && Complete(c, s, t) == Complete(c, u, t)
  {
  }

  lemma Stops(c: Crypto, s: Machine, t: Tid)
    requires t in s.pcs && (s.dead || s.pcs[t].Finished?)
    ensures Complete(c, s, t) == s
  {
  }

  /** What a request does once its retry is about to be spent. */
  function Used(c: Crypto, s: State, secret: seq<byte>, r: Request): (State, Outcome)
    requires r.Request?
  {
    var (t, verdict) := Try(c, s, secret, Slice(r.pinHash));
    match verdict
    case Panics => (t, Crashed)
    case Wrong => Says(t, PIN_INVALID)
    case Right => if r.sub == 5 then (t, Reply(OK, Token(c.token(secret)))) else Renew(c, t, secret, r)
  }

  /** The comparison, as the module `Pin` tries it. */
  lemma CompareTries(c: Crypto, s: Machine, r: Request)
    requires Secret(c, r).Some?
    ensures var e := CompareEffect(c, s, r);
            var (v, verdict) := Try(c, View(s).(retries := s.retries + 1), Secret(c, r).value, Slice(r.pinHash));
            match verdict
            case Panics => e == Effect(s.retries, s.hash, None, None) && v == View(s).(dead := true)
            case Wrong =>
              && e == Effect(s.retries, s.hash, Some(Tried(false)), Ends(PIN_INVALID))
              && v == View(s).(log := s.past.marks + [Compared(false)])
            case Right =>
              && e == Effect(s.retries, s.hash, Some(Tried(true)), Some(Restore(r)))
              && v == View(s).(retries := MAX_RETRIES, log := s.past.marks + [Compared(true)] + [Reset])
  {
  }

  /** Handler t is served once its last step has led to where it ends. */
  lemma Last(c: Crypto, s: Machine, t: Tid, e: Effect, result: (State, Outcome))
    requires !s.dead && t in s.pcs && !s.pcs[t].Finished? && e == EffectOf(c, s, s.pcs[t])
    requires e.next == (if result.1 == Crashed then None else Some(Finished(result.1)))
    requires var marks := if e.note.Some? then Noted(s.past, t, e.note.value).marks else s.past.marks;
             result.0 == State(s.enabled, e.retries, e.hash, marks, result.1 == Crashed)
    ensures Serves(Complete(c, s, t), t, result)
  {
    Then(c, s, t);
    Stops(c, Put(s, t, e), t);
  }

  lemma StoreServes(c: Crypto, s: Machine, t: Tid, r: Request)
    requires !s.dead && t in s.pcs && s.pcs[t] == Store(r) && Secret(c, r).Some?
    ensures Serves(Complete(c, s, t), t, Renew(c, View(s), Secret(c, r).value, r))
  {
    Last(c, s, t, EffectOf(c, s, s.pcs[t]), Renew(c, View(s), Secret(c, r).value, r));
  }

  lemma RestoreServes(c: Crypto, s: Machine, t: Tid, r: Request)
    requires !s.dead && t in s.pcs && s.pcs[t] == Restore(r) && Secret(c, r).Some?
    ensures var v := View(s).(retries := MAX_RETRIES, log := s.past.marks + [Reset]);
            var secret := Secret(c, r).value;
            Serves(Complete(c, s, t), t,
              if r.sub == 5 then (v, Reply(OK, Token(c.token(secret)))) else Renew(c, v, secret, r))
  {
    var e := EffectOf(c, s, s.pcs[t]);
    if r.sub == 5 {
      var v := View(s).(retries := MAX_RETRIES, log := s.past.marks + [Reset]);
      Last(c, s, t, e, (v, Reply(OK, Token(c.token(Secret(c, r).value)))));
    } else {
      Then(c, s, t);
      StoreServes(c, Put(s, t, e), t, r);
    }
  }

  lemma CompareServes(c: Crypto, s: Machine, t: Tid, r: Request)
    requires !s.dead && t in s.pcs && s.pcs[t] == Compare(r) && Secret(c, r).Some?
    ensures Serves(Complete(c, s, t), t, Used(c, View(s).(retries := s.retries + 1), Secret(c, r).value, r))
  {
    var e := CompareEffect(c, s, r);
    CompareTries(c, s, r);
    if e.next == Some(Restore(r)) {
      CompareMatches(c, s, t, r, e);
    } else {
      Last(c, s, t, e, Used(c, View(s).(retries := s.retries + 1), Secret(c, r).value, r));
    }
  }

  lemma CompareMatches(c: Crypto, s: Machine, t: Tid, r: Request, e: Effect)
    requires !s.dead && t in s.pcs && s.pcs[t] == Compare(r) && Secret(c, r).Some?
    requires e == CompareEffect(c, s, r) == Effect(s.retries, s.hash, Some(Tried(true)), Some(Restore(r)))
    ensures var v := View(s).(retries := MAX_RETRIES, log := s.past.marks + [Compared(true)] + [Reset]);
            var secret := Secret(c, r).value;
            Serves(Complete(c, s, t), t,
              if r.sub == 5 then (v, Reply(OK, Token(c.token(secret)))) else Renew(c, v, secret, r))
  {
    Then(c, s, t);
    RestoreServes(c, Put(s, t, e), t, r);
  }

  lemma SpendServes(c: Crypto, s: Machine, t: Tid, r: Request)
    requires !s.dead && t in s.pcs && s.pcs[t] == Spend(r, s.retries) && Secret(c, r).Some?
    ensures Serves(Complete(c, s, t), t, Used(c, View(s), Secret(c, r).value, r))
  {
    var e := EffectOf(c, s, s.pcs[t]);
    Then(c, s, t);
    CompareServes(c, Put(s, t, e), t, r);
    assert View(Put(s, t, e)).(retries := s.retries) == View(s);
  }

  lemma AssertionServes(c: Crypto, s: Machine, t: Tid, r: Request)
    requires !s.dead && t in s.pcs && s.pcs[t] == Assertion(r) && Secret(c, r).Some? && InRange(s.retries)
    ensures Serves(Complete(c, s, t), t, Used(c, View(s), Secret(c, r).value, r))
  {
    Then(c, s, t);
    var u := Put(s, t, EffectOf(c, s, s.pcs[t]));
    Then(c, u, t);
    SpendServes(c, Put(u, t, EffectOf(c, u, u.pcs[t])), t, r);
  }

  lemma GateServes(c: Crypto, s: Machine, t: Tid, r: Request)
    requires !s.dead && s.enabled && t in s.pcs && s.pcs[t] == Gate(r) && InRange(s.retries)
    requires r.Request? && r.protocol == 1 && r.sub in {1, 4, 5}
    requires r.sub == 4 ==> r.key.Some? && r.auth.Some?
    requires r.sub == 5 ==> r.pinHash.Some? && r.key.Some? && r.key.value.x.Some?
    ensures Serves(Complete(c, s, t), t, Step(c, View(s), r))
  {
    Then(c, s, t);
    var u := Put(s, t, EffectOf(c, s, s.pcs[t]));
    if !u.dead && u.pcs[t] == Assertion(r) {
      AssertionServes(c, u, t, r);
    }
  }

  lemma FirstServes(c: Crypto, s: Machine, t: Tid, pin: seq<byte>)
    requires !s.dead && t in s.pcs && s.pcs[t] == FirstReset(pin)
    ensures Serves(Complete(c, s, t), t,
              Says(View(s).(retries := MAX_RETRIES, hash := Some(c.digest(pin)), log := s.past.marks + [Reset]), OK))
  {
    var e := EffectOf(c, s, s.pcs[t]);
    var u := Put(s, t, e);
    Then(c, s, t);
    Last(c, u, t, EffectOf(c, u, u.pcs[t]), Says(View(u).(hash := Some(c.digest(pin))), OK));
  }

  /** A handler that runs alone does to the fields, the log and the reply exactly what
      the module `Pin` says of the request. */
  lemma AloneServes(c: Crypto, s: Machine, t: Tid, r: Request)
    requires !s.dead && t !in s.pcs
    ensures Serves(Complete(c, Go(c, s, Start(t, r)), t), t, Step(c, View(s), r))
  {
    var b := Go(c, s, Start(t, r));
    Then(c, b, t);
    var u := Put(b, t, EffectOf(c, b, b.pcs[t]));
    if !u.dead && u.pcs[t].Gate? {
      GateServes(c, u, t, r);
    } else if !u.dead && u.pcs[t].FirstReset? {
      FirstServes(c, u, t, u.pcs[t].pin);
    }
  }

  /** The requests served one after the other, each by a handler of its own. */
  function Serially(c: Crypto, s: Machine, rs: seq<Request>): Machine {
    if rs == [] then s
    else
      var u := Serially(c, s, rs[..|rs| - 1]);
      var t := |rs| - 1;
      if u.dead || t in u.pcs then u else Complete(c, Go(c, u, Start(t, rs[|rs| - 1])), t)
  }

  lemma {:induction false} CompleteKeeps(c: Crypto, s: Machine, t: Tid)
    requires t in s.pcs
    ensures Complete(c, s, t).pcs.Keys == s.pcs.Keys
    decreases if s.dead then 0 else 1 + Left(s.pcs[t])
  {
    if !s.dead && !s.pcs[t].Finished? {
      EffectShrinks(c, s, s.pcs[t]);
      CompleteKeeps(c, Put(s, t, EffectOf(c, s, s.pcs[t])), t);
    }
  }

  /** Requests that do not overlap are what the module `Pin` runs, so what it proves of
      every run holds for them. */
  lemma {:induction false} SerialIsPin(c: Crypto, enabled: bool, hash: Option<seq<byte>>, rs: seq<Request>)
    ensures var u := Serially(c, Fresh(enabled, hash), rs);
            View(u) == Pin.After(c, enabled, hash, rs) && forall t <- u.pcs :: t < |rs|
  {
    if rs != [] {
      var n := |rs| - 1;
      SerialIsPin(c, enabled, hash, rs[..n]);
      var u := Serially(c, Fresh(enabled, hash), rs[..n]);
      Pin.AfterRequest(c, enabled, hash, rs);
      if !u.dead {
        assert n !in u.pcs;
        AloneServes(c, u, n, rs[n]);
        CompleteKeeps(c, Go(c, u, Start(n, rs[n])), n);
      }
    }
  }
}
