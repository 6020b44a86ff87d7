/** PIN requests (`ctap.go`) against the PIN fields of the client (`fido_client.go`).
    The functions say what a request does to the fields; the class is the handler.

    Everything here is about requests that do not overlap: a run is a sequence of requests
    each of which is served to its end before the next one starts. The handlers of
    different channels do overlap, which is the subject of the module `PinThreads`.

    The log holds, in order, every comparison of a decrypted PIN hash with the stored
    one and every reset of the retry counter. A Go panic in the handler's goroutine ends
    the process: the state is dead from then on. */
module Pin {
  import opened Bytes
  import opened Machines
  import opened Wrappers

  const MAX_RETRIES := 8

  const OK: byte := 0x00
  const INVALID_COMMAND: byte := 0x01
  const INVALID_PARAMETER: byte := 0x02
  const INVALID_CBOR: byte := 0x12
  const MISSING_PARAM: byte := 0x14
  const PIN_INVALID: byte := 0x31
  const PIN_BLOCKED: byte := 0x32
  const PIN_AUTH_INVALID: byte := 0x33
  const PIN_POLICY_VIOLATION: byte := 0x37

  /** A COSE key as received: a coordinate can be missing. */
  datatype PublicKey = PublicKey(x: Option<seq<byte>>, y: Option<seq<byte>>)

  /** `clientPINArgs`; Garbled is what `cbor.Unmarshal` rejects. */
  datatype Request =
    | Garbled
    | Request(protocol: uint32, sub: uint32, key: Option<PublicKey>, auth: Option<seq<byte>>,
              newPin: Option<seq<byte>>, pinHash: Option<seq<byte>>)

  datatype Body = Empty | Retries(n: byte) | KeyAgreement | Token(encrypted: seq<byte>)

  datatype Outcome = Reply(status: byte, body: Body) | Crashed

  datatype Mark = Compared(equal: bool) | Reset

  /** The cryptography: the shared secret with the authenticator's key (none when the
      curve code rejects the point, which it does by panicking), the truncated HMAC,
      AES-CBC decryption, the truncated hash of a PIN, the encrypted PIN token. */
  datatype Crypto = Crypto(
    shared: PublicKey -> Option<seq<byte>>, auth: (seq<byte>, seq<byte>) -> seq<byte>,
    decrypt: (seq<byte>, seq<byte>) -> seq<byte>, digest: seq<byte> -> seq<byte>, token: seq<byte> -> seq<byte>)

  datatype State = State(enabled: bool, retries: int, hash: Option<seq<byte>>, log: seq<Mark>, dead: bool)

  // ------------------------------------------------------------ specification

  /** A nil slice has no bytes. */
  function Slice(o: Option<seq<byte>>): seq<byte> {
    if o.Some? then o.value else []
  }

  /** `cipher.CryptBlocks` panics on a partial block. */
  predicate Decryptable(data: seq<byte>) {
    |data| % 16 == 0
  }

  /** `decryptPIN`: the bytes before the first zero, none if there is no zero. */
  function Unpad(padded: seq<byte>): (pin: seq<byte>)
    ensures 0 !in pin
    ensures 0 in padded ==> pin + [0] <= padded
    ensures 0 !in padded ==> pin == []
  {
    if 0 !in padded || padded[0] == 0 then [] else [padded[0]] + Unpad(padded[1..])
  }

  /** The assertion in `PINRetries`. */
  predicate Readable(s: State) {
    0 < s.retries <= MAX_RETRIES
  }

  function Died(s: State): (State, Outcome) {
    (s.(dead := true), Crashed)
  }

  function Says(s: State, status: byte): (State, Outcome) {
    (s, Reply(status, Empty))
  }

  datatype Verdict = Wrong | Right | Panics

  /** One use of the PIN: a retry is spent before anything is decrypted, and given back
      by a match. */
  function Try(c: Crypto, s: State, secret: seq<byte>, encrypted: seq<byte>): (State, Verdict) {
    var spent := s.(retries := s.retries - 1);
    if !Decryptable(encrypted) then (spent.(dead := true), Panics)
    else if c.decrypt(secret, encrypted) == Slice(s.hash) then
      (s.(retries := MAX_RETRIES, log := s.log + [Compared(true)] + [Reset]), Right)
    else (spent.(log := s.log + [Compared(false)]), Wrong)
  }

  function SetPIN(c: Crypto, s: State, r: Request): (State, Outcome)
    requires r.Request?
  {
    if s.hash.Some? then Says(s, PIN_AUTH_INVALID)
    else if r.key.None? || r.auth.None? || r.newPin.None? then Says(s, MISSING_PARAM)
    else
      var secret := c.shared(r.key.value);
      if secret.None? then Died(s)
      else if c.auth(secret.value, r.newPin.value) != r.auth.value then Says(s, PIN_AUTH_INVALID)
      else if !Decryptable(r.newPin.value) then Died(s)
      else
        var pin := Unpad(c.decrypt(secret.value, r.newPin.value));
        if |pin| < 4 then Says(s, PIN_POLICY_VIOLATION)
        else Says(s.(retries := MAX_RETRIES, hash := Some(c.digest(pin)), log := s.log + [Reset]), OK)
  }

  /** A PIN changed after a match. */
  function Renew(c: Crypto, s: State, secret: seq<byte>, r: Request): (State, Outcome)
    requires r.Request?
  {
    if !Decryptable(Slice(r.newPin)) then Died(s)
    else
      var pin := Unpad(c.decrypt(secret, Slice(r.newPin)));
      if |pin| < 4 then Says(s, PIN_POLICY_VIOLATION) else Says(s.(hash := Some(c.digest(pin))), OK)
  }

  function ChangePIN(c: Crypto, s: State, r: Request): (State, Outcome)
    requires r.Request?
  {
    if r.key.None? || r.auth.None? then Says(s, MISSING_PARAM)
    else
      var secret := c.shared(r.key.value);
      if !Readable(s) || secret.None? then Died(s)
      else if c.auth(secret.value, Slice(r.newPin) + Slice(r.pinHash)) != r.auth.value then Says(s, PIN_AUTH_INVALID)
      else
        var (t, verdict) := Try(c, s, secret.value, Slice(r.pinHash));
        match verdict
        case Panics => (t, Crashed)
        case Wrong => Says(t, PIN_INVALID)
        case Right => Renew(c, t, secret.value, r)
  }

  function GetToken(c: Crypto, s: State, r: Request): (State, Outcome)
    requires r.Request?
  {
    if r.pinHash.None? then Says(s, MISSING_PARAM)
    else if r.key.None? then Died(s)
    else if r.key.value.x.None? then Says(s, MISSING_PARAM)
    else
      var secret := c.shared(r.key.value);
      if !Readable(s) || secret.None? then Died(s)
      else
        var (t, verdict) := Try(c, s, secret.value, r.pinHash.value);
        match verdict
        case Panics => (t, Crashed)
        case Wrong => Says(t, PIN_INVALID)
        case Right => (t, Reply(OK, Token(c.token(secret.value))))
  }

  /** `handleClientPIN`. */
  function Step(c: Crypto, s: State, r: Request): (State, Outcome) {
    if s.dead then (s, Crashed)
    else if !s.enabled then Says(s, INVALID_COMMAND)
    else if r.Garbled? then Says(s, INVALID_CBOR)
    else if r.protocol != 1 then Says(s, INVALID_PARAMETER)
    else if r.sub == 1 then if Readable(s) then (s, Reply(OK, Retries(s.retries))) else Died(s)
    else if r.sub == 2 then (s, Reply(OK, KeyAgreement))
    else if r.sub == 3 then SetPIN(c, s, r)
    else if r.sub == 4 then ChangePIN(c, s, r)
    else if r.sub == 5 then GetToken(c, s, r)
    else Says(s, MISSING_PARAM)
  }

  // ------------------------------------------------------------------ handler

  class CTAPServer {
    const crypto: Crypto
    var pinEnabled: bool
    var pinRetries: int
    var pinHash: Option<seq<byte>>
    var crashed: bool
    ghost var log: seq<Mark>

    ghost function View(): State
      reads this
    {
      State(pinEnabled, pinRetries, pinHash, log, crashed)
    }

    /** `NewDefaultClient`, with what was loaded from disk. */
    constructor (crypto: Crypto, enabled: bool, hash: Option<seq<byte>>)
      ensures this.crypto == crypto && View() == Started(enabled, hash)
    {
      this.crypto := crypto;
      pinEnabled, pinRetries, pinHash, crashed, log := enabled, 8, hash, false, [];
    }

    /** `PINRetries`, which panics unless the value is 1..8. */
    method PINRetries() returns (n: int)
      modifies this`crashed
      ensures n == pinRetries
      ensures crashed <==> old(crashed) || !Readable(View())
    {
      if !(pinRetries > 0 && pinRetries <= 8) {
        crashed := true;
      }
      n := pinRetries;
    }

    method SetPINRetries(retries: int)
      modifies this
      ensures View() == old(View()).(retries := retries, log := if retries == 8 then old(log) + [Reset] else old(log))
    {
      pinRetries := retries;
      if retries == 8 {
        log := log + [Reset];
      }
    }

    /** `decryptPIN`, with the panic on a partial block. */
    method DecryptPIN(secret: seq<byte>, encoding: seq<byte>) returns (pin: seq<byte>)
      modifies this`crashed
      ensures crashed <==> old(crashed) || !Decryptable(encoding)
      ensures Decryptable(encoding) ==> pin == Unpad(crypto.decrypt(secret, encoding))
    {
      if |encoding| % 16 != 0 {
        crashed := true;
        return [];
      }
      var padded := crypto.decrypt(secret, encoding);
      pin := [];
      var i := 0;
      while i < |padded|
        invariant 0 <= i <= |padded| && 0 !in padded[..i] && pin == []
      {
        if padded[i] == 0 {
          UnpadAt(padded, i);
          return padded[..i];
        }
        i := i + 1;
      }
      UnpadNone(padded);
    }

    method HandleSetPIN(r: Request) returns (out: Outcome)
      requires r.Request? && !crashed
      modifies this
      ensures (View(), out) == SetPIN(crypto, old(View()), r)
    {
      if pinHash.Some? { return Reply(PIN_AUTH_INVALID, Empty); }
      if r.key.None? || r.auth.None? || r.newPin.None? { return Reply(MISSING_PARAM, Empty); }
      var secret := crypto.shared(r.key.value);
      if secret.None? {
        crashed := true;
        return Crashed;
      }
      if crypto.auth(secret.value, r.newPin.value) != r.auth.value { return Reply(PIN_AUTH_INVALID, Empty); }
      var pin := DecryptPIN(secret.value, r.newPin.value);
      if crashed { return Crashed; }
      if |pin| < 4 { return Reply(PIN_POLICY_VIOLATION, Empty); }
      SetPINRetries(8);
      pinHash := Some(crypto.digest(pin));
      out := Reply(OK, Empty);
    }

    method HandleChangePIN(r: Request) returns (out: Outcome)
      requires r.Request? && !crashed
      modifies this
      ensures (View(), out) == ChangePIN(crypto, old(View()), r)
    {
      if r.key.None? || r.auth.None? { return Reply(MISSING_PARAM, Empty); }
      var n := PINRetries();
      if crashed { return Crashed; }
      if n == 0 { return Reply(PIN_BLOCKED, Empty); }
      var secret := crypto.shared(r.key.value);
      if secret.None? {
        crashed := true;
        return Crashed;
      }
      if crypto.auth(secret.value, Slice(r.newPin) + Slice(r.pinHash)) != r.auth.value {
        return Reply(PIN_AUTH_INVALID, Empty);
      }
      n := PINRetries();
      SetPINRetries(n - 1);
      if |Slice(r.pinHash)| % 16 != 0 {
        crashed := true;
        return Crashed;
      }
      var equal := crypto.decrypt(secret.value, Slice(r.pinHash)) == Slice(pinHash);
      log := log + [Compared(equal)];
      if !equal { return Reply(PIN_INVALID, Empty); }
      SetPINRetries(8);
      var pin := DecryptPIN(secret.value, Slice(r.newPin));
      if crashed { return Crashed; }
      if |pin| < 4 { return Reply(PIN_POLICY_VIOLATION, Empty); }
      pinHash := Some(crypto.digest(pin));
      out := Reply(OK, Empty);
    }

    method HandleGetPINToken(r: Request) returns (out: Outcome)
      requires r.Request? && !crashed
      modifies this
      ensures (View(), out) == GetToken(crypto, old(View()), r)
    {
      if r.pinHash.None? { return Reply(MISSING_PARAM, Empty); }
      if r.key.None? {
        crashed := true;
        return Crashed;
      }
      if r.key.value.x.None? { return Reply(MISSING_PARAM, Empty); }
      var n := PINRetries();
      if crashed { return Crashed; }
      if n <= 0 { return Reply(PIN_BLOCKED, Empty); }
      var secret := crypto.shared(r.key.value);
      if secret.None? {
        crashed := true;
        return Crashed;
      }
      n := PINRetries();
      SetPINRetries(n - 1);
      if |r.pinHash.value| % 16 != 0 {
        crashed := true;
        return Crashed;
      }
      var equal := crypto.decrypt(secret.value, r.pinHash.value) == Slice(pinHash);
      log := log + [Compared(equal)];
      if !equal { return Reply(PIN_INVALID, Empty); }
      SetPINRetries(8);
      out := Reply(OK, Token(crypto.token(secret.value)));
    }

    method HandleClientPIN(r: Request) returns (out: Outcome)
      requires !crashed
      modifies this
      ensures (View(), out) == Step(crypto, old(View()), r)
    {
      if !pinEnabled { return Reply(INVALID_COMMAND, Empty); }
      if r.Garbled? { return Reply(INVALID_CBOR, Empty); }
      if r.protocol != 1 { return Reply(INVALID_PARAMETER, Empty); }
      match r.sub
      case 1 =>
        var n := PINRetries();
        if crashed { return Crashed; }
        out := Reply(OK, Retries(n % 0x100));
      case 2 => out := Reply(OK, KeyAgreement);
      case 3 => out := HandleSetPIN(r);
      case 4 => out := HandleChangePIN(r);
      case 5 => out := HandleGetPINToken(r);
      case _ => out := Reply(MISSING_PARAM, Empty);
    }
  }

  lemma {:induction false} UnpadAt(padded: seq<byte>, i: nat)
    requires i < |padded| && padded[i] == 0 && 0 !in padded[..i]
    ensures Unpad(padded) == padded[..i]
  {
    if i > 0 {
      assert padded[0] == padded[..i][0] && padded[1..][..i - 1] == padded[..i][1..];
      UnpadAt(padded[1..], i - 1);
    }
  }

  lemma UnpadNone(padded: seq<byte>)
    requires 0 !in padded[..|padded|]
    ensures Unpad(padded) == []
  {
    assert padded[..|padded|] == padded;
  }

  // --------------------------------------------------------------------- runs

  function Started(enabled: bool, hash: Option<seq<byte>>): State {
    State(enabled, MAX_RETRIES, hash, [], false)
  }

  /** The state after a process, started with what is on disk, has got these requests. */
  function After(c: Crypto, enabled: bool, hash: Option<seq<byte>>, rs: seq<Request>): State {
    Final((s, r) => Step(c, s, r), Started(enabled, hash), rs)
  }

  lemma AfterRequest(c: Crypto, enabled: bool, hash: Option<seq<byte>>, rs: seq<Request>)
    requires rs != []
    ensures var n := |rs| - 1;
            After(c, enabled, hash, rs) == Step(c, After(c, enabled, hash, rs[..n]), rs[n]).0
  {
    var n := |rs| - 1;
    assert rs == rs[..n] + [rs[n]];
    Append((s, r) => Step(c, s, r), Started(enabled, hash), rs[..n], rs[n]);
  }

  /** The wrong comparisons since the last reset. */
  function Wrongs(log: seq<Mark>): nat {
    if log == [] || log[|log| - 1] == Reset then 0
    else Wrongs(log[..|log| - 1]) + if log[|log| - 1] == Compared(false) then 1 else 0
  }

  function Mismatches(log: seq<Mark>): nat {
    if log == [] then 0 else Mismatches(log[..|log| - 1]) + if log[|log| - 1] == Compared(false) then 1 else 0
  }

  /** At no point of the log are there nine wrong comparisons since the last reset. */
  predicate Bounded(log: seq<Mark>) {
    Wrongs(log) <= MAX_RETRIES && (log == [] || Bounded(log[..|log| - 1]))
  }

  lemma {:induction false} BoundedAt(log: seq<Mark>, j: nat)
    requires Bounded(log) && j <= |log|
    ensures Bounded(log[..j])
    decreases |log|
  {
    if j == |log| {
      assert log[..j] == log;
    } else {
      var n := |log| - 1;
      assert log[..n][..j] == log[..j];
      BoundedAt(log[..n], j);
    }
  }

  /** What every step keeps. A process that dies has spent at most one retry more than
      it has compared. */
  predicate Accounted(s: State) {
    && 0 <= s.retries <= MAX_RETRIES
    && (!s.dead ==> Wrongs(s.log) + s.retries == MAX_RETRIES)
    && Bounded(s.log)
  }

  lemma LogGrows(log: seq<Mark>, m: Mark)
    ensures (log + [m])[..|log|] == log
    ensures Wrongs(log + [m]) == if m == Reset then 0 else Wrongs(log) + if m == Compared(false) then 1 else 0
  {
    assert (log + [m])[..|log|] == log;
  }

  lemma TryAccounted(c: Crypto, s: State, secret: seq<byte>, encrypted: seq<byte>)
    requires Accounted(s) && Readable(s) && !s.dead
    ensures Accounted(Try(c, s, secret, encrypted).0)
  {
    LogGrows(s.log, Compared(false));
    LogGrows(s.log, Compared(true));
    LogGrows(s.log + [Compared(true)], Reset);
  }

  lemma ChangeAccounted(c: Crypto, s: State, r: Request)
    requires Accounted(s) && !s.dead && r.Request?
    ensures Accounted(ChangePIN(c, s, r).0)
  {
    if r.key.Some? && c.shared(r.key.value).Some? && Readable(s) {
      TryAccounted(c, s, c.shared(r.key.value).value, Slice(r.pinHash));
    }
  }

  lemma TokenAccounted(c: Crypto, s: State, r: Request)
    requires Accounted(s) && !s.dead && r.Request?
    ensures Accounted(GetToken(c, s, r).0)
  {
    if r.pinHash.Some? && r.key.Some? && c.shared(r.key.value).Some? && Readable(s) {
      TryAccounted(c, s, c.shared(r.key.value).value, r.pinHash.value);
    }
  }

  lemma StepAccounted(c: Crypto, s: State, r: Request)
    requires Accounted(s)
    ensures Accounted(Step(c, s, r).0)
  {
    LogGrows(s.log, Reset);
    if !s.dead && r.Request? {
      ChangeAccounted(c, s, r);
      TokenAccounted(c, s, r);
    }
  }

  lemma {:induction false} AfterAccounted(c: Crypto, enabled: bool, hash: Option<seq<byte>>, rs: seq<Request>)
    ensures Accounted(After(c, enabled, hash, rs))
  {
    var step := (s, r) => Step(c, s, r);
    if rs == [] {
    } else {
      var n := |rs| - 1;
      AfterAccounted(c, enabled, hash, rs[..n]);
      assert rs == rs[..n] + [rs[n]];
      Append(step, Started(enabled, hash), rs[..n], rs[n]);
      StepAccounted(c, After(c, enabled, hash, rs[..n]), rs[n]);
    }
  }

  lemma {:induction false} WrongsCount(log: seq<Mark>, i: nat)
    requires i <= |log| && Reset !in log[i..]
    ensures Mismatches(log[i..]) <= Wrongs(log)
    decreases |log|
  {
    if i < |log| {
      var n := |log| - 1;
      assert log[i..][..n - i] == log[..n][i..] && log[i..][n - i] == log[n];
      assert forall m :: m in log[..n][i..] ==> m in log[i..];
      WrongsCount(log[..n], i);
    }
  }

  /** In every run of requests one at a time: the wrong comparisons since the last reset
      and the retries left add up to eight while the process lives, and no stretch of the run
      without a reset holds a ninth wrong comparison, whether it lives or not. */
  lemma RetryAccounting(c: Crypto, enabled: bool, hash: Option<seq<byte>>, rs: seq<Request>, i: nat, j: nat)
    ensures var s := After(c, enabled, hash, rs);
            && (!s.dead ==> Wrongs(s.log) + s.retries == MAX_RETRIES)
            && (i <= j <= |s.log| && Reset !in s.log[i..j] ==> Mismatches(s.log[i..j]) <= MAX_RETRIES)
  {
    AfterAccounted(c, enabled, hash, rs);
    var log := After(c, enabled, hash, rs).log;
    if i <= j <= |log| && Reset !in log[i..j] {
      assert log[..j][i..] == log[i..j];
      BoundedAt(log, j);
      WrongsCount(log[..j], i);
    }
  }

  /** What a step does to a state with a PIN set: the PIN stays set, the log only
      grows, and a reset follows a match. */
  lemma StepWithPIN(c: Crypto, s: State, r: Request)
    requires s.hash.Some?
    ensures var t := Step(c, s, r).0;
            && t.hash.Some?
            && (t.log == s.log || t.log == s.log + [Compared(false)] || t.log == s.log + [Compared(true)] + [Reset])
  {
  }

  /** Requests one at a time: once a PIN is set it stays set, and from then on the counter
      is reset by a matching PIN hash only. */
  lemma {:induction false} ResetNeedsMatch(c: Crypto, s: State, rs: seq<Request>, k: nat)
    requires s.hash.Some?
    ensures var t := Final((s, r) => Step(c, s, r), s, rs);
            && t.hash.Some? && s.log <= t.log
            && (|s.log| <= k < |t.log| && t.log[k] == Reset ==> k > |s.log| && t.log[k - 1] == Compared(true))
  {
    var step := (s, r) => Step(c, s, r);
    if rs != [] {
      var n := |rs| - 1;
      assert rs == rs[..n] + [rs[n]];
      Append(step, s, rs[..n], rs[n]);
      ResetNeedsMatch(c, s, rs[..n], k);
      StepWithPIN(c, Final(step, s, rs[..n]), rs[n]);
    }
  }

  // ------------------------------------------------------------ which PIN is set

  /** The new PIN that a request carries: the decrypted bytes before the first zero. */
  predicate Carries(c: Crypto, r: Request, p: seq<byte>) {
    && r.Request? && r.key.Some? && c.shared(r.key.value).Some?
    && 0 !in p && p + [0] <= c.decrypt(c.shared(r.key.value).value, Slice(r.newPin))
  }

  lemma CarriesIs(c: Crypto, r: Request, p: seq<byte>)
    requires Carries(c, r, p)
    ensures Unpad(c.decrypt(c.shared(r.key.value).value, Slice(r.newPin))) == p
  {
    var padded := c.decrypt(c.shared(r.key.value).value, Slice(r.newPin));
    assert padded[..|p| + 1] == p + [0];
    assert padded[|p|] == (p + [0])[|p|] && padded[..|p|] == p;
    UnpadAt(padded, |p|);
  }

  lemma UnpaddedIsCarried(c: Crypto, r: Request)
    requires r.Request? && r.key.Some? && c.shared(r.key.value).Some?
    requires |Unpad(c.decrypt(c.shared(r.key.value).value, Slice(r.newPin)))| > 0
    ensures Carries(c, r, Unpad(c.decrypt(c.shared(r.key.value).value, Slice(r.newPin))))
  {
  }

  /** A first PIN is accepted exactly if none is set, the parameters are there, the HMAC of
      the encrypted PIN is right, and it decrypts to a PIN of four bytes at least. */
  lemma SetPINIff(c: Crypto, s: State, r: Request)
    requires s.enabled && !s.dead && r.Request? && r.protocol == 1 && r.sub == 3
    ensures Step(c, s, r).1 == Reply(OK, Empty) <==>
              && s.hash.None? && r.key.Some? && r.auth.Some? && r.newPin.Some? && c.shared(r.key.value).Some?
              && c.auth(c.shared(r.key.value).value, r.newPin.value) == r.auth.value && |r.newPin.value| % 16 == 0
              && exists p :: Carries(c, r, p) && |p| >= 4
  {
    if r.key.Some? && c.shared(r.key.value).Some? {
      var pin := Unpad(c.decrypt(c.shared(r.key.value).value, Slice(r.newPin)));
      if |pin| >= 4 {
        UnpaddedIsCarried(c, r);
      }
      forall p | Carries(c, r, p) ensures p == pin {
        CarriesIs(c, r, p);
      }
    }
  }

  /** The other answers: PIN_AUTH_INVALID for a PIN that is set or a wrong HMAC, and
      PIN_POLICY_VIOLATION for a PIN that is too short; neither changes anything. */
  lemma SetPINRefused(c: Crypto, s: State, r: Request)
    requires s.enabled && !s.dead && r.Request? && r.protocol == 1 && r.sub == 3
    requires r.key.Some? && r.auth.Some? && r.newPin.Some? && c.shared(r.key.value).Some?
    ensures var right := c.auth(c.shared(r.key.value).value, r.newPin.value) == r.auth.value;
            && (s.hash.Some? || !right ==> Step(c, s, r) == (s, Reply(0x33, Empty)))
            && (s.hash.None? && right && |r.newPin.value| % 16 == 0 && !(exists p :: Carries(c, r, p) && |p| >= 4) ==>
                  Step(c, s, r) == (s, Reply(0x37, Empty)))
  {
    var pin := Unpad(c.decrypt(c.shared(r.key.value).value, Slice(r.newPin)));
    if |pin| >= 4 {
      UnpaddedIsCarried(c, r);
    }
  }

  /** A PIN is changed exactly if the parameters are there, a retry is left, the HMAC of
      the encrypted PIN followed by the encrypted hash is right, the hash decrypts to the
      stored one, and the PIN to one of four bytes at least. */
  lemma ChangePINIff(c: Crypto, s: State, r: Request)
    requires s.enabled && !s.dead && r.Request? && r.protocol == 1 && r.sub == 4
    ensures Step(c, s, r).1 == Reply(OK, Empty) <==>
              && r.key.Some? && r.auth.Some? && c.shared(r.key.value).Some? && 0 < s.retries <= MAX_RETRIES
              && c.auth(c.shared(r.key.value).value, Slice(r.newPin) + Slice(r.pinHash)) == r.auth.value
              && |Slice(r.pinHash)| % 16 == 0 && |Slice(r.newPin)| % 16 == 0
              && c.decrypt(c.shared(r.key.value).value, Slice(r.pinHash)) == Slice(s.hash)
              && exists p :: Carries(c, r, p) && |p| >= 4
  {
    if r.key.Some? && c.shared(r.key.value).Some? {
      var pin := Unpad(c.decrypt(c.shared(r.key.value).value, Slice(r.newPin)));
      if |pin| >= 4 {
        UnpaddedIsCarried(c, r);
      }
      forall p | Carries(c, r, p) ensures p == pin {
        CarriesIs(c, r, p);
      }
    }
  }

  /** A request for a PIN token that gets as far as the comparison. */
  predicate AsksToken(c: Crypto, q: Request) {
    && q.Request? && q.protocol == 1 && q.sub == 5 && q.pinHash.Some? && q.key.Some? && q.key.value.x.Some?
    && c.shared(q.key.value).Some? && |q.pinHash.value| % 16 == 0
  }

  /** The PIN that is set or changed is the one that opens: after a request that carried p
      and was accepted, a request for a token gets it if and only if it carries the hash
      of p, and otherwise is refused and costs one of eight retries. */
  lemma NewPINOpens(c: Crypto, s: State, r: Request, p: seq<byte>, q: Request)
    requires s.enabled && !s.dead && r.Request? && r.protocol == 1 && r.sub in {3, 4}
    requires Step(c, s, r).1 == Reply(OK, Empty) && Carries(c, r, p) && AsksToken(c, q)
    ensures var t := Step(c, s, r).0;
            var (u, out) := Step(c, t, q);
            var secret := c.shared(q.key.value).value;
            && t.hash == Some(c.digest(p)) && t.retries == MAX_RETRIES
            && (out == Reply(OK, Token(c.token(secret))) <==> c.decrypt(secret, q.pinHash.value) == c.digest(p))
            && (out != Reply(OK, Token(c.token(secret))) ==>
                  out == Reply(PIN_INVALID, Empty) && u.retries == MAX_RETRIES - 1 && u.hash == t.hash)
  {
    CarriesIs(c, r, p);
  }

  /** Only a comparison costs anything: a request after which the process lives and the
      log is what it was has changed nothing at all. */
  lemma OnlyComparisonsCost(c: Crypto, s: State, r: Request)
    ensures var t := Step(c, s, r).0; !t.dead && t.log == s.log ==> t == s
  {
    var t := Step(c, s, r).0;
    assert t.log != s.log ==> |t.log| > |s.log|;
  }

  /** And what costs a retry, while the process lives, is said to be a wrong PIN. */
  lemma WrongIsSaid(c: Crypto, s: State, r: Request)
    ensures var (t, out) := Step(c, s, r);
            && (out == Reply(PIN_INVALID, Empty) ==>
                  t.retries == s.retries - 1 && t.log == s.log + [Compared(false)] && t.hash == s.hash)
            && (!t.dead && t.retries < s.retries && s.retries <= MAX_RETRIES ==> out == Reply(PIN_INVALID, Empty))
  {
  }

  /** The retries that are reported are those that are left, and reporting costs none. */
  lemma RetriesReported(c: Crypto, s: State, r: Request)
    requires s.enabled && !s.dead && r.Request? && r.protocol == 1 && r.sub == 1 && 1 <= s.retries <= 8
    ensures Step(c, s, r) == (s, Reply(OK, Retries(s.retries)))
  {
  }

  /** Exactly when a PIN token is given out. */
  lemma TokenIff(c: Crypto, s: State, r: Request)
    requires s.enabled && !s.dead && r.Request? && r.protocol == 1 && r.sub == 5
    ensures var (t, out) := Step(c, s, r);
            out.Reply? && out.body.Token? <==>
              && r.pinHash.Some? && r.key.Some? && r.key.value.x.Some? && c.shared(r.key.value).Some?
              && 0 < s.retries <= MAX_RETRIES && |r.pinHash.value| % 16 == 0
              && c.decrypt(c.shared(r.key.value).value, r.pinHash.value) == Slice(s.hash)
  {
  }

  /** A request served alone that gives out a token, or that replaces a PIN, has compared
      the stored hash with an equal one, and leaves all eight retries. */
  lemma GrantNeedsMatch(c: Crypto, s: State, r: Request)
    requires !s.dead
    ensures var (t, out) := Step(c, s, r);
            (out.Reply? && out.body.Token?) || (s.hash.Some? && t.hash != s.hash) ==>
              && r.Request? && r.key.Some? && c.shared(r.key.value).Some?
              && c.decrypt(c.shared(r.key.value).value, Slice(r.pinHash)) == Slice(s.hash)
              && t.retries == MAX_RETRIES && t.log == s.log + [Compared(true)] + [Reset]
  {
  }

  /** The request does not carry an encrypted copy of the stored hash. */
  predicate Misses(c: Crypto, hash: seq<byte>, r: Request) {
    r.Request? && r.key.Some? && c.shared(r.key.value).Some? ==>
      c.decrypt(c.shared(r.key.value).value, Slice(r.pinHash)) != hash
  }

  lemma MissStep(c: Crypto, s: State, r: Request)
    requires s.hash.Some? && Misses(c, s.hash.value, r)
    ensures var (t, out) := Step(c, s, r);
            && t.hash == s.hash && (t.log == s.log || t.log == s.log + [Compared(false)])
            && !(out.Reply? && out.body.Token?)
  {
  }

  /** Whoever does not know the PIN hash gets eight comparisons out of a process, no
      token, and no change of the PIN, whatever requests they send one at a time. */
  lemma {:induction false} EightGuesses(c: Crypto, enabled: bool, hash: seq<byte>, rs: seq<Request>, i: nat)
    requires forall r <- rs :: Misses(c, hash, r)
    ensures var s := After(c, enabled, Some(hash), rs);
            && s.hash == Some(hash) && Reset !in s.log && |s.log| == Wrongs(s.log) <= MAX_RETRIES
    ensures i < |rs| ==> var out := Outputs((s, r) => Step(c, s, r), Started(enabled, Some(hash)), rs)[i];
                         !(out.Reply? && out.body.Token?)
  {
    var step := (s, r) => Step(c, s, r);
    if rs != [] {
      var n := |rs| - 1;
      var s := After(c, enabled, Some(hash), rs[..n]);
      assert rs == rs[..n] + [rs[n]];
      Append(step, Started(enabled, Some(hash)), rs[..n], rs[n]);
      EightGuesses(c, enabled, hash, rs[..n], i);
      MissStep(c, s, rs[n]);
      LogGrows(s.log, Compared(false));
      AfterAccounted(c, enabled, Some(hash), rs);
    }
  }

  /** The handlers test for a blocked PIN after `PINRetries` has panicked on it: over
      every run the blocked status is never reported. With no retry left, the requests
      that end the process are exactly those that get as far as reading the counter, and
      a token request without a key. */
  lemma BlockedIsACrash(c: Crypto, enabled: bool, hash: Option<seq<byte>>, rs: seq<Request>, r: Request)
    ensures var s := After(c, enabled, hash, rs);
            var out := Step(c, s, r).1;
            && out != Reply(PIN_BLOCKED, Empty)
            && (!s.dead && s.retries == 0 ==> Wrongs(s.log) == MAX_RETRIES)
            && (!s.dead && s.retries == 0 && s.enabled && r.Request? && r.protocol == 1 && r.sub in {1, 4, 5} ==>
                  (out == Crashed <==>
                    match r.sub
                    case 1 => true
                    case 4 => r.key.Some? && r.auth.Some?
                    case _ => r.pinHash.Some? && (r.key.Some? ==> r.key.value.x.Some?)))
  {
    AfterAccounted(c, enabled, hash, rs);
  }
}
