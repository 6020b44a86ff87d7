/** The authenticator client and the assertion handler (`fido_client.go`, `ctap.go`):
    the mutable objects whose steps the module Counters runs. */
module Clients {
  import opened Bytes
  import opened Cose
  import opened Vault
  import opened Wrappers
  import C = Counters

  const PIN_AUTH_INVALID: byte := 0x33
  const INVALID_CBOR: byte := 0x12
  const OPERATION_DENIED: byte := 0x27
  const NO_CREDENTIALS: byte := 0x2e

  /** The HMAC of PIN tokens, SHA-256, and signing. */
  datatype Crypto = Crypto(
    auth: (seq<byte>, seq<byte>) -> seq<byte>, hash: string -> seq<byte>, sign: (PrivateKey, seq<byte>) -> seq<byte>)

  /** `getAssertionArgs`, or what CBOR decoding rejects. */
  datatype Request =
    | Garbled
    | Request(rp: string, clientData: seq<byte>, allow: Option<seq<Id>>, userPresence: Option<bool>,
              auth: Option<seq<byte>>, protocol: uint32)

  datatype Reply = Refused(status: byte) | Assertion(id: Id, authData: seq<byte>, signature: seq<byte>)

  /** `makeAuthData` without attested data. UP is bit 0 and UV is bit 2 of the flags. */
  function AuthData(rpHash: seq<byte>, up: bool, uv: bool, counter: int32): seq<byte> {
    rpHash + [(if up then 1 else 0) + (if uv then 4 else 0)] + ToBE32(counter % 0x1_0000_0000)
  }

  /** A relying party reads the flags and a non-negative counter back from their places
      (section 6.1 of W3C Web Authentication Level 2). */
  lemma AuthDataParses(rpHash: seq<byte>, up: bool, uv: bool, counter: int32)
    requires |rpHash| == 32 && counter >= 0
    ensures var a := AuthData(rpHash, up, uv, counter);
            && |a| == 37 && a[..32] == rpHash && FromBE32(a[33..37]) == counter
            && (a[32] % 2 == 1 <==> up) && (a[32] / 4 == 1 <==> uv)
  {
    var a := AuthData(rpHash, up, uv, counter);
    var n: uint32 := counter;
    var flags := (if up then 1 else 0) + if uv then 4 else 0;
    assert a == rpHash + ([flags] + ToBE32(n));
    assert a[..32] == rpHash && a[32] == flags && a[33..37] == ToBE32(n);
    BE32RoundTrip(n);
  }

  /** The request carries the HMAC of its client data under the PIN token. */
  predicate Authenticated(crypto: Crypto, token: seq<byte>, r: Request) {
    r.Request? && r.protocol == 1 && r.auth == Some(crypto.auth(token, r.clientData))
  }

  /** It claims to be authenticated and is not. */
  predicate BadAuth(crypto: Crypto, pinEnabled: bool, token: seq<byte>, r: Request) {
    r.Request? && pinEnabled && r.auth.Some? && !Authenticated(crypto, token, r)
  }

  /** The assertion over a credential. */
  function Signed(crypto: Crypto, e: Entry, r: Request, up: bool, uv: bool): Reply
    requires r.Request?
  {
    var authData := AuthData(crypto.hash(r.rp), up, uv, e.counter);
    Assertion(e.id, authData, crypto.sign(e.key, authData + r.clientData))
  }

  predicate AsksUser(r: Request) {
    r.Request? && r.userPresence != Some(false)
  }

  /** `handleGetAssertion` after the PIN part: the vault and what has been emitted, and the
      reply. */
  function Ceremony(crypto: Crypto, s: C.State, r: Request, yes: bool, written: bool, authenticated: bool)
    : (C.State, Reply)
    requires r.Request?
  {
    var i, agreed := C.Picks(s, r.rp, r.allow), yes || !AsksUser(r);
    var t := C.Ceremony(s, r.rp, r.allow, written, agreed);
    if i.None? then (t, Refused(NO_CREDENTIALS))
    else if !agreed then (t, Refused(OPERATION_DENIED))
    else (t, Signed(crypto, t.mem[i.value], r, AsksUser(r), AsksUser(r) || authenticated))
  }

  /** And as a whole. */
  function Handle(
      crypto: Crypto, pinEnabled: bool, token: seq<byte>, s: C.State, r: Request, yes: bool, written: bool)
    : (C.State, Reply)
  {
    if r.Garbled? then (s, Refused(INVALID_CBOR))
    else if BadAuth(crypto, pinEnabled, token, r) then (s, Refused(PIN_AUTH_INVALID))
    else Ceremony(crypto, s, r, yes, written, pinEnabled && Authenticated(crypto, token, r))
  }

  /** The counter in authenticator data. */
  function CounterIn(authData: seq<byte>): int32
    requires |authData| == 37
  {
    Int32(FromBE32(authData[33..37]))
  }

  /** What a relying party can check of an assertion, and what it means: it is made by the
      first credential of its own that its allow list, if it gave one, names; the
      authenticator data starts with the hash of its id, and holds the counter that this
      credential now has, one more than before up to the wrap-around, and that is what
      the log of emitted counters got; and the credential's key has signed the
      authenticator data followed by the client data. */
  ghost predicate Proves(crypto: Crypto, s: C.State, t: C.State, r: Request, reply: Reply)
    requires r.Request? && reply.Assertion?
  {
    exists i: nat ::
      && FirstMatch(s.mem, r.rp, r.allow, i)
      && reply.id == s.mem[i].id && reply.signature == crypto.sign(s.mem[i].key, reply.authData + r.clientData)
      && |reply.authData| == 37 && reply.authData[..32] == crypto.hash(r.rp)
      && (var n, m := s.mem[i].counter, CounterIn(reply.authData);
          && m == (if n == 0x7fff_ffff then -0x8000_0000 else n + 1)
          && t.mem == s.mem[i := s.mem[i].(counter := m)]
          && t.emitted == s.emitted + [C.Emission(reply.id, m)])
  }

  lemma CounterParses(rpHash: seq<byte>, up: bool, uv: bool, counter: int32)
    requires |rpHash| == 32
    ensures var a := AuthData(rpHash, up, uv, counter); |a| == 37 && a[..32] == rpHash && CounterIn(a) == counter
    ensures var a := AuthData(rpHash, up, uv, counter); (a[32] % 2 == 1 <==> up) && (a[32] / 4 == 1 <==> uv)
  {
    var n: uint32 := counter % 0x1_0000_0000;
    var flags := (if up then 1 else 0) + if uv then 4 else 0;
    var a := AuthData(rpHash, up, uv, counter);
    assert a == rpHash + ([flags] + ToBE32(n));
    assert a[33..37] == ToBE32(n);
    BE32RoundTrip(n);
  }

  /** Every assertion proves that, and nothing is emitted without one. */
  lemma AssertionProves(
      crypto: Crypto, pinEnabled: bool, token: seq<byte>, s: C.State, r: Request, yes: bool, written: bool)
    requires r.Request? ==> |crypto.hash(r.rp)| == 32
    ensures var (t, reply) := Handle(crypto, pinEnabled, token, s, r, yes, written);
            if reply.Assertion? then r.Request? && Proves(crypto, s, t, r, reply) else t.emitted == s.emitted
    ensures r.Garbled? ==> Handle(crypto, pinEnabled, token, s, r, yes, written) == (s, Refused(INVALID_CBOR))
  {
    var (t, reply) := Handle(crypto, pinEnabled, token, s, r, yes, written);
    if reply.Assertion? {
      var i := C.Picks(s, r.rp, r.allow).value;
      C.PicksFirst(s, r.rp, r.allow, i);
      var up := AsksUser(r);
      CounterParses(
        crypto.hash(r.rp), up, up || (pinEnabled && Authenticated(crypto, token, r)), t.mem[i].counter);
      assert FirstMatch(s.mem, r.rp, r.allow, i);
    }
  }

  /** What a relying party learns from the flag bits of an assertion: UP is set exactly if
      the user was asked and agreed, UV exactly if the user did or the request carried a
      valid HMAC under the PIN token while PINs are enabled. And what the refusals mean: a
      request that claims to be authenticated is never answered unless it is. */
  lemma FlagsMean(
      crypto: Crypto, pinEnabled: bool, token: seq<byte>, s: C.State, r: Request, yes: bool, written: bool)
    requires r.Request? && |crypto.hash(r.rp)| == 32
    ensures var (t, reply) := Handle(crypto, pinEnabled, token, s, r, yes, written);
            var proved := pinEnabled && r.protocol == 1 && r.auth == Some(crypto.auth(token, r.clientData));
            var pretended := pinEnabled && r.auth.Some? && !proved;
            var asks := r.userPresence != Some(false);
            var known := exists i: nat :: FirstMatch(s.mem, r.rp, r.allow, i);
            && (reply.Assertion? ==>
                  && |reply.authData| == 37
                  && (reply.authData[32] % 2 == 1 <==> asks && yes)
                  && (reply.authData[32] / 4 == 1 <==> (asks && yes) || proved))
            && (reply == Refused(PIN_AUTH_INVALID) <==> pretended)
            && (pretended || !known ==> t == s)
            && (reply == Refused(NO_CREDENTIALS) <==> !pretended && !known)
            && (reply == Refused(OPERATION_DENIED) <==> !pretended && known && asks && !yes)
            && (reply.Assertion? <==> !pretended && known && (asks ==> yes))
  {
    var i := C.Picks(s, r.rp, r.allow);
    FirstMatchIff(s.mem, r.rp, r.allow, if i.Some? then i.value else 0);
    var t := C.Ceremony(s, r.rp, r.allow, written, yes || !AsksUser(r));
    if i.Some? {
      assert FirstMatch(s.mem, r.rp, r.allow, i.value);
      var uv := AsksUser(r) || (pinEnabled && Authenticated(crypto, token, r));
      CounterParses(crypto.hash(r.rp), AsksUser(r), uv, t.mem[i.value].counter);
    }
  }

  /** `PublicKeyCredentialParams`. */
  datatype Param = Param(algorithm: int, kind: string)

  predicate Supported(params: seq<Param>) {
    Param(ES256, "public-key") in params
  }

  lemma BumpStorable(lib: Library, es: seq<Entry>, i: nat)
    requires AllStorable(lib, es) && i < |es|
    ensures AllStorable(lib, C.Bump(es, i))
  {
    forall e <- C.Bump(es, i) ensures Storable(lib, e.key) {
      var k :| 0 <= k < |es| && C.Bump(es, i)[k] == e;
      assert es[k] in es;
    }
  }

  lemma DeletedStorable(lib: Library, es: seq<Entry>, id: Id)
    requires AllStorable(lib, es)
    ensures AllStorable(lib, Deleted(es, id))
    ensures !Holds(es, id) ==> Deleted(es, id) == es
  {
    DeletedIsOneLess(es, id);
    if FirstAt(es, id) < |es| {
      SwapRemovedIs(es, FirstAt(es, id));
    }
  }

  class DefaultFIDOClient {
    const parsers: Parsers
    const crypto: Crypto
    var vault: IdentityVault
    var disk: seq<Saved>
    var pinEnabled: bool
    var pinToken: seq<byte>
    ghost var emitted: seq<C.Emission>
    ghost var used: set<Id>

    ghost function View(): C.State
      reads this, vault, vault.credentialSources
    {
      C.State(vault.Entries(), ImportedFrom(parsers, disk).0, C.Idle, emitted, used)
    }

    ghost predicate Valid()
      reads this, vault, vault.credentialSources
    {
      vault.Valid() && AllStorable(parsers.lib, vault.Entries())
    }

    /** `NewDefaultClient`. A failed import is not noticed: the client goes on with the
        credentials before the one that failed. A stored key that panics the decoder ends
        the process before there is a client. The client is valid, which its other
        methods ask for, unless a loaded key of the format before COSE is off P-256. */
    constructor (parsers: Parsers, crypto: Crypto, disk: seq<Saved>, pinEnabled: bool, pinToken: seq<byte>)
      requires ImportedFrom(parsers, disk).1 != Crashed
      ensures this.parsers == parsers && this.crypto == crypto && this.disk == disk
      ensures fresh(vault) && vault.Valid() && forall s <- vault.credentialSources :: fresh(s)
      ensures View() == C.Started(ImportedFrom(parsers, disk).0)
      ensures var n := |ImportedFrom(parsers, disk).0|;
              n <= |disk| && (Valid() <==> forall i :: 0 <= i < n ==> !OffCurve(parsers, disk[i]))
    {
      this.parsers, this.crypto, this.disk, this.pinEnabled, this.pinToken := parsers, crypto, disk, pinEnabled, pinToken;
      emitted, used := [], set e <- ImportedFrom(parsers, disk).0 :: e.id;
      var v := new IdentityVault();
      vault := v;
      new;
      var _ := v.Import(parsers, disk);
      assert v.Entries() == ImportedFrom(parsers, disk).0;
      LoadedStorableIff(parsers, disk);
    }

    /** `saveData`; the file is written as a whole or not at all, and a write that fails
        is only logged. Encoding panics exactly if some key cannot be encoded, which for
        a valid client is none. */
    method SaveData(written: bool) returns (panicked: bool)
      requires vault.Valid()
      modifies this`disk
      ensures vault.Entries() == old(vault.Entries())
      ensures panicked <==> Exported(old(vault.Entries())).None?
      ensures disk == if !panicked && written then Exported(old(vault.Entries())).value else old(disk)
    {
      var data := vault.Export();
      panicked := data.None?;
      if !panicked && written {
        disk := data.value;
      }
    }

    /** Saving a valid client does not panic, and puts the vault in memory on disk if the
        file is written. */
    method Save(written: bool)
      requires Valid()
      modifies this`disk
      ensures Valid()
      ensures View() == old(View()).(disk := if written then old(View()).mem else old(View()).disk)
    {
      StorableExports(parsers, vault.Entries());
      var panicked := SaveData(written);
      assert !panicked;
    }

    /** `GetAssertionSource`: the first match, or null exactly if nothing matches. The
        increment and the save come before the result. */
    method GetAssertionSource(rp: string, allow: Option<seq<Id>>, written: bool) returns (source: CredentialSource?)
      requires Valid()
      modifies this`disk, vault.credentialSources
      ensures Valid() && vault.credentialSources == old(vault.credentialSources)
      ensures source == null <==>
                forall e <- old(View()).mem :: !(e.rp.id == rp && (allow.Some? ==> e.id in allow.value))
      ensures source != null ==>
                exists i: nat :: FirstMatch(old(View()).mem, rp, allow, i) && source == vault.credentialSources[i]
      ensures var i := C.Picks(old(View()), rp, allow);
              && (source == null <==> i.None?)
              && (i.Some? ==> source == vault.credentialSources[i.value])
              && View() == if i.None? then old(View())
                           else
                             var mem := C.Bump(old(View()).mem, i.value);
                             old(View()).(mem := mem, disk := if written then mem else old(View()).disk)
    {
      ghost var i := C.Picks(View(), rp, allow);
      C.PicksFirst(View(), rp, allow, if i.Some? then i.value else 0);
      var sources := vault.GetMatchingCredentialSources(rp, allow);
      if |sources| == 0 { return null; }
      source := sources[0];
      Increment(source, i.value);
      Save(written);
    }

    /** The increment of the counter, of the source at position i. */
    method Increment(source: CredentialSource, ghost i: nat)
      requires Valid() && i < |vault.credentialSources| && source == vault.credentialSources[i]
      modifies source
      ensures Valid() && View() == old(View()).(mem := C.Bump(old(View()).mem, i))
    {
      ghost var before := vault.Entries();
      BumpStorable(parsers.lib, before, i);
      source.signatureCounter :=
        if source.signatureCounter == 0x7fff_ffff then -0x8000_0000 else source.signatureCounter + 1;
      assert vault.Entries() == C.Bump(before, i);
    }

    /** The PIN part of `handleGetAssertion`: whether the request goes on, and whether it
        has proved knowledge of the PIN token. */
    method CheckAuth(r: Request) returns (ok: bool, uv: bool)
      requires r.Request?
      ensures uv <==> pinEnabled && Authenticated(crypto, pinToken, r)
      ensures ok <==> (pinEnabled && r.auth.Some? ==> uv)
    {
      if pinEnabled && r.auth.Some? {
        if r.protocol != 1 { return false, false; }
        if crypto.auth(pinToken, r.clientData) != r.auth.value { return false, false; }
        return true, true;
      }
      ok, uv := true, false;
    }

    /** The assertion of the source at position i. */
    method Assert(source: CredentialSource, ghost i: nat, r: Request, up: bool, uv: bool) returns (reply: Reply)
      requires r.Request? && i < |vault.credentialSources| && source == vault.credentialSources[i]
      modifies this`emitted
      ensures var e := View().mem[i];
              && reply == Signed(crypto, e, r, up, uv)
              && View() == old(View()).(emitted := old(emitted) + [C.Emission(e.id, e.counter)])
      ensures |crypto.hash(r.rp)| == 32 ==>
                var e := old(View()).mem[i];
                && reply.Assertion? && reply.id == e.id && |reply.authData| == 37
                && reply.authData[..32] == crypto.hash(r.rp) && CounterIn(reply.authData) == e.counter
                && reply.signature == crypto.sign(e.key, reply.authData + r.clientData)
    {
      if |crypto.hash(r.rp)| == 32 {
        CounterParses(crypto.hash(r.rp), up, uv, source.signatureCounter);
      }
      var authData := AuthData(crypto.hash(r.rp), up, uv, source.signatureCounter);
      emitted := emitted + [C.Emission(source.id, source.signatureCounter)];
      reply := Assertion(source.id, authData, crypto.sign(source.key, authData + r.clientData));
    }

    /** `handleGetAssertion` after the PIN part. */
    method Login(r: Request, yes: bool, written: bool, authenticated: bool) returns (reply: Reply)
      requires Valid() && r.Request?
      modifies this`disk, this`emitted, vault.credentialSources
      ensures Valid() && vault.credentialSources == old(vault.credentialSources)
      ensures (View(), reply) == Ceremony(crypto, old(View()), r, yes, written, authenticated)
    {
      ghost var i := C.Picks(View(), r.rp, r.allow);
      var source := GetAssertionSource(r.rp, r.allow, written);
      if source == null { return Refused(NO_CREDENTIALS); }
      reply := Approve(source, i.value, r, yes, authenticated);
    }

    /** The user's answer, if it is asked for, and the assertion. */
    method Approve(source: CredentialSource, ghost i: nat, r: Request, yes: bool, authenticated: bool)
      returns (reply: Reply)
      requires r.Request? && i < |vault.credentialSources| && source == vault.credentialSources[i]
      modifies this`emitted
      ensures var e, agreed := View().mem[i], yes || !AsksUser(r);
              && View() == (if agreed then old(View()).(emitted := old(emitted) + [C.Emission(e.id, e.counter)])
                            else old(View()))
              && reply == if !agreed then Refused(OPERATION_DENIED)
                          else Signed(crypto, e, r, AsksUser(r), AsksUser(r) || authenticated)
    {
      var up, uv := false, authenticated;
      if r.userPresence.None? || r.userPresence.value {
        if !yes { return Refused(OPERATION_DENIED); }
        up, uv := true, true;
      }
      reply := Assert(source, i, r, up, uv);
    }

    /** `handleGetAssertion`; the user's answer and whether the save gets written come
        from outside. A bad request changes nothing. Otherwise the state goes through the
        whole ceremony, and an assertion is given exactly if a credential matches and the
        user, if asked, agrees; it is that of the first match, with the incremented
        counter. */
    method HandleGetAssertion(r: Request, yes: bool, written: bool) returns (reply: Reply)
      requires Valid()
      modifies this`disk, this`emitted, vault.credentialSources
      ensures Valid() && vault.credentialSources == old(vault.credentialSources)
      ensures (View(), reply) == Handle(crypto, pinEnabled, pinToken, old(View()), r, yes, written)
      ensures r.Request? && |crypto.hash(r.rp)| == 32 ==>
                if reply.Assertion? then Proves(crypto, old(View()), View(), r, reply) else emitted == old(emitted)
    {
      reply := Respond(r, yes, written);
      if r.Request? && |crypto.hash(r.rp)| == 32 {
        AssertionProves(crypto, pinEnabled, pinToken, old(View()), r, yes, written);
      }
    }

    /** The same, against the reply specified. */
    method Respond(r: Request, yes: bool, written: bool) returns (reply: Reply)
      requires Valid()
      modifies this`disk, this`emitted, vault.credentialSources
      ensures Valid() && vault.credentialSources == old(vault.credentialSources)
      ensures (View(), reply) == Handle(crypto, pinEnabled, pinToken, old(View()), r, yes, written)
    {
      if r.Garbled? { return Refused(INVALID_CBOR); }
      var ok, uv := CheckAuth(r);
      if !ok { return Refused(PIN_AUTH_INVALID); }
      reply := Login(r, yes, written, uv);
    }

    /** `NewCredentialSource`, with the id and the key that were generated. Without a
        supported algorithm nothing happens; without a key the vault is saved as it is. */
    method NewCredentialSource(
        params: seq<Param>, id: Id, key: Option<PrivateKey>, rp: RelyingParty, user: User, written: bool)
      returns (source: CredentialSource?)
      requires Valid() && (key.Some? ==> Storable(parsers.lib, key.value)) && id !in used
      modifies this`disk, this`used, vault
      ensures Valid()
      ensures source == null <==> !Supported(params) || key.None?
      ensures !Supported(params) ==> View() == old(View())
      ensures Supported(params) && key.None? ==> View() == C.Step(old(View()), C.Resave(written))
      ensures source != null ==>
                && fresh(source) && vault.credentialSources == old(vault.credentialSources) + [source]
                && var e := Entry("public-key", id, key.value, rp, user, 0);
                   source.View() == e && View() == C.Created(old(View()), e, written)
    {
      var supported := IsSupported(params);
      if !supported { return null; }
      source := MakeIdentity(id, key, rp, user);
      Save(written);
    }

    /** The new credential in memory. */
    method MakeIdentity(id: Id, key: Option<PrivateKey>, rp: RelyingParty, user: User) returns (source: CredentialSource?)
      requires Valid() && (key.Some? ==> Storable(parsers.lib, key.value))
      modifies this`used, vault
      ensures Valid() && (source == null <==> key.None?)
      ensures source == null ==> View() == old(View())
      ensures source != null ==>
                && fresh(source) && vault.credentialSources == old(vault.credentialSources) + [source]
                && source.View() == Entry("public-key", id, key.value, rp, user, 0)
                && View() == old(View()).(mem := old(View()).mem + [source.View()], used := old(used) + {id})
    {
      ghost var before := vault.Entries();
      source := vault.NewIdentity(id, key, rp, user);
      if source != null {
        used := used + {id};
        assert forall e <- vault.Entries() :: e in before || e == source.View();
      }
    }

    /** The loop over the algorithms that the relying party accepts. */
    static method IsSupported(params: seq<Param>) returns (supported: bool)
      ensures supported <==> Supported(params)
      ensures supported <==> exists p <- params :: p.algorithm == -7 && p.kind == "public-key"
    {
      var i := 0;
      while i < |params|
        invariant 0 <= i <= |params| && !Supported(params[..i])
      {
        if params[i] == Param(ES256, "public-key") { return true; }
        assert params[..i + 1] == params[..i] + [params[i]];
        i := i + 1;
      }
      assert params[..i] == params;
      supported := false;
    }

    method DeleteIdentity(id: Id, written: bool) returns (found: bool)
      requires Valid()
      modifies this`disk, vault
      ensures Valid() && vault == old(vault)
      ensures found <==> Holds(old(View()).mem, id)
      ensures View() == C.Dropped(old(View()), id, written)
    {
      ghost var before := vault.Entries();
      found := vault.DeleteIdentity(id);
      DeletedStorable(parsers.lib, before, id);
      if found {
        Save(written);
      }
    }
  }
}
