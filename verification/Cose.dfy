/** Private keys and their stored form (`cose.go`). The CBOR encoder is a library: an
    encoded struct is the map from its integer labels to its values, and decoding a map
    into a struct fails when a label of the struct holds a value of the wrong type.

    Calls that panic in the source give `None` here (encoding) or `Panicked` (decoding). */
module Cose {
  import opened Bytes
  import opened Wrappers

  datatype Curve = P256 | OtherCurve

  datatype PublicPoint = PublicPoint(curve: Curve, x: nat, y: nat)

  datatype TPMKey = TPMKey(blob: seq<byte>, public: PublicPoint)

  datatype ECDSAKey = ECDSAKey(public: PublicPoint, d: nat)

  datatype Precomputed = Precomputed(dp: nat, dq: nat, qinv: nat)

  datatype RSAKey = RSAKey(n: nat, e: int, d: nat, primes: seq<nat>, precomputed: Option<Precomputed>)

  /** `SupportedCOSEPrivateKey`: four pointers, of which one is meant to be set. */
  datatype PrivateKey = PrivateKey(
    ecdsa: Option<ECDSAKey>, ed25519: Option<seq<byte>>, rsa: Option<RSAKey>, tpm: Option<TPMKey>)

  datatype Value = Num(n: int) | Bin(b: seq<byte>)

  /** CBOR fields, or bytes that are not a CBOR map. */
  datatype Encoded = Fields(fields: map<int, Value>) | NotCBOR(bytes: seq<byte>)

  datatype Decoded = Key(key: PrivateKey) | DecodeError | Panicked

  /** `ed25519` and `rsa`: the public half of a seed, and `Precompute`. */
  datatype Library = Library(derive: seq<byte> -> seq<byte>, precompute: (nat, seq<nat>) -> Precomputed)

  const EC2: int := 2
  const OKP: int := 1
  const RSA: int := 3
  const ES256: int := -7
  const ED25519: int := -8
  const PS256: int := -37
  const CURVE_P256: int := 1
  const CURVE_ED25519: int := 6
  const TPM_BLOB: int := -100

  // ----------------------------------------------------------------- encoding

  /** A field with `omitempty`. */
  function Optional(tag: int, b: seq<byte>): map<int, Value> {
    if b == [] then map[] else map[tag := Bin(b)]
  }

  function EncodeTPM(k: TPMKey): Encoded {
    Fields(map[1 := Num(EC2), 3 := Num(ES256), -1 := Num(CURVE_P256),
               -2 := Bin(ToMagnitude(k.public.x)), -3 := Bin(ToMagnitude(k.public.y)), TPM_BLOB := Bin(k.blob)])
  }

  /** `COSEEC2Key`, of slices. */
  function ECDSAStruct(x: seq<byte>, y: seq<byte>, d: seq<byte>): map<int, Value> {
    map[1 := Num(EC2), 3 := Num(ES256), -1 := Num(CURVE_P256), -2 := Bin(x), -3 := Bin(y)] + Optional(-4, d)
  }

  function EncodeECDSA(k: ECDSAKey): Option<Encoded> {
    if k.public.curve != P256 then None
    else Some(Fields(ECDSAStruct(ToMagnitude(k.public.x), ToMagnitude(k.public.y), ToMagnitude(k.d))))
  }

  function EncodeEd25519(k: seq<byte>): Option<Encoded> {
    if |k| < 32 then None
    else
      Some(Fields(map[1 := Num(OKP), 3 := Num(ED25519), -1 := Num(CURVE_ED25519), -2 := Bin(Pad(k[32..], 32)),
                      -4 := Bin(k[..32])]))
  }

  function Optionals(m: map<int, Value>, tag: int, b: seq<byte>, c: seq<byte>, d: seq<byte>): map<int, Value> {
    m + Optional(tag, b) + Optional(tag - 1, c) + Optional(tag - 2, d)
  }

  /** `COSERSAKey`, of slices. */
  function RSAStruct(n: seq<byte>, e: seq<byte>, d: seq<byte>, p: seq<byte>, q: seq<byte>,
                     dp: seq<byte>, dq: seq<byte>, qinv: seq<byte>): map<int, Value> {
    var required := map[1 := Num(RSA), 3 := Num(PS256), -1 := Bin(n), -2 := Bin(e)];
    Optionals(Optionals(required, -3, d, p, q), -6, dp, dq, qinv)
  }

  function EncodeRSA(k: RSAKey): Option<Encoded> {
    if |k.primes| < 2 || k.precomputed.None? then None
    else
      var pre := k.precomputed.value;
      Some(Fields(RSAStruct(
        ToMagnitude(k.n), ToBE32(k.e % 0x1_0000_0000), ToMagnitude(k.d), ToMagnitude(k.primes[0]),
        ToMagnitude(k.primes[1]), ToMagnitude(pre.dp), ToMagnitude(pre.dq), ToMagnitude(pre.qinv))))
  }

  /** `MarshalCOSEPrivateKey`. */
  function Marshal(k: PrivateKey): Option<Encoded> {
    if k.tpm.Some? then Some(EncodeTPM(k.tpm.value))
    else if k.ecdsa.Some? then EncodeECDSA(k.ecdsa.value)
    else if k.ed25519.Some? then EncodeEd25519(k.ed25519.value)
    else if k.rsa.Some? then EncodeRSA(k.rsa.value)
    else None
  }

  // ----------------------------------------------------------------- decoding

  /** Decoding into an int8 field; a missing label leaves zero. */
  function Int8At(m: map<int, Value>, tag: int): Option<int> {
    if tag !in m then Some(0)
    else match m[tag]
      case Num(n) => if -0x80 <= n < 0x80 then Some(n) else None
      case Bin(_) => None
  }

  /** Decoding into a byte slice; a missing label leaves nil. */
  function BytesAt(m: map<int, Value>, tag: int): Option<seq<byte>> {
    if tag !in m then Some([])
    else match m[tag]
      case Num(_) => None
      case Bin(b) => Some(b)
  }

  /** Every one of these labels can be decoded. */
  predicate Fits(m: map<int, Value>, ints: seq<int>, slices: seq<int>) {
    (forall l <- ints :: Int8At(m, l).Some?) && (forall l <- slices :: BytesAt(m, l).Some?)
  }

  function IntOf(m: map<int, Value>, tag: int): int {
    if Int8At(m, tag).Some? then Int8At(m, tag).value else 0
  }

  function BytesOf(m: map<int, Value>, tag: int): seq<byte> {
    if BytesAt(m, tag).Some? then BytesAt(m, tag).value else []
  }

  function NumberOf(m: map<int, Value>, tag: int): nat {
    FromMagnitude(BytesOf(m, tag))
  }

  function Int32(x: uint32): int {
    if x < 0x8000_0000 then x else x - 0x1_0000_0000
  }

  const NO_KEY := PrivateKey(None, None, None, None)

  function DecodeECDSA(m: map<int, Value>): Decoded {
    if !Fits(m, [1, 3, -1], [-2, -3, -4]) || IntOf(m, -1) != CURVE_P256 then Panicked
    else
      Key(NO_KEY.(ecdsa := Some(ECDSAKey(PublicPoint(P256, NumberOf(m, -2), NumberOf(m, -3)), NumberOf(m, -4)))))
  }

  function DecodeEd25519(lib: Library, m: map<int, Value>): Decoded {
    if !Fits(m, [1, 3, -1], [-2, -4]) || |BytesOf(m, -4)| != 32 then Panicked
    else Key(NO_KEY.(ed25519 := Some(BytesOf(m, -4) + lib.derive(BytesOf(m, -4)))))
  }

  function DecodeRSA(lib: Library, m: map<int, Value>): Decoded {
    if !Fits(m, [1, 3], [-1, -2, -3, -4, -5, -6, -7, -8]) || |BytesOf(m, -2)| < 4 then Panicked
    else
      var d, primes := NumberOf(m, -3), [NumberOf(m, -4), NumberOf(m, -5)];
      Key(NO_KEY.(rsa := Some(RSAKey(
        NumberOf(m, -1), Int32(FromBE32(BytesOf(m, -2)[..4])), d, primes, Some(lib.precompute(d, primes))))))
  }

  /** `UnmarshalCOSEPrivateKey`: first a probe for a TPM blob, then by algorithm. */
  function Unmarshal(lib: Library, e: Encoded): Decoded {
    if e.NotCBOR? then DecodeError
    else
      var m := e.fields;
      if Fits(m, [1, 3, -1], [-2, -3, TPM_BLOB]) && BytesOf(m, TPM_BLOB) != [] then
        Key(NO_KEY.(tpm := Some(TPMKey(BytesOf(m, TPM_BLOB), PublicPoint(P256, NumberOf(m, -2), NumberOf(m, -3))))))
      else if !Fits(m, [1, 3], []) then DecodeError
      else if IntOf(m, 3) == ES256 then DecodeECDSA(m)
      else if IntOf(m, 3) == ED25519 then DecodeEd25519(lib, m)
      else if IntOf(m, 3) == PS256 then DecodeRSA(lib, m)
      else DecodeError
  }

  // --------------------------------------------------------------- round trip

  /** What a key must be for its stored form to stand for it. */
  predicate Storable(lib: Library, k: PrivateKey) {
    match (k.tpm, k.ecdsa, k.ed25519, k.rsa)
    case (Some(t), None, None, None) => t.blob != [] && t.public.curve == P256
    case (None, Some(e), None, None) => e.public.curve == P256
    case (None, None, Some(s), None) => |s| >= 32 && s[32..] == lib.derive(s[..32])
    case (None, None, None, Some(r)) =>
      && |r.primes| == 2 && -0x8000_0000 <= r.e < 0x8000_0000
      && r.precomputed == Some(lib.precompute(r.d, r.primes))
    case _ => false
  }

  lemma Int32RoundTrip(e: int)
    ensures var x := e % 0x1_0000_0000; Int32(FromBE32(ToBE32(x)[..4])) == e <==> -0x8000_0000 <= e < 0x8000_0000
  {
    var x := e % 0x1_0000_0000;
    assert ToBE32(x)[..4] == ToBE32(x);
    BE32RoundTrip(x);
  }

  lemma TPMDecodes(lib: Library, m: map<int, Value>, x: seq<byte>, y: seq<byte>, blob: seq<byte>)
    requires Int8At(m, 1) == Some(EC2) && Int8At(m, 3) == Some(ES256) && Int8At(m, -1) == Some(CURVE_P256)
    requires BytesAt(m, -2) == Some(x) && BytesAt(m, -3) == Some(y) && BytesAt(m, TPM_BLOB) == Some(blob) && blob != []
    ensures Unmarshal(lib, Fields(m)) ==
            Key(NO_KEY.(tpm := Some(TPMKey(blob, PublicPoint(P256, FromMagnitude(x), FromMagnitude(y))))))
  {
  }

  /** Without a blob a TPM key comes back as a software key with a zero scalar. */
  lemma TPMRoundTrip(lib: Library, k: TPMKey)
    ensures Unmarshal(lib, EncodeTPM(k)) ==
      if k.blob != [] then Key(NO_KEY.(tpm := Some(k.(public := k.public.(curve := P256)))))
      else Key(NO_KEY.(ecdsa := Some(ECDSAKey(k.public.(curve := P256), 0))))
  {
    MagnitudeRoundTrip(k.public.x);
    MagnitudeRoundTrip(k.public.y);
    var m, x, y := EncodeTPM(k).fields, ToMagnitude(k.public.x), ToMagnitude(k.public.y);
    if k.blob != [] {
      TPMDecodes(lib, m, x, y, k.blob);
    } else {
      ECDSADecodes(lib, m, x, y, []);
    }
  }

  /** An optional field is read back whether it was left out or not, and the other
      fields do not notice it. */
  lemma OptionalField(m: map<int, Value>, tag: int, b: seq<byte>)
    requires tag !in m
    ensures var n := m + Optional(tag, b);
            && BytesAt(n, tag) == Some(b)
            && (forall l :: l != tag ==> BytesAt(n, l) == BytesAt(m, l))
            && (forall l :: l != tag ==> Int8At(n, l) == Int8At(m, l))
            && (forall l :: l != tag ==> (l in n <==> l in m))
  {
  }

  /** The struct has these fields, and no TPM blob. */
  predicate ECDSAFields(m: map<int, Value>, x: seq<byte>, y: seq<byte>, d: seq<byte>) {
    && Int8At(m, 1) == Some(EC2) && Int8At(m, 3) == Some(ES256) && Int8At(m, -1) == Some(CURVE_P256)
    && BytesAt(m, -2) == Some(x) && BytesAt(m, -3) == Some(y) && BytesAt(m, -4) == Some(d)
    && BytesAt(m, TPM_BLOB) == Some([])
  }

  lemma ECDSAEncodes(x: seq<byte>, y: seq<byte>, d: seq<byte>)
    ensures ECDSAFields(ECDSAStruct(x, y, d), x, y, d)
  {
    OptionalField(map[1 := Num(EC2), 3 := Num(ES256), -1 := Num(CURVE_P256), -2 := Bin(x), -3 := Bin(y)], -4, d);
  }

  lemma ECDSADecodes(lib: Library, m: map<int, Value>, x: seq<byte>, y: seq<byte>, d: seq<byte>)
    requires ECDSAFields(m, x, y, d)
    ensures Unmarshal(lib, Fields(m)) == Key(NO_KEY.(ecdsa := Some(ECDSAKey(
              PublicPoint(P256, FromMagnitude(x), FromMagnitude(y)), FromMagnitude(d)))))
  {
  }

  lemma ECDSARoundTrip(lib: Library, k: ECDSAKey)
    requires EncodeECDSA(k).Some?
    ensures Unmarshal(lib, EncodeECDSA(k).value) == Key(NO_KEY.(ecdsa := Some(k)))
  {
    MagnitudeRoundTrip(k.public.x);
    MagnitudeRoundTrip(k.public.y);
    MagnitudeRoundTrip(k.d);
    var x, y, d := ToMagnitude(k.public.x), ToMagnitude(k.public.y), ToMagnitude(k.d);
    ECDSAEncodes(x, y, d);
    ECDSADecodes(lib, ECDSAStruct(x, y, d), x, y, d);
  }

  lemma Ed25519RoundTrip(lib: Library, k: seq<byte>)
    requires EncodeEd25519(k).Some?
    ensures Unmarshal(lib, EncodeEd25519(k).value) == Key(NO_KEY.(ed25519 := Some(k[..32] + lib.derive(k[..32]))))
  {
  }

  lemma OptionalFields(m: map<int, Value>, tag: int, b: seq<byte>, c: seq<byte>, d: seq<byte>)
    requires tag !in m && tag - 1 !in m && tag - 2 !in m
    ensures var n := Optionals(m, tag, b, c, d);
            && BytesAt(n, tag) == Some(b) && BytesAt(n, tag - 1) == Some(c) && BytesAt(n, tag - 2) == Some(d)
            && (forall l :: l > tag || l < tag - 2 ==> BytesAt(n, l) == BytesAt(m, l))
            && (forall l :: l > tag || l < tag - 2 ==> Int8At(n, l) == Int8At(m, l))
            && (forall l :: l > tag || l < tag - 2 ==> (l in n <==> l in m))
  {
    OptionalField(m, tag, b);
    OptionalField(m + Optional(tag, b), tag - 1, c);
    OptionalField(m + Optional(tag, b) + Optional(tag - 1, c), tag - 2, d);
  }

  /** The struct has these fields; the three parts used for faster arithmetic are some
      slices or other. */
  predicate RSAFields(m: map<int, Value>, n: seq<byte>, e: seq<byte>, d: seq<byte>, p: seq<byte>, q: seq<byte>) {
    && Int8At(m, 1) == Some(RSA) && Int8At(m, 3) == Some(PS256) && Int8At(m, -1) == None
    && BytesAt(m, -1) == Some(n) && BytesAt(m, -2) == Some(e) && BytesAt(m, -3) == Some(d)
    && BytesAt(m, -4) == Some(p) && BytesAt(m, -5) == Some(q)
    && BytesAt(m, -6).Some? && BytesAt(m, -7).Some? && BytesAt(m, -8).Some?
  }

  lemma RSAEncodesMost(n: seq<byte>, e: seq<byte>, d: seq<byte>, p: seq<byte>, q: seq<byte>)
    ensures var m := Optionals(map[1 := Num(RSA), 3 := Num(PS256), -1 := Bin(n), -2 := Bin(e)], -3, d, p, q);
            RSAFields(m, n, e, d, p, q) && -6 !in m && -7 !in m && -8 !in m
  {
    OptionalFields(map[1 := Num(RSA), 3 := Num(PS256), -1 := Bin(n), -2 := Bin(e)], -3, d, p, q);
  }

  lemma RSAEncodes(n: seq<byte>, e: seq<byte>, d: seq<byte>, p: seq<byte>, q: seq<byte>,
                   dp: seq<byte>, dq: seq<byte>, qinv: seq<byte>)
    ensures RSAFields(RSAStruct(n, e, d, p, q, dp, dq, qinv), n, e, d, p, q)
  {
    RSAEncodesMost(n, e, d, p, q);
    var required := map[1 := Num(RSA), 3 := Num(PS256), -1 := Bin(n), -2 := Bin(e)];
    OptionalFields(Optionals(required, -3, d, p, q), -6, dp, dq, qinv);
  }

  lemma RSADecodes(
      lib: Library, m: map<int, Value>, n: seq<byte>, e: seq<byte>, d: seq<byte>, p: seq<byte>, q: seq<byte>)
    requires RSAFields(m, n, e, d, p, q) && |e| == 4
    ensures var primes := [FromMagnitude(p), FromMagnitude(q)];
            Unmarshal(lib, Fields(m)) == Key(NO_KEY.(rsa := Some(RSAKey(
              FromMagnitude(n), Int32(FromBE32(e[..4])), FromMagnitude(d), primes,
              Some(lib.precompute(FromMagnitude(d), primes))))))
  {
  }

  lemma RSARoundTrip(lib: Library, k: RSAKey)
    requires EncodeRSA(k).Some?
    ensures Unmarshal(lib, EncodeRSA(k).value) == Key(NO_KEY.(rsa := Some(RSAKey(
              k.n, Int32(FromBE32(ToBE32(k.e % 0x1_0000_0000)[..4])), k.d, k.primes[..2],
              Some(lib.precompute(k.d, k.primes[..2]))))))
  {
    var pre := k.precomputed.value;
    MagnitudeRoundTrip(k.n);
    MagnitudeRoundTrip(k.d);
    MagnitudeRoundTrip(k.primes[0]);
    MagnitudeRoundTrip(k.primes[1]);
    assert k.primes[..2] == [k.primes[0], k.primes[1]];
    var n, e, d := ToMagnitude(k.n), ToBE32(k.e % 0x1_0000_0000), ToMagnitude(k.d);
    var p, q := ToMagnitude(k.primes[0]), ToMagnitude(k.primes[1]);
    RSAEncodes(n, e, d, p, q, ToMagnitude(pre.dp), ToMagnitude(pre.dq), ToMagnitude(pre.qinv));
    RSADecodes(lib, EncodeRSA(k).value.fields, n, e, d, p, q);
  }

  /** The stored forms, by the labels of RFC 9053 and, for RSA, of RFC 8230; the TPM blob
      has a private label. */
  lemma StoredFields(k: PrivateKey)
    requires Marshal(k).Some?
    ensures Marshal(k).value.Fields?
    ensures var m := Marshal(k).value.fields;
            if k.tpm.Some? then
              var p := k.tpm.value.public;
              m == map[1 := Num(2), 3 := Num(-7), -1 := Num(1), -2 := Bin(ToMagnitude(p.x)),
                       -3 := Bin(ToMagnitude(p.y)), -100 := Bin(k.tpm.value.blob)]
            else if k.ecdsa.Some? then
              var p, d := k.ecdsa.value.public, ToMagnitude(k.ecdsa.value.d);
              && Int8At(m, 1) == Some(2) && Int8At(m, 3) == Some(-7) && Int8At(m, -1) == Some(1)
              && BytesAt(m, -2) == Some(ToMagnitude(p.x)) && BytesAt(m, -3) == Some(ToMagnitude(p.y))
              && BytesAt(m, -4) == Some(d)
            else if k.ed25519.Some? then
              var s := k.ed25519.value;
              m == map[1 := Num(1), 3 := Num(-8), -1 := Num(6), -2 := Bin(Pad(s[32..], 32)), -4 := Bin(s[..32])]
            else
              var r := k.rsa.value;
              && Int8At(m, 1) == Some(3) && Int8At(m, 3) == Some(-37)
              && BytesAt(m, -1) == Some(ToMagnitude(r.n)) && BytesAt(m, -2) == Some(ToBE32(r.e % 0x1_0000_0000))
              && BytesAt(m, -3) == Some(ToMagnitude(r.d)) && BytesAt(m, -4) == Some(ToMagnitude(r.primes[0]))
              && BytesAt(m, -5) == Some(ToMagnitude(r.primes[1]))
  {
    if k.tpm.None? && k.ecdsa.Some? {
      ECDSAEncodes(
        ToMagnitude(k.ecdsa.value.public.x), ToMagnitude(k.ecdsa.value.public.y), ToMagnitude(k.ecdsa.value.d));
    } else if k.tpm.None? && k.ed25519.None? {
      var r := k.rsa.value;
      var pre := r.precomputed.value;
      RSAEncodes(
        ToMagnitude(r.n), ToBE32(r.e % 0x1_0000_0000), ToMagnitude(r.d), ToMagnitude(r.primes[0]),
        ToMagnitude(r.primes[1]), ToMagnitude(pre.dp), ToMagnitude(pre.dq), ToMagnitude(pre.qinv));
    }
  }

  /** A key that can be stored at all is read back as itself exactly when it is
      storable: one variant set, and that one within what the encoding keeps. */
  lemma RoundTripIff(lib: Library, k: PrivateKey)
    requires Marshal(k).Some?
    ensures Unmarshal(lib, Marshal(k).value).Key?
    ensures Unmarshal(lib, Marshal(k).value) == Key(k) <==> Storable(lib, k)
  {
    if k.tpm.Some? {
      TPMRoundTrip(lib, k.tpm.value);
    } else if k.ecdsa.Some? {
      ECDSARoundTrip(lib, k.ecdsa.value);
    } else if k.ed25519.Some? {
      Ed25519RoundTrip(lib, k.ed25519.value);
      var s := k.ed25519.value;
      assert s == s[..32] + s[32..];
      assert (s[..32] + lib.derive(s[..32]))[32..] == lib.derive(s[..32]);
    } else {
      var r := k.rsa.value;
      RSARoundTrip(lib, r);
      Int32RoundTrip(r.e);
      if |r.primes| == 2 {
        assert r.primes[..2] == r.primes;
      }
    }
  }

  /** Storing a storable key never panics. */
  lemma StorableMarshals(lib: Library, k: PrivateKey)
    requires Storable(lib, k)
    ensures Marshal(k).Some? && Unmarshal(lib, Marshal(k).value) == Key(k)
  {
    RoundTripIff(lib, k);
  }

  /** Whatever is decoded, from any bytes, is a storable key. */
  lemma DecodedIsStorable(lib: Library, e: Encoded)
    requires Unmarshal(lib, e).Key?
    ensures Storable(lib, Unmarshal(lib, e).key)
  {
    var seed := BytesOf(e.fields, -4);
    if |seed| == 32 {
      assert (seed + lib.derive(seed))[..32] == seed && (seed + lib.derive(seed))[32..] == lib.derive(seed);
    }
  }
}
