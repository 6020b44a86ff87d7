/** The identity vault (`identity_vault.go`). The functions work on the entries the
    credential sources hold; the class is the vault of shared, mutable sources. */
module Vault {
  import opened Bytes
  import opened Cose
  import opened Wrappers

  type int32 = x: int | -0x8000_0000 <= x < 0x8000_0000

  type Id = seq<byte>

  datatype RelyingParty = RelyingParty(id: string, name: string)

  datatype User = User(id: seq<byte>, displayName: string, name: string)

  datatype Entry = Entry(kind: string, id: Id, key: PrivateKey, rp: RelyingParty, user: User, counter: int32)

  datatype Saved = Saved(kind: string, id: Id, key: Encoded, rp: RelyingParty, user: User, counter: int32)

  // ---------------------------------------------------------------- sequences

  lemma LastFirst<T>(s: seq<T>, n: nat)
    requires n < |s|
    ensures s[..n + 1][..n] == s[..n] && s[..n + 1] == s[..n] + [s[n]]
  {
  }

  lemma SameLast<T>(a: seq<T>, x: T, b: seq<T>, y: T)
    ensures a + [x] == b + [y] <==> a == b && x == y
  {
    if a + [x] == b + [y] {
      assert |a| == |b| && (a + [x])[|a|] == x && (b + [y])[|b|] == y;
      assert a == (a + [x])[..|a|] && b == (b + [y])[..|b|];
    }
  }

  predicate Distinct<T(==)>(s: seq<T>) {
    forall i, j :: 0 <= i < j < |s| ==> s[i] != s[j]
  }

  function SwapRemoved<T>(s: seq<T>, i: nat): seq<T>
    requires i < |s|
  {
    s[i := s[|s| - 1]][..|s| - 1]
  }

  lemma SwapRemovedIs<T>(s: seq<T>, i: nat)
    requires i < |s|
    ensures Distinct(s) ==> Distinct(SwapRemoved(s, i))
    ensures multiset(s) == multiset(SwapRemoved(s, i)) + multiset{s[i]}
    ensures forall x :: x in SwapRemoved(s, i) ==> x in s
  {
    var n := |s| - 1;
    var swapped := s[i := s[n]];
    assert s == s[..n] + [s[n]];
    assert swapped == swapped[..n] + [swapped[n]];
  }

  /** The elements of s at the positions of r, in that order. */
  predicate Picked<T(==)>(s: seq<T>, r: seq<nat>, picked: seq<T>) {
    |picked| == |r| && forall k :: 0 <= k < |r| ==> r[k] < |s| && picked[k] == s[r[k]]
  }

  lemma PickedMore<T>(s: seq<T>, r: seq<nat>, picked: seq<T>, i: nat)
    requires Picked(s, r, picked) && i < |s|
    ensures Picked(s, r + [i], picked + [s[i]])
  {
  }

  // ------------------------------------------------------------ specification

  predicate Unique(es: seq<Entry>) {
    forall i, j :: 0 <= i < j < |es| ==> es[i].id != es[j].id
  }

  predicate Holds(es: seq<Entry>, id: Id) {
    exists e <- es :: e.id == id
  }

  /** The first entry with the id, or the length. */
  function FirstAt(es: seq<Entry>, id: Id): (i: nat)
    ensures i <= |es|
    ensures i < |es| ==> es[i].id == id
    ensures forall k :: 0 <= k < i ==> es[k].id != id
  {
    if es == [] || es[0].id == id then 0 else 1 + FirstAt(es[1..], id)
  }

  /** `DeleteIdentity`: the last entry takes the place of the deleted one. */
  function Deleted(es: seq<Entry>, id: Id): seq<Entry> {
    var i := FirstAt(es, id);
    if i == |es| then es else SwapRemoved(es, i)
  }

  predicate Allowed(allow: Option<seq<Id>>, id: Id) {
    allow.Some? ==> id in allow.value
  }

  /** `GetMatchingCredentialSources`: the positions of the entries of a relying party
      that an allow list, if there is one, names. */
  function Matching(es: seq<Entry>, rp: string, allow: Option<seq<Id>>): seq<nat> {
    MatchingTo(es, |es|, rp, allow)
  }

  /** Among the first n entries. */
  function MatchingTo(es: seq<Entry>, n: nat, rp: string, allow: Option<seq<Id>>): seq<nat>
    requires n <= |es|
  {
    if n == 0 then []
    else
      var before := MatchingTo(es, n - 1, rp, allow);
      if es[n - 1].rp.id == rp && Allowed(allow, es[n - 1].id) then before + [n - 1] else before
  }

  function ToSaved(e: Entry): Option<Saved> {
    var key := Marshal(e.key);
    if key.None? then None else Some(Saved(e.kind, e.id, key.value, e.rp, e.user, e.counter))
  }

  /** `Export`; none if encoding some key panics. */
  function Exported(es: seq<Entry>): (r: Option<seq<Saved>>)
    ensures r.Some? ==> |r.value| == |es|
  {
    if es == [] then Some([])
    else
      var n := |es| - 1;
      var before, last := Exported(es[..n]), ToSaved(es[n]);
      if before.None? || last.None? then None else Some(before.value + [last.value])
  }

  datatype Outcome = Imported | Invalid | Crashed

  /** The libraries: keys, and the parser of the key format used before COSE. */
  datatype Parsers = Parsers(lib: Library, legacy: Encoded -> Option<ECDSAKey>)

  datatype Loaded = Loaded(entry: Entry) | NotLoaded(outcome: Outcome)

  function FromSaved(p: Parsers, s: Saved): Loaded {
    match Unmarshal(p.lib, s.key)
    case Key(k) => Loaded(Entry(s.kind, s.id, k, s.rp, s.user, s.counter))
    case Panicked => NotLoaded(Crashed)
    case DecodeError =>
      var k := p.legacy(s.key);
      if k.None? then NotLoaded(Invalid)
      else Loaded(Entry(s.kind, s.id, NO_KEY.(ecdsa := k), s.rp, s.user, s.counter))
  }

  /** `Import` into an empty vault: the entries before the first one that fails. */
  function ImportedFrom(p: Parsers, saved: seq<Saved>): (r: (seq<Entry>, Outcome))
    ensures r.1 == Imported ==> |r.0| == |saved|
  {
    if saved == [] then ([], Imported)
    else
      var n := |saved| - 1;
      var (before, outcome) := ImportedFrom(p, saved[..n]);
      if outcome != Imported then (before, outcome)
      else match FromSaved(p, saved[n])
        case Loaded(e) => (before + [e], Imported)
        case NotLoaded(o) => (before, o)
  }

  // ---------------------------------------------------------------- the vault

  class CredentialSource {
    const kind: string
    const id: Id
    const key: PrivateKey
    const rp: RelyingParty
    const user: User
    var signatureCounter: int32

    function View(): Entry
      reads this
    {
      Entry(kind, id, key, rp, user, signatureCounter)
    }

    constructor (e: Entry)
      ensures View() == e
    {
      kind, id, key, rp, user, signatureCounter := e.kind, e.id, e.key, e.rp, e.user, e.counter;
    }
  }

  class IdentityVault {
    var credentialSources: seq<CredentialSource>

    ghost predicate Valid()
      reads this
    {
      Distinct(credentialSources)
    }

    ghost function Entries(): (es: seq<Entry>)
      reads this, credentialSources
      ensures |es| == |credentialSources|
      ensures forall i :: 0 <= i < |es| ==> es[i] == credentialSources[i].View()
    {
      var cs := credentialSources;
      seq(|cs|, i requires 0 <= i < |cs| reads cs => cs[i].View())
    }

    constructor ()
      ensures credentialSources == [] && Valid() && Entries() == []
    {
      credentialSources := [];
    }

    method AddIdentity(source: CredentialSource)
      requires Valid() && source !in credentialSources
      modifies this
      ensures Valid() && credentialSources == old(credentialSources) + [source]
      ensures Entries() == old(Entries()) + [source.View()]
    {
      credentialSources := credentialSources + [source];
    }

    /** `NewIdentity`, with the random id and the key that was generated; none if the TPM
        could not make one. */
    method NewIdentity(id: Id, key: Option<PrivateKey>, rp: RelyingParty, user: User) returns (source: CredentialSource?)
      requires Valid()
      modifies this
      ensures Valid() && (source == null <==> key.None?)
      ensures source == null ==> credentialSources == old(credentialSources) && Entries() == old(Entries())
      ensures source != null ==>
                && fresh(source) && credentialSources == old(credentialSources) + [source]
                && source.View() == Entry("public-key", id, key.value, rp, user, 0)
                && Entries() == old(Entries()) + [source.View()]
    {
      if key.None? { return null; }
      source := new CredentialSource(Entry("public-key", id, key.value, rp, user, 0));
      AddIdentity(source);
    }

    method DeleteIdentity(id: Id) returns (found: bool)
      requires Valid()
      modifies this
      ensures Valid() && forall s :: s in credentialSources ==> s in old(credentialSources)
      ensures found <==> Holds(old(Entries()), id)
      ensures Entries() == Deleted(old(Entries()), id)
    {
      ghost var es := Entries();
      DeletedIsOneLess(es, id);
      var i := 0;
      while i < |credentialSources|
        invariant 0 <= i <= FirstAt(es, id)
      {
        if credentialSources[i].id == id {
          assert i == FirstAt(es, id);
          RemoveAt(i);
          return true;
        }
        i := i + 1;
      }
      found := false;
    }

    /** The last source takes the place of source i. */
    method RemoveAt(i: nat)
      requires Valid() && i < |credentialSources|
      modifies this
      ensures Valid() && forall s :: s in credentialSources ==> s in old(credentialSources)
      ensures Entries() == SwapRemoved(old(Entries()), i)
    {
      ghost var es := Entries();
      SwapRemovedIs(credentialSources, i);
      var n := |credentialSources| - 1;
      credentialSources := credentialSources[i := credentialSources[n]];
      credentialSources := credentialSources[..n];
      assert Entries() == SwapRemoved(es, i);
    }

    method GetMatchingCredentialSources(rp: string, allow: Option<seq<Id>>) returns (sources: seq<CredentialSource>)
      ensures Picked(credentialSources, Matching(Entries(), rp, allow), sources)
    {
      sources := [];
      ghost var es := Entries();
      ghost var r := [];
      var i := 0;
      while i < |credentialSources|
        invariant 0 <= i <= |credentialSources| && r == MatchingTo(es, i, rp, allow)
        invariant Picked(credentialSources, r, sources)
      {
        var source := credentialSources[i];
        if source.rp.id == rp {
          var allowed := IsAllowed(allow, source.id);
          if allowed {
            PickedMore(credentialSources, r, sources, i);
            r := r + [i];
            sources := sources + [source];
          }
        }
        i := i + 1;
      }
    }

    /** The loop over the allow list. */
    static method IsAllowed(allow: Option<seq<Id>>, id: Id) returns (allowed: bool)
      ensures allowed <==> Allowed(allow, id)
    {
      if allow.None? { return true; }
      var j := 0;
      while j < |allow.value|
        invariant 0 <= j <= |allow.value| && id !in allow.value[..j]
      {
        if allow.value[j] == id { return true; }
        j := j + 1;
      }
      assert allow.value[..j] == allow.value;
      allowed := false;
    }

    /** `Export`; none if encoding a key panics. */
    method Export() returns (saved: Option<seq<Saved>>)
      ensures saved == Exported(Entries())
    {
      var list := [];
      ghost var es := Entries();
      var i := 0;
      while i < |credentialSources|
        invariant 0 <= i <= |credentialSources|
        invariant Exported(es[..i]) == Some(list)
      {
        var source := credentialSources[i];
        assert es[..i + 1][..i] == es[..i];
        var key := Marshal(source.key);
        if key.None? {
          ExportedPrefix(es, i + 1);
          return None;
        }
        list := list + [Saved(source.kind, source.id, key.value, source.rp, source.user, source.signatureCounter)];
        i := i + 1;
      }
      assert es[..i] == es;
      saved := Some(list);
    }

    /** A source made from a saved one. */
    method Restore(e: Entry)
      requires Valid()
      modifies this
      ensures Valid() && forall s :: s in credentialSources ==> s in old(credentialSources) || fresh(s)
      ensures Entries() == old(Entries()) + [e]
    {
      var source := new CredentialSource(e);
      AddIdentity(source);
    }

    method Import(p: Parsers, saved: seq<Saved>) returns (outcome: Outcome)
      requires Valid()
      modifies this
      ensures Valid() && forall s :: s in credentialSources ==> s in old(credentialSources) || fresh(s)
      ensures (Entries(), outcome) == (old(Entries()) + ImportedFrom(p, saved).0, ImportedFrom(p, saved).1)
    {
      ghost var before, got := Entries(), [];
      var i := 0;
      while i < |saved|
        invariant 0 <= i <= |saved| && Valid()
        invariant forall s :: s in credentialSources ==> s in old(credentialSources) || fresh(s)
        invariant ImportedFrom(p, saved[..i]) == (got, Imported)
        invariant Entries() == before + got
      {
        ImportedStep(p, saved, i);
        var loaded := FromSaved(p, saved[i]);
        if loaded.NotLoaded? {
          ImportedPrefix(p, saved, i + 1);
          return loaded.outcome;
        }
        Restore(loaded.entry);
        assert before + got + [loaded.entry] == before + (got + [loaded.entry]);
        got := got + [loaded.entry];
        i := i + 1;
      }
      assert saved[..i] == saved;
      outcome := Imported;
    }
  }

  // --------------------------------------------------------------- properties

  predicate Matches(e: Entry, rp: string, allow: Option<seq<Id>>) {
    e.rp.id == rp && Allowed(allow, e.id)
  }

  lemma {:induction false} MatchingSound(es: seq<Entry>, n: nat, rp: string, allow: Option<seq<Id>>, k: nat)
    requires n <= |es| && k < |MatchingTo(es, n, rp, allow)|
    ensures var i := MatchingTo(es, n, rp, allow)[k]; i < n && Matches(es[i], rp, allow)
  {
    if k < |MatchingTo(es, n - 1, rp, allow)| {
      MatchingSound(es, n - 1, rp, allow, k);
    }
  }

  lemma {:induction false} MatchingComplete(es: seq<Entry>, n: nat, rp: string, allow: Option<seq<Id>>, i: nat)
    requires i < n <= |es| && Matches(es[i], rp, allow)
    ensures i in MatchingTo(es, n, rp, allow)
  {
    if i < n - 1 {
      MatchingComplete(es, n - 1, rp, allow, i);
    }
  }

  lemma {:induction false} MatchingOrdered(
      es: seq<Entry>, n: nat, rp: string, allow: Option<seq<Id>>, j: nat, k: nat)
    requires n <= |es| && j < k < |MatchingTo(es, n, rp, allow)|
    ensures MatchingTo(es, n, rp, allow)[j] < MatchingTo(es, n, rp, allow)[k]
  {
    if k < |MatchingTo(es, n - 1, rp, allow)| {
      MatchingOrdered(es, n - 1, rp, allow, j, k);
    } else {
      MatchingSound(es, n - 1, rp, allow, j);
    }
  }

  /** The positions found are those of the entries that match, in order. */
  lemma MatchingExact(es: seq<Entry>, rp: string, allow: Option<seq<Id>>, i: nat)
    ensures var r := Matching(es, rp, allow);
            && (forall k :: 0 <= k < |r| ==> r[k] < |es| && Matches(es[r[k]], rp, allow))
            && (i < |es| && Matches(es[i], rp, allow) ==> i in r)
            && (forall j, k :: 0 <= j < k < |r| ==> r[j] < r[k])
  {
    var r := Matching(es, rp, allow);
    forall k | 0 <= k < |r| ensures r[k] < |es| && Matches(es[r[k]], rp, allow) {
      MatchingSound(es, |es|, rp, allow, k);
    }
    if i < |es| && Matches(es[i], rp, allow) {
      MatchingComplete(es, |es|, rp, allow, i);
    }
    forall j, k | 0 <= j < k < |r| ensures r[j] < r[k] {
      MatchingOrdered(es, |es|, rp, allow, j, k);
    }
  }

  /** Entry i is the first one of the relying party that the allow list, if there is one,
      names. */
  predicate FirstMatch(es: seq<Entry>, rp: string, allow: Option<seq<Id>>, i: nat) {
    && i < |es| && es[i].rp.id == rp && (allow.Some? ==> es[i].id in allow.value)
    && forall k :: 0 <= k < i ==> !(es[k].rp.id == rp && (allow.Some? ==> es[k].id in allow.value))
  }

  /** The first matching position is that of the first match, and there is none exactly
      if nothing matches. */
  lemma FirstMatchIff(es: seq<Entry>, rp: string, allow: Option<seq<Id>>, i: nat)
    ensures var r := Matching(es, rp, allow);
            && (FirstMatch(es, rp, allow, i) <==> r != [] && r[0] == i)
            && (r == [] <==> forall k: nat :: !FirstMatch(es, rp, allow, k))
            && (r == [] <==> forall e <- es :: !(e.rp.id == rp && (allow.Some? ==> e.id in allow.value)))
  {
    var r := Matching(es, rp, allow);
    MatchingExact(es, rp, allow, i);
    if r != [] {
      FirstIsFirst(es, rp, allow);
      assert es[r[0]] in es;
    } else {
      forall k: nat | k < |es| ensures !Matches(es[k], rp, allow) {
        MatchingExact(es, rp, allow, k);
      }
    }
    if FirstMatch(es, rp, allow, i) && r != [] {
      assert FirstMatch(es, rp, allow, r[0]);
    }
  }

  lemma FirstIsFirst(es: seq<Entry>, rp: string, allow: Option<seq<Id>>)
    requires Matching(es, rp, allow) != []
    ensures FirstMatch(es, rp, allow, Matching(es, rp, allow)[0])
  {
    var r := Matching(es, rp, allow);
    MatchingExact(es, rp, allow, 0);
    forall k | 0 <= k < r[0] ensures !Matches(es[k], rp, allow) {
      MatchingExact(es, rp, allow, k);
    }
  }

  lemma {:induction false} ExportedPrefix(es: seq<Entry>, i: nat)
    requires i <= |es| && Exported(es[..i]).None?
    ensures Exported(es).None?
    decreases |es| - i
  {
    if i == |es| {
      assert es[..i] == es;
    } else {
      assert es[..i + 1][..i] == es[..i];
      ExportedPrefix(es, i + 1);
    }
  }

  lemma ImportedStep(p: Parsers, saved: seq<Saved>, i: nat)
    requires i < |saved| && ImportedFrom(p, saved[..i]).1 == Imported
    ensures ImportedFrom(p, saved[..i + 1]) ==
            match FromSaved(p, saved[i])
            case Loaded(e) => (ImportedFrom(p, saved[..i]).0 + [e], Imported)
            case NotLoaded(o) => (ImportedFrom(p, saved[..i]).0, o)
  {
    assert saved[..i + 1] == saved[..i] + [saved[i]];
    ImportedMore(p, saved[..i], saved[i]);
  }

  lemma {:induction false} ImportedPrefix(p: Parsers, saved: seq<Saved>, i: nat)
    requires i <= |saved| && ImportedFrom(p, saved[..i]).1 != Imported
    ensures ImportedFrom(p, saved) == ImportedFrom(p, saved[..i])
    decreases |saved| - i
  {
    if i == |saved| {
      assert saved[..i] == saved;
    } else {
      assert saved[..i + 1][..i] == saved[..i];
      ImportedPrefix(p, saved, i + 1);
    }
  }

  /** Deleting takes out exactly the first entry with the id, as a multiset. */
  lemma DeletedIsOneLess(es: seq<Entry>, id: Id)
    ensures Holds(es, id) <==> FirstAt(es, id) < |es|
    ensures Holds(es, id) ==> multiset(es) == multiset(Deleted(es, id)) + multiset{es[FirstAt(es, id)]}
    ensures !Holds(es, id) ==> Deleted(es, id) == es
  {
    var i := FirstAt(es, id);
    if i < |es| {
      SwapRemovedIs(es, i);
      assert es[i] in es;
    }
  }

  /** The last entry takes the place of the first one with the id, and the others stay
      where they are. */
  lemma DeletedInPlace(es: seq<Entry>, id: Id, i: nat)
    requires i < |es| && es[i].id == id && forall k :: 0 <= k < i ==> es[k].id != id
    ensures var ds, n := Deleted(es, id), |es| - 1;
            |ds| == n && forall k :: 0 <= k < n ==> ds[k] == if k == i then es[n] else es[k]
  {
    assert FirstAt(es, id) == i;
  }

  /** With unique ids, deleting an id leaves the entries with other ids and no others,
      and ids stay unique. */
  lemma DeletedKeepsOthers(es: seq<Entry>, id: Id, e: Entry)
    requires Unique(es)
    ensures Unique(Deleted(es, id)) && !Holds(Deleted(es, id), id)
    ensures e in Deleted(es, id) <==> e in es && e.id != id
  {
    var i, ds := FirstAt(es, id), Deleted(es, id);
    if i < |es| {
      var n := |es| - 1;
      assert forall k :: 0 <= k < |ds| ==> ds[k] == if k == i then es[n] else es[k];
      if e in es && e.id != id {
        var k :| 0 <= k < |es| && es[k] == e;
        assert ds[if k == n then i else k] == e;
      }
    }
  }

  /** Loading what was saved gives back every credential in order, with its own relying
      party, user and counter, exactly when every key is storable. */
  lemma {:induction false} SaveLoadIff(p: Parsers, es: seq<Entry>)
    requires Exported(es).Some?
    ensures ImportedFrom(p, Exported(es).value).1 == Imported
    ensures ImportedFrom(p, Exported(es).value).0 == es <==> AllStorable(p.lib, es)
  {
    if es != [] {
      var n := |es| - 1;
      var saved := Exported(es).value;
      SaveLoadIff(p, es[..n]);
      assert saved[..n] == Exported(es[..n]).value;
      RoundTripIff(p.lib, es[n].key);
      LastFirst(es, n);
      var loaded := FromSaved(p, saved[n]).entry;
      SameLast(ImportedFrom(p, saved[..n]).0, loaded, es[..n], es[n]);
      assert es == es[..n] + [es[n]];
      assert forall e :: e in es <==> e in es[..n] || e == es[n];
    }
  }

  /** Storable keys can always be saved. */
  lemma {:induction false} StorableExports(p: Parsers, es: seq<Entry>)
    requires AllStorable(p.lib, es)
    ensures Exported(es).Some? && ImportedFrom(p, Exported(es).value) == (es, Imported)
  {
    if es != [] {
      var n := |es| - 1;
      assert es[n] in es && forall e <- es[..n] :: e in es;
      StorableExports(p, es[..n]);
      StorableMarshals(p.lib, es[n].key);
    }
    SaveLoadIff(p, es);
  }

  predicate AllStorable(lib: Library, es: seq<Entry>) {
    forall e <- es :: Storable(lib, e.key)
  }

  /** A saved credential whose key is of the format before COSE, on another curve. */
  predicate OffCurve(p: Parsers, s: Saved) {
    && Unmarshal(p.lib, s.key).DecodeError? && p.legacy(s.key).Some?
    && p.legacy(s.key).value.public.curve != P256
  }

  lemma LoadedIsStorable(p: Parsers, s: Saved)
    requires FromSaved(p, s).Loaded?
    ensures Storable(p.lib, FromSaved(p, s).entry.key) <==> !OffCurve(p, s)
  {
    if Unmarshal(p.lib, s.key).Key? {
      DecodedIsStorable(p.lib, s.key);
    }
  }

  lemma ImportedMore(p: Parsers, saved: seq<Saved>, s: Saved)
    ensures var (es, outcome) := ImportedFrom(p, saved);
            ImportedFrom(p, saved + [s]) ==
              if outcome != Imported then (es, outcome)
              else match FromSaved(p, s)
                case Loaded(e) => (es + [e], Imported)
                case NotLoaded(o) => (es, o)
  {
    assert (saved + [s])[..|saved|] == saved;
  }

  /** The entries of a load are those of the first saved ones. */
  predicate Shaped(p: Parsers, saved: seq<Saved>, es: seq<Entry>) {
    |es| <= |saved| && forall i :: 0 <= i < |es| ==> FromSaved(p, saved[i]) == Loaded(es[i])
  }

  lemma ShapedMore(p: Parsers, saved: seq<Saved>, es: seq<Entry>, s: Saved)
    requires Shaped(p, saved, es)
    ensures Shaped(p, saved + [s], es)
    ensures |es| == |saved| && FromSaved(p, s).Loaded? ==> Shaped(p, saved + [s], es + [FromSaved(p, s).entry])
  {
  }

  lemma {:induction false} ImportedShape(p: Parsers, saved: seq<Saved>)
    ensures Shaped(p, saved, ImportedFrom(p, saved).0)
  {
    if saved != [] {
      var before, s := saved[..|saved| - 1], saved[|saved| - 1];
      assert saved == before + [s];
      ImportedShape(p, before);
      ImportedLength(p, before);
      ShapedMore(p, before, ImportedFrom(p, before).0, s);
      ImportedMore(p, before, s);
    }
  }

  lemma {:induction false} ImportedLength(p: Parsers, saved: seq<Saved>)
    ensures |ImportedFrom(p, saved).0| <= |saved|
    ensures ImportedFrom(p, saved).1 == Imported ==> |ImportedFrom(p, saved).0| == |saved|
  {
    if saved != [] {
      ImportedLength(p, saved[..|saved| - 1]);
    }
  }

  /** Every loaded entry has the kind, the id, the relying party, the user and the counter
      of the saved one, whatever format its key is in; and loading stops exactly at the
      first saved one that fails. */
  lemma LoadedKeeps(p: Parsers, saved: seq<Saved>, i: nat)
    ensures var (es, outcome) := ImportedFrom(p, saved);
            && |es| <= |saved| && (outcome == Imported <==> |es| == |saved|)
            && (i < |es| ==>
                  && es[i].kind == saved[i].kind && es[i].id == saved[i].id && es[i].rp == saved[i].rp
                  && es[i].user == saved[i].user && es[i].counter == saved[i].counter)
            && (|es| < |saved| ==> FromSaved(p, saved[|es|]) == NotLoaded(outcome))
  {
    ImportedShape(p, saved);
    ImportedStops(p, saved);
  }

  /** A saved entry is loaded exactly if its key is one in either format, and ends the
      process exactly if decoding it panics. */
  lemma LoadsIff(p: Parsers, s: Saved)
    ensures FromSaved(p, s).Loaded? <==>
            Unmarshal(p.lib, s.key).Key? || (Unmarshal(p.lib, s.key) == DecodeError && p.legacy(s.key).Some?)
    ensures FromSaved(p, s) == NotLoaded(Crashed) <==> Unmarshal(p.lib, s.key) == Panicked
  {
  }

  lemma {:induction false} ImportedStops(p: Parsers, saved: seq<Saved>)
    ensures var (es, outcome) := ImportedFrom(p, saved);
            && |es| <= |saved| && (outcome == Imported <==> |es| == |saved|)
            && (|es| < |saved| ==> FromSaved(p, saved[|es|]) == NotLoaded(outcome))
  {
    if saved != [] {
      var before, s := saved[..|saved| - 1], saved[|saved| - 1];
      assert saved == before + [s];
      ImportedStops(p, before);
      ImportedMore(p, before, s);
      NeverImported(p, s);
      var n := |ImportedFrom(p, before).0|;
      assert n < |before| ==> saved[n] == before[n];
    }
  }

  lemma NeverImported(p: Parsers, s: Saved)
    ensures FromSaved(p, s) != NotLoaded(Imported)
  {
  }

  /** What a load gives can be saved again exactly if no key of the old format, among
      those loaded, is on a curve other than P-256. */
  lemma LoadedStorableIff(p: Parsers, saved: seq<Saved>)
    ensures var es := ImportedFrom(p, saved).0;
            && |es| <= |saved|
            && (AllStorable(p.lib, es) <==> forall i :: 0 <= i < |es| ==> !OffCurve(p, saved[i]))
  {
    var es := ImportedFrom(p, saved).0;
    ImportedShape(p, saved);
    forall i | 0 <= i < |es| ensures es[i] in es && (Storable(p.lib, es[i].key) <==> !OffCurve(p, saved[i])) {
      LoadedIsStorable(p, saved[i]);
    }
  }

  /** Otherwise the first save panics. */
  lemma OffCurvePanics(p: Parsers, saved: seq<Saved>, i: nat)
    requires i < |ImportedFrom(p, saved).0| && i < |saved| && OffCurve(p, saved[i])
    ensures Exported(ImportedFrom(p, saved).0).None?
  {
    var es := ImportedFrom(p, saved).0;
    ImportedShape(p, saved);
    assert ToSaved(es[i]).None?;
    LastFirst(es, i);
    ExportedPrefix(es, i + 1);
  }
}
