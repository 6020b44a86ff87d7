/** Moving the vault to a TPM-sealed passphrase (`tpm_linux.go`). The disk is a map from
    paths to contents. Writing a file can stop after any number of bytes, a rename
    happens or does not, and the process can die between any two states of the disk:
    the disk keeps a trace of all of them. */
module Rekey {
  import opened Bytes
  import opened Wrappers

  type Path = string
  type Pass = string
  type Files = map<Path, seq<byte>>

  /** `tpmUnseal` on this machine's TPM, and `DecryptFIDOState`. */
  datatype Crypto = Crypto(unseal: seq<byte> -> Option<Pass>, decrypt: (seq<byte>, Pass) -> Option<seq<byte>>)

  /** What the outside supplies to one run: the passphrase it was given, the random new
      one, what `tpmSeal` and `EncryptFIDOState` return for it (none on an error), and
      whether reading the vault file fails. */
  datatype Inputs = Inputs(
    current: Pass, newPass: Pass, blob: Option<seq<byte>>, encrypted: Option<seq<byte>>, readFails: bool)

  /** How a write goes: to its end, or it fails before the file is there or after some
      bytes. */
  datatype Fault = NoFault | NotCreated | After(bytes: nat)

  /** How the disk operations of one run go, each if it comes to it. */
  datatype Faults = Faults(
    backup: Fault, keyWrite: Fault, keyRename: bool, vaultWrite: Fault, vaultRename: bool)

  function Temp(path: Path): Path { path + ".tmp" }

  function Backup(vault: Path): Path { vault + ".pre-tpm.bak" }

  predicate Distinct(vault: Path, key: Path) {
    && key != vault && key != Temp(vault) && key != Backup(vault)
    && Temp(key) != vault && Temp(key) != Backup(vault)
  }

  // ------------------------------------------------------------ specification

  predicate HasVault(f: Files, vault: Path, x: Inputs) {
    !x.readFails && vault in f && f[vault] != []
  }

  /** The checks made before anything is written. */
  predicate Proceeds(c: Crypto, f: Files, vault: Path, key: Path, x: Inputs) {
    && key !in f
    && (HasVault(f, vault, x) ==> x.current != "" && c.decrypt(f[vault], x.current).Some?)
    && x.blob.Some? && c.unseal(x.blob.value) == Some(x.newPass)
  }

  /** A write of data to path, cut off anywhere or not begun. */
  ghost predicate Partly(f: Files, path: Path, data: seq<byte>, g: Files) {
    g == f || exists n :: 0 <= n <= |data| && g == f[path := data[..n]]
  }

  function Renamed(f: Files, from: Path, to: Path): Files
    requires from in f
  {
    f[to := f[from]] - {from}
  }

  /** The disk once the backup, the sealed key, and the re-keyed vault are in place. */
  function BackedUp(f: Files, vault: Path, x: Inputs): Files {
    if HasVault(f, vault, x) then f[Backup(vault) := f[vault]] else f
  }

  function Keyed(f: Files, vault: Path, key: Path, x: Inputs): Files
    requires x.blob.Some?
  {
    Renamed(BackedUp(f, vault, x)[Temp(key) := x.blob.value], Temp(key), key)
  }

  function Migrated(f: Files, vault: Path, key: Path, x: Inputs): Files
    requires x.blob.Some?
  {
    if HasVault(f, vault, x) && x.encrypted.Some? then
      Renamed(Keyed(f, vault, key, x)[Temp(vault) := x.encrypted.value], Temp(vault), vault)
    else Keyed(f, vault, key, x)
  }

  /** The states a run that proceeds takes the disk through. */
  ghost predicate Passes(f: Files, vault: Path, key: Path, x: Inputs, g: Files)
    requires x.blob.Some?
  {
    || (HasVault(f, vault, x) && Partly(f, Backup(vault), f[vault], g))
    || Partly(BackedUp(f, vault, x), Temp(key), x.blob.value, g)
    || g == Keyed(f, vault, key, x)
    || (HasVault(f, vault, x) && x.encrypted.Some? && Partly(Keyed(f, vault, key, x), Temp(vault), x.encrypted.value, g))
    || g == Migrated(f, vault, key, x)
  }

  /** The states a run can leave the disk in, by finishing, by an error, or by a crash. */
  ghost predicate Leaves(c: Crypto, f: Files, vault: Path, key: Path, x: Inputs, g: Files) {
    g == f || (Proceeds(c, f, vault, key, x) && Passes(f, vault, key, x, g))
  }

  // ---------------------------------------------------------------- the disk

  class Disk {
    var files: Files
    ghost var trace: seq<Files>

    constructor (files: Files)
      ensures this.files == files && trace == [files]
    {
      this.files := files;
      trace := [files];
    }

    /** `os.WriteFile`: create or truncate, then write; either can fail. */
    method WriteFile(path: Path, data: seq<byte>, fault: Fault) returns (ok: bool)
      modifies this
      ensures old(trace) <= trace
      ensures forall i :: |old(trace)| <= i < |trace| ==> Partly(old(files), path, data, trace[i])
      ensures Partly(old(files), path, data, files)
      ensures ok <==> fault == NoFault
      ensures ok ==> files == old(files)[path := data]
    {
      if fault == NotCreated { return false; }
      ghost var before := files;
      files := files[path := data[..0]];
      trace := trace + [files];
      var n := 0;
      while n < |data| && (fault.After? ==> n < fault.bytes)
        invariant 0 <= n <= |data| && files == before[path := data[..n]]
        invariant old(trace) <= trace
        invariant forall i :: |old(trace)| <= i < |trace| ==> Partly(before, path, data, trace[i])
      {
        n := n + 1;
        files := files[path := data[..n]];
        trace := trace + [files];
      }
      assert data[..|data|] == data;
      ok := fault == NoFault;
    }

    /** `os.Rename`. */
    method Rename(from: Path, to: Path, fails: bool) returns (ok: bool)
      modifies this
      ensures ok <==> from in old(files) && !fails
      ensures ok ==> files == Renamed(old(files), from, to) && trace == old(trace) + [files]
      ensures !ok ==> files == old(files) && trace == old(trace)
    {
      if from !in files || fails { return false; }
      files := files[to := files[from]] - {from};
      trace := trace + [files];
      ok := true;
    }

    method WriteFileAtomic(path: Path, data: seq<byte>, fault: Fault, fails: bool) returns (ok: bool)
      modifies this
      ensures old(trace) <= trace
      ensures ok <==> fault == NoFault && !fails
      ensures var done := Renamed(old(files)[Temp(path) := data], Temp(path), path);
              && (forall i :: |old(trace)| <= i < |trace| ==>
                    Partly(old(files), Temp(path), data, trace[i]) || trace[i] == done)
              && (Partly(old(files), Temp(path), data, files) || files == done)
              && (ok ==> files == done)
    {
      ok := WriteFile(Temp(path), data, fault);
      if ok {
        ok := Rename(Temp(path), path, fails);
      }
    }

    /** `runTPMInit`. Every state the disk goes through is one the specification allows;
        an error before the first write changes nothing; and the run succeeds exactly if
        its checks pass, what it encrypts can be encrypted, and none of the disk
        operations that it comes to fails. */
    method RunTPMInit(c: Crypto, vault: Path, key: Path, x: Inputs, fs: Faults) returns (ok: bool)
      modifies this
      ensures old(trace) <= trace
      ensures forall i :: |old(trace)| <= i < |trace| ==> Leaves(c, old(files), vault, key, x, trace[i])
      ensures Leaves(c, old(files), vault, key, x, files)
      ensures !Proceeds(c, old(files), vault, key, x) ==> !ok && files == old(files) && trace == old(trace)
      ensures ok <==>
                && Proceeds(c, old(files), vault, key, x) && fs.keyWrite == NoFault && !fs.keyRename
                && (HasVault(old(files), vault, x) ==>
                      fs.backup == NoFault && x.encrypted.Some? && fs.vaultWrite == NoFault && !fs.vaultRename)
      ensures ok ==> files == Migrated(old(files), vault, key, x)
      ensures ok ==>
                && key !in old(files)
                && (Distinct(vault, key) ==> key in files && c.unseal(files[key]) == Some(x.newPass))
                && (vault in old(files) && old(files)[vault] != [] && !x.readFails ==>
                      x.current != "" && c.decrypt(old(files)[vault], x.current).Some?)
    {
      if key in files { return false; }
      var hasVault := !x.readFails && vault in files && files[vault] != [];
      if hasVault {
        if x.current == "" { return false; }
        if c.decrypt(files[vault], x.current).None? { return false; }
      }
      if x.blob.None? { return false; }
      if c.unseal(x.blob.value) != Some(x.newPass) { return false; }
      if hasVault {
        ok := WriteFile(Backup(vault), files[vault], fs.backup);
        if !ok { return; }
      }
      ok := WriteFileAtomic(key, x.blob.value, fs.keyWrite, fs.keyRename);
      if !ok { return; }
      if hasVault {
        if x.encrypted.None? { return false; }
        ok := WriteFileAtomic(vault, x.encrypted.value, fs.vaultWrite, fs.vaultRename);
      }
    }
  }

  // ------------------------------------------------------------- crash safety

  /** What holds of the disk between runs, for a vault that held `orig` at first. */
  ghost predicate Safe(c: Crypto, orig: seq<byte>, state: seq<byte>, vault: Path, key: Path, f: Files) {
    && vault in f
    && (key !in f ==> f[vault] == orig)
    && (key in f ==> c.unseal(f[key]).Some?)
    && (f[vault] != orig ==>
          && key in f && c.decrypt(f[vault], c.unseal(f[key]).value) == Some(state)
          && Backup(vault) in f && f[Backup(vault)] == orig)
  }

  /** Decryption undoes encryption, and the original vault decrypts to one state only. */
  ghost predicate Sound(c: Crypto, orig: seq<byte>, state: seq<byte>, x: Inputs) {
    && (x.encrypted.Some? ==> c.decrypt(x.encrypted.value, x.newPass) == Some(state))
    && (forall p :: c.decrypt(orig, p).Some? ==> c.decrypt(orig, p) == Some(state))
  }

  /** One run, stopped anywhere, keeps the disk safe. */
  lemma LeavesSafe(c: Crypto, orig: seq<byte>, state: seq<byte>, vault: Path, key: Path, f: Files, x: Inputs, g: Files)
    requires Distinct(vault, key) && orig != [] && Sound(c, orig, state, x)
    requires Safe(c, orig, state, vault, key, f) && Leaves(c, f, vault, key, x, g)
    ensures Safe(c, orig, state, vault, key, g)
  {
  }

  /** A sequence of runs on a disk that had a vault and no key file, each stopped by
      success, by an error, or by a crash at any point. */
  ghost predicate Runs(
      c: Crypto, orig: seq<byte>, state: seq<byte>, vault: Path, key: Path, disks: seq<Files>, xs: seq<Inputs>) {
    && Distinct(vault, key) && orig != [] && |disks| == |xs| + 1
    && vault in disks[0] && disks[0][vault] == orig && key !in disks[0]
    && (forall x <- xs :: Sound(c, orig, state, x))
    && (forall i :: 0 <= i < |xs| ==> Leaves(c, disks[i], vault, key, xs[i], disks[i + 1]))
  }

  /** Over any sequence of runs: the vault file still holds its original bytes or
      decrypts to the original state under the passphrase unsealed from the key file;
      the key file is never torn, and its passphrase is that of one of the runs; with the
      key in place the backup holds the original, unless the run that wrote the key could
      not read the vault; once the vault is overwritten the backup holds the original. */
  lemma {:induction false} MigrationSafe(
      c: Crypto, orig: seq<byte>, state: seq<byte>, vault: Path, key: Path, disks: seq<Files>, xs: seq<Inputs>)
    requires Runs(c, orig, state, vault, key, disks, xs)
    ensures Safe(c, orig, state, vault, key, disks[|xs|])
    ensures var f := disks[|xs|];
            key in f ==> exists x <- xs ::
              (c.unseal(f[key]) == Some(x.newPass) && (x.readFails || (Backup(vault) in f && f[Backup(vault)] == orig)))
  {
    if xs != [] {
      var n := |xs| - 1;
      var f, x, g := disks[n], xs[n], disks[n + 1];
      assert disks[..n + 1][n] == f && x in xs && forall y <- xs[..n] :: y in xs;
      MigrationSafe(c, orig, state, vault, key, disks[..n + 1], xs[..n]);
      LeavesSafe(c, orig, state, vault, key, f, x, g);
      if key in g && key !in f {
        assert g[key] == x.blob.value;
      }
    }
  }

  // ------------------------------------------------------ what the bridge does

  /** `resolveVaultPassphrase`. */
  function Resolve(c: Crypto, f: Files, key: Path, fallback: Pass): Option<Pass> {
    if key in f then c.unseal(f[key]) else if fallback == "" then None else Some(fallback)
  }

  /** The bridge, started on this disk, opens the vault to the given state. */
  predicate Opens(c: Crypto, f: Files, vault: Path, key: Path, fallback: Pass, state: seq<byte>) {
    var p := Resolve(c, f, key, fallback);
    p.Some? && vault in f && c.decrypt(f[vault], p.value) == Some(state)
  }

  /** Documentation and code part ways here. The migration is called crash-safe, but
      after runs stopped anywhere the bridge, started with the passphrase that used to
      open the vault, opens it exactly unless the key file is in place and the vault
      still is the old one. */
  lemma OpensAfterRunsIff(
      c: Crypto, orig: seq<byte>, state: seq<byte>, vault: Path, key: Path, disks: seq<Files>, xs: seq<Inputs>, fallback: Pass)
    requires Runs(c, orig, state, vault, key, disks, xs)
    requires fallback != "" && c.decrypt(orig, fallback) == Some(state)
    requires forall x <- xs :: c.decrypt(orig, x.newPass).None?
    ensures var f := disks[|xs|];
            Opens(c, f, vault, key, fallback, state) <==> !(key in f && vault in f && f[vault] == orig)
  {
    MigrationSafe(c, orig, state, vault, key, disks, xs);
  }

  /** A run stopped between its two renames gets there; every further run is then
      refused and leaves the disk as it is; removing the key file by hand opens the
      vault again. */
  lemma WindowIsStuck(
      c: Crypto, orig: seq<byte>, state: seq<byte>, vault: Path, key: Path, f: Files, x: Inputs, fallback: Pass)
    requires Distinct(vault, key) && vault in f && f[vault] == orig && Proceeds(c, f, vault, key, x)
    requires fallback != "" && c.decrypt(orig, fallback) == Some(state)
    ensures var g := Keyed(f, vault, key, x);
            && Leaves(c, f, vault, key, x, g) && key in g && vault in g && g[vault] == orig
            && (forall y, h :: Leaves(c, g, vault, key, y, h) ==> h == g)
            && Opens(c, g - {key}, vault, key, fallback, state)
  {
  }

  /** A run that reports success leaves a disk the bridge opens exactly if it could read
      the vault file: a failed read counts as no vault, and only the key is written. */
  lemma CompletedOpensIff(
      c: Crypto, orig: seq<byte>, state: seq<byte>, vault: Path, key: Path, f: Files, x: Inputs, fallback: Pass)
    requires Distinct(vault, key) && vault in f && f[vault] == orig && orig != []
    requires Proceeds(c, f, vault, key, x) && (HasVault(f, vault, x) ==> x.encrypted.Some?)
    requires Sound(c, orig, state, x) && c.decrypt(orig, x.newPass).None?
    ensures Opens(c, Migrated(f, vault, key, x), vault, key, fallback, state) <==> !x.readFails
  {
  }

  /** A disk with a vault and no key file, the passphrase that opens the vault, a working
      TPM and an encryption that works: the run proceeds, so without a fault it succeeds,
      and the bridge then opens the vault to the same state, with a backup beside it. */
  lemma FaultFreeOpens(
      c: Crypto, orig: seq<byte>, state: seq<byte>, vault: Path, key: Path, f: Files, x: Inputs, fallback: Pass)
    requires Distinct(vault, key) && vault in f && f[vault] == orig && orig != [] && key !in f
    requires x.current != "" && c.decrypt(orig, x.current).Some? && !x.readFails && x.encrypted.Some?
    requires x.blob.Some? && c.unseal(x.blob.value) == Some(x.newPass) && Sound(c, orig, state, x)
    requires c.decrypt(orig, x.newPass).None?
    ensures Proceeds(c, f, vault, key, x) && HasVault(f, vault, x)
    ensures var g := Migrated(f, vault, key, x);
            && Opens(c, g, vault, key, fallback, state) && Backup(vault) in g && g[Backup(vault)] == orig
            && key in g && c.unseal(g[key]) == Some(x.newPass)
  {
    CompletedOpensIff(c, orig, state, vault, key, f, x, fallback);
  }

  // ---------------------------------------------------------- the sealed blob

  /** `marshalSealed`, on the marshalled public and private parts. */
  function MarshalSealed(public: seq<byte>, private: seq<byte>): seq<byte> {
    ToBE32(|public| % 0x1_0000_0000) + public + ToBE32(|private| % 0x1_0000_0000) + private
  }

  /** `unmarshalSealed`, up to parsing the two parts. It compares lengths as uint32. */
  function UnmarshalSealed(blob: seq<byte>): Option<(seq<byte>, seq<byte>)> {
    if |blob| < 8 then None
    else
      var n, rest := FromBE32(blob[..4]), blob[4..];
      if |rest| % 0x1_0000_0000 < n then None
      else
        var public, rest2 := rest[..n], rest[n..];
        if |rest2| < 4 then None
        else
          var m, rest3 := FromBE32(rest2[..4]), rest2[4..];
          if |rest3| % 0x1_0000_0000 < m then None else Some((public, rest3[..m]))
  }

  lemma FourParts(a: seq<byte>, b: seq<byte>, c: seq<byte>, d: seq<byte>)
    requires |a| == 4 && |c| == 4
    ensures var s := a + b + c + d;
            && |s| == 8 + |b| + |d| && s[..4] == a && s[4..][..|b|] == b
            && s[4..][|b|..][..4] == c && s[4..][|b|..][4..] == d
  {
    var s := a + b + c + d;
    assert s[4..] == b + (c + d);
    assert s[4..][|b|..] == c + d;
  }

  /** A blob whose length fields are right splits into its two parts; cut off anywhere,
      it does not pass for a blob. */
  lemma Framed(a: seq<byte>, public: seq<byte>, c: seq<byte>, private: seq<byte>, n: nat)
    requires |a| == 4 && |c| == 4 && FromBE32(a) == |public| && FromBE32(c) == |private|
    requires 8 + |public| + |private| < 0x1_0000_0000
    ensures UnmarshalSealed(a + public + c + private) == Some((public, private))
    ensures n < 8 + |public| + |private| ==> UnmarshalSealed((a + public + c + private)[..n]) == None
  {
    var blob := a + public + c + private;
    FourParts(a, public, c, private);
    assert forall k | 0 <= k <= |blob| :: k % 0x1_0000_0000 == k;
    assert private[..|private|] == private;
    if 8 <= n < |blob| {
      assert blob[..n][..4] == blob[..4];
      if 8 + |public| <= n {
        assert blob[..n][4..][|public|..][..4] == blob[4..][|public|..][..4];
      }
    }
  }

  /** A sealed blob is its two parts, each after its length in four big-endian bytes; they
      are read back, and no proper prefix of the blob passes for one. */
  lemma SealedRoundTrip(public: seq<byte>, private: seq<byte>, n: nat)
    requires 8 + |public| + |private| < 0x1_0000_0000
    ensures var blob, k := MarshalSealed(public, private), |public|;
            && |blob| == 8 + k + |private| && FromBE32(blob[..4]) == k && blob[4..4 + k] == public
            && FromBE32(blob[4 + k..8 + k]) == |private| && blob[8 + k..] == private
            && UnmarshalSealed(blob) == Some((public, private))
            && (n < |blob| ==> UnmarshalSealed(blob[..n]) == None)
  {
    var x: uint32, y: uint32 := |public|, |private|;
    assert |public| % 0x1_0000_0000 == x && |private| % 0x1_0000_0000 == y;
    BE32RoundTrip(x);
    BE32RoundTrip(y);
    Framed(ToBE32(x), public, ToBE32(y), private, n);
    FourParts(ToBE32(x), public, ToBE32(y), private);
  }
}
