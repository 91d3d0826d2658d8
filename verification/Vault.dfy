/**
 * The vault file: a plaintext header and a body sealed under the DEK with the header as associated
 * data, and the step by step write that replaces it (crates/wcm-core/src/vault/mod.rs and file.rs).
 */
module Vault {
  import opened Basics
  import opened Body
  import opened Slots
  import opened Header

  /** The sealed body. `EncodeInjective` of module Header lets the header stand for its encoded prefix. */
  datatype BodyCt = BodyCt(key: Dek, nonce: Bytes, aad: Header, plaintext: VaultBody)

  /** One whole vault file. */
  datatype Image = Image(header: Header, ct: BodyCt)

  /** The `.bak` file; a copy that stopped half way leaves `Partial`. */
  datatype Backup = Absent | Partial | Whole(image: Image)

  /** `UnlockedVault`: what an opened vault holds in memory. */
  datatype Unlocked = Unlocked(header: Header, body: VaultBody, dek: Dek, loadedGeneration: nat)

  /** `read_all` and `Header::decode`. */
  function ReadImage(main: Option<Image>): Result<Image> {
    match main
    case None => Err(NotInitialized("vault"))
    case Some(img) =>
      var _ :- Validate(img.header);
      Ok(img)
  }

  function ReadHeader(main: Option<Image>): Result<Header> {
    var img :- ReadImage(main);
    Ok(img.header)
  }

  function OpenBody(img: Image, dek: Dek): Result<VaultBody> {
    if img.ct.key == dek && img.ct.nonce == img.header.bodyNonce && img.ct.aad == img.header
    then Ok(Decoded(img.ct.plaintext))
    else Err(Integrity("AEAD authentication failed"))
  }

  function OpenWithDek(main: Option<Image>, dek: Dek): Result<Unlocked> {
    var img :- ReadImage(main);
    var body :- OpenBody(img, dek);
    Ok(Unlocked(img.header, body, dek, img.header.generation))
  }

  /** The bytes `write` puts on disk for a vault in memory. */
  function BuildImage(v: Unlocked, creating: bool, nonce: Bytes): Result<Image> {
    var header := v.header.(generation := if creating then 1 else v.loadedGeneration + 1, bodyNonce := nonce);
    var _ :- Validate(header);
    Ok(Image(header, BodyCt(v.dek, nonce, header, v.body)))
  }

  /** The vault in memory once `img` has been written. */
  function Saved(v: Unlocked, img: Image): Unlocked {
    v.(header := img.header, loadedGeneration := img.header.generation)
  }

  /** A file that opens under its own key: what every commit leaves behind. */
  ghost predicate SealedImage(img: Image) {
    && ValidHeader(img.header)
    && img.ct.nonce == img.header.bodyNonce
    && img.ct.aad == img.header
    && Canonical(img.ct.plaintext)
  }

  /** Only the file's own key opens it, and then it returns header, body and generation unchanged. */
  lemma OpenSealedIff(img: Image, dek: Dek)
    requires SealedImage(img)
    ensures OpenWithDek(Some(img), dek).Ok? <==> dek == img.ct.key
    ensures dek == img.ct.key ==>
              OpenWithDek(Some(img), dek) == Ok(Unlocked(img.header, img.ct.plaintext, dek, img.header.generation))
  {
    ValidateIff(img.header);
    DecodedIsIdentity(img.ct.plaintext);
  }

  /**
   * Any file opens if and only if its header is valid, the key is that of the body, and nonce and header are
   * those the body was sealed with: no edit of the header goes unnoticed.
   */
  lemma OpensUntouchedIff(img: Image, dek: Dek)
    ensures OpenWithDek(Some(img), dek).Ok? <==>
              && ValidHeader(img.header) && img.ct.key == dek
              && img.ct.nonce == img.header.bodyNonce && img.ct.aad == img.header
    ensures OpenWithDek(Some(img), dek).Err? ==> OpenWithDek(Some(img), dek).error.Integrity?
    ensures OpenWithDek(None, dek).Err? && OpenWithDek(None, dek).error.NotInitialized?
  {
    ValidateTable(img.header);
  }

  /** The check of `write`: to create, that there is no file; to save, that it is still of the generation loaded. */
  lemma WriteCheckIff(v: Unlocked, main: Option<Image>, creating: bool)
    ensures var r := WriteCheck(v, main, creating);
            && (creating ==> (r.Ok? <==> main.None?) && (r.Err? ==> r.error.AlreadyExists?))
            && (!creating && main.None? ==> r.Err? && r.error.NotInitialized?)
            && (!creating && main.Some? && !ValidHeader(main.value.header) ==> r.Err? && r.error.Integrity?)
            && (!creating && main.Some? && ValidHeader(main.value.header) ==>
                  r == if main.value.header.generation == v.loadedGeneration then Ok(()) else Err(Locked))
  {
    if main.Some? { ValidateTable(main.value.header); }
  }

  /** What is written: the vault's header with the next generation and the nonce, over its body and key. */
  lemma BuildsIff(v: Unlocked, creating: bool, nonce: Bytes)
    ensures var r, h := BuildImage(v, creating, nonce), v.header;
            && (r.Ok? <==>
                  && h.v == 1 && |h.vaultId| == 16 && h.bodyCipher == "xchacha20poly1305" && |nonce| == 24
                  && h.slots != [] && DistinctIds(h.slots) && DistinctLabels(h.slots))
            && (r.Ok? ==>
                  var img := r.value;
                  && img.header.generation == (if creating then 1 else v.loadedGeneration + 1)
                  && img.header.bodyNonce == nonce
                  && img.header.(generation := h.generation, bodyNonce := h.bodyNonce) == h
                  && img.ct.plaintext == v.body && img.ct.key == v.dek)
  {
    ValidateTable(v.header.(generation := if creating then 1 else v.loadedGeneration + 1, bodyNonce := nonce));
  }

  lemma BuildIsSealed(v: Unlocked, creating: bool, nonce: Bytes)
    requires Canonical(v.body) && BuildImage(v, creating, nonce).Ok?
    ensures SealedImage(BuildImage(v, creating, nonce).value)
  {
    ValidateIff(BuildImage(v, creating, nonce).value.header);
  }

  /** Saving and opening again with the same key gives back exactly what was saved. */
  lemma SaveThenOpen(v: Unlocked, creating: bool, nonce: Bytes)
    requires Canonical(v.body) && BuildImage(v, creating, nonce).Ok?
    ensures var img := BuildImage(v, creating, nonce).value;
            OpenWithDek(Some(img), v.dek) == Ok(Saved(v, img))
  {
    BuildIsSealed(v, creating, nonce);
    OpenSealedIff(BuildImage(v, creating, nonce).value, v.dek);
  }

  // ---------------------------------------------------------------------------
  // The write, run without interference
  // ---------------------------------------------------------------------------

  datatype CopyFault = CopyWorks | CopyRefused | CopyStopsHalfWay

  /**
   * What happens to one `write`: whether the lock file opens, header and body encode within their bounds,
   * and the file operations work.
   */
  datatype IoFaults = IoFaults(lock: bool, encode: bool, temp: bool, copy: CopyFault, rename: bool)

  function CopyToBackup(main: Option<Image>, bak: Backup, fault: CopyFault): Backup {
    match main
    case None => bak
    case Some(img) =>
      match fault
      case CopyWorks => Whole(img)
      case CopyRefused => bak
      case CopyStopsHalfWay => Partial
  }

  /** The check made under the lock. */
  function WriteCheck(v: Unlocked, main: Option<Image>, creating: bool): Result<()> {
    if creating then
      if main.Some? then Err(AlreadyExists("vault file")) else Ok(())
    else
      var onDisk :- ReadHeader(main);
      if onDisk.generation != v.loadedGeneration then Err(Locked) else Ok(())
  }

  /** Whether a `write` of `v` goes through: the check passes, the header encodes and no call fails. */
  predicate Commits(v: Unlocked, main: Option<Image>, creating: bool, nonce: Bytes, io: IoFaults) {
    && io.lock && io.encode && io.temp && io.rename
    && WriteCheck(v, main, creating).Ok?
    && BuildImage(v, creating, nonce).Ok?
  }

  function BakAfter(v: Unlocked, main: Option<Image>, bak: Backup, creating: bool, nonce: Bytes, io: IoFaults): Backup {
    if io.lock && io.encode && io.temp && WriteCheck(v, main, creating).Ok? && BuildImage(v, creating, nonce).Ok?
    then CopyToBackup(main, bak, io.copy)
    else bak
  }

  class Disk {
    var main: Option<Image>
    var bak: Backup
    var locked: bool

    constructor ()
      ensures main == None && bak == Absent && !locked
    {
      main, bak, locked := None, Absent, false;
    }

    /** `file::lock`, which waits until the lock is free; it fails only if the lock file cannot be opened. */
    method Lock(ok: bool) returns (r: Result<()>)
      requires !locked
      modifies this`locked
      ensures r.Ok? == ok && locked == ok
    {
      if !ok { return Err(Io("open lock")); }
      locked := true;
      r := Ok(());
    }

    method Unlock()
      modifies this`locked
      ensures !locked
    {
      locked := false;
    }

    /** `write_atomic`: temp file, best-effort copy of the old file to `.bak`, rename. */
    method WriteAtomic(img: Image, io: IoFaults) returns (r: Result<()>)
      modifies this`main, this`bak
      ensures r.Ok? <==> io.temp && io.rename
      ensures main == if r.Ok? then Some(img) else old(main)
      ensures bak == if io.temp then CopyToBackup(old(main), old(bak), io.copy) else old(bak)
    {
      if !io.temp { return Err(Io("write temp")); }
      if main.Some? {
        match io.copy {
          case CopyWorks => bak := Whole(main.value);
          case CopyRefused =>
          case CopyStopsHalfWay => bak := Partial;
        }
      }
      if !io.rename { return Err(Io("replace")); }
      main := Some(img);
      r := Ok(());
    }
  }

  class UnlockedVault {
    var header: Header
    var body: VaultBody
    var dek: Dek
    var loadedGeneration: nat

    constructor (v: Unlocked)
      ensures Value() == v
    {
      header, body, dek, loadedGeneration := v.header, v.body, v.dek, v.loadedGeneration;
    }

    function Value(): Unlocked
      reads this
    {
      Unlocked(header, body, dek, loadedGeneration)
    }

    /**
     * `write`: on success the file is the image of this vault one generation on and the vault remembers
     * it; on any error neither the file nor the vault changes, and the lock is released either way.
     */
    method Write(disk: Disk, creating: bool, nonce: Bytes, io: IoFaults) returns (r: Result<()>)
      requires !disk.locked
      modifies this`header, this`loadedGeneration, disk
      ensures !disk.locked
      ensures r.Ok? <==> Commits(old(Value()), old(disk.main), creating, nonce, io)
      ensures r.Ok? ==>
                var img := BuildImage(old(Value()), creating, nonce).value;
                && disk.main == Some(img)
                && Value() == Saved(old(Value()), img)
      ensures r.Err? ==> disk.main == old(disk.main) && Value() == old(Value())
      ensures disk.bak == BakAfter(old(Value()), old(disk.main), old(disk.bak), creating, nonce, io)
      ensures io.lock && WriteCheck(old(Value()), old(disk.main), creating).Err? ==>
                r == WriteCheck(old(Value()), old(disk.main), creating)
    {
      var guard := disk.Lock(io.lock);
      if guard.Err? { return guard; }
      if !creating {
        var onDisk := ReadHeader(disk.main);
        if onDisk.Err? {
          disk.Unlock();
          return Err(onDisk.error);
        }
        if onDisk.value.generation != loadedGeneration {
          disk.Unlock();
          return Err(Locked);
        }
      } else if disk.main.Some? {
        disk.Unlock();
        return Err(AlreadyExists("vault file"));
      }
      var next := header;
      next := next.(generation := if creating then 1 else loadedGeneration + 1);
      next := next.(bodyNonce := nonce);
      var prefix := Validate(next);
      if prefix.Err? {
        disk.Unlock();
        return prefix;
      }
      if !io.encode {
        disk.Unlock();
        return Err(Integrity("header too large"));
      }
      var out := Image(next, BodyCt(dek, nonce, next, body));
      r := disk.WriteAtomic(out, io);
      if r.Err? {
        disk.Unlock();
        return;
      }
      header := next;
      loadedGeneration := header.generation;
      disk.Unlock();
    }

    /** `Ctx::save_dropping_backup`: removes the copy of the previous generation once the save succeeded. */
    method SaveDroppingBackup(disk: Disk, nonce: Bytes, io: IoFaults, removable: bool) returns (r: Result<()>)
      requires !disk.locked
      modifies this`header, this`loadedGeneration, disk
      ensures !disk.locked
      ensures r.Ok? <==> Commits(old(Value()), old(disk.main), false, nonce, io)
      ensures r.Err? ==> disk.main == old(disk.main) && Value() == old(Value())
      ensures r.Ok? ==>
                && disk.main == Some(BuildImage(old(Value()), false, nonce).value)
                && Value() == Saved(old(Value()), disk.main.value)
      ensures disk.bak == if r.Ok? && removable then Absent
                          else BakAfter(old(Value()), old(disk.main), old(disk.bak), false, nonce, io)
    {
      r := Write(disk, false, nonce, io);
      if r.Err? { return; }
      if removable { disk.bak := Absent; }
    }
  }
}
