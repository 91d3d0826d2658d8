/**
 * Key slots: copies of the vault key (DEK) wrapped under keys derived from a secret
 * (crates/wcm-core/src/slot/mod.rs).
 *
 * Cryptography is symbolic. A derived key is the term of everything it is derived from and a
 * ciphertext is the term of everything that was sealed, so keys are equal only for equal inputs and a
 * ciphertext opens only under its own key, nonce and associated data.
 */
module Slots {
  import opened Basics

  const VAULT_ID_LEN := 16
  const SALT_LEN := 32
  const NONCE_LEN := 24
  const CHALLENGE_LEN := 32

  type VaultId = v: Bytes | |v| == 16
    witness [0, 0, 0, 0, 0, 0, 0, 0, 0, 0, 0, 0, 0, 0, 0, 0]

  datatype SlotKind = Hello | Passphrase

  /** The numeric value that is part of the associated data. */
  function KindByte(k: SlotKind): Byte {
    if k.Hello? then 1 else 2
  }

  datatype Argon2Params = Argon2Params(mKib: nat, t: nat, p: nat)

  /** The parameters Argon2 accepts (section 3.1 of RFC 9106). */
  predicate ValidArgon2(a: Argon2Params) {
    1 <= a.t && 1 <= a.p < 0x100_0000 && 8 * a.p <= a.mKib
  }

  datatype SlotParams =
    | HelloParams(credName: string, challenge: Bytes, spki: Bytes, dpapi: bool, hwBacked: bool)
    | PassphraseParams(argon2: Argon2Params)
  {
    function Kind(): SlotKind {
      if HelloParams? then Hello else Passphrase
    }
  }

  /** Input keying material: an Argon2id output or a Windows Hello signature. */
  datatype Ikm =
    | Argon2Ikm(secret: string, salt: Bytes, params: Argon2Params)
    | SignatureIkm(signature: Bytes)

  datatype Kek = Kek(ikm: Ikm, salt: Bytes, info: Bytes)

  datatype Dek = Dek(id: nat)

  /** A wrapped DEK, possibly inside a DPAPI envelope. */
  datatype Blob =
    | Sealed(kek: Kek, nonce: Bytes, aad: Bytes, dek: Dek)
    | Protected(entropy: Bytes, inner: Blob)

  datatype KeySlot = KeySlot(
    id: Byte,
    slotLabel: string,
    salt: Bytes,
    nonce: Bytes,
    ct: Blob,
    params: SlotParams)
  {
    function Kind(): SlotKind { params.Kind() }
  }

  /** `identity`, or DPAPI, which fails where the platform or the user profile lacks it. */
  datatype Envelope = IdentityEnvelope | DpapiEnvelope(available: bool)

  function Protect(e: Envelope, vid: VaultId, data: Blob): Result<Blob> {
    match e
    case IdentityEnvelope => Ok(data)
    case DpapiEnvelope(available) =>
      if available then Ok(Protected(vid, data)) else Err(AuthUnavailable("DPAPI protect failed"))
  }

  function Unprotect(e: Envelope, vid: VaultId, data: Blob): Result<Blob> {
    match e
    case IdentityEnvelope => Ok(data)
    case DpapiEnvelope(available) =>
      if available && data.Protected? && data.entropy == vid then Ok(data.inner)
      else Err(AuthUnavailable("DPAPI unprotect failed"))
  }

  /** `b"wcm/v1/slot"` */
  const SLOT_AAD_TAG: Bytes := [0x77, 0x63, 0x6d, 0x2f, 0x76, 0x31, 0x2f, 0x73, 0x6c, 0x6f, 0x74]

  /** Associated data binding a wrapped DEK to its vault, slot id and kind. */
  function SlotAad(vid: VaultId, id: Byte, kind: SlotKind): Bytes {
    SLOT_AAD_TAG + vid + [id] + [KindByte(kind)]
  }

  /** `b"wcm/v1/kek/hello"` and `b"wcm/v1/kek/passphrase"` */
  const INFO_HELLO: Bytes := [0x77, 0x63, 0x6d, 0x2f, 0x76, 0x31, 0x2f, 0x6b, 0x65, 0x6b, 0x2f,
                              0x68, 0x65, 0x6c, 0x6c, 0x6f]
  const INFO_PASSPHRASE: Bytes := [0x77, 0x63, 0x6d, 0x2f, 0x76, 0x31, 0x2f, 0x6b, 0x65, 0x6b, 0x2f,
                                   0x70, 0x61, 0x73, 0x73, 0x70, 0x68, 0x72, 0x61, 0x73, 0x65]

  function InfoLabel(kind: SlotKind): Bytes {
    if kind.Hello? then INFO_HELLO else INFO_PASSPHRASE
  }

  function DeriveKek(ikm: Ikm, salt: Bytes, kind: SlotKind, vid: VaultId): Kek {
    Kek(ikm, salt, InfoLabel(kind) + vid)
  }

  function OpenBlob(kek: Kek, nonce: Bytes, aad: Bytes, blob: Blob): Result<Dek> {
    if blob.Sealed? && blob.kek == kek && blob.nonce == nonce && blob.aad == aad then Ok(blob.dek)
    else Err(Integrity("AEAD authentication failed"))
  }

  /** The part of `seal_slot` after the backend has produced `params` and `ikm`. */
  function WrapSlot(id: Byte, slotLabel: string, params: SlotParams, ikm: Ikm, salt: Bytes, nonce: Bytes,
                    env: Envelope, vid: VaultId, dek: Dek): Result<KeySlot>
  {
    var kek := DeriveKek(ikm, salt, params.Kind(), vid);
    var ct :- Protect(env, vid, Sealed(kek, nonce, SlotAad(vid, id, params.Kind()), dek));
    Ok(KeySlot(id, slotLabel, salt, nonce, ct, params))
  }

  /** The part of `open_slot` after the backend has produced `ikm`. */
  function UnwrapSlot(slot: KeySlot, ikm: Ikm, env: Envelope, vid: VaultId): Result<Dek> {
    var kek := DeriveKek(ikm, slot.salt, slot.Kind(), vid);
    var wrapped :- Unprotect(env, vid, slot.ct);
    OpenBlob(kek, slot.nonce, SlotAad(vid, slot.id, slot.Kind()), wrapped)
  }

  /** The length checks of `open_slot`. */
  predicate WellSized(slot: KeySlot) {
    |slot.salt| == SALT_LEN && |slot.nonce| == NONCE_LEN
  }

  /** Secret the passphrase backend uses: the given one, else whatever the prompt answers. */
  function ResolveSecret(secret: Option<string>, allowUi: bool, prompt: Result<string>): Result<string> {
    match secret
    case Some(s) => Ok(s)
    case None => if !allowUi then Err(AuthUnavailable("passphrase required")) else prompt
  }

  function PassphraseIkm(secret: string, salt: Bytes, params: Argon2Params): Result<Ikm> {
    if ValidArgon2(params) then Ok(Argon2Ikm(secret, salt, params)) else Err(Invalid("invalid argon2 params"))
  }

  /** `open_slot` with the passphrase backend holding `secret`. */
  function OpenWithSecret(slot: KeySlot, secret: string, vid: VaultId): Result<Dek> {
    if !slot.Kind().Passphrase? then Err(Invalid("backend kind"))
    else if !WellSized(slot) then Err(Integrity("slot salt or nonce length"))
    else
      var ikm :- PassphraseIkm(secret, slot.salt, slot.params.argon2);
      UnwrapSlot(slot, ikm, IdentityEnvelope, vid)
  }

  /** `seal_slot` with the passphrase backend holding `secret`. */
  function SealWithSecret(id: Byte, slotLabel: string, secret: string, params: Argon2Params, salt: Bytes,
                          nonce: Bytes, vid: VaultId, dek: Dek): Result<KeySlot>
  {
    if secret == "" then Err(Invalid("passphrase must not be empty"))
    else
      var ikm :- PassphraseIkm(secret, salt, params);
      WrapSlot(id, slotLabel, PassphraseParams(params), ikm, salt, nonce, IdentityEnvelope, vid, dek)
  }

  // ---------------------------------------------------------------------------
  // Binding
  // ---------------------------------------------------------------------------

  /** The associated data determines vault, id and kind: its layout has no ambiguity. */
  lemma SlotAadInjective(v: VaultId, i: Byte, k: SlotKind, v': VaultId, i': Byte, k': SlotKind)
    ensures SlotAad(v, i, k) == SlotAad(v', i', k') <==> v == v' && i == i' && k == k'
  {
    var a, b := SlotAad(v, i, k), SlotAad(v', i', k');
    assert a[11..27] == v && a[27] == i && a[28] == KindByte(k);
    assert b[11..27] == v' && b[27] == i' && b[28] == KindByte(k');
  }

  /** Two derivation contexts agree only for the same kind and vault, although the labels are not prefix free. */
  lemma InfoInjective(k: SlotKind, v: VaultId, k': SlotKind, v': VaultId)
    ensures InfoLabel(k) + v == InfoLabel(k') + v' <==> k == k' && v == v'
  {
    var a, b := InfoLabel(k) + v, InfoLabel(k') + v';
    assert |a| == |InfoLabel(k)| + 16 && |b| == |InfoLabel(k')| + 16;
    if a == b {
      assert |INFO_HELLO| == 16 && |INFO_PASSPHRASE| == 21;
      assert a[|InfoLabel(k)|..] == v && b[|InfoLabel(k')|..] == v';
    }
  }

  /** Whether sealing and opening use the same envelope, and it works. */
  predicate SameEnvelope(sealEnv: Envelope, openEnv: Envelope) {
    match openEnv
    case IdentityEnvelope => sealEnv.IdentityEnvelope?
    case DpapiEnvelope(available) => sealEnv.DpapiEnvelope? && available
  }

  /**
   * A sealed DEK comes back out of exactly the slots that kept everything it was bound to, whatever
   * else of the slot was edited; anything else is refused. The label is not bound.
   */
  lemma UnwrapIffBound(id: Byte, slotLabel: string, params: SlotParams, ikm: Ikm, salt: Bytes, nonce: Bytes,
                       env: Envelope, vid: VaultId, dek: Dek,
                       slot: KeySlot, ikm': Ikm, env': Envelope, vid': VaultId)
    requires WrapSlot(id, slotLabel, params, ikm, salt, nonce, env, vid, dek).Ok?
    requires slot.ct == WrapSlot(id, slotLabel, params, ikm, salt, nonce, env, vid, dek).value.ct
    ensures UnwrapSlot(slot, ikm', env', vid').Ok? <==>
              && slot.id == id && slot.Kind() == params.Kind() && slot.salt == salt && slot.nonce == nonce
              && ikm' == ikm && vid' == vid && SameEnvelope(env, env')
    ensures UnwrapSlot(slot, ikm', env', vid').Ok? ==> UnwrapSlot(slot, ikm', env', vid') == Ok(dek)
    ensures env' == env ==> UnwrapSlot(slot, ikm', env', vid').Ok? || vid' != vid ||
                            UnwrapSlot(slot, ikm', env', vid').error.Integrity?
  {
    SlotAadInjective(vid, id, params.Kind(), vid', slot.id, slot.Kind());
    InfoInjective(params.Kind(), vid, slot.Kind(), vid');
  }

  /** A passphrase slot opens with the secret it was sealed with and with no other. */
  lemma SecretOpensIff(id: Byte, slotLabel: string, secret: string, params: Argon2Params, salt: Bytes,
                       nonce: Bytes, vid: VaultId, dek: Dek, attempt: string)
    requires |salt| == SALT_LEN && |nonce| == NONCE_LEN
    requires SealWithSecret(id, slotLabel, secret, params, salt, nonce, vid, dek).Ok?
    ensures var slot := SealWithSecret(id, slotLabel, secret, params, salt, nonce, vid, dek).value;
            && (attempt == secret ==> OpenWithSecret(slot, attempt, vid) == Ok(dek))
            && (attempt != secret ==> OpenWithSecret(slot, attempt, vid).Err?
                                      && OpenWithSecret(slot, attempt, vid).error.Integrity?)
  {
  }

  /** The DEK inside a wrapped blob, whatever envelope surrounds it. */
  ghost function Core(blob: Blob): Blob {
    match blob
    case Sealed(_, _, _, _) => blob
    case Protected(_, inner) => Core(inner)
  }

  /** `slot` wraps `dek` for vault `vid`: what every slot of a header owes its vault. */
  ghost predicate Wraps(slot: KeySlot, vid: VaultId, dek: Dek) {
    && WellSized(slot)
    && var c := Core(slot.ct);
    && c.Sealed?
    && c.dek == dek
    && c.nonce == slot.nonce
    && c.aad == SlotAad(vid, slot.id, slot.Kind())
    && c.kek.salt == slot.salt
    && c.kek.info == InfoLabel(slot.Kind()) + vid
  }

  ghost predicate AllWrap(slots: seq<KeySlot>, vid: VaultId, dek: Dek) {
    forall s | s in slots :: Wraps(s, vid, dek)
  }

  lemma WrapSlotWraps(id: Byte, slotLabel: string, params: SlotParams, ikm: Ikm, salt: Bytes, nonce: Bytes,
                      env: Envelope, vid: VaultId, dek: Dek)
    requires |salt| == SALT_LEN && |nonce| == NONCE_LEN
    requires WrapSlot(id, slotLabel, params, ikm, salt, nonce, env, vid, dek).Ok?
    ensures Wraps(WrapSlot(id, slotLabel, params, ikm, salt, nonce, env, vid, dek).value, vid, dek)
  {
  }

  /** Whatever opens a slot yields the DEK it wraps. */
  lemma UnwrapYieldsWrapped(slot: KeySlot, ikm: Ikm, env: Envelope, vid: VaultId, dek: Dek)
    requires Wraps(slot, vid, dek) && UnwrapSlot(slot, ikm, env, vid).Ok?
    ensures UnwrapSlot(slot, ikm, env, vid) == Ok(dek)
  {
    if slot.ct.Protected? {
      assert Core(slot.ct.inner) == slot.ct.inner;
    }
  }

  // ---------------------------------------------------------------------------
  // What the labels spell
  // ---------------------------------------------------------------------------

  /** The bytes of an ASCII text. */
  function Ascii(s: string): (b: Bytes)
    requires forall i | 0 <= i < |s| :: s[i] as int < 128
  {
    seq(|s|, i requires 0 <= i < |s| => s[i] as int)
  }

  /** The associated data of a slot and the derivation contexts, as the file format writes them. */
  lemma BindingsSpell(vid: VaultId, id: Byte, kind: SlotKind)
    ensures SlotAad(vid, id, kind) == Ascii("wcm/v1/slot") + vid + [id, if kind.Hello? then 1 else 2]
    ensures InfoLabel(SlotKind.Hello) == Ascii("wcm/v1/kek/hello")
    ensures InfoLabel(SlotKind.Passphrase) == Ascii("wcm/v1/kek/passphrase")
  {
  }

  /** A blob inside a DPAPI envelope that cannot be opened here makes the slot unavailable, not damaged. */
  lemma DpapiRefuses(slot: KeySlot, ikm: Ikm, available: bool, vid: VaultId)
    requires !available || !slot.ct.Protected? || slot.ct.entropy != vid
    ensures var r := UnwrapSlot(slot, ikm, DpapiEnvelope(available), vid);
            r.Err? && r.error.AuthUnavailable?
  {
  }

  /** Sealing fails only for an empty secret, unusable Argon2 parameters, or where DPAPI does not work. */
  lemma SealsIff(id: Byte, slotLabel: string, secret: string, argon2: Argon2Params, params: SlotParams, ikm: Ikm,
                 salt: Bytes, nonce: Bytes, env: Envelope, vid: VaultId, dek: Dek)
    ensures var r := SealWithSecret(id, slotLabel, secret, argon2, salt, nonce, vid, dek);
            && (r.Ok? <==> secret != "" && 1 <= argon2.t && 1 <= argon2.p < 16777216 && 8 * argon2.p <= argon2.mKib)
            && (r.Err? ==> r.error.Invalid?)
    ensures var r := WrapSlot(id, slotLabel, params, ikm, salt, nonce, env, vid, dek);
            && (r.Ok? <==> env != DpapiEnvelope(false)) && (r.Err? ==> r.error.AuthUnavailable?)
            && (r.Ok? ==> (r.value.ct.Protected? <==> env == DpapiEnvelope(true)))
  {
  }
}
