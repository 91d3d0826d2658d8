/**
 * Opening and sealing slots through a backend, and the two loops that unlock a vault
 * (crates/wcm-core/src/slot, crates/wcm-core/src/vault/mod.rs and crates/wcm-cli/src/context.rs).
 */
module Unlock {
  import opened Basics
  import opened Body
  import opened Slots
  import opened Header
  import opened Vault
  import Hello

  /** What a command hands to a backend; `prompt` is what the user answers when asked for a secret. */
  datatype UnlockContext = UnlockContext(vaultId: VaultId, allowUi: bool, prompt: Result<string>)

  /** The thread-local through which a passphrase backend learns the salt of the slot at hand. */
  class Thread {
    var currentSalt: Option<Bytes>

    constructor ()
      ensures currentSalt == None
    {
      currentSalt := None;
    }
  }

  class PassphraseBackend {
    const params: Argon2Params
    var secret: Option<string>

    constructor (params: Argon2Params, secret: Option<string>)
      ensures this.params == params && this.secret == secret
    {
      this.params, this.secret := params, secret;
    }

    method IkmFor(t: Thread, secret: string, params: Argon2Params) returns (r: Result<Ikm>)
      ensures r == SaltedIkm(t.currentSalt, secret, params)
    {
      match t.currentSalt {
        case None => r := Err(Other("passphrase backend used outside seal/open"));
        case Some(salt) => r := PassphraseIkm(secret, salt, params);
      }
    }

    method Enroll(t: Thread, ctx: UnlockContext) returns (r: Result<(SlotParams, Ikm)>)
      ensures r == EnrollIkm(secret, params, t.currentSalt, ctx)
    {
      var s := ResolveSecret(secret, ctx.allowUi, ctx.prompt);
      if s.Err? { return Err(s.error); }
      if s.value == "" { return Err(Invalid("passphrase must not be empty")); }
      var ikm := IkmFor(t, s.value, params);
      r := if ikm.Err? then Err(ikm.error) else Ok((PassphraseParams(params), ikm.value));
    }

    method Open(t: Thread, ctx: UnlockContext, params: SlotParams) returns (r: Result<Ikm>)
      ensures r == OpenIkm(secret, params, t.currentSalt, ctx)
    {
      if !params.PassphraseParams? { return Err(Invalid("non-passphrase slot params")); }
      var s := ResolveSecret(secret, ctx.allowUi, ctx.prompt);
      if s.Err? { return Err(s.error); }
      r := IkmFor(t, s.value, params.argon2);
    }
  }

  /** The key material under the salt in the thread-local. */
  function SaltedIkm(salt: Option<Bytes>, secret: string, params: Argon2Params): Result<Ikm> {
    if salt.None? then Err(Other("passphrase backend used outside seal/open"))
    else PassphraseIkm(secret, salt.value, params)
  }

  function EnrollIkm(secret: Option<string>, params: Argon2Params, salt: Option<Bytes>, ctx: UnlockContext)
    : Result<(SlotParams, Ikm)>
  {
    var s :- ResolveSecret(secret, ctx.allowUi, ctx.prompt);
    if s == "" then Err(Invalid("passphrase must not be empty"))
    else
      var ikm :- SaltedIkm(salt, s, params);
      Ok((PassphraseParams(params), ikm))
  }

  function OpenIkm(secret: Option<string>, params: SlotParams, salt: Option<Bytes>, ctx: UnlockContext): Result<Ikm> {
    if !params.PassphraseParams? then Err(Invalid("non-passphrase slot params"))
    else
      var s :- ResolveSecret(secret, ctx.allowUi, ctx.prompt);
      SaltedIkm(salt, s, params.argon2)
  }

  /**
   * Opening with what an enrolment returned gives the enrolled key material if and only if secret and salt
   * are the same again, wherever the secret comes from, and whatever parameters the opening backend has.
   */
  lemma OpenIkmIff(secret: Option<string>, params: Argon2Params, salt: Option<Bytes>, ctx: UnlockContext,
                   secret': Option<string>, salt': Option<Bytes>, ctx': UnlockContext)
    requires EnrollIkm(secret, params, salt, ctx).Ok?
    ensures var (slotParams, ikm) := EnrollIkm(secret, params, salt, ctx).value;
            OpenIkm(secret', slotParams, salt', ctx') == Ok(ikm) <==>
              && ResolveSecret(secret', ctx'.allowUi, ctx'.prompt) == ResolveSecret(secret, ctx.allowUi, ctx.prompt)
              && salt' == salt
  {
  }

  datatype Backend =
    | HelloBackend(hello: Hello.HelloBackend)
    | UnsupportedBackend
    | Passphrases(backend: PassphraseBackend)
  {
    function Kind(): SlotKind { if Passphrases? then Passphrase else SlotKind.Hello }

    /** The outside state a call to this backend may touch. */
    function Touches(): set<object> { if HelloBackend? then {hello.api} else {} }
  }

  /** `open_slot` with a passphrase backend whose preset secret is `secret`. */
  function OpenPassphrase(slot: KeySlot, secret: Option<string>, ctx: UnlockContext): Result<Dek> {
    if !slot.Kind().Passphrase? then Err(Invalid("backend kind"))
    else if !WellSized(slot) then Err(Integrity("slot salt or nonce length"))
    else
      var s :- ResolveSecret(secret, ctx.allowUi, ctx.prompt);
      OpenWithSecret(slot, s, ctx.vaultId)
  }

  /** `open_slot` with a Hello backend, from the log of its credential API. */
  function OpenHello(b: Hello.HelloBackend, log: seq<Hello.Call>, slot: KeySlot, env: Envelope, ctx: UnlockContext)
    : (seq<Hello.Call>, Result<Dek>)
  {
    if !slot.Kind().Hello? then (log, Err(Invalid("backend kind")))
    else if !WellSized(slot) then (log, Err(Integrity("slot salt or nonce length")))
    else
      var (log', sig) := Hello.OpenRun(b.api.oracle, log, b.scheme, b.cfg, ctx.allowUi, slot.params);
      (log', if sig.Err? then Err(sig.error) else UnwrapSlot(slot, SignatureIkm(sig.value), env, ctx.vaultId))
  }

  /** `open_slot` where Windows Hello does not exist. */
  function OpenUnsupported(slot: KeySlot): Result<Dek> {
    if !slot.Kind().Hello? then Err(Invalid("backend kind"))
    else if !WellSized(slot) then Err(Integrity("slot salt or nonce length"))
    else Err(AuthUnavailable("Windows Hello is only available on Windows"))
  }

  /** `open_slot`: the salt is visible to the backend only during its call. */
  method OpenSlot(t: Thread, slot: KeySlot, backend: Backend, env: Envelope,
                  ctx: UnlockContext) returns (r: Result<Dek>)
    requires t.currentSalt == None && (backend.Passphrases? ==> env.IdentityEnvelope?)
    modifies t, backend.Touches()
    ensures t.currentSalt == None
    ensures backend.Passphrases? ==> r == OpenPassphrase(slot, backend.backend.secret, ctx)
    ensures backend.HelloBackend? ==>
              (backend.hello.api.log, r) == OpenHello(backend.hello, old(backend.hello.api.log), slot, env, ctx)
    ensures backend.UnsupportedBackend? ==> r == OpenUnsupported(slot)
  {
    if backend.Kind() != slot.Kind() { return Err(Invalid("backend kind")); }
    if !WellSized(slot) { return Err(Integrity("slot salt or nonce length")); }
    t.currentSalt := Some(slot.salt);
    var ikm: Result<Ikm>;
    match backend {
      case HelloBackend(b) =>
        var sig := b.Open(ctx.allowUi, slot.params);
        ikm := if sig.Err? then Err(sig.error) else Ok(SignatureIkm(sig.value));
      case UnsupportedBackend => ikm := Err(AuthUnavailable("Windows Hello is only available on Windows"));
      case Passphrases(b) => ikm := b.Open(t, ctx, slot.params);
    }
    t.currentSalt := None;
    if ikm.Err? { return Err(ikm.error); }
    r := UnwrapSlot(slot, ikm.value, env, ctx.vaultId);
  }

  /** `seal_slot`, with the random bytes it draws as parameters. */
  method SealSlot(t: Thread, id: Byte, slotLabel: string, backend: Backend, env: Envelope, ctx: UnlockContext, dek: Dek,
                  salt: Bytes, nonce: Bytes, challenge: Bytes) returns (r: Result<KeySlot>)
    requires t.currentSalt == None && |salt| == SALT_LEN && |nonce| == NONCE_LEN
    requires backend.Passphrases? ==> env.IdentityEnvelope?
    modifies t, backend.Touches()
    ensures t.currentSalt == None
    ensures r.Ok? ==> Wraps(r.value, ctx.vaultId, dek) && r.value.id == id && r.value.slotLabel == slotLabel
                      && r.value.Kind() == backend.Kind()
    ensures backend.UnsupportedBackend? ==> r.Err? && r.error.AuthUnavailable?
    ensures backend.Passphrases? ==>
              var s := ResolveSecret(backend.backend.secret, ctx.allowUi, ctx.prompt);
              && r == (if s.Err? then Err(s.error)
                       else SealWithSecret(id, slotLabel, s.value, backend.backend.params, salt, nonce, ctx.vaultId,
                                           dek))
              && (r.Ok? ==> OpenPassphrase(r.value, backend.backend.secret, ctx) == Ok(dek))
    ensures backend.HelloBackend? ==>
              var b := backend.hello;
              var (log', e) := Hello.EnrollRun(b.api.oracle, old(b.api.log), b.scheme, b.cfg, ctx.vaultId, ctx.allowUi,
                                               challenge);
              && b.api.log == log'
              && r == if e.Err? then Err(e.error)
                      else WrapSlot(id, slotLabel, e.value.0, SignatureIkm(e.value.1), salt, nonce, env, ctx.vaultId,
                                    dek)
  {
    t.currentSalt := Some(salt);
    var enrolled: Result<(SlotParams, Ikm)>;
    match backend {
      case HelloBackend(b) =>
        var e := b.Enroll(ctx.vaultId, ctx.allowUi, challenge);
        enrolled := if e.Err? then Err(e.error) else Ok((e.value.0, SignatureIkm(e.value.1)));
      case UnsupportedBackend => enrolled := Err(AuthUnavailable("Windows Hello is only available on Windows"));
      case Passphrases(b) => enrolled := b.Enroll(t, ctx);
    }
    t.currentSalt := None;
    if enrolled.Err? { return Err(enrolled.error); }
    var (params, ikm) := enrolled.value;
    r := WrapSlot(id, slotLabel, params, ikm, salt, nonce, env, ctx.vaultId, dek);
    if r.Ok? {
      WrapSlotWraps(id, slotLabel, params, ikm, salt, nonce, env, ctx.vaultId, dek);
      UnwrapIffBound(id, slotLabel, params, ikm, salt, nonce, env, ctx.vaultId, dek, r.value, ikm, env, ctx.vaultId);
    }
  }

  // ---------------------------------------------------------------------------
  // Slot order
  // ---------------------------------------------------------------------------

  function OtherSlots(slots: seq<KeySlot>, preferred: string): seq<KeySlot> {
    if slots == [] then []
    else if slots[0].slotLabel != preferred then [slots[0]] + OtherSlots(slots[1..], preferred)
    else OtherSlots(slots[1..], preferred)
  }

  /** The order in which `unlock` tries the slots. */
  function Order(slots: seq<KeySlot>, preferred: Option<string>): Result<seq<KeySlot>> {
    match preferred
    case None => Ok(slots)
    case Some(p) =>
      match SlotByLabel(slots, p)
      case None => Err(Invalid("no key slot with this label"))
      case Some(s) => Ok([s] + OtherSlots(slots, p))
  }

  function CountLabel(slots: seq<KeySlot>, p: string): nat {
    if slots == [] then 0 else (if slots[0].slotLabel == p then 1 else 0) + CountLabel(slots[1..], p)
  }

  lemma {:induction false} OtherSlotsCount(slots: seq<KeySlot>, p: string)
    ensures |OtherSlots(slots, p)| + CountLabel(slots, p) == |slots|
    ensures forall s | s in OtherSlots(slots, p) :: s.slotLabel != p
  {
    if slots != [] { OtherSlotsCount(slots[1..], p); }
  }

  lemma {:induction false} OneSlotSplit(slots: seq<KeySlot>, p: string)
    requires CountLabel(slots, p) <= 1
    ensures CountLabel(slots, p) == 0 ==> SlotByLabel(slots, p).None? && OtherSlots(slots, p) == slots
    ensures CountLabel(slots, p) == 1 ==>
              && SlotByLabel(slots, p).Some?
              && multiset(slots) == multiset([SlotByLabel(slots, p).value]) + multiset(OtherSlots(slots, p))
  {
    if slots != [] {
      OneSlotSplit(slots[1..], p);
      assert slots == [slots[0]] + slots[1..];
    }
  }

  /**
   * With a preferred label the slots are tried in a permutation of the header's that starts with the
   * preferred one: true exactly when one slot and no more carries the label.
   */
  lemma OrderIsPermutationIff(slots: seq<KeySlot>, p: string)
    requires SlotByLabel(slots, p).Some?
    ensures Order(slots, Some(p)).Ok? && Order(slots, Some(p)).value != []
    ensures Order(slots, Some(p)).value[0] == SlotByLabel(slots, p).value
    ensures multiset(Order(slots, Some(p)).value) == multiset(slots) <==> CountLabel(slots, p) == 1
  {
    OtherSlotsCount(slots, p);
    var o := Order(slots, Some(p)).value;
    if CountLabel(slots, p) <= 1 {
      OneSlotSplit(slots, p);
    } else {
      assert |o| < |slots|;
      assert |multiset(o)| == |o| && |multiset(slots)| == |slots|;
    }
  }

  lemma {:induction false} DistinctLabelCount(slots: seq<KeySlot>, k: nat)
    requires DistinctLabels(slots) && k < |slots|
    ensures SlotByLabel(slots, slots[k].slotLabel) == Some(slots[k])
  {
    if k > 0 {
      assert slots[0].slotLabel != slots[k].slotLabel;
      forall i, j | 0 <= i < j < |slots[1..]| ensures slots[1..][i].slotLabel != slots[1..][j].slotLabel {
        assert slots[i + 1].slotLabel != slots[j + 1].slotLabel;
      }
      DistinctLabelCount(slots[1..], k - 1);
    }
  }

  // ---------------------------------------------------------------------------
  // Vault::unlock
  // ---------------------------------------------------------------------------

  /** `CliResolver`, or with `skipHello` the resolver for export files. */
  datatype Resolver = Resolver(hello: Backend, passphrase: PassphraseBackend, dpapiAvailable: bool, skipHello: bool) {
    function Resolve(slot: KeySlot): Option<(Backend, Envelope)> {
      match slot.params
      case PassphraseParams(_) => Some((Passphrases(passphrase), IdentityEnvelope))
      case HelloParams(_, _, _, dpapi, _) =>
        if skipHello then None
        else Some((hello, if dpapi then DpapiEnvelope(dpapiAvailable) else IdentityEnvelope))
    }
  }

  /** What the backend has been asked so far, if it is one that asks. */
  function LogOf(b: Backend): seq<Hello.Call>
    reads b.Touches()
  {
    if b.HelloBackend? then b.hello.api.log else []
  }

  /** Trying one slot: the calls so far and the answer; none if there is no backend for the slot. */
  function Attempt(resolver: Resolver, secret: Option<string>, log: seq<Hello.Call>, slot: KeySlot, ctx: UnlockContext)
    : (seq<Hello.Call>, Option<Result<Dek>>)
  {
    match slot.params
    case PassphraseParams(_) => (log, Some(OpenPassphrase(slot, secret, ctx)))
    case HelloParams(_, _, _, dpapi, _) =>
      if resolver.skipHello || resolver.hello.Passphrases? then (log, None)
      else if resolver.hello.UnsupportedBackend? then (log, Some(OpenUnsupported(slot)))
      else
        var env := if dpapi then DpapiEnvelope(resolver.dpapiAvailable) else IdentityEnvelope;
        var (log', r) := OpenHello(resolver.hello.hello, log, slot, env, ctx);
        (log', Some(r))
  }

  /** Whether the loop stops at this answer: everything but an unavailable slot. */
  predicate Decides(attempt: Option<Result<Dek>>) {
    attempt.Some? && (attempt.value.Ok? || !attempt.value.error.AuthUnavailable?)
  }

  /** The slots in turn, until an answer decides. */
  function TryRun(main: Option<Image>, resolver: Resolver, secret: Option<string>, log: seq<Hello.Call>,
                  order: seq<KeySlot>, ctx: UnlockContext): (seq<Hello.Call>, Result<Unlocked>)
    decreases |order|
  {
    if order == [] then (log, Err(AuthUnavailable("no usable key slot")))
    else
      var (log', attempt) := Attempt(resolver, secret, log, order[0], ctx);
      if !Decides(attempt) then TryRun(main, resolver, secret, log', order[1..], ctx)
      else if attempt.value.Ok? then (log', OpenWithDek(main, attempt.value.value))
      else (log', Err(attempt.value.error))
  }

  /**
   * All of `unlock`, from what its two reads of the file find, the preset secret and the calls so far. The
   * slots come from the first read, header and body from the second.
   */
  function UnlockRun(first: Option<Image>, second: Option<Image>, resolver: Resolver, secret: Option<string>,
                     log: seq<Hello.Call>, ctx: UnlockContext, preferred: Option<string>)
    : (seq<Hello.Call>, Result<Unlocked>)
  {
    match ReadHeader(first)
    case Err(e) => (log, Err(e))
    case Ok(h) =>
      if h.vaultId != ctx.vaultId then (log, Err(Invalid("unlock context vault id")))
      else
        match Order(h.slots, preferred)
        case Err(e) => (log, Err(e))
        case Ok(order) => TryRun(second, resolver, secret, log, order, ctx)
  }

  /** The first half of `unlock`: the preferred slot, then every slot with another label. */
  method OrderSlots(slots: seq<KeySlot>, preferred: Option<string>) returns (r: Result<seq<KeySlot>>)
    ensures r == Order(slots, preferred)
  {
    var ordered: seq<KeySlot> := [];
    if preferred.Some? {
      match SlotByLabel(slots, preferred.value) {
        case Some(s) => ordered := ordered + [s];
        case None => return Err(Invalid("no key slot with this label"));
      }
    }
    ghost var start := ordered;
    for i := 0 to |slots|
      invariant ordered == start + (if preferred.Some? then OtherSlots(slots[..i], preferred.value) else slots[..i])
    {
      if preferred != Some(slots[i].slotLabel) { ordered := ordered + [slots[i]]; }
      if preferred.Some? { OtherSlotsSnoc(slots, i, preferred.value); }
    }
    assert slots[..|slots|] == slots;
    assert start == if preferred.Some? then [SlotByLabel(slots, preferred.value).value] else [];
    assert preferred.None? ==> ordered == slots;
    r := Ok(ordered);
  }

  /** The second half: the first slot that is not unavailable decides. */
  method TryInOrder(t: Thread, second: Option<Image>, resolver: Resolver, ctx: UnlockContext,
                    ordered: seq<KeySlot>)
    returns (r: Result<Unlocked>)
    requires t.currentSalt == None && !resolver.hello.Passphrases?
    requires {resolver.passphrase as object} !! {t} + resolver.hello.Touches()
    modifies t, resolver.hello.Touches()
    ensures t.currentSalt == None
    ensures (LogOf(resolver.hello), r)
         == TryRun(second, resolver, resolver.passphrase.secret, old(LogOf(resolver.hello)), ordered, ctx)
  {
    ghost var log0 := LogOf(resolver.hello);
    for i := 0 to |ordered|
      invariant t.currentSalt == None
      invariant TryRun(second, resolver, resolver.passphrase.secret, log0, ordered, ctx)
             == TryRun(second, resolver, resolver.passphrase.secret, LogOf(resolver.hello), ordered[i..], ctx)
    {
      var slot := ordered[i];
      assert ordered[i..][0] == slot && ordered[i..][1..] == ordered[i + 1..];
      match resolver.Resolve(slot) {
        case None =>
        case Some((backend, envelope)) =>
          var dek := OpenSlot(t, slot, backend, envelope, ctx);
          if dek.Ok? {
            r := OpenWithDek(second, dek.value);
            return;
          }
          if !dek.error.AuthUnavailable? { return Err(dek.error); }
      }
    }
    assert ordered[|ordered|..] == [];
    r := Err(AuthUnavailable("no usable key slot"));
  }

  /** `Vault::unlock`, its two reads of the file finding `first` and `second`. */
  method UnlockVault(t: Thread, first: Option<Image>, second: Option<Image>, resolver: Resolver, ctx: UnlockContext,
                     preferred: Option<string>)
    returns (r: Result<Unlocked>)
    requires t.currentSalt == None && !resolver.hello.Passphrases?
    requires {resolver.passphrase as object} !! {t} + resolver.hello.Touches()
    modifies t, resolver.hello.Touches()
    ensures t.currentSalt == None
    ensures (LogOf(resolver.hello), r)
         == UnlockRun(first, second, resolver, resolver.passphrase.secret, old(LogOf(resolver.hello)), ctx, preferred)
  {
    var header := ReadHeader(first);
    if header.Err? { return Err(header.error); }
    if header.value.vaultId != ctx.vaultId { return Err(Invalid("unlock context vault id")); }
    var ordered := OrderSlots(header.value.slots, preferred);
    if ordered.Err? { return Err(ordered.error); }
    r := TryInOrder(t, second, resolver, ctx, ordered.value);
  }

  lemma {:induction false} TryYieldsTheVault(second: Option<Image>, resolver: Resolver, secret: Option<string>,
                                             log: seq<Hello.Call>, order: seq<KeySlot>, ctx: UnlockContext, dek: Dek)
    requires AllWrap(order, ctx.vaultId, dek)
    requires TryRun(second, resolver, secret, log, order, ctx).1.Ok?
    ensures TryRun(second, resolver, secret, log, order, ctx).1 == OpenWithDek(second, dek)
    decreases |order|
  {
    var slot := order[0];
    var (log', attempt) := Attempt(resolver, secret, log, slot, ctx);
    if Decides(attempt) {
      OpenedIsWrapped(resolver, secret, log, slot, ctx, dek);
    } else {
      TryYieldsTheVault(second, resolver, secret, log', order[1..], ctx, dek);
    }
  }

  /** Whatever the backends answer, a slot that opens yields the key it wraps. */
  lemma OpenedIsWrapped(resolver: Resolver, secret: Option<string>, log: seq<Hello.Call>, slot: KeySlot,
                        ctx: UnlockContext, dek: Dek)
    requires Wraps(slot, ctx.vaultId, dek)
    ensures var a := Attempt(resolver, secret, log, slot, ctx).1;
            a.Some? && a.value.Ok? ==> a.value.value == dek
  {
    match slot.params
    case PassphraseParams(argon2) =>
      var s := ResolveSecret(secret, ctx.allowUi, ctx.prompt);
      if OpenPassphrase(slot, secret, ctx).Ok? {
        UnwrapYieldsWrapped(slot, Argon2Ikm(s.value, slot.salt, argon2), IdentityEnvelope, ctx.vaultId, dek);
      }
    case HelloParams(_, _, _, dpapi, _) =>
      if resolver.hello.HelloBackend? {
        var b := resolver.hello.hello;
        var env := if dpapi then DpapiEnvelope(resolver.dpapiAvailable) else IdentityEnvelope;
        var sig := Hello.OpenRun(b.api.oracle, log, b.scheme, b.cfg, ctx.allowUi, slot.params).1;
        if OpenHello(b, log, slot, env, ctx).1.Ok? {
          UnwrapYieldsWrapped(slot, SignatureIkm(sig.value), env, ctx.vaultId, dek);
        }
      }
  }

  lemma {:induction false} OtherSlotsWrap(slots: seq<KeySlot>, p: string, vid: VaultId, dek: Dek)
    requires AllWrap(slots, vid, dek)
    ensures AllWrap(OtherSlots(slots, p), vid, dek)
    ensures SlotByLabel(slots, p).Some? ==> Wraps(SlotByLabel(slots, p).value, vid, dek)
  {
    if slots != [] { OtherSlotsWrap(slots[1..], p, vid, dek); }
  }

  /**
   * Whatever the credential API, the user and the preferred label are, an `unlock` that succeeds on sound
   * files returns the file of its second read, whole, and that file has the key of the first.
   */
  lemma UnlockYieldsTheVault(first: Image, second: Image, resolver: Resolver, secret: Option<string>,
                             log: seq<Hello.Call>, ctx: UnlockContext, preferred: Option<string>)
    requires SealedImage(first) && AllWrap(first.header.slots, first.header.vaultId, first.ct.key)
    requires SealedImage(second)
    requires UnlockRun(Some(first), Some(second), resolver, secret, log, ctx, preferred).1.Ok?
    ensures first.ct.key == second.ct.key
    ensures UnlockRun(Some(first), Some(second), resolver, secret, log, ctx, preferred).1
         == Ok(Unlocked(second.header, second.ct.plaintext, second.ct.key, second.header.generation))
  {
    var slots := first.header.slots;
    if preferred.Some? { OtherSlotsWrap(slots, preferred.value, first.header.vaultId, first.ct.key); }
    TryYieldsTheVault(Some(second), resolver, secret, log, Order(slots, preferred).value, ctx, first.ct.key);
    OpenSealedIff(second, first.ct.key);
  }

  lemma {:induction false} OtherSlotsSnoc(slots: seq<KeySlot>, i: nat, p: string)
    requires i < |slots|
    ensures OtherSlots(slots[..i + 1], p) ==
      OtherSlots(slots[..i], p) + (if slots[i].slotLabel != p then [slots[i]] else [])
    decreases i
  {
    if i > 0 {
      OtherSlotsSnoc(slots[1..], i - 1, p);
      assert slots[..i + 1][1..] == slots[1..][..i] && slots[..i][1..] == slots[1..][..i - 1];
    }
  }

  // ---------------------------------------------------------------------------
  // Ctx::unlock with a secret from the environment
  // ---------------------------------------------------------------------------

  /** One attempt of the loop: the vault opened with `secret` through this very slot. */
  function OpenThrough(main: Option<Image>, slot: KeySlot, secret: string, vid: VaultId): Result<Unlocked> {
    var dek :- OpenWithSecret(slot, secret, vid);
    OpenWithDek(main, dek)
  }

  /** The passphrase slots in turn: a wrong secret means "not this slot", anything else ends the loop. */
  function TryEach(main: Option<Image>, slots: seq<KeySlot>, secret: string, vid: VaultId, last: Option<Error>)
    : Option<Result<Unlocked>>
    decreases |slots|
  {
    if slots == [] then
      if last.Some? then Some(Err(last.value)) else None
    else if !slots[0].Kind().Passphrase? then TryEach(main, slots[1..], secret, vid, last)
    else
      var r := OpenThrough(main, slots[0], secret, vid);
      if r.Err? && r.error.Integrity? then TryEach(main, slots[1..], secret, vid, Some(r.error)) else Some(r)
  }

  ghost predicate SoundParams(slots: seq<KeySlot>) {
    forall s | s in slots && s.params.PassphraseParams? :: ValidArgon2(s.params.argon2)
  }

  lemma {:induction false} TryEachIff(main: Option<Image>, slots: seq<KeySlot>, secret: string, vid: VaultId,
                                      last: Option<Error>)
    requires SoundParams(slots) && ReadImage(main).Ok? && (last.Some? ==> last.value.Integrity?)
    requires last.Some? || exists s | s in slots :: s.Kind().Passphrase?
    ensures TryEach(main, slots, secret, vid, last).Some?
    ensures var r := TryEach(main, slots, secret, vid, last).value;
            && (r.Ok? <==> exists s | s in slots :: s.Kind().Passphrase? && OpenThrough(main, s, secret, vid).Ok?)
            && (r.Err? ==> r.error.Integrity?)
            && (r.Ok? ==> exists s | s in slots :: s.Kind().Passphrase? && r == OpenThrough(main, s, secret, vid))
    decreases |slots|
  {
    if slots != [] {
      var s0, rest := slots[0], slots[1..];
      assert slots == [s0] + rest;
      if !s0.Kind().Passphrase? {
        TryEachIff(main, rest, secret, vid, last);
      } else {
        var r := OpenThrough(main, s0, secret, vid);
        assert r.Err? ==> r.error.Integrity? by { assert s0 in slots && s0.params.PassphraseParams?; }
        if r.Err? { TryEachIff(main, rest, secret, vid, Some(r.error)); }
      }
    }
  }

  /**
   * A secret from the environment opens the vault exactly when it opens some passphrase slot, wherever
   * that slot stands; with a wrong one the answer is Integrity. On a sealed file every slot that opens
   * leads to the same vault, so the order of the slots does not matter at all.
   */
  lemma EnvUnlockIsOrderIndependent(img: Image, secret: string)
    requires SealedImage(img) && SoundParams(img.header.slots)
    requires AllWrap(img.header.slots, img.header.vaultId, img.ct.key)
    requires exists s | s in img.header.slots :: s.Kind().Passphrase?
    ensures var r := TryEach(Some(img), img.header.slots, secret, img.header.vaultId, None);
            && r.Some?
            && (r.value.Ok? <==> exists s | s in img.header.slots :: OpenWithSecret(s, secret, img.header.vaultId).Ok?)
            && (r.value.Ok? ==> r.value == OpenWithDek(Some(img), img.ct.key))
            && (r.value.Err? ==> r.value.error.Integrity?)
  {
    var slots, vid := img.header.slots, img.header.vaultId;
    ValidateIff(img.header);
    TryEachIff(Some(img), slots, secret, vid, None);
    forall s | s in slots && OpenWithSecret(s, secret, vid).Ok?
      ensures s.Kind().Passphrase? && OpenThrough(Some(img), s, secret, vid) == OpenWithDek(Some(img), img.ct.key)
           && OpenThrough(Some(img), s, secret, vid).Ok?
    {
      UnwrapYieldsWrapped(s, Argon2Ikm(secret, s.salt, s.params.argon2), IdentityEnvelope, vid, img.ct.key);
      OpenSealedIff(img, img.ct.key);
    }
  }

  /** With a preset secret a preferred passphrase slot settles the matter: nothing else is tried or asked. */
  lemma PresetSecretDecides(main: Option<Image>, second: Option<Image>, slots: seq<KeySlot>, i: nat,
                            resolver: Resolver, ctx: UnlockContext, secret: string, log: seq<Hello.Call>)
    requires ReadHeader(main).Ok? && ReadHeader(main).value.slots == slots
    requires ReadHeader(main).value.vaultId == ctx.vaultId
    requires i < |slots| && slots[i].Kind().Passphrase? && SlotByLabel(slots, slots[i].slotLabel) == Some(slots[i])
    ensures UnlockRun(main, second, resolver, Some(secret), log, ctx, Some(slots[i].slotLabel))
         == (log, OpenThrough(second, slots[i], secret, ctx.vaultId))
  {
    var order := Order(slots, Some(slots[i].slotLabel)).value;
    assert order[0] == slots[i];
    assert OpenPassphrase(slots[i], Some(secret), ctx) == OpenWithSecret(slots[i], secret, ctx.vaultId);
    assert Decides(Attempt(resolver, Some(secret), log, order[0], ctx).1);
  }

  /**
   * `Ctx::unlock` without `--slot`, given `WCM_PASSPHRASE`: with at least one passphrase slot the result
   * is that of trying each, and Windows Hello is never asked; without one it is that of `unlock`. All reads
   * find `main`.
   */
  method UnlockWithEnv(t: Thread, main: Option<Image>, resolver: Resolver, secret: string, allowUi: bool,
                       prompt: Result<string>)
    returns (r: Result<Unlocked>)
    requires t.currentSalt == None && !resolver.hello.Passphrases?
    requires {resolver.passphrase as object} !! {t} + resolver.hello.Touches()
    modifies t, resolver.passphrase, resolver.hello.Touches()
    ensures t.currentSalt == None
    ensures ReadHeader(main).Err? ==> r == Err(ReadHeader(main).error)
    ensures ReadHeader(main).Ok? ==> resolver.passphrase.secret == Some(secret)
    ensures ReadHeader(main).Ok? ==>
              var h := ReadHeader(main).value;
              if exists s | s in h.slots :: s.Kind().Passphrase? then
                && Some(r) == TryEach(main, h.slots, secret, h.vaultId, None)
                && LogOf(resolver.hello) == old(LogOf(resolver.hello))
              else
                |h.vaultId| == 16 &&
                (LogOf(resolver.hello), r)
                  == UnlockRun(main, main, resolver, Some(secret), old(LogOf(resolver.hello)),
                               UnlockContext(h.vaultId, allowUi, prompt), None)
  {
    var first := ReadHeader(main);
    if first.Err? { return Err(first.error); }
    var header := first.value;
    ValidateIff(header);
    var ctx := UnlockContext(header.vaultId, allowUi, prompt);
    resolver.passphrase.secret := Some(secret);
    var last: Option<Error> := None;
    var slots := header.slots;
    ghost var log0 := LogOf(resolver.hello);
    for i := 0 to |slots|
      invariant t.currentSalt == None && resolver.passphrase.secret == Some(secret)
      invariant TryEach(main, slots, secret, header.vaultId, None)
             == TryEach(main, slots[i..], secret, header.vaultId, last)
      invariant last.Some? <==> exists k | 0 <= k < i :: slots[k].Kind().Passphrase?
      invariant LogOf(resolver.hello) == log0
    {
      assert slots[i..][0] == slots[i] && slots[i..][1..] == slots[i + 1..];
      if slots[i].Kind().Passphrase? {
        DistinctLabelCount(slots, i);
        PresetSecretDecides(main, main, slots, i, resolver, ctx, secret, log0);
        var attempt := UnlockVault(t, main, main, resolver, ctx, Some(slots[i].slotLabel));
        if attempt.Err? && attempt.error.Integrity? {
          last := Some(attempt.error);
        } else {
          return attempt;
        }
      }
    }
    assert slots[|slots|..] == [];
    if last.Some? { return Err(last.value); }
    r := UnlockVault(t, main, main, resolver, ctx, None);
  }
}
