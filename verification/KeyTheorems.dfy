/**
 * What each slot command owes the vault, on any input: when it succeeds, what it saves, that every slot of the
 * save opens the vault, and that what it deletes afterwards is not needed.
 */
module KeyTheorems {
  import opened Basics
  import opened Body
  import opened Slots
  import opened Header
  import opened Vault
  import opened KeyCommands
  import Hello

  // ---------------------------------------------------------------------------
  // Opening slots
  // ---------------------------------------------------------------------------

  /** `open_slot` on machine `m` with the credential store `creds` behind the Hello API. */
  function OpenWithStore(m: Machine, creds: map<string, nat>, slot: KeySlot, vid: VaultId): Result<Dek> {
    if !slot.params.HelloParams? then Err(Invalid("backend kind"))
    else if !WellSized(slot) then Err(Integrity("slot salt or nonce length"))
    else
      var cfg := Hello.HelloConfig(false, true, slot.params.dpapi);
      var sig :- Hello.OpenRun(Hello.Honest(creds, 0, m.sc), [], m.sc, cfg, true, slot.params).1;
      UnwrapSlot(slot, SignatureIkm(sig), SlotEnvelope(m, slot.params), vid)
  }

  /** Opening a slot with what it was sealed with. */
  function OpenBySecret(m: Machine, slot: KeySlot, secret: Secret, vid: VaultId): Result<Dek> {
    match secret
    case Typed(s) => OpenWithSecret(slot, s, vid)
    case Credential(k) =>
      if slot.params.HelloParams? then OpenWithStore(m, map[slot.params.credName := k], slot, vid)
      else Err(Invalid("backend kind"))
  }

  /** The credential of the slot is in the store and still the key it was enrolled with. */
  predicate Live(m: Machine, creds: map<string, nat>, slot: KeySlot) {
    && slot.params.HelloParams?
    && slot.params.credName in creds
    && m.sc.publicKey(creds[slot.params.credName]) == slot.params.spki
  }

  ghost predicate GoodSlot(m: Machine, slot: KeySlot, secret: Secret, vid: VaultId, dek: Dek) {
    && Wraps(slot, vid, dek)
    && OpenBySecret(m, slot, secret, vid) == Ok(dek)
    && (slot.params.HelloParams? ==>
          && secret.Credential?
          && slot.params.credName == Hello.CredName(vid)
          && slot.params.spki == m.sc.publicKey(secret.key))
  }

  /** A live Hello slot opens the vault with the store as it is. */
  lemma LiveOpens(m: Machine, creds: map<string, nat>, slot: KeySlot, secret: Secret, vid: VaultId, dek: Dek)
    requires Hello.Lawful(m.sc) && GoodSlot(m, slot, secret, vid, dek) && Live(m, creds, slot)
    ensures OpenWithStore(m, creds, slot, vid) == Ok(dek)
  {
    var cfg := Hello.HelloConfig(false, true, slot.params.dpapi);
    var name, k, k' := slot.params.credName, secret.key, creds[slot.params.credName];
    var alone := map[name := k];
    assert Hello.KeysAfter(alone, 0, []) == alone && Hello.KeysAfter(creds, 0, []) == creds;
    var _ := Hello.OpenCalls(Hello.Honest(alone, 0, m.sc), [], m.sc, cfg, true, slot.params);
    assert |slot.params.challenge| == CHALLENGE_LEN;
    Hello.HonestOpenIff(alone, 0, m.sc, [], cfg, slot.params, k);
    Hello.HonestOpenIff(creds, 0, m.sc, [], cfg, slot.params, k');
    var c := slot.params.challenge;
    assert m.sc.verify(slot.params.spki, c, m.sc.sign(k, c)) && m.sc.verify(slot.params.spki, c, m.sc.sign(k', c));
  }

  lemma SealHelloGood(m: Machine, k: nat, id: Byte, slotLabel: string, dpapi: bool, f: Fresh, vid: VaultId, dek: Dek)
    requires Hello.Lawful(m.sc) && GoodFresh(f) && SealHello(m, k, id, slotLabel, dpapi, f, vid, dek).Ok?
    ensures var s := SealHello(m, k, id, slotLabel, dpapi, f, vid, dek).value;
            GoodSlot(m, s.slot, s.secret, vid, dek)
  {
    var s := SealHello(m, k, id, slotLabel, dpapi, f, vid, dek).value;
    var params, sig := s.slot.params, m.sc.sign(k, f.challenge);
    var cfg := Hello.HelloConfig(false, true, dpapi);
    var alone := map[params.credName := k];
    assert Hello.KeysAfter(alone, 0, []) == alone;
    Hello.HonestOpenIff(alone, 0, m.sc, [], cfg, params, k);
    UnwrapIffBound(id, slotLabel, params, SignatureIkm(sig), f.salt, f.nonce, SlotEnvelope(m, params), vid, dek,
                   s.slot, SignatureIkm(sig), SlotEnvelope(m, params), vid);
    WrapSlotWraps(id, slotLabel, params, SignatureIkm(sig), f.salt, f.nonce, SlotEnvelope(m, params), vid, dek);
  }

  /** Whatever is sealed opens again, to the key that was sealed. */
  lemma SealNewGood(m: Machine, creds: map<string, nat>, id: Byte, slotLabel: string, newSlot: NewSlot, f: Fresh,
                    newKey: nat, vid: VaultId, dek: Dek)
    requires Hello.Lawful(m.sc) && GoodFresh(f)
    ensures var (creds', effects, sealed) := SealNew(m, creds, id, slotLabel, newSlot, f, newKey, vid, dek);
            && MakesAtMostOne(creds, effects, Hello.CredName(vid), newKey)
            && creds' == StoreAfter(creds, effects)
            && (sealed.Err? ==> !sealed.error.Integrity?)
            && (sealed.Ok? ==> SealedAs(m, creds', sealed.value, id, slotLabel, newSlot, vid, dek))
  {
    match newSlot
    case NewPassphrase(secret, argon2) =>
      if SealPassphrase(id, slotLabel, secret, argon2, f, vid, dek).Ok? {
        SecretOpensIff(id, slotLabel, secret, argon2, f.salt, f.nonce, vid, dek, secret);
        WrapSlotWraps(id, slotLabel, PassphraseParams(argon2), Argon2Ikm(secret, f.salt, argon2), f.salt, f.nonce,
                      IdentityEnvelope, vid, dek);
      }
    case NewHello(dpapi) =>
      var name := Hello.CredName(vid);
      var k := if name in creds then creds[name] else newKey;
      if SealHello(m, k, id, slotLabel, dpapi, f, vid, dek).Ok? {
        SealHelloGood(m, k, id, slotLabel, dpapi, f, vid, dek);
      }
  }

  /**
   * The Hello slot sealed here is the one the backend's enrolment yields over a faithful credential store,
   * and the store is left as the enrolment leaves it.
   */
  lemma EnrolmentSealsHello(m: Machine, creds: map<string, nat>, first: nat, id: Byte, slotLabel: string, dpapi: bool,
                            f: Fresh, vid: VaultId, dek: Dek)
    requires Hello.Lawful(m.sc) && m.helloUsable
    ensures var cfg := Hello.HelloConfig(true, true, dpapi);
            var (log, r) := Hello.EnrollRun(Hello.Honest(creds, first, m.sc), [], m.sc, cfg, vid, true, f.challenge);
            var after := Hello.KeysAfter(creds, first, log);
            && r.Ok? && Hello.CredName(vid) in after
            && var (creds', _, sealed) := SealNew(m, creds, id, slotLabel, NewHello(dpapi), f,
                                                  after[Hello.CredName(vid)], vid, dek);
               var slot := WrapSlot(id, slotLabel, r.value.0, SignatureIkm(r.value.1), f.salt, f.nonce,
                                    SlotEnvelope(m, r.value.0), vid, dek);
               && creds' == after
               && sealed == if slot.Err? then Err(slot.error)
                            else Ok(Sealing(slot.value, Credential(after[Hello.CredName(vid)])))
  {
    assert Hello.KeysAfter(creds, first, []) == creds;
    Hello.HonestEnroll(creds, first, m.sc, [], Hello.HelloConfig(true, true, dpapi), vid, f.challenge);
  }

  // ---------------------------------------------------------------------------
  // What one command does
  // ---------------------------------------------------------------------------

  /** Only a missing credential is created, and only once. */
  ghost predicate MakesAtMostOne(creds: map<string, nat>, effects: seq<Effect>, name: string, key: nat) {
    effects == [] || (name !in creds && effects == [Create(name, key)])
  }

  function StoreAfter(creds: map<string, nat>, effects: seq<Effect>): map<string, nat> {
    if effects == [] || !effects[0].Create? then creds else creds[effects[0].name := effects[0].key]
  }

  /** The slot has the parameters that were asked for, and is sealed under the secret that was handed in. */
  predicate AsAsked(newSlot: NewSlot, slot: KeySlot, secret: Secret) {
    match newSlot
    case NewPassphrase(given, argon2) => slot.params == PassphraseParams(argon2) && secret == Typed(given)
    case NewHello(dpapi) =>
      slot.params.HelloParams? && slot.params.dpapi == dpapi == slot.ct.Protected? && secret.Credential?
  }

  ghost predicate SealedAs(m: Machine, creds: map<string, nat>, s: Sealing, id: Byte, slotLabel: string,
                           newSlot: NewSlot, vid: VaultId, dek: Dek) {
    && s.slot.id == id && s.slot.slotLabel == slotLabel && AsAsked(newSlot, s.slot, s.secret)
    && GoodSlot(m, s.slot, s.secret, vid, dek)
    && (newSlot.NewHello? ==> Live(m, creds, s.slot))
  }

  function SlotsOf(w: World): seq<KeySlot> {
    if w.image.Some? then w.image.value.header.slots else []
  }

  ghost predicate AllGood(m: Machine, slots: seq<KeySlot>, ledger: map<Byte, Secret>, vid: VaultId, dek: Dek) {
    forall s | s in slots :: s.id in ledger && GoodSlot(m, s, ledger[s.id], vid, dek)
  }

  /** A file whose every slot, opened with what it was sealed with, yields the key of the body. */
  ghost predicate GoodImage(m: Machine, img: Image, ledger: map<Byte, Secret>) {
    SealedImage(img) && AllGood(m, img.header.slots, ledger, img.header.vaultId, img.ct.key)
  }

  ghost predicate WorldOk(m: Machine, w: World) {
    w.image.Some? ==> GoodImage(m, w.image.value, w.ledger) && w.image.value.ct.key in w.used
  }

  /**
   * What every command owes: before its save it at most creates a missing credential; a save leaves a good
   * file that succeeds the one before it, whose Hello slots were there before or are live; only then, and
   * only credentials that no saved slot needs, are deleted; and no header it builds is refused as damaged.
   */
  ghost predicate Transacts(m: Machine, w: World, name: string, key: nat, p: Plan) {
    && MakesAtMostOne(w.creds, p.before, name, key)
    && (p.outcome.Err? ==> !p.outcome.error.Integrity?)
    && (p.outcome.Ok? ==>
          var save := p.outcome.value;
          && GoodImage(m, save.image, save.ledger)
          && SucceedsTheFile(w, save.image)
          && (forall s | s in save.image.header.slots :: s.params.HelloParams? ==>
                s in SlotsOf(w) || Live(m, StoreAfter(w.creds, p.before), s))
          && (forall e | e in save.after :: e.Delete? && !NeedsCredential(save.image.header.slots, e.name)))
  }

  function NextGeneration(w: World): nat {
    if w.image.Some? then w.image.value.header.generation + 1 else 1
  }

  /** `h'` differs from `h` at most in slots, generation and nonce. */
  predicate SameHeaderBut(h: Header, h': Header) {
    h' == h.(slots := h'.slots, generation := h'.generation, bodyNonce := h'.bodyNonce)
  }

  /** The next generation of the file, under its key or a key never used. */
  predicate SucceedsTheFile(w: World, img: Image) {
    && img.header.generation == NextGeneration(w)
    && (w.image.Some? ==> SameHeaderBut(w.image.value.header, img.header))
    && ((w.image.Some? && img.ct.key == w.image.value.ct.key) || img.ct.key !in w.used)
  }

  /** Building the image of a sound vault succeeds and the result is a good file. */
  lemma SaveIsGood(m: Machine, before: seq<Effect>, v: Unlocked, creating: bool, nonce: Bytes,
                   ledger: map<Byte, Secret>, after: seq<Effect>)
    requires ValidHeader(v.header) && Canonical(v.body) && |nonce| == NONCE_LEN
    requires AllGood(m, v.header.slots, ledger, v.header.vaultId, v.dek)
    ensures var p := SavePlan(before, v, creating, nonce, ledger, after);
            && p.before == before && p.outcome.Ok?
            && var save := p.outcome.value;
            && save.ledger == ledger && save.after == after
            && save.image.header.slots == v.header.slots && save.image.ct.key == v.dek
            && save.image.header.vaultId == v.header.vaultId
            && save.image.header.generation == (if creating then 1 else v.loadedGeneration + 1)
            && SameHeaderBut(v.header, save.image.header) && save.image.ct.plaintext == v.body
            && GoodImage(m, save.image, ledger)
  {
    var header := v.header.(generation := if creating then 1 else v.loadedGeneration + 1, bodyNonce := nonce);
    ValidateIff(header);
    assert BuildImage(v, creating, nonce).Ok?;
    BuildIsSealed(v, creating, nonce);
  }

  lemma CurrentIsSound(m: Machine, w: World)
    requires WorldOk(m, w) && w.image.Some?
    ensures ValidHeader(Current(w).header) && Canonical(Current(w).body)
    ensures Current(w).body == w.image.value.ct.plaintext
    ensures AllGood(m, Current(w).header.slots, w.ledger, Current(w).header.vaultId, Current(w).dek)
  {
    DecodedIsIdentity(w.image.value.ct.plaintext);
  }

  lemma {:induction false} KeepDistinct(slots: seq<KeySlot>, drop: KeySlot -> bool)
    requires DistinctIds(slots) && DistinctLabels(slots)
    ensures DistinctIds(Keep(slots, drop)) && DistinctLabels(Keep(slots, drop))
  {
    if slots != [] {
      var rest := slots[1..];
      assert forall i | 0 <= i < |rest| :: rest[i] == slots[i + 1];
      KeepDistinct(rest, drop);
      var kept := Keep(rest, drop);
      forall i | 0 <= i < |kept| ensures kept[i].id != slots[0].id && kept[i].slotLabel != slots[0].slotLabel {
        assert kept[i] in rest;
      }
    }
  }

  /** A slot with the found id joins slots that do not carry its label. */
  lemma AppendIsGood(m: Machine, slots: seq<KeySlot>, s: Sealing, ledger: map<Byte, Secret>, vid: VaultId, dek: Dek)
    requires DistinctIds(slots) && DistinctLabels(slots) && AllGood(m, slots, ledger, vid, dek)
    requires FirstFreeId(slots) == Ok(s.slot.id) && !HasLabel(slots, s.slot.slotLabel)
    requires GoodSlot(m, s.slot, s.secret, vid, dek)
    ensures DistinctIds(slots + [s.slot]) && DistinctLabels(slots + [s.slot])
    ensures AllGood(m, slots + [s.slot], ledger[s.slot.id := s.secret], vid, dek)
  {
    FirstFreeIdIsLeast(slots);
    AppendKeepsDistinct(slots, s.slot);
    forall t | t in slots ensures t.id != s.slot.id {
      var i :| 0 <= i < |slots| && slots[i] == t;
      assert !IdUsed(slots, s.slot.id);
    }
  }

  /** A save of a sound vault meets the obligations, given what it changes. */
  lemma SaveTransacts(m: Machine, w: World, name: string, key: nat, before: seq<Effect>, v: Unlocked, creating: bool,
                      nonce: Bytes,
                      ledger: map<Byte, Secret>, after: seq<Effect>)
    requires ValidHeader(v.header) && Canonical(v.body) && |nonce| == NONCE_LEN
    requires AllGood(m, v.header.slots, ledger, v.header.vaultId, v.dek)
    requires MakesAtMostOne(w.creds, before, name, key)
    requires w.image.Some? ==> SameHeaderBut(w.image.value.header, v.header)
    requires (w.image.Some? && v.dek == w.image.value.ct.key) || v.dek !in w.used
    requires (if creating then 1 else v.loadedGeneration + 1) == NextGeneration(w)
    requires forall s | s in v.header.slots && s.params.HelloParams? ::
               s in SlotsOf(w) || Live(m, StoreAfter(w.creds, before), s)
    requires forall e | e in after :: e.Delete? && !NeedsCredential(v.header.slots, e.name)
    ensures var p := SavePlan(before, v, creating, nonce, ledger, after);
            Transacts(m, w, name, key, p) && Saves(p, v)
  {
    SaveIsGood(m, before, v, creating, nonce, ledger, after);
  }

  /** The plan saves `v`: its header but for generation and nonce, its body, under its key. */
  ghost predicate Saves(p: Plan, v: Unlocked) {
    && p.outcome.Ok?
    && p.outcome.value.image.header.slots == v.header.slots
    && SameHeaderBut(v.header, p.outcome.value.image.header)
    && p.outcome.value.image.ct.key == v.dek
    && p.outcome.value.image.ct.plaintext == v.body
  }

  /** A save under the same key that leaves the body as it is. */
  predicate KeepsContent(w: World, save: Saving)
    requires w.image.Some?
  {
    save.image.ct.key == w.image.value.ct.key && save.image.ct.plaintext == w.image.value.ct.plaintext
  }

  /** The plan saves the kept slots and, last, the new one as asked; nothing else changes. */
  ghost predicate Joins(m: Machine, w: World, kept: seq<KeySlot>, slotLabel: string, newSlot: NewSlot, p: Plan)
    requires w.image.Some?
  {
    p.outcome.Ok? ==>
      var slots, ledger := p.outcome.value.image.header.slots, p.outcome.value.ledger;
      && AppendsOne(kept, slotLabel, newSlot.Kind(), slots)
      && slots[|kept|].id in ledger && AsAsked(newSlot, slots[|kept|], ledger[slots[|kept|].id])
      && FirstFreeId(kept) == Ok(slots[|kept|].id)
      && (newSlot.NewHello? ==> Live(m, StoreAfter(w.creds, p.before), slots[|kept|]))
      && KeepsContent(w, p.outcome.value)
  }

  lemma SealedJoins(m: Machine, w: World, kept: seq<KeySlot>, removed: seq<KeySlot>, s: Sealing, newSlot: NewSlot,
                    slotLabel: string, key: nat,
                    before: seq<Effect>, inp: Inputs)
    requires WorldOk(m, w) && w.image.Some? && |inp.bodyNonce| == NONCE_LEN
    requires DistinctIds(kept) && DistinctLabels(kept) && forall t | t in kept :: t in SlotsOf(w)
    requires FirstFreeId(kept) == Ok(s.slot.id) && !HasLabel(kept, slotLabel)
    requires MakesAtMostOne(w.creds, before, Hello.CredName(w.image.value.header.vaultId), key)
    requires SealedAs(m, StoreAfter(w.creds, before), s, s.slot.id, slotLabel, newSlot, w.image.value.header.vaultId,
                      w.image.value.ct.key)
    ensures var slots := kept + [s.slot];
            var v := Current(w).(header := Current(w).header.(slots := slots));
            var p := SavePlan(before, v, false, inp.bodyNonce, w.ledger[s.slot.id := s.secret],
                              Deletes(Doomed(removed, slots), inp.deletable));
            Transacts(m, w, Hello.CredName(w.image.value.header.vaultId), key, p) && p.outcome.Ok? &&
              Joins(m, w, kept, slotLabel, newSlot, p)
  {
    var slots := kept + [s.slot];
    CurrentIsSound(m, w);
    AppendIsGood(m, kept, s, w.ledger, w.image.value.header.vaultId, w.image.value.ct.key);
    DoomedAreNotNeeded(removed, slots, inp.deletable);
    SaveTransacts(m, w, Hello.CredName(w.image.value.header.vaultId), key, before,
                  Current(w).(header := Current(w).header.(slots := slots)),
                  false, inp.bodyNonce, w.ledger[s.slot.id := s.secret],
                  Deletes(Doomed(removed, slots), inp.deletable));
  }

  /** When sealing the new slot works, so does the whole command. */
  predicate SealsNew(m: Machine, w: World, kept: seq<KeySlot>, slotLabel: string, newSlot: NewSlot, inp: Inputs)
    requires w.image.Some? && |w.image.value.header.vaultId| == 16 && 1 <= |inp.draws|
  {
    && FirstFreeId(kept).Ok?
    && SealNew(m, w.creds, FirstFreeId(kept).value, slotLabel, newSlot, inp.draws[0], inp.newKey,
               w.image.value.header.vaultId, w.image.value.ct.key).2.Ok?
  }

  lemma JoinTransacts(m: Machine, w: World, kept: seq<KeySlot>, removed: seq<KeySlot>, slotLabel: string,
                      newSlot: NewSlot, inp: Inputs)
    requires Hello.Lawful(m.sc) && WorldOk(m, w) && w.image.Some?
    requires 1 <= |inp.draws| && GoodFresh(inp.draws[0]) && |inp.bodyNonce| == NONCE_LEN
    requires DistinctIds(kept) && DistinctLabels(kept) && forall t | t in kept :: t in SlotsOf(w)
    requires !HasLabel(kept, slotLabel)
    ensures var p := JoinPlan(m, w, kept, removed, slotLabel, newSlot, inp);
            && Transacts(m, w, Hello.CredName(w.image.value.header.vaultId), inp.newKey, p)
            && Joins(m, w, kept, slotLabel, newSlot, p)
            && (p.outcome.Ok? <==> SealsNew(m, w, kept, slotLabel, newSlot, inp))
  {
    FirstFreeIdIsLeast(kept);
    if FirstFreeId(kept).Ok? {
      var id, vid, dek := FirstFreeId(kept).value, w.image.value.header.vaultId, w.image.value.ct.key;
      SealNewGood(m, w.creds, id, slotLabel, newSlot, inp.draws[0], inp.newKey, vid, dek);
      var (_, effects, sealed) := SealNew(m, w.creds, id, slotLabel, newSlot, inp.draws[0], inp.newKey, vid, dek);
      if sealed.Ok? {
        SealedJoins(m, w, kept, removed, sealed.value, newSlot, slotLabel, inp.newKey, effects, inp);
      }
    }
  }

  lemma AddTransacts(m: Machine, w: World, slotLabel: string, newSlot: NewSlot, inp: Inputs)
    requires Hello.Lawful(m.sc) && WorldOk(m, w) && w.image.Some? && GoodInputs(w, SlotAdd(slotLabel, newSlot), inp)
    ensures var p := AddPlan(m, w, slotLabel, newSlot, inp);
            && Transacts(m, w, Hello.CredName(w.image.value.header.vaultId), inp.newKey, p)
            && Joins(m, w, SlotsOf(w), slotLabel, newSlot, p)
            && (p.outcome.Ok? <==>
                  && slotLabel != "" && !HasLabel(SlotsOf(w), slotLabel)
                  && SealsNew(m, w, SlotsOf(w), slotLabel, newSlot, inp))
  {
    if !HasLabel(SlotsOf(w), slotLabel) {
      JoinTransacts(m, w, SlotsOf(w), [], slotLabel, newSlot, inp);
    }
  }

  ghost predicate AppendsOne(slots: seq<KeySlot>, slotLabel: string, kind: SlotKind, slots': seq<KeySlot>) {
    && |slots'| == |slots| + 1
    && slots'[..|slots|] == slots
    && slots'[|slots|].slotLabel == slotLabel && slots'[|slots|].Kind() == kind
  }

  lemma {:induction false} DoomedAreNotNeeded(removed: seq<KeySlot>, kept: seq<KeySlot>, ok: bool)
    ensures forall n | n in Doomed(removed, kept) :: !NeedsCredential(kept, n)
    ensures forall e | e in Deletes(Doomed(removed, kept), ok) :: e.Delete? && !NeedsCredential(kept, e.name)
  {
    if removed != [] { DoomedAreNotNeeded(removed[..|removed| - 1], kept, ok); }
  }

  lemma RmTransacts(m: Machine, w: World, slotLabel: string, inp: Inputs)
    requires WorldOk(m, w) && w.image.Some? && GoodInputs(w, SlotRm(slotLabel), inp)
    ensures var p := RmPlan(w, slotLabel, inp);
            && Transacts(m, w, Hello.CredName(w.image.value.header.vaultId), inp.newKey, p)
            && (p.outcome.Ok? ==>
                  && p.outcome.value.image.header.slots == Keep(SlotsOf(w), ByLabel(slotLabel))
                  && HasPassphrase(p.outcome.value.image.header.slots)
                  && KeepsContent(w, p.outcome.value))
            && (p.outcome.Ok? <==> CheckRemovable(SlotsOf(w), slotLabel).Ok?)
  {
    CurrentIsSound(m, w);
    var slots := SlotsOf(w);
    var remaining, removed := Keep(slots, ByLabel(slotLabel)), Keep(slots, Not(ByLabel(slotLabel)));
    KeepDistinct(slots, ByLabel(slotLabel));
    DoomedAreNotNeeded(removed, remaining, inp.deletable);
    if CheckRemovable(slots, slotLabel).Ok? {
      SaveTransacts(m, w, Hello.CredName(w.image.value.header.vaultId), inp.newKey, [],
                    Current(w).(header := Current(w).header.(slots := remaining)),
                    false, inp.bodyNonce, w.ledger, Deletes(Doomed(removed, remaining), inp.deletable));
    }
  }

  lemma RecoverTransacts(m: Machine, w: World, newSlot: NewSlot, inp: Inputs)
    requires Hello.Lawful(m.sc) && WorldOk(m, w) && w.image.Some? && GoodInputs(w, Recover(newSlot), inp)
    ensures var p := RecoverPlan(m, w, newSlot, inp);
            var kept := Keep(SlotsOf(w), ByKindOrLabel(RecoverLabel(newSlot)));
            && Transacts(m, w, Hello.CredName(w.image.value.header.vaultId), inp.newKey, p)
            && Joins(m, w, kept, RecoverLabel(newSlot), newSlot, p)
            && (p.outcome.Ok? <==> SealsNew(m, w, kept, RecoverLabel(newSlot), newSlot, inp))
  {
    var drop := ByKindOrLabel(RecoverLabel(newSlot));
    KeepDistinct(SlotsOf(w), drop);
    JoinTransacts(m, w, Keep(SlotsOf(w), drop), Keep(SlotsOf(w), Not(drop)), RecoverLabel(newSlot), newSlot, inp);
  }

  // ---------------------------------------------------------------------------
  // Commands that seal several slots
  // ---------------------------------------------------------------------------

  /** The slots of `p` are the first of the jobs, done. */
  ghost predicate Done(m: Machine, p: Progress, jobs: seq<Job>, vid: VaultId, dek: Dek) {
    && |p.sealed| <= |jobs|
    && (forall i | 0 <= i < |p.sealed| ::
          SealedAs(m, p.creds, p.sealed[i], jobs[i].id, jobs[i].slotLabel, jobs[i].newSlot, vid, dek))
  }

  /** What holds after `n` jobs, the store having started as `creds`. */
  ghost predicate Progressed(m: Machine, creds: map<string, nat>, p: Progress, jobs: seq<Job>, n: nat, key: nat,
                             vid: VaultId, dek: Dek) {
    && MakesAtMostOne(creds, p.effects, Hello.CredName(vid), key)
    && p.creds == StoreAfter(creds, p.effects)
    && Done(m, p, jobs, vid, dek)
    && (p.error.Some? ==> !p.error.value.Integrity?)
    && (p.error.None? ==> |p.sealed| == n)
  }

  /** The slots done so far stay done when the next job has run on the store. */
  lemma DoneStays(m: Machine, p: Progress, jobs: seq<Job>, effects: seq<Effect>, key: nat, vid: VaultId, dek: Dek)
    requires Done(m, p, jobs, vid, dek) && MakesAtMostOne(p.creds, effects, Hello.CredName(vid), key)
    ensures Done(m, p.(creds := StoreAfter(p.creds, effects)), jobs, vid, dek)
  {
  }

  lemma DoneSnoc(m: Machine, p: Progress, p': Progress, s: Sealing, jobs: seq<Job>, vid: VaultId, dek: Dek)
    requires Done(m, p, jobs, vid, dek) && |p.sealed| < |jobs|
    requires p'.creds == p.creds && p'.sealed == p.sealed + [s]
    requires var job := jobs[|p.sealed|]; SealedAs(m, p.creds, s, job.id, job.slotLabel, job.newSlot, vid, dek)
    ensures Done(m, p', jobs, vid, dek)
  {
  }

  lemma EffectsCompose(creds: map<string, nat>, a: seq<Effect>, b: seq<Effect>, name: string, key: nat)
    requires MakesAtMostOne(creds, a, name, key) && MakesAtMostOne(StoreAfter(creds, a), b, name, key)
    ensures MakesAtMostOne(creds, a + b, name, key) && StoreAfter(creds, a + b) == StoreAfter(StoreAfter(creds, a), b)
  {
  }

  lemma SealNextGood(m: Machine, creds: map<string, nat>, p: Progress, jobs: seq<Job>, n: nat, f: Fresh, key: nat,
                     vid: VaultId, dek: Dek)
    requires Hello.Lawful(m.sc) && GoodFresh(f) && n < |jobs| && Progressed(m, creds, p, jobs, n, key, vid, dek)
    ensures Progressed(m, creds, SealNext(m, p, jobs[n], f, key, vid, dek), jobs, n + 1, key, vid, dek)
  {
    if p.error.None? {
      var job := jobs[n];
      SealNewGood(m, p.creds, job.id, job.slotLabel, job.newSlot, f, key, vid, dek);
      var (creds', effects, sealed) := SealNew(m, p.creds, job.id, job.slotLabel, job.newSlot, f, key, vid, dek);
      EffectsCompose(creds, p.effects, effects, Hello.CredName(vid), key);
      DoneStays(m, p, jobs, effects, key, vid, dek);
      if sealed.Ok? {
        DoneSnoc(m, p.(creds := creds'), SealNext(m, p, job, f, key, vid, dek), sealed.value, jobs, vid, dek);
      }
    }
  }

  lemma {:induction false} SealAllGood(m: Machine, creds: map<string, nat>, jobs: seq<Job>, n: nat, inp: Inputs,
                                       vid: VaultId, dek: Dek)
    requires Hello.Lawful(m.sc) && n <= |jobs| <= |inp.draws| && forall f | f in inp.draws :: GoodFresh(f)
    ensures Progressed(m, creds, SealAll(m, creds, jobs, n, inp, vid, dek), jobs, n, inp.newKey, vid, dek)
  {
    if n > 0 {
      SealAllGood(m, creds, jobs, n - 1, inp, vid, dek);
      SealNextGood(m, creds, SealAll(m, creds, jobs, n - 1, inp, vid, dek), jobs, n - 1, inp.draws[n - 1], inp.newKey,
                   vid, dek);
    }
  }

  lemma {:induction false} RecordHolds(ledger: map<Byte, Secret>, s: seq<Sealing>)
    requires DistinctIds(SealedSlots(s))
    ensures forall i | 0 <= i < |s| ::
              s[i].slot.id in Record(ledger, s) && Record(ledger, s)[s[i].slot.id] == s[i].secret
  {
    if s != [] {
      var n := |s| - 1;
      forall i, j | 0 <= i < j < n ensures SealedSlots(s[..n])[i].id != SealedSlots(s[..n])[j].id {
        assert SealedSlots(s)[i].id != SealedSlots(s)[j].id;
      }
      RecordHolds(ledger, s[..n]);
      forall i | 0 <= i < n ensures s[i].slot.id != s[n].slot.id {
        assert SealedSlots(s)[i].id != SealedSlots(s)[n].id;
      }
    }
  }

  ghost predicate DistinctJobs(jobs: seq<Job>) {
    forall i, j | 0 <= i < j < |jobs| :: jobs[i].id != jobs[j].id && jobs[i].slotLabel != jobs[j].slotLabel
  }

  /** Jobs with distinct ids and labels, all done, make a sound slot list. */
  lemma DoneIsSound(m: Machine, p: Progress, jobs: seq<Job>, ledger: map<Byte, Secret>, vid: VaultId, dek: Dek)
    requires Done(m, p, jobs, vid, dek) && |p.sealed| == |jobs| && DistinctJobs(jobs)
    ensures var slots := SealedSlots(p.sealed);
            && DistinctIds(slots) && DistinctLabels(slots)
            && AllGood(m, slots, Record(ledger, p.sealed), vid, dek)
            && (forall s | s in slots :: s.params.HelloParams? ==> Live(m, p.creds, s))
  {
    var slots := SealedSlots(p.sealed);
    assert DistinctIds(slots);
    assert DistinctLabels(slots);
    RecordHolds(ledger, p.sealed);
    forall s | s in slots
      ensures s.id in Record(ledger, p.sealed) && GoodSlot(m, s, Record(ledger, p.sealed)[s.id], vid, dek)
      ensures s.params.HelloParams? ==> Live(m, p.creds, s)
    {
      var i :| 0 <= i < |slots| && slots[i] == s;
      assert p.sealed[i].slot == s;
    }
  }

  /** Slot by slot the same id, label and kind. */
  ghost predicate SameShape(slots: seq<KeySlot>, slots': seq<KeySlot>) {
    && |slots| == |slots'|
    && forall i | 0 <= i < |slots| ::
         slots'[i].id == slots[i].id && slots'[i].slotLabel == slots[i].slotLabel && slots'[i].Kind() == slots[i].Kind()
  }

  ghost predicate MatchesJobs(jobs: seq<Job>, slots: seq<KeySlot>) {
    && |slots| == |jobs|
    && forall i | 0 <= i < |jobs| ::
         && slots[i].id == jobs[i].id
         && slots[i].slotLabel == jobs[i].slotLabel
         && slots[i].Kind() == jobs[i].newSlot.Kind()
  }

  /** Slot by slot what the jobs asked for. */
  ghost predicate AllAsAsked(jobs: seq<Job>, slots: seq<KeySlot>, ledger: map<Byte, Secret>) {
    && |slots| == |jobs|
    && forall i | 0 <= i < |jobs| ::
         slots[i].id in ledger && AsAsked(jobs[i].newSlot, slots[i], ledger[slots[i].id])
  }

  /** The saved slots are those of the jobs, in order, each as asked, and nothing is destroyed afterwards. */
  ghost predicate SealsJobs(m: Machine, creds: map<string, nat>, jobs: seq<Job>, save: Saving) {
    && save.after == []
    && MatchesJobs(jobs, save.image.header.slots)
    && AllAsAsked(jobs, save.image.header.slots, save.ledger)
    && forall s | s in save.image.header.slots && s.params.HelloParams? :: Live(m, creds, s)
  }

  lemma DoneSealsJobs(m: Machine, p: Progress, jobs: seq<Job>, ledger: map<Byte, Secret>, vid: VaultId, dek: Dek,
                      save: Saving)
    requires Done(m, p, jobs, vid, dek) && |p.sealed| == |jobs| && DistinctIds(SealedSlots(p.sealed))
    requires save.image.header.slots == SealedSlots(p.sealed) && save.ledger == Record(ledger, p.sealed)
    requires save.after == []
    requires forall s | s in save.image.header.slots && s.params.HelloParams? :: Live(m, p.creds, s)
    ensures SealsJobs(m, p.creds, jobs, save)
  {
    RecordHolds(ledger, p.sealed);
  }

  /** The save of a vault whose slots were all sealed anew. */
  lemma ResealedTransacts(m: Machine, w: World, v: Unlocked, creating: bool, p: Progress, jobs: seq<Job>,
                          ledger: map<Byte, Secret>, vid: VaultId, inp: Inputs)
    requires Progressed(m, w.creds, p, jobs, |jobs|, inp.newKey, vid, v.dek) && p.error.None?
    requires w.image.Some? ==> SameHeaderBut(w.image.value.header, v.header)
    requires v.dek !in w.used
    requires (if creating then 1 else v.loadedGeneration + 1) == NextGeneration(w)
    requires DistinctJobs(jobs) && jobs != [] && |inp.bodyNonce| == NONCE_LEN
    requires v.header.slots == SealedSlots(p.sealed) && v.header.vaultId == vid && Canonical(v.body)
    requires v.header.v == FORMAT_VERSION && v.header.bodyCipher == BODY_CIPHER && |v.header.bodyNonce| == NONCE_LEN
    ensures var plan := SavePlan(p.effects, v, creating, inp.bodyNonce, Record(ledger, p.sealed), []);
            && Transacts(m, w, Hello.CredName(vid), inp.newKey, plan) && Saves(plan, v)
            && SealsJobs(m, p.creds, jobs, plan.outcome.value)
  {
    DoneIsSound(m, p, jobs, ledger, vid, v.dek);
    SaveTransacts(m, w, Hello.CredName(vid), inp.newKey, p.effects, v, creating, inp.bodyNonce,
                  Record(ledger, p.sealed), []);
    var plan := SavePlan(p.effects, v, creating, inp.bodyNonce, Record(ledger, p.sealed), []);
    DoneSealsJobs(m, p, jobs, ledger, vid, v.dek, plan.outcome.value);
  }

  ghost predicate Rekeyed(m: Machine, w: World, p: Plan, cmd: Command)
    requires cmd.RekeyAll? && |SlotsOf(w)| <= |cmd.passphrases|
  {
    p.outcome.Ok? ==>
      && p.outcome.value.image.ct.key == cmd.dek
      && SameShape(SlotsOf(w), p.outcome.value.image.header.slots)
      && SealsJobs(m, StoreAfter(w.creds, p.before), RekeyJobs(SlotsOf(w), cmd), p.outcome.value)
      && (w.image.Some? ==> p.outcome.value.image.ct.plaintext == w.image.value.ct.plaintext)
  }

  lemma RekeyJobsShape(slots: seq<KeySlot>, cmd: Command)
    requires cmd.RekeyAll? && |slots| <= |cmd.passphrases|
    ensures |RekeyJobs(slots, cmd)| == |slots|
    ensures DistinctIds(slots) && DistinctLabels(slots) ==> DistinctJobs(RekeyJobs(slots, cmd))
    ensures forall slots' :: MatchesJobs(RekeyJobs(slots, cmd), slots') ==> SameShape(slots, slots')
  {
  }

  lemma RekeyTransacts(m: Machine, w: World, cmd: Command, inp: Inputs)
    requires Hello.Lawful(m.sc) && WorldOk(m, w) && w.image.Some? && cmd.RekeyAll? && GoodInputs(w, cmd, inp)
    ensures var p := RekeyPlan(m, w, cmd, inp);
            && Transacts(m, w, Hello.CredName(w.image.value.header.vaultId), inp.newKey, p) && Rekeyed(m, w, p, cmd)
            && (p.outcome.Ok? <==>
                  && !((exists s | s in SlotsOf(w) :: s.Kind().Hello?) && !m.helloUsable)
                  && SealAll(m, w.creds, RekeyJobs(SlotsOf(w), cmd), |SlotsOf(w)|, inp, w.image.value.header.vaultId,
                             cmd.dek).error.None?)
  {
    var slots, vid := SlotsOf(w), w.image.value.header.vaultId;
    var jobs := RekeyJobs(slots, cmd);
    SealAllGood(m, w.creds, jobs, |slots|, inp, vid, cmd.dek);
    var p := SealAll(m, w.creds, jobs, |slots|, inp, vid, cmd.dek);
    if p.error.None? {
      CurrentIsSound(m, w);
      RekeyJobsShape(slots, cmd);
      var v := Current(w).(dek := cmd.dek, header := Current(w).header.(slots := SealedSlots(p.sealed)));
      ResealedTransacts(m, w, v, false, p, jobs, w.ledger, vid, inp);
    }
  }

  ghost predicate Initialised(m: Machine, w: World, cmd: Command, p: Plan)
    requires cmd.InitVault?
  {
    p.outcome.Ok? ==>
      && p.outcome.value.image.ct.key == cmd.dek
      && p.outcome.value.image.ct.plaintext == EMPTY_BODY
      && p.outcome.value.image.header.vaultId == cmd.vid
      && SameHeaderBut(NewHeader(cmd.vid, cmd.created, []), p.outcome.value.image.header)
      && SealsJobs(m, StoreAfter(w.creds, p.before), InitJobs(cmd), p.outcome.value)
  }

  lemma InitTransacts(m: Machine, w: World, cmd: Command, inp: Inputs)
    requires Hello.Lawful(m.sc) && cmd.InitVault? && GoodInputs(w, cmd, inp)
    ensures var p := InitPlan(m, w, cmd, inp);
            && Transacts(m, w, Hello.CredName(cmd.vid), inp.newKey, p) && Initialised(m, w, cmd, p)
            && (p.outcome.Ok? <==>
                  w.image.None? && SealAll(m, w.creds, InitJobs(cmd), |InitJobs(cmd)|, inp, cmd.vid,
                                           cmd.dek).error.None?)
  {
    var jobs := InitJobs(cmd);
    SealAllGood(m, w.creds, jobs, |jobs|, inp, cmd.vid, cmd.dek);
    var p := SealAll(m, w.creds, jobs, |jobs|, inp, cmd.vid, cmd.dek);
    InitJobsDistinct(cmd);
    if w.image.None? && p.error.None? { InitSaves(m, w, cmd, jobs, inp, p); }
  }

  lemma InitJobsDistinct(cmd: Command)
    requires cmd.InitVault?
    ensures DistinctJobs(InitJobs(cmd))
  {
  }

  lemma InitSaves(m: Machine, w: World, cmd: Command, jobs: seq<Job>, inp: Inputs, p: Progress)
    requires cmd.InitVault? && w.image.None? && |inp.bodyNonce| == NONCE_LEN && DistinctJobs(jobs) && jobs != []
    requires cmd.dek !in w.used
    requires Progressed(m, w.creds, p, jobs, |jobs|, inp.newKey, cmd.vid, cmd.dek) && p.error.None?
    ensures var v := Unlocked(NewHeader(cmd.vid, cmd.created, SealedSlots(p.sealed)), EMPTY_BODY, cmd.dek, 0);
            var plan := SavePlan(p.effects, v, true, inp.bodyNonce, Record(map[], p.sealed), []);
            && Transacts(m, w, Hello.CredName(cmd.vid), inp.newKey, plan) && Saves(plan, v)
            && SealsJobs(m, p.creds, jobs, plan.outcome.value)
  {
    var v := Unlocked(NewHeader(cmd.vid, cmd.created, SealedSlots(p.sealed)), EMPTY_BODY, cmd.dek, 0);
    ResealedTransacts(m, w, v, true, p, jobs, map[], cmd.vid, inp);
  }

  lemma EditTransacts(m: Machine, w: World, body: VaultBody, inp: Inputs)
    requires WorldOk(m, w) && w.image.Some? && GoodInputs(w, EditItems(body), inp)
    ensures var p := EditPlan(w, body, inp);
            && Transacts(m, w, Hello.CredName(w.image.value.header.vaultId), inp.newKey, p)
            && p.outcome.Ok? && p.outcome.value.image.header.slots == SlotsOf(w)
            && p.outcome.value.image.ct.key == w.image.value.ct.key && p.outcome.value.image.ct.plaintext == body
  {
    CurrentIsSound(m, w);
    SaveTransacts(m, w, Hello.CredName(w.image.value.header.vaultId), inp.newKey, [], Current(w).(body := body), false,
                  inp.bodyNonce, w.ledger, []);
  }
}
