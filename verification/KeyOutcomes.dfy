/**
 * What each slot command makes of a vault, said from its arguments and the file it found alone: when it
 * succeeds, which slots are saved, what opens them, and which credentials are left.
 */
module KeyOutcomes {
  import opened Basics
  import opened Body
  import opened Slots
  import opened Header
  import opened Vault
  import opened KeyCommands
  import opened KeyTheorems
  import opened KeyRuns
  import Hello

  // ---------------------------------------------------------------------------
  // What opens a slot
  // ---------------------------------------------------------------------------

  /** A passphrase slot that this secret opens, and no other. */
  ghost predicate OpensOnlyWith(slot: KeySlot, secret: string, vid: VaultId, dek: Dek) {
    && OpenWithSecret(slot, secret, vid) == Ok(dek)
    && forall other :: OpenWithSecret(slot, other, vid).Ok? ==> other == secret
  }

  /** A Hello slot that opens with the vault's credential in the store, inside a DPAPI envelope if so wanted. */
  ghost predicate IsHelloSlot(m: Machine, creds: map<string, nat>, slot: KeySlot, dpapi: bool, vid: VaultId, dek: Dek) {
    && slot.params.HelloParams? && slot.params.dpapi == dpapi == slot.ct.Protected?
    && slot.params.credName == Hello.CredName(vid)
    && OpenWithStore(m, creds, slot, vid) == Ok(dek)
  }

  /** The slot that was asked for: it opens with the secret handed in, or with the credential in the store. */
  ghost predicate OpensAsHanded(m: Machine, creds: map<string, nat>, slot: KeySlot, newSlot: NewSlot, vid: VaultId,
                                dek: Dek) {
    match newSlot
    case NewPassphrase(secret, argon2) =>
      slot.params == PassphraseParams(argon2) && OpensOnlyWith(slot, secret, vid, dek)
    case NewHello(dpapi) => IsHelloSlot(m, creds, slot, dpapi, vid, dek)
  }

  lemma OneSecret(slot: KeySlot, secret: string, other: string, vid: VaultId)
    requires OpenWithSecret(slot, secret, vid).Ok? && OpenWithSecret(slot, other, vid).Ok?
    ensures other == secret
  {
  }

  lemma AskedOpens(m: Machine, creds: map<string, nat>, slot: KeySlot, newSlot: NewSlot, secret: Secret,
                   vid: VaultId, dek: Dek)
    requires Hello.Lawful(m.sc) && GoodSlot(m, slot, secret, vid, dek) && AsAsked(newSlot, slot, secret)
    requires newSlot.NewHello? ==> Live(m, creds, slot)
    ensures OpensAsHanded(m, creds, slot, newSlot, vid, dek)
  {
    match newSlot
    case NewPassphrase(given, _) =>
      forall other | OpenWithSecret(slot, other, vid).Ok? ensures other == given {
        OneSecret(slot, given, other, vid);
      }
    case NewHello(_) => LiveOpens(m, creds, slot, secret, vid, dek);
  }

  // ---------------------------------------------------------------------------
  // What is kept
  // ---------------------------------------------------------------------------

  /** The next generation of the same vault with the same items. */
  ghost predicate SameVault(was: Image, img: Image) {
    && img.header.vaultId == was.header.vaultId && img.header.created == was.header.created
    && img.header.generation == was.header.generation + 1
    && img.ct.plaintext == was.ct.plaintext
    && ValidHeader(img.header)
  }

  predicate Before(all: seq<KeySlot>, x: KeySlot, y: KeySlot) {
    exists a, b | 0 <= a < b < |all| :: all[a] == x && all[b] == y
  }

  /** Whatever stands before another slot in `part` stands before it in `all`. */
  ghost predicate InOrder(all: seq<KeySlot>, part: seq<KeySlot>) {
    forall i, j | 0 <= i < j < |part| :: Before(all, part[i], part[j])
  }

  lemma BeforeCons(head: KeySlot, rest: seq<KeySlot>, x: KeySlot, y: KeySlot)
    ensures Before(rest, x, y) ==> Before([head] + rest, x, y)
    ensures y in rest ==> Before([head] + rest, head, y)
  {
    var all := [head] + rest;
    if Before(rest, x, y) {
      var a, b :| 0 <= a < b < |rest| && rest[a] == x && rest[b] == y;
      assert all[a + 1] == x && all[b + 1] == y;
    }
    if y in rest {
      var b :| 0 <= b < |rest| && rest[b] == y;
      assert all[0] == head && all[b + 1] == y;
    }
  }

  lemma {:induction false} KeepInOrder(slots: seq<KeySlot>, drop: KeySlot -> bool)
    ensures InOrder(slots, Keep(slots, drop))
  {
    if slots != [] {
      var head, rest, kept := slots[0], slots[1..], Keep(slots[1..], drop);
      assert slots == [head] + rest;
      KeepInOrder(rest, drop);
      forall i, j | 0 <= i < j < |kept| ensures Before(slots, kept[i], kept[j]) {
        BeforeCons(head, rest, kept[i], kept[j]);
      }
      forall j | 0 <= j < |kept| ensures Before(slots, head, kept[j]) {
        assert kept[j] in kept;
        BeforeCons(head, rest, head, kept[j]);
      }
    }
  }

  // ---------------------------------------------------------------------------
  // What is left of the credentials
  // ---------------------------------------------------------------------------

  /** The credentials of slots that were there and are not kept, as far as no saved slot names them. */
  ghost function Orphans(all: seq<KeySlot>, kept: seq<KeySlot>, saved: seq<KeySlot>): set<string> {
    set s | s in all && s !in kept && s.params.HelloParams?
            && (forall t | t in saved && t.params.HelloParams? :: t.params.credName != s.params.credName)
      :: s.params.credName
  }

  lemma {:induction false} DoomedIff(removed: seq<KeySlot>, saved: seq<KeySlot>, name: string)
    ensures name in Doomed(removed, saved) <==>
              && (exists s | s in removed :: s.params.HelloParams? && s.params.credName == name)
              && forall t | t in saved && t.params.HelloParams? :: t.params.credName != name
  {
    if removed != [] {
      var n := |removed| - 1;
      DoomedIff(removed[..n], saved, name);
      assert removed == removed[..n] + [removed[n]];
    }
  }

  lemma {:induction false} DeletesRemove(w: World, names: seq<string>, ok: bool)
    ensures ApplyAll(w, Deletes(names, ok)) == w.(creds := if ok then w.creds - (set n | n in names) else w.creds)
    decreases |names|
  {
    if names != [] {
      var es, w1 := Deletes(names, ok), Apply(w, Delete(names[0], ok));
      assert es[0] == Delete(names[0], ok) && es[1..] == Deletes(names[1..], ok);
      DeletesRemove(w1, names[1..], ok);
      if ok {
        assert names == [names[0]] + names[1..];
        assert w.creds - {names[0]} - (set n | n in names[1..]) == w.creds - (set n | n in names);
      }
    }
  }

  /** A plan carried out to its end. */
  lemma FullRun(w: World, name: string, key: nat, p: Plan)
    requires MakesAtMostOne(w.creds, p.before, name, key) && p.outcome.Ok?
    ensures ApplyAll(w, p.Effects()) == ApplyAll(SavedWorld(w, p.before, p.outcome.value), p.outcome.value.after)
  {
    var n := |p.Effects()|;
    PrefixWorld(w, name, key, p, n);
    assert p.Effects()[..n] == p.Effects();
    assert p.outcome.value.after[..n - |p.before| - 1] == p.outcome.value.after;
  }

  /** Carried out to its end, a plan that drops slots leaves exactly the credentials that are not orphaned. */
  lemma CredentialsLeft(w: World, name: string, key: nat, p: Plan, drop: KeySlot -> bool, ok: bool)
    requires MakesAtMostOne(w.creds, p.before, name, key) && p.outcome.Ok?
    requires p.outcome.value.after ==
               Deletes(Doomed(Keep(SlotsOf(w), Not(drop)), p.outcome.value.image.header.slots), ok)
    ensures var all, saved := SlotsOf(w), p.outcome.value.image.header.slots;
            var base := StoreAfter(w.creds, p.before);
            ApplyAll(w, p.Effects()).creds == if ok then base - Orphans(all, Keep(all, drop), saved) else base
  {
    var all, saved := SlotsOf(w), p.outcome.value.image.header.slots;
    var names := Doomed(Keep(all, Not(drop)), saved);
    FullRun(w, name, key, p);
    DeletesRemove(SavedWorld(w, p.before, p.outcome.value), names, ok);
    forall n ensures n in names <==> n in Orphans(all, Keep(all, drop), saved) {
      DoomedIff(Keep(all, Not(drop)), saved, n);
    }
    assert (set n | n in names) == Orphans(all, Keep(all, drop), saved);
  }

  // ---------------------------------------------------------------------------
  // slot add
  // ---------------------------------------------------------------------------

  /** Some id from 1 to 255 is free. */
  predicate HasFreeId(slots: seq<KeySlot>) { exists k | 1 <= k <= 255 :: !IdUsed(slots, k) }

  /** `id` is the least from 1 on that no slot carries. */
  ghost predicate LeastFree(slots: seq<KeySlot>, id: int) {
    1 <= id && !IdUsed(slots, id) && forall k | 1 <= k < id :: IdUsed(slots, k)
  }

  /** The slots saved are the kept ones and, last, the one asked for, under the least free id. */
  ghost predicate SavesJoined(m: Machine, w: World, kept: seq<KeySlot>, slotLabel: string, newSlot: NewSlot,
                              before: seq<Effect>, img: Image)
    requires w.image.Some?
  {
    var n, slots := |kept|, img.header.slots;
    && SameVault(w.image.value, img) && img.ct.key == w.image.value.ct.key
    && |slots| == n + 1 && slots[..n] == kept
    && slots[n].slotLabel == slotLabel && LeastFree(kept, slots[n].id)
    && OpensAsHanded(m, StoreAfter(w.creds, before), slots[n], newSlot, img.header.vaultId, img.ct.key)
  }

  lemma JoinedSaves(m: Machine, w: World, kept: seq<KeySlot>, slotLabel: string, newSlot: NewSlot, key: nat, p: Plan)
    requires Hello.Lawful(m.sc) && w.image.Some? && |w.image.value.header.vaultId| == 16 && p.outcome.Ok?
    requires Transacts(m, w, Hello.CredName(w.image.value.header.vaultId), key, p)
    requires Joins(m, w, kept, slotLabel, newSlot, p)
    ensures SavesJoined(m, w, kept, slotLabel, newSlot, p.before, p.outcome.value.image)
  {
    var save, n := p.outcome.value, |kept|;
    var slot := save.image.header.slots[n];
    assert slot in save.image.header.slots;
    FirstFreeIdIsLeast(kept);
    AskedOpens(m, StoreAfter(w.creds, p.before), slot, newSlot, save.ledger[slot.id], save.image.header.vaultId,
               save.image.ct.key);
  }

  lemma SealsNewIff(m: Machine, w: World, kept: seq<KeySlot>, slotLabel: string, newSlot: NewSlot, inp: Inputs)
    requires w.image.Some? && |w.image.value.header.vaultId| == 16 && 1 <= |inp.draws|
    ensures SealsNew(m, w, kept, slotLabel, newSlot, inp) <==> HasFreeId(kept) && Sealable(m, newSlot)
  {
    FirstFreeIdIsLeast(kept);
    if FirstFreeId(kept).Ok? {
      SealsIffSealable(m, w.creds, FirstFreeId(kept).value, slotLabel, newSlot, inp.draws[0], inp.newKey,
                       w.image.value.header.vaultId, w.image.value.ct.key);
    }
  }

  /**
   * `slot add` succeeds if and only if the label is neither empty nor taken, an id is free and the slot can be
   * sealed. It then appends a slot that opens with the secret handed in, and with no other.
   */
  lemma AddOutcome(m: Machine, w: World, slotLabel: string, newSlot: NewSlot, inp: Inputs)
    requires Hello.Lawful(m.sc) && WorldOk(m, w) && w.image.Some? && GoodInputs(w, SlotAdd(slotLabel, newSlot), inp)
    ensures var p := PlanOf(m, w, SlotAdd(slotLabel, newSlot), inp);
            && (p.outcome.Ok? <==>
                  && slotLabel != "" && (forall s | s in SlotsOf(w) :: s.slotLabel != slotLabel)
                  && HasFreeId(SlotsOf(w)) && Sealable(m, newSlot))
            && (p.outcome.Ok? ==>
                  SavesJoined(m, w, SlotsOf(w), slotLabel, newSlot, p.before, p.outcome.value.image))
  {
    HeaderReads(m, w);
    PlanOfAdd(m, w, slotLabel, newSlot, inp);
    AddTransacts(m, w, slotLabel, newSlot, inp);
    SealsNewIff(m, w, SlotsOf(w), slotLabel, newSlot, inp);
    var p := AddPlan(m, w, slotLabel, newSlot, inp);
    if p.outcome.Ok? { JoinedSaves(m, w, SlotsOf(w), slotLabel, newSlot, inp.newKey, p); }
  }

  // ---------------------------------------------------------------------------
  // slot rm
  // ---------------------------------------------------------------------------

  /** The credential store after a whole command that dropped all but the slots `kept`. */
  ghost predicate CredentialsAfter(m: Machine, w: World, cmd: Command, inp: Inputs, base: map<string, nat>,
                                   kept: seq<KeySlot>)
    requires GoodInputs(w, cmd, inp) && PlanOf(m, w, cmd, inp).outcome.Ok?
  {
    var saved := PlanOf(m, w, cmd, inp).outcome.value.image.header.slots;
    ApplyAll(w, PlanOf(m, w, cmd, inp).Effects()).creds
      == if inp.deletable then base - Orphans(SlotsOf(w), kept, saved) else base
  }

  lemma RmCredentials(m: Machine, w: World, slotLabel: string, inp: Inputs)
    requires Hello.Lawful(m.sc) && WorldOk(m, w) && w.image.Some? && GoodInputs(w, SlotRm(slotLabel), inp)
    requires RmPlan(w, slotLabel, inp).outcome.Ok?
    ensures var p := RmPlan(w, slotLabel, inp);
            && p.before == []
            && ApplyAll(w, p.Effects()).creds
                 == (if inp.deletable then w.creds - Orphans(SlotsOf(w), p.outcome.value.image.header.slots,
                                                            p.outcome.value.image.header.slots)
                     else w.creds)
  {
    HeaderReads(m, w);
    RmTransacts(m, w, slotLabel, inp);
    CredentialsLeft(w, Hello.CredName(w.image.value.header.vaultId), inp.newKey, RmPlan(w, slotLabel, inp),
                    ByLabel(slotLabel), inp.deletable);
  }

  /** What the label check lets pass. */
  lemma RemovableIff(slots: seq<KeySlot>, slotLabel: string)
    ensures CheckRemovable(slots, slotLabel).Ok? <==>
              && (exists s | s in slots :: s.slotLabel == slotLabel)
              && exists s | s in slots :: s.params.PassphraseParams? && s.slotLabel != slotLabel
  {
    var remaining := Keep(slots, ByLabel(slotLabel));
    forall s | s in slots && s.params.PassphraseParams? && s.slotLabel != slotLabel ensures s in remaining {}
  }

  /**
   * `slot rm` succeeds if and only if a slot has the label and a passphrase slot has another. It saves the other
   * slots in their order and deletes the credentials that were only needed by those it removed.
   */
  lemma RmOutcome(m: Machine, w: World, slotLabel: string, inp: Inputs)
    requires Hello.Lawful(m.sc) && WorldOk(m, w) && w.image.Some? && GoodInputs(w, SlotRm(slotLabel), inp)
    ensures var p, all := PlanOf(m, w, SlotRm(slotLabel), inp), SlotsOf(w);
            && (p.outcome.Ok? <==>
                  && (exists s | s in all :: s.slotLabel == slotLabel)
                  && exists s | s in all :: s.params.PassphraseParams? && s.slotLabel != slotLabel)
            && (p.outcome.Ok? ==>
                  var img := p.outcome.value.image;
                  && SameVault(w.image.value, img) && img.ct.key == w.image.value.ct.key
                  && (forall s :: s in img.header.slots <==> s in all && s.slotLabel != slotLabel)
                  && InOrder(all, img.header.slots)
                  && CredentialsAfter(m, w, SlotRm(slotLabel), inp, w.creds, img.header.slots))
  {
    HeaderReads(m, w);
    PlanOfRm(m, w, slotLabel, inp);
    RmTransacts(m, w, slotLabel, inp);
    RemovableIff(SlotsOf(w), slotLabel);
    KeepInOrder(SlotsOf(w), ByLabel(slotLabel));
    if RmPlan(w, slotLabel, inp).outcome.Ok? { RmCredentials(m, w, slotLabel, inp); }
  }

  // ---------------------------------------------------------------------------
  // recover
  // ---------------------------------------------------------------------------

  /** What `recover` leaves alone: passphrase slots that do not carry the label of the new slot. */
  predicate Stays(s: KeySlot, newSlot: NewSlot) {
    s.params.PassphraseParams? && s.slotLabel != (if newSlot.NewHello? then "hello" else "passphrase")
  }

  /** The store with the credential a new Hello slot needs. */
  function WithCredential(creds: map<string, nat>, name: string, newSlot: NewSlot, key: nat): map<string, nat> {
    if newSlot.NewHello? && name !in creds then creds[name := key] else creds
  }

  /** Before its save a command that joins a slot makes the credential the slot needs. */
  lemma JoinMakes(m: Machine, w: World, kept: seq<KeySlot>, removed: seq<KeySlot>, slotLabel: string,
                  newSlot: NewSlot, inp: Inputs)
    requires w.image.Some? && |w.image.value.header.vaultId| == 16 && 1 <= |inp.draws|
    requires JoinPlan(m, w, kept, removed, slotLabel, newSlot, inp).outcome.Ok?
    ensures var p := JoinPlan(m, w, kept, removed, slotLabel, newSlot, inp);
            && StoreAfter(w.creds, p.before)
                 == WithCredential(w.creds, Hello.CredName(w.image.value.header.vaultId), newSlot, inp.newKey)
            && p.outcome.value.after
                 == Deletes(Doomed(removed, p.outcome.value.image.header.slots), inp.deletable)
  {
  }

  lemma RecoverCredentials(m: Machine, w: World, newSlot: NewSlot, inp: Inputs)
    requires Hello.Lawful(m.sc) && WorldOk(m, w) && w.image.Some? && GoodInputs(w, Recover(newSlot), inp)
    requires |w.image.value.header.vaultId| == 16 && RecoverPlan(m, w, newSlot, inp).outcome.Ok?
    ensures var p, kept := RecoverPlan(m, w, newSlot, inp), Keep(SlotsOf(w), ByKindOrLabel(RecoverLabel(newSlot)));
            var name := Hello.CredName(w.image.value.header.vaultId);
            && StoreAfter(w.creds, p.before) == WithCredential(w.creds, name, newSlot, inp.newKey)
            && ApplyAll(w, p.Effects()).creds
                 == (if inp.deletable
                     then StoreAfter(w.creds, p.before)
                       - Orphans(SlotsOf(w), kept, p.outcome.value.image.header.slots)
                     else StoreAfter(w.creds, p.before))
  {
    var p, drop := RecoverPlan(m, w, newSlot, inp), ByKindOrLabel(RecoverLabel(newSlot));
    RecoverTransacts(m, w, newSlot, inp);
    JoinMakes(m, w, Keep(SlotsOf(w), drop), Keep(SlotsOf(w), Not(drop)), RecoverLabel(newSlot), newSlot, inp);
    CredentialsLeft(w, Hello.CredName(w.image.value.header.vaultId), inp.newKey, p, drop, inp.deletable);
  }

  /** The slots that stay are the passphrase slots with another label. */
  lemma RecoverStays(slots: seq<KeySlot>, newSlot: NewSlot)
    ensures var kept := Keep(slots, ByKindOrLabel(RecoverLabel(newSlot)));
            (forall s :: s in kept <==> s in slots && Stays(s, newSlot)) && InOrder(slots, kept)
  {
    KeepInOrder(slots, ByKindOrLabel(RecoverLabel(newSlot)));
  }

  /**
   * `recover` drops every Hello slot and every slot with the label of the new one, keeps the others in their
   * order and puts the new slot last; it opens with what was handed in. It succeeds if and only if an id is free
   * among the kept slots and the new one can be sealed. Of the credentials those of dropped slots go that no
   * saved slot names.
   */
  lemma RecoverOutcome(m: Machine, w: World, newSlot: NewSlot, inp: Inputs) returns (kept: seq<KeySlot>)
    requires Hello.Lawful(m.sc) && WorldOk(m, w) && w.image.Some? && GoodInputs(w, Recover(newSlot), inp)
    ensures |w.image.value.header.vaultId| == 16
    ensures (forall s :: s in kept <==> s in SlotsOf(w) && Stays(s, newSlot)) && InOrder(SlotsOf(w), kept)
    ensures var p := PlanOf(m, w, Recover(newSlot), inp);
            && (p.outcome.Ok? <==> HasFreeId(kept) && Sealable(m, newSlot))
            && (p.outcome.Ok? ==>
                  var newLabel := if newSlot.NewHello? then "hello" else "passphrase";
                  var name := Hello.CredName(w.image.value.header.vaultId);
                  && SavesJoined(m, w, kept, newLabel, newSlot, p.before, p.outcome.value.image)
                  && CredentialsAfter(m, w, Recover(newSlot), inp,
                                      WithCredential(w.creds, name, newSlot, inp.newKey), kept))
  {
    HeaderReads(m, w);
    PlanOfRecover(m, w, newSlot, inp);
    kept := Keep(SlotsOf(w), ByKindOrLabel(RecoverLabel(newSlot)));
    RecoverStays(SlotsOf(w), newSlot);
    RecoverTransacts(m, w, newSlot, inp);
    SealsNewIff(m, w, kept, RecoverLabel(newSlot), newSlot, inp);
    var p := RecoverPlan(m, w, newSlot, inp);
    if p.outcome.Ok? {
      JoinedSaves(m, w, kept, RecoverLabel(newSlot), newSlot, inp.newKey, p);
      RecoverCredentials(m, w, newSlot, inp);
    }
  }

  // ---------------------------------------------------------------------------
  // rekey
  // ---------------------------------------------------------------------------

  /** The secret for the slot in place `i`: the new recovery key, or the passphrase given for the slot. */
  function RekeySecret(slots: seq<KeySlot>, i: nat, cmd: Command): string
    requires cmd.RekeyAll? && i < |slots| <= |cmd.passphrases|
  {
    if slots[i].slotLabel == "recovery" then cmd.recovery else cmd.passphrases[i]
  }

  /** Slot `i` can be sealed again. */
  predicate CanReseal(m: Machine, slots: seq<KeySlot>, i: nat, cmd: Command)
    requires cmd.RekeyAll? && i < |slots| <= |cmd.passphrases|
  {
    if slots[i].params.PassphraseParams? then RekeySecret(slots, i, cmd) != "" && ValidArgon2(cmd.argon2)
    else m.helloUsable && (slots[i].params.dpapi ==> m.dpapi)
  }

  /** Slot `i` after a `rekey`. */
  ghost predicate Resealed(m: Machine, creds: map<string, nat>, slots: seq<KeySlot>, i: nat, cmd: Command,
                           slot: KeySlot, vid: VaultId)
    requires cmd.RekeyAll? && i < |slots| <= |cmd.passphrases|
  {
    && slot.id == slots[i].id && slot.slotLabel == slots[i].slotLabel
    && match slots[i].params
       case PassphraseParams(_) =>
         && slot.params == PassphraseParams(cmd.argon2)
         && OpensOnlyWith(slot, RekeySecret(slots, i, cmd), vid, cmd.dek)
       case HelloParams(_, _, _, dpapi, _) =>
         IsHelloSlot(m, creds, slot, dpapi, vid, cmd.dek)
  }

  lemma JobIsResealed(m: Machine, creds: map<string, nat>, slots: seq<KeySlot>, i: nat, cmd: Command, save: Saving,
                      vid: VaultId)
    requires Hello.Lawful(m.sc) && cmd.RekeyAll? && i < |slots| <= |cmd.passphrases|
    requires AllGood(m, save.image.header.slots, save.ledger, vid, cmd.dek)
    requires SealsJobs(m, creds, RekeyJobs(slots, cmd), save)
    ensures |save.image.header.slots| == |slots|
    ensures Resealed(m, creds, slots, i, cmd, save.image.header.slots[i], vid)
  {
    var slot, job := save.image.header.slots[i], RekeyJobs(slots, cmd)[i];
    assert job == RekeyJob(slots[i], i, cmd);
    assert slot in save.image.header.slots;
    AskedOpens(m, creds, slot, job.newSlot, save.ledger[slot.id], vid, cmd.dek);
  }

  lemma JobCanBeSealed(m: Machine, slots: seq<KeySlot>, i: nat, cmd: Command)
    requires cmd.RekeyAll? && i < |slots| <= |cmd.passphrases|
    ensures CanReseal(m, slots, i, cmd) <==> Sealable(m, RekeyJob(slots[i], i, cmd).newSlot)
  {
  }

  /** All slots of the file a `rekey` saves. */
  lemma AllResealed(m: Machine, w: World, cmd: Command, p: Plan)
    requires Hello.Lawful(m.sc) && w.image.Some? && cmd.RekeyAll? && |SlotsOf(w)| <= |cmd.passphrases|
    requires p.outcome.Ok? && Rekeyed(m, w, p, cmd) && GoodImage(m, p.outcome.value.image, p.outcome.value.ledger)
    ensures var slots, img := SlotsOf(w), p.outcome.value.image;
            && |img.header.slots| == |slots|
            && forall i | 0 <= i < |slots| ::
                 Resealed(m, StoreAfter(w.creds, p.before), slots, i, cmd, img.header.slots[i], img.header.vaultId)
  {
    var slots, save := SlotsOf(w), p.outcome.value;
    forall i | 0 <= i < |slots|
      ensures Resealed(m, StoreAfter(w.creds, p.before), slots, i, cmd, save.image.header.slots[i],
                       save.image.header.vaultId)
    {
      JobIsResealed(m, StoreAfter(w.creds, p.before), slots, i, cmd, save, save.image.header.vaultId);
    }
  }

  lemma RekeySucceeds(m: Machine, w: World, cmd: Command, inp: Inputs)
    requires Hello.Lawful(m.sc) && WorldOk(m, w) && w.image.Some? && cmd.RekeyAll? && GoodInputs(w, cmd, inp)
    ensures RekeyPlan(m, w, cmd, inp).outcome.Ok? <==>
              forall i | 0 <= i < |SlotsOf(w)| :: CanReseal(m, SlotsOf(w), i, cmd)
  {
    RekeySucceedsIff(m, w, cmd, inp);
    forall i | 0 <= i < |SlotsOf(w)|
      ensures CanReseal(m, SlotsOf(w), i, cmd) <==> Sealable(m, RekeyJob(SlotsOf(w)[i], i, cmd).newSlot)
    {
      JobCanBeSealed(m, SlotsOf(w), i, cmd);
    }
  }

  /** The file a `rekey` saves: the same vault under the new key, every slot sealed again. */
  ghost predicate SavesResealed(m: Machine, w: World, cmd: Command, p: Plan)
    requires w.image.Some? && cmd.RekeyAll? && |SlotsOf(w)| <= |cmd.passphrases| && p.outcome.Ok?
  {
    var all, img := SlotsOf(w), p.outcome.value.image;
    && SameVault(w.image.value, img) && img.ct.key == cmd.dek && p.outcome.value.after == []
    && |img.header.slots| == |all|
    && forall i | 0 <= i < |all| ::
         Resealed(m, StoreAfter(w.creds, p.before), all, i, cmd, img.header.slots[i], img.header.vaultId)
  }

  lemma RekeySaves(m: Machine, w: World, cmd: Command, inp: Inputs)
    requires Hello.Lawful(m.sc) && WorldOk(m, w) && w.image.Some? && cmd.RekeyAll? && GoodInputs(w, cmd, inp)
    requires RekeyPlan(m, w, cmd, inp).outcome.Ok?
    ensures SavesResealed(m, w, cmd, RekeyPlan(m, w, cmd, inp))
  {
    RekeyTransacts(m, w, cmd, inp);
    AllResealed(m, w, cmd, RekeyPlan(m, w, cmd, inp));
  }

  /**
   * `rekey` succeeds if and only if every slot can be sealed again. Then every slot keeps place, id, label and
   * kind; a slot labelled `recovery` opens with the new recovery key and nothing else, every other passphrase
   * slot with the passphrase given for it and nothing else, and all of them to the new key.
   */
  lemma RekeyOutcome(m: Machine, w: World, cmd: Command, inp: Inputs)
    requires Hello.Lawful(m.sc) && WorldOk(m, w) && w.image.Some? && cmd.RekeyAll? && GoodInputs(w, cmd, inp)
    ensures var p := PlanOf(m, w, cmd, inp);
            && (p.outcome.Ok? <==> forall i | 0 <= i < |SlotsOf(w)| :: CanReseal(m, SlotsOf(w), i, cmd))
            && (p.outcome.Ok? ==> SavesResealed(m, w, cmd, p))
  {
    HeaderReads(m, w);
    PlanOfRekey(m, w, cmd, inp);
    RekeySucceeds(m, w, cmd, inp);
    if RekeyPlan(m, w, cmd, inp).outcome.Ok? { RekeySaves(m, w, cmd, inp); }
  }

  // ---------------------------------------------------------------------------
  // init and the commands that edit items
  // ---------------------------------------------------------------------------

  /** The slots of a new vault: Hello if wanted, always a recovery key, a passphrase if wanted. */
  function Wanted(cmd: Command): seq<(string, NewSlot)>
    requires cmd.InitVault?
  {
    (if cmd.hello.Some? then [("hello", NewHello(cmd.hello.value))] else [])
    + [("recovery", NewPassphrase(cmd.recovery, cmd.argon2))]
    + if cmd.passphrase.Some? then [("passphrase", NewPassphrase(cmd.passphrase.value, cmd.argon2))] else []
  }

  lemma WantedAreJobs(cmd: Command)
    requires cmd.InitVault?
    ensures var jobs, wanted := InitJobs(cmd), Wanted(cmd);
            && |jobs| == |wanted|
            && forall i | 0 <= i < |jobs| ::
                 jobs[i].id == i + 1 && jobs[i].slotLabel == wanted[i].0 && jobs[i].newSlot == wanted[i].1
  {
  }

  /** Every slot as wanted, numbered from 1. */
  ghost predicate SavesWanted(m: Machine, creds: map<string, nat>, cmd: Command, slots: seq<KeySlot>)
    requires cmd.InitVault?
  {
    && |slots| == |Wanted(cmd)|
    && forall i | 0 <= i < |slots| ::
         && slots[i].id == i + 1 && slots[i].slotLabel == Wanted(cmd)[i].0
         && OpensAsHanded(m, creds, slots[i], Wanted(cmd)[i].1, cmd.vid, cmd.dek)
  }

  lemma JobsAreWanted(m: Machine, creds: map<string, nat>, cmd: Command, save: Saving)
    requires Hello.Lawful(m.sc) && cmd.InitVault? && SealsJobs(m, creds, InitJobs(cmd), save)
    requires AllGood(m, save.image.header.slots, save.ledger, cmd.vid, cmd.dek)
    ensures SavesWanted(m, creds, cmd, save.image.header.slots)
  {
    var slots := save.image.header.slots;
    WantedAreJobs(cmd);
    forall i | 0 <= i < |slots| ensures OpensAsHanded(m, creds, slots[i], Wanted(cmd)[i].1, cmd.vid, cmd.dek) {
      assert slots[i] in slots;
      AskedOpens(m, creds, slots[i], InitJobs(cmd)[i].newSlot, save.ledger[slots[i].id], cmd.vid, cmd.dek);
    }
  }

  lemma InitSucceedsIff(m: Machine, w: World, cmd: Command, inp: Inputs)
    requires Hello.Lawful(m.sc) && cmd.InitVault? && GoodInputs(w, cmd, inp)
    ensures InitPlan(m, w, cmd, inp).outcome.Ok? <==>
              w.image.None? && forall i | 0 <= i < |Wanted(cmd)| :: Sealable(m, Wanted(cmd)[i].1)
  {
    var jobs := InitJobs(cmd);
    InitTransacts(m, w, cmd, inp);
    WantedAreJobs(cmd);
    SealAllIff(m, w.creds, jobs, |jobs|, inp, cmd.vid, cmd.dek);
    forall i | 0 <= i < |jobs| ensures Sealable(m, jobs[i].newSlot) <==> Sealable(m, Wanted(cmd)[i].1) {}
  }

  /**
   * `init` succeeds if and only if there is no file and every wanted slot can be sealed. It then saves the first
   * generation of an empty vault, whose slots open with what was handed in.
   */
  lemma InitOutcome(m: Machine, w: World, cmd: Command, inp: Inputs)
    requires Hello.Lawful(m.sc) && cmd.InitVault? && GoodInputs(w, cmd, inp)
    ensures var p := PlanOf(m, w, cmd, inp);
            && (p.outcome.Ok? <==>
                  w.image.None? && forall i | 0 <= i < |Wanted(cmd)| :: Sealable(m, Wanted(cmd)[i].1))
            && (p.outcome.Ok? ==>
                  var img := p.outcome.value.image;
                  && img.header.v == 1 && img.header.vaultId == cmd.vid && img.header.created == cmd.created
                  && img.header.generation == 1 && img.header.bodyCipher == "xchacha20poly1305"
                  && img.ct.key == cmd.dek && img.ct.plaintext == VaultBody([], Settings(None))
                  && p.outcome.value.after == []
                  && SavesWanted(m, StoreAfter(w.creds, p.before), cmd, img.header.slots))
  {
    var p := InitPlan(m, w, cmd, inp);
    assert PlanOf(m, w, cmd, inp) == p;
    InitSucceedsIff(m, w, cmd, inp);
    InitTransacts(m, w, cmd, inp);
    if p.outcome.Ok? { JobsAreWanted(m, StoreAfter(w.creds, p.before), cmd, p.outcome.value); }
  }

  /** A command that edits items saves just them, under the same slots and key. */
  lemma EditOutcome(m: Machine, w: World, body: VaultBody, inp: Inputs)
    requires WorldOk(m, w) && w.image.Some? && GoodInputs(w, EditItems(body), inp)
    ensures var p := PlanOf(m, w, EditItems(body), inp);
            && p.outcome.Ok? && p.before == [] && p.outcome.value.after == []
            && var img := p.outcome.value.image;
               && img.ct.plaintext == body && img.ct.key == w.image.value.ct.key
               && img.header == w.image.value.header.(generation := w.image.value.header.generation + 1,
                                                      bodyNonce := inp.bodyNonce)
  {
    HeaderReads(m, w);
    PlanOfEdit(m, w, body, inp);
    EditTransacts(m, w, body, inp);
  }

  // ---------------------------------------------------------------------------
  // What a command reports when it fails
  // ---------------------------------------------------------------------------

  /** Without a file, or with a damaged one, every command but `init` says so and does nothing. */
  lemma NeedsAFile(m: Machine, w: World, cmd: Command, inp: Inputs)
    requires GoodInputs(w, cmd, inp) && !cmd.InitVault? && !(cmd.SlotAdd? && cmd.slotLabel == "")
    requires w.image.None? || !ValidHeader(w.image.value.header)
    ensures var p := PlanOf(m, w, cmd, inp);
            && p.before == [] && p.outcome.Err?
            && if w.image.None? then p.outcome.error.NotInitialized? else p.outcome.error.Integrity?
  {
    if w.image.Some? { ValidateTable(w.image.value.header); }
  }

  lemma JoinRefuses(m: Machine, w: World, kept: seq<KeySlot>, removed: seq<KeySlot>, slotLabel: string,
                    newSlot: NewSlot, inp: Inputs)
    requires Hello.Lawful(m.sc) && WorldOk(m, w) && w.image.Some? && |w.image.value.header.vaultId| == 16
    requires 1 <= |inp.draws| && GoodFresh(inp.draws[0]) && |inp.bodyNonce| == NONCE_LEN
    requires DistinctIds(kept) && DistinctLabels(kept) && !HasLabel(kept, slotLabel)
    requires forall t | t in kept :: t in SlotsOf(w)
    ensures var p := JoinPlan(m, w, kept, removed, slotLabel, newSlot, inp);
            p.outcome.Err? ==> if HasFreeId(kept) then RefusedAs(newSlot, p.outcome.error) else p.outcome.error.Invalid?
  {
    FirstFreeIdIsLeast(kept);
    JoinTransacts(m, w, kept, removed, slotLabel, newSlot, inp);
  }

  lemma AddRefuses(m: Machine, w: World, slotLabel: string, newSlot: NewSlot, inp: Inputs)
    requires Hello.Lawful(m.sc) && WorldOk(m, w) && w.image.Some? && GoodInputs(w, SlotAdd(slotLabel, newSlot), inp)
    requires PlanOf(m, w, SlotAdd(slotLabel, newSlot), inp).outcome.Err?
    ensures var e := PlanOf(m, w, SlotAdd(slotLabel, newSlot), inp).outcome.error;
            if slotLabel == "" then e.Invalid?
            else if exists s | s in SlotsOf(w) :: s.slotLabel == slotLabel then e.AlreadyExists?
            else if HasFreeId(SlotsOf(w)) then RefusedAs(newSlot, e)
            else e.Invalid?
  {
    HeaderReads(m, w);
    PlanOfAdd(m, w, slotLabel, newSlot, inp);
    if !HasLabel(SlotsOf(w), slotLabel) { JoinRefuses(m, w, SlotsOf(w), [], slotLabel, newSlot, inp); }
  }

  lemma RmRefuses(m: Machine, w: World, slotLabel: string, inp: Inputs)
    requires WorldOk(m, w) && w.image.Some? && GoodInputs(w, SlotRm(slotLabel), inp)
    requires PlanOf(m, w, SlotRm(slotLabel), inp).outcome.Err?
    ensures PlanOf(m, w, SlotRm(slotLabel), inp).before == []
    ensures PlanOf(m, w, SlotRm(slotLabel), inp).outcome.error.Invalid?
  {
    HeaderReads(m, w);
    PlanOfRm(m, w, slotLabel, inp);
    RmTransacts(m, w, slotLabel, inp);
  }

  lemma RecoverRefuses(m: Machine, w: World, newSlot: NewSlot, inp: Inputs, kept: seq<KeySlot>)
    requires Hello.Lawful(m.sc) && WorldOk(m, w) && w.image.Some? && GoodInputs(w, Recover(newSlot), inp)
    requires PlanOf(m, w, Recover(newSlot), inp).outcome.Err?
    requires forall s :: s in kept <==> s in SlotsOf(w) && Stays(s, newSlot)
    ensures var e := PlanOf(m, w, Recover(newSlot), inp).outcome.error;
            if HasFreeId(kept) then RefusedAs(newSlot, e) else e.Invalid?
  {
    var drop := ByKindOrLabel(RecoverLabel(newSlot));
    var own := Keep(SlotsOf(w), drop);
    HeaderReads(m, w);
    PlanOfRecover(m, w, newSlot, inp);
    RecoverStays(SlotsOf(w), newSlot);
    KeepDistinct(SlotsOf(w), drop);
    SameIds(own, kept);
    JoinRefuses(m, w, own, Keep(SlotsOf(w), Not(drop)), RecoverLabel(newSlot), newSlot, inp);
  }

  lemma SameIds(a: seq<KeySlot>, b: seq<KeySlot>)
    requires forall s :: s in a <==> s in b
    ensures HasFreeId(a) <==> HasFreeId(b)
  {
    forall id ensures IdUsed(a, id) <==> IdUsed(b, id) {
      if i :| 0 <= i < |a| && a[i].id == id { assert a[i] in b; }
      if i :| 0 <= i < |b| && b[i].id == id { assert b[i] in a; }
    }
  }

  /** Sealing one slot after the other fails with the error of the first that cannot be sealed. */
  lemma {:induction false} FirstRefused(m: Machine, creds: map<string, nat>, jobs: seq<Job>, n: nat, inp: Inputs,
                                        vid: VaultId, dek: Dek) returns (i: nat)
    requires n <= |jobs| <= |inp.draws| && SealAll(m, creds, jobs, n, inp, vid, dek).error.Some?
    ensures i < n && !Sealable(m, jobs[i].newSlot) && forall j | 0 <= j < i :: Sealable(m, jobs[j].newSlot)
    ensures RefusedAs(jobs[i].newSlot, SealAll(m, creds, jobs, n, inp, vid, dek).error.value)
  {
    var p := SealAll(m, creds, jobs, n - 1, inp, vid, dek);
    if p.error.Some? {
      i := FirstRefused(m, creds, jobs, n - 1, inp, vid, dek);
    } else {
      i := n - 1;
      SealAllIff(m, creds, jobs, i, inp, vid, dek);
      SealNextIff(m, p, jobs[i], inp.draws[i], inp.newKey, vid, dek);
    }
  }

  lemma RekeyRefuses(m: Machine, w: World, cmd: Command, inp: Inputs) returns (i: nat)
    requires Hello.Lawful(m.sc) && WorldOk(m, w) && w.image.Some? && cmd.RekeyAll? && GoodInputs(w, cmd, inp)
    requires PlanOf(m, w, cmd, inp).outcome.Err?
    ensures var e, all := PlanOf(m, w, cmd, inp).outcome.error, SlotsOf(w);
            if !m.helloUsable && exists s | s in all :: s.params.HelloParams? then e.AuthUnavailable?
            else
              && i < |all| && !CanReseal(m, all, i, cmd) && (forall j | 0 <= j < i :: CanReseal(m, all, j, cmd))
              && if all[i].params.HelloParams? then e.AuthUnavailable? else e.Invalid?
  {
    HeaderReads(m, w);
    PlanOfRekey(m, w, cmd, inp);
    i := RekeyPlanRefuses(m, w, cmd, inp);
  }

  lemma RekeyPlanRefuses(m: Machine, w: World, cmd: Command, inp: Inputs) returns (i: nat)
    requires Hello.Lawful(m.sc) && WorldOk(m, w) && w.image.Some? && |w.image.value.header.vaultId| == 16
    requires cmd.RekeyAll? && GoodInputs(w, cmd, inp) && RekeyPlan(m, w, cmd, inp).outcome.Err?
    ensures var e, all := RekeyPlan(m, w, cmd, inp).outcome.error, SlotsOf(w);
            if !m.helloUsable && exists s | s in all :: s.params.HelloParams? then e.AuthUnavailable?
            else
              && i < |all| && !CanReseal(m, all, i, cmd) && (forall j | 0 <= j < i :: CanReseal(m, all, j, cmd))
              && if all[i].params.HelloParams? then e.AuthUnavailable? else e.Invalid?
  {
    var all := SlotsOf(w);
    var jobs := RekeyJobs(all, cmd);
    RekeyTransacts(m, w, cmd, inp);
    i := 0;
    if SealAll(m, w.creds, jobs, |all|, inp, w.image.value.header.vaultId, cmd.dek).error.Some? {
      i := FirstRefused(m, w.creds, jobs, |all|, inp, w.image.value.header.vaultId, cmd.dek);
      forall j | 0 <= j <= i ensures CanReseal(m, all, j, cmd) <==> Sealable(m, jobs[j].newSlot) {
        JobCanBeSealed(m, all, j, cmd);
      }
    }
  }

  lemma InitRefuses(m: Machine, w: World, cmd: Command, inp: Inputs) returns (i: nat)
    requires Hello.Lawful(m.sc) && cmd.InitVault? && GoodInputs(w, cmd, inp)
    requires PlanOf(m, w, cmd, inp).outcome.Err?
    ensures var p, wanted := PlanOf(m, w, cmd, inp), Wanted(cmd);
            if w.image.Some? then p.before == [] && p.outcome.error.AlreadyExists?
            else
              && i < |wanted| && !Sealable(m, wanted[i].1) && (forall j | 0 <= j < i :: Sealable(m, wanted[j].1))
              && RefusedAs(wanted[i].1, p.outcome.error)
  {
    i := 0;
    assert PlanOf(m, w, cmd, inp) == InitPlan(m, w, cmd, inp);
    if w.image.None? {
      var jobs := InitJobs(cmd);
      InitTransacts(m, w, cmd, inp);
      WantedAreJobs(cmd);
      i := FirstRefused(m, w.creds, jobs, |jobs|, inp, cmd.vid, cmd.dek);
    }
  }
}
