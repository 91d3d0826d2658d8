/**
 * The commands that change key slots: `init`, `slot add`, `slot rm`, `recover` and `rekey`
 * (crates/wcm-cli/src/commands), with one step standing for every command that only edits items.
 *
 * A command is the list of effects it has on the world outside the process, in order: creating a Hello
 * credential, committing a new vault file, deleting a credential. A command that fails or is killed has
 * had the effects of some beginning of its list, so reasoning about every beginning covers a crash and
 * a failed save anywhere.
 */
module KeyCommands {
  import opened Basics
  import opened Body
  import opened Slots
  import opened Header
  import opened Vault
  import Hello

  const LABEL_HELLO := "hello"
  const LABEL_RECOVERY := "recovery"
  const LABEL_PASSPHRASE := "passphrase"

  /** What a slot was sealed with: a typed secret, or the Hello key with this number. */
  datatype Secret = Typed(secret: string) | Credential(key: nat)

  /** The vault file, the credential store and, as history, what each slot id was last sealed with. */
  datatype World = World(
    image: Option<Image>,
    creds: map<string, nat>,
    ledger: map<Byte, Secret>,
    used: set<Dek>)

  const EMPTY_WORLD := World(None, map[], map[], {})

  /** The machine: its signature scheme, whether Hello can prompt, whether DPAPI works. */
  datatype Machine = Machine(sc: Hello.Scheme, helloUsable: bool, dpapi: bool)

  datatype Effect =
    | Create(name: string, key: nat)
    | Commit(image: Image, ledger: map<Byte, Secret>)
    | Delete(name: string, ok: bool)

  function Apply(w: World, e: Effect): World {
    match e
    case Create(name, key) => w.(creds := w.creds[name := key])
    case Commit(img, ledger) => w.(image := Some(img), ledger := ledger, used := w.used + {img.ct.key})
    case Delete(name, ok) => if ok then w.(creds := w.creds - {name}) else w
  }

  function ApplyAll(w: World, es: seq<Effect>): World
    decreases |es|
  {
    if es == [] then w else ApplyAll(Apply(w, es[0]), es[1..])
  }

  /** The random bytes drawn for one sealed slot. */
  datatype Fresh = Fresh(salt: Bytes, nonce: Bytes, challenge: Bytes)

  predicate GoodFresh(f: Fresh) {
    |f.salt| == SALT_LEN && |f.nonce| == NONCE_LEN && |f.challenge| == CHALLENGE_LEN
  }

  datatype NewSlot = NewPassphrase(secret: string, argon2: Argon2Params) | NewHello(dpapi: bool)
  {
    function Kind(): SlotKind { if NewHello? then Hello else Passphrase }
  }

  datatype Command =
    | InitVault(vid: VaultId, created: string, hello: Option<bool>, recovery: string, passphrase: Option<string>,
                argon2: Argon2Params, dek: Dek)
    | SlotAdd(slotLabel: string, newSlot: NewSlot)
    | SlotRm(slotLabel: string)
    | Recover(newSlot: NewSlot)
    | RekeyAll(dek: Dek, recovery: string, passphrases: seq<string>, argon2: Argon2Params)
    | EditItems(body: VaultBody)

  /** Everything random a command draws, and whether credential deletion works. */
  datatype Inputs = Inputs(draws: seq<Fresh>, newKey: nat, bodyNonce: Bytes, deletable: bool)

  /** A saved file, what its slots were sealed with, and what is destroyed once it is saved. */
  datatype Saving = Saving(image: Image, ledger: map<Byte, Secret>, after: seq<Effect>)

  /** What a command does before its save, and the save, if it gets that far. */
  datatype Plan = Plan(before: seq<Effect>, outcome: Result<Saving>) {
    function Effects(): seq<Effect> {
      if outcome.Err? then before
      else before + [Commit(outcome.value.image, outcome.value.ledger)] + outcome.value.after
    }
  }

  datatype Sealing = Sealing(slot: KeySlot, secret: Secret)

  // ---------------------------------------------------------------------------
  // Sealing slots
  // ---------------------------------------------------------------------------

  function SlotEnvelope(m: Machine, params: SlotParams): Envelope {
    if params.HelloParams? && params.dpapi then DpapiEnvelope(m.dpapi) else IdentityEnvelope
  }

  function SealPassphrase(id: Byte, slotLabel: string, secret: string, argon2: Argon2Params, f: Fresh, vid: VaultId,
                          dek: Dek)
    : Result<Sealing>
  {
    var slot :- SealWithSecret(id, slotLabel, secret, argon2, f.salt, f.nonce, vid, dek);
    Ok(Sealing(slot, Typed(secret)))
  }

  /** The slot sealed under the signature of the stored key `k`. */
  function SealHello(m: Machine, k: nat, id: Byte, slotLabel: string, dpapi: bool, f: Fresh, vid: VaultId,
                     dek: Dek): Result<Sealing> {
    var params := HelloParams(Hello.CredName(vid), f.challenge, m.sc.publicKey(k), dpapi, true);
    var slot :- WrapSlot(id, slotLabel, params, SignatureIkm(m.sc.sign(k, f.challenge)), f.salt, f.nonce,
                         SlotEnvelope(m, params), vid, dek);
    Ok(Sealing(slot, Credential(k)))
  }

  /**
   * Sealing a new slot of either kind: the credential store and the effects so far, and the slot.
   * Module KeyTheorems shows that a Hello slot sealed here is the one the enrolment machine seals.
   */
  function SealNew(m: Machine, creds: map<string, nat>, id: Byte, slotLabel: string, newSlot: NewSlot, f: Fresh,
                   newKey: nat, vid: VaultId, dek: Dek)
    : (map<string, nat>, seq<Effect>, Result<Sealing>)
  {
    match newSlot
    case NewPassphrase(secret, argon2) => (creds, [], SealPassphrase(id, slotLabel, secret, argon2, f, vid, dek))
    case NewHello(dpapi) =>
      var name := Hello.CredName(vid);
      if !m.helloUsable then (creds, [], Err(AuthUnavailable("Windows Hello slot cannot be created")))
      else if name in creds then (creds, [], SealHello(m, creds[name], id, slotLabel, dpapi, f, vid, dek))
      else (creds[name := newKey], [Create(name, newKey)], SealHello(m, newKey, id, slotLabel, dpapi, f, vid, dek))
  }

  /** One slot to seal. */
  datatype Job = Job(id: Byte, slotLabel: string, newSlot: NewSlot)

  /** How far a command has come that seals one slot after the other. */
  datatype Progress = Progress(creds: map<string, nat>, effects: seq<Effect>, sealed: seq<Sealing>,
                               error: Option<Error>)

  function SealNext(m: Machine, p: Progress, job: Job, f: Fresh, newKey: nat, vid: VaultId, dek: Dek): Progress {
    if p.error.Some? then p
    else
      var (creds, effects, sealed) := SealNew(m, p.creds, job.id, job.slotLabel, job.newSlot, f, newKey, vid, dek);
      match sealed
      case Err(e) => Progress(creds, p.effects + effects, p.sealed, Some(e))
      case Ok(s) => Progress(creds, p.effects + effects, p.sealed + [s], None)
  }

  /** The first `n` jobs, stopping at the first that fails. */
  function SealAll(m: Machine, creds: map<string, nat>, jobs: seq<Job>, n: nat, inp: Inputs, vid: VaultId,
                   dek: Dek): Progress
    requires n <= |jobs| <= |inp.draws|
  {
    if n == 0 then Progress(creds, [], [], None)
    else SealNext(m, SealAll(m, creds, jobs, n - 1, inp, vid, dek), jobs[n - 1], inp.draws[n - 1], inp.newKey, vid, dek)
  }

  lemma {:induction false} ErrorSticks(m: Machine, creds: map<string, nat>, jobs: seq<Job>, i: nat, n: nat,
                                       inp: Inputs, vid: VaultId, dek: Dek)
    requires i <= n <= |jobs| <= |inp.draws|
    requires SealAll(m, creds, jobs, i, inp, vid, dek).error.Some?
    ensures SealAll(m, creds, jobs, n, inp, vid, dek) == SealAll(m, creds, jobs, i, inp, vid, dek)
    decreases n - i
  {
    if i < n { ErrorSticks(m, creds, jobs, i + 1, n, inp, vid, dek); }
  }

  function SealedSlots(s: seq<Sealing>): seq<KeySlot> { seq(|s|, i requires 0 <= i < |s| => s[i].slot) }

  function Record(ledger: map<Byte, Secret>, s: seq<Sealing>): map<Byte, Secret> {
    if s == [] then ledger else Record(ledger, s[..|s| - 1])[s[|s| - 1].slot.id := s[|s| - 1].secret]
  }

  /** The save of `v`, or the error of the header encoder. */
  function SavePlan(before: seq<Effect>, v: Unlocked, creating: bool, nonce: Bytes, ledger: map<Byte, Secret>,
                    after: seq<Effect>): Plan {
    match BuildImage(v, creating, nonce)
    case Err(e) => Plan(before, Err(e))
    case Ok(img) => Plan(before, Ok(Saving(img, ledger, after)))
  }

  // ---------------------------------------------------------------------------
  // Choosing slots
  // ---------------------------------------------------------------------------

  predicate HasLabel(slots: seq<KeySlot>, slotLabel: string) {
    exists s | s in slots :: s.slotLabel == slotLabel
  }

  predicate HasPassphrase(slots: seq<KeySlot>) {
    exists s | s in slots :: s.Kind().Passphrase?
  }

  /** The slots for which `drop` is false, in order. */
  function Keep(slots: seq<KeySlot>, drop: KeySlot -> bool): (r: seq<KeySlot>)
    ensures forall s :: s in r <==> s in slots && !drop(s)
  {
    if slots == [] then []
    else
      var rest := Keep(slots[1..], drop);
      assert slots == [slots[0]] + slots[1..];
      if drop(slots[0]) then rest else [slots[0]] + rest
  }

  function ByLabel(slotLabel: string): KeySlot -> bool { (s: KeySlot) => s.slotLabel == slotLabel }

  function ByKindOrLabel(slotLabel: string): KeySlot -> bool {
    (s: KeySlot) => s.Kind().Hello? || s.slotLabel == slotLabel
  }

  function Not(p: KeySlot -> bool): KeySlot -> bool { (s: KeySlot) => !p(s) }

  /** `check_removable` */
  function CheckRemovable(slots: seq<KeySlot>, slotLabel: string): Result<()> {
    var remaining := Keep(slots, ByLabel(slotLabel));
    if !HasLabel(slots, slotLabel) then Err(Invalid("no key slot with this label"))
    else if remaining == [] then Err(Invalid("cannot remove the last remaining key slot"))
    else if !HasPassphrase(remaining) then Err(Invalid("would leave only Windows Hello slots"))
    else Ok(())
  }

  /** Whether a Hello slot of `slots` needs the credential `name`. */
  predicate NeedsCredential(slots: seq<KeySlot>, name: string) {
    exists s | s in slots :: s.params.HelloParams? && s.params.credName == name
  }

  /** `credential_shared` */
  predicate CredentialShared(slot: KeySlot, kept: seq<KeySlot>) {
    slot.params.HelloParams? && NeedsCredential(kept, slot.params.credName)
  }

  /** The credentials destroyed for the removed slots, against the slots as saved. */
  function Doomed(removed: seq<KeySlot>, kept: seq<KeySlot>): seq<string> {
    if removed == [] then []
    else
      var s, rest := removed[|removed| - 1], Doomed(removed[..|removed| - 1], kept);
      if s.params.HelloParams? && !CredentialShared(s, kept) then rest + [s.params.credName] else rest
  }

  function Deletes(names: seq<string>, ok: bool): seq<Effect> {
    seq(|names|, i requires 0 <= i < |names| => Delete(names[i], ok))
  }

  function DeleteCalls(names: seq<string>): seq<Hello.Call> {
    seq(|names|, i requires 0 <= i < |names| => Hello.DeleteCall(names[i]))
  }

  /** `destroy_slot_state` for each removed slot: a failed deletion is only reported. */
  method DestroyAll(b: Hello.HelloBackend, removed: seq<KeySlot>, kept: seq<KeySlot>)
    modifies b.api
    ensures b.api.log == old(b.api.log) + DeleteCalls(Doomed(removed, kept))
  {
    for i := 0 to |removed|
      invariant b.api.log == old(b.api.log) + DeleteCalls(Doomed(removed[..i], kept))
    {
      assert removed[..i + 1][..i] == removed[..i];
      if removed[i].params.HelloParams? && !CredentialShared(removed[i], kept) {
        var _ := b.Destroy(removed[i].params);
      }
    }
    assert removed[..|removed|] == removed;
  }

  // ---------------------------------------------------------------------------
  // The commands
  // ---------------------------------------------------------------------------

  /** The vault as the user has just unlocked it. */
  function Current(w: World): Unlocked
    requires w.image.Some?
  {
    var img := w.image.value;
    Unlocked(img.header, Decoded(img.ct.plaintext), img.ct.key, img.header.generation)
  }

  /**
   * `add` and `recover` alike: seal a slot with the least free id, save it with `kept`, destroy what
   * `removed` leaves unused.
   */
  function JoinPlan(m: Machine, w: World, kept: seq<KeySlot>, removed: seq<KeySlot>, slotLabel: string,
                    newSlot: NewSlot, inp: Inputs): Plan
    requires w.image.Some? && |w.image.value.header.vaultId| == 16 && 1 <= |inp.draws|
  {
    var v := Current(w);
    match FirstFreeId(kept)
    case Err(e) => Plan([], Err(e))
    case Ok(id) =>
      var (_, effects, sealed) := SealNew(m, w.creds, id, slotLabel, newSlot, inp.draws[0], inp.newKey,
                                          v.header.vaultId, v.dek);
      match sealed
      case Err(e) => Plan(effects, Err(e))
      case Ok(s) =>
        var slots := kept + [s.slot];
        SavePlan(effects, v.(header := v.header.(slots := slots)), false, inp.bodyNonce, w.ledger[id := s.secret],
                 Deletes(Doomed(removed, slots), inp.deletable))
  }

  function AddPlan(m: Machine, w: World, slotLabel: string, newSlot: NewSlot, inp: Inputs): Plan
    requires w.image.Some? && |w.image.value.header.vaultId| == 16 && 1 <= |inp.draws|
  {
    var slots := w.image.value.header.slots;
    if slotLabel == "" then Plan([], Err(Invalid("slot label must not be empty")))
    else if HasLabel(slots, slotLabel) then Plan([], Err(AlreadyExists("key slot")))
    else JoinPlan(m, w, slots, [], slotLabel, newSlot, inp)
  }

  function RmPlan(w: World, slotLabel: string, inp: Inputs): Plan
    requires w.image.Some?
  {
    var v := Current(w);
    var slots := v.header.slots;
    if CheckRemovable(slots, slotLabel).Err? then Plan([], Err(CheckRemovable(slots, slotLabel).error))
    else
      var remaining := Keep(slots, ByLabel(slotLabel));
      var removed := Keep(slots, Not(ByLabel(slotLabel)));
      var v' := v.(header := v.header.(slots := remaining));
      SavePlan([], v', false, inp.bodyNonce, w.ledger, Deletes(Doomed(removed, remaining), inp.deletable))
  }

  function RecoverLabel(newSlot: NewSlot): string { if newSlot.NewHello? then LABEL_HELLO else LABEL_PASSPHRASE }

  function RecoverPlan(m: Machine, w: World, newSlot: NewSlot, inp: Inputs): Plan
    requires w.image.Some? && |w.image.value.header.vaultId| == 16 && 1 <= |inp.draws|
  {
    var slots, slotLabel := w.image.value.header.slots, RecoverLabel(newSlot);
    var drop := ByKindOrLabel(slotLabel);
    JoinPlan(m, w, Keep(slots, drop), Keep(slots, Not(drop)), slotLabel, newSlot, inp)
  }

  /** What `rekey` seals in place of slot `i`: a new recovery key, the passphrase given for it, or Hello again. */
  function RekeyJob(slot: KeySlot, i: nat, cmd: Command): Job
    requires cmd.RekeyAll? && i < |cmd.passphrases|
  {
    match slot.params
    case HelloParams(_, _, _, dpapi, _) => Job(slot.id, slot.slotLabel, NewHello(dpapi))
    case PassphraseParams(_) =>
      var secret := if slot.slotLabel == LABEL_RECOVERY then cmd.recovery else cmd.passphrases[i];
      Job(slot.id, slot.slotLabel, NewPassphrase(secret, cmd.argon2))
  }

  function RekeyJobs(slots: seq<KeySlot>, cmd: Command): seq<Job>
    requires cmd.RekeyAll? && |slots| <= |cmd.passphrases|
  {
    seq(|slots|, i requires 0 <= i < |slots| => RekeyJob(slots[i], i, cmd))
  }

  /** The loop of `rekey` over the slots, leaving at the first slot that cannot be sealed again. */
  method ResealLoop(m: Machine, creds: map<string, nat>, slots: seq<KeySlot>, cmd: Command, inp: Inputs, vid: VaultId)
    returns (p: Progress)
    requires cmd.RekeyAll? && |slots| <= |cmd.passphrases| && |slots| <= |inp.draws|
    ensures p == SealAll(m, creds, RekeyJobs(slots, cmd), |slots|, inp, vid, cmd.dek)
  {
    p := Progress(creds, [], [], None);
    ghost var jobs := RekeyJobs(slots, cmd);
    for i := 0 to |slots|
      invariant p == SealAll(m, creds, jobs, i, inp, vid, cmd.dek) && p.error.None?
    {
      var job := JobFor(slots[i], i, cmd);
      assert job == jobs[i];
      p := SealNext(m, p, job, inp.draws[i], inp.newKey, vid, cmd.dek);
      if p.error.Some? {
        ErrorSticks(m, creds, jobs, i + 1, |slots|, inp, vid, cmd.dek);
        return;
      }
    }
  }

  /** The match at the head of the loop body. */
  method JobFor(slot: KeySlot, i: nat, cmd: Command) returns (job: Job)
    requires cmd.RekeyAll? && i < |cmd.passphrases|
    ensures job == RekeyJob(slot, i, cmd)
  {
    var newSlot: NewSlot;
    match slot.Kind() {
      case Passphrase =>
        var secret := if slot.slotLabel == LABEL_RECOVERY then cmd.recovery else cmd.passphrases[i];
        newSlot := NewPassphrase(secret, cmd.argon2);
      case Hello => newSlot := NewHello(slot.params.dpapi);
    }
    job := Job(slot.id, slot.slotLabel, newSlot);
  }

  function RekeyPlan(m: Machine, w: World, cmd: Command, inp: Inputs): Plan
    requires w.image.Some? && |w.image.value.header.vaultId| == 16
    requires cmd.RekeyAll? && |w.image.value.header.slots| <= |cmd.passphrases|
    requires |w.image.value.header.slots| <= |inp.draws|
  {
    var v := Current(w);
    var slots := v.header.slots;
    if (exists s | s in slots :: s.Kind().Hello?) && !m.helloUsable
    then Plan([], Err(AuthUnavailable("Windows Hello slot cannot be re-sealed here")))
    else
      var p := SealAll(m, w.creds, RekeyJobs(slots, cmd), |slots|, inp, v.header.vaultId, cmd.dek);
      if p.error.Some? then Plan(p.effects, Err(p.error.value))
      else
        var v' := v.(dek := cmd.dek, header := v.header.(slots := SealedSlots(p.sealed)));
        SavePlan(p.effects, v', false, inp.bodyNonce, Record(w.ledger, p.sealed), [])
  }

  /** The slots `init` seals one after the other, counting ids from 1. */
  function InitJobs(cmd: Command): (jobs: seq<Job>)
    requires cmd.InitVault?
    ensures 1 <= |jobs| <= 3 && forall i | 0 <= i < |jobs| :: jobs[i].id == i + 1
  {
    var hello := if cmd.hello.Some? then [Job(1, LABEL_HELLO, NewHello(cmd.hello.value))] else [];
    var recovery := hello + [Job(|hello| + 1, LABEL_RECOVERY, NewPassphrase(cmd.recovery, cmd.argon2))];
    if cmd.passphrase.None? then recovery
    else recovery + [Job(|recovery| + 1, LABEL_PASSPHRASE, NewPassphrase(cmd.passphrase.value, cmd.argon2))]
  }

  /** The body of `init`: push one slot after the other and count `nextId` up. */
  method InitSlots(m: Machine, creds: map<string, nat>, cmd: Command, inp: Inputs) returns (p: Progress)
    requires cmd.InitVault? && 3 <= |inp.draws|
    ensures p == SealAll(m, creds, InitJobs(cmd), |InitJobs(cmd)|, inp, cmd.vid, cmd.dek)
  {
    ghost var jobs := InitJobs(cmd);
    var nextId: Byte := 1;
    p := Progress(creds, [], [], None);
    if cmd.hello.Some? {
      p := SealNext(m, p, Job(nextId, LABEL_HELLO, NewHello(cmd.hello.value)), inp.draws[nextId - 1], inp.newKey,
                    cmd.vid, cmd.dek);
      assert p == SealAll(m, creds, jobs, 1, inp, cmd.vid, cmd.dek);
      if p.error.Some? {
        ErrorSticks(m, creds, jobs, 1, |jobs|, inp, cmd.vid, cmd.dek);
        return;
      }
      nextId := nextId + 1;
    }
    p := SealNext(m, p, Job(nextId, LABEL_RECOVERY, NewPassphrase(cmd.recovery, cmd.argon2)), inp.draws[nextId - 1],
                  inp.newKey, cmd.vid, cmd.dek);
    assert p == SealAll(m, creds, jobs, nextId as nat, inp, cmd.vid, cmd.dek);
    if p.error.Some? {
      ErrorSticks(m, creds, jobs, nextId as nat, |jobs|, inp, cmd.vid, cmd.dek);
      return;
    }
    nextId := nextId + 1;
    if cmd.passphrase.Some? {
      p := SealNext(m, p, Job(nextId, LABEL_PASSPHRASE, NewPassphrase(cmd.passphrase.value, cmd.argon2)),
                    inp.draws[nextId - 1], inp.newKey, cmd.vid, cmd.dek);
    }
  }

  function InitPlan(m: Machine, w: World, cmd: Command, inp: Inputs): Plan
    requires cmd.InitVault? && 3 <= |inp.draws|
  {
    if w.image.Some? then Plan([], Err(AlreadyExists("vault file")))
    else
      var jobs := InitJobs(cmd);
      var p := SealAll(m, w.creds, jobs, |jobs|, inp, cmd.vid, cmd.dek);
      if p.error.Some? then Plan(p.effects, Err(p.error.value))
      else
        var v := Unlocked(NewHeader(cmd.vid, cmd.created, SealedSlots(p.sealed)), EMPTY_BODY, cmd.dek, 0);
        SavePlan(p.effects, v, true, inp.bodyNonce, Record(map[], p.sealed), [])
  }

  /** `add`, `edit`, `rm` and the like: another body under the same header and key. */
  function EditPlan(w: World, body: VaultBody, inp: Inputs): Plan
    requires w.image.Some?
  {
    SavePlan([], Current(w).(body := body), false, inp.bodyNonce, w.ledger, [])
  }

  /** Enough random bytes of the right lengths, a data key not drawn before, a body the edits can build. */
  ghost predicate GoodInputs(w: World, cmd: Command, inp: Inputs) {
    && 3 <= |inp.draws|
    && (forall f | f in inp.draws :: GoodFresh(f))
    && |inp.bodyNonce| == NONCE_LEN
    && (cmd.InitVault? ==> cmd.dek !in w.used)
    && (cmd.EditItems? ==> Canonical(cmd.body))
    && (cmd.RekeyAll? ==>
          && cmd.dek !in w.used
          && (w.image.Some? ==>
                && |w.image.value.header.slots| <= |cmd.passphrases|
                && |w.image.value.header.slots| <= |inp.draws|))
  }

  /**
   * What a command does in world `w`: every command but `init` starts by reading the header, `slot add` after a
   * look at its label.
   */
  ghost function PlanOf(m: Machine, w: World, cmd: Command, inp: Inputs): Plan
    requires GoodInputs(w, cmd, inp)
  {
    if cmd.InitVault? then InitPlan(m, w, cmd, inp)
    else if cmd.SlotAdd? && cmd.slotLabel == "" then Plan([], Err(Invalid("slot label must not be empty")))
    else if ReadHeader(w.image).Err? then Plan([], Err(ReadHeader(w.image).error))
    else
      match cmd
      case SlotAdd(slotLabel, newSlot) => AddPlan(m, w, slotLabel, newSlot, inp)
      case SlotRm(slotLabel) => RmPlan(w, slotLabel, inp)
      case Recover(newSlot) => RecoverPlan(m, w, newSlot, inp)
      case RekeyAll(_, _, _, _) => RekeyPlan(m, w, cmd, inp)
      case EditItems(body) => EditPlan(w, body, inp)
  }
}
