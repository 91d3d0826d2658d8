/**
 * Runs of the slot commands: one command at a time, each stopping anywhere, the credential store
 * possibly changed from outside in between (a PIN reset, a cleared TPM).
 */
module KeyRuns {
  import opened Basics
  import opened Body
  import opened Slots
  import opened Header
  import opened Vault
  import opened KeyCommands
  import opened KeyTheorems
  import Hello

  /** A command with the first `cut` of its effects (`None`: all of them), or an outside change. */
  datatype Step = RunCommand(cmd: Command, inp: Inputs, cut: Option<nat>) | Outside(creds: map<string, nat>)

  ghost function Prefix(es: seq<Effect>, cut: Option<nat>): seq<Effect> {
    if cut.Some? && cut.value < |es| then es[..cut.value] else es
  }

  ghost predicate Enabled(w: World, st: Step) {
    st.RunCommand? ==> GoodInputs(w, st.cmd, st.inp)
  }

  ghost function After(m: Machine, w: World, st: Step): World
    requires Enabled(w, st)
  {
    match st
    case Outside(creds) => w.(creds := creds)
    case RunCommand(cmd, inp, cut) => ApplyAll(w, Prefix(PlanOf(m, w, cmd, inp).Effects(), cut))
  }

  ghost predicate Runs(m: Machine, w: World, steps: seq<Step>)
    decreases |steps|
  {
    steps == [] || (Enabled(w, steps[0]) && Runs(m, After(m, w, steps[0]), steps[1..]))
  }

  ghost function Final(m: Machine, w: World, steps: seq<Step>): World
    requires Runs(m, w, steps)
    decreases |steps|
  {
    if steps == [] then w else Final(m, After(m, w, steps[0]), steps[1..])
  }

  // ---------------------------------------------------------------------------
  // One command, stopped anywhere
  // ---------------------------------------------------------------------------

  /** The name of the credential a command may create. */
  ghost function CredentialOf(w: World, cmd: Command): string {
    if cmd.InitVault? then Hello.CredName(cmd.vid)
    else if w.image.Some? && |w.image.value.header.vaultId| == 16 then Hello.CredName(w.image.value.header.vaultId)
    else ""
  }

  ghost predicate Keeps(m: Machine, w: World, cmd: Command, inp: Inputs, p: Plan) {
    Transacts(m, w, CredentialOf(w, cmd), inp.newKey, p)
  }

  lemma AddKeeps(m: Machine, w: World, slotLabel: string, newSlot: NewSlot, inp: Inputs)
    requires Hello.Lawful(m.sc) && WorldOk(m, w) && w.image.Some? && GoodInputs(w, SlotAdd(slotLabel, newSlot), inp)
    ensures Keeps(m, w, SlotAdd(slotLabel, newSlot), inp, AddPlan(m, w, slotLabel, newSlot, inp))
  {
    AddTransacts(m, w, slotLabel, newSlot, inp);
  }

  lemma RmKeeps(m: Machine, w: World, slotLabel: string, inp: Inputs)
    requires WorldOk(m, w) && w.image.Some? && GoodInputs(w, SlotRm(slotLabel), inp)
    ensures Keeps(m, w, SlotRm(slotLabel), inp, RmPlan(w, slotLabel, inp))
  {
    RmTransacts(m, w, slotLabel, inp);
  }

  lemma RecoverKeeps(m: Machine, w: World, newSlot: NewSlot, inp: Inputs)
    requires Hello.Lawful(m.sc) && WorldOk(m, w) && w.image.Some? && GoodInputs(w, Recover(newSlot), inp)
    ensures Keeps(m, w, Recover(newSlot), inp, RecoverPlan(m, w, newSlot, inp))
  {
    RecoverTransacts(m, w, newSlot, inp);
  }

  lemma RekeyKeeps(m: Machine, w: World, cmd: Command, inp: Inputs)
    requires Hello.Lawful(m.sc) && WorldOk(m, w) && w.image.Some? && cmd.RekeyAll? && GoodInputs(w, cmd, inp)
    ensures Keeps(m, w, cmd, inp, RekeyPlan(m, w, cmd, inp))
  {
    RekeyTransacts(m, w, cmd, inp);
  }

  lemma PlanTransacts(m: Machine, w: World, cmd: Command, inp: Inputs)
    requires Hello.Lawful(m.sc) && WorldOk(m, w) && GoodInputs(w, cmd, inp)
    ensures Transacts(m, w, CredentialOf(w, cmd), inp.newKey, PlanOf(m, w, cmd, inp))
  {
    if cmd.InitVault? {
      InitTransacts(m, w, cmd, inp);
    } else if w.image.Some? {
      ValidateIff(w.image.value.header);
      match cmd
      case SlotAdd(slotLabel, newSlot) => AddKeeps(m, w, slotLabel, newSlot, inp);
      case SlotRm(slotLabel) => RmKeeps(m, w, slotLabel, inp);
      case Recover(newSlot) => RecoverKeeps(m, w, newSlot, inp);
      case RekeyAll(_, _, _, _) => RekeyKeeps(m, w, cmd, inp);
      case EditItems(body) => EditTransacts(m, w, body, inp);
    }
  }

  lemma HeaderReads(m: Machine, w: World)
    requires WorldOk(m, w) && w.image.Some?
    ensures ReadHeader(w.image).Ok? && |w.image.value.header.vaultId| == 16
  {
    ValidateIff(w.image.value.header);
  }

  /** Once the header has been read, the command proper runs. */
  lemma PlanOfRm(m: Machine, w: World, slotLabel: string, inp: Inputs)
    requires ReadHeader(w.image).Ok? && |w.image.value.header.vaultId| == 16 && GoodInputs(w, SlotRm(slotLabel), inp)
    ensures PlanOf(m, w, SlotRm(slotLabel), inp) == RmPlan(w, slotLabel, inp)
  {
  }

  lemma PlanOfAdd(m: Machine, w: World, slotLabel: string, newSlot: NewSlot, inp: Inputs)
    requires ReadHeader(w.image).Ok? && |w.image.value.header.vaultId| == 16
    requires GoodInputs(w, SlotAdd(slotLabel, newSlot), inp)
    ensures PlanOf(m, w, SlotAdd(slotLabel, newSlot), inp) == AddPlan(m, w, slotLabel, newSlot, inp)
  {
  }

  lemma PlanOfRekey(m: Machine, w: World, cmd: Command, inp: Inputs)
    requires ReadHeader(w.image).Ok? && |w.image.value.header.vaultId| == 16
    requires cmd.RekeyAll? && GoodInputs(w, cmd, inp)
    ensures PlanOf(m, w, cmd, inp) == RekeyPlan(m, w, cmd, inp)
  {
  }

  lemma PlanOfEdit(m: Machine, w: World, body: VaultBody, inp: Inputs)
    requires ReadHeader(w.image).Ok? && |w.image.value.header.vaultId| == 16 && GoodInputs(w, EditItems(body), inp)
    ensures PlanOf(m, w, EditItems(body), inp) == EditPlan(w, body, inp)
  {
  }

  lemma PlanOfRecover(m: Machine, w: World, newSlot: NewSlot, inp: Inputs)
    requires ReadHeader(w.image).Ok? && |w.image.value.header.vaultId| == 16 && GoodInputs(w, Recover(newSlot), inp)
    ensures PlanOf(m, w, Recover(newSlot), inp) == RecoverPlan(m, w, newSlot, inp)
  {
  }

  lemma {:induction false} ApplyConcat(w: World, a: seq<Effect>, b: seq<Effect>)
    ensures ApplyAll(w, a + b) == ApplyAll(ApplyAll(w, a), b)
    decreases |a|
  {
    if a == [] {
      assert a + b == b;
    } else {
      assert (a + b)[1..] == a[1..] + b;
      ApplyConcat(Apply(w, a[0]), a[1..], b);
    }
  }

  /** No Hello slot of the header goes from working to not working; one that is new works. */
  ghost predicate KeepsLive(m: Machine, w: World, w': World) {
    forall s | s in SlotsOf(w') && s.params.HelloParams? ::
      (s in SlotsOf(w) ==> Live(m, w.creds, s)) ==> Live(m, w'.creds, s)
  }

  lemma {:induction false} DeletesKeep(m: Machine, w: World, es: seq<Effect>)
    requires forall e | e in es :: e.Delete? && !NeedsCredential(SlotsOf(w), e.name)
    ensures ApplyAll(w, es) == w.(creds := ApplyAll(w, es).creds)
    ensures forall s | s in SlotsOf(w) && Live(m, w.creds, s) :: Live(m, ApplyAll(w, es).creds, s)
    decreases |es|
  {
    if es != [] {
      var w1 := Apply(w, es[0]);
      assert es[0] in es && w1 == w.(creds := w1.creds);
      forall s | s in SlotsOf(w) && Live(m, w.creds, s) ensures Live(m, w1.creds, s) {
        assert s.params.credName != es[0].name;
      }
      DeletesKeep(m, w1, es[1..]);
    }
  }

  /** The world in which a save has just happened. */
  function SavedWorld(w: World, before: seq<Effect>, s: Saving): World {
    World(Some(s.image), StoreAfter(w.creds, before), s.ledger, w.used + {s.image.ct.key})
  }

  lemma BeforeOnlyCreates(w: World, name: string, key: nat, before: seq<Effect>)
    requires MakesAtMostOne(w.creds, before, name, key)
    ensures ApplyAll(w, before) == w.(creds := StoreAfter(w.creds, before))
    ensures forall n | 0 <= n <= |before| :: before[..n] == [] || before[..n] == before
  {
  }

  /** Where a command that stopped after `n` effects has left the world: before the save or after it. */
  lemma PrefixWorld(w: World, name: string, key: nat, p: Plan, n: nat)
    requires MakesAtMostOne(w.creds, p.before, name, key) && n <= |p.Effects()|
    ensures n <= |p.before| ==> ApplyAll(w, p.Effects()[..n]) == w.(creds := StoreAfter(w.creds, p.before[..n]))
    ensures n > |p.before| ==>
              && p.outcome.Ok?
              && ApplyAll(w, p.Effects()[..n]) == ApplyAll(SavedWorld(w, p.before, p.outcome.value),
                                                           p.outcome.value.after[..n - |p.before| - 1])
  {
    var es, b := p.Effects(), |p.before|;
    if n <= b {
      assert es[..n] == p.before[..n];
      BeforeOnlyCreates(w, name, key, p.before[..n]);
    } else {
      var commit, rest := [es[b]], p.outcome.value.after[..n - b - 1];
      assert es[..n] == p.before + (commit + rest);
      ApplyConcat(w, p.before, commit + rest);
      BeforeOnlyCreates(w, name, key, p.before);
      assert (commit + rest)[1..] == rest;
    }
  }

  /** Stopped anywhere, a command has left the file as it was or as it saved it, and all stays well. */
  lemma PrefixIsSafe(m: Machine, w: World, name: string, key: nat, p: Plan, n: nat)
    requires WorldOk(m, w) && Transacts(m, w, name, key, p) && n <= |p.Effects()|
    ensures var w' := ApplyAll(w, p.Effects()[..n]);
            && WorldOk(m, w') && KeepsLive(m, w, w')
            && (w'.image, w'.ledger)
                 == if n <= |p.before| then (w.image, w.ledger)
                    else (Some(p.outcome.value.image), p.outcome.value.ledger)
  {
    PrefixWorld(w, name, key, p, n);
    if n > |p.before| {
      var saved := SavedWorld(w, p.before, p.outcome.value);
      var rest := p.outcome.value.after[..n - |p.before| - 1];
      assert forall e | e in rest :: e in p.outcome.value.after;
      DeletesKeep(m, saved, rest);
      SavedKeepsLive(m, w, name, key, p);
    }
  }

  lemma SavedKeepsLive(m: Machine, w: World, name: string, key: nat, p: Plan)
    requires Transacts(m, w, name, key, p) && p.outcome.Ok?
    ensures KeepsLive(m, w, SavedWorld(w, p.before, p.outcome.value))
  {
  }

  // ---------------------------------------------------------------------------
  // All runs
  // ---------------------------------------------------------------------------

  lemma StepIsSafe(m: Machine, w: World, st: Step)
    requires Hello.Lawful(m.sc) && WorldOk(m, w) && Enabled(w, st)
    ensures WorldOk(m, After(m, w, st))
    ensures st.RunCommand? ==> KeepsLive(m, w, After(m, w, st))
  {
    if st.RunCommand? {
      var p := PlanOf(m, w, st.cmd, st.inp);
      var es := p.Effects();
      PlanTransacts(m, w, st.cmd, st.inp);
      var n := if st.cut.Some? && st.cut.value < |es| then st.cut.value else |es|;
      assert Prefix(es, st.cut) == es[..n];
      PrefixIsSafe(m, w, CredentialOf(w, st.cmd), st.inp.newKey, p, n);
    }
  }

  lemma {:induction false} RunIsSafe(m: Machine, w: World, steps: seq<Step>)
    requires Hello.Lawful(m.sc) && WorldOk(m, w) && Runs(m, w, steps)
    ensures WorldOk(m, Final(m, w, steps))
    decreases |steps|
  {
    if steps != [] {
      StepIsSafe(m, w, steps[0]);
      RunIsSafe(m, After(m, w, steps[0]), steps[1..]);
    }
  }

  /**
   * After any run of the commands, with a crash anywhere in any of them: the file is valid, and each of its
   * slots, opened with the secret or credential it was sealed with, yields exactly the key that opens the body.
   */
  lemma EverySlotOpensTheVault(m: Machine, steps: seq<Step>)
    requires Hello.Lawful(m.sc) && Runs(m, EMPTY_WORLD, steps)
    ensures var w := Final(m, EMPTY_WORLD, steps);
            w.image.Some? ==>
              var img := w.image.value;
              && Validate(img.header).Ok?
              && (forall s | s in img.header.slots :: s.id in w.ledger)
              && forall s | s in img.header.slots ::
                   var dek := OpenBySecret(m, s, w.ledger[s.id], img.header.vaultId);
                   dek.Ok? && OpenWithDek(w.image, dek.value).Ok? && dek.value == img.ct.key
  {
    RunIsSafe(m, EMPTY_WORLD, steps);
    var w := Final(m, EMPTY_WORLD, steps);
    if w.image.Some? {
      ValidateIff(w.image.value.header);
      OpenSealedIff(w.image.value, w.image.value.ct.key);
    }
  }

  ghost predicate AllLive(m: Machine, w: World) {
    forall s | s in SlotsOf(w) && s.params.HelloParams? :: Live(m, w.creds, s)
  }

  lemma {:induction false} RunKeepsAllLive(m: Machine, w: World, steps: seq<Step>)
    requires Hello.Lawful(m.sc) && WorldOk(m, w) && AllLive(m, w) && Runs(m, w, steps)
    requires forall st | st in steps :: st.RunCommand?
    ensures AllLive(m, Final(m, w, steps))
    decreases |steps|
  {
    if steps != [] {
      StepIsSafe(m, w, steps[0]);
      RunKeepsAllLive(m, After(m, w, steps[0]), steps[1..]);
    }
  }

  /** With no outside change, every Hello slot of the file opens with the credential store as it is, after any run. */
  lemma HelloSlotsKeepWorking(m: Machine, steps: seq<Step>)
    requires Hello.Lawful(m.sc) && Runs(m, EMPTY_WORLD, steps) && forall st | st in steps :: st.RunCommand?
    ensures var w := Final(m, EMPTY_WORLD, steps);
            forall s | s in SlotsOf(w) && s.params.HelloParams? ::
              |w.image.value.header.vaultId| == 16 &&
                OpenWithStore(m, w.creds, s, w.image.value.header.vaultId) == Ok(w.image.value.ct.key)
  {
    RunIsSafe(m, EMPTY_WORLD, steps);
    RunKeepsAllLive(m, EMPTY_WORLD, steps);
    var w := Final(m, EMPTY_WORLD, steps);
    forall s | s in SlotsOf(w) && s.params.HelloParams?
      ensures OpenWithStore(m, w.creds, s, w.image.value.header.vaultId) == Ok(w.image.value.ct.key)
    {
      LiveOpens(m, w.creds, s, w.ledger[s.id], w.image.value.header.vaultId, w.image.value.ct.key);
    }
  }

  /** One effect: a creation, the save, or a deletion after the save. */
  lemma EffectKeepsLive(m: Machine, w: World, name: string, key: nat, p: Plan, i: nat)
    requires Transacts(m, w, name, key, p) && i < |p.Effects()|
    ensures KeepsLive(m, ApplyAll(w, p.Effects()[..i]), ApplyAll(w, p.Effects()[..i + 1]))
  {
    var b := |p.before|;
    PrefixWorld(w, name, key, p, i);
    PrefixWorld(w, name, key, p, i + 1);
    if i == b {
      SavedKeepsLiveFrom(m, w, name, key, p);
    } else if i > b {
      var saved, after := SavedWorld(w, p.before, p.outcome.value), p.outcome.value.after;
      var done, e := after[..i - b - 1], after[i - b - 1];
      assert after[..i - b] == done + [e];
      ApplyConcat(saved, done, [e]);
      assert forall d | d in done + [e] :: d in after;
      DeletesKeep(m, saved, done);
      DeletesKeep(m, ApplyAll(saved, done), [e]);
    }
  }

  lemma SavedKeepsLiveFrom(m: Machine, w: World, name: string, key: nat, p: Plan)
    requires Transacts(m, w, name, key, p) && p.outcome.Ok?
    ensures KeepsLive(m, w.(creds := StoreAfter(w.creds, p.before[..|p.before|])),
                      SavedWorld(w, p.before, p.outcome.value))
    ensures ApplyAll(SavedWorld(w, p.before, p.outcome.value), p.outcome.value.after[..0]) ==
      SavedWorld(w, p.before, p.outcome.value)
  {
    assert p.before[..|p.before|] == p.before;
  }

  /** Within a command, from any effect to any later one, no Hello slot of the file on disk stops working. */
  lemma {:induction false} NoEffectKillsASlot(m: Machine, w: World, cmd: Command, inp: Inputs, i: nat, j: nat)
    requires Hello.Lawful(m.sc) && WorldOk(m, w) && GoodInputs(w, cmd, inp)
    requires i <= j <= |PlanOf(m, w, cmd, inp).Effects()|
    ensures var es := PlanOf(m, w, cmd, inp).Effects();
            KeepsLive(m, ApplyAll(w, es[..i]), ApplyAll(w, es[..j]))
    decreases j - i
  {
    if i < j {
      PlanTransacts(m, w, cmd, inp);
      EffectKeepsLive(m, w, CredentialOf(w, cmd), inp.newKey, PlanOf(m, w, cmd, inp), i);
      NoEffectKillsASlot(m, w, cmd, inp, i + 1, j);
    }
  }

  // ---------------------------------------------------------------------------
  // rekey
  // ---------------------------------------------------------------------------

  /** What it takes to seal a new slot. */
  predicate Sealable(m: Machine, newSlot: NewSlot) {
    match newSlot
    case NewPassphrase(secret, argon2) => secret != "" && ValidArgon2(argon2)
    case NewHello(dpapi) => m.helloUsable && (dpapi ==> m.dpapi)
  }

  lemma SealsIffSealable(m: Machine, creds: map<string, nat>, id: Byte, slotLabel: string, newSlot: NewSlot, f: Fresh,
                         newKey: nat, vid: VaultId, dek: Dek)
    ensures SealNew(m, creds, id, slotLabel, newSlot, f, newKey, vid, dek).2.Ok? <==> Sealable(m, newSlot)
  {
  }

  /** The error for a slot that cannot be sealed. */
  predicate RefusedAs(newSlot: NewSlot, e: Error) {
    if newSlot.NewHello? then e.AuthUnavailable? else e.Invalid?
  }

  /** One step of sealing slot after slot fails if one before it did or its own slot cannot be sealed. */
  lemma SealNextIff(m: Machine, p: Progress, job: Job, f: Fresh, newKey: nat, vid: VaultId, dek: Dek)
    ensures SealNext(m, p, job, f, newKey, vid, dek).error.None? <==> p.error.None? && Sealable(m, job.newSlot)
    ensures p.error.Some? ==> SealNext(m, p, job, f, newKey, vid, dek).error == p.error
    ensures p.error.None? && !Sealable(m, job.newSlot) ==>
              RefusedAs(job.newSlot, SealNext(m, p, job, f, newKey, vid, dek).error.value)
  {
    SealsIffSealable(m, p.creds, job.id, job.slotLabel, job.newSlot, f, newKey, vid, dek);
  }

  lemma {:induction false} SealAllIff(m: Machine, creds: map<string, nat>, jobs: seq<Job>, n: nat, inp: Inputs,
                                      vid: VaultId, dek: Dek)
    requires n <= |jobs| <= |inp.draws|
    ensures SealAll(m, creds, jobs, n, inp, vid, dek).error.None? <==>
              forall i | 0 <= i < n :: Sealable(m, jobs[i].newSlot)
  {
    if n > 0 {
      SealAllIff(m, creds, jobs, n - 1, inp, vid, dek);
      var p := SealAll(m, creds, jobs, n - 1, inp, vid, dek);
      SealNextIff(m, p, jobs[n - 1], inp.draws[n - 1], inp.newKey, vid, dek);
    }
  }

  /** The new file of a `rekey`: same slots in the same places, all for the new key and none for the old. */
  ghost predicate Rotated(m: Machine, before: Image, save: Saving, dek: Dek) {
    && |before.header.vaultId| == 16
    && SameShape(before.header.slots, save.image.header.slots)
    && AllGood(m, save.image.header.slots, save.ledger, before.header.vaultId, dek)
    && save.image.header.vaultId == before.header.vaultId
    && save.image.ct.key == dek
    && forall s | s in save.image.header.slots :: !Wraps(s, before.header.vaultId, before.ct.key)
  }

  /**
   * `rekey` succeeds exactly when every slot can be sealed again. Then every slot keeps its place, id, label
   * and kind, yields the new key, and none wraps the old one.
   */
  lemma RekeyRotates(m: Machine, w: World, cmd: Command, inp: Inputs)
    requires Hello.Lawful(m.sc) && WorldOk(m, w) && w.image.Some? && cmd.RekeyAll? && GoodInputs(w, cmd, inp)
    ensures PlanOf(m, w, cmd, inp).outcome.Ok? <==>
              forall i | 0 <= i < |SlotsOf(w)| :: Sealable(m, RekeyJob(SlotsOf(w)[i], i, cmd).newSlot)
    ensures PlanOf(m, w, cmd, inp).outcome.Ok? ==> Rotated(m, w.image.value, PlanOf(m, w, cmd, inp).outcome.value,
                                                           cmd.dek)
  {
    ValidateIff(w.image.value.header);
    assert PlanOf(m, w, cmd, inp) == RekeyPlan(m, w, cmd, inp);
    RekeyTransacts(m, w, cmd, inp);
    RekeySucceedsIff(m, w, cmd, inp);
  }

  /** A `rekey` that fails leaves the file as it was, wherever it stops. */
  lemma FailedRekeyLeavesTheFile(m: Machine, w: World, cmd: Command, inp: Inputs, n: nat)
    requires Hello.Lawful(m.sc) && WorldOk(m, w) && cmd.RekeyAll? && GoodInputs(w, cmd, inp)
    requires PlanOf(m, w, cmd, inp).outcome.Err? && n <= |PlanOf(m, w, cmd, inp).Effects()|
    ensures ApplyAll(w, PlanOf(m, w, cmd, inp).Effects()[..n]).image == w.image
    ensures ApplyAll(w, PlanOf(m, w, cmd, inp).Effects()[..n]).ledger == w.ledger
  {
    PlanTransacts(m, w, cmd, inp);
    PrefixIsSafe(m, w, CredentialOf(w, cmd), inp.newKey, PlanOf(m, w, cmd, inp), n);
  }

  ghost predicate RekeySeals(m: Machine, w: World, cmd: Command, inp: Inputs)
    requires cmd.RekeyAll? && w.image.Some? && GoodInputs(w, cmd, inp) && |w.image.value.header.vaultId| == 16
  {
    && !((exists s | s in SlotsOf(w) :: s.Kind().Hello?) && !m.helloUsable)
    && SealAll(m, w.creds, RekeyJobs(SlotsOf(w), cmd), |SlotsOf(w)|, inp, w.image.value.header.vaultId,
               cmd.dek).error.None?
  }

  lemma RekeySucceedsIff(m: Machine, w: World, cmd: Command, inp: Inputs)
    requires Hello.Lawful(m.sc) && WorldOk(m, w) && w.image.Some? && cmd.RekeyAll? && GoodInputs(w, cmd, inp)
    ensures RekeyPlan(m, w, cmd, inp).outcome.Ok? <==>
              forall i | 0 <= i < |SlotsOf(w)| :: Sealable(m, RekeyJob(SlotsOf(w)[i], i, cmd).newSlot)
  {
    RekeyTransacts(m, w, cmd, inp);
    RekeySealsIff(m, w, cmd, inp);
  }

  lemma RekeySealsIff(m: Machine, w: World, cmd: Command, inp: Inputs)
    requires cmd.RekeyAll? && w.image.Some? && GoodInputs(w, cmd, inp) && |w.image.value.header.vaultId| == 16
    ensures RekeySeals(m, w, cmd, inp) <==>
              forall i | 0 <= i < |SlotsOf(w)| :: Sealable(m, RekeyJob(SlotsOf(w)[i], i, cmd).newSlot)
  {
    var slots := SlotsOf(w);
    var jobs := RekeyJobs(slots, cmd);
    SealAllIff(m, w.creds, jobs, |slots|, inp, w.image.value.header.vaultId, cmd.dek);
    forall i | 0 <= i < |slots|
      ensures jobs[i] == RekeyJob(slots[i], i, cmd)
      ensures slots[i].Kind().Hello? && !m.helloUsable ==> !Sealable(m, jobs[i].newSlot)
    {
    }
    if forall i | 0 <= i < |slots| :: Sealable(m, RekeyJob(slots[i], i, cmd).newSlot) {
      forall i | 0 <= i < |slots| ensures Sealable(m, jobs[i].newSlot) { assert jobs[i] == RekeyJob(slots[i], i, cmd); }
    }
  }
}
