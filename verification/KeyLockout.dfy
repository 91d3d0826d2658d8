/** A vault should never be left with Windows Hello slots alone: where that can happen, and only there. */
module KeyLockout {
  import opened Basics
  import opened Body
  import opened Slots
  import opened Header
  import opened Vault
  import opened KeyCommands
  import opened KeyTheorems
  import opened KeyRuns
  import Hello
  import Race = KeyRace

  // ---------------------------------------------------------------------------
  // A passphrase slot remains
  // ---------------------------------------------------------------------------

  /** A passphrase slot that `recover` to Windows Hello leaves alone. */
  predicate Spared(s: KeySlot) { s.Kind().Passphrase? && s.slotLabel != LABEL_HELLO }

  predicate AllSpared(slots: seq<KeySlot>) { forall s | s in slots && s.Kind().Passphrase? :: Spared(s) }

  predicate HasSpared(slots: seq<KeySlot>) { exists s | s in slots :: Spared(s) }

  lemma AppendedPassphrase(kept: seq<KeySlot>, slotLabel: string, kind: SlotKind, slots': seq<KeySlot>)
    requires AppendsOne(kept, slotLabel, kind, slots')
    ensures HasPassphrase(slots') <==> HasPassphrase(kept) || kind.Passphrase?
    ensures AllSpared(slots') <==>
              AllSpared(kept) && (kind.Passphrase? ==> slotLabel != LABEL_HELLO)
  {
  }

  lemma ShapeHasPassphrase(slots: seq<KeySlot>, slots': seq<KeySlot>)
    requires SameShape(slots, slots') && HasPassphrase(slots)
    ensures HasPassphrase(slots')
  {
  }

  lemma ShapeAllSpared(slots: seq<KeySlot>, slots': seq<KeySlot>)
    requires SameShape(slots, slots') && AllSpared(slots)
    ensures AllSpared(slots')
  {
  }

  lemma InitPassphrase(cmd: Command, slots: seq<KeySlot>)
    requires cmd.InitVault? && MatchesJobs(InitJobs(cmd), slots)
    ensures HasPassphrase(slots) && AllSpared(slots)
  {
    var i := if cmd.hello.Some? then 1 else 0;
    assert slots[i].Kind().Passphrase? && slots[i] in slots;
    assert |LABEL_HELLO| == 5 && |LABEL_RECOVERY| == 8 && |LABEL_PASSPHRASE| == 10;
  }

  predicate AddsPassphraseCalledHello(cmd: Command) {
    cmd.SlotAdd? && cmd.newSlot.NewPassphrase? && cmd.slotLabel == LABEL_HELLO
  }

  ghost predicate DropsLastPassphrase(w: World, cmd: Command) {
    cmd.Recover? && cmd.newSlot.NewHello? && !HasSpared(SlotsOf(w))
  }

  /**
   * What a save of `slots'` does to the passphrase slots: whether one remains, and whether all stay clear of
   * the label `hello`.
   */
  ghost predicate Treats(w: World, cmd: Command, slots': seq<KeySlot>) {
    && ((w.image.Some? ==> HasPassphrase(SlotsOf(w))) ==> (HasPassphrase(slots') <==> !DropsLastPassphrase(w, cmd)))
    && (AllSpared(SlotsOf(w)) && !AddsPassphraseCalledHello(cmd) ==> AllSpared(slots'))
  }

  lemma SavedByInit(m: Machine, w: World, cmd: Command, inp: Inputs)
    requires Hello.Lawful(m.sc) && cmd.InitVault? && GoodInputs(w, cmd, inp) && InitPlan(m, w, cmd, inp).outcome.Ok?
    ensures Treats(w, cmd, InitPlan(m, w, cmd, inp).outcome.value.image.header.slots)
  {
    InitTransacts(m, w, cmd, inp);
    InitPassphrase(cmd, InitPlan(m, w, cmd, inp).outcome.value.image.header.slots);
  }

  lemma SavedByAdd(m: Machine, w: World, slotLabel: string, newSlot: NewSlot, inp: Inputs)
    requires Hello.Lawful(m.sc) && WorldOk(m, w) && w.image.Some? && GoodInputs(w, SlotAdd(slotLabel, newSlot), inp)
    requires AddPlan(m, w, slotLabel, newSlot, inp).outcome.Ok?
    ensures Treats(w, SlotAdd(slotLabel, newSlot),
                   AddPlan(m, w, slotLabel, newSlot, inp).outcome.value.image.header.slots)
  {
    AddTransacts(m, w, slotLabel, newSlot, inp);
    AppendedPassphrase(SlotsOf(w), slotLabel, newSlot.Kind(),
                       AddPlan(m, w, slotLabel, newSlot, inp).outcome.value.image.header.slots);
  }

  lemma SavedByRm(m: Machine, w: World, slotLabel: string, inp: Inputs)
    requires WorldOk(m, w) && w.image.Some? && GoodInputs(w, SlotRm(slotLabel), inp)
    requires RmPlan(w, slotLabel, inp).outcome.Ok?
    ensures Treats(w, SlotRm(slotLabel), RmPlan(w, slotLabel, inp).outcome.value.image.header.slots)
  {
    RmTransacts(m, w, slotLabel, inp);
  }

  lemma SavedByRekey(m: Machine, w: World, cmd: Command, inp: Inputs)
    requires Hello.Lawful(m.sc) && WorldOk(m, w) && w.image.Some? && cmd.RekeyAll? && GoodInputs(w, cmd, inp)
    requires RekeyPlan(m, w, cmd, inp).outcome.Ok?
    ensures Treats(w, cmd, RekeyPlan(m, w, cmd, inp).outcome.value.image.header.slots)
  {
    var slots, slots' := SlotsOf(w), RekeyPlan(m, w, cmd, inp).outcome.value.image.header.slots;
    RekeyTransacts(m, w, cmd, inp);
    if HasPassphrase(slots) { ShapeHasPassphrase(slots, slots'); }
    if AllSpared(slots) { ShapeAllSpared(slots, slots'); }
  }

  lemma SavedByEdit(m: Machine, w: World, body: VaultBody, inp: Inputs)
    requires WorldOk(m, w) && w.image.Some? && GoodInputs(w, EditItems(body), inp)
    ensures EditPlan(w, body, inp).outcome.Ok?
    ensures Treats(w, EditItems(body), EditPlan(w, body, inp).outcome.value.image.header.slots)
  {
    EditTransacts(m, w, body, inp);
  }

  lemma SavedPassphrases(m: Machine, w: World, cmd: Command, inp: Inputs)
    requires Hello.Lawful(m.sc) && WorldOk(m, w) && GoodInputs(w, cmd, inp) && PlanOf(m, w, cmd, inp).outcome.Ok?
    ensures Treats(w, cmd, PlanOf(m, w, cmd, inp).outcome.value.image.header.slots)
  {
    if cmd.InitVault? {
      SavedByInit(m, w, cmd, inp);
    } else {
      ValidateIff(w.image.value.header);
      match cmd
      case SlotAdd(slotLabel, newSlot) => SavedByAdd(m, w, slotLabel, newSlot, inp);
      case SlotRm(slotLabel) => SavedByRm(m, w, slotLabel, inp);
      case Recover(newSlot) => RecoverPassphrases(m, w, newSlot, inp);
      case RekeyAll(_, _, _, _) => SavedByRekey(m, w, cmd, inp);
      case EditItems(body) => SavedByEdit(m, w, body, inp);
    }
  }

  lemma RecoverPassphrases(m: Machine, w: World, newSlot: NewSlot, inp: Inputs)
    requires Hello.Lawful(m.sc) && WorldOk(m, w) && w.image.Some? && GoodInputs(w, Recover(newSlot), inp)
    requires RecoverPlan(m, w, newSlot, inp).outcome.Ok?
    ensures var slots, slots' := SlotsOf(w), RecoverPlan(m, w, newSlot, inp).outcome.value.image.header.slots;
            && (HasPassphrase(slots') <==> newSlot.NewPassphrase? || HasSpared(slots))
            && (AllSpared(slots) ==> AllSpared(slots'))
            && Treats(w, Recover(newSlot), slots')
  {
    var slots, slotLabel := SlotsOf(w), RecoverLabel(newSlot);
    var slots' := RecoverPlan(m, w, newSlot, inp).outcome.value.image.header.slots;
    var kept := Keep(slots, ByKindOrLabel(slotLabel));
    RecoverTransacts(m, w, newSlot, inp);
    AppendedPassphrase(kept, slotLabel, newSlot.Kind(), slots');
    assert |LABEL_HELLO| == 5 && |LABEL_PASSPHRASE| == 10;
    forall s ensures s in kept <==> s in slots && s.Kind().Passphrase? && s.slotLabel != slotLabel {}
    if newSlot.NewHello? {
      forall s ensures s in kept <==> s in slots && Spared(s) {}
    }
  }

  /** A vault with a passphrase slot whose passphrase slots all stay clear of the label `hello`. */
  predicate Recoverable(w: World) {
    w.image.Some? ==> HasPassphrase(SlotsOf(w)) && AllSpared(SlotsOf(w))
  }

  lemma StepKeepsRecoverable(m: Machine, w: World, st: Step)
    requires Hello.Lawful(m.sc) && WorldOk(m, w) && Recoverable(w) &&
      Enabled(w, st) && (st.RunCommand? ==> !AddsPassphraseCalledHello(st.cmd))
    ensures Recoverable(After(m, w, st))
  {
    if st.RunCommand? {
      var p := PlanOf(m, w, st.cmd, st.inp);
      if p.outcome.Ok? { SavedPassphrases(m, w, st.cmd, st.inp); }
      StepImage(m, w, st);
    }
  }

  /** A step leaves the file as it was or as the command saved it. */
  lemma StepImage(m: Machine, w: World, st: Step)
    requires Hello.Lawful(m.sc) && WorldOk(m, w) && Enabled(w, st) && st.RunCommand?
    ensures var p := PlanOf(m, w, st.cmd, st.inp);
            After(m, w, st).image == w.image || (p.outcome.Ok? && After(m, w, st).image == Some(p.outcome.value.image))
    ensures var p := PlanOf(m, w, st.cmd, st.inp);
            p.outcome.Ok? && st.cut.None? ==> After(m, w, st).image == Some(p.outcome.value.image)
  {
    var p := PlanOf(m, w, st.cmd, st.inp);
    var es := p.Effects();
    PlanTransacts(m, w, st.cmd, st.inp);
    var n := if st.cut.Some? && st.cut.value < |es| then st.cut.value else |es|;
    assert Prefix(es, st.cut) == es[..n];
    PrefixIsSafe(m, w, CredentialOf(w, st.cmd), st.inp.newKey, p, n);
  }

  lemma {:induction false} RunKeepsRecoverable(m: Machine, w: World, steps: seq<Step>)
    requires Hello.Lawful(m.sc) && WorldOk(m, w) && Recoverable(w) && Runs(m, w, steps)
    requires forall st | st in steps && st.RunCommand? :: !AddsPassphraseCalledHello(st.cmd)
    ensures Recoverable(Final(m, w, steps))
    decreases |steps|
  {
    if steps != [] {
      StepIsSafe(m, w, steps[0]);
      StepKeepsRecoverable(m, w, steps[0]);
      RunKeepsRecoverable(m, After(m, w, steps[0]), steps[1..]);
    }
  }

  /** If no passphrase slot is ever added under the label `hello`, every run leaves the vault with a passphrase slot. */
  lemma NoLockOut(m: Machine, steps: seq<Step>)
    requires Hello.Lawful(m.sc) && Runs(m, EMPTY_WORLD, steps)
    requires forall st | st in steps && st.RunCommand? :: !AddsPassphraseCalledHello(st.cmd)
    ensures var w := Final(m, EMPTY_WORLD, steps); w.image.Some? ==> HasPassphrase(SlotsOf(w))
  {
    RunKeepsRecoverable(m, EMPTY_WORLD, steps);
  }

  /**
   * Command by command: a save on a vault with a passphrase slot leaves one, except exactly when `recover`
   * makes a Hello slot and every passphrase slot is labelled `hello`.
   */
  lemma PassphraseLostIff(m: Machine, w: World, cmd: Command, inp: Inputs)
    requires Hello.Lawful(m.sc) && WorldOk(m, w) && w.image.Some? && HasPassphrase(SlotsOf(w))
    requires GoodInputs(w, cmd, inp) && PlanOf(m, w, cmd, inp).outcome.Ok?
    ensures !HasPassphrase(PlanOf(m, w, cmd, inp).outcome.value.image.header.slots) <==>
              && cmd.Recover? && cmd.newSlot.NewHello?
              && forall s | s in SlotsOf(w) && s.Kind().Passphrase? :: s.slotLabel == LABEL_HELLO
  {
    SavedPassphrases(m, w, cmd, inp);
  }

  // ---------------------------------------------------------------------------
  // The run that locks out
  // ---------------------------------------------------------------------------

  /** A command that runs to its end and saves `slots`. */
  lemma FullStep(m: Machine, w: World, cmd: Command, inp: Inputs)
    requires Hello.Lawful(m.sc) && WorldOk(m, w) && GoodInputs(w, cmd, inp) && PlanOf(m, w, cmd, inp).outcome.Ok?
    ensures var w' := After(m, w, RunCommand(cmd, inp, None));
            WorldOk(m, w') && w'.image.Some? && SlotsOf(w') == PlanOf(m, w, cmd, inp).outcome.value.image.header.slots
  {
    StepIsSafe(m, w, RunCommand(cmd, inp, None));
    StepImage(m, w, RunCommand(cmd, inp, None));
  }

  lemma RunInit(m: Machine, cmd: Command, inp: Inputs)
    requires Hello.Lawful(m.sc) && GoodInputs(EMPTY_WORLD, cmd, inp)
    requires cmd.InitVault? && cmd.hello.None? && cmd.passphrase.None? && cmd.recovery != "" && ValidArgon2(cmd.argon2)
    ensures var w := After(m, EMPTY_WORLD, RunCommand(cmd, inp, None));
            WorldOk(m, w) && w.image.Some? && |SlotsOf(w)| == 1 && SlotsOf(w)[0].slotLabel == LABEL_RECOVERY
  {
    var jobs := InitJobs(cmd);
    InitTransacts(m, EMPTY_WORLD, cmd, inp);
    SealAllIff(m, EMPTY_WORLD.creds, jobs, |jobs|, inp, cmd.vid, cmd.dek);
    FullStep(m, EMPTY_WORLD, cmd, inp);
  }

  lemma AddSucceeds(m: Machine, w: World, secret: string, argon2: Argon2Params, inp: Inputs)
    requires Hello.Lawful(m.sc) && WorldOk(m, w) && w.image.Some?
    requires |SlotsOf(w)| == 1 && SlotsOf(w)[0].slotLabel == LABEL_RECOVERY && secret != "" && ValidArgon2(argon2)
    requires GoodInputs(w, SlotAdd(LABEL_HELLO, NewPassphrase(secret, argon2)), inp)
    ensures var p := AddPlan(m, w, LABEL_HELLO, NewPassphrase(secret, argon2), inp);
            p.outcome.Ok? && AppendsOne(SlotsOf(w), LABEL_HELLO, Passphrase, p.outcome.value.image.header.slots)
  {
    var slots := SlotsOf(w);
    assert |LABEL_HELLO| == 5 && |LABEL_RECOVERY| == 8;
    FirstFreeIdIsLeast(slots);
    SealsIffSealable(m, w.creds, FirstFreeId(slots).value, LABEL_HELLO, NewPassphrase(secret, argon2), inp.draws[0],
                     inp.newKey,
                     w.image.value.header.vaultId, w.image.value.ct.key);
    AddTransacts(m, w, LABEL_HELLO, NewPassphrase(secret, argon2), inp);
  }

  lemma RunAdd(m: Machine, w: World, secret: string, argon2: Argon2Params, inp: Inputs)
    requires Hello.Lawful(m.sc) && WorldOk(m, w) && w.image.Some?
    requires |SlotsOf(w)| == 1 && SlotsOf(w)[0].slotLabel == LABEL_RECOVERY && secret != "" && ValidArgon2(argon2)
    requires GoodInputs(w, SlotAdd(LABEL_HELLO, NewPassphrase(secret, argon2)), inp)
    ensures var w' := After(m, w, RunCommand(SlotAdd(LABEL_HELLO, NewPassphrase(secret, argon2)), inp, None));
            WorldOk(m, w') && w'.image.Some? && AppendsOne(SlotsOf(w), LABEL_HELLO, Passphrase, SlotsOf(w'))
  {
    ValidateIff(w.image.value.header);
    AddSucceeds(m, w, secret, argon2, inp);
    FullStep(m, w, SlotAdd(LABEL_HELLO, NewPassphrase(secret, argon2)), inp);
  }

  /** A recovery slot and a passphrase slot labelled `hello`. */
  predicate RecoveryAndHello(slots: seq<KeySlot>) {
    && |slots| == 2 && slots[0].slotLabel == LABEL_RECOVERY
    && slots[1].slotLabel == LABEL_HELLO && slots[1].Kind().Passphrase?
  }

  lemma RemoveRecovery(slots: seq<KeySlot>)
    requires RecoveryAndHello(slots)
    ensures CheckRemovable(slots, LABEL_RECOVERY).Ok?
    ensures forall s | s in Keep(slots, ByLabel(LABEL_RECOVERY)) :: s.slotLabel == LABEL_HELLO
  {
  }

  lemma RunRm(m: Machine, w: World, inp: Inputs)
    requires Hello.Lawful(m.sc) && WorldOk(m, w) && w.image.Some? && RecoveryAndHello(SlotsOf(w))
    requires GoodInputs(w, SlotRm(LABEL_RECOVERY), inp)
    ensures var w' := After(m, w, RunCommand(SlotRm(LABEL_RECOVERY), inp, None));
            && WorldOk(m, w') && w'.image.Some? && HasPassphrase(SlotsOf(w'))
            && forall s | s in SlotsOf(w') :: s.slotLabel == LABEL_HELLO
  {
    RemoveRecovery(SlotsOf(w));
    RmTransacts(m, w, LABEL_RECOVERY, inp);
    HeaderReads(m, w);
    PlanOfRm(m, w, LABEL_RECOVERY, inp);
    FullStep(m, w, SlotRm(LABEL_RECOVERY), inp);
  }

  lemma {:induction false} KeepNone(slots: seq<KeySlot>, drop: KeySlot -> bool)
    requires forall s | s in slots :: drop(s)
    ensures Keep(slots, drop) == []
  {
    if slots != [] { KeepNone(slots[1..], drop); }
  }

  lemma RecoverSucceeds(m: Machine, w: World, dpapi: bool, inp: Inputs)
    requires Hello.Lawful(m.sc) && WorldOk(m, w) && w.image.Some? && m.helloUsable && (dpapi ==> m.dpapi)
    requires forall s | s in SlotsOf(w) :: s.slotLabel == LABEL_HELLO
    requires GoodInputs(w, Recover(NewHello(dpapi)), inp)
    ensures RecoverPlan(m, w, NewHello(dpapi), inp).outcome.Ok?
  {
    var kept := Keep(SlotsOf(w), ByKindOrLabel(LABEL_HELLO));
    KeepNone(SlotsOf(w), ByKindOrLabel(LABEL_HELLO));
    FirstFreeIdIsLeast(kept);
    SealsIffSealable(m, w.creds, FirstFreeId(kept).value, LABEL_HELLO, NewHello(dpapi), inp.draws[0], inp.newKey,
                     w.image.value.header.vaultId, w.image.value.ct.key);
    RecoverTransacts(m, w, NewHello(dpapi), inp);
  }

  /** Of passphrase slots labelled `hello` alone nothing remains. */
  lemma RecoverLoses(m: Machine, w: World, dpapi: bool, inp: Inputs)
    requires Hello.Lawful(m.sc) && WorldOk(m, w) && w.image.Some? && m.helloUsable && (dpapi ==> m.dpapi)
    requires HasPassphrase(SlotsOf(w)) && forall s | s in SlotsOf(w) :: s.slotLabel == LABEL_HELLO
    requires GoodInputs(w, Recover(NewHello(dpapi)), inp)
    ensures var p := RecoverPlan(m, w, NewHello(dpapi), inp);
            && p.outcome.Ok?
            && p.outcome.value.image.header.slots != [] && !HasPassphrase(p.outcome.value.image.header.slots)
  {
    RecoverSucceeds(m, w, dpapi, inp);
    RecoverTransacts(m, w, NewHello(dpapi), inp);
    RecoverPassphrases(m, w, NewHello(dpapi), inp);
  }

  lemma RunRecover(m: Machine, w: World, dpapi: bool, inp: Inputs)
    requires Hello.Lawful(m.sc) && WorldOk(m, w) && w.image.Some? && m.helloUsable && (dpapi ==> m.dpapi)
    requires HasPassphrase(SlotsOf(w)) && forall s | s in SlotsOf(w) :: s.slotLabel == LABEL_HELLO
    requires GoodInputs(w, Recover(NewHello(dpapi)), inp)
    ensures var w' := After(m, w, RunCommand(Recover(NewHello(dpapi)), inp, None));
            w'.image.Some? && SlotsOf(w') != [] && !HasPassphrase(SlotsOf(w'))
  {
    RecoverLoses(m, w, dpapi, inp);
    HeaderReads(m, w);
    PlanOfRecover(m, w, NewHello(dpapi), inp);
    FullStep(m, w, Recover(NewHello(dpapi)), inp);
  }

  /**
   * Without the premise of `NoLockOut` the vault is lost: create it, add a passphrase slot labelled `hello`,
   * remove `recovery` and recover to Windows Hello. Every one of these commands succeeds, on every machine
   * where Hello can prompt, and only the Hello slot is left.
   */
  lemma LockOutRun(m: Machine, init: Command, secret: string, dpapi: bool, inp: Inputs) returns (steps: seq<Step>)
    requires Hello.Lawful(m.sc) && m.helloUsable && (dpapi ==> m.dpapi) && secret != ""
    requires init.InitVault? && init.hello.None? && init.passphrase.None?
    requires init.recovery != "" && ValidArgon2(init.argon2)
    requires GoodInputs(EMPTY_WORLD, init, inp)
    ensures steps == [RunCommand(init, inp, None), RunCommand(SlotAdd(LABEL_HELLO, NewPassphrase(secret, init.argon2)),
                                                              inp, None),
                      RunCommand(SlotRm(LABEL_RECOVERY), inp, None), RunCommand(Recover(NewHello(dpapi)), inp, None)]
    ensures Runs(m, EMPTY_WORLD, steps)
    ensures var w := Final(m, EMPTY_WORLD, steps); w.image.Some? && SlotsOf(w) != [] && !HasPassphrase(SlotsOf(w))
  {
    var add := SlotAdd(LABEL_HELLO, NewPassphrase(secret, init.argon2));
    RunInit(m, init, inp);
    var w1 := After(m, EMPTY_WORLD, RunCommand(init, inp, None));
    RunAdd(m, w1, secret, init.argon2, inp);
    var w2 := After(m, w1, RunCommand(add, inp, None));
    RunRm(m, w2, inp);
    var w3 := After(m, w2, RunCommand(SlotRm(LABEL_RECOVERY), inp, None));
    RunRecover(m, w3, dpapi, inp);
    steps := FourSteps(m, RunCommand(init, inp, None), RunCommand(add, inp, None),
                       RunCommand(SlotRm(LABEL_RECOVERY), inp, None),
                       RunCommand(Recover(NewHello(dpapi)), inp, None));
  }

  lemma RunCons(m: Machine, w: World, st: Step, rest: seq<Step>)
    requires Enabled(w, st) && Runs(m, After(m, w, st), rest)
    ensures Runs(m, w, [st] + rest) && Final(m, w, [st] + rest) == Final(m, After(m, w, st), rest)
  {
    assert ([st] + rest)[1..] == rest;
  }

  lemma FourSteps(m: Machine, a: Step, b: Step, c: Step, d: Step) returns (steps: seq<Step>)
    requires Enabled(EMPTY_WORLD, a) && Enabled(After(m, EMPTY_WORLD, a), b)
    requires Enabled(After(m, After(m, EMPTY_WORLD, a), b), c)
    requires Enabled(After(m, After(m, After(m, EMPTY_WORLD, a), b), c), d)
    ensures steps == [a, b, c, d] && Runs(m, EMPTY_WORLD, steps)
    ensures Final(m, EMPTY_WORLD, steps) == After(m, After(m, After(m, After(m, EMPTY_WORLD, a), b), c), d)
  {
    var w1 := After(m, EMPTY_WORLD, a);
    var w2 := After(m, w1, b);
    var w3 := After(m, w2, c);
    RunCons(m, w3, d, []);
    RunCons(m, w2, c, [d] + []);
    RunCons(m, w1, b, [c] + ([d] + []));
    RunCons(m, EMPTY_WORLD, a, [b] + ([c] + ([d] + [])));
    steps := [a] + ([b] + ([c] + ([d] + [])));
  }

  // ---------------------------------------------------------------------------
  // Several processes
  // ---------------------------------------------------------------------------

  predicate RecoverableSlots(slots: seq<KeySlot>) { HasPassphrase(slots) && AllSpared(slots) }

  /** File, loaded files and saves to come all keep a passphrase slot clear of the label `hello`. */
  ghost predicate AllRecoverable(r: Race.Race) {
    && Recoverable(r.w)
    && forall p | 0 <= p < |r.procs| ::
         && (r.procs[p].Loaded? ==> RecoverableSlots(r.procs[p].image.header.slots))
         && (r.procs[p].Pending? ==> RecoverableSlots(r.procs[p].saving.image.header.slots))
  }

  ghost predicate AddsCalledHello(l: Race.Label) { l.Prepare? && AddsPassphraseCalledHello(l.cmd) }

  lemma PrepareRecoverable(m: Machine, r: Race.Race, p: nat, cmd: Command, inp: Inputs)
    requires Hello.Lawful(m.sc) && Race.Inv(m, r) && AllRecoverable(r)
    requires p < |r.procs| && Race.CanPrepare(r, p, cmd, inp)
    requires !AddsPassphraseCalledHello(cmd)
    ensures AllRecoverable(Race.Prepared(m, r, p, cmd, inp))
  {
    var view := Race.View(r.w, r.procs[p]);
    Race.PreparedShape(m, r, p, cmd, inp);
    assert Recoverable(view);
    if PlanOf(m, view, cmd, inp).outcome.Ok? { SavedPassphrases(m, view, cmd, inp); }
  }

  lemma SaveRecoverable(r: Race.Race, p: nat)
    requires AllRecoverable(r) && p < |r.procs| && r.procs[p].Pending?
    ensures AllRecoverable(Race.Saved(r, p))
  {
    var slots := r.procs[p].saving.image.header.slots;
    assert RecoverableSlots(slots);
    if Race.StillCurrent(r.w, r.procs[p].base) { assert SlotsOf(Race.Saved(r, p).w) == slots; }
  }

  lemma DestroyRecoverable(m: Machine, r: Race.Race, p: nat)
    requires Race.Inv(m, r) && AllRecoverable(r)
    requires p < |r.procs| && r.procs[p].Destroying? && r.procs[p].todo != []
    ensures AllRecoverable(Race.Destroyed(r, p))
  {
    assert Race.ProcOk(m, r.w, r.events, p, r.procs[p]);
    assert r.procs[p].todo[0] in r.procs[p].todo;
    assert SlotsOf(Race.Destroyed(r, p).w) == SlotsOf(r.w);
  }

  lemma RaceStepRecoverable(m: Machine, r: Race.Race, l: Race.Label)
    requires Hello.Lawful(m.sc) && Race.Inv(m, r) && AllRecoverable(r)
    requires Race.Next(m, r, l).Some? && !AddsCalledHello(l)
    ensures AllRecoverable(Race.Next(m, r, l).value)
  {
    if l.Prepare? {
      PrepareRecoverable(m, r, l.p, l.cmd, l.inp);
    } else if l.Save? {
      SaveRecoverable(r, l.p);
    } else if l.Destroy? {
      DestroyRecoverable(m, r, l.p);
    }
  }

  lemma {:induction false} RaceKeepsRecoverable(m: Machine, r: Race.Race, ls: seq<Race.Label>)
    requires Hello.Lawful(m.sc) && Race.DistinctKeys(m.sc) && Race.Inv(m, r) && AllRecoverable(r)
    requires Race.Exec(m, r, ls).Some? && forall l | l in ls :: !AddsCalledHello(l)
    ensures AllRecoverable(Race.Exec(m, r, ls).value)
    decreases |ls|
  {
    if ls != [] {
      assert ls[0] in ls;
      RaceStepRecoverable(m, r, ls[0]);
      Race.NextKeepsInv(m, r, ls[0]);
      RaceKeepsRecoverable(m, Race.Next(m, r, ls[0]).value, ls[1..]);
    }
  }

  /**
   * The same in every interleaving of any number of processes: if no passphrase slot is added under the
   * label `hello`, the vault always has a passphrase slot.
   */
  lemma NoLockOutAmongMany(m: Machine, n: nat, ls: seq<Race.Label>)
    requires Hello.Lawful(m.sc) && Race.DistinctKeys(m.sc) && Race.Exec(m, Race.Start(n), ls).Some?
    requires forall l | l in ls :: !AddsCalledHello(l)
    ensures var w := Race.Exec(m, Race.Start(n), ls).value.w; w.image.Some? ==> HasPassphrase(SlotsOf(w))
  {
    RaceKeepsRecoverable(m, Race.Start(n), ls);
  }
}
