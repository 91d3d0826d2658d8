/**
 * The slot commands inside the commit protocol: what a command saves is an edit the protocol allows, so all
 * that is proved of the protocol's runs holds for the commands; and a slot once removed stays removed.
 */
module KeyProtocol {
  import opened Basics
  import opened Body
  import opened Slots
  import opened Header
  import opened Vault
  import opened KeyCommands
  import opened KeyTheorems
  import opened KeyRuns
  import Hello
  import P = Protocol
  import T = ProtocolTheorems

  // ---------------------------------------------------------------------------
  // A saved command is a run of the protocol
  // ---------------------------------------------------------------------------

  /** Process `p` has just unlocked the file of `w`. */
  ghost predicate JustUnlocked(s: P.State, p: nat, w: World) {
    && p < |s.procs| && s.procs[p].Open?
    && w.image.Some? && w.used == s.used
    && s.procs[p].s.base == w.image && s.procs[p].s.vault == Current(w)
  }

  /** That is what `unlock` arrives at, unless a `rekey` came between its reads. */
  lemma UnlockIsJustUnlocked(s: P.State, p: nat, w: World)
    requires P.Inv(s) && p < |s.procs| && s.procs[p].HasDek? && w.image == s.main && w.used == s.used
    requires forall k | s.procs[p].seen.generation <= k < |s.commits| :: !s.commits[k].rekeyed
    ensures P.Next(s, P.SecondRead(p)).Some? && JustUnlocked(P.Next(s, P.SecondRead(p)).value, p, w)
  {
    T.UnlockReturnsOneCommit(s, p);
    assert P.CommitOk(s.commits, |s.commits| - 1);
    DecodedIsIdentity(s.main.value.ct.plaintext);
  }

  /** The edit of the slots, under the key of the file or a new one. */
  function SlotEdit(p: nat, before: Image, img: Image): P.Label {
    if img.ct.key == before.ct.key then P.EditSlots(p, img.header.slots) else P.Rekey(p, img.ct.key, img.header.slots)
  }

  /** Process `p` holds a session that `write` turns into exactly `img`. */
  ghost predicate WouldWrite(s: P.State, p: nat, base: Option<Image>, img: Image) {
    && p < |s.procs| && s.procs[p].Open?
    && s.procs[p].s.base == base
    && BuildImage(s.procs[p].s.vault, base.None?, img.header.bodyNonce) == Ok(img)
  }

  /** All but process `p` and the keys in use is as before. */
  ghost predicate OnlyEdited(s: P.State, t: P.State, p: nat) {
    && |t.procs| == |s.procs| && (forall q | 0 <= q < |s.procs| && q != p :: t.procs[q] == s.procs[q])
    && t.main == s.main && t.bak == s.bak && t.lock == s.lock && t.commits == s.commits && t.floor == s.floor
  }

  lemma TwoSteps(s: P.State, l1: P.Label, s1: P.State, l2: P.Label, s2: P.State)
    requires P.Next(s, l1) == Some(s1) && P.Next(s1, l2) == Some(s2)
    ensures P.Exec(s, [l1] + [l2]) == Some(s2)
  {
    T.Snoc(s, [], s, l1);
    assert [] + [l1] == [l1];
    T.Snoc(s, [l1], s1, l2);
  }

  lemma BodyStep(s: P.State, p: nat, w: World, body: VaultBody)
    requires JustUnlocked(s, p, w) && Canonical(body)
    ensures P.Next(s, P.EditBody(p, body)) ==
      Some(P.With(s, p, P.Open(s.procs[p].s.(vault := s.procs[p].s.vault.(body := body)))))
  {
  }

  /** What a vault with the slots, key and body of its successor is written as. */
  lemma BuildsSuccessor(w: World, img: Image)
    requires w.image.Some? && SealedImage(img) && SucceedsTheFile(w, img)
    ensures var v := Current(w).(body := img.ct.plaintext, dek := img.ct.key,
                                 header := Current(w).header.(slots := img.header.slots));
            BuildImage(v, false, img.header.bodyNonce) == Ok(img)
  {
    ValidateIff(img.header);
  }

  lemma GoodSlotsWrap(m: Machine, img: Image, ledger: map<Byte, Secret>)
    requires GoodImage(m, img, ledger)
    ensures P.SlotsWrap(img.header, img.ct.key)
  {
  }

  /** The protocol lets a session edit slots and key as any good successor of its file has them. */
  lemma SlotStep(m: Machine, s: P.State, p: nat, w: World, img: Image, ledger: map<Byte, Secret>)
    requires JustUnlocked(s, p, w) && GoodImage(m, img, ledger) && SucceedsTheFile(w, img)
    ensures var s1 := P.With(s, p, P.Open(s.procs[p].s.(vault := s.procs[p].s.vault.(body := img.ct.plaintext))));
            && P.Next(s1, SlotEdit(p, w.image.value, img)).Some?
            && var t := P.Next(s1, SlotEdit(p, w.image.value, img)).value;
               WouldWrite(t, p, w.image, img) && OnlyEdited(s, t, p)
  {
    GoodSlotsWrap(m, img, ledger);
    BuildsSuccessor(w, img);
  }

  /**
   * What any command but `init` saves: editing body and slots as it does passes the guards of the protocol, and
   * leaves a session that is written as exactly the command's file.
   */
  lemma SavedPlanIsARun(m: Machine, w: World, cmd: Command, inp: Inputs, s: P.State, p: nat)
    requires Hello.Lawful(m.sc) && WorldOk(m, w) && !cmd.InitVault? && GoodInputs(w, cmd, inp)
    requires JustUnlocked(s, p, w) && PlanOf(m, w, cmd, inp).outcome.Ok?
    ensures var img := PlanOf(m, w, cmd, inp).outcome.value.image;
            var ls := [P.EditBody(p, img.ct.plaintext)] + [SlotEdit(p, w.image.value, img)];
            && P.Exec(s, ls).Some?
            && WouldWrite(P.Exec(s, ls).value, p, w.image, img) && OnlyEdited(s, P.Exec(s, ls).value, p)
  {
    PlanTransacts(m, w, cmd, inp);
    var save := PlanOf(m, w, cmd, inp).outcome.value;
    SavedImageIsARun(m, w, save.image, save.ledger, s, p);
  }

  lemma SavedImageIsARun(m: Machine, w: World, img: Image, ledger: map<Byte, Secret>, s: P.State, p: nat)
    requires JustUnlocked(s, p, w) && GoodImage(m, img, ledger) && SucceedsTheFile(w, img)
    ensures var ls := [P.EditBody(p, img.ct.plaintext)] + [SlotEdit(p, w.image.value, img)];
            && P.Exec(s, ls).Some?
            && WouldWrite(P.Exec(s, ls).value, p, w.image, img) && OnlyEdited(s, P.Exec(s, ls).value, p)
  {
    BodyStep(s, p, w, img.ct.plaintext);
    SlotStep(m, s, p, w, img, ledger);
    var s1 := P.With(s, p, P.Open(s.procs[p].s.(vault := s.procs[p].s.vault.(body := img.ct.plaintext))));
    TwoSteps(s, P.EditBody(p, img.ct.plaintext), s1, SlotEdit(p, w.image.value, img),
             P.Next(s1, SlotEdit(p, w.image.value, img)).value);
  }

  /** What `init` saves: the protocol lets a process create that vault, and it is written as exactly that file. */
  lemma SavedInitIsARun(m: Machine, w: World, cmd: Command, inp: Inputs, s: P.State, p: nat)
    requires Hello.Lawful(m.sc) && cmd.InitVault? && GoodInputs(w, cmd, inp)
    requires p < |s.procs| && s.procs[p].Idle? && s.main.None? && w.used == s.used
    requires PlanOf(m, w, cmd, inp).outcome.Ok?
    ensures var img := PlanOf(m, w, cmd, inp).outcome.value.image;
            var l := P.BeginCreate(p, cmd.vid, cmd.created, img.header.slots, cmd.dek);
            && P.Next(s, l).Some?
            && WouldWrite(P.Next(s, l).value, p, None, img) && OnlyEdited(s, P.Next(s, l).value, p)
  {
    InitTransacts(m, w, cmd, inp);
    var save := PlanOf(m, w, cmd, inp).outcome.value;
    assert PlanOf(m, w, cmd, inp) == InitPlan(m, w, cmd, inp);
    CreatesImage(m, s, p, cmd, save.image, save.ledger);
  }

  lemma CreatesImage(m: Machine, s: P.State, p: nat, cmd: Command, img: Image, ledger: map<Byte, Secret>)
    requires cmd.InitVault? && GoodImage(m, img, ledger) && cmd.dek !in s.used && img.ct.key == cmd.dek
    requires p < |s.procs| && s.procs[p].Idle? && s.main.None?
    requires SameHeaderBut(NewHeader(cmd.vid, cmd.created, []), img.header) && img.header.generation == 1
    requires img.ct.plaintext == EMPTY_BODY
    ensures var l := P.BeginCreate(p, cmd.vid, cmd.created, img.header.slots, cmd.dek);
            && P.Next(s, l).Some?
            && WouldWrite(P.Next(s, l).value, p, None, img) && OnlyEdited(s, P.Next(s, l).value, p)
  {
    GoodSlotsWrap(m, img, ledger);
    ValidateIff(img.header);
  }

  ghost predicate LoadedFrom(v: Unlocked, base: Image) {
    ValidHeader(base.header) && v.loadedGeneration == base.header.generation
  }

  const NO_FAULT := IoFaults(true, true, true, CopyWorks, true)

  /** From there, with the lock free and the file still as it was loaded, the save commits that file. */
  lemma WouldWriteCommits(s: P.State, p: nat, base: Option<Image>, img: Image) returns (ls: seq<P.Label>, t: P.State)
    requires WouldWrite(s, p, base, img) && s.lock.None? && s.main == base
    requires base.Some? ==> LoadedFrom(s.procs[p].s.vault, base.value)
    ensures (forall l | l in ls :: l.p == p) && P.Exec(s, ls) == Some(t)
    ensures t.main == Some(img) && |t.commits| == |s.commits| + 1
    ensures t.bak == CopyToBackup(base, s.bak, CopyWorks)
  {
    if base.Some? { ValidateIff(base.value.header); }
    ls, t := T.SoloWriteIsARun(s, p, img.header.bodyNonce, NO_FAULT);
  }

  // ---------------------------------------------------------------------------
  // A removed slot
  // ---------------------------------------------------------------------------

  predicate HasSession(pr: P.Proc) { pr.Open? || pr.Saving? || pr.Dropping? }

  /** Step `l` puts slot `x` where its session did not have it. */
  ghost predicate Adds(s: P.State, l: P.Label, x: KeySlot) {
    && l.p < |s.procs|
    && (l.EditSlots? || l.Rekey? || l.BeginCreate?) && x in l.slots
    && !(s.procs[l.p].Open? && x in s.procs[l.p].s.vault.header.slots)
  }

  /** No step of the run puts slot `x` back: every new slot is sealed with fresh salt and nonce. */
  ghost predicate NeverAdds(s: P.State, ls: seq<P.Label>, x: KeySlot)
    requires P.Exec(s, ls).Some?
    decreases |ls|
  {
    ls == [] || (!Adds(s, ls[0], x) && NeverAdds(P.Next(s, ls[0]).value, ls[1..], x))
  }

  ghost predicate Lacks(pr: P.Proc, x: KeySlot, gen: nat) {
    HasSession(pr) && gen <= pr.s.vault.loadedGeneration ==> x !in pr.s.vault.header.slots
  }

  /** No commit from generation `gen` on holds slot `x`, nor does a session loaded from one. */
  ghost predicate Gone(s: P.State, x: KeySlot, gen: nat) {
    && 1 <= gen <= |s.commits|
    && (forall i | gen - 1 <= i < |s.commits| :: x !in s.commits[i].image.header.slots)
    && forall p | 0 <= p < |s.procs| :: Lacks(s.procs[p], x, gen)
  }

  lemma ReadLacks(s: P.State, l: P.Label, x: KeySlot, gen: nat)
    requires P.Inv(s) && Gone(s, x, gen) && P.Next(s, l).Some? && l.SecondRead?
    ensures Lacks(P.Next(s, l).value.procs[l.p], x, gen)
  {
    assert P.CommitOk(s.commits, |s.commits| - 1);
    OpenSealedIff(s.main.value, s.procs[l.p].key);
  }

  lemma RenameLacks(s: P.State, l: P.Label, x: KeySlot, gen: nat)
    requires P.Inv(s) && Gone(s, x, gen) && P.Next(s, l).Some? && l.Rename?
    ensures Lacks(P.Next(s, l).value.procs[l.p], x, gen)
    ensures var cs := P.Next(s, l).value.commits;
            && |cs| == |s.commits| + 1 && cs[..|s.commits|] == s.commits
            && x !in cs[|s.commits|].image.header.slots
  {
    assert P.ProcOk(s.commits, s.used, s.procs[l.p]);
  }

  lemma OwnStepLacks(s: P.State, l: P.Label, x: KeySlot, gen: nat)
    requires P.Inv(s) && Gone(s, x, gen) && P.Next(s, l).Some? && !Adds(s, l, x)
    requires !l.SecondRead? && !l.Rename?
    ensures Lacks(P.Next(s, l).value.procs[l.p], x, gen)
    ensures P.Next(s, l).value.commits == s.commits
  {
    assert Lacks(s.procs[l.p], x, gen);
  }

  lemma StepKeepsGone(s: P.State, l: P.Label, x: KeySlot, gen: nat)
    requires P.Inv(s) && Gone(s, x, gen) && P.Next(s, l).Some? && !Adds(s, l, x)
    ensures Gone(P.Next(s, l).value, x, gen)
  {
    var s' := P.Next(s, l).value;
    if l.SecondRead? { ReadLacks(s, l, x, gen); }
    else if l.Rename? { RenameLacks(s, l, x, gen); }
    else { OwnStepLacks(s, l, x, gen); }
    forall q | 0 <= q < |s'.procs| ensures Lacks(s'.procs[q], x, gen) {
      if q != l.p { T.OthersLeaveAlone(s, q, l); }
    }
  }

  lemma {:induction false} RunKeepsGone(s: P.State, ls: seq<P.Label>, x: KeySlot, gen: nat)
    requires P.Inv(s) && Gone(s, x, gen) && P.Exec(s, ls).Some? && NeverAdds(s, ls, x)
    ensures Gone(P.Exec(s, ls).value, x, gen)
    decreases |ls|
  {
    if ls != [] {
      StepKeepsGone(s, ls[0], x, gen);
      P.NextKeepsInv(s, ls[0]);
      RunKeepsGone(P.Next(s, ls[0]).value, ls[1..], x, gen);
    }
  }

  /** Right after a save without slot `x`, only the saving process holds a session of the new file. */
  lemma GoneAfterSave(s: P.State, p: nat, x: KeySlot)
    requires P.Inv(s) && p < |s.procs| && P.Next(s, P.Rename(p)).Some?
    requires x !in s.procs[p].s.vault.header.slots
    ensures Gone(P.Next(s, P.Rename(p)).value, x, |s.commits| + 1)
  {
    var s' := P.Next(s, P.Rename(p)).value;
    assert P.ProcOk(s.commits, s.used, s.procs[p]);
    forall q | 0 <= q < |s'.procs| ensures Lacks(s'.procs[q], x, |s.commits| + 1) {
      if q != p { assert P.ProcOk(s.commits, s.used, s.procs[q]); }
    }
  }

  /**
   * A slot that a save left out is in no later file, whatever other processes loaded before that save; and once
   * a backup has been dropped since, it is in no later backup either, as long as nobody adds that same slot.
   */
  lemma RemovedSlotStaysRemoved(s: P.State, p: nat, x: KeySlot, ls: seq<P.Label>, t: P.State)
    requires P.Inv(s) && p < |s.procs| && P.Next(s, P.Rename(p)).Some?
    requires x !in s.procs[p].s.vault.header.slots
    requires P.Exec(P.Next(s, P.Rename(p)).value, ls) == Some(t)
    requires NeverAdds(P.Next(s, P.Rename(p)).value, ls, x)
    ensures t.main.Some? && x !in t.main.value.header.slots
    ensures |s.commits| < t.floor && t.bak.Whole? ==> x !in t.bak.image.header.slots
  {
    var s1 := P.Next(s, P.Rename(p)).value;
    P.NextKeepsInv(s, P.Rename(p));
    GoneAfterSave(s, p, x);
    RunKeepsGone(s1, ls, x, |s.commits| + 1);
    T.RunKeepsFloor(s1, ls, t);
    GoneFromDisk(t, x, |s.commits| + 1);
  }

  /** The edits of `slot rm` leave the slots with the label out. */
  lemma RmLeavesOut(m: Machine, w: World, slotLabel: string, inp: Inputs, s: P.State, p: nat, x: KeySlot)
    requires Hello.Lawful(m.sc) && WorldOk(m, w) && GoodInputs(w, SlotRm(slotLabel), inp)
    requires JustUnlocked(s, p, w) && RmPlan(w, slotLabel, inp).outcome.Ok? && x.slotLabel == slotLabel
    ensures var img := RmPlan(w, slotLabel, inp).outcome.value.image;
            var ls := [P.EditBody(p, img.ct.plaintext)] + [SlotEdit(p, w.image.value, img)];
            && P.Exec(s, ls).Some? && p < |P.Exec(s, ls).value.procs| && P.Exec(s, ls).value.procs[p].Open?
            && x !in P.Exec(s, ls).value.procs[p].s.vault.header.slots
  {
    var save := RmPlan(w, slotLabel, inp).outcome.value;
    RmTransacts(m, w, slotLabel, inp);
    SavedImageIsARun(m, w, save.image, save.ledger, s, p);
  }

  lemma GoneFromDisk(t: P.State, x: KeySlot, gen: nat)
    requires P.Inv(t) && Gone(t, x, gen)
    ensures t.main.Some? && x !in t.main.value.header.slots
    ensures gen <= t.floor && t.bak.Whole? ==> x !in t.bak.image.header.slots
  {
    if t.bak.Whole? { T.BackupAboveFloor(t); }
  }
}
