/** What the commit protocol guarantees in every run. */
module ProtocolTheorems {
  import opened Basics
  import opened Body
  import opened Slots
  import opened Header
  import opened Vault
  import opened Protocol

  lemma ReachableInv(n: nat, ls: seq<Label>)
    requires Exec(Init(n), ls).Some?
    ensures Inv(Exec(Init(n), ls).value)
  {
    ExecKeepsInv(Init(n), ls);
  }

  /** Each commit was loaded from the one before it, is the next generation and belongs to the same vault. */
  ghost predicate OneChain(cs: seq<Commit>) {
    forall i | 0 <= i < |cs| :: Follows(cs, i)
  }

  ghost predicate Follows(cs: seq<Commit>, i: nat)
    requires i < |cs|
  {
    && cs[i].image.header.generation == i + 1
    && cs[i].base == (if i == 0 then None else Some(cs[i - 1].image))
    && cs[i].image.header.vaultId == cs[0].image.header.vaultId
  }

  /**
   * No lost update. In every run the commits form one chain: each was loaded from the one before it and
   * carries the next generation, so only the first can come from `create`; the vault file is always the
   * latest commit, whole; and never are two processes inside `write`.
   */
  lemma NoLostUpdate(n: nat, ls: seq<Label>)
    requires Exec(Init(n), ls).Some?
    ensures var s := Exec(Init(n), ls).value;
            && OneChain(s.commits)
            && s.main == Latest(s.commits)
            && (forall p, q | 0 <= p < |s.procs| && 0 <= q < |s.procs| && s.procs[p].Saving? && s.procs[q].Saving? ::
                  p == q)
  {
    ReachableInv(n, ls);
    var s := Exec(Init(n), ls).value;
    forall i | 0 <= i < |s.commits| ensures Follows(s.commits, i) {
      assert CommitOk(s.commits, i);
      OneVaultId(s, i);
    }
  }

  lemma {:induction false} OneVaultId(s: State, i: nat)
    requires Inv(s) && i < |s.commits|
    ensures s.commits[i].image.header.vaultId == s.commits[0].image.header.vaultId
  {
    assert CommitOk(s.commits, i);
    if i > 0 { OneVaultId(s, i - 1); }
  }

  /** At every moment of every run the file, once it exists, opens with its own key to a whole commit. */
  lemma FileAlwaysOpens(n: nat, ls: seq<Label>)
    requires Exec(Init(n), ls).Some?
    ensures var s := Exec(Init(n), ls).value;
            s.main.Some? ==>
              |s.commits| > 0 &&
              var c := s.commits[|s.commits| - 1].image;
              OpenWithDek(s.main, c.ct.key) == Ok(Unlocked(c.header, c.ct.plaintext, c.ct.key, |s.commits|))
  {
    ReachableInv(n, ls);
    var s := Exec(Init(n), ls).value;
    if s.main.Some? {
      assert CommitOk(s.commits, |s.commits| - 1);
      OpenSealedIff(s.main.value, s.main.value.ct.key);
    }
  }

  // ---------------------------------------------------------------------------
  // A session that lost the race
  // ---------------------------------------------------------------------------

  /** Process `p` holds a session loaded from a file that has been replaced since. */
  ghost predicate Stale(s: State, p: nat) {
    && p < |s.procs|
    && (s.procs[p].Open? || s.procs[p].Saving? || s.procs[p].Dropping?)
    && s.procs[p].s.base.Some?
    && s.procs[p].s.vault.loadedGeneration < |s.commits|
  }

  /** Other processes leave a process alone and take no commit back. */
  lemma OthersLeaveAlone(s: State, p: nat, l: Label)
    requires Next(s, l).Some? && l.p != p && p < |s.procs|
    ensures |Next(s, l).value.procs| == |s.procs| && Next(s, l).value.procs[p] == s.procs[p]
    ensures |Next(s, l).value.commits| >= |s.commits|
  {
  }

  lemma OwnStaleStep(s: State, l: Label)
    requires Inv(s) && Stale(s, l.p) && Next(s, l).Some? && !l.Crash?
    ensures !l.Rename? && Stale(Next(s, l).value, l.p)
  {
    assert ProcOk(s.commits, s.used, s.procs[l.p]);
    if l.Check? { CheckPassesIffCurrent(s, s.procs[l.p].s); }
  }

  lemma StaleStep(s: State, p: nat, l: Label)
    requires Inv(s) && Stale(s, p) && Next(s, l).Some? && l != Crash(p)
    ensures l != Rename(p) && Stale(Next(s, l).value, p)
  {
    if l.p == p { OwnStaleStep(s, l); } else { OthersLeaveAlone(s, p, l); }
  }

  /** A process whose save was answered `Locked` holds a stale session. */
  lemma LockedIsStale(s: State, p: nat)
    requires Inv(s) && p < |s.procs| && s.procs[p].Open? && s.procs[p].s.gotLocked
    requires s.procs[p].s.base.Some?
    ensures Stale(s, p)
  {
  }

  lemma InHeadOrTail(ls: seq<Label>, l: Label)
    requires ls != []
    ensures l in ls <==> l == ls[0] || l in ls[1..]
  {
    assert ls == [ls[0]] + ls[1..];
  }

  /** However it is edited and retried, a stale session never commits again as long as it lives. */
  lemma {:induction false} StaleNeverSaves(s: State, p: nat, ls: seq<Label>)
    requires Inv(s) && Stale(s, p) && Exec(s, ls).Some? && Crash(p) !in ls
    ensures Rename(p) !in ls && Stale(Exec(s, ls).value, p)
    decreases |ls|
  {
    if ls != [] {
      InHeadOrTail(ls, Crash(p));
      InHeadOrTail(ls, Rename(p));
      StaleStep(s, p, ls[0]);
      NextKeepsInv(s, ls[0]);
      StaleNeverSaves(Next(s, ls[0]).value, p, ls[1..]);
    }
  }

  // ---------------------------------------------------------------------------
  // Two unlocked reads
  // ---------------------------------------------------------------------------

  /** Two commits are sealed under the same key exactly when no `rekey` lies between them. */
  lemma {:induction false} SameKeyIffNoRekey(s: State, i: nat, j: nat)
    requires Inv(s) && i <= j < |s.commits|
    ensures s.commits[i].image.ct.key == s.commits[j].image.ct.key <==>
            forall k | i < k <= j :: !s.commits[k].rekeyed
    decreases j
  {
    if i < j {
      assert CommitOk(s.commits, j);
      SameKeyIffNoRekey(s, i, j - 1);
    }
  }

  /**
   * `unlock` takes the key from its first read and header and body from its second. It succeeds exactly
   * when no `rekey` was committed in between, and then what it returns is the latest commit, whole, with
   * that commit's own key and generation.
   */
  lemma UnlockReturnsOneCommit(s: State, p: nat)
    requires Inv(s) && p < |s.procs| && s.procs[p].HasDek?
    ensures Next(s, SecondRead(p)).Some?
    ensures var pr := Next(s, SecondRead(p)).value.procs[p];
            var first := s.procs[p].seen.generation;
            && 1 <= first <= |s.commits|
            && (pr.Open? <==> forall k | first <= k < |s.commits| :: !s.commits[k].rekeyed)
            && (pr.Open? ==>
                  var img := s.commits[|s.commits| - 1].image;
                  && pr.s.base == Some(img)
                  && pr.s.vault == Unlocked(img.header, img.ct.plaintext, img.ct.key, |s.commits|))
            && (!pr.Open? ==> pr.Idle?)
  {
    var n := |s.commits|;
    assert ProcOk(s.commits, s.used, s.procs[p]);
    assert CommitOk(s.commits, n - 1);
    OpenSealedIff(s.main.value, s.procs[p].key);
    SameKeyIffNoRekey(s, s.procs[p].seen.generation - 1, n - 1);
  }

  /** The key any slot of the first read yields is the key of that read's own commit. */
  lemma EverySlotYieldsTheKey(s: State, p: nat, k: nat)
    requires Inv(s) && p < |s.procs| && s.procs[p].FirstRead? && k < |s.procs[p].seen.slots|
    ensures var h := s.procs[p].seen;
            && 1 <= h.generation <= |s.commits|
            && Next(s, TakeDek(p, k)) == Some(With(s, p, HasDek(h, s.commits[h.generation - 1].image.ct.key)))
  {
    var h := s.procs[p].seen;
    assert ProcOk(s.commits, s.used, s.procs[p]);
    assert CommitOk(s.commits, h.generation - 1);
    assert h.slots[k] in h.slots;
  }

  // ---------------------------------------------------------------------------
  // Revoked backups
  // ---------------------------------------------------------------------------

  lemma StepGrows(s: State, l: Label)
    requires Next(s, l).Some?
    ensures s.commits <= Next(s, l).value.commits && s.floor <= Next(s, l).value.floor
  {
  }

  lemma {:induction false} HistoryGrows(s: State, ls: seq<Label>)
    requires Exec(s, ls).Some?
    ensures s.commits <= Exec(s, ls).value.commits
    ensures s.floor <= Exec(s, ls).value.floor
    decreases |ls|
  {
    if ls != [] {
      StepGrows(s, ls[0]);
      HistoryGrows(Next(s, ls[0]).value, ls[1..]);
    }
  }

  lemma RemovalIsAStep(s: State, p: nat, ses: Session, gen: nat)
    requires Inv(s) && p < |s.procs| && s.procs[p] == Dropping(ses, gen)
    ensures Next(s, RemoveBak(p, true)) == Some(BackupRemoved(s, p))
    ensures Inv(BackupRemoved(s, p))
    ensures s.commits == BackupRemoved(s, p).commits && gen <= BackupRemoved(s, p).floor
  {
    NextKeepsInv(s, RemoveBak(p, true));
  }

  lemma RunKeepsFloor(s: State, ls: seq<Label>, t: State)
    requires Inv(s) && Exec(s, ls) == Some(t)
    ensures Inv(t) && s.commits <= t.commits && s.floor <= t.floor
  {
    ExecKeepsInv(s, ls);
    HistoryGrows(s, ls);
  }

  lemma BackupAboveFloor(s: State)
    requires Inv(s) && s.bak.Whole?
    ensures var g := s.bak.image.header.generation;
            s.floor <= g && 1 <= g <= |s.commits| && s.bak.image == s.commits[g - 1].image
  {
    assert BakOk(s);
  }

  /**
   * Once a `save_dropping_backup` of generation `gen` has removed `.bak`, no continuation with any other
   * writers brings back a copy of an older generation, although the removal is outside the lock.
   */
  lemma RevokedBackupsStayGone(s: State, p: nat, ses: Session, gen: nat, ls: seq<Label>, t: State)
    requires Inv(s) && p < |s.procs| && s.procs[p] == Dropping(ses, gen)
    requires Exec(BackupRemoved(s, p), ls) == Some(t)
    ensures Inv(t) && s.commits <= t.commits
    ensures t.bak.Whole? ==>
              var g := t.bak.image.header.generation;
              gen <= g && 1 <= g <= |t.commits| && t.bak.image == t.commits[g - 1].image
  {
    RemovalIsAStep(s, p, ses, gen);
    RunKeepsFloor(BackupRemoved(s, p), ls, t);
    if t.bak.Whole? { BackupAboveFloor(t); }
  }

  /** After a `rekey` that dropped the backup, no later backup holds a slot that wraps an older key. */
  lemma RevokedKeysStayOutOfBackups(s: State, p: nat, ses: Session, k: nat, ls: seq<Label>, t: State,
                                    slot: KeySlot, j: nat)
    requires Inv(s) && p < |s.procs| && s.procs[p] == Dropping(ses, k + 1)
    requires Exec(BackupRemoved(s, p), ls) == Some(t)
    requires j < k < |s.commits| && s.commits[k].rekeyed
    requires t.bak.Whole? && slot in t.bak.image.header.slots
    ensures Core(slot.ct).Sealed? && Core(slot.ct).dek != s.commits[j].image.ct.key
  {
    RevokedBackupsStayGone(s, p, ses, k + 1, ls, t);
    OldKeyNotInBackup(s.commits, t, k, slot, j);
  }

  lemma OldKeyNotInBackup(cs: seq<Commit>, t: State, k: nat, slot: KeySlot, j: nat)
    requires Inv(t) && cs <= t.commits && j < k < |cs| && cs[k].rekeyed
    requires t.bak.Whole? && k + 1 <= t.bak.image.header.generation && slot in t.bak.image.header.slots
    ensures Core(slot.ct).Sealed? && Core(slot.ct).dek != cs[j].image.ct.key
  {
    BackupSlotsWrapItsKey(t, slot);
    assert t.commits[k] == cs[k] && t.commits[j] == cs[j];
    KeysBeforeRekeyDiffer(t, j, k, t.bak.image.header.generation - 1);
  }

  lemma BackupSlotsWrapItsKey(t: State, slot: KeySlot)
    requires Inv(t) && t.bak.Whole? && slot in t.bak.image.header.slots
    ensures var g := t.bak.image.header.generation;
            && 1 <= g <= |t.commits|
            && Core(slot.ct).Sealed? && Core(slot.ct).dek == t.commits[g - 1].image.ct.key
  {
    assert CommitOk(t.commits, t.bak.image.header.generation - 1);
    assert Wraps(slot, t.bak.image.header.vaultId, t.bak.image.ct.key);
  }

  lemma KeysBeforeRekeyDiffer(t: State, j: nat, k: nat, i: nat)
    requires Inv(t) && j < k <= i < |t.commits| && t.commits[k].rekeyed
    ensures t.commits[j].image.ct.key != t.commits[i].image.ct.key
  {
    SameKeyIffNoRekey(t, j, i);
  }

  // ---------------------------------------------------------------------------
  // The uninterrupted write is a run of the protocol
  // ---------------------------------------------------------------------------

  lemma {:induction false} Snoc(s: State, ls: seq<Label>, t: State, l: Label)
    requires Exec(s, ls) == Some(t)
    ensures Exec(s, ls + [l]) == Next(t, l)
    decreases |ls|
  {
    if ls == [] {
      assert ls + [l] == [l];
    } else {
      Snoc(Next(s, ls[0]).value, ls[1..], t, l);
      assert (ls + [l])[1..] == ls[1..] + [l];
    }
  }

  /** The steps between staging and renaming, for each way the copy to `.bak` can go. */
  lemma CopyRun(s: State, ls: seq<Label>, t: State, p: nat, fault: CopyFault) returns (ls': seq<Label>, t': State)
    requires Exec(s, ls) == Some(t) && p < |t.procs| && t.procs[p].Saving? && t.procs[p].phase.Staged?
    ensures Exec(s, ls') == Some(t')
    ensures t' ==
      With(t, p, t.procs[p].(phase := Copied(t.procs[p].phase.img))).(bak := CopyToBackup(t.main, t.bak, fault))
    ensures forall l | l in ls' :: l in ls || l.p == p
  {
    if t.main.None? || fault.CopyRefused? {
      Snoc(s, ls, t, SkipCopy(p));
      ls', t' := ls + [SkipCopy(p)], Next(t, SkipCopy(p)).value;
    } else {
      var l := if fault.CopyWorks? then FinishCopy(p) else AbandonCopy(p);
      Snoc(s, ls, t, StartCopy(p));
      CopySteps(t, p, fault);
      Snoc(s, ls + [StartCopy(p)], Next(t, StartCopy(p)).value, l);
      ls', t' := ls + [StartCopy(p)] + [l], Next(Next(t, StartCopy(p)).value, l).value;
    }
  }

  lemma CopySteps(t: State, p: nat, fault: CopyFault)
    requires p < |t.procs| && t.procs[p].Saving? && t.procs[p].phase.Staged? && t.main.Some? && !fault.CopyRefused?
    ensures Next(t, StartCopy(p)).Some?
    ensures Next(Next(t, StartCopy(p)).value, if fault.CopyWorks? then FinishCopy(p) else AbandonCopy(p)) ==
      Some(With(t, p, t.procs[p].(phase := Copied(t.procs[p].phase.img))).(bak := CopyToBackup(t.main, t.bak, fault)))
  {
    var t1 := Next(t, StartCopy(p)).value;
    assert t1.procs[p := t.procs[p].(phase := Copied(t.procs[p].phase.img))]
        == t.procs[p := t.procs[p].(phase := Copied(t.procs[p].phase.img))];
  }

  function InWrite(s: State, p: nat, phase: Phase): State
    requires p < |s.procs| && s.procs[p].Open?
  {
    With(s, p, Saving(s.procs[p].s, phase, false)).(lock := Some(p))
  }

  lemma LockStep(s: State, p: nat)
    requires s.lock.None? && p < |s.procs| && s.procs[p].Open?
    ensures Exec(s, [Lock(p, false)]) == Some(InWrite(s, p, Acquired))
  {
  }

  lemma CheckStep(s: State, p: nat)
    requires p < |s.procs| && s.procs[p].Open?
    requires WriteCheck(s.procs[p].s.vault, s.main, s.procs[p].s.base.None?).Ok?
    ensures Next(InWrite(s, p, Acquired), Check(p)) == Some(InWrite(s, p, Checked))
  {
    assert s.procs[p := Saving(s.procs[p].s, Acquired, false)][p := Saving(s.procs[p].s, Checked, false)]
        == s.procs[p := Saving(s.procs[p].s, Checked, false)];
  }

  lemma StageStep(s: State, p: nat, nonce: Bytes)
    requires p < |s.procs| && s.procs[p].Open?
    requires BuildImage(s.procs[p].s.vault, s.procs[p].s.base.None?, nonce).Ok?
    ensures Next(InWrite(s, p, Checked), Stage(p, nonce))
         == Some(InWrite(s, p, Staged(BuildImage(s.procs[p].s.vault, s.procs[p].s.base.None?, nonce).value)))
  {
    var img := BuildImage(s.procs[p].s.vault, s.procs[p].s.base.None?, nonce).value;
    assert s.procs[p := Saving(s.procs[p].s, Checked, false)][p := Saving(s.procs[p].s, Staged(img), false)]
        == s.procs[p := Saving(s.procs[p].s, Staged(img), false)];
  }

  /** The steps up to the sealed temp file, when the check passes and the header encodes. */
  lemma StageRun(s: State, p: nat, nonce: Bytes) returns (ls: seq<Label>, t: State)
    requires s.lock.None? && p < |s.procs| && s.procs[p].Open?
    requires WriteCheck(s.procs[p].s.vault, s.main, s.procs[p].s.base.None?).Ok?
    requires BuildImage(s.procs[p].s.vault, s.procs[p].s.base.None?, nonce).Ok?
    ensures forall l | l in ls :: l.p == p
    ensures Exec(s, ls) == Some(t)
    ensures t == InWrite(s, p, Staged(BuildImage(s.procs[p].s.vault, s.procs[p].s.base.None?, nonce).value))
  {
    LockStep(s, p);
    CheckStep(s, p);
    Snoc(s, [Lock(p, false)], InWrite(s, p, Acquired), Check(p));
    StageStep(s, p, nonce);
    Snoc(s, [Lock(p, false)] + [Check(p)], InWrite(s, p, Checked), Stage(p, nonce));
    ls := [Lock(p, false)] + [Check(p)] + [Stage(p, nonce)];
    t := InWrite(s, p, Staged(BuildImage(s.procs[p].s.vault, s.procs[p].s.base.None?, nonce).value));
  }

  lemma RefuseCheck(s: State, p: nat)
    requires p < |s.procs| && s.procs[p].Open?
    requires WriteCheck(s.procs[p].s.vault, s.main, s.procs[p].s.base.None?).Err?
    ensures var r := WriteCheck(s.procs[p].s.vault, s.main, s.procs[p].s.base.None?);
            Next(InWrite(s, p, Acquired), Check(p)) == Some(Release(InWrite(s, p, Acquired), p,
                                                                    s.procs[p].s.gotLocked || r.error.Locked?))
  {
  }

  lemma RefuseStage(s: State, p: nat, nonce: Bytes)
    requires p < |s.procs| && s.procs[p].Open?
    requires BuildImage(s.procs[p].s.vault, s.procs[p].s.base.None?, nonce).Err?
    ensures var gotLocked := s.procs[p].s.gotLocked;
            && Next(InWrite(s, p, Checked), Stage(p, nonce)) == Some(Release(InWrite(s, p, Checked), p, gotLocked))
            && Release(InWrite(s, p, Checked), p, gotLocked) == Release(InWrite(s, p, Acquired), p, gotLocked)
  {
    var a, b := InWrite(s, p, Acquired), InWrite(s, p, Checked);
    assert Release(b, p, s.procs[p].s.gotLocked).procs == Release(a, p, s.procs[p].s.gotLocked).procs;
  }

  /** The steps that end in the error of the check or of the header encoder. */
  lemma RefusedRun(s: State, p: nat, nonce: Bytes) returns (ls: seq<Label>, t: State)
    requires s.lock.None? && p < |s.procs| && s.procs[p].Open?
    requires WriteCheck(s.procs[p].s.vault, s.main, s.procs[p].s.base.None?).Err? ||
             BuildImage(s.procs[p].s.vault, s.procs[p].s.base.None?, nonce).Err?
    ensures forall l | l in ls :: l.p == p
    ensures Exec(s, ls) == Some(t)
    ensures exists gotLocked :: t == Release(InWrite(s, p, Acquired), p, gotLocked)
  {
    var r := WriteCheck(s.procs[p].s.vault, s.main, s.procs[p].s.base.None?);
    LockStep(s, p);
    Snoc(s, [Lock(p, false)], InWrite(s, p, Acquired), Check(p));
    if r.Err? {
      RefuseCheck(s, p);
      ls := [Lock(p, false)] + [Check(p)];
      t := Release(InWrite(s, p, Acquired), p, s.procs[p].s.gotLocked || r.error.Locked?);
    } else {
      CheckStep(s, p);
      RefuseStage(s, p, nonce);
      Snoc(s, [Lock(p, false)] + [Check(p)], InWrite(s, p, Checked), Stage(p, nonce));
      ls := [Lock(p, false)] + [Check(p)] + [Stage(p, nonce)];
      t := Release(InWrite(s, p, Acquired), p, s.procs[p].s.gotLocked);
    }
  }

  /** The steps that end in an encoder error after the check. */
  lemma UnencodedRun(s: State, p: nat) returns (ls: seq<Label>, t: State)
    requires s.lock.None? && p < |s.procs| && s.procs[p].Open?
    requires WriteCheck(s.procs[p].s.vault, s.main, s.procs[p].s.base.None?).Ok?
    ensures forall l | l in ls :: l.p == p
    ensures Exec(s, ls) == Some(t) && t == Release(InWrite(s, p, Checked), p, s.procs[p].s.gotLocked)
  {
    LockStep(s, p);
    CheckStep(s, p);
    Snoc(s, [Lock(p, false)], InWrite(s, p, Acquired), Check(p));
    Snoc(s, [Lock(p, false)] + [Check(p)], InWrite(s, p, Checked), Fail(p));
    ls := [Lock(p, false)] + [Check(p)] + [Fail(p)];
    t := Release(InWrite(s, p, Checked), p, s.procs[p].s.gotLocked);
  }

  /** Renaming and releasing the lock. */
  lemma CommitRun(s: State, ls: seq<Label>, t: State, p: nat) returns (ls': seq<Label>, t': State)
    requires Exec(s, ls) == Some(t) && p < |t.procs| && t.procs[p].Saving? && t.procs[p].phase.Copied?
    requires !t.procs[p].drop
    ensures Exec(s, ls') == Some(t') && ls' == ls + [Rename(p)] + [Unlock(p)]
    ensures var img := t.procs[p].phase.img;
            var ses := Session(Saved(t.procs[p].s.vault, img), Some(img), false, false);
            && t'.main == Some(img) && t'.bak == t.bak && t'.lock.None?
            && t'.procs == t.procs[p := Open(ses)]
            && |t'.commits| == |t.commits| + 1
  {
    var t1 := CommitSteps(t, p);
    Snoc(s, ls, t, Rename(p));
    Snoc(s, ls + [Rename(p)], t1, Unlock(p));
    ls', t' := ls + [Rename(p)] + [Unlock(p)], Next(t1, Unlock(p)).value;
  }

  lemma CommitSteps(t: State, p: nat) returns (t1: State)
    requires p < |t.procs| && t.procs[p].Saving? && t.procs[p].phase.Copied? && !t.procs[p].drop
    ensures Next(t, Rename(p)) == Some(t1) && Next(t1, Unlock(p)).Some?
    ensures var img := t.procs[p].phase.img;
            var t', ses := Next(t1, Unlock(p)).value, Session(Saved(t.procs[p].s.vault, img), Some(img), false, false);
            && t'.main == Some(img) && t'.bak == t.bak && t'.lock.None?
            && t'.procs == t.procs[p := Open(ses)]
            && |t'.commits| == |t.commits| + 1
  {
    t1 := Next(t, Rename(p)).value;
  }

  /** Giving up before the rename. */
  lemma FailRun(s: State, ls: seq<Label>, t: State, p: nat) returns (t': State)
    requires Exec(s, ls) == Some(t) && p < |t.procs| && t.procs[p].Saving? && !t.procs[p].phase.Renamed?
    ensures Exec(s, ls + [Fail(p)]) == Some(t') && t'.lock.None? && |t'.procs| == |t.procs|
    ensures t'.main == t.main && t'.bak == t.bak && t'.commits == t.commits
    ensures (t.procs[p].s.base.None? && t'.procs[p].Idle?)
         || (t'.procs[p].Open? && t'.procs[p].s.vault == t.procs[p].s.vault)
  {
    Snoc(s, ls, t, Fail(p));
    t' := Next(t, Fail(p)).value;
  }

  /** The steps from the sealed temp file on, for each way the remaining calls can go. */
  lemma FinishRun(s: State, ls: seq<Label>, t: State, p: nat, io: IoFaults) returns (ls': seq<Label>, t': State)
    requires Exec(s, ls) == Some(t) && p < |t.procs| && t.procs[p].Saving? && t.procs[p].phase.Staged?
    requires !t.procs[p].drop && forall l | l in ls :: l.p == p
    ensures forall l | l in ls' :: l.p == p
    ensures Exec(s, ls') == Some(t') && |t'.procs| == |t.procs| && t'.lock.None?
    ensures var img := t.procs[p].phase.img;
            var v, creating := t.procs[p].s.vault, t.procs[p].s.base.None?;
            && t'.main == (if io.temp && io.rename then Some(img) else t.main)
            && t'.bak == (if io.temp then CopyToBackup(t.main, t.bak, io.copy) else t.bak)
            && (io.temp && io.rename ==> t'.procs[p].Open? && t'.procs[p].s.vault == Saved(v, img))
            && (!io.temp || !io.rename ==>
                  (creating && t'.procs[p].Idle?) || (t'.procs[p].Open? && t'.procs[p].s.vault == v))
            && |t'.commits| == |t.commits| + (if io.temp && io.rename then 1 else 0)
  {
    if !io.temp {
      t' := FailRun(s, ls, t, p);
      return ls + [Fail(p)], t';
    }
    ls', t' := CopyRun(s, ls, t, p, io.copy);
    if !io.rename {
      t' := FailRun(s, ls', t', p);
      ls' := ls' + [Fail(p)];
    } else {
      ls', t' := CommitRun(s, ls', t', p);
    }
  }

  /**
   * Left alone, a process inside the protocol does what the method `Write` of module Vault does: same
   * file, same backup, same vault in memory, for every combination of I/O failures.
   */
  lemma SoloWriteIsARun(s: State, p: nat, nonce: Bytes, io: IoFaults) returns (ls: seq<Label>, t: State)
    requires s.lock.None? && p < |s.procs| && s.procs[p].Open?
    ensures forall l | l in ls :: l.p == p
    ensures Exec(s, ls) == Some(t) && |t.procs| == |s.procs| && t.lock.None?
    ensures var v := s.procs[p].s.vault;
            var creating := s.procs[p].s.base.None?;
            var ok := Commits(v, s.main, creating, nonce, io);
            && t.main == (if ok then Some(BuildImage(v, creating, nonce).value) else s.main)
            && t.bak == BakAfter(v, s.main, s.bak, creating, nonce, io)
            && (ok ==> t.procs[p].Open? && t.procs[p].s.vault == Saved(v, t.main.value))
            && (!ok ==> (creating && t.procs[p].Idle?) || (t.procs[p].Open? && t.procs[p].s.vault == v))
            && |t.commits| == |s.commits| + (if ok then 1 else 0)
  {
    var v, creating := s.procs[p].s.vault, s.procs[p].s.base.None?;
    if !io.lock {
      ls, t := [], s;
    } else if WriteCheck(v, s.main, creating).Err? || BuildImage(v, creating, nonce).Err? {
      ls, t := RefusedRun(s, p, nonce);
    } else if !io.encode {
      ls, t := UnencodedRun(s, p);
    } else {
      ls, t := StageRun(s, p, nonce);
      ls, t := FinishRun(s, ls, t, p, io);
    }
  }
}
