/**
 * The commit protocol as a transition system: any number of processes create, open, edit and save one
 * vault file, each step can be interleaved with every other, and a process can stop at any step.
 *
 * Writers take the advisory lock; readers take none and `unlock` reads the file twice. `commits`,
 * `used` and `floor` are history variables: no step decides anything by them except that a fresh
 * random key is one not used before.
 */
module Protocol {
  import opened Basics
  import opened Body
  import opened Slots
  import opened Header
  import opened Vault

  /** An opened vault, with the file it was loaded from (none while creating). */
  datatype Session = Session(vault: Unlocked, base: Option<Image>, rekeyed: bool, gotLocked: bool)

  /** How far a process inside `write` has come. It holds the lock in every phase. */
  datatype Phase = Acquired | Checked | Staged(img: Image) | Copying(img: Image) | Copied(img: Image) | Renamed

  datatype Proc =
    | Idle
    | FirstRead(seen: Header)
    | HasDek(seen: Header, key: Dek)
    | Open(s: Session)
    | Saving(s: Session, phase: Phase, drop: bool)
    | Dropping(s: Session, gen: nat)

  datatype Commit = Commit(image: Image, base: Option<Image>, rekeyed: bool, author: nat)

  datatype State = State(
    main: Option<Image>,
    bak: Backup,
    lock: Option<nat>,
    procs: seq<Proc>,
    commits: seq<Commit>,
    used: set<Dek>,
    floor: nat)

  datatype Label =
    | BeginUnlock(p: nat)
    | TakeDek(p: nat, slot: nat)
    | SecondRead(p: nat)
    | BeginCreate(p: nat, vid: VaultId, created: string, slots: seq<KeySlot>, dek: Dek)
    | EditBody(p: nat, body: VaultBody)
    | EditSlots(p: nat, slots: seq<KeySlot>)
    | Rekey(p: nat, dek: Dek, slots: seq<KeySlot>)
    | Lock(p: nat, drop: bool)
    | Check(p: nat)
    | Stage(p: nat, nonce: Bytes)
    | StartCopy(p: nat)
    | SkipCopy(p: nat)
    | FinishCopy(p: nat)
    | AbandonCopy(p: nat)
    | Rename(p: nat)
    | Fail(p: nat)
    | Unlock(p: nat)
    | RemoveBak(p: nat, ok: bool)
    | Crash(p: nat)

  function Init(n: nat): State {
    State(None, Absent, None, seq(n, _ => Idle), [], {}, 0)
  }

  function With(s: State, p: nat, pr: Proc): State
    requires p < |s.procs|
  {
    s.(procs := s.procs[p := pr])
  }

  /** Leaving `write` with an error: the lock is dropped; a vault being created is given up. */
  function Release(s: State, p: nat, gotLocked: bool): State
    requires p < |s.procs| && s.procs[p].Saving?
  {
    var ses := s.procs[p].s;
    With(s, p, if ses.base.None? then Idle else Open(ses.(gotLocked := gotLocked))).(lock := None)
  }

  function BackupRemoved(s: State, p: nat): State
    requires p < |s.procs| && s.procs[p].Dropping?
  {
    var gen := s.procs[p].gen;
    With(s, p, Open(s.procs[p].s)).(bak := Absent, floor := if s.floor < gen then gen else s.floor)
  }

  ghost predicate SlotsWrap(h: Header, dek: Dek) {
    |h.vaultId| == VAULT_ID_LEN && AllWrap(h.slots, h.vaultId, dek)
  }

  /** The state after one step, if the step is possible. */
  ghost function Next(s: State, l: Label): Option<State> {
    if l.p >= |s.procs| then None
    else
      var pr := s.procs[l.p];
      match l
      case BeginUnlock(p) =>
        if !pr.Idle? then None
        else if ReadHeader(s.main).Ok? then Some(With(s, p, FirstRead(ReadHeader(s.main).value)))
        else Some(s)
      case TakeDek(p, slot) =>
        if pr.FirstRead? && slot < |pr.seen.slots| && Core(pr.seen.slots[slot].ct).Sealed?
        then Some(With(s, p, HasDek(pr.seen, Core(pr.seen.slots[slot].ct).dek)))
        else None
      case SecondRead(p) =>
        if !pr.HasDek? then None
        else
          var r := OpenWithDek(s.main, pr.key);
          Some(With(s, p, if r.Ok? then Open(Session(r.value, s.main, false, false)) else Idle))
      case BeginCreate(p, vid, created, slots, dek) =>
        if pr.Idle? && s.main.None? && dek !in s.used && AllWrap(slots, vid, dek)
        then
          var v := Unlocked(NewHeader(vid, created, slots), EMPTY_BODY, dek, 0);
          Some(With(s, p, Open(Session(v, None, false, false))).(used := s.used + {dek}))
        else None
      case EditBody(p, body) =>
        if pr.Open? && Canonical(body) then Some(With(s, p, Open(pr.s.(vault := pr.s.vault.(body := body)))))
        else None
      case EditSlots(p, slots) =>
        if !pr.Open? then None
        else
          var v := pr.s.vault.(header := pr.s.vault.header.(slots := slots));
          if SlotsWrap(v.header, v.dek) then Some(With(s, p, Open(pr.s.(vault := v)))) else None
      case Rekey(p, dek, slots) =>
        if !pr.Open? || pr.s.base.None? || dek in s.used then None
        else
          var v := pr.s.vault.(header := pr.s.vault.header.(slots := slots), dek := dek);
          if SlotsWrap(v.header, v.dek)
          then Some(With(s, p, Open(pr.s.(vault := v, rekeyed := true))).(used := s.used + {dek}))
          else None
      case Lock(p, drop) =>
        if pr.Open? && s.lock.None? then Some(With(s, p, Saving(pr.s, Acquired, drop)).(lock := Some(p))) else None
      case Check(p) =>
        if !pr.Saving? || !pr.phase.Acquired? then None
        else
          var r := WriteCheck(pr.s.vault, s.main, pr.s.base.None?);
          if r.Ok? then Some(With(s, p, pr.(phase := Checked)))
          else Some(Release(s, p, pr.s.gotLocked || r.error.Locked?))
      case Stage(p, nonce) =>
        if !pr.Saving? || !pr.phase.Checked? then None
        else
          var r := BuildImage(pr.s.vault, pr.s.base.None?, nonce);
          if r.Ok? then Some(With(s, p, pr.(phase := Staged(r.value)))) else Some(Release(s, p, pr.s.gotLocked))
      case StartCopy(p) =>
        if pr.Saving? && pr.phase.Staged? && s.main.Some?
        then Some(With(s, p, pr.(phase := Copying(pr.phase.img))).(bak := Partial))
        else None
      case SkipCopy(p) =>
        if pr.Saving? && pr.phase.Staged? then Some(With(s, p, pr.(phase := Copied(pr.phase.img)))) else None
      case FinishCopy(p) =>
        // A copy whose target was removed meanwhile goes to a file without a name.
        if pr.Saving? && pr.phase.Copying? && s.main.Some?
        then
          var bak := if s.bak.Absent? then Absent else Whole(s.main.value);
          Some(With(s, p, pr.(phase := Copied(pr.phase.img))).(bak := bak))
        else None
      case AbandonCopy(p) =>
        if pr.Saving? && pr.phase.Copying? then Some(With(s, p, pr.(phase := Copied(pr.phase.img)))) else None
      case Rename(p) =>
        if !pr.Saving? || !pr.phase.Copied? then None
        else
          var img := pr.phase.img;
          var ses := Session(Saved(pr.s.vault, img), Some(img), false, false);
          Some(With(s, p, pr.(s := ses, phase := Renamed)).(
               main := Some(img),
               commits := s.commits + [Commit(img, pr.s.base, pr.s.rekeyed, p)]))
      case Fail(p) =>
        if pr.Saving? && !pr.phase.Renamed? then Some(Release(s, p, pr.s.gotLocked)) else None
      case Unlock(p) =>
        if pr.Saving? && pr.phase.Renamed?
        then Some(With(s, p, if pr.drop then Dropping(pr.s,
                                                      pr.s.vault.loadedGeneration) else Open(pr.s)).(lock := None))
        else None
      case RemoveBak(p, ok) =>
        if !pr.Dropping? then None else if ok then Some(BackupRemoved(s, p)) else Some(With(s, p, Open(pr.s)))
      case Crash(p) =>
        Some(With(s, p, Idle).(lock := if s.lock == Some(p) then None else s.lock))
  }

  /** A whole run: the state after the steps `ls`, if all of them are possible. */
  ghost function Exec(s: State, ls: seq<Label>): Option<State>
    decreases |ls|
  {
    if ls == [] then Some(s)
    else
      match Next(s, ls[0])
      case None => None
      case Some(s') => Exec(s', ls[1..])
  }

  // ---------------------------------------------------------------------------
  // The invariant
  // ---------------------------------------------------------------------------

  /** Commit `i` is a complete file, one generation after the commit it was loaded from. */
  ghost predicate CommitOk(cs: seq<Commit>, i: nat)
    requires i < |cs|
  {
    var img := cs[i].image;
    && SealedImage(img)
    && img.header.generation == i + 1
    && SlotsWrap(img.header, img.ct.key)
    && cs[i].base == (if i == 0 then None else Some(cs[i - 1].image))
    && (i > 0 ==> img.header.vaultId == cs[i - 1].image.header.vaultId)
    && (i > 0 && !cs[i].rekeyed ==> img.ct.key == cs[i - 1].image.ct.key)
    && (cs[i].rekeyed ==> i > 0 && forall j | 0 <= j < i :: cs[j].image.ct.key != img.ct.key)
  }

  ghost predicate SessionOk(cs: seq<Commit>, used: set<Dek>, s: Session) {
    var v, g := s.vault, s.vault.loadedGeneration;
    && g <= |cs|
    && (s.base.None? <==> g == 0)
    && (g > 0 ==> s.base == Some(cs[g - 1].image) && v.header.vaultId == cs[g - 1].image.header.vaultId)
    && SlotsWrap(v.header, v.dek)
    && Canonical(v.body)
    && v.dek in used
    && (g > 0 && !s.rekeyed ==> v.dek == cs[g - 1].image.ct.key)
    && (s.rekeyed ==> g > 0 && forall j | 0 <= j < g :: cs[j].image.ct.key != v.dek)
    && (s.gotLocked ==> g < |cs|)
  }

  /** `img` is the next generation of `v`. */
  ghost predicate ImageOf(v: Unlocked, img: Image) {
    && SealedImage(img)
    && img.ct.key == v.dek
    && img.ct.plaintext == v.body
    && img.header == v.header.(generation := v.loadedGeneration + 1, bodyNonce := img.header.bodyNonce)
  }

  ghost predicate SeenOk(cs: seq<Commit>, h: Header) {
    1 <= h.generation <= |cs| && h == cs[h.generation - 1].image.header
  }

  ghost predicate ProcOk(cs: seq<Commit>, used: set<Dek>, pr: Proc) {
    match pr
    case Idle => true
    case FirstRead(h) => SeenOk(cs, h)
    case HasDek(h, d) => SeenOk(cs, h) && d == cs[h.generation - 1].image.ct.key
    case Open(s) => SessionOk(cs, used, s)
    case Saving(s, phase, _) =>
      && SessionOk(cs, used, s)
      && (!phase.Acquired? ==> s.vault.loadedGeneration == |cs|)
      && (phase.Staged? || phase.Copying? || phase.Copied? ==> ImageOf(s.vault, phase.img))
    case Dropping(s, gen) => SessionOk(cs, used, s) && gen == s.vault.loadedGeneration
  }

  ghost predicate BakOk(s: State) {
    && s.floor <= |s.commits|
    && (s.bak.Whole? ==>
          var g := s.bak.image.header.generation;
          1 <= g <= |s.commits| && s.floor <= g && s.bak.image == s.commits[g - 1].image)
  }

  function Latest(cs: seq<Commit>): Option<Image> {
    if cs == [] then None else Some(cs[|cs| - 1].image)
  }

  ghost predicate Inv(s: State) {
    && (forall i | 0 <= i < |s.commits| :: CommitOk(s.commits, i))
    && s.main == Latest(s.commits)
    && (forall p | 0 <= p < |s.procs| :: s.procs[p].Saving? <==> s.lock == Some(p))
    && (forall p | 0 <= p < |s.procs| :: ProcOk(s.commits, s.used, s.procs[p]))
    && (forall i | 0 <= i < |s.commits| :: s.commits[i].image.ct.key in s.used)
    && BakOk(s)
  }

  /** A step of one process that commits nothing keeps the invariant if that process stays consistent. */
  lemma LocalStep(s: State, s': State, p: nat, pr: Proc)
    requires Inv(s) && p < |s.procs|
    requires s'.procs == s.procs[p := pr]
    requires s'.main == s.main && s'.commits == s.commits && s.used <= s'.used
    requires pr.Saving? <==> s'.lock == Some(p)
    requires s'.lock == s.lock || (s.lock == Some(p) && s'.lock == None) || (s.lock == None && s'.lock == Some(p))
    requires ProcOk(s.commits, s'.used, pr)
    requires BakOk(s')
    ensures Inv(s')
  {
    forall q | 0 <= q < |s'.procs| ensures ProcOk(s'.commits, s'.used, s'.procs[q]) {
      if q != p { assert ProcOk(s.commits, s.used, s.procs[q]); }
    }
  }

  lemma NextBeginUnlock(s: State, l: Label)
    requires Inv(s) && Next(s, l).Some? && l.BeginUnlock?
    ensures Inv(Next(s, l).value)
  {
    var p, s' := l.p, Next(s, l).value;
    if s.commits != [] { assert CommitOk(s.commits, |s.commits| - 1); }
    LocalStep(s, s', p, s'.procs[p]);
  }

  lemma NextBeginCreate(s: State, l: Label)
    requires Inv(s) && Next(s, l).Some? && l.BeginCreate?
    ensures Inv(Next(s, l).value)
  {
    var p, s' := l.p, Next(s, l).value;
    LocalStep(s, s', p, s'.procs[p]);
  }

  lemma NextTakeDek(s: State, l: Label)
    requires Inv(s) && Next(s, l).Some? && l.TakeDek?
    ensures Inv(Next(s, l).value)
  {
    var p, s' := l.p, Next(s, l).value;
    assert ProcOk(s.commits, s.used, s.procs[p]);
    var h := s.procs[p].seen;
    assert CommitOk(s.commits, h.generation - 1);
    assert h.slots[l.slot] in h.slots;
    LocalStep(s, s', p, s'.procs[p]);
  }

  lemma NextSecondRead(s: State, l: Label)
    requires Inv(s) && Next(s, l).Some? && l.SecondRead?
    ensures Inv(Next(s, l).value)
  {
    var p, s' := l.p, Next(s, l).value;
    assert ProcOk(s.commits, s.used, s.procs[p]);
    assert CommitOk(s.commits, |s.commits| - 1);
    OpenSealedIff(s.main.value, s.procs[p].key);
    LocalStep(s, s', p, s'.procs[p]);
  }

  lemma NextEditing(s: State, l: Label)
    requires Inv(s) && Next(s, l).Some?
    requires l.EditBody? || l.EditSlots? || l.Rekey?
    ensures Inv(Next(s, l).value)
  {
    var p, s' := l.p, Next(s, l).value;
    assert ProcOk(s.commits, s.used, s.procs[p]);
    LocalStep(s, s', p, s'.procs[p]);
  }

  lemma NextCrash(s: State, l: Label)
    requires Inv(s) && Next(s, l).Some? && l.Crash?
    ensures Inv(Next(s, l).value)
  {
    LocalStep(s, Next(s, l).value, l.p, Idle);
  }

  lemma NextLocking(s: State, l: Label)
    requires Inv(s) && Next(s, l).Some? && (l.Lock? || l.Fail? || l.Unlock?)
    ensures Inv(Next(s, l).value)
  {
    var p, s' := l.p, Next(s, l).value;
    assert ProcOk(s.commits, s.used, s.procs[p]);
    LocalStep(s, s', p, s'.procs[p]);
  }

  /** The check under the lock lets exactly the sessions loaded from the current file pass. */
  lemma CheckPassesIffCurrent(s: State, ses: Session)
    requires Inv(s) && SessionOk(s.commits, s.used, ses)
    ensures WriteCheck(ses.vault, s.main, ses.base.None?).Ok? <==> ses.vault.loadedGeneration == |s.commits|
    ensures ses.base.Some? && WriteCheck(ses.vault, s.main, false).Err? ==>
              WriteCheck(ses.vault, s.main, false).error.Locked?
  {
    if s.commits != [] {
      assert CommitOk(s.commits, |s.commits| - 1);
      ValidateIff(s.main.value.header);
    }
  }

  lemma NextCheck(s: State, l: Label)
    requires Inv(s) && Next(s, l).Some? && l.Check?
    ensures Inv(Next(s, l).value)
  {
    var p, s' := l.p, Next(s, l).value;
    assert ProcOk(s.commits, s.used, s.procs[p]);
    CheckPassesIffCurrent(s, s.procs[p].s);
    LocalStep(s, s', p, s'.procs[p]);
  }

  lemma StagedIsImageOf(v: Unlocked, creating: bool, nonce: Bytes)
    requires Canonical(v.body) && BuildImage(v, creating, nonce).Ok? && (creating ==> v.loadedGeneration == 0)
    ensures ImageOf(v, BuildImage(v, creating, nonce).value)
  {
    BuildIsSealed(v, creating, nonce);
  }

  lemma NextStage(s: State, l: Label)
    requires Inv(s) && Next(s, l).Some? && l.Stage?
    ensures Inv(Next(s, l).value)
  {
    var p, s' := l.p, Next(s, l).value;
    var pr := s.procs[p];
    assert ProcOk(s.commits, s.used, pr);
    if BuildImage(pr.s.vault, pr.s.base.None?, l.nonce).Ok? {
      StagedIsImageOf(pr.s.vault, pr.s.base.None?, l.nonce);
    }
    LocalStep(s, s', p, s'.procs[p]);
  }

  lemma NextCopying(s: State, l: Label)
    requires Inv(s) && Next(s, l).Some? && (l.StartCopy? || l.SkipCopy? || l.AbandonCopy?)
    ensures Inv(Next(s, l).value)
  {
    var p, s' := l.p, Next(s, l).value;
    assert ProcOk(s.commits, s.used, s.procs[p]);
    LocalStep(s, s', p, s'.procs[p]);
  }

  lemma NextFinishCopy(s: State, l: Label)
    requires Inv(s) && Next(s, l).Some? && l.FinishCopy?
    ensures Inv(Next(s, l).value)
  {
    var p, s' := l.p, Next(s, l).value;
    assert ProcOk(s.commits, s.used, s.procs[p]);
    if s.commits != [] { assert CommitOk(s.commits, |s.commits| - 1); }
    LocalStep(s, s', p, s'.procs[p]);
  }

  lemma NextRemoveBak(s: State, l: Label)
    requires Inv(s) && Next(s, l).Some? && l.RemoveBak?
    ensures Inv(Next(s, l).value)
  {
    var p, s' := l.p, Next(s, l).value;
    assert ProcOk(s.commits, s.used, s.procs[p]);
    LocalStep(s, s', p, s'.procs[p]);
  }

  /** What one more commit leaves true of a process that is not inside `write`. */
  lemma ProcOkGrows(cs: seq<Commit>, c: Commit, used: set<Dek>, pr: Proc)
    requires ProcOk(cs, used, pr) && !pr.Saving?
    ensures ProcOk(cs + [c], used, pr)
  {
  }

  lemma NextCommit(s: State, l: Label)
    requires Inv(s) && Next(s, l).Some? && l.Rename?
    ensures Inv(Next(s, l).value)
  {
    var p, s' := l.p, Next(s, l).value;
    var pr := s.procs[p];
    assert ProcOk(s.commits, s.used, pr);
    var cs, c := s.commits, s'.commits[|s.commits|];
    assert s'.commits == cs + [c];
    forall q | 0 <= q < |s'.procs| ensures ProcOk(s'.commits, s'.used, s'.procs[q]) {
      assert ProcOk(cs, s.used, s.procs[q]);
      if q != p { ProcOkGrows(cs, c, s.used, s.procs[q]); }
    }
    forall i | 0 <= i < |s'.commits| ensures CommitOk(s'.commits, i) {
      if i < |cs| { assert CommitOk(cs, i); }
    }
  }

  lemma NextKeepsInv(s: State, l: Label)
    requires Inv(s) && Next(s, l).Some?
    ensures Inv(Next(s, l).value)
  {
    match l
    case BeginUnlock(_) => NextBeginUnlock(s, l);
    case TakeDek(_, _) => NextTakeDek(s, l);
    case SecondRead(_) => NextSecondRead(s, l);
    case BeginCreate(_, _, _, _, _) => NextBeginCreate(s, l);
    case EditBody(_, _) => NextEditing(s, l);
    case EditSlots(_, _) => NextEditing(s, l);
    case Rekey(_, _, _) => NextEditing(s, l);
    case StartCopy(_) => NextCopying(s, l);
    case SkipCopy(_) => NextCopying(s, l);
    case FinishCopy(_) => NextFinishCopy(s, l);
    case AbandonCopy(_) => NextCopying(s, l);
    case RemoveBak(_, _) => NextRemoveBak(s, l);
    case Rename(_) => NextCommit(s, l);
    case Check(_) => NextCheck(s, l);
    case Stage(_, _) => NextStage(s, l);
    case Crash(_) => NextCrash(s, l);
    case _ => NextLocking(s, l);
  }

  lemma {:induction false} ExecKeepsInv(s: State, ls: seq<Label>)
    requires Inv(s) && Exec(s, ls).Some?
    ensures Inv(Exec(s, ls).value)
    decreases |ls|
  {
    if ls != [] {
      NextKeepsInv(s, ls[0]);
      ExecKeepsInv(Next(s, ls[0]).value, ls[1..]);
    }
  }
}
