/**
 * Several processes at once run the slot commands. Each loads the file, prepares its command (which enrols
 * with the credential store), saves if the file is still the one it loaded, and then deletes credentials;
 * steps of different processes interleave at will and a process can stop at any of them.
 */
module KeyRace {
  import opened Basics
  import opened Slots
  import opened Header
  import opened Vault
  import opened KeyCommands
  import opened KeyTheorems
  import opened KeyRuns
  import Hello

  /** How far a process has come. A save is pending on the file that was loaded (none: the vault is being created). */
  datatype Proc =
    | Idle
    | Loaded(image: Image, ledger: map<Byte, Secret>)
    | Pending(base: Option<Image>, saving: Saving)
    | Destroying(todo: seq<Effect>)

  /** History: who enrolled which new Hello slots, and who deleted which credential. */
  datatype Event = Enrol(p: nat, slots: seq<KeySlot>) | Erase(p: nat, name: string)

  /** `keys` holds the numbers of all keys ever offered to the store, `events` what has happened. */
  datatype Race = Race(w: World, procs: seq<Proc>, keys: set<nat>, events: seq<Event>)

  datatype Label =
    | Load(p: nat)
    | Prepare(p: nat, cmd: Command, inp: Inputs)
    | Save(p: nat)
    | Destroy(p: nat)
    | Stop(p: nat)

  function Start(n: nat): Race { Race(EMPTY_WORLD, seq(n, _ => Idle), {}, []) }

  function With(r: Race, p: nat, pr: Proc): Race
    requires p < |r.procs|
  {
    r.(procs := r.procs[p := pr])
  }

  /** The world as the process knows it: the file it loaded, the credential store as it is now. */
  function View(w: World, pr: Proc): World {
    if pr.Loaded? then World(Some(pr.image), w.creds, pr.ledger, w.used) else w
  }

  function SlotsIn(image: Option<Image>): seq<KeySlot> {
    if image.Some? then image.value.header.slots else []
  }

  /** The Hello slots of a save that the file it was prepared on did not have. */
  function NewHelloSlots(base: Option<Image>, saving: Saving): seq<KeySlot> {
    Keep(saving.image.header.slots, (s: KeySlot) => !s.params.HelloParams? || s in SlotsIn(base))
  }

  /** The check of `write`: only the generations are compared. */
  predicate StillCurrent(w: World, base: Option<Image>) {
    match base
    case None => w.image.None?
    case Some(b) => w.image.Some? && w.image.value.header.generation == b.header.generation
  }

  /** `init` starts from nothing, every other command from a loaded file. */
  ghost predicate CanPrepare(r: Race, p: nat, cmd: Command, inp: Inputs)
    requires p < |r.procs|
  {
    && (if cmd.InitVault? then r.procs[p].Idle? else r.procs[p].Loaded?)
    && GoodInputs(View(r.w, r.procs[p]), cmd, inp)
    && inp.newKey !in r.keys
  }

  ghost function Prepared(m: Machine, r: Race, p: nat, cmd: Command, inp: Inputs): Race
    requires p < |r.procs| && CanPrepare(r, p, cmd, inp)
  {
    var view := View(r.w, r.procs[p]);
    var plan := PlanOf(m, view, cmd, inp);
    var r' := r.(w := ApplyAll(r.w, plan.before), keys := r.keys + {inp.newKey});
    match plan.outcome
    case Err(_) => With(r', p, Idle)
    case Ok(saving) =>
      With(r', p, Pending(view.image, saving)).(events := r.events + [Enrol(p, NewHelloSlots(view.image, saving))])
  }

  function Saved(r: Race, p: nat): Race
    requires p < |r.procs| && r.procs[p].Pending?
  {
    var saving := r.procs[p].saving;
    if !StillCurrent(r.w, r.procs[p].base) then With(r, p, Idle)
    else With(r, p, Destroying(saving.after)).(w := Apply(r.w, Commit(saving.image, saving.ledger)))
  }

  function Destroyed(r: Race, p: nat): Race
    requires p < |r.procs| && r.procs[p].Destroying? && r.procs[p].todo != []
  {
    var e := r.procs[p].todo[0];
    With(r, p, Destroying(r.procs[p].todo[1..])).(
      w := Apply(r.w, e),
      events := if e.Delete? && e.ok then r.events + [Erase(p, e.name)] else r.events)
  }

  /** The state after one step, if the step is possible. */
  ghost function Next(m: Machine, r: Race, l: Label): Option<Race> {
    if l.p >= |r.procs| then None
    else
      var pr := r.procs[l.p];
      match l
      case Load(p) =>
        if pr.Idle? && r.w.image.Some? then Some(With(r, p, Loaded(r.w.image.value, r.w.ledger))) else None
      case Prepare(p, cmd, inp) => if CanPrepare(r, p, cmd, inp) then Some(Prepared(m, r, p, cmd, inp)) else None
      case Save(p) => if pr.Pending? then Some(Saved(r, p)) else None
      case Destroy(p) => if pr.Destroying? && pr.todo != [] then Some(Destroyed(r, p)) else None
      case Stop(p) => Some(With(r, p, Idle))
  }

  ghost function Exec(m: Machine, r: Race, ls: seq<Label>): Option<Race>
    decreases |ls|
  {
    if ls == [] then Some(r)
    else
      match Next(m, r, ls[0])
      case None => None
      case Some(r') => Exec(m, r', ls[1..])
  }

  // ---------------------------------------------------------------------------
  // What happened to a slot
  // ---------------------------------------------------------------------------

  predicate EnrolledBy(ev: seq<Event>, q: nat, s: KeySlot) {
    exists i | 0 <= i < |ev| :: ev[i].Enrol? && ev[i].p == q && s in ev[i].slots
  }

  predicate EnrolledByOther(ev: seq<Event>, p: nat, s: KeySlot) {
    exists i | 0 <= i < |ev| :: ev[i].Enrol? && ev[i].p != p && s in ev[i].slots
  }

  /** Event `j` deleted the credential of a slot that another process had enrolled by event `i`. */
  predicate KillsAt(ev: seq<Event>, i: nat, j: nat, s: KeySlot)
    requires i < j < |ev|
  {
    && s.params.HelloParams?
    && ev[i].Enrol? && s in ev[i].slots
    && ev[j].Erase? && ev[j].name == s.params.credName && ev[i].p != ev[j].p
  }

  /** Since the slot was enrolled another process has deleted its credential. */
  predicate Killed(ev: seq<Event>, s: KeySlot) {
    exists i, j | 0 <= i < j < |ev| :: KillsAt(ev, i, j, s)
  }

  lemma HistoryGrows(ev: seq<Event>, e: Event, s: KeySlot)
    ensures Killed(ev, s) ==> Killed(ev + [e], s)
    ensures forall q :: EnrolledBy(ev, q, s) ==> EnrolledBy(ev + [e], q, s)
    ensures forall q :: EnrolledByOther(ev, q, s) ==> EnrolledByOther(ev + [e], q, s)
  {
    var ev' := ev + [e];
    assert forall i | 0 <= i < |ev| :: ev'[i] == ev[i];
    if Killed(ev, s) {
      var i, j :| 0 <= i < j < |ev| && KillsAt(ev, i, j, s);
      assert KillsAt(ev', i, j, s);
    }
  }

  /** A deletion kills the slots that others enrolled under the name, and no slots are killed otherwise. */
  lemma KilledNow(ev: seq<Event>, e: Event, s: KeySlot)
    ensures Killed(ev + [e], s) <==>
              Killed(ev, s) ||
              (e.Erase? && s.params.HelloParams? && s.params.credName == e.name && EnrolledByOther(ev, e.p, s))
  {
    var ev', n := ev + [e], |ev|;
    HistoryGrows(ev, e, s);
    if e.Erase? && s.params.HelloParams? && s.params.credName == e.name && EnrolledByOther(ev, e.p, s) {
      var i :| 0 <= i < n && ev[i].Enrol? && ev[i].p != e.p && s in ev[i].slots;
      assert KillsAt(ev', i, n, s);
    }
    if Killed(ev', s) {
      var i, j :| 0 <= i < j < |ev'| && KillsAt(ev', i, j, s);
      if j < n { assert KillsAt(ev, i, j, s); } else { assert ev[i].Enrol? && ev[i].p != e.p && s in ev[i].slots; }
    }
  }

  // ---------------------------------------------------------------------------
  // The invariant
  // ---------------------------------------------------------------------------

  /** Distinct keys have distinct public keys. */
  ghost predicate DistinctKeys(sc: Hello.Scheme) {
    forall k, k' :: sc.publicKey(k) == sc.publicKey(k') ==> k == k'
  }

  ghost predicate KnownKey(m: Machine, keys: set<nat>, s: KeySlot) {
    s.params.HelloParams? && exists k | k in keys :: m.sc.publicKey(k) == s.params.spki
  }

  /** The credential store, and what the history says of it. */
  ghost predicate StoreOk(m: Machine, creds: map<string, nat>, keys: set<nat>, ev: seq<Event>) {
    && (forall n | n in creds :: creds[n] in keys)
    && (forall i | 0 <= i < |ev| && ev[i].Enrol? :: forall s | s in ev[i].slots :: KnownKey(m, keys, s))
    && (forall s :: Killed(ev, s) ==> !Live(m, creds, s))
  }

  ghost predicate LiveOrKilled(m: Machine, creds: map<string, nat>, ev: seq<Event>, s: KeySlot) {
    Live(m, creds, s) || Killed(ev, s)
  }

  ghost predicate DiskOk(m: Machine, w: World, ev: seq<Event>) {
    && WorldOk(m, w)
    && forall s | s in SlotsOf(w) && s.params.HelloParams? :: LiveOrKilled(m, w.creds, ev, s)
  }

  /** A file loaded some time ago is older than the file now, or is the file now. */
  ghost predicate BaseOk(w: World, base: Image) {
    && w.image.Some?
    && base.header.generation <= w.image.value.header.generation
    && (base.header.generation == w.image.value.header.generation ==> base == w.image.value)
  }

  ghost predicate PendingOk(m: Machine, w: World, ev: seq<Event>, p: nat, base: Option<Image>, saving: Saving) {
    && GoodImage(m, saving.image, saving.ledger)
    && (base.Some? ==> BaseOk(w, base.value))
    && saving.image.header.generation == (if base.Some? then base.value.header.generation + 1 else 1)
    && (forall s | s in saving.image.header.slots && s.params.HelloParams? ::
          s in SlotsIn(base) || (EnrolledBy(ev, p, s) && LiveOrKilled(m, w.creds, ev, s)))
    && (forall e | e in saving.after :: e.Delete? && !NeedsCredential(saving.image.header.slots, e.name))
  }

  /** Slots of the file that need a credential about to be deleted were enrolled by another process. */
  ghost predicate DestroyingOk(w: World, ev: seq<Event>, p: nat, todo: seq<Effect>) {
    forall e | e in todo ::
      && e.Delete?
      && forall s | s in SlotsOf(w) && s.params.HelloParams? && s.params.credName == e.name :: EnrolledByOther(ev, p, s)
  }

  ghost predicate ProcOk(m: Machine, w: World, ev: seq<Event>, p: nat, pr: Proc) {
    match pr
    case Idle => true
    case Loaded(image, ledger) =>
      && BaseOk(w, image) && GoodImage(m, image, ledger) && image.ct.key in w.used
    case Pending(base, saving) => PendingOk(m, w, ev, p, base, saving)
    case Destroying(todo) => DestroyingOk(w, ev, p, todo)
  }

  ghost predicate Inv(m: Machine, r: Race) {
    && DiskOk(m, r.w, r.events)
    && StoreOk(m, r.w.creds, r.keys, r.events)
    && forall p | 0 <= p < |r.procs| :: ProcOk(m, r.w, r.events, p, r.procs[p])
  }

  // ---------------------------------------------------------------------------
  // Preparing
  // ---------------------------------------------------------------------------

  /** Creating a missing credential under a fresh key revives nothing and kills nothing. */
  lemma CreateKeepsStore(m: Machine, creds: map<string, nat>, keys: set<nat>, ev: seq<Event>, effects: seq<Effect>,
                         name: string, key: nat)
    requires StoreOk(m, creds, keys, ev) && DistinctKeys(m.sc) && key !in keys
    requires MakesAtMostOne(creds, effects, name, key)
    ensures StoreOk(m, StoreAfter(creds, effects), keys + {key}, ev)
    ensures forall s :: Live(m, creds, s) ==> Live(m, StoreAfter(creds, effects), s)
  {
    var creds' := StoreAfter(creds, effects);
    forall s | Killed(ev, s) ensures !Live(m, creds', s) {
      var i, j :| 0 <= i < j < |ev| && KillsAt(ev, i, j, s);
      assert KnownKey(m, keys, s);
      assert !Live(m, creds, s);
    }
    forall i | 0 <= i < |ev| && ev[i].Enrol? ensures forall s | s in ev[i].slots :: KnownKey(m, keys + {key}, s) {
      forall s | s in ev[i].slots ensures KnownKey(m, keys + {key}, s) { assert KnownKey(m, keys, s); }
    }
  }

  /** An enrolment is recorded for slots that are live. */
  lemma EnrolKeepsStore(m: Machine, creds: map<string, nat>, keys: set<nat>, ev: seq<Event>, p: nat,
                        slots: seq<KeySlot>)
    requires StoreOk(m, creds, keys, ev) && forall s | s in slots :: Live(m, creds, s)
    ensures StoreOk(m, creds, keys, ev + [Enrol(p, slots)])
  {
    var ev' := ev + [Enrol(p, slots)];
    forall s | Killed(ev', s) ensures !Live(m, creds, s) { KilledNow(ev, Enrol(p, slots), s); }
    forall i | 0 <= i < |ev'| && ev'[i].Enrol? ensures forall s | s in ev'[i].slots :: KnownKey(m, keys, s) {
      forall s | s in ev'[i].slots ensures KnownKey(m, keys, s) {
        if i < |ev| { assert KnownKey(m, keys, s); } else { assert creds[s.params.credName] in keys; }
      }
    }
  }

  /** More live credentials and a longer history hurt no process, as long as file and used keys stay. */
  lemma ProcOkGrows(m: Machine, w: World, w': World, ev: seq<Event>, e: Event, q: nat, pr: Proc)
    requires ProcOk(m, w, ev, q, pr) && w' == w.(creds := w'.creds)
    requires forall s :: Live(m, w.creds, s) ==> Live(m, w'.creds, s)
    ensures ProcOk(m, w', ev, q, pr) && ProcOk(m, w', ev + [e], q, pr)
  {
    forall s
      ensures LiveOrKilled(m, w.creds, ev, s) ==>
                LiveOrKilled(m, w'.creds, ev, s) && LiveOrKilled(m, w'.creds, ev + [e], s)
    {
      HistoryGrows(ev, e, s);
    }
    forall s, p ensures EnrolledBy(ev, p, s) ==> EnrolledBy(ev + [e], p, s) { HistoryGrows(ev, e, s); }
    forall s, p ensures EnrolledByOther(ev, p, s) ==> EnrolledByOther(ev + [e], p, s) { HistoryGrows(ev, e, s); }
  }

  /** What a command prepared in view of the file it loaded is good for. */
  lemma PreparedPlan(m: Machine, r: Race, p: nat, cmd: Command, inp: Inputs)
    requires Hello.Lawful(m.sc) && Inv(m, r) && p < |r.procs| && CanPrepare(r, p, cmd, inp)
    ensures var view := View(r.w, r.procs[p]);
            var plan := PlanOf(m, view, cmd, inp);
            && view.creds == r.w.creds
            && (view.image.Some? && plan.outcome.Ok? ==> BaseOk(r.w, view.image.value))
            && Transacts(m, view, CredentialOf(view, cmd), inp.newKey, plan)
            && ApplyAll(r.w, plan.before) == r.w.(creds := StoreAfter(r.w.creds, plan.before))
  {
    var pr := r.procs[p];
    var view := View(r.w, pr);
    assert ProcOk(m, r.w, r.events, p, pr);
    assert WorldOk(m, view);
    PlanTransacts(m, view, cmd, inp);
    BeforeOnlyCreates(r.w, CredentialOf(view, cmd), inp.newKey, PlanOf(m, view, cmd, inp).before);
  }

  /** A save that has just been prepared: its new Hello slots are enrolled and live. */
  lemma FreshPending(m: Machine, w: World, creds: map<string, nat>, ev: seq<Event>, p: nat, view: World, name: string,
                     key: nat, plan: Plan)
    requires Transacts(m, view, name, key, plan) && plan.outcome.Ok? && creds == StoreAfter(view.creds, plan.before)
    requires view.image.Some? ==> BaseOk(w, view.image.value)
    ensures var saving := plan.outcome.value;
            var enrolled := NewHelloSlots(view.image, saving);
            && (forall s | s in enrolled :: Live(m, creds, s))
            && PendingOk(m, w.(creds := creds), ev + [Enrol(p, enrolled)], p, view.image, saving)
  {
    var saving := plan.outcome.value;
    var enrolled := NewHelloSlots(view.image, saving);
    var ev' := ev + [Enrol(p, enrolled)];
    forall s | s in saving.image.header.slots && s.params.HelloParams?
      ensures s in SlotsIn(view.image) || (EnrolledBy(ev', p, s) && LiveOrKilled(m, creds, ev', s))
    {
      if s !in SlotsIn(view.image) { assert ev'[|ev|].p == p && s in ev'[|ev|].slots; }
    }
  }

  lemma PrepareKeepsInv(m: Machine, r: Race, p: nat, cmd: Command, inp: Inputs)
    requires Hello.Lawful(m.sc) && DistinctKeys(m.sc) && Inv(m, r) && p < |r.procs| && CanPrepare(r, p, cmd, inp)
    ensures Inv(m, Prepared(m, r, p, cmd, inp))
  {
    var view := View(r.w, r.procs[p]);
    var plan := PlanOf(m, view, cmd, inp);
    var name, key := CredentialOf(view, cmd), inp.newKey;
    PreparedPlan(m, r, p, cmd, inp);
    var w' := r.w.(creds := StoreAfter(r.w.creds, plan.before));
    CreateKeepsStore(m, r.w.creds, r.keys, r.events, plan.before, name, key);
    if plan.outcome.Err? {
      EveryoneGrows(m, r, p, w', Erase(p, ""));
    } else {
      EnrolKeepsInv(m, r, p, w', view, name, key, plan);
    }
  }

  /** Enrolled, recorded, and about to save. */
  lemma EnrolKeepsInv(m: Machine, r: Race, p: nat, w': World, view: World, name: string, key: nat, plan: Plan)
    requires Inv(m, r) && p < |r.procs| && Transacts(m, view, name, key, plan) && plan.outcome.Ok?
    requires w' == r.w.(creds := StoreAfter(view.creds, plan.before))
    requires view.image.Some? ==> BaseOk(r.w, view.image.value)
    requires StoreOk(m, w'.creds, r.keys + {key}, r.events)
    requires forall s :: Live(m, r.w.creds, s) ==> Live(m, w'.creds, s)
    ensures var saving := plan.outcome.value;
            Inv(m, With(r, p, Pending(view.image, saving)).(
                     w := w', keys := r.keys + {key},
                     events := r.events + [Enrol(p, NewHelloSlots(view.image, saving))]))
  {
    FreshPending(m, r.w, w'.creds, r.events, p, view, name, key, plan);
    var e := Enrol(p, NewHelloSlots(view.image, plan.outcome.value));
    EnrolKeepsStore(m, w'.creds, r.keys + {key}, r.events, p, e.slots);
    EveryoneGrows(m, r, p, w', e);
  }

  /** File and processes with more live credentials and a longer history. */
  lemma EveryoneGrows(m: Machine, r: Race, p: nat, w': World, e: Event)
    requires Inv(m, r) && w' == r.w.(creds := w'.creds)
    requires forall s :: Live(m, r.w.creds, s) ==> Live(m, w'.creds, s)
    ensures DiskOk(m, w', r.events) && DiskOk(m, w', r.events + [e])
    ensures forall q | 0 <= q < |r.procs| ::
              ProcOk(m, w', r.events, q, r.procs[q]) && ProcOk(m, w', r.events + [e], q, r.procs[q])
  {
    forall s | s in SlotsOf(w') && s.params.HelloParams?
      ensures LiveOrKilled(m, w'.creds, r.events, s) && LiveOrKilled(m, w'.creds, r.events + [e], s)
    {
      assert LiveOrKilled(m, r.w.creds, r.events, s);
      HistoryGrows(r.events, e, s);
    }
    forall q | 0 <= q < |r.procs|
      ensures ProcOk(m, w', r.events, q, r.procs[q]) && ProcOk(m, w', r.events + [e], q, r.procs[q])
    {
      assert ProcOk(m, r.w, r.events, q, r.procs[q]);
      ProcOkGrows(m, r.w, w', r.events, e, q, r.procs[q]);
    }
  }

  // ---------------------------------------------------------------------------
  // Saving and destroying
  // ---------------------------------------------------------------------------

  /** A save on the current file takes over slots of that file and slots its process enrolled. */
  lemma SavedSlots(m: Machine, w: World, ev: seq<Event>, p: nat, base: Option<Image>, saving: Saving, s: KeySlot)
    requires DiskOk(m, w, ev) && PendingOk(m, w, ev, p, base, saving) && StillCurrent(w, base)
    requires s in saving.image.header.slots && s.params.HelloParams?
    ensures LiveOrKilled(m, w.creds, ev, s) && (s in SlotsOf(w) || EnrolledBy(ev, p, s))
    ensures saving.image.header.generation == NextGeneration(w)
  {
  }

  /** What another process's save does to a process. */
  lemma ProcOkAfterSave(m: Machine, w: World, ev: seq<Event>, p: nat, base: Option<Image>, saving: Saving, q: nat,
                        pr: Proc)
    requires DiskOk(m, w, ev) && PendingOk(m, w, ev, p, base, saving) && StillCurrent(w, base)
    requires p != q && ProcOk(m, w, ev, q, pr)
    ensures ProcOk(m, Apply(w, Commit(saving.image, saving.ledger)), ev, q, pr)
  {
    var w' := Apply(w, Commit(saving.image, saving.ledger));
    if saving.image.header.slots != [] { assert saving.image.header.slots[0] in saving.image.header.slots; }
    assert saving.image.header.generation == NextGeneration(w);
    if pr.Destroying? {
      forall e, s | e in pr.todo && s in SlotsOf(w') && s.params.HelloParams? && s.params.credName == e.name
        ensures EnrolledByOther(ev, q, s)
      {
        SavedSlots(m, w, ev, p, base, saving, s);
        if s !in SlotsOf(w) {
          var i :| 0 <= i < |ev| && ev[i].Enrol? && ev[i].p == p && s in ev[i].slots;
          assert ev[i].p != q;
        }
      }
    }
  }

  lemma SaveKeepsInv(m: Machine, r: Race, p: nat)
    requires Inv(m, r) && p < |r.procs| && r.procs[p].Pending?
    ensures Inv(m, Saved(r, p))
  {
    var base, saving := r.procs[p].base, r.procs[p].saving;
    var r' := Saved(r, p);
    assert ProcOk(m, r.w, r.events, p, r.procs[p]);
    if StillCurrent(r.w, base) {
      forall s | s in SlotsOf(r'.w) && s.params.HelloParams? ensures LiveOrKilled(m, r'.w.creds, r'.events, s) {
        SavedSlots(m, r.w, r.events, p, base, saving, s);
      }
      forall q | 0 <= q < |r'.procs| ensures ProcOk(m, r'.w, r'.events, q, r'.procs[q]) {
        if q != p {
          assert ProcOk(m, r.w, r.events, q, r.procs[q]);
          ProcOkAfterSave(m, r.w, r.events, p, base, saving, q, r.procs[q]);
        }
      }
    } else {
      forall q | 0 <= q < |r'.procs| ensures ProcOk(m, r'.w, r'.events, q, r'.procs[q]) {
        assert ProcOk(m, r.w, r.events, q, r.procs[q]);
      }
    }
  }

  /** A credential deleted: whoever needed it and was enrolled by another process is now killed. */
  lemma EraseOne(m: Machine, creds: map<string, nat>, ev: seq<Event>, p: nat, name: string, s: KeySlot)
    requires LiveOrKilled(m, creds, ev, s)
    requires s.params.HelloParams? && (s.params.credName == name ==> EnrolledByOther(ev, p, s))
    ensures LiveOrKilled(m, creds - {name}, ev + [Erase(p, name)], s)
  {
    KilledNow(ev, Erase(p, name), s);
  }

  lemma EraseKeepsStore(m: Machine, creds: map<string, nat>, keys: set<nat>, ev: seq<Event>, p: nat, name: string)
    requires StoreOk(m, creds, keys, ev)
    ensures StoreOk(m, creds - {name}, keys, ev + [Erase(p, name)])
  {
    var ev' := ev + [Erase(p, name)];
    forall s | Killed(ev', s) ensures !Live(m, creds - {name}, s) { KilledNow(ev, Erase(p, name), s); }
    assert forall i | 0 <= i < |ev'| && ev'[i].Enrol? :: ev'[i] == ev[i];
  }

  lemma ProcOkAfterErase(m: Machine, w: World, ev: seq<Event>, p: nat, name: string, q: nat, pr: Proc)
    requires ProcOk(m, w, ev, q, pr) && (pr.Pending? ==> p != q)
    ensures ProcOk(m, w.(creds := w.creds - {name}), ev + [Erase(p, name)], q, pr)
  {
    var ev' := ev + [Erase(p, name)];
    forall s, p' ensures EnrolledByOther(ev, p', s) ==> EnrolledByOther(ev', p', s) {
      HistoryGrows(ev, Erase(p, name), s);
    }
    if pr.Pending? {
      forall s | s in pr.saving.image.header.slots && s.params.HelloParams? && s !in SlotsIn(pr.base)
        ensures EnrolledBy(ev', q, s) && LiveOrKilled(m, w.creds - {name}, ev', s)
      {
        HistoryGrows(ev, Erase(p, name), s);
        var i :| 0 <= i < |ev| && ev[i].Enrol? && ev[i].p == q && s in ev[i].slots;
        assert ev[i].p != p;
        EraseOne(m, w.creds, ev, p, name, s);
      }
    }
  }

  lemma DestroyKeepsInv(m: Machine, r: Race, p: nat)
    requires Inv(m, r) && p < |r.procs| && r.procs[p].Destroying? && r.procs[p].todo != []
    ensures Inv(m, Destroyed(r, p))
  {
    var todo, e, r' := r.procs[p].todo, r.procs[p].todo[0], Destroyed(r, p);
    assert ProcOk(m, r.w, r.events, p, r.procs[p]) && e in todo;
    assert forall x | x in todo[1..] :: x in todo;
    if e.ok {
      EraseKeepsStore(m, r.w.creds, r.keys, r.events, p, e.name);
      assert r'.w == r.w.(creds := r.w.creds - {e.name});
      forall s | s in SlotsOf(r'.w) && s.params.HelloParams? ensures LiveOrKilled(m, r'.w.creds, r'.events, s) {
        EraseOne(m, r.w.creds, r.events, p, e.name, s);
      }
      forall q | 0 <= q < |r'.procs| ensures ProcOk(m, r'.w, r'.events, q, r'.procs[q]) {
        assert ProcOk(m, r.w, r.events, q, r.procs[q]);
        ProcOkAfterErase(m, r.w, r.events, p, e.name, q, r.procs[q]);
      }
    } else {
      forall q | 0 <= q < |r'.procs| ensures ProcOk(m, r'.w, r'.events, q, r'.procs[q]) {
        assert ProcOk(m, r.w, r.events, q, r.procs[q]);
      }
    }
  }

  lemma NextKeepsInv(m: Machine, r: Race, l: Label)
    requires Hello.Lawful(m.sc) && DistinctKeys(m.sc) && Inv(m, r) && Next(m, r, l).Some?
    ensures Inv(m, Next(m, r, l).value)
  {
    match l
    case Prepare(p, cmd, inp) => PrepareKeepsInv(m, r, p, cmd, inp);
    case Save(p) => SaveKeepsInv(m, r, p);
    case Destroy(p) => DestroyKeepsInv(m, r, p);
    case _ =>
      var r' := Next(m, r, l).value;
      forall q | 0 <= q < |r'.procs| ensures ProcOk(m, r'.w, r'.events, q, r'.procs[q]) {
        assert ProcOk(m, r.w, r.events, q, r.procs[q]);
      }
  }

  lemma {:induction false} ExecKeepsInv(m: Machine, r: Race, ls: seq<Label>)
    requires Hello.Lawful(m.sc) && DistinctKeys(m.sc) && Inv(m, r) && Exec(m, r, ls).Some?
    ensures Inv(m, Exec(m, r, ls).value)
    decreases |ls|
  {
    if ls != [] {
      NextKeepsInv(m, r, ls[0]);
      ExecKeepsInv(m, Next(m, r, ls[0]).value, ls[1..]);
    }
  }

  // ---------------------------------------------------------------------------
  // All interleavings
  // ---------------------------------------------------------------------------

  /** In every interleaving, every slot of the file, opened with what it was sealed with, yields the key of the body. */
  lemma EverySlotOpensTheVault(m: Machine, n: nat, ls: seq<Label>)
    requires Hello.Lawful(m.sc) && DistinctKeys(m.sc) && Exec(m, Start(n), ls).Some?
    ensures var w := Exec(m, Start(n), ls).value.w;
            w.image.Some? ==> GoodImage(m, w.image.value, w.ledger) && Validate(w.image.value.header).Ok?
  {
    ExecKeepsInv(m, Start(n), ls);
    var w := Exec(m, Start(n), ls).value.w;
    if w.image.Some? { ValidateIff(w.image.value.header); }
  }

  /**
   * At every moment of every interleaving a Hello slot of the file works if and only if no other process has
   * deleted its credential since the slot was enrolled.
   */
  lemma HelloSlotWorksIff(m: Machine, n: nat, ls: seq<Label>, s: KeySlot)
    requires Hello.Lawful(m.sc) && DistinctKeys(m.sc) && Exec(m, Start(n), ls).Some?
    requires s in SlotsOf(Exec(m, Start(n), ls).value.w) && s.params.HelloParams?
    ensures var r := Exec(m, Start(n), ls).value;
            Live(m, r.w.creds, s) <==> !Killed(r.events, s)
  {
    ExecKeepsInv(m, Start(n), ls);
    var r := Exec(m, Start(n), ls).value;
    assert LiveOrKilled(m, r.w.creds, r.events, s);
  }

  /** The state after the first `k` steps of a run. */
  ghost function At(m: Machine, n: nat, ls: seq<Label>, k: nat): Race
    requires k <= |ls| && Exec(m, Start(n), ls).Some?
  {
    BeginningRuns(m, Start(n), ls, k);
    Exec(m, Start(n), ls[..k]).value
  }

  lemma {:induction false} BeginningRuns(m: Machine, r: Race, ls: seq<Label>, k: nat)
    requires k <= |ls| && Exec(m, r, ls).Some?
    ensures Exec(m, r, ls[..k]).Some?
    decreases k
  {
    if k > 0 {
      BeginningRuns(m, Next(m, r, ls[0]).value, ls[1..], k - 1);
      BeginningTail(ls, k);
    }
  }

  lemma BeginningTail(ls: seq<Label>, k: nat)
    requires 0 < k <= |ls|
    ensures ls[..k][0] == ls[0] && ls[..k][1..] == ls[1..][..k - 1]
  {
  }

  /** After `k` steps a slot is on disk whose credential another process deleted after it was enrolled. */
  ghost predicate Overtaken(m: Machine, n: nat, ls: seq<Label>, k: nat)
    requires k <= |ls| && Exec(m, Start(n), ls).Some?
  {
    exists s | s in SlotsOf(At(m, n, ls, k).w) :: Killed(At(m, n, ls, k).events, s)
  }

  lemma AllLiveIffNotOvertaken(m: Machine, n: nat, ls: seq<Label>, k: nat)
    requires Hello.Lawful(m.sc) && DistinctKeys(m.sc) && k <= |ls| && Exec(m, Start(n), ls).Some?
    ensures AllLive(m, At(m, n, ls, k).w) <==> !Overtaken(m, n, ls, k)
  {
    BeginningRuns(m, Start(n), ls, k);
    ExecKeepsInv(m, Start(n), ls[..k]);
    var r := At(m, n, ls, k);
    forall s | s in SlotsOf(r.w) && s.params.HelloParams? ensures Live(m, r.w.creds, s) <==> !Killed(r.events, s) {
      assert LiveOrKilled(m, r.w.creds, r.events, s);
    }
    forall s | Killed(r.events, s) ensures s.params.HelloParams? {
      var i, j :| 0 <= i < j < |r.events| && KillsAt(r.events, i, j, s);
    }
  }

  /**
   * Over a whole run the Hello slots of the file stay live if and only if no deletion falls between another
   * process's enrolment of a slot and a later moment at which that slot is on disk.
   */
  lemma HelloSlotsStayLiveIff(m: Machine, n: nat, ls: seq<Label>)
    requires Hello.Lawful(m.sc) && DistinctKeys(m.sc) && Exec(m, Start(n), ls).Some?
    ensures (forall k | 0 <= k <= |ls| :: AllLive(m, At(m, n, ls, k).w))
       <==> (forall k | 0 <= k <= |ls| :: !Overtaken(m, n, ls, k))
  {
    forall k | 0 <= k <= |ls| ensures AllLive(m, At(m, n, ls, k).w) <==> !Overtaken(m, n, ls, k) {
      AllLiveIffNotOvertaken(m, n, ls, k);
    }
  }

  // ---------------------------------------------------------------------------
  // The two ways to lose a slot
  // ---------------------------------------------------------------------------

  lemma {:induction false} Snoc(m: Machine, r: Race, ls: seq<Label>, t: Race, l: Label)
    requires Exec(m, r, ls) == Some(t)
    ensures Exec(m, r, ls + [l]) == Next(m, t, l)
    decreases |ls|
  {
    if ls == [] {
      assert ls + [l] == [l];
    } else {
      Snoc(m, Next(m, r, ls[0]).value, ls[1..], t, l);
      assert (ls + [l])[1..] == ls[1..] + [l];
    }
  }

  ghost predicate RaceInputs(inp: Inputs) {
    && 3 <= |inp.draws| && (forall f | f in inp.draws :: GoodFresh(f)) && |inp.bodyNonce| == NONCE_LEN && inp.deletable
  }

  ghost predicate HelloInit(m: Machine, init: Command) {
    && init.InitVault? && init.hello.Some? && init.passphrase.None?
    && m.helloUsable && (init.hello.value ==> m.dpapi) && init.recovery != "" && ValidArgon2(init.argon2)
  }

  /** A Hello slot and a recovery slot, as `init` makes them. */
  predicate HelloAndRecovery(slots: seq<KeySlot>) {
    && |slots| == 2
    && slots[0].slotLabel == LABEL_HELLO && slots[0].params.HelloParams?
    && slots[1].slotLabel == LABEL_RECOVERY && slots[1].params.PassphraseParams?
  }

  predicate RecoveryOnly(slots: seq<KeySlot>) {
    |slots| == 1 && slots[0].slotLabel == LABEL_RECOVERY && slots[0].params.PassphraseParams?
  }

  ghost predicate IsVault(w: World, vid: VaultId) { w.image.Some? && w.image.value.header.vaultId == vid }

  lemma InitSucceeds(m: Machine, init: Command, inp: Inputs)
    requires Hello.Lawful(m.sc) && HelloInit(m, init) && GoodInputs(EMPTY_WORLD, init, inp)
    ensures var p := PlanOf(m, EMPTY_WORLD, init, inp);
            && p.outcome.Ok? && p.outcome.value.after == []
            && p.outcome.value.image.header.vaultId == init.vid
            && HelloAndRecovery(p.outcome.value.image.header.slots)
  {
    var jobs := InitJobs(init);
    InitTransacts(m, EMPTY_WORLD, init, inp);
    SealAllIff(m, EMPTY_WORLD.creds, jobs, |jobs|, inp, init.vid, init.dek);
  }

  /** Removing the Hello slot dooms the credential of the vault. */
  lemma RemoveHello(slots: seq<KeySlot>)
    requires HelloAndRecovery(slots)
    ensures CheckRemovable(slots, LABEL_HELLO).Ok?
    ensures var kept := Keep(slots, ByLabel(LABEL_HELLO));
            RecoveryOnly(kept) && Doomed(Keep(slots, Not(ByLabel(LABEL_HELLO))), kept) == [slots[0].params.credName]
  {
    var h, c := slots[0], slots[1];
    assert |LABEL_HELLO| == 5 && |LABEL_RECOVERY| == 8;
    assert slots == [h, c] && slots[1..] == [c] && [c][1..] == [];
    assert Keep([c], ByLabel(LABEL_HELLO)) == [c] && Keep([c], Not(ByLabel(LABEL_HELLO))) == [];
    assert Keep(slots, ByLabel(LABEL_HELLO)) == [c] && Keep(slots, Not(ByLabel(LABEL_HELLO))) == [h];
    assert h in slots && c in [c];
    assert [h][..0] == [];
    assert !CredentialShared(h, [c]);
    assert Doomed([h], [c]) == [] + [h.params.credName];
  }

  lemma RmPlanSucceeds(m: Machine, w: World, vid: VaultId, inp: Inputs)
    requires WorldOk(m, w) && IsVault(w, vid) && HelloAndRecovery(SlotsOf(w)) && inp.deletable
    requires GoodInputs(w, SlotRm(LABEL_HELLO), inp)
    ensures var p := RmPlan(w, LABEL_HELLO, inp);
            && p.outcome.Ok? && p.outcome.value.after == [Delete(Hello.CredName(vid), true)]
            && p.outcome.value.image.header.vaultId == vid
            && RecoveryOnly(p.outcome.value.image.header.slots)
  {
    RmTransacts(m, w, LABEL_HELLO, inp);
    RemoveHello(SlotsOf(w));
    HelloCredential(m, w);
    assert RmPlan(w, LABEL_HELLO, inp).outcome.value.after == Deletes([Hello.CredName(vid)], true);
  }

  lemma RmSucceeds(m: Machine, w: World, vid: VaultId, inp: Inputs)
    requires WorldOk(m, w) && IsVault(w, vid) && HelloAndRecovery(SlotsOf(w)) && inp.deletable
    requires GoodInputs(w, SlotRm(LABEL_HELLO), inp)
    ensures var p := PlanOf(m, w, SlotRm(LABEL_HELLO), inp);
            && p.outcome.Ok? && p.outcome.value.after == [Delete(Hello.CredName(vid), true)]
            && p.outcome.value.image.header.vaultId == vid
            && RecoveryOnly(p.outcome.value.image.header.slots)
  {
    RmPlanSucceeds(m, w, vid, inp);
    HeaderReads(m, w);
    PlanOfRm(m, w, LABEL_HELLO, inp);
  }

  lemma HelloCredential(m: Machine, w: World)
    requires WorldOk(m, w) && w.image.Some? && HelloAndRecovery(SlotsOf(w))
    ensures SlotsOf(w)[0].params.credName == Hello.CredName(w.image.value.header.vaultId)
  {
    var h := SlotsOf(w)[0];
    assert h in SlotsOf(w) && GoodSlot(m, h, w.ledger[h.id], w.image.value.header.vaultId, w.image.value.ct.key);
  }

  lemma AddSucceeds(m: Machine, w: World, vid: VaultId, added: string, dpapi: bool, inp: Inputs)
    requires Hello.Lawful(m.sc) && WorldOk(m, w) && IsVault(w, vid) && RecoveryOnly(SlotsOf(w))
    requires m.helloUsable && (dpapi ==> m.dpapi) && added != "" && added != LABEL_RECOVERY
    requires GoodInputs(w, SlotAdd(added, NewHello(dpapi)), inp)
    ensures var p := PlanOf(m, w, SlotAdd(added, NewHello(dpapi)), inp);
            && p.outcome.Ok? && p.outcome.value.image.header.vaultId == vid
            && AppendsOne(SlotsOf(w), added, SlotKind.Hello, p.outcome.value.image.header.slots)
  {
    var slots := SlotsOf(w);
    ValidateIff(w.image.value.header);
    FirstFreeIdIsLeast(slots);
    SealsIffSealable(m, w.creds, FirstFreeId(slots).value, added, NewHello(dpapi), inp.draws[0], inp.newKey, vid,
                     w.image.value.ct.key);
    AddTransacts(m, w, added, NewHello(dpapi), inp);
  }

  /** One more step of a run, with the invariant. */
  lemma Further(m: Machine, ls: seq<Label>, r: Race, l: Label, r': Race)
    requires Hello.Lawful(m.sc) && DistinctKeys(m.sc) && Inv(m, r)
    requires Exec(m, Start(2), ls) == Some(r) && Next(m, r, l) == Some(r')
    ensures Exec(m, Start(2), ls + [l]) == Some(r') && Inv(m, r')
  {
    Snoc(m, Start(2), ls, r, l);
    NextKeepsInv(m, r, l);
  }

  lemma PrepareStep(m: Machine, r: Race, p: nat, cmd: Command, inp: Inputs)
    requires Hello.Lawful(m.sc) && Inv(m, r) && p < |r.procs| && CanPrepare(r, p, cmd, inp)
    requires PlanOf(m, View(r.w, r.procs[p]), cmd, inp).outcome.Ok?
    ensures var view := View(r.w, r.procs[p]);
            var r' := Prepared(m, r, p, cmd, inp);
            && Next(m, r, Prepare(p, cmd, inp)) == Some(r')
            && r'.procs == r.procs[p := Pending(view.image, PlanOf(m, view, cmd, inp).outcome.value)]
            && r'.w == r.w.(creds := r'.w.creds)
            && r'.keys == r.keys + {inp.newKey}
  {
    PreparedPlan(m, r, p, cmd, inp);
  }

  /** Preparing changes no file, and no process but the one. */
  lemma PreparedShape(m: Machine, r: Race, p: nat, cmd: Command, inp: Inputs)
    requires Hello.Lawful(m.sc) && Inv(m, r) && p < |r.procs| && CanPrepare(r, p, cmd, inp)
    ensures var view, r' := View(r.w, r.procs[p]), Prepared(m, r, p, cmd, inp);
            var plan := PlanOf(m, view, cmd, inp);
            && r'.w.image == r.w.image && WorldOk(m, view)
            && r'.procs == r.procs[p := if plan.outcome.Ok? then Pending(view.image, plan.outcome.value) else Idle]
  {
    PreparedPlan(m, r, p, cmd, inp);
    assert ProcOk(m, r.w, r.events, p, r.procs[p]);
  }

  lemma SaveStep(m: Machine, r: Race, p: nat)
    requires p < |r.procs| && r.procs[p].Pending? && StillCurrent(r.w, r.procs[p].base)
    ensures var saving := r.procs[p].saving;
            && Next(m, r, Save(p)) == Some(Saved(r, p))
            && Saved(r, p).procs == r.procs[p := Destroying(saving.after)]
            && Saved(r, p).w.image == Some(saving.image) && Saved(r, p).keys == r.keys
  {
  }

  lemma StopStep(m: Machine, r: Race, p: nat)
    requires p < |r.procs|
    ensures Next(m, r, Stop(p)) == Some(With(r, p, Idle))
  {
  }

  lemma DestroyStep(m: Machine, r: Race, p: nat, name: string)
    requires p < |r.procs| && r.procs[p] == Destroying([Delete(name, true)])
    ensures Next(m, r, Destroy(p)) == Some(Destroyed(r, p))
    ensures Destroyed(r, p).w == r.w.(creds := r.w.creds - {name})
    ensures Destroyed(r, p).procs == r.procs[p := Destroying([])]
  {
    assert [Delete(name, true)][1..] == [];
  }

  /** The first command of all. */
  lemma InitCanPrepare(init: Command, inp: Inputs)
    requires init.InitVault? && RaceInputs(inp)
    ensures CanPrepare(Start(2), 0, init, inp) && View(Start(2).w, Start(2).procs[0]) == EMPTY_WORLD
  {
  }

  lemma StartInv(m: Machine, n: nat)
    ensures Exec(m, Start(n), []) == Some(Start(n)) && Inv(m, Start(n))
  {
  }

  /** A command prepared and saved with nothing in between. */
  lemma PrepareAndSave(m: Machine, ls: seq<Label>, t: Race, p: nat, cmd: Command, inp: Inputs) returns (r: Race)
    requires Hello.Lawful(m.sc) && DistinctKeys(m.sc) && Exec(m, Start(2), ls) == Some(t) && Inv(m, t)
    requires p < |t.procs| && CanPrepare(t, p, cmd, inp) && View(t.w, t.procs[p]) == t.w
    requires PlanOf(m, t.w, cmd, inp).outcome.Ok?
    ensures Exec(m, Start(2), ls + [Prepare(p, cmd, inp)] + [Save(p)]) == Some(r) && Inv(m, r)
    ensures var saving := PlanOf(m, t.w, cmd, inp).outcome.value;
            && r.procs == t.procs[p := Destroying(saving.after)]
            && r.w.image == Some(saving.image) && r.keys == t.keys + {inp.newKey}
  {
    PrepareStep(m, t, p, cmd, inp);
    var r1 := Prepared(m, t, p, cmd, inp);
    Further(m, ls, t, Prepare(p, cmd, inp), r1);
    SaveStep(m, r1, p);
    r := Saved(r1, p);
    Further(m, ls + [Prepare(p, cmd, inp)], r1, Save(p), r);
  }

  predicate BothIdle(r: Race) { |r.procs| == 2 && r.procs[0].Idle? && r.procs[1].Idle? }

  predicate AboutToDelete(r: Race, vid: VaultId) {
    |r.procs| == 2 && r.procs[0] == Destroying([Delete(Hello.CredName(vid), true)]) && r.procs[1].Idle?
  }

  /** `init` by process 0. */
  lemma SetupInit(m: Machine, init: Command, inp: Inputs) returns (r: Race)
    requires Hello.Lawful(m.sc) && DistinctKeys(m.sc) && RaceInputs(inp) && inp.newKey == 0 && HelloInit(m, init)
    ensures Exec(m, Start(2), [Prepare(0, init, inp)] + [Save(0)] + [Stop(0)]) == Some(r) && Inv(m, r)
    ensures BothIdle(r) && r.keys == {0} && IsVault(r.w, init.vid) && HelloAndRecovery(SlotsOf(r.w))
  {
    InitCanPrepare(init, inp);
    InitSucceeds(m, init, inp);
    StartInv(m, 2);
    var r1 := PrepareAndSave(m, [], Start(2), 0, init, inp);
    assert [] + [Prepare(0, init, inp)] == [Prepare(0, init, inp)];
    r := StopFirst(m, [Prepare(0, init, inp)] + [Save(0)], r1);
  }

  lemma StopFirst(m: Machine, ls: seq<Label>, t: Race) returns (r: Race)
    requires Hello.Lawful(m.sc) && DistinctKeys(m.sc) && Exec(m, Start(2), ls) == Some(t) && Inv(m, t)
    requires |t.procs| == 2 && t.procs[1].Idle?
    ensures Exec(m, Start(2), ls + [Stop(0)]) == Some(r) && Inv(m, r)
    ensures BothIdle(r) && r.keys == t.keys && r.w == t.w
  {
    StopStep(m, t, 0);
    r := With(t, 0, Idle);
    Further(m, ls, t, Stop(0), r);
  }

  lemma LoadStep(m: Machine, ls: seq<Label>, t: Race, p: nat) returns (r: Race)
    requires Hello.Lawful(m.sc) && DistinctKeys(m.sc) && Exec(m, Start(2), ls) == Some(t) && Inv(m, t)
    requires p < |t.procs| && t.procs[p].Idle? && t.w.image.Some?
    ensures Exec(m, Start(2), ls + [Load(p)]) == Some(r) && Inv(m, r)
    ensures r == With(t, p, Loaded(t.w.image.value, t.w.ledger)) && View(r.w, r.procs[p]) == r.w
  {
    r := With(t, p, Loaded(t.w.image.value, t.w.ledger));
    Further(m, ls, t, Load(p), r);
  }

  lemma RmPrepares(m: Machine, r: Race, vid: VaultId, inp: Inputs)
    requires Inv(m, r) && |r.procs| == 2 && r.procs[0].Loaded? && View(r.w, r.procs[0]) == r.w
    requires RaceInputs(inp) && inp.newKey !in r.keys && IsVault(r.w, vid) && HelloAndRecovery(SlotsOf(r.w))
    ensures CanPrepare(r, 0, SlotRm(LABEL_HELLO), inp)
    ensures var p := PlanOf(m, r.w, SlotRm(LABEL_HELLO), inp);
            && p.outcome.Ok? && p.outcome.value.after == [Delete(Hello.CredName(vid), true)]
            && p.outcome.value.image.header.vaultId == vid
            && RecoveryOnly(p.outcome.value.image.header.slots)
  {
    RmSucceeds(m, r.w, vid, inp);
  }

  lemma RmSaves(m: Machine, ls: seq<Label>, t: Race, vid: VaultId, inp: Inputs) returns (r: Race)
    requires Hello.Lawful(m.sc) && DistinctKeys(m.sc) && RaceInputs(inp) && inp.newKey !in t.keys
    requires Exec(m, Start(2), ls) == Some(t) && Inv(m, t)
    requires |t.procs| == 2 && t.procs[0].Loaded? && View(t.w, t.procs[0]) == t.w
    requires IsVault(t.w, vid) && HelloAndRecovery(SlotsOf(t.w))
    ensures Exec(m, Start(2), ls + [Prepare(0, SlotRm(LABEL_HELLO), inp)] + [Save(0)]) == Some(r) && Inv(m, r)
    ensures r.procs == t.procs[0 := Destroying([Delete(Hello.CredName(vid), true)])]
    ensures r.keys == t.keys + {inp.newKey} && IsVault(r.w, vid) && RecoveryOnly(SlotsOf(r.w))
  {
    RmPrepares(m, t, vid, inp);
    r := PrepareAndSave(m, ls, t, 0, SlotRm(LABEL_HELLO), inp);
  }

  /** `slot rm hello` by process 0, up to its save. */
  lemma SetupRm(m: Machine, ls: seq<Label>, t: Race, vid: VaultId, inp: Inputs) returns (r: Race)
    requires Hello.Lawful(m.sc) && DistinctKeys(m.sc) && RaceInputs(inp) && inp.newKey == 1
    requires Exec(m, Start(2), ls) == Some(t) && Inv(m, t)
    requires BothIdle(t) && t.keys == {0} && IsVault(t.w, vid) && HelloAndRecovery(SlotsOf(t.w))
    ensures Exec(m, Start(2), ls + [Load(0)] + [Prepare(0, SlotRm(LABEL_HELLO), inp)] + [Save(0)]) == Some(r)
    ensures Inv(m, r) && AboutToDelete(r, vid)
    ensures r.keys == {0, 1} && IsVault(r.w, vid) && RecoveryOnly(SlotsOf(r.w))
  {
    var r1 := LoadStep(m, ls, t, 0);
    r := RmSaves(m, ls + [Load(0)], r1, vid, inp);
  }

  /** Process 0 is about to delete the credential, process 1 about to save a slot it has enrolled with it. */
  ghost predicate Poised(r: Race, vid: VaultId, added: string) {
    && |r.procs| == 2 && r.procs[0] == Destroying([Delete(Hello.CredName(vid), true)])
    && r.procs[1].Pending? && r.w.image.Some? && r.procs[1].base == r.w.image
    && RecoveryOnly(SlotsOf(r.w))
    && r.procs[1].saving.image.header.vaultId == vid
    && AppendsOne(SlotsOf(r.w), added, SlotKind.Hello, r.procs[1].saving.image.header.slots)
  }

  lemma AddEnrols(m: Machine, ls: seq<Label>, t: Race, vid: VaultId, added: string, dpapi: bool, inp: Inputs)
    returns (r: Race)
    requires Hello.Lawful(m.sc) && DistinctKeys(m.sc) && RaceInputs(inp) && inp.newKey !in t.keys
    requires m.helloUsable && (dpapi ==> m.dpapi) && added != "" && added != LABEL_RECOVERY
    requires Exec(m, Start(2), ls) == Some(t) && Inv(m, t)
    requires |t.procs| == 2 && t.procs[0] == Destroying([Delete(Hello.CredName(vid), true)])
    requires t.procs[1].Loaded? && View(t.w, t.procs[1]) == t.w && IsVault(t.w, vid) && RecoveryOnly(SlotsOf(t.w))
    ensures Exec(m, Start(2), ls + [Prepare(1, SlotAdd(added, NewHello(dpapi)), inp)]) == Some(r)
    ensures Inv(m, r) && Poised(r, vid, added)
  {
    var cmd := SlotAdd(added, NewHello(dpapi));
    AddSucceeds(m, t.w, vid, added, dpapi, inp);
    PrepareStep(m, t, 1, cmd, inp);
    r := Prepared(m, t, 1, cmd, inp);
    Further(m, ls, t, Prepare(1, cmd, inp), r);
  }

  /** `slot add --hello` by process 1, up to its enrolment. */
  lemma SetupAdd(m: Machine, ls: seq<Label>, t: Race, vid: VaultId, added: string, dpapi: bool, inp: Inputs)
    returns (r: Race)
    requires Hello.Lawful(m.sc) && DistinctKeys(m.sc) && RaceInputs(inp) && inp.newKey == 2
    requires m.helloUsable && (dpapi ==> m.dpapi) && added != "" && added != LABEL_RECOVERY
    requires Exec(m, Start(2), ls) == Some(t) && Inv(m, t)
    requires AboutToDelete(t, vid)
    requires t.keys == {0, 1} && IsVault(t.w, vid) && RecoveryOnly(SlotsOf(t.w))
    ensures Exec(m, Start(2), ls + [Load(1)] + [Prepare(1, SlotAdd(added, NewHello(dpapi)), inp)]) == Some(r)
    ensures Inv(m, r) && Poised(r, vid, added)
  {
    var r1 := LoadStep(m, ls, t, 1);
    r := AddEnrols(m, ls + [Load(1)], r1, vid, added, dpapi, inp);
  }

  /** The file has a Hello slot with this label that does not work. */
  predicate HasDeadSlot(m: Machine, w: World, slotLabel: string) {
    exists s | s in SlotsOf(w) :: s.slotLabel == slotLabel && s.params.HelloParams? && !Live(m, w.creds, s)
  }

  lemma AddedIsDead(m: Machine, w: World, vid: VaultId, kept: seq<KeySlot>, added: string)
    requires WorldOk(m, w) && IsVault(w, vid) && Hello.CredName(vid) !in w.creds
    requires AppendsOne(kept, added, SlotKind.Hello, SlotsOf(w))
    ensures HasDeadSlot(m, w, added)
  {
    var s := SlotsOf(w)[|kept|];
    assert s in SlotsOf(w) && GoodSlot(m, s, w.ledger[s.id], vid, w.image.value.ct.key);
  }

  /** From there the slot is lost whichever of the two goes first. */
  lemma EitherOrderLoses(m: Machine, ls: seq<Label>, r: Race, vid: VaultId, added: string) returns (a: Race, b: Race)
    requires Hello.Lawful(m.sc) && DistinctKeys(m.sc) && Exec(m, Start(2), ls) == Some(r)
    requires Inv(m, r) && Poised(r, vid, added)
    ensures Exec(m, Start(2), ls + [Save(1)] + [Destroy(0)]) == Some(a) && HasDeadSlot(m, a.w, added)
    ensures Exec(m, Start(2), ls + [Destroy(0)] + [Save(1)]) == Some(b) && HasDeadSlot(m, b.w, added)
    ensures forall s | s in SlotsOf(r.w) :: !s.params.HelloParams?
  {
    a := SaveFirst(m, ls, r, vid, added);
    b := DeleteFirst(m, ls, r, vid, added);
  }

  lemma SaveFirst(m: Machine, ls: seq<Label>, r: Race, vid: VaultId, added: string) returns (a: Race)
    requires Hello.Lawful(m.sc) && DistinctKeys(m.sc) && Exec(m, Start(2), ls) == Some(r)
    requires Inv(m, r) && Poised(r, vid, added)
    ensures Exec(m, Start(2), ls + [Save(1)] + [Destroy(0)]) == Some(a) && HasDeadSlot(m, a.w, added)
  {
    SaveStep(m, r, 1);
    var a1 := Saved(r, 1);
    Further(m, ls, r, Save(1), a1);
    DestroyStep(m, a1, 0, Hello.CredName(vid));
    a := Destroyed(a1, 0);
    Further(m, ls + [Save(1)], a1, Destroy(0), a);
    AddedIsDead(m, a.w, vid, SlotsOf(r.w), added);
  }

  lemma DeleteFirst(m: Machine, ls: seq<Label>, r: Race, vid: VaultId, added: string) returns (b: Race)
    requires Hello.Lawful(m.sc) && DistinctKeys(m.sc) && Exec(m, Start(2), ls) == Some(r)
    requires Inv(m, r) && Poised(r, vid, added)
    ensures Exec(m, Start(2), ls + [Destroy(0)] + [Save(1)]) == Some(b) && HasDeadSlot(m, b.w, added)
  {
    DestroyStep(m, r, 0, Hello.CredName(vid));
    var b1 := Destroyed(r, 0);
    Further(m, ls, r, Destroy(0), b1);
    b := SaveLast(m, ls + [Destroy(0)], r, b1, vid, added);
  }

  lemma SaveLast(m: Machine, ls: seq<Label>, r: Race, t: Race, vid: VaultId, added: string) returns (b: Race)
    requires Hello.Lawful(m.sc) && DistinctKeys(m.sc) && Exec(m, Start(2), ls) == Some(t)
    requires Inv(m, t) && Poised(r, vid, added)
    requires t.procs == r.procs[0 := Destroying([])] && t.w == r.w.(creds := r.w.creds - {Hello.CredName(vid)})
    ensures Exec(m, Start(2), ls + [Save(1)]) == Some(b) && HasDeadSlot(m, b.w, added)
  {
    SaveStep(m, t, 1);
    b := Saved(t, 1);
    Further(m, ls, t, Save(1), b);
    AddedIsDead(m, b.w, vid, SlotsOf(r.w), added);
  }

  /** The steps both losing runs begin with: `init`, then `slot rm hello` saves, then another process enrols. */
  function Opening(init: Command, added: string, dpapi: bool, inp: Inputs): seq<Label> {
    [Prepare(0, init, inp.(newKey := 0))] + [Save(0)] + [Stop(0)]
    + [Load(0)] + [Prepare(0, SlotRm(LABEL_HELLO), inp.(newKey := 1))] + [Save(0)]
    + [Load(1)] + [Prepare(1, SlotAdd(added, NewHello(dpapi)), inp.(newKey := 2))]
  }

  /**
   * Two runs from the empty world that lose a Hello slot. In the first the other process saves before the
   * deletion. In the second it saves after it, so that no slot of the file needed the credential when it
   * was deleted. Every step of both succeeds, for all inputs, on every machine where Hello can prompt.
   */
  lemma LostSlotRuns(m: Machine, init: Command, added: string, dpapi: bool, inp: Inputs)
    returns (r: Race, a: Race, b: Race)
    requires Hello.Lawful(m.sc) && DistinctKeys(m.sc) && RaceInputs(inp) && HelloInit(m, init)
    requires (dpapi ==> m.dpapi) && added != "" && added != LABEL_RECOVERY
    ensures var opening := Opening(init, added, dpapi, inp);
            && Exec(m, Start(2), opening) == Some(r) && (forall s | s in SlotsOf(r.w) :: !s.params.HelloParams?)
            && Exec(m, Start(2), opening + [Save(1)] + [Destroy(0)]) == Some(a) && HasDeadSlot(m, a.w, added)
            && Exec(m, Start(2), opening + [Destroy(0)] + [Save(1)]) == Some(b) && HasDeadSlot(m, b.w, added)
  {
    var start := [Prepare(0, init, inp.(newKey := 0))] + [Save(0)] + [Stop(0)];
    var r1 := SetupInit(m, init, inp.(newKey := 0));
    var removed := start + [Load(0)] + [Prepare(0, SlotRm(LABEL_HELLO), inp.(newKey := 1))] + [Save(0)];
    var r2 := SetupRm(m, start, r1, init.vid, inp.(newKey := 1));
    r := SetupAdd(m, removed, r2, init.vid, added, dpapi, inp.(newKey := 2));
    a, b := EitherOrderLoses(m, Opening(init, added, dpapi, inp), r, init.vid, added);
  }
}
