/**
 * What `unlock` answers, said slot by slot: which slots are tried in which order, whose answer decides, and what
 * is reported when none does (crates/wcm-core/src/vault/mod.rs).
 */
module UnlockAnswers {
  import opened Basics
  import opened Slots
  import opened Header
  import opened Vault
  import opened Unlock
  import opened HelloAnswers
  import K = KeyCommands
  import T = KeyTheorems
  import Hello

  // ---------------------------------------------------------------------------
  // Slot by slot
  // ---------------------------------------------------------------------------

  /** The calls made before slot `i` is tried. */
  function LogBefore(resolver: Resolver, secret: Option<string>, log: seq<Hello.Call>, order: seq<KeySlot>, i: nat,
                     ctx: UnlockContext): seq<Hello.Call>
    requires i <= |order|
  {
    if i == 0 then log
    else Attempt(resolver, secret, LogBefore(resolver, secret, log, order, i - 1, ctx), order[i - 1], ctx).0
  }

  /** What slot `i` answers when it is tried; none if there is no backend for it. */
  function Answer(resolver: Resolver, secret: Option<string>, log: seq<Hello.Call>, order: seq<KeySlot>, i: nat,
                  ctx: UnlockContext): Option<Result<Dek>>
    requires i < |order|
  {
    Attempt(resolver, secret, LogBefore(resolver, secret, log, order, i, ctx), order[i], ctx).1
  }

  /** No backend, or a backend that cannot be used now: on to the next slot. */
  predicate Passed(answer: Option<Result<Dek>>) {
    match answer
    case None => true
    case Some(r) => match r { case Ok(_) => false case Err(e) => e.AuthUnavailable? }
  }

  /** All slots before slot `i` are passed over. */
  predicate AllPassed(resolver: Resolver, secret: Option<string>, log: seq<Hello.Call>, order: seq<KeySlot>, i: nat,
                      ctx: UnlockContext)
    requires i <= |order|
  {
    forall j | 0 <= j < i :: Passed(Answer(resolver, secret, log, order, j, ctx))
  }

  /** Slot `i` opens, every slot before it having been passed over, and its key opens the file. */
  predicate OpensAt(main: Option<Image>, resolver: Resolver, secret: Option<string>, log: seq<Hello.Call>,
                    order: seq<KeySlot>, i: nat, ctx: UnlockContext)
    requires i < |order|
  {
    && AllPassed(resolver, secret, log, order, i, ctx)
    && var a := Answer(resolver, secret, log, order, i, ctx);
       a.Some? && a.value.Ok? && OpenWithDek(main, a.value.value).Ok?
  }

  lemma {:induction false} TriesOn(main: Option<Image>, resolver: Resolver, secret: Option<string>,
                                   log: seq<Hello.Call>, order: seq<KeySlot>, i: nat, ctx: UnlockContext)
    requires i <= |order| && AllPassed(resolver, secret, log, order, i, ctx)
    ensures TryRun(main, resolver, secret, log, order, ctx)
         == TryRun(main, resolver, secret, LogBefore(resolver, secret, log, order, i, ctx), order[i..], ctx)
  {
    if i == 0 {
      assert order[0..] == order;
    } else {
      TriesOn(main, resolver, secret, log, order, i - 1, ctx);
      assert Passed(Answer(resolver, secret, log, order, i - 1, ctx));
      var rest := order[i - 1..];
      assert rest[0] == order[i - 1] && rest[1..] == order[i..];
    }
  }

  /** The first slot that is not passed over decides, with no further call. */
  lemma FirstAnswerDecides(main: Option<Image>, resolver: Resolver, secret: Option<string>, log: seq<Hello.Call>,
                           order: seq<KeySlot>, i: nat, ctx: UnlockContext)
    requires i < |order| && AllPassed(resolver, secret, log, order, i, ctx)
    requires !Passed(Answer(resolver, secret, log, order, i, ctx))
    ensures var a := Answer(resolver, secret, log, order, i, ctx).value;
            TryRun(main, resolver, secret, log, order, ctx)
              == (LogBefore(resolver, secret, log, order, i + 1, ctx),
                  if a.Ok? then OpenWithDek(main, a.value) else Err(a.error))
  {
    TriesOn(main, resolver, secret, log, order, i, ctx);
    assert order[i..][0] == order[i];
  }

  lemma NoneDecides(main: Option<Image>, resolver: Resolver, secret: Option<string>, log: seq<Hello.Call>,
                    order: seq<KeySlot>, ctx: UnlockContext)
    requires AllPassed(resolver, secret, log, order, |order|, ctx)
    ensures TryRun(main, resolver, secret, log, order, ctx)
         == (LogBefore(resolver, secret, log, order, |order|, ctx), Err(AuthUnavailable("no usable key slot")))
  {
    TriesOn(main, resolver, secret, log, order, |order|, ctx);
    assert order[|order|..] == [];
  }

  /** The first slot that is not passed over, if there is one. */
  lemma {:induction false} FirstOf(resolver: Resolver, secret: Option<string>, log: seq<Hello.Call>,
                                   order: seq<KeySlot>, n: nat, ctx: UnlockContext) returns (i: nat)
    requires n <= |order|
    ensures i <= n && AllPassed(resolver, secret, log, order, i, ctx)
    ensures i < n ==> !Passed(Answer(resolver, secret, log, order, i, ctx))
  {
    i := 0;
    while i < n && Passed(Answer(resolver, secret, log, order, i, ctx))
      invariant i <= n && AllPassed(resolver, secret, log, order, i, ctx)
    {
      i := i + 1;
    }
  }

  lemma NoAuthErrorFromFile(main: Option<Image>, dek: Dek)
    ensures OpenWithDek(main, dek).Err? ==> !OpenWithDek(main, dek).error.AuthUnavailable?
  {
  }

  lemma TryIff(main: Option<Image>, resolver: Resolver, secret: Option<string>, log: seq<Hello.Call>,
               order: seq<KeySlot>, ctx: UnlockContext)
    ensures var r := TryRun(main, resolver, secret, log, order, ctx).1;
            && (r.Ok? <==> exists i | 0 <= i < |order| :: OpensAt(main, resolver, secret, log, order, i, ctx))
            && (r.Err? && r.error.AuthUnavailable? <==> AllPassed(resolver, secret, log, order, |order|, ctx))
  {
    var i := FirstOf(resolver, secret, log, order, |order|, ctx);
    if i == |order| {
      NoneDecides(main, resolver, secret, log, order, ctx);
    } else {
      FirstAnswerDecides(main, resolver, secret, log, order, i, ctx);
      var a := Answer(resolver, secret, log, order, i, ctx).value;
      if a.Ok? {
        NoAuthErrorFromFile(main, a.value);
        if OpenWithDek(main, a.value).Ok? { assert OpensAt(main, resolver, secret, log, order, i, ctx); }
      }
    }
    forall k | 0 <= k < |order| && OpensAt(main, resolver, secret, log, order, k, ctx)
      ensures TryRun(main, resolver, secret, log, order, ctx).1.Ok?
    {
      FirstAnswerDecides(main, resolver, secret, log, order, k, ctx);
    }
  }

  // ---------------------------------------------------------------------------
  // The order
  // ---------------------------------------------------------------------------

  /** All slots as the header has them, or with the preferred one moved to the front. */
  predicate Tried(slots: seq<KeySlot>, preferred: Option<string>, order: seq<KeySlot>) {
    match preferred
    case None => order == slots
    case Some(p) =>
      exists k | 0 <= k < |slots| :: slots[k].slotLabel == p && order == [slots[k]] + slots[..k] + slots[k + 1..]
  }

  lemma {:induction false} NoneLabelled(slots: seq<KeySlot>, p: string)
    ensures SlotByLabel(slots, p).None? <==> forall s | s in slots :: s.slotLabel != p
    ensures SlotByLabel(slots, p).None? ==> OtherSlots(slots, p) == slots
  {
    if slots != [] {
      NoneLabelled(slots[1..], p);
      assert slots == [slots[0]] + slots[1..];
    }
  }

  lemma {:induction false} OthersAre(slots: seq<KeySlot>, k: nat)
    requires DistinctLabels(slots) && k < |slots|
    ensures OtherSlots(slots, slots[k].slotLabel) == slots[..k] + slots[k + 1..]
  {
    var rest, p := slots[1..], slots[k].slotLabel;
    forall i, j | 0 <= i < j < |rest| ensures rest[i].slotLabel != rest[j].slotLabel {
      assert slots[i + 1].slotLabel != slots[j + 1].slotLabel;
    }
    if k == 0 {
      forall s | s in rest ensures s.slotLabel != p {
        var i :| 0 <= i < |rest| && rest[i] == s;
        assert slots[0].slotLabel != slots[i + 1].slotLabel;
      }
      NoneLabelled(rest, p);
      assert slots[..0] + slots[1..] == rest;
    } else {
      OthersAre(rest, k - 1);
      assert rest[k - 1] == slots[k] && slots[0].slotLabel != slots[k].slotLabel;
      assert slots[..k] + slots[k + 1..] == [slots[0]] + (rest[..k - 1] + rest[k..]);
    }
  }

  lemma PreferredFirst(slots: seq<KeySlot>, k: nat)
    requires DistinctLabels(slots) && k < |slots|
    ensures Order(slots, Some(slots[k].slotLabel)) == Ok([slots[k]] + (slots[..k] + slots[k + 1..]))
  {
    DistinctLabelCount(slots, k);
    OthersAre(slots, k);
  }

  lemma Regrouped(a: seq<KeySlot>, b: seq<KeySlot>, c: seq<KeySlot>)
    ensures a + b + c == a + (b + c)
  {
  }

  lemma OrderIs(slots: seq<KeySlot>, preferred: Option<string>, order: seq<KeySlot>)
    requires DistinctLabels(slots) && Tried(slots, preferred, order)
    ensures Order(slots, preferred) == Ok(order)
  {
    if preferred.Some? {
      var k :| 0 <= k < |slots| && slots[k].slotLabel == preferred.value &&
               order == [slots[k]] + slots[..k] + slots[k + 1..];
      PreferredFirst(slots, k);
      Regrouped([slots[k]], slots[..k], slots[k + 1..]);
    }
  }

  // ---------------------------------------------------------------------------
  // unlock
  // ---------------------------------------------------------------------------

  /** What it takes for `unlock` to try slots at all. */
  predicate Begins(first: Option<Image>, ctx: UnlockContext, preferred: Option<string>) {
    && ReadHeader(first).Ok?
    && ReadHeader(first).value.vaultId == ctx.vaultId
    && (preferred.Some? ==> exists s | s in ReadHeader(first).value.slots :: s.slotLabel == preferred.value)
  }

  /** Without that it asks nothing and says what is wrong. */
  lemma UnlockRefuses(first: Option<Image>, second: Option<Image>, resolver: Resolver, secret: Option<string>,
                      log: seq<Hello.Call>, ctx: UnlockContext, preferred: Option<string>)
    requires !Begins(first, ctx, preferred)
    ensures var (log', r) := UnlockRun(first, second, resolver, secret, log, ctx, preferred);
            && log' == log && r.Err?
            && (if ReadHeader(first).Err? then r.error == ReadHeader(first).error else r.error.Invalid?)
  {
    if ReadHeader(first).Ok? && preferred.Some? { NoneLabelled(ReadHeader(first).value.slots, preferred.value); }
  }

  lemma UnlockTries(first: Option<Image>, second: Option<Image>, resolver: Resolver, secret: Option<string>,
                    log: seq<Hello.Call>, ctx: UnlockContext, preferred: Option<string>, order: seq<KeySlot>)
    requires Begins(first, ctx, preferred) && Tried(ReadHeader(first).value.slots, preferred, order)
    ensures UnlockRun(first, second, resolver, secret, log, ctx, preferred)
         == TryRun(second, resolver, secret, log, order, ctx)
  {
    ValidateIff(first.value.header);
    OrderIs(first.value.header.slots, preferred, order);
  }

  /**
   * `unlock` succeeds if and only if some slot opens, every slot before it is passed over, and its key opens the
   * file of the second read. It says that no slot is usable exactly if all are passed over.
   */
  lemma UnlockIff(first: Option<Image>, second: Option<Image>, resolver: Resolver, secret: Option<string>,
                  log: seq<Hello.Call>, ctx: UnlockContext, preferred: Option<string>, order: seq<KeySlot>)
    requires Begins(first, ctx, preferred) && Tried(ReadHeader(first).value.slots, preferred, order)
    ensures var (log', r) := UnlockRun(first, second, resolver, secret, log, ctx, preferred);
            && (r.Ok? <==> exists i | 0 <= i < |order| :: OpensAt(second, resolver, secret, log, order, i, ctx))
            && (r.Err? && r.error.AuthUnavailable? <==> AllPassed(resolver, secret, log, order, |order|, ctx))
            && (r.Err? && r.error.AuthUnavailable? ==> r.error.msg == "no usable key slot")
  {
    UnlockTries(first, second, resolver, secret, log, ctx, preferred, order);
    TryIff(second, resolver, secret, log, order, ctx);
    if AllPassed(resolver, secret, log, order, |order|, ctx) { NoneDecides(second, resolver, secret, log, order, ctx); }
  }

  /** The answer of the first slot that is not passed over is the answer of `unlock`, and nothing is asked after it. */
  lemma UnlockAnswers(first: Option<Image>, second: Option<Image>, resolver: Resolver, secret: Option<string>,
                      log: seq<Hello.Call>, ctx: UnlockContext, preferred: Option<string>, order: seq<KeySlot>, i: nat)
    requires Begins(first, ctx, preferred) && Tried(ReadHeader(first).value.slots, preferred, order)
    requires i < |order| && AllPassed(resolver, secret, log, order, i, ctx)
    requires !Passed(Answer(resolver, secret, log, order, i, ctx))
    ensures var a := Answer(resolver, secret, log, order, i, ctx).value;
            UnlockRun(first, second, resolver, secret, log, ctx, preferred)
              == (LogBefore(resolver, secret, log, order, i + 1, ctx),
                  if a.Ok? then OpenWithDek(second, a.value) else Err(a.error))
  {
    UnlockTries(first, second, resolver, secret, log, ctx, preferred, order);
    FirstAnswerDecides(second, resolver, secret, log, order, i, ctx);
  }

  // ---------------------------------------------------------------------------
  // Windows Hello that cannot be used, and a user who says no
  // ---------------------------------------------------------------------------

  /** Windows Hello cannot be asked at all: none here, left out by the caller, or no prompt possible. */
  predicate HelloOut(resolver: Resolver, ctx: UnlockContext) {
    || resolver.skipHello
    || resolver.hello.UnsupportedBackend?
    || (resolver.hello.HelloBackend? && (!resolver.hello.hello.cfg.sessionInteractive || !ctx.allowUi))
  }

  lemma HelloOutPasses(resolver: Resolver, secret: Option<string>, log: seq<Hello.Call>, slot: KeySlot,
                       ctx: UnlockContext)
    requires HelloOut(resolver, ctx) && slot.Kind().Hello? && WellSized(slot)
    ensures Attempt(resolver, secret, log, slot, ctx).0 == log
    ensures Passed(Attempt(resolver, secret, log, slot, ctx).1)
  {
  }

  lemma {:induction false} HelloOutAllPassed(resolver: Resolver, secret: Option<string>, log: seq<Hello.Call>,
                                             order: seq<KeySlot>, i: nat, ctx: UnlockContext)
    requires HelloOut(resolver, ctx) && i <= |order|
    requires forall j | 0 <= j < i :: order[j].Kind().Hello? && WellSized(order[j])
    ensures LogBefore(resolver, secret, log, order, i, ctx) == log && AllPassed(resolver, secret, log, order, i, ctx)
  {
    if i > 0 {
      HelloOutAllPassed(resolver, secret, log, order, i - 1, ctx);
      HelloOutPasses(resolver, secret, log, order[i - 1], ctx);
    }
  }

  /** Hello slots that cannot be used do not stop the right passphrase of a slot behind them. */
  lemma PassphraseBehindHello(first: Option<Image>, second: Option<Image>, resolver: Resolver, secret: Option<string>,
                              log: seq<Hello.Call>, ctx: UnlockContext, i: nat, dek: Dek)
    requires Begins(first, ctx, None) && HelloOut(resolver, ctx)
    requires var slots := ReadHeader(first).value.slots;
             && i < |slots|
             && (forall j | 0 <= j < i :: slots[j].Kind().Hello? && WellSized(slots[j]))
             && ResolveSecret(secret, ctx.allowUi, ctx.prompt).Ok?
             && OpenWithSecret(slots[i], ResolveSecret(secret, ctx.allowUi, ctx.prompt).value, ctx.vaultId) == Ok(dek)
    ensures UnlockRun(first, second, resolver, secret, log, ctx, None) == (log, OpenWithDek(second, dek))
  {
    var slots := ReadHeader(first).value.slots;
    HelloOutAllPassed(resolver, secret, log, slots, i, ctx);
    UnlockAnswers(first, second, resolver, secret, log, ctx, None, slots, i);
  }

  /**
   * A cancelled Hello prompt ends `unlock` with exactly that, and the cancelled call is the last one made,
   * whatever slots are left.
   */
  lemma CancelEndsUnlock(first: Option<Image>, second: Option<Image>, resolver: Resolver, secret: Option<string>,
                         log: seq<Hello.Call>, ctx: UnlockContext, preferred: Option<string>, order: seq<KeySlot>,
                         i: nat)
    requires Begins(first, ctx, preferred) && Tried(ReadHeader(first).value.slots, preferred, order)
    requires i < |order| && AllPassed(resolver, secret, log, order, i, ctx)
    requires order[i].Kind().Hello? && WellSized(order[i]) && !resolver.skipHello && resolver.hello.HelloBackend?
    requires var b, before := resolver.hello.hello, LogBefore(resolver, secret, log, order, i, ctx);
             var log' := Hello.OpenRun(b.api.oracle, before, b.scheme, b.cfg, ctx.allowUi, order[i].params).0;
             log' != before && log' != [] && Cancels(Heard(b.api.oracle, log'))
    ensures var b, before := resolver.hello.hello, LogBefore(resolver, secret, log, order, i, ctx);
            UnlockRun(first, second, resolver, secret, log, ctx, preferred)
              == (Hello.OpenRun(b.api.oracle, before, b.scheme, b.cfg, ctx.allowUi, order[i].params).0,
                  Err(AuthCancelled))
  {
    var b, before := resolver.hello.hello, LogBefore(resolver, secret, log, order, i, ctx);
    OpenCancelledIff(b.api.oracle, before, b.scheme, b.cfg, ctx.allowUi, order[i].params);
    UnlockAnswers(first, second, resolver, secret, log, ctx, preferred, order, i);
  }

  // ---------------------------------------------------------------------------
  // What single slots answer
  // ---------------------------------------------------------------------------

  /** A sealed passphrase slot answers with its key to its own secret, and with `Integrity` to any other. */
  lemma PassphraseAnswers(resolver: Resolver, secret: Option<string>, log: seq<Hello.Call>, ctx: UnlockContext,
                          id: Byte, slotLabel: string, given: string, argon2: Argon2Params, salt: Bytes, nonce: Bytes,
                          dek: Dek)
    requires |salt| == SALT_LEN && |nonce| == NONCE_LEN
    requires SealWithSecret(id, slotLabel, given, argon2, salt, nonce, ctx.vaultId, dek).Ok?
    ensures var slot := SealWithSecret(id, slotLabel, given, argon2, salt, nonce, ctx.vaultId, dek).value;
            var (log', a) := Attempt(resolver, secret, log, slot, ctx);
            var s := ResolveSecret(secret, ctx.allowUi, ctx.prompt);
            && log' == log && a.Some?
            && (s.Err? ==> a.value == Err(s.error))
            && (s == Ok(given) ==> a.value == Ok(dek))
            && (s.Ok? && s.value != given ==> a.value.Err? && a.value.error.Integrity?)
  {
    var s := ResolveSecret(secret, ctx.allowUi, ctx.prompt);
    if s.Ok? { SecretOpensIff(id, slotLabel, given, argon2, salt, nonce, ctx.vaultId, dek, s.value); }
  }

  /** Where the secret comes from: the one preset, else the prompt, if one may be shown. */
  lemma SecretFrom(secret: Option<string>, allowUi: bool, prompt: Result<string>)
    ensures secret.Some? ==> ResolveSecret(secret, allowUi, prompt) == Ok(secret.value)
    ensures secret.None? && allowUi ==> ResolveSecret(secret, allowUi, prompt) == prompt
    ensures secret.None? && !allowUi ==>
              var s := ResolveSecret(secret, allowUi, prompt); s.Err? && s.error.AuthUnavailable?
  {
  }

  /** A Hello slot of a vault the commands made opens while its credential is in the store as it was enrolled. */
  lemma LiveHelloAnswers(m: K.Machine, creds: map<string, nat>, resolver: Resolver, secret: Option<string>,
                         ctx: UnlockContext, slot: KeySlot, given: K.Secret, dek: Dek)
    requires Hello.Lawful(m.sc) && T.GoodSlot(m, slot, given, ctx.vaultId, dek) && T.Live(m, creds, slot)
    requires !resolver.skipHello && resolver.hello.HelloBackend? && resolver.dpapiAvailable == m.dpapi
    requires var b := resolver.hello.hello;
             && b.api.oracle == Hello.Honest(creds, 0, m.sc) && b.scheme == m.sc
             && MayPrompt(b.cfg, ctx.allowUi)
    ensures Attempt(resolver, secret, [], slot, ctx).1 == Some(Ok(dek))
  {
    var b := resolver.hello.hello;
    var cfg := Hello.HelloConfig(false, true, slot.params.dpapi);
    T.LiveOpens(m, creds, slot, given, ctx.vaultId, dek);
    assert Hello.KeysAfter(creds, 0, []) == creds;
    OpenTable(b.api.oracle, [], m.sc, cfg, true, slot.params);
    OpenTable(b.api.oracle, [], m.sc, b.cfg, ctx.allowUi, slot.params);
  }

  /** A slot whose salt or nonce has the wrong length is damaged, whoever would open it. */
  lemma IllSizedAnswers(resolver: Resolver, secret: Option<string>, log: seq<Hello.Call>, slot: KeySlot,
                        ctx: UnlockContext)
    requires |slot.salt| != 32 || |slot.nonce| != 24
    ensures var (log', a) := Attempt(resolver, secret, log, slot, ctx);
            log' == log && (a.Some? ==> a.value.Err? && a.value.error.Integrity?)
  {
  }

  /** A Hello slot inside a DPAPI envelope that cannot be opened here is passed over, even if the user agrees. */
  lemma LostEnvelopePasses(resolver: Resolver, secret: Option<string>, log: seq<Hello.Call>, slot: KeySlot,
                           ctx: UnlockContext)
    requires slot.params.HelloParams? && slot.params.dpapi && WellSized(slot) && resolver.hello.HelloBackend?
    requires !resolver.skipHello && (!resolver.dpapiAvailable || !slot.ct.Protected? || slot.ct.entropy != ctx.vaultId)
    requires var b := resolver.hello.hello;
             Hello.OpenRun(b.api.oracle, log, b.scheme, b.cfg, ctx.allowUi, slot.params).1.Ok?
    ensures Passed(Attempt(resolver, secret, log, slot, ctx).1)
  {
    var b := resolver.hello.hello;
    var sig := Hello.OpenRun(b.api.oracle, log, b.scheme, b.cfg, ctx.allowUi, slot.params).1.value;
    DpapiRefuses(slot, SignatureIkm(sig), resolver.dpapiAvailable, ctx.vaultId);
  }

  // ---------------------------------------------------------------------------
  // The loop over the passphrase slots
  // ---------------------------------------------------------------------------

  /** Slot `i` is not one that a secret from the environment opens or is wrong for. */
  predicate NotThisSlot(main: Option<Image>, slot: KeySlot, secret: string, vid: VaultId) {
    slot.params.PassphraseParams? ==>
      OpenThrough(main, slot, secret, vid).Err? && OpenThrough(main, slot, secret, vid).error.Integrity?
  }

  /** With a secret from the environment the first passphrase slot that answers anything but `Integrity` decides. */
  lemma {:induction false} EachStops(main: Option<Image>, slots: seq<KeySlot>, i: nat, secret: string, vid: VaultId,
                                     last: Option<Error>)
    requires i < |slots| && !NotThisSlot(main, slots[i], secret, vid)
    requires forall j | 0 <= j < i :: NotThisSlot(main, slots[j], secret, vid)
    ensures TryEach(main, slots, secret, vid, last) == Some(OpenThrough(main, slots[i], secret, vid))
  {
    if i > 0 {
      var head, rest := slots[0], slots[1..];
      forall j | 0 <= j < i - 1 ensures NotThisSlot(main, rest[j], secret, vid) { assert rest[j] == slots[j + 1]; }
      var next := if head.params.PassphraseParams? then Some(OpenThrough(main, head, secret, vid).error) else last;
      EachStops(main, rest, i - 1, secret, vid, next);
    }
  }

  /** If none decides, the answer is `Integrity`; without any passphrase slot there is none. */
  lemma {:induction false} EachGivesUp(main: Option<Image>, slots: seq<KeySlot>, secret: string, vid: VaultId,
                                       last: Option<Error>)
    requires last.Some? ==> last.value.Integrity?
    requires forall i | 0 <= i < |slots| :: NotThisSlot(main, slots[i], secret, vid)
    ensures var r := TryEach(main, slots, secret, vid, last);
            if last.Some? || exists s | s in slots :: s.params.PassphraseParams?
            then r.Some? && r.value.Err? && r.value.error.Integrity? else r.None?
    decreases |slots|
  {
    if slots != [] {
      var head, rest := slots[0], slots[1..];
      assert slots == [head] + rest;
      assert NotThisSlot(main, slots[0], secret, vid);
      forall j | 0 <= j < |rest| ensures NotThisSlot(main, rest[j], secret, vid) { assert rest[j] == slots[j + 1]; }
      EachGivesUp(main, rest, secret, vid,
                  if head.params.PassphraseParams? then Some(OpenThrough(main, head, secret, vid).error) else last);
    }
  }
}
