/**
 * The Windows Hello backend: open, create, sign and verify over a credential API that may answer
 * anything (crates/wcm-hello/src/backend.rs and kcm_api.rs).
 */
module Hello {
  import opened Basics
  import opened Chars
  import opened Slots

  datatype KcmStatus =
    | Success
    | NotFound
    | UserCanceled
    | UserPrefersPassword
    | CredentialAlreadyExists
    | SecurityDeviceLocked
    | UnknownError(msg: string)

  datatype Call =
    | IsSupported
    | OpenCall(name: string)
    | CreateCall(name: string)
    | SignCall(name: string, challenge: Bytes)
    | PublicKeyCall(name: string)
    | AttestCall(name: string)
    | DeleteCall(name: string)

  /** One answer for each operation; the caller takes the one that fits its call. */
  datatype Reply = Reply(
    supported: Result<bool>,
    status: Result<KcmStatus>,
    signed: Result<(KcmStatus, Bytes)>,
    key: Result<Bytes>,
    attested: Result<bool>,
    deleted: Result<()>)

  /** The answer to the last call of a log, which may depend on everything called before. */
  type Oracle = seq<Call> -> Reply

  /** A signature scheme: what verifies, and what the key numbered `k` publishes and signs. */
  datatype Scheme = Scheme(
    verify: (Bytes, Bytes, Bytes) -> bool,
    publicKey: nat -> Bytes,
    sign: (nat, Bytes) -> Bytes)

  /** RSASSA-PKCS1-v1_5 is deterministic: one signature verifies for a key and a message (section 8.2 of RFC 8017). */
  ghost predicate UniqueSignatures(sc: Scheme) {
    forall spki, c, a, b :: sc.verify(spki, c, a) && sc.verify(spki, c, b) ==> a == b
  }

  ghost predicate Lawful(sc: Scheme) {
    && UniqueSignatures(sc)
    && forall k, c :: sc.verify(sc.publicKey(k), c, sc.sign(k, c))
  }

  datatype HelloConfig = HelloConfig(allowCreate: bool, sessionInteractive: bool, dpapi: bool)

  const HEX: string := "0123456789abcdef"

  function HexOf(b: Bytes): string {
    if b == [] then "" else [HEX[b[0] / 16], HEX[b[0] % 16]] + HexOf(b[1..])
  }

  /** `wcm-v1-<32 hex>` */
  function CredName(vid: VaultId): string { "wcm-v1-" + HexOf(vid) }

  /** HRESULTs worth one retry. */
  const TRANSIENT_HRESULTS: seq<string> := ["0x8028008B", "0x80280095", "0x80280159", "0x80098046"]

  predicate IsTransient(e: Error) {
    exists i | 0 <= i < |TRANSIENT_HRESULTS| :: Contains(e.Display(), TRANSIENT_HRESULTS[i])
  }

  function CheckSession(cfg: HelloConfig, allowUi: bool): Result<()> {
    if !cfg.sessionInteractive then Err(AuthUnavailable("no interactive Windows desktop session"))
    else if !allowUi then Err(AuthUnavailable("prompting is disabled"))
    else Ok(())
  }

  function MapStatus(status: KcmStatus): Result<()> {
    match status
    case Success => Ok(())
    case UserCanceled => Err(AuthCancelled)
    case UserPrefersPassword => Err(AuthCancelled)
    case NotFound => Err(AuthUnavailable("key is gone"))
    case SecurityDeviceLocked => Err(AuthUnavailable("security device is locked out"))
    case CredentialAlreadyExists => Err(AuthUnavailable("credential already exists"))
    case UnknownError(msg) => Err(AuthUnavailable(msg))
  }

  // ---------------------------------------------------------------------------
  // What each operation does, as a function of the log so far
  // ---------------------------------------------------------------------------

  function CreateRun(o: Oracle, log: seq<Call>, name: string): (seq<Call>, Result<KcmStatus>) {
    var once := log + [CreateCall(name)];
    var r := o(once).status;
    if r.Err? && IsTransient(r.error) then
      var twice := once + [CreateCall(name)];
      (twice, o(twice).status)
    else (once, r)
  }

  function SignRun(o: Oracle, log: seq<Call>, name: string, challenge: Bytes): (seq<Call>, Result<(KcmStatus, Bytes)>) {
    var once := log + [SignCall(name, challenge)];
    var r := o(once).signed;
    if r.Err? && IsTransient(r.error) then
      var twice := once + [SignCall(name, challenge)];
      (twice, o(twice).signed)
    else (once, r)
  }

  function OpenOrCreateRun(o: Oracle, log: seq<Call>, cfg: HelloConfig, name: string): (seq<Call>, Result<bool>) {
    var tried := log + [OpenCall(name)];
    match o(tried).status
    case Err(e) => (tried, Err(e))
    case Ok(status) =>
      if status.Success? then (tried, Ok(false))
      else if !(status.NotFound? && cfg.allowCreate) then
        (tried, if MapStatus(status).Err? then Err(MapStatus(status).error) else Ok(false))
      else
        var (log', r) := CreateRun(o, tried, name);
        match r
        case Err(e) => (log', Err(e))
        case Ok(created) =>
          if created.Success? then (log', Ok(true))
          else if created.CredentialAlreadyExists? then (log', Ok(false))
          else (log', if MapStatus(created).Err? then Err(MapStatus(created).error) else Ok(false))
  }

  function SignVerifiedRun(o: Oracle, log: seq<Call>, sc: Scheme, name: string, challenge: Bytes, spki: Bytes)
    : (seq<Call>, Result<Bytes>)
  {
    var (log', r) := SignRun(o, log, name, challenge);
    match r
    case Err(e) => (log', Err(e))
    case Ok((status, sig)) =>
      if MapStatus(status).Err? then (log', Err(MapStatus(status).error))
      else if !sc.verify(spki, challenge, sig) then (log', Err(Integrity("signature did not verify")))
      else (log', Ok(sig))
  }

  function EnrollRun(o: Oracle, log: seq<Call>, sc: Scheme, cfg: HelloConfig, vid: VaultId, allowUi: bool,
                     challenge: Bytes)
    : (seq<Call>, Result<(SlotParams, Bytes)>)
  {
    if CheckSession(cfg, allowUi).Err? then (log, Err(CheckSession(cfg, allowUi).error))
    else
      var asked := log + [IsSupported];
      match o(asked).supported
      case Err(e) => (asked, Err(e))
      case Ok(supported) =>
        if !supported then (asked, Err(AuthUnavailable("Windows Hello is not set up")))
        else
          var name := CredName(vid);
          var (log1, created) := OpenOrCreateRun(o, asked, cfg, name);
          if created.Err? then (log1, Err(created.error))
          else
            var log2 := log1 + [PublicKeyCall(name)];
            match o(log2).key
            case Err(e) => (log2, Err(e))
            case Ok(spki) =>
              var (log3, sig) := SignVerifiedRun(o, log2, sc, name, challenge, spki);
              if sig.Err? then (log3, Err(sig.error))
              else
                var log4 := log3 + [AttestCall(name)];
                var attested := o(log4).attested;
                (log4, Ok((HelloParams(name, challenge, spki, cfg.dpapi, attested.Ok? && attested.value), sig.value)))
  }

  function OpenRun(o: Oracle, log: seq<Call>, sc: Scheme, cfg: HelloConfig, allowUi: bool, params: SlotParams)
    : (seq<Call>, Result<Bytes>)
  {
    if !params.HelloParams? then (log, Err(Invalid("non-Hello slot params")))
    else if CheckSession(cfg, allowUi).Err? then (log, Err(CheckSession(cfg, allowUi).error))
    else if |params.challenge| != CHALLENGE_LEN then (log, Err(Integrity("challenge must be 32 bytes")))
    else
      var tried := log + [OpenCall(params.credName)];
      match o(tried).status
      case Err(e) => (tried, Err(e))
      case Ok(status) =>
        if MapStatus(status).Err? then (tried, Err(MapStatus(status).error))
        else SignVerifiedRun(o, tried, sc, params.credName, params.challenge, params.spki)
  }

  // ---------------------------------------------------------------------------
  // The backend, call by call
  // ---------------------------------------------------------------------------

  class Kcm {
    const oracle: Oracle
    var log: seq<Call>

    constructor (oracle: Oracle)
      ensures this.oracle == oracle && log == []
    {
      this.oracle := oracle;
      log := [];
    }

    method Ask(call: Call) returns (r: Reply)
      modifies this
      ensures log == old(log) + [call] && r == oracle(log)
    {
      log := log + [call];
      r := oracle(log);
    }
  }

  class HelloBackend {
    const api: Kcm
    const scheme: Scheme
    const cfg: HelloConfig

    constructor (api: Kcm, scheme: Scheme, cfg: HelloConfig)
      ensures this.api == api && this.scheme == scheme && this.cfg == cfg
    {
      this.api, this.scheme, this.cfg := api, scheme, cfg;
    }

    method CreateWithRetry(name: string) returns (r: Result<KcmStatus>)
      modifies api
      ensures (api.log, r) == CreateRun(api.oracle, old(api.log), name)
      ensures var first := api.oracle(old(api.log) + [CreateCall(name)]).status;
              && api.log == old(api.log) + Times(CreateCall(name), if Transient(first) then 2 else 1)
              && r == api.oracle(api.log).status
    {
      RetriesOnce(api.oracle, api.log, name, []);
      var reply := api.Ask(CreateCall(name));
      r := reply.status;
      if r.Err? && IsTransient(r.error) {
        reply := api.Ask(CreateCall(name));
        r := reply.status;
      }
    }

    method SignWithRetry(name: string, challenge: Bytes) returns (r: Result<(KcmStatus, Bytes)>)
      modifies api
      ensures (api.log, r) == SignRun(api.oracle, old(api.log), name, challenge)
      ensures var first := api.oracle(old(api.log) + [SignCall(name, challenge)]).signed;
              && api.log == old(api.log) + Times(SignCall(name, challenge), if Transient(first) then 2 else 1)
              && r == api.oracle(api.log).signed
    {
      RetriesOnce(api.oracle, api.log, name, challenge);
      var reply := api.Ask(SignCall(name, challenge));
      r := reply.signed;
      if r.Err? && IsTransient(r.error) {
        reply := api.Ask(SignCall(name, challenge));
        r := reply.signed;
      }
    }

    method OpenOrCreate(name: string) returns (r: Result<bool>)
      modifies api
      ensures (api.log, r) == OpenOrCreateRun(api.oracle, old(api.log), cfg, name)
    {
      var reply := api.Ask(OpenCall(name));
      if reply.status.Err? { return Err(reply.status.error); }
      var status := reply.status.value;
      if status.Success? { return Ok(false); }
      if !(status.NotFound? && cfg.allowCreate) {
        var mapped := MapStatus(status);
        return if mapped.Err? then Err(mapped.error) else Ok(false);
      }
      var created := CreateWithRetry(name);
      if created.Err? { return Err(created.error); }
      match created.value {
        case Success => r := Ok(true);
        case CredentialAlreadyExists => r := Ok(false);
        case other =>
          var mapped := MapStatus(other);
          r := if mapped.Err? then Err(mapped.error) else Ok(false);
      }
    }

    method SignVerified(name: string, challenge: Bytes, spki: Bytes) returns (r: Result<Bytes>)
      modifies api
      ensures (api.log, r) == SignVerifiedRun(api.oracle, old(api.log), scheme, name, challenge, spki)
    {
      var signed := SignWithRetry(name, challenge);
      if signed.Err? { return Err(signed.error); }
      var mapped := MapStatus(signed.value.0);
      if mapped.Err? { return Err(mapped.error); }
      if !scheme.verify(spki, challenge, signed.value.1) { return Err(Integrity("signature did not verify")); }
      r := Ok(signed.value.1);
    }

    method Enroll(vid: VaultId, allowUi: bool, challenge: Bytes) returns (r: Result<(SlotParams, Bytes)>)
      modifies api
      ensures (api.log, r) == EnrollRun(api.oracle, old(api.log), scheme, cfg, vid, allowUi, challenge)
    {
      var session := CheckSession(cfg, allowUi);
      if session.Err? { return Err(session.error); }
      var reply := api.Ask(IsSupported);
      if reply.supported.Err? { return Err(reply.supported.error); }
      if !reply.supported.value { return Err(AuthUnavailable("Windows Hello is not set up")); }
      var name := CredName(vid);
      var created := OpenOrCreate(name);
      if created.Err? { return Err(created.error); }
      reply := api.Ask(PublicKeyCall(name));
      if reply.key.Err? { return Err(reply.key.error); }
      var spki := reply.key.value;
      var ikm := SignVerified(name, challenge, spki);
      if ikm.Err? { return Err(ikm.error); }
      reply := api.Ask(AttestCall(name));
      var hwBacked := reply.attested.Ok? && reply.attested.value;
      r := Ok((HelloParams(name, challenge, spki, cfg.dpapi, hwBacked), ikm.value));
    }

    method Open(allowUi: bool, params: SlotParams) returns (r: Result<Bytes>)
      modifies api
      ensures (api.log, r) == OpenRun(api.oracle, old(api.log), scheme, cfg, allowUi, params)
    {
      if !params.HelloParams? { return Err(Invalid("non-Hello slot params")); }
      var session := CheckSession(cfg, allowUi);
      if session.Err? { return Err(session.error); }
      if |params.challenge| != CHALLENGE_LEN { return Err(Integrity("challenge must be 32 bytes")); }
      var reply := api.Ask(OpenCall(params.credName));
      if reply.status.Err? { return Err(reply.status.error); }
      var mapped := MapStatus(reply.status.value);
      if mapped.Err? { return Err(mapped.error); }
      r := SignVerified(params.credName, params.challenge, params.spki);
    }

    /** Deletes the credential of a Hello slot; other slots have no external state. */
    method Destroy(params: SlotParams) returns (r: Result<()>)
      modifies api
      ensures params.PassphraseParams? ==> api.log == old(api.log) && r == Ok(())
      ensures params.HelloParams? ==>
                api.log == old(api.log) + [DeleteCall(params.credName)] && r == api.oracle(api.log).deleted
    {
      if params.PassphraseParams? { return Ok(()); }
      var reply := api.Ask(DeleteCall(params.credName));
      r := reply.deleted;
    }
  }

  // ---------------------------------------------------------------------------
  // For an API that answers anything
  // ---------------------------------------------------------------------------

  /** `n` times the same call. */
  function Times(c: Call, n: nat): seq<Call> { seq(n, _ => c) }

  predicate Transient<T>(r: Result<T>) { r.Err? && IsTransient(r.error) }

  /** A retried operation asks once more after a transient error and only then, and its last answer counts. */
  lemma RetriesOnce(o: Oracle, log: seq<Call>, name: string, challenge: Bytes)
    ensures var (log', r) := CreateRun(o, log, name);
            && log' == log + Times(CreateCall(name), if Transient(o(log + [CreateCall(name)]).status) then 2 else 1)
            && r == o(log').status
    ensures var (log', r) := SignRun(o, log, name, challenge);
            var c := SignCall(name, challenge);
            && log' == log + Times(c, if Transient(o(log + [c]).signed) then 2 else 1)
            && r == o(log').signed
  {
    var c, d := CreateCall(name), SignCall(name, challenge);
    assert log + Times(c, 1) == log + [c] && log + Times(c, 2) == log + [c] + [c];
    assert log + Times(d, 1) == log + [d] && log + Times(d, 2) == log + [d] + [d];
  }

  /**
   * Opening asks at most for the credential and then for one or two signatures over the stored
   * challenge: it never creates or deletes a key, and asks nothing when no prompt may be shown.
   */
  lemma OpenCalls(o: Oracle, log: seq<Call>, sc: Scheme, cfg: HelloConfig, allowUi: bool, params: SlotParams)
    returns (signs: nat)
    ensures signs <= 2
    ensures var log' := OpenRun(o, log, sc, cfg, allowUi, params).0;
            && (log' == log ||
                  (params.HelloParams? &&
                   log' == log + [OpenCall(params.credName)] + Times(SignCall(params.credName, params.challenge),
                                                                     signs)))
            && (!allowUi || !cfg.sessionInteractive ==> log' == log)
    ensures OpenRun(o, log, sc, cfg, allowUi, params).1.Ok? ==>
              signs >= 1 && allowUi && cfg.sessionInteractive
  {
    var log' := OpenRun(o, log, sc, cfg, allowUi, params).0;
    signs := if |log'| <= |log| + 1 then 0 else |log'| - |log| - 1;
    if params.HelloParams? {
      var c := SignCall(params.credName, params.challenge);
      var tried := log + [OpenCall(params.credName)];
      assert tried + Times(c, 0) == tried;
      assert tried + Times(c, 1) == tried + [c];
      assert tried + Times(c, 2) == tried + [c] + [c];
    }
  }

  /** The calls of a complete enrolment with the given numbers of create and sign requests. */
  function EnrollScript(name: string, challenge: Bytes, creates: nat, signs: nat): seq<Call> {
    [IsSupported, OpenCall(name)] + Times(CreateCall(name), creates) + [PublicKeyCall(name)]
      + Times(SignCall(name, challenge), signs) + [AttestCall(name)]
  }

  /**
   * Enrolling follows one script and stops somewhere along it: at most two create requests, only after
   * the API said the credential is missing and only if creation is allowed; at most two signatures; no
   * deletion; and nothing at all when no prompt may be shown.
   */
  lemma EnrollCalls(o: Oracle, log: seq<Call>, sc: Scheme, cfg: HelloConfig, vid: VaultId, allowUi: bool,
                    challenge: Bytes)
    returns (creates: nat, signs: nat)
    ensures creates <= 2 && signs <= 2
    ensures var (log', r) := EnrollRun(o, log, sc, cfg, vid, allowUi, challenge);
            && log <= log' <= log + EnrollScript(CredName(vid), challenge, creates, signs)
            && (r.Ok? ==> log' == log + EnrollScript(CredName(vid), challenge, creates, signs))
            && (!allowUi || !cfg.sessionInteractive ==> log' == log)
    ensures creates > 0 ==>
              && cfg.allowCreate
              && o(log + [IsSupported] + [OpenCall(CredName(vid))]).status == Ok(KcmStatus.NotFound)
  {
    creates, signs := 0, 0;
    var name := CredName(vid);
    if CheckSession(cfg, allowUi).Err? { return; }
    var asked := log + [IsSupported];
    if o(asked).supported.Err? || !o(asked).supported.value {
      assert log + EnrollScript(name, challenge, 0, 0) == asked + EnrollScript(name, challenge, 0, 0)[1..];
      return;
    }
    var (log1, created) := OpenOrCreateRun(o, asked, cfg, name);
    OpenOrCreateCalls(o, asked, cfg, name);
    creates := |log1| - |asked| - 1;
    if created.Err? {
      ScriptPrefix(log, log1, log1, name, challenge, creates, 0);
      return;
    }
    var log2 := log1 + [PublicKeyCall(name)];
    if o(log2).key.Err? {
      ScriptPrefix(log, log1, log2, name, challenge, creates, 0);
      return;
    }
    var (log3, sig) := SignVerifiedRun(o, log2, sc, name, challenge, o(log2).key.value);
    SignCalls(o, log2, sc, name, challenge, o(log2).key.value);
    signs := |log3| - |log2|;
    ScriptPrefix(log, log1, log3, name, challenge, creates, signs);
  }

  lemma SignCalls(o: Oracle, log: seq<Call>, sc: Scheme, name: string, challenge: Bytes, spki: Bytes)
    ensures var log' := SignVerifiedRun(o, log, sc, name, challenge, spki).0;
            var n := |log'| - |log|;
            1 <= n <= 2 && log' == log + Times(SignCall(name, challenge), n)
  {
  }

  /** Where along the script each phase of an enrolment ends. */
  lemma ScriptPrefix(log: seq<Call>, log1: seq<Call>, log': seq<Call>, name: string, challenge: Bytes, creates: nat,
                     signs: nat)
    requires log1 == log + [IsSupported] + [OpenCall(name)] + Times(CreateCall(name), creates)
    requires log' == log1 || log' == log1 + [PublicKeyCall(name)] ||
             log' == log1 + [PublicKeyCall(name)] + Times(SignCall(name, challenge), signs)
    ensures log <= log' <= log + EnrollScript(name, challenge, creates, signs)
    ensures log1 + [PublicKeyCall(name)] + Times(SignCall(name, challenge), signs) + [AttestCall(name)]
         == log + EnrollScript(name, challenge, creates, signs)
  {
  }

  lemma OpenOrCreateCalls(o: Oracle, log: seq<Call>, cfg: HelloConfig, name: string)
    ensures var log' := OpenOrCreateRun(o, log, cfg, name).0;
            var n := |log'| - |log| - 1;
            && 0 <= n <= 2
            && log' == log + [OpenCall(name)] + Times(CreateCall(name), n)
            && (n > 0 ==> cfg.allowCreate && o(log + [OpenCall(name)]).status == Ok(KcmStatus.NotFound))
  {
  }

  /** Success of either operation means a signature that verifies under the key in the slot. */
  lemma SuccessIsVerified(o: Oracle, log: seq<Call>, sc: Scheme, cfg: HelloConfig, vid: VaultId, allowUi: bool,
                          challenge: Bytes, params: SlotParams)
    ensures var r := EnrollRun(o, log, sc, cfg, vid, allowUi, challenge).1;
            r.Ok? ==>
              && r.value.0.HelloParams?
              && r.value.0.credName == CredName(vid)
              && r.value.0.challenge == challenge
              && sc.verify(r.value.0.spki, challenge, r.value.1)
    ensures var r := OpenRun(o, log, sc, cfg, allowUi, params).1;
            r.Ok? ==> params.HelloParams? && sc.verify(params.spki, params.challenge, r.value)
  {
  }

  /**
   * Whatever two credential APIs answer, an `open` that succeeds on the params of an `enroll` returns the
   * very secret that `enroll` returned; so the slot sealed with it opens, to the sealed DEK and no other.
   */
  lemma OpenReturnsEnrolledSecret(
    o: Oracle, log: seq<Call>, cfg: HelloConfig, vid: VaultId, allowUi: bool, challenge: Bytes,
    o': Oracle, log': seq<Call>, cfg': HelloConfig, allowUi': bool,
    sc: Scheme, id: Byte, slotLabel: string, salt: Bytes, nonce: Bytes, env: Envelope, dek: Dek)
    requires UniqueSignatures(sc)
    requires EnrollRun(o, log, sc, cfg, vid, allowUi, challenge).1.Ok?
    requires var (params, sig) := EnrollRun(o, log, sc, cfg, vid, allowUi, challenge).1.value;
             && OpenRun(o', log', sc, cfg', allowUi', params).1.Ok?
             && WrapSlot(id, slotLabel, params, SignatureIkm(sig), salt, nonce, env, vid, dek).Ok?
    ensures var (params, sig) := EnrollRun(o, log, sc, cfg, vid, allowUi, challenge).1.value;
            var tried := OpenRun(o', log', sc, cfg', allowUi', params).1.value;
            var slot := WrapSlot(id, slotLabel, params, SignatureIkm(sig), salt, nonce, env, vid, dek).value;
            && tried == sig
            && UnwrapSlot(slot, SignatureIkm(tried), env, vid) == Ok(dek)
  {
    var (params, sig) := EnrollRun(o, log, sc, cfg, vid, allowUi, challenge).1.value;
    SuccessIsVerified(o, log, sc, cfg, vid, allowUi, challenge, params);
    SuccessIsVerified(o', log', sc, cfg', vid, allowUi', challenge, params);
    var slot := WrapSlot(id, slotLabel, params, SignatureIkm(sig), salt, nonce, env, vid, dek).value;
    UnwrapIffBound(id, slotLabel, params, SignatureIkm(sig), salt, nonce, env, vid, dek, slot, SignatureIkm(sig), env,
                   vid);
  }

  // ---------------------------------------------------------------------------
  // For an API that keeps credentials faithfully
  // ---------------------------------------------------------------------------

  /** What one call does to the stored credentials; a key it makes is numbered `number`. */
  function KeysStep(keys: map<string, nat>, number: nat, c: Call): map<string, nat> {
    match c
    case CreateCall(name) => if name in keys then keys else keys[name := number]
    case DeleteCall(name) => keys - {name}
    case _ => keys
  }

  /** The credentials after a log of calls. */
  function KeysAfter(keys: map<string, nat>, first: nat, log: seq<Call>): map<string, nat> {
    if log == [] then keys
    else
      var n := |log| - 1;
      KeysStep(KeysAfter(keys, first, log[..n]), first + n, log[n])
  }

  /** A credential store as the in-memory reference of the tests keeps it. */
  function HonestReply(keys: map<string, nat>, first: nat, sc: Scheme, log: seq<Call>): Reply {
    var silent := Reply(Ok(true), Ok(Success), Ok((KcmStatus.NotFound, [])),
                        Err(AuthUnavailable("credential not found")), Ok(true), Ok(()));
    if log == [] then silent
    else
      var n := |log| - 1;
      var before := KeysAfter(keys, first, log[..n]);
      match log[n]
      case OpenCall(name) => silent.(status := Ok(if name in before then Success else KcmStatus.NotFound))
      case CreateCall(name) => silent.(status := Ok(if name in before then CredentialAlreadyExists else Success))
      case SignCall(name, challenge) =>
        if name in before then silent.(signed := Ok((Success, sc.sign(before[name], challenge)))) else silent
      case PublicKeyCall(name) => if name in before then silent.(key := Ok(sc.publicKey(before[name]))) else silent
      case _ => silent
  }

  function Honest(keys: map<string, nat>, first: nat, sc: Scheme): Oracle {
    log => HonestReply(keys, first, sc, log)
  }

  lemma KeysSnoc(keys: map<string, nat>, first: nat, log: seq<Call>, c: Call)
    ensures KeysAfter(keys, first, log + [c]) == KeysStep(KeysAfter(keys, first, log), first + |log|, c)
    ensures (log + [c])[..|log|] == log && (log + [c])[|log|] == c
  {
  }

  lemma HonestOpenOrCreate(keys: map<string, nat>, first: nat, sc: Scheme, log: seq<Call>, cfg: HelloConfig,
                           name: string)
    requires cfg.allowCreate
    ensures var (log', r) := OpenOrCreateRun(Honest(keys, first, sc), log, cfg, name);
            var before, after := KeysAfter(keys, first, log), KeysAfter(keys, first, log');
            && r == Ok(name !in before)
            && name in after
            && after == (if name in before then before else before[name := after[name]])
  {
    KeysSnoc(keys, first, log, OpenCall(name));
    KeysSnoc(keys, first, log + [OpenCall(name)], CreateCall(name));
  }

  lemma HonestSign(keys: map<string, nat>, first: nat, sc: Scheme, log: seq<Call>, name: string, challenge: Bytes)
    requires Lawful(sc) && name in KeysAfter(keys, first, log)
    ensures var k := KeysAfter(keys, first, log)[name];
            var (log', r) := SignVerifiedRun(Honest(keys, first, sc), log, sc, name, challenge, sc.publicKey(k));
            && r == Ok(sc.sign(k, challenge))
            && KeysAfter(keys, first, log') == KeysAfter(keys, first, log)
  {
    KeysSnoc(keys, first, log, SignCall(name, challenge));
  }

  /** The public key of a stored credential is read without touching the store, and so is its attestation. */
  lemma HonestLook(keys: map<string, nat>, first: nat, sc: Scheme, log: seq<Call>, name: string)
    requires name in KeysAfter(keys, first, log)
    ensures var now := KeysAfter(keys, first, log);
            && KeysAfter(keys, first, log + [PublicKeyCall(name)]) == now
            && Honest(keys, first, sc)(log + [PublicKeyCall(name)]).key == Ok(sc.publicKey(now[name]))
            && KeysAfter(keys, first, log + [AttestCall(name)]) == now
            && Honest(keys, first, sc)(log + [AttestCall(name)]).attested == Ok(true)
  {
    KeysSnoc(keys, first, log, PublicKeyCall(name));
    KeysSnoc(keys, first, log, AttestCall(name));
  }

  lemma HonestSupport(keys: map<string, nat>, first: nat, sc: Scheme, log: seq<Call>)
    ensures KeysAfter(keys, first, log + [IsSupported]) == KeysAfter(keys, first, log)
    ensures Honest(keys, first, sc)(log + [IsSupported]).supported == Ok(true)
  {
  }

  /**
   * Over a faithful store enrolling succeeds, makes a key only when there was none, leaves every other
   * credential alone and returns the signature of the stored key under its own public key.
   */
  lemma HonestEnroll(keys: map<string, nat>, first: nat, sc: Scheme, log: seq<Call>, cfg: HelloConfig, vid: VaultId,
                     challenge: Bytes)
    requires Lawful(sc) && cfg.allowCreate && cfg.sessionInteractive
    ensures var (log', r) := EnrollRun(Honest(keys, first, sc), log, sc, cfg, vid, true, challenge);
            var before, after := KeysAfter(keys, first, log), KeysAfter(keys, first, log');
            var name := CredName(vid);
            && r.Ok?
            && name in after
            && after == (if name in before then before else before[name := after[name]])
            && r.value == (HelloParams(name, challenge, sc.publicKey(after[name]), cfg.dpapi, true),
                           sc.sign(after[name], challenge))
  {
    var o := Honest(keys, first, sc);
    var name := CredName(vid);
    HonestSupport(keys, first, sc, log);
    var l1 := log + [IsSupported];
    HonestOpenOrCreate(keys, first, sc, l1, cfg, name);
    var l3 := OpenOrCreateRun(o, l1, cfg, name).0;
    HonestLook(keys, first, sc, l3, name);
    var l4 := l3 + [PublicKeyCall(name)];
    HonestSign(keys, first, sc, l4, name, challenge);
    var l5 := SignVerifiedRun(o, l4, sc, name, challenge, o(l4).key.value).0;
    HonestLook(keys, first, sc, l5, name);
  }

  /** Over a faithful store a slot opens exactly while the credential behind it is the enrolled key. */
  lemma HonestOpenIff(keys: map<string, nat>, first: nat, sc: Scheme, log: seq<Call>, cfg: HelloConfig,
                      params: SlotParams, k: nat)
    requires Lawful(sc) && cfg.sessionInteractive
    requires params.HelloParams? && params.spki == sc.publicKey(k) && |params.challenge| == CHALLENGE_LEN
    ensures var r := OpenRun(Honest(keys, first, sc), log, sc, cfg, true, params).1;
            var now := KeysAfter(keys, first, log);
            && (params.credName !in now ==> r.Err? && r.error.AuthUnavailable?)
            && (r.Ok? ==> r.value == sc.sign(k, params.challenge))
            && (params.credName in now ==>
                  (r.Ok? <==>
                    sc.verify(params.spki, params.challenge, sc.sign(now[params.credName], params.challenge))))
            && (params.credName in now && now[params.credName] == k ==> r == Ok(sc.sign(k, params.challenge)))
  {
    var l1 := log + [OpenCall(params.credName)];
    KeysSnoc(keys, first, log, OpenCall(params.credName));
    KeysSnoc(keys, first, l1, SignCall(params.credName, params.challenge));
  }

  lemma {:induction false} HexInjective(a: Bytes, b: Bytes)
    requires |a| == |b| && HexOf(a) == HexOf(b)
    ensures a == b
  {
    if a != [] {
      var x, y := HexOf(a), HexOf(b);
      assert x[0] == HEX[a[0] / 16] && x[1] == HEX[a[0] % 16];
      assert y[0] == HEX[b[0] / 16] && y[1] == HEX[b[0] % 16];
      assert x[2..] == HexOf(a[1..]) && y[2..] == HexOf(b[1..]);
      HexInjective(a[1..], b[1..]);
      HexDigitInjective(a[0] / 16, b[0] / 16);
      HexDigitInjective(a[0] % 16, b[0] % 16);
      assert a == [a[0]] + a[1..] && b == [b[0]] + b[1..];
    }
  }

  lemma HexDigitInjective(i: nat, j: nat)
    requires i < 16 && j < 16 && HEX[i] == HEX[j]
    ensures i == j
  {
  }

  /** Different vaults never share a credential. */
  lemma CredNameInjective(v: VaultId, v': VaultId)
    ensures CredName(v) == CredName(v') <==> v == v'
  {
    if CredName(v) == CredName(v') {
      assert CredName(v)[7..] == HexOf(v) && CredName(v')[7..] == HexOf(v');
      HexInjective(v, v');
    }
  }

  // ---------------------------------------------------------------------------
  // Names and codes
  // ---------------------------------------------------------------------------

  lemma {:induction false} HexAt(b: Bytes, i: nat)
    requires i < |b|
    ensures |HexOf(b)| == 2 * |b|
    ensures HexOf(b)[2 * i] == "0123456789abcdef"[b[i] / 16] && HexOf(b)[2 * i + 1] == "0123456789abcdef"[b[i] % 16]
  {
    assert HexOf(b) == [HEX[b[0] / 16], HEX[b[0] % 16]] + HexOf(b[1..]);
    if i > 0 { HexAt(b[1..], i - 1); } else if |b| > 1 { HexAt(b[1..], 0); }
  }

  /** The credential of a vault is called `wcm-v1-` and the 32 hexadecimal digits of the vault id. */
  lemma CredNameAt(vid: VaultId, i: nat)
    requires i < 16
    ensures |CredName(vid)| == 39 && CredName(vid)[..7] == "wcm-v1-"
    ensures CredName(vid)[7 + 2 * i] == "0123456789abcdef"[vid[i] / 16]
    ensures CredName(vid)[7 + 2 * i + 1] == "0123456789abcdef"[vid[i] % 16]
  {
    HexAt(vid, i);
  }

  lemma OneOfFour(text: string, codes: seq<string>)
    requires |codes| == 4
    ensures (exists i | 0 <= i < |codes| :: Contains(text, codes[i])) <==>
              || Occurs(text, codes[0]) || Occurs(text, codes[1]) || Occurs(text, codes[2]) || Occurs(text, codes[3])
  {
    ContainsIff(text, codes[0]);
    ContainsIff(text, codes[1]);
    ContainsIff(text, codes[2]);
    ContainsIff(text, codes[3]);
  }

  /** An error is worth a second attempt if and only if its text contains one of four codes. */
  lemma TransientIff(e: Error, text: string)
    requires text == e.Display()
    ensures IsTransient(e) <==>
              || Occurs(text, "0x8028008B") || Occurs(text, "0x80280095")
              || Occurs(text, "0x80280159") || Occurs(text, "0x80098046")
  {
    OneOfFour(text, TRANSIENT_HRESULTS);
  }
}
