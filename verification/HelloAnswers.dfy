/**
 * Which answer of the credential API ends a Windows Hello operation how: a cancelled prompt is told apart from
 * a key or device that is not available (crates/wcm-hello/src/backend.rs).
 */
module HelloAnswers {
  import opened Basics
  import opened Slots
  import opened Hello

  /** The user said no. */
  predicate Cancels(answer: Result<KcmStatus>) {
    answer in [Err(AuthCancelled), Ok(UserCanceled), Ok(UserPrefersPassword)]
  }

  /** Key or device cannot be used now. */
  predicate Unusable(answer: Result<KcmStatus>) {
    || (answer.Err? && answer.error.AuthUnavailable?)
    || answer in [Ok(KcmStatus.NotFound), Ok(SecurityDeviceLocked), Ok(CredentialAlreadyExists)]
    || (answer.Ok? && answer.value.UnknownError?)
  }

  /** What a run heard last from the API: the answer to the last call of its log. */
  function Heard(o: Oracle, log: seq<Call>): Result<KcmStatus>
    requires log != []
  {
    match log[|log| - 1]
    case OpenCall(_) => o(log).status
    case CreateCall(_) => o(log).status
    case SignCall(_, _) => if o(log).signed.Err? then Err(o(log).signed.error) else Ok(o(log).signed.value.0)
    case PublicKeyCall(_) => if o(log).key.Err? then Err(o(log).key.error) else Ok(Success)
    case IsSupported =>
      if o(log).supported.Err? then Err(o(log).supported.error)
      else Ok(if o(log).supported.value then Success else KcmStatus.NotFound)
    case _ => Ok(Success)
  }

  /** Every answer is one of these: yes, no, not now, or another error. */
  lemma AnswersApart(answer: Result<KcmStatus>)
    ensures answer == Ok(Success) || Cancels(answer) || Unusable(answer) || answer.Err?
    ensures !(Cancels(answer) && Unusable(answer))
  {
  }

  predicate MayPrompt(cfg: HelloConfig, allowUi: bool) { cfg.sessionInteractive && allowUi }

  /** How an operation ends that heard `answer` and not success. */
  ghost predicate EndsWith<T>(r: Result<T>, answer: Result<KcmStatus>) {
    && r.Err?
    && (Cancels(answer) ==> r.error == AuthCancelled)
    && (Unusable(answer) ==> r.error.AuthUnavailable?)
    && (answer.Err? ==> r.error == answer.error)
  }

  /** How a signature request ends: with the signature exactly if it was given and verifies. */
  lemma SignTable(o: Oracle, log: seq<Call>, sc: Scheme, name: string, challenge: Bytes, spki: Bytes)
    ensures var (log', r) := SignVerifiedRun(o, log, sc, name, challenge, spki);
            && log' != [] && log'[|log'| - 1] == SignCall(name, challenge)
            && (Heard(o, log') != Ok(Success) ==> EndsWith(r, Heard(o, log')))
            && (Heard(o, log') == Ok(Success) ==>
                  var sig := o(log').signed.value.1;
                  if sc.verify(spki, challenge, sig) then r == Ok(sig) else r.Err? && r.error.Integrity?)
  {
  }

  /**
   * `open` case by case: nothing is asked when no prompt may be shown or the slot is not a Hello slot with a
   * challenge of the right length; otherwise the credential is asked for first, and if that is there, for a
   * signature.
   */
  lemma OpenTable(o: Oracle, log: seq<Call>, sc: Scheme, cfg: HelloConfig, allowUi: bool, params: SlotParams)
    ensures var (log', r) := OpenRun(o, log, sc, cfg, allowUi, params);
            && (!params.HelloParams? ==> log' == log && r.Err? && r.error.Invalid?)
            && (params.HelloParams? && !MayPrompt(cfg, allowUi) ==> log' == log && r.Err? && r.error.AuthUnavailable?)
            && (params.HelloParams? && MayPrompt(cfg, allowUi) && |params.challenge| != 32 ==>
                  log' == log && r.Err? && r.error.Integrity?)
            && (params.HelloParams? && MayPrompt(cfg, allowUi) && |params.challenge| == 32 ==>
                  var tried := log + [OpenCall(params.credName)];
                  if Heard(o, tried) != Ok(Success) then log' == tried && EndsWith(r, Heard(o, tried))
                  else (log', r) == SignVerifiedRun(o, tried, sc, params.credName, params.challenge, params.spki))
  {
  }

  /** `open` is cancelled if and only if it asked, and its last call was answered by a cancellation. */
  lemma OpenCancelledIff(o: Oracle, log: seq<Call>, sc: Scheme, cfg: HelloConfig, allowUi: bool, params: SlotParams)
    ensures var (log', r) := OpenRun(o, log, sc, cfg, allowUi, params);
            r == Err(AuthCancelled) <==> log' != log && log' != [] && Cancels(Heard(o, log'))
  {
    OpenTable(o, log, sc, cfg, allowUi, params);
    if params.HelloParams? {
      var tried := log + [OpenCall(params.credName)];
      SignTable(o, tried, sc, params.credName, params.challenge, params.spki);
      SignCalls(o, tried, sc, params.credName, params.challenge, params.spki);
    }
  }

  /** `open` reports an unavailable slot if and only if no prompt may be shown, or its last call was answered so. */
  lemma OpenUnavailableIff(o: Oracle, log: seq<Call>, sc: Scheme, cfg: HelloConfig, allowUi: bool, params: SlotParams)
    requires params.HelloParams?
    ensures var (log', r) := OpenRun(o, log, sc, cfg, allowUi, params);
            r.Err? && r.error.AuthUnavailable? <==>
              !MayPrompt(cfg, allowUi) || (log' != log && log' != [] && Unusable(Heard(o, log')))
  {
    OpenTable(o, log, sc, cfg, allowUi, params);
    var tried := log + [OpenCall(params.credName)];
    SignTable(o, tried, sc, params.credName, params.challenge, params.spki);
    SignCalls(o, tried, sc, params.credName, params.challenge, params.spki);
  }

  /**
   * Opening or creating the credential: it is there, or it is missing, may be made, and is made (or has been in
   * the meantime); anything else ends the operation.
   */
  lemma ObtainTable(o: Oracle, log: seq<Call>, cfg: HelloConfig, name: string)
    ensures var (log', r) := OpenOrCreateRun(o, log, cfg, name);
            var tried := log + [OpenCall(name)];
            && log' != []
            && (Heard(o, tried) == Ok(Success) ==> log' == tried && r == Ok(false))
            && (Heard(o, tried) == Ok(KcmStatus.NotFound) && cfg.allowCreate ==>
                  && log'[|log'| - 1] == CreateCall(name)
                  && (Heard(o, log') == Ok(Success) ==> r == Ok(true))
                  && (Heard(o, log') == Ok(CredentialAlreadyExists) ==> r == Ok(false))
                  && (Heard(o, log') !in [Ok(Success), Ok(CredentialAlreadyExists)] ==> EndsWith(r, Heard(o, log'))))
            && (Heard(o, tried) != Ok(Success) && (Heard(o, tried) != Ok(KcmStatus.NotFound) || !cfg.allowCreate) ==>
                  log' == tried && EndsWith(r, Heard(o, tried)))
  {
  }

  /**
   * How an enrolment ends, by its last call: at once without a prompt; with the slot's params after the
   * attestation, which may say no or fail; and otherwise as the last answer says.
   */
  lemma EnrollTable(o: Oracle, log: seq<Call>, sc: Scheme, cfg: HelloConfig, vid: VaultId, allowUi: bool,
                    challenge: Bytes)
    ensures var (log', r) := EnrollRun(o, log, sc, cfg, vid, allowUi, challenge);
            if !MayPrompt(cfg, allowUi) then log' == log && r.Err? && r.error.AuthUnavailable?
            else
              && log' != log && log' != []
              && (r.Ok? <==> log'[|log'| - 1] == AttestCall(CredName(vid)))
              && (r.Ok? ==>
                    && r.value.0.HelloParams? && r.value.0.dpapi == cfg.dpapi
                    && (r.value.0.hwBacked <==> o(log').attested == Ok(true)))
              && (r.Err? && !(r.error.Integrity? && Heard(o, log') == Ok(Success)) ==> EndsWith(r, Heard(o, log')))
              && (r.Err? && Heard(o, log') == Ok(Success) ==>
                    log'[|log'| - 1] == SignCall(CredName(vid), challenge) && r.error.Integrity?)
  {
    if MayPrompt(cfg, allowUi) {
      var name := CredName(vid);
      var asked := log + [IsSupported];
      if o(asked).supported == Ok(true) {
        ObtainTable(o, asked, cfg, name);
        OpenOrCreateCalls(o, asked, cfg, name);
        var (log1, created) := OpenOrCreateRun(o, asked, cfg, name);
        var log2 := log1 + [PublicKeyCall(name)];
        if created.Ok? && o(log2).key.Ok? {
          SignTable(o, log2, sc, name, challenge, o(log2).key.value);
          SignCalls(o, log2, sc, name, challenge, o(log2).key.value);
        }
      }
    }
  }

  /** An enrolment is cancelled if and only if it asked, and its last call was answered by a cancellation. */
  lemma EnrollCancelledIff(o: Oracle, log: seq<Call>, sc: Scheme, cfg: HelloConfig, vid: VaultId, allowUi: bool,
                           challenge: Bytes)
    ensures var (log', r) := EnrollRun(o, log, sc, cfg, vid, allowUi, challenge);
            r == Err(AuthCancelled) <==> log' != log && log' != [] && Cancels(Heard(o, log'))
  {
    EnrollTable(o, log, sc, cfg, vid, allowUi, challenge);
  }
}
