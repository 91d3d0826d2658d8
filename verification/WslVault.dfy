/**
 * The `--vault` option that the WSL shim adds for `WCM_VAULT` (crates/wcm-cli/src/wsl_core.rs): the quick
 * look for an option that is already there, against the real reading of the arguments.
 */
module WslVault {
  import opened Basics
  import opened Chars
  import opened WslArgs

  predicate IsVaultArg(a: string) { a == VAULT || StartsWith(a, VAULT + "=") }

  /** `has_vault_arg`: any argument before the first `--` that is or begins like the option. */
  function HasVaultArg(args: Args): bool {
    if args == [] || args[0] == "--" then false else IsVaultArg(args[0]) || HasVaultArg(args[1..])
  }

  /** The vault named by the environment, in the spelling of `wcm.exe`. */
  function EnvPath(v: string, tw: ToWindows): string {
    if LooksLikeWindowsPath(v) || tw(v).None? then v else tw(v).value
  }

  /** Whether the environment names a vault. */
  predicate EnvNamesVault(env: Option<string>) { env.Some? && env.value != "" }

  lemma EnvPathIs(v: string, tw: ToWindows)
    ensures WindowsForm(v) || tw(v) == None ==> EnvPath(v, tw) == v
    ensures !WindowsForm(v) && tw(v).Some? ==> EnvPath(v, tw) == tw(v).value
  {
    WindowsFormIff(v);
  }

  /** `build_windows_args` */
  function BuildWindowsArgs(args: Args, env: Option<string>, tw: ToWindows): Args {
    if !HasVaultArg(args) && EnvNamesVault(env) then [VAULT, EnvPath(env.value, tw)] + Translated(tw, args)
    else Translated(tw, args)
  }

  /** The option itself, as it is really read. */
  predicate IsVaultToken(t: Token) {
    match t
    case Flag(a) => a == VAULT
    case Split(o, _) => o == VAULT
    case Inline(o, _) => o == VAULT
    case _ => false
  }

  predicate NamesVault(toks: seq<Token>) { exists i | 0 <= i < |toks| :: IsVaultToken(toks[i]) }

  /**
   * Where the quick look and the real reading part: at the first value written apart that is `--`, where
   * the quick look stops, or that looks like the option, where it answers yes.
   */
  predicate QuickLookRight(toks: seq<Token>) {
    if toks == [] || IsVaultToken(toks[0]) then true
    else if toks[0].Split? && toks[0].v == "--" then !NamesVault(toks[1..])
    else if toks[0].Split? && IsVaultArg(toks[0].v) then NamesVault(toks[1..])
    else QuickLookRight(toks[1..])
  }

  lemma VaultArgOption(a: string)
    ensures IsVaultArg(a) ==> IsOption(a) && a != "--"
    ensures SplitOnce(a).None? ==> (IsVaultArg(a) <==> a == VAULT)
    ensures SplitOnce(a).Some? ==> (IsVaultArg(a) <==> SplitOnce(a).value.0 == VAULT)
  {
    var prefix := VAULT + "=";
    if StartsWith(a, prefix) {
      assert a == VAULT + "=" + a[|prefix|..];
      SplitJoined(VAULT, a[|prefix|..]);
      assert a[..8][0] == '-' && a[..8][2] == 'v';
    }
    if SplitOnce(a).Some? && SplitOnce(a).value.0 == VAULT {
      assert a == prefix + SplitOnce(a).value.1;
      assert a[..|prefix|] == prefix;
    }
    assert '=' !in VAULT;
  }

  lemma NamesVaultCons(t: Token, rest: seq<Token>)
    ensures NamesVault([t] + rest) <==> IsVaultToken(t) || NamesVault(rest)
  {
    var toks := [t] + rest;
    if IsVaultToken(t) { assert IsVaultToken(toks[0]); }
    if NamesVault(rest) {
      var i :| 0 <= i < |rest| && IsVaultToken(rest[i]);
      assert IsVaultToken(toks[i + 1]);
    }
  }

  /** The quick look answers what the arguments really say if and only if no value misleads it. */
  lemma {:induction false} HasVaultArgIff(args: Args)
    ensures (HasVaultArg(args) <==> NamesVault(Lex(Translator, args))) <==> QuickLookRight(Lex(Translator, args))
    decreases |args|
  {
    if args != [] && args[0] != "--" {
      var a, toks := args[0], Lex(Translator, args);
      var n := |ArgsOf(toks[0])|;
      VaultArgOption(a);
      assert toks[1..] == Lex(Translator, args[n..]);
      HasVaultArgIff(args[n..]);
      NamesVaultCons(toks[0], toks[1..]);
      assert toks == [toks[0]] + toks[1..];
      if toks[0].Split? {
        assert args[1..][0] == toks[0].v && args[1..][1..] == args[2..];
        VaultArgOption(toks[0].v);
      }
    } else if args != [] {
      assert !NamesVault([Tail(args)]);
      assert [Tail(args)][1..] == [];
    }
  }

  /** `--slot --vault` names no vault, yet the quick look says it does, and the one in the environment is dropped. */
  lemma VaultAsValue(env: string, tw: ToWindows)
    ensures var args := [SLOT, VAULT];
            && HasVaultArg(args) && !NamesVault(Lex(Translator, args))
            && BuildWindowsArgs(args, Some(env), tw) == Translated(tw, args)
  {
    var args := [SLOT, VAULT];
    assert args[1..] == [VAULT];
    assert IsVaultArg(args[1..][0]);
    VaultArgOption(SLOT);
    assert |SLOT| == 6 && |VAULT| == 7;
    assert Lex(Translator, args) == [Split(SLOT, VAULT)] + Lex(Translator, args[2..]);
    assert Lex(Translator, args) == [Split(SLOT, VAULT)];
  }

  lemma TranslationKeepsVault(tw: ToWindows, toks: seq<Token>)
    ensures NamesVault(TrTokens(tw, toks, [])) <==> NamesVault(toks)
  {
    TrTokensAt(tw, toks, []);
    var toks' := TrTokens(tw, toks, []);
    forall i | 0 <= i < |toks| ensures IsVaultToken(toks'[i]) <==> IsVaultToken(toks[i]) {
      assert toks'[i] == TrToken(tw, toks[i], [] + Positionals(toks[..i]));
    }
  }

  /** What `wcm.exe` reads: the user's arguments, translated, after the vault of the environment, if that is added. */
  lemma BuiltReads(args: Args, env: Option<string>, tw: ToWindows)
    requires YieldsWindowsPaths(tw)
    ensures var toks := TrTokens(tw, Lex(Translator, args), []);
            Lex(Translator, BuildWindowsArgs(args, env, tw)) ==
              (if !HasVaultArg(args) && EnvNamesVault(env) then [Split(VAULT, EnvPath(env.value, tw))] + toks else toks)
  {
    var toks := TrTokens(tw, Lex(Translator, args), []);
    LexSound(Translator, args);
    TrTokensTwice(tw, Lex(Translator, args), [], []);
    LexUnlex(Translator, toks);
    if EnvNamesVault(env) {
      var t := Split(VAULT, EnvPath(env.value, tw));
      assert Fits(Translator, t, toks == []);
      WellFormedCons(Translator, t, toks);
      assert ([t] + toks)[1..] == toks;
      LexUnlex(Translator, [t] + toks);
    }
  }

  /**
   * If the environment names a vault, `wcm.exe` reads the vault from one place, the option the user gave or
   * else the environment, if and only if no value misleads the quick look. An unset or empty variable adds nothing.
   */
  lemma VaultFromOnePlaceIff(args: Args, env: Option<string>, tw: ToWindows)
    requires YieldsWindowsPaths(tw)
    ensures env == None || env == Some("") ==> BuildWindowsArgs(args, env, tw) == Translated(tw, args)
    ensures env.Some? && env.value != "" ==>
              var toks := TrTokens(tw, Lex(Translator, args), []);
              var given := NamesVault(toks);
              && (given <==> NamesVault(Lex(Translator, args)))
              && (Lex(Translator, BuildWindowsArgs(args, env, tw)) ==
                    (if given then toks else [Split(VAULT, EnvPath(env.value, tw))] + toks)
                  <==> QuickLookRight(Lex(Translator, args)))
  {
    if EnvNamesVault(env) {
      var toks := TrTokens(tw, Lex(Translator, args), []);
      HasVaultArgIff(args);
      BuiltReads(args, env, tw);
      TranslationKeepsVault(tw, Lex(Translator, args));
      assert |toks| != |[Split(VAULT, EnvPath(env.value, tw))] + toks|;
    }
  }
}
