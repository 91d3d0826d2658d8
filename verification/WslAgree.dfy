/**
 * The two scanners of the WSL shim read the same arguments (crates/wcm-cli/src/wsl_core.rs): when they
 * agree, and where they do not.
 */
module WslAgree {
  import opened Basics
  import opened WslArgs
  import opened WslSsh

  // ---------------------------------------------------------------------------
  // The translator's view of what the ssh parser has read
  // ---------------------------------------------------------------------------

  /** Met where an option may stand, the translator leaves `v` alone and goes on with the next argument. */
  predicate Inert(v: string) {
    && v != "--"
    && (IsOption(v) ==> if SplitOnce(v).Some? then !PathOpt(SplitOnce(v).value.0) else !Takes(Translator, v))
  }

  /** The token the translator makes of an inert value. */
  function ViewOf(v: string): Token {
    if !IsOption(v) then Positional(v)
    else
      match SplitOnce(v)
      case Some((o, x)) => Inline(o, x)
      case None => Flag(v)
  }

  /** The translator does not know that `-t`, `--lifetime` and `--ssh-add` take a value. */
  function View(t: Token): seq<Token> {
    if t.Split? && SshOnly(t.opt) then [Flag(t.opt), ViewOf(t.v)] else [t]
  }

  function Views(toks: seq<Token>): seq<Token> {
    if toks == [] then [] else View(toks[0]) + Views(toks[1..])
  }

  predicate InertValues(toks: seq<Token>) {
    forall i | 0 <= i < |toks| :: toks[i].Split? && SshOnly(toks[i].opt) ==> Inert(toks[i].v)
  }

  /** A token that `parse_ssh_action` does not give up on. */
  predicate Known(t: Token) { Take(EMPTY_SCAN, t).Some? }

  lemma {:induction false} AllKnown(s: Scan, toks: seq<Token>)
    requires TakeAll(s, toks).Some?
    ensures forall i | 0 <= i < |toks| :: Known(toks[i])
    decreases |toks|
  {
    if toks != [] {
      assert Known(toks[0]);
      AllKnown(Take(s, toks[0]).value, toks[1..]);
      forall i | 0 <= i < |toks| ensures Known(toks[i]) { assert i > 0 ==> toks[i] == toks[1..][i - 1]; }
    }
  }

  lemma PlainFlagsFit(a: string)
    requires a in [JSON, QUIET, LONG_QUIET, NO_INPUT, LIFETIME, "--lifetime", SSH_ADD]
    ensures Fits(Translator, Flag(a), false)
  {
  }

  lemma ViewOfFits(v: string)
    requires Inert(v)
    ensures Fits(Translator, ViewOf(v), false) && ArgsOf(ViewOf(v)) == [v]
  {
  }

  lemma ViewFits(t: Token, last: bool)
    requires Known(t) && Fits(SshParser, t, last) && (t.Split? && SshOnly(t.opt) ==> Inert(t.v))
    ensures forall i | 0 <= i < |View(t)| :: Fits(Translator, View(t)[i], false)
    ensures Unlex(View(t)) == ArgsOf(t)
  {
    UnlexOne(t);
    if t.Split? && SshOnly(t.opt) {
      PlainFlagsFit(t.opt);
      ViewOfFits(t.v);
      UnlexConcat([Flag(t.opt)], [ViewOf(t.v)]);
      UnlexOne(Flag(t.opt));
      UnlexOne(ViewOf(t.v));
      assert View(t) == [Flag(t.opt)] + [ViewOf(t.v)];
    } else if t.Flag? {
      PlainFlagsFit(t.a);
    }
  }

  lemma {:induction false} ViewsFit(toks: seq<Token>)
    requires WellFormed(SshParser, toks) && InertValues(toks) && forall i | 0 <= i < |toks| :: Known(toks[i])
    ensures forall i | 0 <= i < |Views(toks)| :: Fits(Translator, Views(toks)[i], false)
    ensures Unlex(Views(toks)) == Unlex(toks)
  {
    if toks != [] {
      WellFormedTail(SshParser, toks);
      ViewFits(toks[0], toks[1..] == []);
      ViewsFit(toks[1..]);
      UnlexConcat(View(toks[0]), Views(toks[1..]));
    }
  }

  lemma FitsAnywhere(t: Token, last: bool)
    requires Fits(Translator, t, false)
    ensures Fits(Translator, t, last)
  {
  }

  /** What the translator reads. */
  lemma TranslatorReads(args: Args)
    requires ParseSsh(args).Some? && InertValues(Lex(SshParser, args))
    ensures Lex(Translator, args) == Views(Lex(SshParser, args))
  {
    var toks := Lex(SshParser, args);
    LexSound(SshParser, args);
    AllKnown(EMPTY_SCAN, toks);
    ViewsFit(toks);
    forall i | 0 <= i < |Views(toks)| ensures Fits(Translator, Views(toks)[i], i == |Views(toks)| - 1) {
      FitsAnywhere(Views(toks)[i], i == |Views(toks)| - 1);
    }
    LexUnlex(Translator, Views(toks));
  }

  // ---------------------------------------------------------------------------
  // Translating without a positional path
  // ---------------------------------------------------------------------------

  /** Every token translated on its own. */
  function TrAll(tw: ToWindows, toks: seq<Token>): (r: seq<Token>)
    ensures |r| == |toks|
  {
    seq(|toks|, i requires 0 <= i < |toks| => TrToken(tw, toks[i], []))
  }

  lemma TrAllCons(tw: ToWindows, t: Token, rest: seq<Token>)
    ensures TrAll(tw, [t] + rest) == [TrToken(tw, t, [])] + TrAll(tw, rest)
  {
  }

  /** If the first positional is not `import`, no positional is a path. */
  lemma {:induction false} NoImport(tw: ToWindows, toks: seq<Token>, before: Args)
    requires before != [] ==> before[0] != IMPORT
    requires before == [] && Positionals(toks) != [] ==> Positionals(toks)[0] != IMPORT
    ensures TrTokens(tw, toks, before) == TrAll(tw, toks)
  {
    if toks != [] {
      var t, rest := toks[0], toks[1..];
      NoImport(tw, rest, Past(t, before));
      assert TrToken(tw, t, before) == TrToken(tw, t, []);
      assert toks == [t] + rest;
      TrAllCons(tw, t, rest);
    }
  }

  lemma TrAllConcat(tw: ToWindows, a: seq<Token>, b: seq<Token>)
    ensures TrAll(tw, a + b) == TrAll(tw, a) + TrAll(tw, b)
  {
  }

  /** The view of a translated token is the translated view. */
  lemma ViewCommutes(tw: ToWindows, t: Token)
    requires t.Split? && SshOnly(t.opt) ==> Inert(t.v)
    ensures TrAll(tw, View(t)) == View(TrToken(tw, t, []))
  {
  }

  lemma {:induction false} ViewsCommute(tw: ToWindows, toks: seq<Token>)
    requires InertValues(toks)
    ensures TrAll(tw, Views(toks)) == Views(TrAll(tw, toks))
  {
    if toks != [] {
      var rest := toks[1..];
      ViewCommutes(tw, toks[0]);
      ViewsCommute(tw, rest);
      TrAllConcat(tw, View(toks[0]), Views(rest));
      assert TrAll(tw, toks)[1..] == TrAll(tw, rest);
    }
  }

  lemma TrAllSame(tw: ToWindows, toks: seq<Token>)
    requires WellFormed(SshParser, toks)
    requires InertValues(toks) && forall i | 0 <= i < |toks| :: Known(toks[i])
    ensures WellFormed(SshParser, TrAll(tw, toks)) && InertValues(TrAll(tw, toks))
    ensures forall i | 0 <= i < |toks| :: Known(TrAll(tw, toks)[i])
  {
  }

  // ---------------------------------------------------------------------------
  // Agreement
  // ---------------------------------------------------------------------------

  lemma TakeTranslatedOne(tw: ToWindows, s: Scan, globals: Args, t: Token)
    requires Take(s, t).Some?
    ensures Take(s.(globals := globals), TrToken(tw, t, []))
         == Some(Take(s, t).value.(globals := globals + Unlex(TrAll(tw, GlobalOf(t)))))
  {
    if (t.Split? || t.Inline?) && SshOnly(t.opt) { PlainFlagsFit(t.opt); }
    var g := GlobalOf(t);
    if g == [] {
      assert globals + [] == globals;
    } else {
      assert TrAll(tw, g) == [TrToken(tw, g[0], [])];
      UnlexOne(TrToken(tw, g[0], []));
    }
  }

  /** Scanning translated tokens gathers the same, with the globals translated. */
  lemma {:induction false} TakeTranslated(tw: ToWindows, s: Scan, globals: Args, toks: seq<Token>)
    requires TakeAll(s, toks).Some?
    ensures TakeAll(s.(globals := globals), TrAll(tw, toks))
         == Some(TakeAll(s, toks).value.(globals := globals + Unlex(TrAll(tw, GlobalsOf(toks)))))
    decreases |toks|
  {
    if toks == [] {
      assert globals + Unlex(TrAll(tw, GlobalsOf(toks))) == globals;
    } else {
      var t, rest := toks[0], toks[1..];
      var g1 := globals + Unlex(TrAll(tw, GlobalOf(t)));
      TakeTranslatedOne(tw, s, globals, t);
      TakeTranslated(tw, Take(s, t).value, g1, rest);
      GlobalsGlue(tw, globals, GlobalOf(t), GlobalsOf(rest));
      TrAllCons(tw, t, rest);
      assert toks == [t] + rest;
      TakeCons(s.(globals := globals), TrToken(tw, t, []), TrAll(tw, rest));
    }
  }

  lemma GlobalsGlue(tw: ToWindows, globals: Args, a: seq<Token>, b: seq<Token>)
    ensures globals + Unlex(TrAll(tw, a)) + Unlex(TrAll(tw, b)) == globals + Unlex(TrAll(tw, a + b))
  {
    TrAllConcat(tw, a, b);
    UnlexConcat(TrAll(tw, a), TrAll(tw, b));
  }

  lemma {:induction false} GlobalsHaveNoPositionals(g: seq<Token>)
    requires forall i | 0 <= i < |g| :: IsGlobal(g[i])
    ensures Positionals(g) == []
  {
    if g != [] { GlobalsHaveNoPositionals(g[1..]); }
  }

  /** The forwarded globals, translated as an argument list of their own. */
  lemma GlobalsTranslated(tw: ToWindows, g: seq<Token>)
    requires forall i | 0 <= i < |g| :: IsGlobal(g[i])
    ensures Translated(tw, Unlex(g)) == Unlex(TrAll(tw, g))
  {
    GlobalsWellFormed(g);
    LexUnlex(Translator, g);
    GlobalsHaveNoPositionals(g);
    NoImport(tw, g, []);
  }

  /**
   * The values written apart from `-t`, `--lifetime` and `--ssh-add` mean nothing to the translator, and
   * none that comes before `ssh` is the word `import`.
   */
  ghost predicate Harmless(args: Args) {
    var toks := Lex(SshParser, args);
    InertValues(toks) && (Positionals(Views(toks)) == [] || Positionals(Views(toks))[0] != IMPORT)
  }

  /** The translation is, token for token in the ssh parser's own reading, that of each token alone. */
  lemma TranslatedTokens(tw: ToWindows, args: Args)
    requires ParseSsh(args).Some? && Harmless(args)
    ensures Lex(SshParser, Translated(tw, args)) == TrAll(tw, Lex(SshParser, args))
  {
    var toks := Lex(SshParser, args);
    LexSound(SshParser, args);
    AllKnown(EMPTY_SCAN, toks);
    TranslatorReads(args);
    NoImport(tw, Views(toks), []);
    ViewsCommute(tw, toks);
    TrAllSame(tw, toks);
    ViewsFit(TrAll(tw, toks));
    LexUnlex(SshParser, TrAll(tw, toks));
  }

  /** Parsing after translating gives the same action as translating the forwarded globals after parsing. */
  lemma ScannersAgree(tw: ToWindows, args: Args)
    requires ParseSsh(args).Some? && Harmless(args)
    ensures var act := ParseSsh(args).value;
            ParseSsh(Translated(tw, args)) == Some(act.(globals := Translated(tw, act.globals)))
  {
    var toks := Lex(SshParser, args);
    var g := GlobalsOf(toks);
    ParsedFrom(args);
    TranslatedTokens(tw, args);
    TakeTranslated(tw, EMPTY_SCAN, [], toks);
    GlobalsTranslated(tw, g);
    NothingBefore(Unlex(TrAll(tw, g)));
    ConcludeGlobals(TakeAll(EMPTY_SCAN, toks).value, Translated(tw, Unlex(g)));
  }

  lemma ConcludeGlobals(s: Scan, globals: Args)
    requires Conclude(s).Some?
    ensures Conclude(s.(globals := globals)) == Some(Conclude(s).value.(globals := globals))
  {
  }

  /** No such value is written apart before `ssh`, and none begins with a dash. */
  ghost predicate Ordinary(args: Args) {
    var toks := Lex(SshParser, args);
    forall i | 0 <= i < |toks| :: toks[i].Split? && SshOnly(toks[i].opt) ==>
      Positionals(toks[..i]) != [] && (toks[i].v == "" || toks[i].v[0] != '-')
  }

  lemma TailOfPrefix(toks: seq<Token>, i: nat)
    requires i < |toks|
    ensures toks[..i + 1][1..] == toks[1..][..i]
  {
  }

  lemma {:induction false} OrdinaryViews(toks: seq<Token>)
    requires Positionals(toks) != []
    requires forall i | 0 <= i < |toks| :: toks[i].Split? && SshOnly(toks[i].opt) ==> Positionals(toks[..i]) != []
    ensures Positionals(Views(toks)) != [] && Positionals(Views(toks))[0] == Positionals(toks)[0]
  {
    var t, rest := toks[0], toks[1..];
    assert toks[..0] == [];
    assert !(t.Split? && SshOnly(t.opt));
    if !t.Positional? {
      forall i | 0 <= i < |rest| && rest[i].Split? && SshOnly(rest[i].opt) ensures Positionals(rest[..i]) != [] {
        assert toks[i + 1] == rest[i];
        TailOfPrefix(toks, i);
      }
      OrdinaryViews(rest);
    }
  }

  /** So the scanners agree on every ordinary action. */
  lemma OrdinaryActionsAgree(tw: ToWindows, args: Args)
    requires ParseSsh(args).Some? && Ordinary(args)
    ensures var act := ParseSsh(args).value;
            ParseSsh(Translated(tw, args)) == Some(act.(globals := Translated(tw, act.globals)))
  {
    var toks := Lex(SshParser, args);
    ParsedFrom(args);
    OrdinaryViews(toks);
    assert |SSH| == 3 && |IMPORT| == 6;
    ScannersAgree(tw, args);
  }

  // ---------------------------------------------------------------------------
  // Disagreement
  // ---------------------------------------------------------------------------

  lemma UnlexCons(t: Token, rest: seq<Token>)
    ensures Unlex([t] + rest) == ArgsOf(t) + Unlex(rest)
  {
  }

  /** Four tokens written and read again. */
  lemma LexFour(sc: Scanner, a: Token, b: Token, c: Token, d: Token)
    requires Fits(sc, a, false) && Fits(sc, b, false) && Fits(sc, c, false) && Fits(sc, d, true)
    ensures Lex(sc, ArgsOf(a) + (ArgsOf(b) + (ArgsOf(c) + ArgsOf(d)))) == [a] + ([b] + ([c] + [d]))
  {
    UnlexCons(a, [b] + ([c] + [d]));
    UnlexCons(b, [c] + [d]);
    UnlexCons(c, [d]);
    UnlexOne(d);
    LexUnlex(sc, [a] + ([b] + ([c] + [d])));
  }

  lemma TakeFour(s: Scan, a: Token, b: Token, c: Token, d: Token)
    requires Take(s, a).Some? && Take(Take(s, a).value, b).Some? && Take(Take(Take(s, a).value, b).value, c).Some?
    ensures TakeAll(s, [a] + ([b] + ([c] + [d]))) == Take(Take(Take(Take(s, a).value, b).value, c).value, d)
  {
    var s1 := Take(s, a).value;
    var s2 := Take(s1, b).value;
    var s3 := Take(s2, c).value;
    TakeCons(s, a, [b] + ([c] + [d]));
    TakeCons(s1, b, [c] + [d]);
    TakeCons(s2, c, [d]);
    TakeCons(s3, d, []);
    assert [d] + [] == [d];
  }

  /** `-t import ssh add NAME` adds a key; translated, its subcommand is taken for the file of `import`. */
  lemma ImportBeforeSsh(tw: ToWindows, name: string)
    requires !IsOption(name) && Tr(tw, SSH) != SSH && !IsOption(Tr(tw, SSH))
    ensures var args := [LIFETIME, IMPORT] + ([SSH] + ([ADD] + [name]));
            && ParseSsh(args) == Some(SshAction(Add, name, Some(IMPORT), None, [], false, false))
            && ParseSsh(Translated(tw, args)).None?
  {
    var a, b, c, d := Split(LIFETIME, IMPORT), Positional(SSH), Positional(ADD), Positional(name);
    var args := ArgsOf(a) + (ArgsOf(b) + (ArgsOf(c) + ArgsOf(d)));
    LexFour(SshParser, a, b, c, d);
    TakeFour(EMPTY_SCAN, a, b, c, d);
    assert |LIFETIME| == 2 && |VAULT| == 7 && |SLOT| == 6;
    ThreePositionals(EMPTY_SCAN.(lifetime := Some(IMPORT)), SSH, ADD, name);
    TranslatedImport(tw, name);
    var x := Positional(Tr(tw, SSH));
    LexFour(SshParser, a, x, c, d);
    TakeFour(EMPTY_SCAN, a, x, c, d);
    ThreePositionals(EMPTY_SCAN.(lifetime := Some(IMPORT)), Tr(tw, SSH), ADD, name);
  }

  lemma ThreePositionals(s: Scan, x: string, y: string, z: string)
    requires s.positionals == []
    ensures var s1 := Take(s, Positional(x)).value;
            var s2 := Take(s1, Positional(y)).value;
            Take(s2, Positional(z)) == Some(s.(positionals := [x, y, z]))
  {
    assert [] + [x] + [y] + [z] == [x, y, z];
  }

  lemma TranslatedImport(tw: ToWindows, name: string)
    requires !IsOption(name)
    ensures Translated(tw, [LIFETIME, IMPORT] + ([SSH] + ([ADD] + [name])))
         == [LIFETIME, IMPORT] + ([Tr(tw, SSH)] + ([ADD] + [name]))
  {
    var f, p, c, d := Flag(LIFETIME), Positional(IMPORT), Positional(ADD), Positional(name);
    UnlexFive(SSH, name);
    UnlexFive(Tr(tw, SSH), name);
    PlainFlagsFit(LIFETIME);
    LexUnlex(Translator, [f] + ([p] + ([Positional(SSH)] + ([c] + [d]))));
    TrImport(tw, name);
  }

  lemma UnlexFive(x: string, name: string)
    ensures Unlex([Flag(LIFETIME)]
                  + ([Positional(IMPORT)] + ([Positional(x)] + ([Positional(ADD)] + [Positional(name)]))))
         == [LIFETIME, IMPORT] + ([x] + ([ADD] + [name]))
  {
    var f, p, b, c, d := Flag(LIFETIME), Positional(IMPORT), Positional(x), Positional(ADD), Positional(name);
    UnlexCons(f, [p] + ([b] + ([c] + [d])));
    UnlexCons(p, [b] + ([c] + [d]));
    UnlexCons(b, [c] + [d]);
    UnlexCons(c, [d]);
    UnlexOne(d);
  }

  lemma TrCons(tw: ToWindows, t: Token, rest: seq<Token>, before: Args)
    ensures TrTokens(tw, [t] + rest, before) == [TrToken(tw, t, before)] + TrTokens(tw, rest, Past(t, before))
  {
  }

  lemma TrImport(tw: ToWindows, name: string)
    ensures var f, p, c, d := Flag(LIFETIME), Positional(IMPORT), Positional(ADD), Positional(name);
            TrTokens(tw, [f] + ([p] + ([Positional(SSH)] + ([c] + [d]))),
                     []) == [f] + ([p] + ([Positional(Tr(tw, SSH))] + ([c] + [d])))
  {
    var f, p, b, c, d := Flag(LIFETIME), Positional(IMPORT), Positional(SSH), Positional(ADD), Positional(name);
    TrCons(tw, f, [p] + ([b] + ([c] + [d])), []);
    TrCons(tw, p, [b] + ([c] + [d]), []);
    assert [] + [IMPORT] == [IMPORT] && [IMPORT] + [SSH] == [IMPORT, SSH];
    assert [IMPORT, SSH] + [ADD] == [IMPORT, SSH, ADD];
    TrCons(tw, b, [c] + [d], [IMPORT]);
    TrCons(tw, c, [d], [IMPORT, SSH]);
    TrCons(tw, d, [], [IMPORT, SSH, ADD]);
    assert [d] + [] == [d];
  }
}
