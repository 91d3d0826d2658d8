/**
 * Exactly when the two scanners of the WSL shim agree on an ssh action, whatever the path translation is
 * (crates/wcm-cli/src/wsl_core.rs).
 *
 * Each scanner marks the argument positions it takes for paths. They agree for every translation if and
 * only if the marks are the same wherever the parsed action depends on the position.
 */
module WslExact {
  import opened Basics
  import opened WslArgs
  import opened WslSsh
  import opened WslAgree

  /** What a translation does to one argument: nothing, replace it, or replace what follows its `=`. */
  datatype Mark = Keep | Whole | InPart

  /** A value that some translation changes. */
  predicate Movable(v: string) { v != "-" && v != "" && !LooksLikeWindowsPath(v) }

  function MarksOf(t: Token, before: Args): (m: seq<Mark>)
    ensures |m| == |ArgsOf(t)|
  {
    match t
    case Flag(_) => [Keep]
    case Split(o, v) => [Keep, if PathOpt(o) && Movable(v) then Whole else Keep]
    case Inline(o, v) => [if PathOpt(o) && Movable(v) then InPart else Keep]
    case Positional(v) => [if before == [IMPORT] && Movable(v) then Whole else Keep]
    case Tail(rest) => seq(|rest|, _ => Keep)
  }

  /** The marks of the translator: path options, and the positional after a lone `import`. */
  function Marks(toks: seq<Token>, before: Args): (m: seq<Mark>)
    ensures |m| == |Unlex(toks)|
  {
    if toks == [] then [] else MarksOf(toks[0], before) + Marks(toks[1..], Past(toks[0], before))
  }

  function Moved(tw: ToWindows, m: Mark, a: string): string {
    match m
    case Keep => a
    case Whole => Tr(tw, a)
    case InPart => if SplitOnce(a).None? then a else SplitOnce(a).value.0 + "=" + Tr(tw, SplitOnce(a).value.1)
  }

  function MoveAll(tw: ToWindows, ms: seq<Mark>, args: Args): (r: Args)
    requires |ms| == |args|
    ensures |r| == |args|
  {
    seq(|args|, i requires 0 <= i < |args| => Moved(tw, ms[i], args[i]))
  }

  predicate IsLifetime(o: string) { o == LIFETIME || o == "--lifetime" }

  /** Whether the token sets what the option `o` sets. */
  predicate Sets(t: Token, o: string) {
    (t.Split? || t.Inline?) && ((IsLifetime(t.opt) && IsLifetime(o)) || (t.opt == SSH_ADD && o == SSH_ADD))
  }

  predicate Overwritten(o: string, rest: seq<Token>) {
    exists i | 0 <= i < |rest| :: Sets(rest[i], o)
  }

  /**
   * The translator's marks `m` on the arguments of an ssh parser's token are those of the token itself, or
   * differ on a value of `-t`, `--lifetime` or `--ssh-add` that is set again later.
   */
  predicate TokenAgrees(t: Token, rest: seq<Token>, m: seq<Mark>)
    requires |m| == |ArgsOf(t)|
  {
    var own := MarksOf(t, []);
    if t.Split? then m[0] == own[0] && (m[1] == own[1] || Overwritten(t.opt, rest)) else m == own
  }

  predicate AgreeOn(toks: seq<Token>, ms: seq<Mark>)
    requires |ms| == |Unlex(toks)|
  {
    toks == [] ||
    var n := |ArgsOf(toks[0])|;
    TokenAgrees(toks[0], toks[1..], ms[..n]) && AgreeOn(toks[1..], ms[n..])
  }

  /** Wherever the action depends on it, the translator takes just the `--vault` values for paths. */
  predicate SameReading(args: Args) {
    LexSound(SshParser, args);
    LexSound(Translator, args);
    AgreeOn(Lex(SshParser, args), Marks(Lex(Translator, args), []))
  }

  // ---------------------------------------------------------------------------
  // Marks and tokens
  // ---------------------------------------------------------------------------

  predicate ValidMark(m: Mark, a: string) {
    && (m.Whole? ==> Movable(a))
    && (m.InPart? ==>
          && IsOption(a) && SplitOnce(a).Some?
          && PathOpt(SplitOnce(a).value.0) && Movable(SplitOnce(a).value.1))
  }

  predicate ValidMarks(ms: seq<Mark>, args: Args)
    requires |ms| == |args|
  {
    forall i | 0 <= i < |ms| :: ValidMark(ms[i], args[i])
  }

  lemma TokenMarks(tw: ToWindows, sc: Scanner, t: Token, last: bool, before: Args)
    requires Fits(sc, t, last)
    ensures ValidMarks(MarksOf(t, before), ArgsOf(t))
    ensures ArgsOf(TrToken(tw, t, before)) == MoveAll(tw, MarksOf(t, before), ArgsOf(t))
  {
    if t.Inline? { SplitJoined(t.opt, t.v); }
  }

  lemma MoveConcat(tw: ToWindows, ms: seq<Mark>, ns: seq<Mark>, a: Args, b: Args)
    requires |ms| == |a| && |ns| == |b|
    ensures MoveAll(tw, ms + ns, a + b) == MoveAll(tw, ms, a) + MoveAll(tw, ns, b)
    ensures ValidMarks(ms + ns, a + b) <==> ValidMarks(ms, a) && ValidMarks(ns, b)
  {
    if ValidMarks(ms + ns, a + b) {
      forall i | 0 <= i < |ms| ensures ValidMark(ms[i], a[i]) { assert ValidMark((ms + ns)[i], (a + b)[i]); }
      forall i | 0 <= i < |ns| ensures ValidMark(ns[i], b[i]) {
        assert ValidMark((ms + ns)[|ms| + i], (a + b)[|a| + i]);
      }
    }
  }

  /** Translating tokens is moving the marked arguments. */
  lemma {:induction false} TrIsMove(tw: ToWindows, sc: Scanner, toks: seq<Token>, before: Args)
    requires WellFormed(sc, toks)
    ensures Unlex(TrTokens(tw, toks, before)) == MoveAll(tw, Marks(toks, before), Unlex(toks))
    ensures ValidMarks(Marks(toks, before), Unlex(toks))
  {
    if toks != [] {
      var t, rest, b := toks[0], toks[1..], Past(toks[0], before);
      WellFormedTail(sc, toks);
      TokenMarks(tw, sc, t, rest == [], before);
      TrIsMove(tw, sc, rest, b);
      MoveConcat(tw, MarksOf(t, before), Marks(rest, b), ArgsOf(t), Unlex(rest));
      UnlexCons(TrToken(tw, t, before), TrTokens(tw, rest, b));
    }
  }

  lemma LexCons(sc: Scanner, t: Token, rest: Args)
    requires Fits(sc, t, false)
    ensures Lex(sc, ArgsOf(t) + rest) == [t] + Lex(sc, rest)
  {
    var args := ArgsOf(t) + rest;
    assert args[|ArgsOf(t)|..] == rest;
    if t.Inline? { SplitJoined(t.opt, t.v); }
  }

  /** A token the parser knows is followed by other tokens. */
  lemma KnownFits(t: Token, last: bool)
    requires Known(t) && Fits(SshParser, t, last)
    ensures Fits(SshParser, t, false) && !t.Tail?
  {
    if t.Flag? { PlainFlagsTakeNothing(t.a); }
  }

  lemma PlainFlagsTakeNothing(a: string)
    requires a in [JSON, QUIET, LONG_QUIET, NO_INPUT]
    ensures !Takes(SshParser, a)
  {
  }

  // ---------------------------------------------------------------------------
  // The same reading is enough
  // ---------------------------------------------------------------------------

  /** The token the ssh parser reads in place of `t`, as far as the readings do not part there. */
  function HeadRead(tw: ToWindows, t: Token, m: seq<Mark>): Token
    requires |m| == |ArgsOf(t)|
  {
    if t.Split? && SshOnly(t.opt) then Split(t.opt, Moved(tw, m[1], t.v)) else TrToken(tw, t, [])
  }

  /** The tokens of the moved arguments, while the marks agree. */
  function Blend(tw: ToWindows, toks: seq<Token>, ms: seq<Mark>): (r: seq<Token>)
    requires |ms| == |Unlex(toks)|
    ensures |r| == |toks|
  {
    if toks == [] then []
    else
      var n := |ArgsOf(toks[0])|;
      [HeadRead(tw, toks[0], ms[..n])] + Blend(tw, toks[1..], ms[n..])
  }

  /** Tokens the ssh parser knows, with marks that agree with its own. */
  ghost predicate Agreeing(toks: seq<Token>, ms: seq<Mark>) {
    && |ms| == |Unlex(toks)| && AgreeOn(toks, ms)
    && WellFormed(SshParser, toks) && AreKnown(toks)
  }

  ghost predicate AreKnown(toks: seq<Token>) { forall i | 0 <= i < |toks| :: Known(toks[i]) }

  lemma KnownTail(toks: seq<Token>)
    requires toks != [] && AreKnown(toks)
    ensures Known(toks[0]) && AreKnown(toks[1..])
  {
    forall i | 0 <= i < |toks[1..]| ensures Known(toks[1..][i]) { assert Known(toks[i + 1]); }
  }

  lemma AgreeingTail(toks: seq<Token>, ms: seq<Mark>)
    requires toks != [] && Agreeing(toks, ms)
    ensures var t, rest, n := toks[0], toks[1..], |ArgsOf(toks[0])|;
            && Agreeing(rest, ms[n..])
            && Known(t) && Fits(SshParser, t, rest == []) && TokenAgrees(t, rest, ms[..n])
            && ms == ms[..n] + ms[n..]
  {
    WellFormedTail(SshParser, toks);
    KnownTail(toks);
  }

  lemma BlendHead(tw: ToWindows, t: Token, rest: seq<Token>, m: seq<Mark>, last: bool)
    requires Known(t) && Fits(SshParser, t, last) && |m| == |ArgsOf(t)| && TokenAgrees(t, rest, m)
    ensures var head := HeadRead(tw, t, m);
            && Fits(SshParser, head, last)
            && ArgsOf(head) == MoveAll(tw, m, ArgsOf(t))
  {
    TokenMarks(tw, SshParser, t, last, []);
    if t.Split? {
      assert m == [m[0], m[1]];
      if !SshOnly(t.opt) { assert m == MarksOf(t, []); }
    }
  }

  /** A token moved with its marks, in front of tokens moved with theirs. */
  lemma BlendStep(tw: ToWindows, t: Token, rest: seq<Token>, m: seq<Mark>, ms: seq<Mark>, head: Token, more: seq<Token>)
    requires |m| == |ArgsOf(t)| && |ms| == |Unlex(rest)|
    requires ArgsOf(head) == MoveAll(tw, m, ArgsOf(t)) && Unlex(more) == MoveAll(tw, ms, Unlex(rest))
    ensures Unlex([head] + more) == MoveAll(tw, m + ms, ArgsOf(t) + Unlex(rest))
  {
    MoveConcat(tw, m, ms, ArgsOf(t), Unlex(rest));
    UnlexCons(head, more);
  }

  lemma {:induction false} BlendWrites(tw: ToWindows, toks: seq<Token>, ms: seq<Mark>)
    requires Agreeing(toks, ms)
    ensures Unlex(Blend(tw, toks, ms)) == MoveAll(tw, ms, Unlex(toks))
  {
    if toks != [] {
      var t, rest, n := toks[0], toks[1..], |ArgsOf(toks[0])|;
      AgreeingTail(toks, ms);
      BlendHead(tw, t, rest, ms[..n], rest == []);
      BlendWrites(tw, rest, ms[n..]);
      BlendStep(tw, t, rest, ms[..n], ms[n..], HeadRead(tw, t, ms[..n]), Blend(tw, rest, ms[n..]));
    }
  }

  lemma {:induction false} BlendWellFormed(tw: ToWindows, toks: seq<Token>, ms: seq<Mark>)
    requires Agreeing(toks, ms)
    ensures WellFormed(SshParser, Blend(tw, toks, ms))
  {
    if toks != [] {
      var t, rest, n := toks[0], toks[1..], |ArgsOf(toks[0])|;
      AgreeingTail(toks, ms);
      BlendHead(tw, t, rest, ms[..n], rest == []);
      BlendWellFormed(tw, rest, ms[n..]);
      WellFormedCons(SshParser, HeadRead(tw, t, ms[..n]), Blend(tw, rest, ms[n..]));
    }
  }

  lemma BlendLex(tw: ToWindows, toks: seq<Token>, ms: seq<Mark>)
    requires Agreeing(toks, ms)
    ensures Lex(SshParser, MoveAll(tw, ms, Unlex(toks))) == Blend(tw, toks, ms)
  {
    BlendWrites(tw, toks, ms);
    BlendWellFormed(tw, toks, ms);
    LexUnlex(SshParser, Blend(tw, toks, ms));
  }

  /** Two scans that differ at most in what the tokens still to come overwrite. */
  ghost predicate Alike(s: Scan, s': Scan, toks: seq<Token>) {
    && s' == s.(lifetime := s'.lifetime, sshAdd := s'.sshAdd)
    && (s'.lifetime == s.lifetime || Overwritten(LIFETIME, toks))
    && (s'.sshAdd == s.sshAdd || Overwritten(SSH_ADD, toks))
  }

  lemma OverwrittenCons(o: string, t: Token, rest: seq<Token>)
    ensures Overwritten(o, [t] + rest) <==> Sets(t, o) || Overwritten(o, rest)
  {
    var toks := [t] + rest;
    if Sets(t, o) { assert Sets(toks[0], o); }
    if Overwritten(o, rest) {
      var i :| 0 <= i < |rest| && Sets(rest[i], o);
      assert Sets(toks[i + 1], o);
    }
  }

  lemma SameTokenAlike(s: Scan, s': Scan, t: Token, rest: seq<Token>)
    requires Known(t) && Alike(s, s', [t] + rest)
    ensures Take(s, t).Some? && Take(s', t).Some? && Alike(Take(s, t).value, Take(s', t).value, rest)
  {
    OverwrittenCons(LIFETIME, t, rest);
    OverwrittenCons(SSH_ADD, t, rest);
    if t.Split? || t.Inline? { SameValueAlike(s, s', t.opt, t.v); }
  }

  lemma SameValueAlike(s: Scan, s': Scan, o: string, v: string)
    requires o in [VAULT, SLOT, LIFETIME, "--lifetime", SSH_ADD]
    requires s' == s.(lifetime := s'.lifetime, sshAdd := s'.sshAdd)
    ensures var r, r' := TakeValue(s, o, v), TakeValue(s', o, v);
            && r.Some? && r'.Some?
            && r'.value == r.value.(lifetime := r'.value.lifetime, sshAdd := r'.value.sshAdd)
            && (s.lifetime == s'.lifetime || IsLifetime(o) ==> r.value.lifetime == r'.value.lifetime)
            && (s.sshAdd == s'.sshAdd || o == SSH_ADD ==> r.value.sshAdd == r'.value.sshAdd)
  {
  }

  lemma OtherValueAlike(s: Scan, s': Scan, o: string, v: string, w: string, rest: seq<Token>)
    requires SshOnly(o) && Alike(s, s', [Split(o, v)] + rest) && (v == w || Overwritten(o, rest))
    ensures Take(s, Split(o, v)).Some? && Take(s', Split(o, w)).Some?
    ensures Alike(Take(s, Split(o, v)).value, Take(s', Split(o, w)).value, rest)
  {
    OverwrittenCons(LIFETIME, Split(o, v), rest);
    OverwrittenCons(SSH_ADD, Split(o, v), rest);
    if Overwritten(o, rest) { SameFieldOverwritten(o, rest); }
    assert |LIFETIME| == 2 && |SSH_ADD| == 9;
  }

  lemma SameFieldOverwritten(o: string, rest: seq<Token>)
    requires SshOnly(o) && Overwritten(o, rest)
    ensures Overwritten(if o == SSH_ADD then SSH_ADD else LIFETIME, rest)
  {
    var i :| 0 <= i < |rest| && Sets(rest[i], o);
    assert |LIFETIME| == 2 && |SSH_ADD| == 9;
    assert Sets(rest[i], if o == SSH_ADD then SSH_ADD else LIFETIME);
  }

  lemma AlikeStep(tw: ToWindows, s: Scan, s': Scan, t: Token, rest: seq<Token>, m: seq<Mark>)
    requires Known(t) && |m| == |ArgsOf(t)| && TokenAgrees(t, rest, m)
    requires Alike(s, s', [t] + rest)
    ensures var head := HeadRead(tw, t, m);
            && Take(s, TrToken(tw, t, [])).Some? && Take(s', head).Some?
            && Alike(Take(s, TrToken(tw, t, [])).value, Take(s', head).value, rest)
  {
    var t' := TrToken(tw, t, []);
    if t.Split? && SshOnly(t.opt) {
      PlainFlagsFit(t.opt);
      OtherValueAlike(s, s', t.opt, t.v, Moved(tw, m[1], t.v), rest);
    } else {
      OverwrittenCons(LIFETIME, t, rest);
      OverwrittenCons(SSH_ADD, t, rest);
      OverwrittenCons(LIFETIME, t', rest);
      OverwrittenCons(SSH_ADD, t', rest);
      SameTokenAlike(s, s', t', rest);
    }
  }

  lemma {:induction false} BlendTakes(tw: ToWindows, s: Scan, s': Scan, toks: seq<Token>, ms: seq<Mark>)
    requires Agreeing(toks, ms) && Alike(s, s', toks)
    ensures TakeAll(s', Blend(tw, toks, ms)) == TakeAll(s, TrAll(tw, toks))
    decreases |toks|
  {
    if toks != [] {
      var t, rest, n := toks[0], toks[1..], |ArgsOf(toks[0])|;
      assert toks == [t] + rest;
      AgreeingTail(toks, ms);
      AlikeStep(tw, s, s', t, rest, ms[..n]);
      var head := HeadRead(tw, t, ms[..n]);
      TrAllCons(tw, t, rest);
      TakeCons(s, TrToken(tw, t, []), TrAll(tw, rest));
      TakeCons(s', head, Blend(tw, rest, ms[n..]));
      BlendTakes(tw, Take(s, TrToken(tw, t, [])).value, Take(s', head).value, rest, ms[n..]);
    }
  }

  // ---------------------------------------------------------------------------
  // And nothing less
  // ---------------------------------------------------------------------------

  /** A word longer than any argument, and the translation that always yields it. */
  function Word(n: nat): string { seq(n, _ => 'x') }

  function Always(y: string): ToWindows { (v: string) => Some(y) }

  ghost predicate Fresh(y: string, args: Args) {
    && |y| > 2 && y[0] != '-' && '=' !in y
    && forall i | 0 <= i < |args| :: |args[i]| < |y|
  }

  /** Different marks move an argument to different places. */
  lemma MovedApart(y: string, m: Mark, m': Mark, a: string)
    requires ValidMark(m, a) && ValidMark(m', a) && m != m'
    requires Fresh(y, [a])
    ensures Moved(Always(y), m, a) != Moved(Always(y), m', a)
  {
    assert |[a][0]| < |y|;
    if m.InPart? || m'.InPart? {
      var (o, x) := SplitOnce(a).value;
      assert |a| == |o| + 1 + |x|;
      assert (o + "=" + y)[|o|] == '=' && |o + "=" + y| > |y|;
    }
  }

  lemma {:induction false} TakeExtends(s: Scan, toks: seq<Token>)
    requires TakeAll(s, toks).Some?
    ensures s.globals <= TakeAll(s, toks).value.globals && s.positionals <= TakeAll(s, toks).value.positionals
    decreases |toks|
  {
    if toks != [] {
      var s1 := Take(s, toks[0]).value;
      assert s.globals <= s1.globals && s.positionals <= s1.positionals;
      TakeExtends(s1, toks[1..]);
    }
  }

  lemma {:induction false} TakeKeepsLifetime(s: Scan, toks: seq<Token>, o: string)
    requires TakeAll(s, toks).Some? && SshOnly(o) && !Overwritten(o, toks)
    ensures IsLifetime(o) ==> TakeAll(s, toks).value.lifetime == s.lifetime
    ensures o == SSH_ADD ==> TakeAll(s, toks).value.sshAdd == s.sshAdd
    decreases |toks|
  {
    if toks != [] {
      assert toks == [toks[0]] + toks[1..];
      OverwrittenCons(o, toks[0], toks[1..]);
      TakeKeepsLifetime(Take(s, toks[0]).value, toks[1..], o);
    }
  }

  /** The second scan fails, or what it gathers is told apart from what the first gathers. */
  ghost predicate ToldApart(f: Scan, r: Option<Scan>) {
    r.Some? ==> r.value.(json := f.json, quiet := f.quiet) != f
  }

  ghost predicate ShortWords(words: Args, y: string) {
    forall i | 0 <= i < |words| :: |words[i]| < |y|
  }

  /** A fresh word that stands as a positional is not among those of the first scan. */
  lemma StrayWord(f: Scan, s: Scan, y: string, rest: Args)
    requires ShortWords(f.positionals, y) && |y| > 2 && y[0] != '-'
    ensures ToldApart(f, TakeAll(s, Lex(SshParser, [y] + rest)))
  {
    LexCons(SshParser, Positional(y), rest);
    var more := Lex(SshParser, rest);
    TakeCons(s, Positional(y), more);
    var s1 := s.(positionals := s.positionals + [y]);
    if TakeAll(s1, more).Some? {
      TakeExtends(s1, more);
      var r := TakeAll(s1, more).value;
      assert r.positionals[|s.positionals|] == y;
      assert |s.positionals| < |f.positionals| ==> |f.positionals[|s.positionals|]| < |y|;
    }
  }

  /** Once different words were forwarded at the same place, the scans are told apart. */
  lemma ForwardedApart(s: Scan, s': Scan, o: string, u: string, w: string, toks: seq<Token>, toks': seq<Token>)
    requires s.globals == s'.globals && u != w
    requires TakeAll(s.(globals := s.globals + [o, u]), toks).Some?
    ensures var f := TakeAll(s.(globals := s.globals + [o, u]), toks).value;
            ToldApart(f, TakeAll(s'.(globals := s'.globals + [o, w]), toks'))
  {
    var a, b := s.(globals := s.globals + [o, u]), s'.(globals := s'.globals + [o, w]);
    TakeExtends(a, toks);
    if TakeAll(b, toks').Some? {
      TakeExtends(b, toks');
      var n := |s.globals| + 1;
      assert TakeAll(a, toks).value.globals[n] == u && TakeAll(b, toks').value.globals[n] == w;
    }
  }

  /** What stays the same until the readings part. */
  ghost predicate Aligned(s: Scan, s': Scan) {
    s.globals == s'.globals && s.positionals == s'.positionals
  }

  /** The scan of the moved arguments, one token on. */
  lemma ScanHead(s: Scan, head: Token, rest: Args)
    requires Fits(SshParser, head, false)
    ensures TakeAll(s, Lex(SshParser, ArgsOf(head) + rest))
         == (if Take(s, head).None? then None else TakeAll(Take(s, head).value, Lex(SshParser, rest)))
  {
    LexCons(SshParser, head, rest);
    TakeCons(s, head, Lex(SshParser, rest));
  }

  /** One argument that is not an option with its value apart, marked against the parser's own reading. */
  lemma PartsAtOne(y: string, t: Token, a: string, m: Mark, f: Scan, s: Scan, s': Scan, more: seq<Token>, rest: Args)
    requires Known(t) && Fits(SshParser, t, false) && ArgsOf(t) == [a] && m != MarksOf(t, [])[0]
    requires ValidMark(m, a) && Fresh(y, [a]) && Aligned(s, s')
    requires Take(s, TrToken(Always(y), t, [])).Some? && ShortWords(f.positionals, y)
    requires TakeAll(Take(s, TrToken(Always(y), t, [])).value, more) == Some(f)
    ensures ToldApart(f, TakeAll(s', Lex(SshParser, [Moved(Always(y), m, a)] + rest)))
  {
    assert |[a][0]| < |y|;
    if m.Whole? {
      StrayWord(f, s', y, rest);
    } else {
      OnlyInlineParts(t, a, m);
      PartsAtInline(y, t.opt, t.v, f, s, s', more, rest);
    }
  }

  lemma OnlyInlineParts(t: Token, a: string, m: Mark)
    requires Known(t) && Fits(SshParser, t, false) && ArgsOf(t) == [a] && m != MarksOf(t, [])[0] && !m.Whole?
    requires ValidMark(m, a)
    ensures m == Keep && t.Inline? && PathOpt(t.opt) && Movable(t.v)
  {
    if t.Inline? { SplitJoined(t.opt, t.v); }
  }

  lemma PartsAtInline(y: string, o: string, v: string, f: Scan, s: Scan, s': Scan, more: seq<Token>, rest: Args)
    requires Known(Inline(o, v)) && Fits(SshParser, Inline(o, v), false) && PathOpt(o) && Movable(v)
    requires |v| < |y| && Aligned(s, s')
    requires Take(s, Inline(o, y)).Some? && TakeAll(Take(s, Inline(o, y)).value, more) == Some(f)
    ensures ToldApart(f, TakeAll(s', Lex(SshParser, [o + "=" + v] + rest)))
  {
    ScanHead(s', Inline(o, v), rest);
    ForwardedApart(s, s', o, y, v, more, Lex(SshParser, rest));
  }

  /** An option itself moved. */
  lemma PartsAtOption(y: string, o: string, w: string, m: Mark, f: Scan, s': Scan, rest: Args)
    requires m != Keep && ValidMark(m, o) && '=' !in o
    requires |y| > 2 && y[0] != '-' && ShortWords(f.positionals, y)
    ensures ToldApart(f, TakeAll(s', Lex(SshParser, [Moved(Always(y), m, o), w] + rest)))
  {
    assert [y, w] + rest == [y] + ([w] + rest);
    StrayWord(f, s', y, [w] + rest);
  }

  /** Different values forwarded for the same option. */
  lemma PartsAtForwarded(o: string, u: string, w: string, f: Scan, s: Scan, s': Scan, more: seq<Token>, rest: Args)
    requires (o == VAULT || o == SLOT) && u != w && Aligned(s, s')
    requires TakeAll(Take(s, Split(o, u)).value, more) == Some(f)
    ensures ToldApart(f, TakeAll(s', Lex(SshParser, [o, w] + rest)))
  {
    TakesPlain(o);
    ScanHead(s', Split(o, w), rest);
    ForwardedApart(s, s', o, u, w, more, Lex(SshParser, rest));
  }

  lemma {:induction false} BlendSets(tw: ToWindows, toks: seq<Token>, ms: seq<Mark>, o: string)
    requires |ms| == |Unlex(toks)|
    ensures Overwritten(o, Blend(tw, toks, ms)) == Overwritten(o, toks) == Overwritten(o, TrAll(tw, toks))
  {
    if toks != [] {
      var t, rest, n := toks[0], toks[1..], |ArgsOf(toks[0])|;
      BlendSets(tw, rest, ms[n..], o);
      assert toks == [t] + rest;
      OverwrittenCons(o, t, rest);
      OverwrittenCons(o, HeadRead(tw, t, ms[..n]), Blend(tw, rest, ms[n..]));
      TrAllCons(tw, t, rest);
      OverwrittenCons(o, TrToken(tw, t, []), TrAll(tw, rest));
    }
  }

  /** The last value of `-t`, `--lifetime` or `--ssh-add` moved, the rest read alike. */
  lemma PartsAtLast(tw: ToWindows, o: string, v: string, w: string, s: Scan, s': Scan, rest: seq<Token>, ms: seq<Mark>)
    requires SshOnly(o) && v != w && |ms| == |Unlex(rest)| && !Overwritten(o, rest)
    requires TakeAll(Take(s, Split(o, v)).value, TrAll(tw, rest)).Some?
    ensures ToldApart(TakeAll(Take(s, Split(o, v)).value, TrAll(tw, rest)).value,
                      TakeAll(Take(s', Split(o, w)).value, Blend(tw, rest, ms)))
  {
    BlendSets(tw, rest, ms, o);
    TakeKeepsLifetime(Take(s, Split(o, v)).value, TrAll(tw, rest), o);
    var s1 := Take(s', Split(o, w)).value;
    if TakeAll(s1, Blend(tw, rest, ms)).Some? { TakeKeepsLifetime(s1, Blend(tw, rest, ms), o); }
    assert |LIFETIME| == 2 && |SSH_ADD| == 9;
  }

  /** The head of a list of tokens on both sides: its tokens, marks and moved arguments. */
  lemma SplitHead(y: string, toks: seq<Token>, ms: seq<Mark>)
    requires toks != [] && |ms| == |Unlex(toks)| && ValidMarks(ms, Unlex(toks)) && Fresh(y, Unlex(toks))
    ensures var t, rest, n := toks[0], toks[1..], |ArgsOf(toks[0])|;
            && n <= |ms| && |ms[n..]| == |Unlex(rest)|
            && ValidMarks(ms[..n], ArgsOf(t)) && ValidMarks(ms[n..], Unlex(rest))
            && Fresh(y, ArgsOf(t)) && Fresh(y, Unlex(rest))
            && MoveAll(Always(y), ms, Unlex(toks))
                 == MoveAll(Always(y), ms[..n], ArgsOf(t)) + MoveAll(Always(y), ms[n..], Unlex(rest))
  {
    var t, rest, n := toks[0], toks[1..], |ArgsOf(toks[0])|;
    assert Unlex(toks) == ArgsOf(t) + Unlex(rest);
    assert ms == ms[..n] + ms[n..];
    MoveConcat(Always(y), ms[..n], ms[n..], ArgsOf(t), Unlex(rest));
    FreshConcat(y, ArgsOf(t), Unlex(rest));
  }

  lemma FreshConcat(y: string, a: Args, b: Args)
    requires Fresh(y, a + b)
    ensures Fresh(y, a) && Fresh(y, b)
  {
    forall i | 0 <= i < |a| ensures |a[i]| < |y| { assert (a + b)[i] == a[i]; }
    forall i | 0 <= i < |b| ensures |b[i]| < |y| { assert (a + b)[|a| + i] == b[i]; }
  }

  /** If the heads are read alike, it is the rest that parts the readings. */
  lemma PartsLater(tw: ToWindows, t: Token, head: Token, s: Scan, s': Scan)
    requires Known(t) && Aligned(s, s')
    requires head == TrToken(tw, t, []) || (t.Split? && SshOnly(t.opt) && head.Split? && head.opt == t.opt)
    ensures Take(s, TrToken(tw, t, [])).Some? && Take(s', head).Some?
    ensures Aligned(Take(s, TrToken(tw, t, [])).value, Take(s', head).value)
  {
    if t.Split? && SshOnly(t.opt) { PlainFlagsFit(t.opt); }
  }

  /** The readings do not part at `t`, or part only in what may be overwritten. */
  predicate HeadAgrees(t: Token, m: seq<Mark>)
    requires |m| == |ArgsOf(t)|
  {
    if t.Split? && SshOnly(t.opt) then m[0] == Keep else m == MarksOf(t, [])
  }

  lemma HeadIsRead(tw: ToWindows, t: Token, m: seq<Mark>)
    requires Known(t) && Fits(SshParser, t, false) && |m| == |ArgsOf(t)| && HeadAgrees(t, m)
    ensures Fits(SshParser, HeadRead(tw, t, m), false) && ArgsOf(HeadRead(tw, t, m)) == MoveAll(tw, m, ArgsOf(t))
  {
    TokenMarks(tw, SshParser, t, false, []);
  }

  /** Where the readings part for good. */
  lemma PartsHere(y: string, t: Token, m: seq<Mark>, f: Scan, s: Scan, s': Scan, more: seq<Token>, rest: Args)
    requires Known(t) && Fits(SshParser, t, false) && |m| == |ArgsOf(t)| && !HeadAgrees(t, m)
    requires ValidMarks(m, ArgsOf(t)) && Fresh(y, ArgsOf(t)) && Aligned(s, s') && ShortWords(f.positionals, y)
    requires Take(s, TrToken(Always(y), t, [])).Some?
    requires TakeAll(Take(s, TrToken(Always(y), t, [])).value, more) == Some(f)
    ensures ToldApart(f, TakeAll(s', Lex(SshParser, MoveAll(Always(y), m, ArgsOf(t)) + rest)))
  {
    var tw := Always(y);
    assert ValidMark(m[0], ArgsOf(t)[0]);
    if !t.Split? {
      var a := ArgsOf(t)[0];
      assert ArgsOf(t) == [a] && m == [m[0]] && MoveAll(tw, m, [a]) == [Moved(tw, m[0], a)];
      PartsAtOne(y, t, a, m[0], f, s, s', more, rest);
    } else {
      var o, v, w := t.opt, t.v, Moved(tw, m[1], t.v);
      assert MoveAll(tw, m, ArgsOf(t)) == [Moved(tw, m[0], o), w];
      if m[0] != Keep {
        PartsAtOption(y, o, w, m[0], f, s', rest);
      } else {
        assert m == [m[0], m[1]] && ValidMark(m[1], ArgsOf(t)[1]) && |ArgsOf(t)[1]| < |y|;
        MovedApart(y, MarksOf(t, [])[1], m[1], v);
        PartsAtForwarded(o, TrToken(tw, t, []).v, w, f, s, s', more, rest);
      }
    }
  }

  /** A last value of its kind moved, the rest read alike. */
  lemma PartsInLastValue(y: string, t: Token, m: seq<Mark>, f: Scan, s: Scan, s': Scan, rest: seq<Token>, ms: seq<Mark>)
    requires Known(t) && Fits(SshParser, t, false) && |m| == |ArgsOf(t)| && HeadAgrees(t, m)
    requires ValidMarks(m, ArgsOf(t)) && Fresh(y, ArgsOf(t)) && !TokenAgrees(t, rest, m)
    requires Agreeing(rest, ms)
    requires Take(s, TrToken(Always(y), t, [])).Some? && Take(s', HeadRead(Always(y), t, m)).Some?
    requires TakeAll(Take(s, TrToken(Always(y), t, [])).value, TrAll(Always(y), rest)) == Some(f)
    ensures ToldApart(f, TakeAll(Take(s', HeadRead(Always(y), t, m)).value,
                                 Lex(SshParser, MoveAll(Always(y), ms, Unlex(rest)))))
  {
    assert ValidMark(m[1], ArgsOf(t)[1]) && |ArgsOf(t)[1]| < |y|;
    PlainFlagsFit(t.opt);
    MovedApart(y, Keep, m[1], t.v);
    BlendLex(Always(y), rest, ms);
    PartsAtLast(Always(y), t.opt, t.v, Moved(Always(y), m[1], t.v), s, s', rest, ms);
  }

  /** One step along both readings. */
  lemma PartsStep(y: string, toks: seq<Token>, ms: seq<Mark>, f: Scan, s: Scan, s': Scan)
    requires toks != [] && |ms| == |Unlex(toks)| && ValidMarks(ms, Unlex(toks)) && Fresh(y, Unlex(toks))
    requires WellFormed(SshParser, toks) && AreKnown(toks)
    requires Aligned(s, s') && TakeAll(s, TrAll(Always(y), toks)) == Some(f)
    ensures var tw, t, rest, n := Always(y), toks[0], toks[1..], |ArgsOf(toks[0])|;
            var m, own, R := ms[..n], TrToken(tw, t, []), MoveAll(tw, ms[n..], Unlex(rest));
            && Fits(SshParser, t, false) && WellFormed(SshParser, rest)
            && Take(s, own).Some? && TakeAll(Take(s, own).value, TrAll(tw, rest)) == Some(f)
            && MoveAll(tw, ms, Unlex(toks)) == MoveAll(tw, m, ArgsOf(t)) + R
            && (HeadAgrees(t, m) ==>
                  && Take(s', HeadRead(tw, t, m)).Some?
                  && Aligned(Take(s, own).value, Take(s', HeadRead(tw, t, m)).value)
                  && TakeAll(s', Lex(SshParser, MoveAll(tw, ms, Unlex(toks))))
                       == TakeAll(Take(s', HeadRead(tw, t, m)).value, Lex(SshParser, R)))
  {
    var tw, t, rest, n := Always(y), toks[0], toks[1..], |ArgsOf(toks[0])|;
    SplitHead(y, toks, ms);
    WellFormedTail(SshParser, toks);
    KnownFits(t, rest == []);
    TrAllCons(tw, t, rest);
    assert toks == [t] + rest;
    TakeCons(s, TrToken(tw, t, []), TrAll(tw, rest));
    if HeadAgrees(t, ms[..n]) {
      HeadIsRead(tw, t, ms[..n]);
      ScanHead(s', HeadRead(tw, t, ms[..n]), MoveAll(tw, ms[n..], Unlex(rest)));
      PartsLater(tw, t, HeadRead(tw, t, ms[..n]), s, s');
    }
  }

  /**
   * If the marks differ where it counts, the arguments moved to a fresh word are scanned to something else
   * than the ssh parser's own tokens.
   */
  lemma {:induction false} Parts(y: string, toks: seq<Token>, ms: seq<Mark>, f: Scan, s: Scan, s': Scan)
    requires |ms| == |Unlex(toks)| && ValidMarks(ms, Unlex(toks)) && Fresh(y, Unlex(toks)) && !AgreeOn(toks, ms)
    requires WellFormed(SshParser, toks) && AreKnown(toks)
    requires Aligned(s, s') && TakeAll(s, TrAll(Always(y), toks)) == Some(f) && ShortWords(f.positionals, y)
    ensures ToldApart(f, TakeAll(s', Lex(SshParser, MoveAll(Always(y), ms, Unlex(toks)))))
    decreases |toks|
  {
    var tw, t, rest, n := Always(y), toks[0], toks[1..], |ArgsOf(toks[0])|;
    SplitHead(y, toks, ms);
    PartsStep(y, toks, ms, f, s, s');
    if !HeadAgrees(t, ms[..n]) {
      PartsHere(y, t, ms[..n], f, s, s', TrAll(tw, rest), MoveAll(tw, ms[n..], Unlex(rest)));
    } else if !AgreeOn(rest, ms[n..]) {
      Parts(y, rest, ms[n..], f, Take(s, TrToken(tw, t, [])).value, Take(s', HeadRead(tw, t, ms[..n])).value);
    } else {
      PartsInLastValue(y, t, ms[..n], f, s, s', rest, ms[n..]);
    }
  }

  // ---------------------------------------------------------------------------
  // Exactly
  // ---------------------------------------------------------------------------

  /** Parsing after translating is translating the forwarded globals after parsing. */
  ghost predicate Agree(tw: ToWindows, args: Args)
    requires ParseSsh(args).Some?
  {
    var act := ParseSsh(args).value;
    ParseSsh(Translated(tw, args)) == Some(act.(globals := Translated(tw, act.globals)))
  }

  /** What the two sides of the agreement scan. */
  lemma Sides(tw: ToWindows, args: Args)
    requires ParseSsh(args).Some?
    ensures var toks, act := Lex(SshParser, args), ParseSsh(args).value;
            && LexSides(args)
            && Translated(tw, args) == MoveAll(tw, Marks(Lex(Translator, args), []), args)
            && TakeAll(EMPTY_SCAN, TrAll(tw, toks)).Some?
            && TakeAll(EMPTY_SCAN, TrAll(tw, toks)).value.positionals == Positionals(toks)
            && Conclude(TakeAll(EMPTY_SCAN, TrAll(tw, toks)).value)
                 == Some(act.(globals := Translated(tw, act.globals)))
  {
    var toks := Lex(SshParser, args);
    var g := GlobalsOf(toks);
    ParsedFrom(args);
    LexSound(SshParser, args);
    LexSound(Translator, args);
    AllKnown(EMPTY_SCAN, toks);
    TrIsMove(tw, Translator, Lex(Translator, args), []);
    TakeTranslated(tw, EMPTY_SCAN, [], toks);
    GlobalsTranslated(tw, g);
    NothingBefore(Unlex(TrAll(tw, g)));
    ScanGathers(EMPTY_SCAN, toks);
    NothingBefore(Positionals(toks));
    ConcludeGlobals(TakeAll(EMPTY_SCAN, toks).value, Translated(tw, Unlex(g)));
  }

  /** What both readings of an action's arguments are good for. */
  ghost predicate LexSides(args: Args) {
    var toks := Lex(SshParser, args);
    && Unlex(toks) == args && WellFormed(SshParser, toks) && AreKnown(toks)
    && Unlex(Lex(Translator, args)) == args && ValidMarks(Marks(Lex(Translator, args), []), args)
  }

  lemma SameReadingAgrees(tw: ToWindows, args: Args)
    requires ParseSsh(args).Some? && SameReading(args)
    ensures Agree(tw, args)
  {
    var toks, ms := Lex(SshParser, args), Marks(Lex(Translator, args), []);
    Sides(tw, args);
    BlendLex(tw, toks, ms);
    BlendTakes(tw, EMPTY_SCAN, EMPTY_SCAN, toks, ms);
  }

  function Longest(args: Args): (n: nat)
    ensures forall i | 0 <= i < |args| :: |args[i]| <= n
  {
    if args == [] then 0
    else
      var n := Longest(args[1..]);
      assert forall i | 1 <= i < |args| :: args[i] == args[1..][i - 1];
      if |args[0]| > n then |args[0]| else n
  }

  lemma {:induction false} PositionalsAreArgs(toks: seq<Token>, n: nat)
    requires forall i | 0 <= i < |Unlex(toks)| :: |Unlex(toks)[i]| <= n
    ensures forall i | 0 <= i < |Positionals(toks)| :: |Positionals(toks)[i]| <= n
  {
    if toks != [] {
      var k := |ArgsOf(toks[0])|;
      forall i | 0 <= i < |Unlex(toks[1..])| ensures |Unlex(toks[1..])[i]| <= n {
        assert Unlex(toks)[k + i] == Unlex(toks[1..])[i];
      }
      PositionalsAreArgs(toks[1..], n);
      if toks[0].Positional? { assert Unlex(toks)[0] == toks[0].v; }
    }
  }

  lemma OtherReadingParts(args: Args) returns (tw: ToWindows)
    requires ParseSsh(args).Some? && !SameReading(args)
    ensures !Agree(tw, args)
  {
    var toks, ms := Lex(SshParser, args), Marks(Lex(Translator, args), []);
    var y := Word(Longest(args) + 3);
    tw := Always(y);
    Sides(tw, args);
    var f := TakeAll(EMPTY_SCAN, TrAll(tw, toks)).value;
    PositionalsAreArgs(toks, Longest(args));
    Parts(y, toks, ms, f, EMPTY_SCAN, EMPTY_SCAN);
    var r := TakeAll(EMPTY_SCAN, Lex(SshParser, Translated(tw, args)));
    if Agree(tw, args) {
      SameConclusion(f, r.value);
    }
  }

  lemma SameConclusion(f: Scan, r: Scan)
    requires Conclude(f).Some? && Conclude(f) == Conclude(r)
    ensures r == f
  {
    ConcludedFrom(f, Conclude(f).value);
    ConcludedFrom(r, Conclude(f).value);
  }

  /**
   * For an ssh action the two scanners agree under every translation if and only if, wherever the action
   * depends on it, the translator takes just the `--vault` values for paths.
   */
  lemma ScannersAgreeIff(args: Args)
    requires ParseSsh(args).Some?
    ensures (forall tw: ToWindows :: Agree(tw, args)) <==> SameReading(args)
  {
    if SameReading(args) {
      forall tw: ToWindows ensures Agree(tw, args) { SameReadingAgrees(tw, args); }
    } else {
      var tw := OtherReadingParts(args);
      assert !Agree(tw, args);
    }
  }
}
