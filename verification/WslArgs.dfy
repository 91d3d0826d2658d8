/**
 * The two argument scanners of the WSL shim (crates/wcm-cli/src/wsl_core.rs): one rewrites paths for
 * `wcm.exe`, the other recognises `ssh add` and `ssh remove`.
 *
 * Both are specified over tokens: `Lex` reads an argument list as options, values and positionals, and
 * `Unlex` writes the tokens out again. The scanners differ only in which options take a value.
 */
module WslArgs {
  import opened Basics
  import opened Chars

  type Args = seq<string>

  const VAULT: string := "--vault"
  const SLOT: string := "--slot"
  const IMPORT: string := "import"

  /** Options whose value is a path. */
  const PATH_OPTS: seq<string> := [VAULT, "--file", "--out-file", "--env-file", "-o", "--out"]

  datatype Scanner = Translator | SshParser

  predicate PathOpt(o: string) { o in PATH_OPTS }

  /** `-t`, `--lifetime` and `--ssh-add`, which only the ssh parser knows. */
  predicate SshOnly(o: string) { o == "-t" || o == "--lifetime" || o == "--ssh-add" }

  predicate Takes(sc: Scanner, o: string) {
    match sc
    case Translator => PathOpt(o) || o == SLOT
    case SshParser => o == VAULT || o == SLOT || SshOnly(o)
  }

  predicate IsOption(a: string) { |a| > 1 && a[0] == '-' }

  /** `split_once('=')` */
  function SplitOnce(a: string): (r: Option<(string, string)>)
    ensures r.Some? ==> a == r.value.0 + "=" + r.value.1 && '=' !in r.value.0
    ensures r.None? <==> '=' !in a
  {
    if a == "" then None
    else if a[0] == '=' then Some(("", a[1..]))
    else
      match SplitOnce(a[1..])
      case None => None
      case Some((o, v)) => Some(([a[0]] + o, v))
  }

  lemma {:induction false} SplitJoined(o: string, v: string)
    requires '=' !in o
    ensures SplitOnce(o + "=" + v) == Some((o, v))
  {
    if o == "" {
      assert (o + "=" + v)[1..] == v;
    } else {
      assert o == [o[0]] + o[1..];
      assert (o + "=" + v)[1..] == o[1..] + "=" + v;
      SplitJoined(o[1..], v);
    }
  }

  // ---------------------------------------------------------------------------
  // Tokens
  // ---------------------------------------------------------------------------

  datatype Token =
    | Flag(a: string)
    | Split(opt: string, v: string)
    | Inline(opt: string, v: string)
    | Positional(v: string)
    | Tail(rest: Args)

  function Lex(sc: Scanner, args: Args): seq<Token>
    decreases |args|
  {
    if args == [] then []
    else
      var a := args[0];
      if a == "--" then [Tail(args)]
      else if !IsOption(a) then [Positional(a)] + Lex(sc, args[1..])
      else
        match SplitOnce(a)
        case Some((o, v)) => [Inline(o, v)] + Lex(sc, args[1..])
        case None =>
          if Takes(sc, a) && |args| > 1 then [Split(a, args[1])] + Lex(sc, args[2..])
          else [Flag(a)] + Lex(sc, args[1..])
  }

  function ArgsOf(t: Token): Args {
    match t
    case Flag(a) => [a]
    case Split(o, v) => [o, v]
    case Inline(o, v) => [o + "=" + v]
    case Positional(v) => [v]
    case Tail(rest) => rest
  }

  function Unlex(toks: seq<Token>): Args {
    if toks == [] then [] else ArgsOf(toks[0]) + Unlex(toks[1..])
  }

  /** A token that `Lex` can produce, at the end or before it. */
  predicate Fits(sc: Scanner, t: Token, last: bool) {
    match t
    case Flag(a) => IsOption(a) && a != "--" && '=' !in a && (Takes(sc, a) ==> last)
    case Split(o, _) => IsOption(o) && o != "--" && '=' !in o && Takes(sc, o)
    case Inline(o, _) => o != "" && o[0] == '-' && '=' !in o
    case Positional(v) => !IsOption(v)
    case Tail(rest) => last && rest != [] && rest[0] == "--"
  }

  predicate WellFormed(sc: Scanner, toks: seq<Token>) {
    forall i | 0 <= i < |toks| :: Fits(sc, toks[i], i == |toks| - 1)
  }

  lemma {:induction false} WellFormedCons(sc: Scanner, t: Token, rest: seq<Token>)
    requires WellFormed(sc, rest) && Fits(sc, t, rest == [])
    ensures WellFormed(sc, [t] + rest)
  {
  }

  lemma WellFormedTail(sc: Scanner, toks: seq<Token>)
    requires toks != [] && WellFormed(sc, toks)
    ensures WellFormed(sc, toks[1..]) && Fits(sc, toks[0], toks[1..] == [])
  {
  }

  /** Reading loses nothing: the tokens spell the arguments, and nothing after a bare `--` is read. */
  lemma {:induction false} LexSound(sc: Scanner, args: Args)
    ensures Unlex(Lex(sc, args)) == args && WellFormed(sc, Lex(sc, args))
    ensures Lex(sc, args) == [] <==> args == []
    decreases |args|
  {
    if args != [] && args[0] != "--" {
      var toks := Lex(sc, args);
      var n := if toks[0].Split? then 2 else 1;
      LexSound(sc, args[n..]);
      assert toks[1..] == Lex(sc, args[n..]);
      WellFormedCons(sc, toks[0], toks[1..]);
      assert args == args[..n] + args[n..];
      assert ArgsOf(toks[0]) == args[..n];
      assert toks == [toks[0]] + toks[1..];
    }
  }

  /** Writing well-formed tokens and reading them again gives them back. */
  lemma {:induction false} LexUnlex(sc: Scanner, toks: seq<Token>)
    requires WellFormed(sc, toks)
    ensures Lex(sc, Unlex(toks)) == toks
  {
    if toks != [] {
      var t, rest := toks[0], toks[1..];
      WellFormedTail(sc, toks);
      LexUnlex(sc, rest);
      var args := Unlex(toks);
      if t.Tail? {
        assert rest == [] && args == t.rest + [];
        assert args == t.rest;
      } else {
        assert args[|ArgsOf(t)|..] == Unlex(rest);
        if t.Inline? { SplitJoined(t.opt, t.v); }
        assert toks == [t] + rest;
      }
    }
  }

  // ---------------------------------------------------------------------------
  // Translating paths
  // ---------------------------------------------------------------------------

  type ToWindows = string -> Option<string>

  predicate IsAsciiLetter(c: char) { IsAsciiLower(c) || IsAsciiUpper(c) }

  predicate LooksLikeWindowsPath(s: string) {
    (|s| >= 2 && IsAsciiLetter(s[0]) && s[1] == ':') || StartsWith(s, "\\\\")
  }

  /** The closure `tr`. */
  function Tr(tw: ToWindows, v: string): string {
    if v == "-" || v == "" || LooksLikeWindowsPath(v) || tw(v).None? then v else tw(v).value
  }

  /** One token translated, after the positionals `before`; the one that follows a lone `import` is a path too. */
  function TrToken(tw: ToWindows, t: Token, before: Args): Token {
    match t
    case Split(o, v) => if PathOpt(o) then Split(o, Tr(tw, v)) else t
    case Inline(o, v) => if PathOpt(o) then Inline(o, Tr(tw, v)) else t
    case Positional(v) => if before == [IMPORT] then Positional(Tr(tw, v)) else t
    case _ => t
  }

  function Past(t: Token, before: Args): Args {
    if t.Positional? then before + [t.v] else before
  }

  function TrTokens(tw: ToWindows, toks: seq<Token>, before: Args): seq<Token> {
    if toks == [] then [] else [TrToken(tw, toks[0], before)] + TrTokens(tw, toks[1..], Past(toks[0], before))
  }

  function Translated(tw: ToWindows, args: Args): Args {
    Unlex(TrTokens(tw, Lex(Translator, args), []))
  }

  /** What remains to be written, one token at a time. */
  lemma TrStep(tw: ToWindows, out: Args, t: Token, rest: seq<Token>, before: Args)
    ensures out + Unlex(TrTokens(tw, [t] + rest, before))
         == out + ArgsOf(TrToken(tw, t, before)) + Unlex(TrTokens(tw, rest, Past(t, before)))
  {
  }

  /** The option branch of the loop: what it writes and where it goes on. */
  method TranslateOption(args: Args, i: nat, tw: ToWindows, ghost before: Args)
    returns (piece: Args, next: nat, ghost t: Token)
    requires i < |args| && IsOption(args[i]) && args[i] != "--"
    ensures i < next <= |args|
    ensures Lex(Translator, args[i..]) == [t] + Lex(Translator, args[next..])
    ensures piece == ArgsOf(TrToken(tw, t, before)) && Past(t, before) == before
  {
    var a := args[i];
    assert args[i..][0] == a && args[i..][1..] == args[i + 1..];
    match SplitOnce(a) {
      case Some((opt, val)) =>
        t := Inline(opt, val);
        return if PathOpt(opt) then [opt + "=" + Tr(tw, val)] else [a], i + 1, t;
      case None =>
        piece := [a];
        if Takes(Translator, a) && i + 1 < |args| {
          var v := args[i + 1];
          assert args[i..][2..] == args[i + 2..];
          t := Split(a, v);
          piece := piece + [if PathOpt(a) then Tr(tw, v) else v];
          next := i + 2;
        } else {
          t := Flag(a);
          next := i + 1;
        }
    }
  }

  /** What the two loop variables know of the positionals so far. */
  ghost predicate Tracks(subcommand: Option<string>, importFileSeen: bool, before: Args) {
    && subcommand == (if before == [] then None else Some(before[0]))
    && importFileSeen == (|before| >= 2 && before[0] == IMPORT)
  }

  /** The positional branch of the loop. */
  method TranslatePositional(a: string, tw: ToWindows, subcommand: Option<string>, importFileSeen: bool,
                             ghost before: Args)
    returns (piece: string, subcommand': Option<string>, importFileSeen': bool)
    requires Tracks(subcommand, importFileSeen, before)
    ensures [piece] == ArgsOf(TrToken(tw, Positional(a), before))
    ensures Tracks(subcommand', importFileSeen', before + [a])
  {
    subcommand', importFileSeen' := subcommand, importFileSeen;
    match subcommand {
      case None =>
        subcommand' := Some(a);
        piece := a;
      case Some(s) =>
        if s == IMPORT && !importFileSeen {
          importFileSeen' := true;
          assert before == [IMPORT];
          piece := Tr(tw, a);
        } else {
          piece := a;
        }
    }
  }

  /** `translate_args` */
  method TranslateArgs(args: Args, tw: ToWindows) returns (out: Args)
    ensures out == Translated(tw, args)
  {
    out := [];
    var subcommand: Option<string> := None;
    var importFileSeen := false;
    var i := 0;
    ghost var before: Args := [];
    ghost var rest := Lex(Translator, args);
    assert args[0..] == args;
    while i < |args|
      invariant 0 <= i <= |args| && rest == Lex(Translator, args[i..])
      invariant Tracks(subcommand, importFileSeen, before)
      invariant out + Unlex(TrTokens(tw, rest, before)) == Translated(tw, args)
    {
      if args[i] == "--" {
        assert rest == [Tail(args[i..])];
        TrStep(tw, out, Tail(args[i..]), [], before);
        out := out + args[i..];
        return;
      }
      var piece: Args;
      var next;
      ghost var t: Token;
      if IsOption(args[i]) {
        piece, next, t := TranslateOption(args, i, tw, before);
      } else {
        var p;
        next := i + 1;
        t := Positional(args[i]);
        assert args[i..][1..] == args[next..];
        p, subcommand, importFileSeen := TranslatePositional(args[i], tw, subcommand, importFileSeen, before);
        piece := [p];
      }
      ghost var more := Lex(Translator, args[next..]);
      assert rest == [t] + more;
      TrStep(tw, out, t, more, before);
      before := Past(t, before);
      out := out + piece;
      rest, i := more, next;
    }
    assert args[i..] == [];
  }

  // ---------------------------------------------------------------------------
  // What translating changes
  // ---------------------------------------------------------------------------

  function Positionals(toks: seq<Token>): Args {
    if toks == [] then [] else (if toks[0].Positional? then [toks[0].v] else []) + Positionals(toks[1..])
  }

  /** Token for token the translation is that of the token alone, given the positionals before it. */
  lemma {:induction false} TrTokensAt(tw: ToWindows, toks: seq<Token>, before: Args)
    ensures |TrTokens(tw, toks, before)| == |toks|
    ensures forall i | 0 <= i < |toks| ::
              TrTokens(tw, toks, before)[i] == TrToken(tw, toks[i], before + Positionals(toks[..i]))
  {
    if toks != [] {
      TrTokensAt(tw, toks[1..], Past(toks[0], before));
      forall i | 0 <= i < |toks|
        ensures TrTokens(tw, toks, before)[i] == TrToken(tw, toks[i], before + Positionals(toks[..i]))
      {
        if i == 0 { assert before + [] == before; } else { PositionalsBefore(toks, before, i); }
      }
    }
  }

  lemma PositionalsBefore(toks: seq<Token>, before: Args, i: nat)
    requires 0 < i <= |toks|
    ensures before + Positionals(toks[..i]) == Past(toks[0], before) + Positionals(toks[1..][..i - 1])
  {
    assert toks[..i][1..] == toks[1..][..i - 1];
  }

  /** A path: the value of a path option, or the first positional after the subcommand `import`. */
  predicate IsPath(toks: seq<Token>, i: nat)
    requires i < |toks|
  {
    match toks[i]
    case Split(o, _) => o in ["--vault", "--file", "--out-file", "--env-file", "-o", "--out"]
    case Inline(o, _) => o in ["--vault", "--file", "--out-file", "--env-file", "-o", "--out"]
    case Positional(_) => Positionals(toks[..i]) == ["import"]
    case _ => false
  }

  function WithValue(t: Token, v: string): Token
    requires t.Split? || t.Inline? || t.Positional?
  {
    t.(v := v)
  }

  /**
   * Read as options, values and positionals, the arguments keep their number and form; exactly the paths
   * are translated, and every other token stays as it was.
   */
  lemma OnlyPathsChange(tw: ToWindows, args: Args)
    ensures var toks := Lex(Translator, args);
            var toks' := TrTokens(tw, toks, []);
            && Translated(tw, args) == Unlex(toks')
            && |toks'| == |toks|
            && (forall i | 0 <= i < |toks| ::
                  toks'[i] == if IsPath(toks, i) then WithValue(toks[i], Tr(tw, toks[i].v)) else toks[i])
            && |Translated(tw, args)| == |args|
  {
    var toks := Lex(Translator, args);
    var toks' := TrTokens(tw, toks, []);
    TrTokensAt(tw, toks, []);
    forall i | 0 <= i < |toks|
      ensures toks'[i] == if IsPath(toks, i) then WithValue(toks[i], Tr(tw, toks[i].v)) else toks[i]
    {
      assert [] + Positionals(toks[..i]) == Positionals(toks[..i]);
    }
    LexSound(Translator, args);
    SameCount(toks, toks');
  }

  lemma {:induction false} SameCount(a: seq<Token>, b: seq<Token>)
    requires |a| == |b| && forall i | 0 <= i < |a| :: |ArgsOf(a[i])| == |ArgsOf(b[i])|
    ensures |Unlex(a)| == |Unlex(b)|
  {
    if a != [] { SameCount(a[1..], b[1..]); }
  }

  lemma {:induction false} UnlexConcat(a: seq<Token>, b: seq<Token>)
    ensures Unlex(a + b) == Unlex(a) + Unlex(b)
  {
    if a == [] {
      assert a + b == b;
    } else {
      assert (a + b)[1..] == a[1..] + b;
      UnlexConcat(a[1..], b);
    }
  }

  /** Everything from a bare `--` that is not an option's value comes out as it went in. */
  lemma TailUntouched(tw: ToWindows, args: Args)
    requires var toks := Lex(Translator, args); toks != [] && toks[|toks| - 1].Tail?
    ensures var rest := Lex(Translator, args)[|Lex(Translator, args)| - 1].rest;
            && rest != [] && rest[0] == "--" && |rest| <= |args|
            && args[|args| - |rest|..] == rest
            && |Translated(tw, args)| == |args| && Translated(tw, args)[|args| - |rest|..] == rest
  {
    var toks := Lex(Translator, args);
    var n := |toks| - 1;
    var toks', rest := TrTokens(tw, toks, []), toks[n].rest;
    LexSound(Translator, args);
    OnlyPathsChange(tw, args);
    assert Unlex([toks[n]]) == rest + [];
    assert toks == toks[..n] + [toks[n]] && toks' == toks'[..n] + [toks[n]];
    UnlexConcat(toks[..n], [toks[n]]);
    UnlexConcat(toks'[..n], [toks[n]]);
  }

  ghost predicate YieldsWindowsPaths(tw: ToWindows) {
    forall v :: tw(v).Some? ==> LooksLikeWindowsPath(tw(v).value)
  }

  lemma TrTwice(tw: ToWindows, v: string)
    requires YieldsWindowsPaths(tw)
    ensures Tr(tw, Tr(tw, v)) == Tr(tw, v)
    ensures !IsOption(v) ==> !IsOption(Tr(tw, v))
  {
  }

  lemma {:induction false} TrTokensTwice(tw: ToWindows, toks: seq<Token>, before: Args, before': Args)
    requires YieldsWindowsPaths(tw) && WellFormed(Translator, toks)
    requires before == before' || (|before| == |before'| >= 2)
    ensures TrTokens(tw, TrTokens(tw, toks, before), before') == TrTokens(tw, toks, before)
    ensures WellFormed(Translator, TrTokens(tw, toks, before))
  {
    if toks != [] {
      var t, rest := toks[0], toks[1..];
      var t' := TrToken(tw, t, before);
      WellFormedTail(Translator, toks);
      if t.Split? || t.Inline? || t.Positional? { TrTwice(tw, t.v); }
      TrTokensTwice(tw, rest, Past(t, before), Past(t', before'));
      var rest' := TrTokens(tw, rest, Past(t, before));
      TrTokensAt(tw, rest, Past(t, before));
      WellFormedCons(Translator, t', rest');
      assert TrTokens(tw, toks, before)[1..] == rest';
    }
  }

  /** Translating what has been translated changes nothing, if `to_windows` yields only Windows paths. */
  lemma TranslateIdempotent(tw: ToWindows, args: Args)
    requires YieldsWindowsPaths(tw)
    ensures Translated(tw, Translated(tw, args)) == Translated(tw, args)
  {
    var toks := Lex(Translator, args);
    LexSound(Translator, args);
    TrTokensTwice(tw, toks, [], []);
    LexUnlex(Translator, TrTokens(tw, toks, []));
  }

  // ---------------------------------------------------------------------------
  // The one reading of an argument list
  // ---------------------------------------------------------------------------

  /** The options that take the next argument for their value. */
  function ValueOptions(sc: Scanner): seq<string> {
    match sc
    case Translator => ["--vault", "--file", "--out-file", "--env-file", "-o", "--out", "--slot"]
    case SshParser => ["--vault", "--slot", "-t", "--lifetime", "--ssh-add"]
  }

  /**
   * A token as it may stand: an option with the value it takes, apart or behind `=`; another option, or one that
   * takes a value at the very end; something that is no option; and at the end whatever follows a bare `--`.
   */
  predicate MayStand(sc: Scanner, t: Token, last: bool) {
    match t
    case Flag(a) => |a| > 1 && a[0] == '-' && a != "--" && '=' !in a && (a in ValueOptions(sc) ==> last)
    case Split(o, _) => o in ValueOptions(sc)
    case Inline(o, _) => o != "" && o[0] == '-' && '=' !in o
    case Positional(v) => |v| <= 1 || v[0] != '-'
    case Tail(rest) => last && rest != [] && rest[0] == "--"
  }

  /** Written out, these tokens are the arguments, and each may stand where it does. */
  ghost predicate IsReading(sc: Scanner, args: Args, toks: seq<Token>) {
    Unlex(toks) == args && forall i | 0 <= i < |toks| :: MayStand(sc, toks[i], i == |toks| - 1)
  }

  lemma StandsIffFits(sc: Scanner, t: Token, last: bool)
    ensures MayStand(sc, t, last) <==> Fits(sc, t, last)
  {
    ValueOptionsAre(sc, if t.Split? then t.opt else if t.Flag? then t.a else "");
  }

  lemma ValueOptionsAre(sc: Scanner, o: string)
    ensures o in ValueOptions(sc) <==> Takes(sc, o)
    ensures Takes(sc, o) ==> IsOption(o) && o != "--" && '=' !in o
  {
  }

  /** Every argument list has one reading, and that is how it is read. */
  lemma LexIff(sc: Scanner, args: Args, toks: seq<Token>)
    ensures Lex(sc, args) == toks <==> IsReading(sc, args, toks)
  {
    LexSound(sc, args);
    forall t, last ensures MayStand(sc, t, last) <==> Fits(sc, t, last) { StandsIffFits(sc, t, last); }
    if IsReading(sc, args, toks) {
      assert WellFormed(sc, toks);
      LexUnlex(sc, toks);
    }
  }

  /** A path as Windows writes it: a drive letter and a colon first, or two backslashes. */
  ghost predicate WindowsForm(v: string) {
    || (exists c: char, rest: string :: v == [c] + ":" + rest && (65 <= c as int <= 90 || 97 <= c as int <= 122))
    || (exists rest: string :: v == "\\\\" + rest)
  }

  lemma WindowsFormIff(v: string)
    ensures LooksLikeWindowsPath(v) <==> WindowsForm(v)
  {
    if |v| >= 2 {
      assert v == [v[0]] + [v[1]] + v[2..];
      assert v[1] == ':' ==> v == [v[0]] + ":" + v[2..];
      assert v[..2] == "\\\\" ==> v == "\\\\" + v[2..];
    }
    if rest: string :| v == "\\\\" + rest { assert v[..2] == "\\\\"; }
  }

  /** A value stays if it is empty, a dash, or a Windows path, or if it has no translation; else that is taken. */
  lemma TrIs(tw: ToWindows, v: string)
    ensures v in ["", "-"] || WindowsForm(v) || tw(v) == None ==> Tr(tw, v) == v
    ensures v !in ["", "-"] && !WindowsForm(v) && tw(v).Some? ==> Tr(tw, v) == tw(v).value
  {
    WindowsFormIff(v);
  }
}
