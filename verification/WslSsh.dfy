/**
 * `parse_ssh_action` of the WSL shim (crates/wcm-cli/src/wsl_core.rs): the actions it recognises, writing
 * them out again, and its agreement with the path translation that runs on the same arguments.
 */
module WslSsh {
  import opened Basics
  import opened WslArgs

  const JSON: string := "--json"
  const NO_INPUT: string := "--no-input"
  const QUIET: string := "-q"
  const LONG_QUIET: string := "--quiet"
  const SSH_ADD: string := "--ssh-add"
  const LIFETIME: string := "-t"
  const SSH: string := "ssh"
  const ADD: string := "add"
  const REMOVE: string := "remove"

  datatype Op = Add | Remove

  datatype SshAction = SshAction(
    op: Op,
    name: string,
    lifetime: Option<string>,
    sshAdd: Option<string>,
    globals: Args,
    json: bool,
    quiet: bool)

  /** The local variables of the scan. */
  datatype Scan = Scan(
    globals: Args,
    positionals: Args,
    lifetime: Option<string>,
    sshAdd: Option<string>,
    json: bool,
    quiet: bool)

  const EMPTY_SCAN := Scan([], [], None, None, false, false)

  /** An option without a value. */
  function TakeFlag(s: Scan, a: string): Option<Scan> {
    if a == JSON then Some(s.(json := true))
    else if a == QUIET || a == LONG_QUIET then Some(s.(quiet := true, globals := s.globals + [QUIET]))
    else if a == NO_INPUT then Some(s.(globals := s.globals + [a]))
    else None
  }

  /** An option with its value, however it was written. */
  function TakeValue(s: Scan, o: string, v: string): Option<Scan> {
    if o == VAULT || o == SLOT then Some(s.(globals := s.globals + [o, v]))
    else if o == LIFETIME || o == "--lifetime" then Some(s.(lifetime := Some(v)))
    else if o == SSH_ADD then Some(s.(sshAdd := Some(v)))
    else None
  }

  function Take(s: Scan, t: Token): Option<Scan> {
    match t
    case Flag(a) => TakeFlag(s, a)
    case Split(o, v) => TakeValue(s, o, v)
    case Inline(o, v) => TakeValue(s, o, v)
    case Positional(v) => Some(s.(positionals := s.positionals + [v]))
    case Tail(_) => None
  }

  function TakeAll(s: Scan, toks: seq<Token>): Option<Scan>
    decreases |toks|
  {
    if toks == [] then Some(s)
    else
      match Take(s, toks[0])
      case None => None
      case Some(s') => TakeAll(s', toks[1..])
  }

  function Conclude(s: Scan): Option<SshAction> {
    if |s.positionals| != 3 || s.positionals[0] != SSH then None
    else if s.positionals[1] == ADD then
      Some(SshAction(Add, s.positionals[2], s.lifetime, s.sshAdd, s.globals, s.json, s.quiet))
    else if s.positionals[1] == REMOVE && s.lifetime.None? then
      Some(SshAction(Remove, s.positionals[2], s.lifetime, s.sshAdd, s.globals, s.json, s.quiet))
    else None
  }

  function ParseSsh(args: Args): Option<SshAction> {
    match TakeAll(EMPTY_SCAN, Lex(SshParser, args))
    case None => None
    case Some(s) => Conclude(s)
  }

  lemma TakeCons(s: Scan, t: Token, rest: seq<Token>)
    ensures TakeAll(s, [t] + rest) == (if Take(s, t).None? then None else TakeAll(Take(s, t).value, rest))
  {
  }

  /** The option branch of the loop: the token read, and what becomes of the scan; `None` gives up. */
  method ScanOption(args: Args, i: nat, s: Scan) returns (r: Option<Scan>, next: nat, ghost t: Token)
    requires i < |args| && IsOption(args[i]) && args[i] != "--"
    ensures i < next <= |args|
    ensures Lex(SshParser, args[i..]) == [t] + Lex(SshParser, args[next..])
    ensures r == Take(s, t)
  {
    var a := args[i];
    assert args[i..][0] == a && args[i..][1..] == args[i + 1..];
    next := i + 1;
    match SplitOnce(a) {
      case Some((opt, v)) =>
        t := Inline(opt, v);
        r := TakeValue(s, opt, v);
      case None =>
        if Takes(SshParser, a) && i + 1 < |args| {
          assert args[i..][2..] == args[i + 2..];
          t := Split(a, args[i + 1]);
          next := i + 2;
          r := TakeValue(s, a, args[i + 1]);
        } else {
          t := Flag(a);
          r := TakeFlag(s, a);
        }
    }
  }

  /** `parse_ssh_action` */
  method ParseSshAction(args: Args) returns (r: Option<SshAction>)
    ensures r == ParseSsh(args)
  {
    var s := EMPTY_SCAN;
    var i := 0;
    ghost var rest := Lex(SshParser, args);
    assert args[0..] == args;
    while i < |args|
      invariant 0 <= i <= |args| && rest == Lex(SshParser, args[i..])
      invariant TakeAll(s, rest) == TakeAll(EMPTY_SCAN, Lex(SshParser, args))
    {
      if args[i] == "--" {
        assert rest == [Tail(args[i..])];
        return None;
      }
      var now: Option<Scan>;
      var next;
      ghost var t: Token;
      if IsOption(args[i]) {
        now, next, t := ScanOption(args, i, s);
      } else {
        next, t := i + 1, Positional(args[i]);
        assert args[i..][1..] == args[next..];
        now := Some(s.(positionals := s.positionals + [args[i]]));
      }
      ghost var more := Lex(SshParser, args[next..]);
      assert rest == [t] + more;
      TakeCons(s, t, more);
      if now.None? { return None; }
      s := now.value;
      rest, i := more, next;
    }
    assert args[i..] == [];
    r := Conclude(s);
  }

  lemma {:induction false} TakeConcat(s: Scan, a: seq<Token>, b: seq<Token>)
    ensures TakeAll(s, a + b) == (if TakeAll(s, a).None? then None else TakeAll(TakeAll(s, a).value, b))
    decreases |a|
  {
    if a == [] {
      assert a + b == b;
    } else {
      assert (a + b)[1..] == a[1..] + b;
      if Take(s, a[0]).Some? { TakeConcat(Take(s, a[0]).value, a[1..], b); }
    }
  }

  // ---------------------------------------------------------------------------
  // `--opt value` and `--opt=value`
  // ---------------------------------------------------------------------------

  /** What follows `args` is read as if it stood alone: no option still waits for its value. */
  predicate Closed(sc: Scanner, args: Args) {
    var toks := Lex(sc, args);
    toks == [] || (!toks[|toks| - 1].Tail? && !(toks[|toks| - 1].Flag? && Takes(sc, toks[|toks| - 1].a)))
  }

  lemma WellFormedConcat(sc: Scanner, a: seq<Token>, b: seq<Token>)
    requires WellFormed(sc, a) && WellFormed(sc, b)
    requires a == [] || Fits(sc, a[|a| - 1], false)
    ensures WellFormed(sc, a + b)
  {
  }

  lemma LexConcat(sc: Scanner, a: Args, b: Args)
    requires Closed(sc, a)
    ensures Lex(sc, a + b) == Lex(sc, a) + Lex(sc, b)
  {
    LexSound(sc, a);
    LexSound(sc, b);
    WellFormedConcat(sc, Lex(sc, a), Lex(sc, b));
    UnlexConcat(Lex(sc, a), Lex(sc, b));
    LexUnlex(sc, Lex(sc, a) + Lex(sc, b));
  }

  /** Where an option may stand, writing its value apart or with `=` makes no difference. */
  lemma InlineIsSplit(a: Args, o: string, v: string, b: Args)
    requires Closed(SshParser, a) && Takes(SshParser, o)
    ensures ParseSsh(a + [o, v] + b) == ParseSsh(a + [o + "=" + v] + b)
  {
    TakesPlain(o);
    LexHead(o, v, b);
    LexMiddle(a, [o, v], b);
    LexMiddle(a, [o + "=" + v], b);
    SameTake(Lex(SshParser, a), o, v, Lex(SshParser, b));
  }

  lemma LexMiddle(a: Args, m: Args, b: Args)
    requires Closed(SshParser, a)
    ensures Lex(SshParser, a + m + b) == Lex(SshParser, a) + Lex(SshParser, m + b)
  {
    assert a + m + b == a + (m + b);
    LexConcat(SshParser, a, m + b);
  }

  lemma SameTake(before: seq<Token>, o: string, v: string, more: seq<Token>)
    ensures TakeAll(EMPTY_SCAN, before + ([Split(o, v)] + more)) ==
      TakeAll(EMPTY_SCAN, before + ([Inline(o, v)] + more))
  {
    TakeConcat(EMPTY_SCAN, before, [Split(o, v)] + more);
    TakeConcat(EMPTY_SCAN, before, [Inline(o, v)] + more);
    if TakeAll(EMPTY_SCAN, before).Some? {
      var s := TakeAll(EMPTY_SCAN, before).value;
      TakeCons(s, Split(o, v), more);
      TakeCons(s, Inline(o, v), more);
      assert Take(s, Split(o, v)) == Take(s, Inline(o, v));
    }
  }

  lemma LexHead(o: string, v: string, b: Args)
    requires IsOption(o) && o != "--" && '=' !in o && Takes(SshParser, o)
    ensures Lex(SshParser, [o, v] + b) == [Split(o, v)] + Lex(SshParser, b)
    ensures Lex(SshParser, [o + "=" + v] + b) == [Inline(o, v)] + Lex(SshParser, b)
  {
    assert ([o, v] + b)[2..] == b && ([o + "=" + v] + b)[1..] == b;
    SplitJoined(o, v);
    assert (o + "=" + v)[0] == o[0] && '=' in o + "=" + v;
  }

  lemma TakesPlain(o: string)
    requires Takes(SshParser, o)
    ensures IsOption(o) && o != "--" && '=' !in o
  {
  }

  // ---------------------------------------------------------------------------
  // Writing an action out
  // ---------------------------------------------------------------------------

  function OpName(op: Op): string { if op.Add? then ADD else REMOVE }

  function JsonToken(act: SshAction): seq<Token> { if act.json then [Flag(JSON)] else [] }

  function NameTokens(act: SshAction): seq<Token> { [Positional(SSH), Positional(OpName(act.op)),
                      Positional(act.name)] }

  function LifetimeToken(act: SshAction): seq<Token> {
    if act.lifetime.Some? then [Split(LIFETIME, act.lifetime.value)] else []
  }

  function SshAddToken(act: SshAction): seq<Token> {
    if act.sshAdd.Some? then [Split(SSH_ADD, act.sshAdd.value)] else []
  }

  /** `globals [--json] ssh <op> <name> [-t lifetime] [--ssh-add path]` */
  function RenderTokens(act: SshAction, globals: seq<Token>): seq<Token> {
    globals + (JsonToken(act) + (NameTokens(act) + (LifetimeToken(act) + SshAddToken(act))))
  }

  function Render(act: SshAction): Args {
    act.globals
    + ((if act.json then [JSON] else [])
    + ([SSH, OpName(act.op), act.name]
    + ((if act.lifetime.Some? then [LIFETIME, act.lifetime.value] else [])
    + (if act.sshAdd.Some? then [SSH_ADD, act.sshAdd.value] else []))))
  }

  /** The options forwarded to `wcm.exe`, in the form in which they are forwarded. */
  predicate IsGlobal(t: Token) {
    t == Flag(QUIET) || t == Flag(NO_INPUT) || (t.Split? && (t.opt == VAULT || t.opt == SLOT))
  }

  function GlobalOf(t: Token): (g: seq<Token>)
    ensures forall i | 0 <= i < |g| :: IsGlobal(g[i])
  {
    match t
    case Flag(a) => if a == QUIET || a == LONG_QUIET then [Flag(QUIET)] else if a == NO_INPUT then [t] else []
    case Split(o, v) => if o == VAULT || o == SLOT then [t] else []
    case Inline(o, v) => if o == VAULT || o == SLOT then [Split(o, v)] else []
    case _ => []
  }

  function GlobalsOf(toks: seq<Token>): (g: seq<Token>)
    ensures forall i | 0 <= i < |g| :: IsGlobal(g[i])
  {
    if toks == [] then [] else GlobalOf(toks[0]) + GlobalsOf(toks[1..])
  }

  lemma GlobalFits(t: Token, last: bool)
    requires IsGlobal(t)
    ensures Fits(SshParser, t, last) && Fits(Translator, t, last)
  {
  }

  lemma GlobalsWellFormed(g: seq<Token>)
    requires forall i | 0 <= i < |g| :: IsGlobal(g[i])
    ensures WellFormed(SshParser, g) && WellFormed(Translator, g)
  {
    forall i | 0 <= i < |g| ensures Fits(SshParser, g[i], i == |g| - 1) && Fits(Translator, g[i], i == |g| - 1) {
      GlobalFits(g[i], i == |g| - 1);
    }
  }

  /** Between `s` and `s'` the scan has gathered these globals and positionals. */
  ghost predicate Gathered(s: Scan, s': Scan, g: seq<Token>, p: Args) {
    && s'.globals == s.globals + Unlex(g)
    && s'.quiet == (s.quiet || Flag(QUIET) in g)
    && s'.positionals == s.positionals + p
  }

  lemma TakeOne(s: Scan, t: Token)
    requires Take(s, t).Some?
    ensures Gathered(s, Take(s, t).value, GlobalOf(t), Positionals([t]))
  {
    if GlobalOf(t) != [] { assert Unlex(GlobalOf(t)) == ArgsOf(GlobalOf(t)[0]) + []; }
  }

  lemma GatherCompose(s: Scan, s1: Scan, s2: Scan, g1: seq<Token>, g2: seq<Token>, p1: Args, p2: Args)
    requires Gathered(s, s1, g1, p1) && Gathered(s1, s2, g2, p2)
    ensures Gathered(s, s2, g1 + g2, p1 + p2)
  {
    UnlexConcat(g1, g2);
    Reassociate(s.globals, Unlex(g1), Unlex(g2));
    Reassociate(s.positionals, p1, p2);
  }

  lemma Reassociate(a: Args, b: Args, c: Args)
    ensures a + b + c == a + (b + c)
  {
  }

  /** What the scan has gathered, in terms of the tokens read. */
  lemma {:induction false} ScanGathers(s: Scan, toks: seq<Token>)
    requires TakeAll(s, toks).Some?
    ensures Gathered(s, TakeAll(s, toks).value, GlobalsOf(toks), Positionals(toks))
    decreases |toks|
  {
    if toks == [] {
      assert s.globals + Unlex([]) == s.globals && s.positionals + [] == s.positionals;
    } else {
      var s1, rest := Take(s, toks[0]).value, toks[1..];
      TakeOne(s, toks[0]);
      ScanGathers(s1, rest);
      GatherCompose(s, s1, TakeAll(s, toks).value, GlobalOf(toks[0]), GlobalsOf(rest), Positionals([toks[0]]),
                    Positionals(rest));
      assert Positionals([toks[0]]) + Positionals(rest) == Positionals(toks);
    }
  }

  lemma GlobalIsItsOwn(s: Scan, t: Token)
    requires IsGlobal(t)
    ensures Take(s, t) == Some(s.(globals := s.globals + ArgsOf(t), quiet := s.quiet || t == Flag(QUIET)))
  {
  }

  lemma {:induction false} TakeGlobals(s: Scan, g: seq<Token>)
    requires forall i | 0 <= i < |g| :: IsGlobal(g[i])
    ensures TakeAll(s, g) == Some(s.(globals := s.globals + Unlex(g), quiet := s.quiet || Flag(QUIET) in g))
    decreases |g|
  {
    if g == [] {
      assert s.globals + Unlex(g) == s.globals;
    } else {
      GlobalIsItsOwn(s, g[0]);
      var s1 := Take(s, g[0]).value;
      TakeGlobals(s1, g[1..]);
      assert s1.globals + Unlex(g[1..]) == s.globals + Unlex(g);
      assert Flag(QUIET) in g <==> g[0] == Flag(QUIET) || Flag(QUIET) in g[1..];
    }
  }

  lemma RenderFits(act: SshAction, g: seq<Token>)
    requires forall i | 0 <= i < |g| :: IsGlobal(g[i])
    requires !IsOption(act.name)
    ensures WellFormed(SshParser, RenderTokens(act, g))
  {
    var toks := RenderTokens(act, g);
    GlobalsWellFormed(g);
    assert Fits(SshParser, Flag(JSON), false) && Fits(SshParser, Positional(SSH), false);
    assert Fits(SshParser, Positional(ADD), false) && Fits(SshParser, Positional(REMOVE), false);
    forall i | 0 <= i < |toks| ensures Fits(SshParser, toks[i], i == |toks| - 1) {
      if i < |g| { GlobalFits(g[i], i == |toks| - 1); }
    }
  }

  lemma RenderIsUnlex(act: SshAction, g: seq<Token>)
    requires act.globals == Unlex(g)
    ensures Unlex(RenderTokens(act, g)) == Render(act)
  {
    var j, p, l, a := JsonToken(act), NameTokens(act), LifetimeToken(act), SshAddToken(act);
    UnlexConcat(g, j + (p + (l + a)));
    UnlexConcat(j, p + (l + a));
    UnlexConcat(p, l + a);
    UnlexConcat(l, a);
    UnlexParts(act);
  }

  lemma UnlexParts(act: SshAction)
    ensures Unlex(JsonToken(act)) == if act.json then [JSON] else []
    ensures Unlex(NameTokens(act)) == [SSH, OpName(act.op), act.name]
    ensures Unlex(LifetimeToken(act)) == if act.lifetime.Some? then [LIFETIME, act.lifetime.value] else []
    ensures Unlex(SshAddToken(act)) == if act.sshAdd.Some? then [SSH_ADD, act.sshAdd.value] else []
  {
    UnlexOne(Flag(JSON));
    UnlexThree(Positional(SSH), Positional(OpName(act.op)), Positional(act.name));
    if act.lifetime.Some? { UnlexOne(Split(LIFETIME, act.lifetime.value)); }
    if act.sshAdd.Some? { UnlexOne(Split(SSH_ADD, act.sshAdd.value)); }
  }

  lemma UnlexOne(t: Token)
    ensures Unlex([t]) == ArgsOf(t)
  {
  }

  lemma UnlexThree(a: Token, b: Token, c: Token)
    ensures Unlex([a, b, c]) == ArgsOf(a) + ArgsOf(b) + ArgsOf(c)
  {
    assert [a, b, c] == [a] + ([b] + [c]);
    UnlexConcat([a], [b] + [c]);
    UnlexConcat([b], [c]);
    UnlexOne(a);
    UnlexOne(b);
    UnlexOne(c);
  }

  function WithGlobals(act: SshAction): Scan { Scan(act.globals, [], None, None, false, act.quiet) }

  function WithAll(act: SshAction): Scan {
    Scan(act.globals, [SSH, OpName(act.op), act.name], act.lifetime, act.sshAdd, act.json, act.quiet)
  }

  lemma TakeActGlobals(act: SshAction, g: seq<Token>)
    requires forall i | 0 <= i < |g| :: IsGlobal(g[i])
    requires act.globals == Unlex(g) && act.quiet == (Flag(QUIET) in g)
    ensures TakeAll(EMPTY_SCAN, g) == Some(WithGlobals(act))
  {
    TakeGlobals(EMPTY_SCAN, g);
    NothingBefore(act.globals);
  }

  /** The scan over the tokens of an action gathers just its parts. */
  lemma TakeRender(act: SshAction, g: seq<Token>)
    requires TakeAll(EMPTY_SCAN, g) == Some(WithGlobals(act))
    ensures TakeAll(EMPTY_SCAN, RenderTokens(act, g)) == Some(WithAll(act))
  {
    var s1 := WithGlobals(act);
    var s2 := s1.(json := act.json);
    var s3 := s2.(positionals := [SSH, OpName(act.op), act.name]);
    TakeJson(s1, act);
    TakePositionals(s2, SSH, OpName(act.op), act.name);
    TakeRest(s3, act);
    TakeChain(EMPTY_SCAN, g, s1, JsonToken(act), s2, NameTokens(act), s3, LifetimeToken(act) + SshAddToken(act));
  }

  lemma NothingBefore(x: Args)
    ensures EMPTY_SCAN.globals + x == x
  {
  }

  lemma TakeChain(s: Scan, a: seq<Token>, s1: Scan, b: seq<Token>, s2: Scan, c: seq<Token>, s3: Scan, d: seq<Token>)
    requires TakeAll(s, a) == Some(s1) && TakeAll(s1, b) == Some(s2) && TakeAll(s2, c) == Some(s3)
    ensures TakeAll(s, a + (b + (c + d))) == TakeAll(s3, d)
  {
    TakeConcat(s, a, b + (c + d));
    TakeConcat(s1, b, c + d);
    TakeConcat(s2, c, d);
  }

  lemma TakeJson(s: Scan, act: SshAction)
    requires !s.json
    ensures TakeAll(s, JsonToken(act)) == Some(s.(json := act.json))
  {
  }

  lemma TakePositionals(s: Scan, a: string, b: string, c: string)
    requires s.positionals == []
    ensures TakeAll(s, [Positional(a), Positional(b), Positional(c)]) == Some(s.(positionals := [a, b, c]))
  {
    var toks := [Positional(a), Positional(b), Positional(c)];
    assert toks[1..] == [Positional(b), Positional(c)] && toks[1..][1..] == [Positional(c)];
    assert toks[1..][1..][1..] == [];
    var s1, s2 := s.(positionals := [a]), s.(positionals := [a, b]);
    assert [] + [a] == [a] && [a] + [b] == [a, b] && [a, b] + [c] == [a, b, c];
    assert TakeAll(s2, [Positional(c)]) == Some(s.(positionals := [a, b, c]));
    assert TakeAll(s1, toks[1..]) == TakeAll(s2, [Positional(c)]);
    assert TakeAll(s, toks) == TakeAll(s1, toks[1..]);
  }

  lemma TakeRest(s: Scan, act: SshAction)
    requires s.lifetime.None? && s.sshAdd.None?
    ensures TakeAll(s, LifetimeToken(act) + SshAddToken(act))
         == Some(s.(lifetime := act.lifetime, sshAdd := act.sshAdd))
  {
    TakeConcat(s, LifetimeToken(act), SshAddToken(act));
    assert |LIFETIME| == 2 && |SSH_ADD| == 9 && |VAULT| == 7 && |SLOT| == 6;
    var s1 := s.(lifetime := act.lifetime);
    if act.lifetime.Some? { TakeCons(s, Split(LIFETIME, act.lifetime.value), []); }
    assert TakeAll(s, LifetimeToken(act)) == Some(s1);
    if act.sshAdd.Some? { TakeCons(s1, Split(SSH_ADD, act.sshAdd.value), []); }
  }

  lemma {:induction false} PositionalsAreNoOptions(sc: Scanner, toks: seq<Token>)
    requires WellFormed(sc, toks)
    ensures forall i | 0 <= i < |Positionals(toks)| :: !IsOption(Positionals(toks)[i])
  {
    if toks != [] {
      WellFormedTail(sc, toks);
      PositionalsAreNoOptions(sc, toks[1..]);
    }
  }

  /** What a parsed action says about the tokens it came from. */
  lemma ParsedFrom(args: Args)
    requires ParseSsh(args).Some?
    ensures var toks, act := Lex(SshParser, args), ParseSsh(args).value;
            && TakeAll(EMPTY_SCAN, toks).Some?
            && WellFormed(SshParser, toks)
            && act.globals == Unlex(GlobalsOf(toks))
            && act.quiet == (Flag(QUIET) in GlobalsOf(toks))
            && Positionals(toks) == [SSH, OpName(act.op), act.name]
            && !IsOption(act.name)
            && (act.op.Remove? ==> act.lifetime.None?)
  {
    var toks := Lex(SshParser, args);
    LexSound(SshParser, args);
    ScanGathers(EMPTY_SCAN, toks);
    PositionalsAreNoOptions(SshParser, toks);
    var s := TakeAll(EMPTY_SCAN, toks).value;
    NothingBefore(Unlex(GlobalsOf(toks)));
    NothingBefore(Positionals(toks));
    ConcludedFrom(s, ParseSsh(args).value);
    assert Positionals(toks)[2] == ParseSsh(args).value.name;
  }

  lemma ConcludedFrom(s: Scan, act: SshAction)
    requires Conclude(s) == Some(act)
    ensures s.positionals == [SSH, OpName(act.op), act.name] && s.globals == act.globals && s.quiet == act.quiet
    ensures act.op.Remove? ==> act.lifetime.None?
  {
  }

  /** An action that was parsed, written out and parsed again is the same action. */
  lemma RenderRoundTrip(args: Args)
    requires ParseSsh(args).Some?
    ensures ParseSsh(Render(ParseSsh(args).value)) == ParseSsh(args)
  {
    var act, g := ParseSsh(args).value, GlobalsOf(Lex(SshParser, args));
    ParsedFrom(args);
    RenderFits(act, g);
    RenderIsUnlex(act, g);
    LexUnlex(SshParser, RenderTokens(act, g));
    TakeActGlobals(act, g);
    TakeRender(act, g);
    ConcludeRender(act);
  }

  lemma ConcludeRender(act: SshAction)
    requires act.op.Remove? ==> act.lifetime.None?
    ensures Conclude(WithAll(act)) == Some(act)
  {
  }

  // ---------------------------------------------------------------------------
  // Which argument lists are actions
  // ---------------------------------------------------------------------------

  /** A token that an ssh action may contain. */
  predicate Allowed(t: Token) {
    match t
    case Flag(a) => a in ["--json", "-q", "--quiet", "--no-input"]
    case Split(o, _) => o in ["--vault", "--slot", "-t", "--lifetime", "--ssh-add"]
    case Inline(o, _) => o in ["--vault", "--slot", "-t", "--lifetime", "--ssh-add"]
    case Positional(_) => true
    case Tail(_) => false
  }

  /** What of a token is forwarded to `wcm.exe`. */
  function Forwarded(t: Token): Args {
    match t
    case Flag(a) => if a in ["-q", "--quiet"] then ["-q"] else if a == "--no-input" then [a] else []
    case Split(o, v) => if o in ["--vault", "--slot"] then [o, v] else []
    case Inline(o, v) => if o in ["--vault", "--slot"] then [o, v] else []
    case _ => []
  }

  function AllForwarded(toks: seq<Token>): Args {
    if toks == [] then [] else AllForwarded(toks[..|toks| - 1]) + Forwarded(toks[|toks| - 1])
  }

  /** The value that the last of these options gives. */
  function LastOf(toks: seq<Token>, opts: seq<string>): Option<string> {
    if toks == [] then None
    else
      var n := |toks| - 1;
      if (toks[n].Split? || toks[n].Inline?) && toks[n].opt in opts then Some(toks[n].v) else LastOf(toks[..n], opts)
  }

  /** What a scan of the tokens has found. */
  ghost predicate Found(toks: seq<Token>, s: Scan) {
    && s.globals == AllForwarded(toks)
    && s.lifetime == LastOf(toks, ["-t", "--lifetime"]) && s.sshAdd == LastOf(toks, ["--ssh-add"])
    && (s.json <==> Flag("--json") in toks)
    && (s.quiet <==> Flag("-q") in toks || Flag("--quiet") in toks)
  }

  lemma FlagEffect(s: Scan, a: string)
    ensures TakeFlag(s, a).Some? <==> Allowed(Flag(a))
    ensures TakeFlag(s, a).Some? ==>
              TakeFlag(s, a).value
                == s.(globals := s.globals + Forwarded(Flag(a)), json := s.json || a == "--json",
                      quiet := s.quiet || a == "-q" || a == "--quiet")
  {
    assert |"-q"| == 2 && |"--json"| == 6 && |"--quiet"| == 7 && |"--no-input"| == 10;
  }

  lemma ValueEffect(s: Scan, o: string, v: string)
    ensures TakeValue(s, o, v).Some? <==> o in ["--vault", "--slot", "-t", "--lifetime", "--ssh-add"]
    ensures TakeValue(s, o, v).Some? ==>
              TakeValue(s, o, v).value
                == s.(globals := s.globals + (if o in ["--vault", "--slot"] then [o, v] else []),
                      lifetime := if o in ["-t", "--lifetime"] then Some(v) else s.lifetime,
                      sshAdd := if o in ["--ssh-add"] then Some(v) else s.sshAdd)
  {
    assert |"-t"| == 2 && |"--slot"| == 6 && |"--vault"| == 7 && |"--ssh-add"| == 9 && |"--lifetime"| == 10;
  }

  lemma FlagIn(toks: seq<Token>, t: Token, f: string)
    ensures Flag(f) in toks + [t] <==> Flag(f) in toks || t == Flag(f)
  {
  }

  lemma FoundNext(toks: seq<Token>, s: Scan, t: Token)
    requires Found(toks, s)
    ensures Take(s, t).Some? <==> Allowed(t)
    ensures Take(s, t).Some? ==> Found(toks + [t], Take(s, t).value)
  {
    var all := toks + [t];
    assert all[..|all| - 1] == toks && all[|all| - 1] == t;
    FlagIn(toks, t, "--json");
    FlagIn(toks, t, "-q");
    FlagIn(toks, t, "--quiet");
    match t
    case Flag(a) => FlagEffect(s, a);
    case Split(o, v) => ValueEffect(s, o, v);
    case Inline(o, v) => ValueEffect(s, o, v);
    case _ =>
  }

  lemma {:induction false} ScanFinds(toks: seq<Token>)
    ensures TakeAll(EMPTY_SCAN, toks).Some? <==> forall t | t in toks :: Allowed(t)
    ensures TakeAll(EMPTY_SCAN, toks).Some? ==> Found(toks, TakeAll(EMPTY_SCAN, toks).value)
    decreases |toks|
  {
    if toks != [] {
      var n := |toks| - 1;
      assert toks == toks[..n] + [toks[n]];
      ScanFinds(toks[..n]);
      TakeConcat(EMPTY_SCAN, toks[..n], [toks[n]]);
      if TakeAll(EMPTY_SCAN, toks[..n]).Some? {
        var s := TakeAll(EMPTY_SCAN, toks[..n]).value;
        TakeCons(s, toks[n], []);
        assert [toks[n]] + [] == [toks[n]];
        FoundNext(toks[..n], s, toks[n]);
      }
    }
  }

  /**
   * The arguments ask for this action: three positionals, `ssh`, `add` or `remove`, and the name; only known
   * options, the last of each counting; no lifetime with `remove`; and what is forwarded in its order.
   */
  ghost predicate AsksFor(args: Args, act: SshAction) {
    var toks := Lex(SshParser, args);
    && (forall t | t in toks :: Allowed(t))
    && Positionals(toks) == ["ssh", if act.op.Add? then "add" else "remove", act.name]
    && act.lifetime == LastOf(toks, ["-t", "--lifetime"]) && (act.op.Remove? ==> act.lifetime == None)
    && act.sshAdd == LastOf(toks, ["--ssh-add"])
    && act.globals == AllForwarded(toks)
    && (act.json <==> Flag("--json") in toks)
    && (act.quiet <==> Flag("-q") in toks || Flag("--quiet") in toks)
  }

  lemma ConcludeIff(s: Scan, act: SshAction)
    ensures Conclude(s) == Some(act) <==>
              && s.positionals == ["ssh", if act.op.Add? then "add" else "remove", act.name]
              && s.lifetime == act.lifetime && (act.op.Remove? ==> act.lifetime == None)
              && s.sshAdd == act.sshAdd && s.globals == act.globals && s.json == act.json && s.quiet == act.quiet
  {
    assert |"add"| == 3 && |"remove"| == 6;
    if |s.positionals| == 3 { assert s.positionals == [s.positionals[0], s.positionals[1], s.positionals[2]]; }
  }

  /** An action is recognised if and only if the arguments ask for it. */
  lemma ParseIff(args: Args, act: SshAction)
    ensures ParseSsh(args) == Some(act) <==> AsksFor(args, act)
  {
    var toks := Lex(SshParser, args);
    ScanFinds(toks);
    if TakeAll(EMPTY_SCAN, toks).Some? {
      ScanGathers(EMPTY_SCAN, toks);
      assert [] + Positionals(toks) == Positionals(toks);
      ConcludeIff(TakeAll(EMPTY_SCAN, toks).value, act);
    }
  }
}
