/**
 * Recovery keys: how they are displayed, which spellings the parser accepts, and the normaliser that
 * stands in front of every typed secret (crates/wcm-core/src/recovery_key.rs, crates/wcm-cli/src/prompt.rs).
 */
module RecoveryKey {
  import opened Basics
  import opened Chars
  import opened Slots
  import Base32

  const PREFIX: string := "WCM1"
  const RAW_LEN := 20
  const RANDOM_LEN := 18

  /** Stands for the first two bytes of SHA-256: any function of the random part. */
  type Checksum = Bytes -> Bytes

  predicate ValidKey(ck: Checksum, k: Bytes) {
    |k| == RAW_LEN && k[RANDOM_LEN..] == ck(k[..RANDOM_LEN])
  }

  /** `generate`, from its random bytes. */
  method Generate(ck: Checksum, random: Bytes) returns (k: Bytes)
    requires |random| == RANDOM_LEN && |ck(random)| == 2
    ensures ValidKey(ck, k) && k[..RANDOM_LEN] == random
  {
    var raw := new Byte[RAW_LEN](_ => 0);
    forall i | 0 <= i < RANDOM_LEN { raw[i] := random[i]; }
    var sum := ck(random);
    forall i | 0 <= i < RAW_LEN - RANDOM_LEN { raw[RANDOM_LEN + i] := sum[i]; }
    k := raw[..];
    assert k[..RANDOM_LEN] == random && k[RANDOM_LEN..] == sum;
  }

  // ---------------------------------------------------------------------------
  // Display
  // ---------------------------------------------------------------------------

  function Groups(s: string): string
    requires |s| % 4 == 0
  {
    if s == "" then "" else "-" + s[..4] + Groups(s[4..])
  }

  /** The 32 letters of a key. */
  function LettersOf(k: Bytes): (s: string)
    requires |k| == RAW_LEN
    ensures |s| == 32 && Base32.AllLetters(s)
  {
    Base32.Encode(k, |k| / 5)
  }

  /** The key with these letters. */
  function KeyOf(letters: string): (k: Bytes)
    requires |letters| == 32 && Base32.AllLetters(letters)
    ensures |k| == RAW_LEN
  {
    Base32.Decode(letters, |letters| / 8).value
  }

  lemma KeyOfLetters(k: Bytes)
    requires |k| == RAW_LEN
    ensures KeyOf(LettersOf(k)) == k
  {
    Base32.DecodeEncode(k, |k| / 5);
  }

  lemma LettersOfKey(letters: string)
    requires |letters| == 32 && Base32.AllLetters(letters)
    ensures LettersOf(KeyOf(letters)) == letters
  {
    Base32.EncodeDecode(letters, |letters| / 8);
  }

  lemma KeysAndLetters(k: Bytes, letters: string)
    requires |k| == RAW_LEN && |letters| == 32 && Base32.AllLetters(letters)
    ensures KeyOf(letters) == k <==> letters == LettersOf(k)
  {
    KeyOfLetters(k);
    LettersOfKey(letters);
  }

  /** `WCM1-XXXX-XXXX-XXXX-XXXX-XXXX-XXXX-XXXX-XXXX` */
  function Display(k: Bytes): string
    requires |k| == RAW_LEN
  {
    PREFIX + Groups(LettersOf(k))
  }

  lemma {:induction false} GroupsAt(s: string, n: nat, g: nat, c: nat)
    requires |s| == 4 * n && g < n && c < 4
    ensures |Groups(s)| == 5 * n
    ensures Groups(s)[5 * g] == '-' && Groups(s)[5 * g + 1 + c] == s[4 * g + c]
  {
    var rest := Groups(s[4..]);
    assert Groups(s) == "-" + s[..4] + rest;
    if g > 0 { GroupsAt(s[4..], n - 1, g - 1, c); } else { GroupsLength(s[4..], n - 1); }
  }

  lemma {:induction false} GroupsLength(s: string, n: nat)
    requires |s| == 4 * n
    ensures |Groups(s)| == 5 * n
  {
    if n > 0 { GroupsLength(s[4..], n - 1); }
  }

  /**
   * A displayed key, character by character: `WCM1`, then eight times a dash and four letters. The letter in
   * place `c` of group `g` is that of the alphabet at the number written by five bits of the key, the groups of
   * five bits counted from the front.
   */
  lemma DisplayAt(k: Bytes, g: nat, c: nat)
    requires |k| == 20 && g < 8 && c < 4
    ensures |Display(k)| == 44 && Display(k)[..4] == "WCM1"
    ensures Display(k)[4 + 5 * g] == '-'
    ensures Display(k)[4 + 5 * g + 1 + c]
         == "ABCDEFGHIJKLMNOPQRSTUVWXYZ234567"[Base32.FiveBits(k, 5 * (4 * g + c))]
  {
    var letters := LettersOf(k);
    GroupsAt(letters, 8, g, c);
    Base32.EncodeAt(k, |k| / 5, 4 * g + c);
  }

  /** Whole groups are left from `i` on. */
  predicate WholeGroups(s: string, i: nat) { i <= |s| && (|s| - i) % 4 == 0 }

  /** `out`, written up to `i`, is the beginning of `all`. */
  predicate WrittenTo(all: string, out: string, s: string, i: nat)
    requires WholeGroups(s, i)
  {
    all == out + Groups(s[i..])
  }

  lemma GroupsStep(all: string, out: string, s: string, i: nat, next: nat)
    requires i < |s| && next == i + 4 && WholeGroups(s, i) && WrittenTo(all, out, s, i)
    ensures WholeGroups(s, next) && WrittenTo(all, out + "-" + s[i..next], s, next)
  {
    assert Groups(s[i..]) == "-" + s[i..][..4] + Groups(s[i..][4..]);
    assert s[i..][..4] == s[i..next] && s[i..][4..] == s[next..];
    assert out + ("-" + s[i..next] + Groups(s[next..])) == out + "-" + s[i..next] + Groups(s[next..]);
  }

  method DisplayKey(k: Bytes) returns (out: string)
    requires |k| == RAW_LEN
    ensures out == Display(k)
  {
    var enc := LettersOf(k);
    out := PREFIX;
    var i := 0;
    assert enc[0..] == enc;
    while i < |enc|
      invariant WholeGroups(enc, i) && WrittenTo(Display(k), out, enc, i)
    {
      var next := i + 4;
      GroupsStep(Display(k), out, enc, i, next);
      out := out + "-";
      out := out + enc[i..next];
      i := next;
    }
    assert enc[i..] == "";
  }

  // ---------------------------------------------------------------------------
  // Parse
  // ---------------------------------------------------------------------------

  predicate IsSeparator(c: char) { IsWhitespace(c) || c == '-' || c == '_' }

  /** Without separators, in ASCII upper case. */
  function Clean(s: string): string {
    if s == "" then "" else if IsSeparator(s[0]) then Clean(s[1..]) else [ToUpper(s[0])] + Clean(s[1..])
  }

  /** Digits that are not in the alphabet stand for the letters they resemble. */
  function Fix(c: char): char {
    match c
    case '0' => 'O'
    case '1' => 'I'
    case '8' => 'B'
    case _ => c
  }

  function FixAll(s: string): (r: string)
    ensures |r| == |s|
  {
    seq(|s|, i requires 0 <= i < |s| => Fix(s[i]))
  }

  lemma {:induction false} LettersAreBytes(s: string)
    requires Base32.AllLetters(FixAll(s))
    ensures StrUtf8Len(s) == |s|
  {
    if s != "" {
      assert FixAll(s)[0] == Fix(s[0]);
      assert FixAll(s[1..]) == FixAll(s)[1..];
      LettersAreBytes(s[1..]);
    }
  }

  function StripPrefix(s: string): string {
    if StartsWith(s, PREFIX) then s[|PREFIX|..] else s
  }

  function Parse(ck: Checksum, input: string): (r: Result<Bytes>)
    ensures r.Ok? ==> ValidKey(ck, r.value)
  {
    var body := StripPrefix(Clean(input));
    if StrUtf8Len(body) != 32 then Err(Invalid("recovery key must have 32 base32 characters"))
    else
      var fixed := FixAll(body);
      if !Base32.AllLetters(fixed) then Err(Invalid("recovery key contains invalid characters"))
      else
        LettersAreBytes(body);
        var raw := KeyOf(fixed);
        if ck(raw[..RANDOM_LEN]) != raw[RANDOM_LEN..] then Err(Invalid("recovery key checksum mismatch")) else Ok(raw)
  }

  // ---------------------------------------------------------------------------
  // The accepted spellings
  // ---------------------------------------------------------------------------

  /** A character to be written; in the body, digits may stand for letters they resemble. */
  datatype Want = Want(c: char, lenient: bool)

  predicate Lookalike(c: char, letter: char) {
    (c == '0' && letter == 'O') || (c == '1' && letter == 'I') || (c == '8' && letter == 'B')
  }

  /** Either case of the character, or a lookalike. */
  predicate Spells(c: char, w: Want) {
    || c == w.c
    || (IsAsciiUpper(w.c) && c as int == w.c as int + 32)
    || (w.lenient && Lookalike(c, w.c))
  }

  /** `s` spells the pattern, with separators anywhere. */
  predicate Written(s: string, pattern: seq<Want>)
    decreases |s|
  {
    if s == "" then pattern == []
    else
      || (IsSeparator(s[0]) && Written(s[1..], pattern))
      || (pattern != [] && Spells(s[0], pattern[0]) && Written(s[1..], pattern[1..]))
  }

  const PREFIX_PATTERN: seq<Want> := [Want('W', false), Want('C', false), Want('M', false), Want('1', false)]

  function BodyPattern(letters: string): (p: seq<Want>)
    ensures |p| == |letters|
  {
    seq(|letters|, i requires 0 <= i < |letters| => Want(letters[i], true))
  }

  /** The first characters written read as the prefix. */
  ghost predicate ReadsPrefix(s: string) {
    exists n | 0 <= n <= |s| :: Written(s[..n], PREFIX_PATTERN)
  }

  /**
   * The spellings of a key: case, separators and lookalike digits are free and the prefix may be left out,
   * unless what is left reads like the prefix itself.
   */
  ghost predicate Accepted(s: string, k: Bytes)
    requires |k| == RAW_LEN
  {
    || Written(s, PREFIX_PATTERN + BodyPattern(LettersOf(k)))
    || (Written(s, BodyPattern(LettersOf(k))) && !ReadsPrefix(s))
  }

  ghost predicate Spellable(pattern: seq<Want>) {
    forall i | 0 <= i < |pattern| :: Base32.IsLetter(pattern[i].c) || (pattern[i].c == '1' && !pattern[i].lenient)
  }

  /** What a cleaned string must be to spell the pattern. */
  ghost predicate Reads(cleaned: string, pattern: seq<Want>) {
    && |cleaned| == |pattern|
    && forall i | 0 <= i < |pattern| :: cleaned[i] == pattern[i].c || (pattern[i].lenient &&
        Lookalike(cleaned[i], pattern[i].c))
  }

  lemma {:induction false} WrittenIff(s: string, pattern: seq<Want>)
    requires Spellable(pattern)
    ensures Written(s, pattern) <==> Reads(Clean(s), pattern)
    decreases |s|
  {
    if s != "" {
      if IsSeparator(s[0]) {
        WrittenIff(s[1..], pattern);
      } else if pattern != [] {
        var rest := Clean(s[1..]);
        WrittenIff(s[1..], pattern[1..]);
        assert Clean(s) == [ToUpper(s[0])] + rest;
        assert Reads(Clean(s), pattern) ==> Reads(rest, pattern[1..]) by {
          if Reads(Clean(s), pattern) {
            forall i | 0 <= i < |rest|
              ensures rest[i] == pattern[1..][i].c || (pattern[1..][i].lenient && Lookalike(rest[i], pattern[1..][i].c))
            {
              assert Clean(s)[i + 1] == rest[i];
            }
          }
        }
      }
    }
  }

  lemma {:induction false} CleanConcat(a: string, b: string)
    ensures Clean(a + b) == Clean(a) + Clean(b)
  {
    if a == "" {
      assert a + b == b;
    } else {
      assert (a + b)[1..] == a[1..] + b;
      CleanConcat(a[1..], b);
    }
  }

  /** Every beginning of the cleaned string comes from a beginning of the string. */
  lemma {:induction false} CleanPrefix(s: string, m: nat) returns (n: nat)
    requires m <= |Clean(s)|
    ensures n <= |s| && Clean(s[..n]) == Clean(s)[..m]
  {
    if m == 0 {
      n := 0;
    } else {
      var n' := CleanPrefix(s[1..], if IsSeparator(s[0]) then m else m - 1);
      n := n' + 1;
      assert s[..n] == [s[0]] + s[1..][..n'];
      CleanConcat([s[0]], s[1..][..n']);
      assert [s[0]][1..] == "";
    }
  }

  lemma ReadsPrefixIff(s: string)
    ensures ReadsPrefix(s) <==> StartsWith(Clean(s), PREFIX)
  {
    if ReadsPrefix(s) {
      var n :| 0 <= n <= |s| && Written(s[..n], PREFIX_PATTERN);
      WrittenIff(s[..n], PREFIX_PATTERN);
      assert Clean(s[..n]) == PREFIX;
      CleanConcat(s[..n], s[n..]);
      assert s == s[..n] + s[n..];
    }
    if StartsWith(Clean(s), PREFIX) {
      var n := CleanPrefix(s, 4);
      WrittenIff(s[..n], PREFIX_PATTERN);
    }
  }

  /** Reading a body pattern is having these letters after the fixes. */
  lemma ReadsBodyIff(body: string, letters: string)
    requires Base32.AllLetters(letters)
    ensures Reads(body, BodyPattern(letters)) <==> FixAll(body) == letters
  {
  }

  lemma ReadsBothIff(cleaned: string, letters: string)
    requires Base32.AllLetters(letters)
    ensures Reads(cleaned, PREFIX_PATTERN + BodyPattern(letters)) <==>
              StartsWith(cleaned, PREFIX) && FixAll(cleaned[4..]) == letters
  {
  }

  lemma PatternsSpellable(letters: string)
    requires Base32.AllLetters(letters)
    ensures Spellable(BodyPattern(letters)) && Spellable(PREFIX_PATTERN + BodyPattern(letters))
  {
  }

  lemma AcceptedIff(s: string, k: Bytes)
    requires |k| == RAW_LEN
    ensures Accepted(s, k) <==> FixAll(StripPrefix(Clean(s))) == LettersOf(k)
  {
    var letters, cleaned := LettersOf(k), Clean(s);
    PatternsSpellable(letters);
    WrittenIff(s, PREFIX_PATTERN + BodyPattern(letters));
    WrittenIff(s, BodyPattern(letters));
    ReadsPrefixIff(s);
    ReadsBothIff(cleaned, letters);
    ReadsBodyIff(cleaned, letters);
  }

  /** What `parse` decides by, in terms of the letters of the key. */
  lemma ParseLetters(ck: Checksum, s: string, k: Bytes)
    ensures Parse(ck, s) == Ok(k) <==> ValidKey(ck, k) && FixAll(StripPrefix(Clean(s))) == LettersOf(k)
  {
    var body := StripPrefix(Clean(s));
    var fixed := FixAll(body);
    if Base32.AllLetters(fixed) {
      LettersAreBytes(body);
      if |k| == RAW_LEN && |fixed| == 32 { KeysAndLetters(k, fixed); }
    }
  }

  /** `parse` returns a key for exactly its accepted spellings, and for nothing else. */
  lemma ParseIff(ck: Checksum, s: string, k: Bytes)
    ensures Parse(ck, s) == Ok(k) <==> ValidKey(ck, k) && Accepted(s, k)
    ensures ValidKey(ck, k) <==> |k| == 20 && k[18..] == ck(k[..18])
    ensures Parse(ck, s).Err? ==> Parse(ck, s).error.Invalid?
  {
    ParseLetters(ck, s, k);
    if |k| == RAW_LEN { AcceptedIff(s, k); }
  }

  // ---------------------------------------------------------------------------
  // Round trip
  // ---------------------------------------------------------------------------

  lemma {:induction false} CleanLetters(s: string)
    requires Base32.AllLetters(s)
    ensures Clean(s) == s
  {
    if s != "" {
      CleanLetters(s[1..]);
      assert s == [s[0]] + s[1..];
    }
  }

  lemma {:induction false} CleanGroups(s: string)
    requires |s| % 4 == 0 && Base32.AllLetters(s)
    ensures Clean(Groups(s)) == s
  {
    if s != "" {
      CleanGroups(s[4..]);
      CleanLetters(s[..4]);
      CleanConcat("-" + s[..4], Groups(s[4..]));
      assert ("-" + s[..4])[1..] == s[..4];
      assert s == s[..4] + s[4..];
    }
  }

  lemma CleanOfPrefix()
    ensures Clean(PREFIX) == PREFIX
  {
    assert PREFIX[1..] == "CM1" && "CM1"[1..] == "M1" && "M1"[1..] == "1" && "1"[1..] == "";
  }

  lemma CleanDisplay(k: Bytes)
    requires |k| == RAW_LEN
    ensures Clean(Display(k)) == PREFIX + LettersOf(k)
  {
    CleanConcat(PREFIX, Groups(LettersOf(k)));
    CleanGroups(LettersOf(k));
    CleanOfPrefix();
  }

  /** With the prefix off, the letters of a key need no fixing. */
  lemma LettersStripped(letters: string)
    requires Base32.AllLetters(letters)
    ensures FixAll(StripPrefix(PREFIX + letters)) == letters
  {
    assert (PREFIX + letters)[..4] == PREFIX && (PREFIX + letters)[4..] == letters;
    assert FixAll(letters) == letters;
  }

  /** A displayed key parses back to itself. */
  lemma ParseDisplay(ck: Checksum, k: Bytes)
    requires ValidKey(ck, k)
    ensures Parse(ck, Display(k)) == Ok(k)
  {
    CleanDisplay(k);
    LettersStripped(LettersOf(k));
    ParseLetters(ck, Display(k), k);
  }

  // ---------------------------------------------------------------------------
  // The normaliser
  // ---------------------------------------------------------------------------

  function UpperAll(s: string): (r: string)
    ensures |r| == |s|
  {
    seq(|s|, i requires 0 <= i < |s| => ToUpper(s[i]))
  }

  predicate LooksLike(s: string) { StartsWith(UpperAll(Trim(s)), PREFIX) }

  /** `normalize_secret` */
  function Normalize(ck: Checksum, input: string): Result<string> {
    if LooksLike(input) then
      var k :- Parse(ck, input);
      Ok(Display(k))
    else Ok(input)
  }

  /** The spelling the program itself prints for some key. */
  ghost predicate Canonical(ck: Checksum, s: string) {
    exists k :: ValidKey(ck, k) && s == Display(k)
  }

  lemma {:induction false} GroupsEnd(s: string)
    requires |s| % 4 == 0 && s != "" && Base32.AllLetters(s)
    ensures Groups(s) != "" && !IsWhitespace(Groups(s)[|Groups(s)| - 1])
  {
    if |s| == 4 {
      assert s[4..] == "";
      assert Groups(s) == "-" + s[..4];
    } else {
      GroupsEnd(s[4..]);
    }
  }

  lemma NothingToTrim(s: string)
    requires s != "" && !IsWhitespace(s[0]) && !IsWhitespace(s[|s| - 1])
    ensures Trim(s) == s
  {
  }

  lemma UpperPrefix(s: string, rest: string)
    requires s == PREFIX + rest
    ensures StartsWith(UpperAll(s), PREFIX)
  {
  }

  lemma DisplayLooksLike(k: Bytes)
    requires |k| == RAW_LEN
    ensures LooksLike(Display(k))
  {
    var groups := Groups(LettersOf(k));
    GroupsEnd(LettersOf(k));
    assert (PREFIX + groups)[0] == 'W';
    NothingToTrim(PREFIX + groups);
    UpperPrefix(PREFIX + groups, groups);
  }

  /** A dash, an underscore or whitespace, by code point. */
  lemma SeparatorIs(c: char)
    ensures IsSeparator(c) <==>
              c as int in {45, 95, 9, 10, 11, 12, 13, 32, 133, 160, 5760, 8192, 8193, 8194, 8195, 8196, 8197, 8198,
                           8199, 8200, 8201, 8202, 8232, 8233, 8239, 8287, 12288}
  {
    ClassesAre(c);
  }

  /** From place `n` on, after nothing but whitespace, the text reads `WCM1` in either case. */
  predicate PrefixAt(s: string, n: nat) {
    && n + 4 <= |s| && AllWhitespace(s[..n])
    && s[n] in "Ww" && s[n + 1] in "Cc" && s[n + 2] in "Mm" && s[n + 3] == '1'
  }

  lemma UpperIn(c: char)
    ensures ToUpper(c) == 'W' <==> c in "Ww"
    ensures ToUpper(c) == 'C' <==> c in "Cc"
    ensures ToUpper(c) == 'M' <==> c in "Mm"
    ensures ToUpper(c) == '1' <==> c == '1'
    ensures c in "WwCcMm1" ==> !IsWhitespace(c)
  {
    ClassesAre(c);
  }

  lemma StartsPrefix(t: string)
    ensures StartsWith(UpperAll(t), PREFIX) <==> PrefixAt(t, 0)
  {
    assert t[..0] == "";
    if |t| >= 4 {
      UpperIn(t[0]);
      UpperIn(t[1]);
      UpperIn(t[2]);
      UpperIn(t[3]);
      assert UpperAll(t)[..4] == [ToUpper(t[0]), ToUpper(t[1]), ToUpper(t[2]), ToUpper(t[3])];
      assert PREFIX == ['W', 'C', 'M', '1'];
    }
  }

  lemma FirstInkIs(s: string, n: nat, m: nat)
    requires n < |s| && m < |s| && AllWhitespace(s[..n]) && AllWhitespace(s[..m])
    requires !IsWhitespace(s[n]) && !IsWhitespace(s[m])
    ensures n == m
  {
    forall i | 0 <= i < n ensures IsWhitespace(s[i]) { assert s[..n][i] == s[i]; }
    forall i | 0 <= i < m ensures IsWhitespace(s[i]) { assert s[..m][i] == s[i]; }
  }

  /** A secret looks like a recovery key if and only if it reads `WCM1` after leading whitespace, in either case. */
  lemma LooksLikeIff(s: string)
    ensures LooksLike(s) <==> exists n | 0 <= n <= |s| :: PrefixAt(s, n)
  {
    var a, b := TrimIs(s);
    var t := Trim(s);
    StartsPrefix(t);
    if PrefixAt(t, 0) {
      assert s[..|a|] == a;
      assert PrefixAt(s, |a|);
    }
    if n :| 0 <= n <= |s| && PrefixAt(s, n) {
      UpperIn(s[n]);
      UpperIn(s[n + 3]);
      InkIsKept(s, a, t, b, n);
      InkIsKept(s, a, t, b, n + 3);
      assert s[..|a|] == a;
      FirstInkIs(s, n, |a|);
    }
  }

  /** What is not whitespace is not trimmed. */
  lemma InkIsKept(s: string, a: string, t: string, b: string, n: nat)
    requires s == a + t + b && AllWhitespace(a) && AllWhitespace(b) && n < |s| && !IsWhitespace(s[n])
    ensures |a| <= n < |a| + |t| && s[n] == t[n - |a|]
  {
    forall i | 0 <= i < |a| ensures IsWhitespace(s[i]) { assert a[i] == s[i]; }
    forall i | |a| + |t| <= i < |s| ensures IsWhitespace(s[i]) { assert b[i - |a| - |t|] == s[i]; }
  }

  /** Input that looks like a recovery key becomes its display or is refused; other input is left alone. */
  lemma NormalizeIff(ck: Checksum, s: string)
    ensures (forall n | 0 <= n <= |s| :: !PrefixAt(s, n)) ==> Normalize(ck, s) == Ok(s)
    ensures forall n, k | 0 <= n <= |s| && PrefixAt(s, n) && |k| == 20 && ValidKey(ck, k) && Accepted(s, k) ::
              Normalize(ck, s) == Ok(Display(k))
    ensures (exists n | 0 <= n <= |s| :: PrefixAt(s, n)) && (forall k | ValidKey(ck, k) :: !Accepted(s, k)) ==>
              Normalize(ck, s).Err? && Normalize(ck, s).error.Invalid?
  {
    LooksLikeIff(s);
    forall k ensures Parse(ck, s) == Ok(k) <==> ValidKey(ck, k) && Accepted(s, k) { ParseIff(ck, s, k); }
    ParseIff(ck, s, []);
    if Parse(ck, s).Ok? { ParseIff(ck, s, Parse(ck, s).value); }
  }

  /** A secret is left as it is exactly if it does not look like a recovery key or is the canonical form of one. */
  lemma NormalizeFixedIff(ck: Checksum, s: string)
    ensures Normalize(ck, s) == Ok(s) <==> !LooksLike(s) || Canonical(ck, s)
  {
    if Canonical(ck, s) {
      var k :| ValidKey(ck, k) && s == Display(k);
      ParseDisplay(ck, k);
    } else if LooksLike(s) && Parse(ck, s).Ok? {
      assert ValidKey(ck, Parse(ck, s).value);
    }
  }

  /** Normalising again changes nothing. */
  lemma NormalizeIdempotent(ck: Checksum, s: string)
    requires Normalize(ck, s).Ok?
    ensures Normalize(ck, Normalize(ck, s).value) == Normalize(ck, s)
  {
    var t := Normalize(ck, s).value;
    if LooksLike(s) {
      ParseIff(ck, s, Parse(ck, s).value);
      assert Canonical(ck, t);
    }
    NormalizeFixedIff(ck, t);
  }

  /**
   * `WCM_NEW_PASSPHRASE` is sealed as given, while a typed secret is normalised first. So a passphrase
   * set that way opens its slot again by typing it exactly if the normaliser leaves it alone.
   */
  lemma NewPassphraseReopensIff(ck: Checksum, id: Byte, slotLabel: string, secret: string, params: Argon2Params,
                                salt: Bytes, nonce: Bytes, vid: VaultId, dek: Dek)
    requires |salt| == SALT_LEN && |nonce| == NONCE_LEN
    requires SealWithSecret(id, slotLabel, secret, params, salt, nonce, vid, dek).Ok?
    ensures var slot := SealWithSecret(id, slotLabel, secret, params, salt, nonce, vid, dek).value;
            (Normalize(ck, secret).Ok? && OpenWithSecret(slot, Normalize(ck, secret).value, vid) == Ok(dek)) <==>
              !LooksLike(secret) || Canonical(ck, secret)
  {
    NormalizeFixedIff(ck, secret);
    if Normalize(ck, secret).Ok? {
      SecretOpensIff(id, slotLabel, secret, params, salt, nonce, vid, dek, Normalize(ck, secret).value);
    }
  }
}
