/** The character classes of the Rust standard library that the source tests for. */
module Chars {

  /** `char::is_whitespace`: the Unicode property White_Space. */
  predicate IsWhitespace(c: char) {
    || '\U{0009}' <= c <= '\U{000D}'
    || c == ' '
    || c == '\U{0085}'
    || c == '\U{00A0}'
    || c == '\U{1680}'
    || '\U{2000}' <= c <= '\U{200A}'
    || c == '\U{2028}'
    || c == '\U{2029}'
    || c == '\U{202F}'
    || c == '\U{205F}'
    || c == '\U{3000}'
  }

  /** `char::is_control`: the general category Cc. */
  predicate IsControl(c: char) {
    c <= '\U{001F}' || '\U{007F}' <= c <= '\U{009F}'
  }

  predicate IsAsciiLower(c: char) { 'a' <= c <= 'z' }

  predicate IsAsciiUpper(c: char) { 'A' <= c <= 'Z' }

  predicate IsAsciiDigit(c: char) { '0' <= c <= '9' }

  function ToUpper(c: char): char {
    if IsAsciiLower(c) then (c as int - 32) as char else c
  }

  /** Number of bytes of the UTF-8 form. */
  function Utf8Len(c: char): nat {
    if c as int < 0x80 then 1 else if c as int < 0x800 then 2 else if c as int < 0x1_0000 then 3 else 4
  }

  function StrUtf8Len(s: string): (n: nat)
    ensures |s| <= n
  {
    if s == [] then 0 else Utf8Len(s[0]) + StrUtf8Len(s[1..])
  }

  function TrimStart(s: string): string {
    if s != [] && IsWhitespace(s[0]) then TrimStart(s[1..]) else s
  }

  function TrimEnd(s: string): string {
    if s != [] && IsWhitespace(s[|s| - 1]) then TrimEnd(s[..|s| - 1]) else s
  }

  function Trim(s: string): string { TrimEnd(TrimStart(s)) }

  predicate StartsWith(s: string, prefix: string) {
    |prefix| <= |s| && s[..|prefix|] == prefix
  }

  /** Whether `sub` occurs in `s`. */
  predicate Contains(s: string, sub: string) {
    exists i | 0 <= i <= |s| :: StartsWith(s[i..], sub)
  }

  // ---------------------------------------------------------------------------
  // The classes by code point
  // ---------------------------------------------------------------------------

  lemma ClassesAre(c: char)
    ensures IsControl(c) <==> c as int < 32 || 127 <= c as int < 160
    ensures IsWhitespace(c) <==>
              c as int in {9, 10, 11, 12, 13, 32, 133, 160, 5760, 8192, 8193, 8194, 8195, 8196, 8197, 8198, 8199, 8200,
                           8201, 8202, 8232, 8233, 8239, 8287, 12288}
  {
  }

  /** One, two, three or four bytes hold 7, 11, 16 or 21 bits of the code point (section 3 of RFC 3629). */
  lemma Utf8LenIs(c: char)
    ensures Utf8Len(c) == 1 <==> c as int < 128
    ensures Utf8Len(c) == 2 <==> 128 <= c as int < 2048
    ensures Utf8Len(c) == 3 <==> 2048 <= c as int < 65536
    ensures Utf8Len(c) == 4 <==> 65536 <= c as int
  {
  }

  /** Only the letters from `a` to `z` change, each to the one 32 places before it. */
  lemma ToUpperIs(c: char)
    ensures 97 <= c as int <= 122 ==> ToUpper(c) as int == c as int - 32
    ensures !(97 <= c as int <= 122) ==> ToUpper(c) == c
  {
  }

  predicate AllWhitespace(s: string) { forall i | 0 <= i < |s| :: IsWhitespace(s[i]) }

  lemma {:induction false} TrimStartIs(s: string) returns (a: string)
    ensures s == a + TrimStart(s) && AllWhitespace(a)
    ensures TrimStart(s) != "" ==> !IsWhitespace(TrimStart(s)[0])
  {
    if s != "" && IsWhitespace(s[0]) {
      var b := TrimStartIs(s[1..]);
      a := [s[0]] + b;
      assert s == [s[0]] + s[1..];
    } else {
      a := "";
    }
  }

  lemma {:induction false} TrimEndIs(s: string) returns (b: string)
    ensures s == TrimEnd(s) + b && AllWhitespace(b)
    ensures TrimEnd(s) != "" ==> !IsWhitespace(TrimEnd(s)[|TrimEnd(s)| - 1]) && TrimEnd(s)[0] == s[0]
  {
    if s != "" && IsWhitespace(s[|s| - 1]) {
      var a := TrimEndIs(s[..|s| - 1]);
      b := a + [s[|s| - 1]];
      assert s == s[..|s| - 1] + [s[|s| - 1]];
    } else {
      b := "";
    }
  }

  /** Trimming takes whitespace off both ends, and all of it. */
  lemma TrimIs(s: string) returns (a: string, b: string)
    ensures s == a + Trim(s) + b && AllWhitespace(a) && AllWhitespace(b)
    ensures Trim(s) != "" ==> !IsWhitespace(Trim(s)[0]) && !IsWhitespace(Trim(s)[|Trim(s)| - 1])
  {
    a := TrimStartIs(s);
    b := TrimEndIs(TrimStart(s));
    assert a + (Trim(s) + b) == a + Trim(s) + b;
  }

  ghost predicate Occurs(s: string, sub: string) { exists a: string, b :: s == a + sub + b }

  /** A text is found in another if and only if something in front of it and behind it makes the other. */
  lemma ContainsIff(s: string, sub: string)
    ensures Contains(s, sub) <==> Occurs(s, sub)
  {
    if i :| 0 <= i <= |s| && StartsWith(s[i..], sub) { assert s == s[..i] + sub + s[i + |sub|..]; }
    if a: string, b :| s == a + sub + b { assert s[|a|..][..|sub|] == sub && StartsWith(s[|a|..], sub); }
  }
}
