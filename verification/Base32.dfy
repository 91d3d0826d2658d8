/** Base32 without padding (section 6 of RFC 4648), by way of bit strings. */
module Base32 {
  import opened Basics

  function Pow2(n: nat): (p: nat)
    ensures p > 0
  {
    if n == 0 then 1 else 2 * Pow2(n - 1)
  }

  /** The `n` lowest bits of `v`, highest first. */
  function ToBits(v: nat, n: nat): (b: seq<bool>)
    ensures |b| == n
    ensures v < Pow2(n) ==> FromBits(b) == v
  {
    if n == 0 then [] else ToBits(v / 2, n - 1) + [v % 2 == 1]
  }

  function FromBits(b: seq<bool>): (v: nat)
    ensures v < Pow2(|b|)
  {
    if b == [] then 0 else 2 * FromBits(b[..|b| - 1]) + (if b[|b| - 1] then 1 else 0)
  }

  lemma {:induction false} ToFromBits(b: seq<bool>)
    ensures ToBits(FromBits(b), |b|) == b
  {
    if b != [] {
      var n := |b| - 1;
      ToFromBits(b[..n]);
      assert FromBits(b) / 2 == FromBits(b[..n]);
      assert b == b[..n] + [b[n]];
    }
  }

  ghost predicate Below(digits: seq<nat>, bound: nat) {
    forall i | 0 <= i < |digits| :: digits[i] < bound
  }

  /** Digits of `w` bits each, written one after the other. */
  function Join(digits: seq<nat>, w: nat): (b: seq<bool>)
    ensures |b| == |digits| * w
  {
    if digits == [] then [] else ToBits(digits[0], w) + Join(digits[1..], w)
  }

  /** A bit string cut into `n` digits of `w` bits. */
  function Cut(b: seq<bool>, w: nat, n: nat): (digits: seq<nat>)
    requires |b| == n * w
    ensures |digits| == n && Below(digits, Pow2(w))
    decreases n
  {
    if n == 0 then []
    else
      assert n * w == (n - 1) * w + w;
      [FromBits(b[..w])] + Cut(b[w..], w, n - 1)
  }

  lemma JoinHead(digits: seq<nat>, w: nat)
    requires digits != []
    ensures |Join(digits, w)| == |digits[1..]| * w + w
    ensures Join(digits, w)[..w] == ToBits(digits[0], w) && Join(digits, w)[w..] == Join(digits[1..], w)
  {
  }

  lemma {:induction false} CutJoin(digits: seq<nat>, w: nat)
    requires Below(digits, Pow2(w))
    ensures Cut(Join(digits, w), w, |digits|) == digits
  {
    if digits != [] {
      JoinHead(digits, w);
      CutJoin(digits[1..], w);
      assert digits == [digits[0]] + digits[1..];
    }
  }

  lemma {:induction false} JoinCut(b: seq<bool>, w: nat, n: nat)
    requires |b| == n * w
    ensures Join(Cut(b, w, n), w) == b
    decreases n
  {
    if n > 0 {
      assert n * w == (n - 1) * w + w;
      JoinCut(b[w..], w, n - 1);
      ToFromBits(b[..w]);
      assert b == b[..w] + b[w..];
    }
  }

  /** Regrouping the same bits loses nothing. */
  lemma Regroup(digits: seq<nat>, w: nat, w': nat, n: nat)
    requires Below(digits, Pow2(w)) && |digits| * w == n * w'
    ensures Cut(Join(Cut(Join(digits, w), w', n), w'), w, |digits|) == digits
  {
    JoinCut(Join(digits, w), w', n);
    CutJoin(digits, w);
  }

  lemma Powers()
    ensures Pow2(5) == 32 && Pow2(8) == 256
  {
  }

  // ---------------------------------------------------------------------------
  // Bytes and letters
  // ---------------------------------------------------------------------------

  function Nats(b: Bytes): (d: seq<nat>)
    ensures |d| == |b| && Below(d, 256)
  {
    seq(|b|, i requires 0 <= i < |b| => b[i])
  }

  function ToBytes(d: seq<nat>): (b: Bytes)
    requires Below(d, 256)
    ensures Nats(b) == d
  {
    if d == [] then []
    else
      var b: Bytes := [d[0] as Byte] + ToBytes(d[1..]);
      assert forall i | 1 <= i < |b| :: b[i] as int == Nats(b[1..])[i - 1];
      b
  }

  predicate IsLetter(c: char) { 'A' <= c <= 'Z' || '2' <= c <= '7' }

  function LetterOf(v: nat): (c: char)
    requires v < 32
    ensures IsLetter(c) && ValueOf(c) == v
  {
    if v < 26 then ('A' as int + v) as char else ('2' as int + (v - 26)) as char
  }

  function ValueOf(c: char): (v: nat)
    requires IsLetter(c)
    ensures v < 32
  {
    if 'A' <= c then c as int - 'A' as int else c as int - '2' as int + 26
  }

  function Letters(d: seq<nat>): (s: string)
    requires Below(d, 32)
    ensures |s| == |d| && AllLetters(s)
  {
    seq(|d|, i requires 0 <= i < |d| => LetterOf(d[i]))
  }

  predicate AllLetters(s: string) { forall i | 0 <= i < |s| :: IsLetter(s[i]) }

  function Values(s: string): (d: seq<nat>)
    requires AllLetters(s)
    ensures |d| == |s| && Below(d, 32)
  {
    seq(|s|, i requires 0 <= i < |s| => ValueOf(s[i]))
  }

  /** Five bytes are as many bits as eight letters, so nothing is padded and none is left over. */
  function Regrouped(d: seq<nat>, w: nat, w': nat, n: nat): (r: seq<nat>)
    requires |d| * w == n * w' && w' in {5, 8}
    ensures |r| == n && Below(r, if w' == 5 then 32 else 256)
  {
    Powers();
    Cut(Join(d, w), w', n)
  }

  /** `g` groups of five bytes as `g` groups of eight letters. */
  function Encode(b: Bytes, g: nat): (s: string)
    requires |b| == 5 * g
    ensures |s| == 8 * g && AllLetters(s)
  {
    Letters(Regrouped(Nats(b), 8, 5, 8 * g))
  }

  /** `g` groups of eight letters as `g` groups of five bytes. */
  function Decode(s: string, g: nat): (r: Option<Bytes>)
    requires |s| == 8 * g
    ensures r.Some? <==> AllLetters(s)
    ensures r.Some? ==> |r.value| == 5 * g
  {
    if AllLetters(s) then Some(ToBytes(Regrouped(Values(s), 5, 8, 5 * g))) else None
  }

  lemma ValuesLetters(d: seq<nat>)
    requires Below(d, 32)
    ensures Values(Letters(d)) == d
  {
  }

  lemma LettersValues(s: string)
    requires AllLetters(s)
    ensures Letters(Values(s)) == s
  {
  }

  lemma BytesOf(b: Bytes)
    ensures ToBytes(Nats(b)) == b
  {
    var b' := ToBytes(Nats(b));
    assert |b'| == |Nats(b')|;
    forall i | 0 <= i < |b| ensures b[i] == b'[i] { assert Nats(b)[i] == Nats(b')[i]; }
  }

  lemma RegroupedBack(d: seq<nat>, w: nat, w': nat, n: nat)
    requires |d| * w == n * w' && w in {5, 8} && w' in {5, 8}
    requires Below(d, if w == 5 then 32 else 256)
    ensures Regrouped(Regrouped(d, w, w', n), w', w, |d|) == d
  {
    Powers();
    Regroup(d, w, w', n);
  }

  lemma DecodeEncode(b: Bytes, g: nat)
    requires |b| == 5 * g
    ensures Decode(Encode(b, g), g) == Some(b)
  {
    RegroupedBack(Nats(b), 8, 5, 8 * g);
    ValuesLetters(Regrouped(Nats(b), 8, 5, 8 * g));
    BytesOf(b);
  }

  lemma EncodeDecode(s: string, g: nat)
    requires |s| == 8 * g && AllLetters(s)
    ensures Encode(Decode(s, g).value, g) == s
  {
    RegroupedBack(Values(s), 5, 8, 5 * g);
    LettersValues(s);
  }

  // ---------------------------------------------------------------------------
  // Letter by letter
  // ---------------------------------------------------------------------------

  /** Bit `n` of the bytes, counted from the highest bit of the first. */
  function BitAt(b: Bytes, n: nat): nat
    requires n < 8 * |b|
  {
    b[n / 8] as nat / [128, 64, 32, 16, 8, 4, 2, 1][n % 8] % 2
  }

  /** The number that the five bits from `n` on write, highest first. */
  function FiveBits(b: Bytes, n: nat): (v: nat)
    requires n + 5 <= 8 * |b|
    ensures v < 32
  {
    16 * BitAt(b, n) + 8 * BitAt(b, n + 1) + 4 * BitAt(b, n + 2) + 2 * BitAt(b, n + 3) + BitAt(b, n + 4)
  }

  lemma HalfThen(v: nat, n: nat)
    requires n < 7
    ensures v / 2 / [1, 2, 4, 8, 16, 32, 64, 128][n] == v / [1, 2, 4, 8, 16, 32, 64, 128][n + 1]
  {
  }

  lemma {:induction false} ToBitsAt(v: nat, w: nat, k: nat)
    requires k < w <= 8
    ensures ToBits(v, w)[k] == (v / [1, 2, 4, 8, 16, 32, 64, 128][w - 1 - k] % 2 == 1)
  {
    if k < w - 1 {
      ToBitsAt(v / 2, w - 1, k);
      HalfThen(v, w - 2 - k);
    }
  }

  lemma {:induction false} JoinAt(d: seq<nat>, i: nat, k: nat)
    requires i < |d| && k < 8
    ensures |Join(d, 8)| == 8 * |d| && Join(d, 8)[8 * i + k] == ToBits(d[i], 8)[k]
  {
    JoinHead(d, 8);
    if i > 0 { JoinAt(d[1..], i - 1, k); }
  }

  lemma {:induction false} CutAt(b: seq<bool>, n: nat, j: nat)
    requires |b| == n * 5 && j < n
    ensures Cut(b, 5, n)[j] == FromBits(b[5 * j..5 * j + 5])
    decreases n
  {
    if j > 0 {
      CutAt(b[5..], n - 1, j - 1);
      assert b[5..][5 * (j - 1)..5 * (j - 1) + 5] == b[5 * j..5 * j + 5];
    }
  }

  function Bit(b: bool): nat { if b then 1 else 0 }

  lemma FromFiveBits(b: seq<bool>)
    requires |b| == 5
    ensures FromBits(b) == 16 * Bit(b[0]) + 8 * Bit(b[1]) + 4 * Bit(b[2]) + 2 * Bit(b[3]) + Bit(b[4])
  {
    var b4, b3, b2, b1 := b[..4], b[..3], b[..2], b[..1];
    assert b4[..3] == b3 && b3[..2] == b2 && b2[..1] == b1 && b1[..0] == [];
    assert FromBits(b1) == Bit(b[0]);
    assert FromBits(b2) == 2 * FromBits(b1) + Bit(b[1]);
    assert FromBits(b3) == 2 * FromBits(b2) + Bit(b[2]);
    assert FromBits(b4) == 2 * FromBits(b3) + Bit(b[3]);
  }

  lemma JoinedBit(b: Bytes, n: nat)
    requires n < 8 * |b|
    ensures |Join(Nats(b), 8)| == 8 * |b| && Bit(Join(Nats(b), 8)[n]) == BitAt(b, n)
  {
    JoinAt(Nats(b), n / 8, n % 8);
    ToBitsAt(Nats(b)[n / 8], 8, n % 8);
  }

  /** Five bits of the joined bytes, read as a number. */
  lemma JoinedFive(b: Bytes, n: nat)
    requires n + 5 <= 8 * |b|
    ensures |Join(Nats(b), 8)| == 8 * |b| && FromBits(Join(Nats(b), 8)[n..n + 5]) == FiveBits(b, n)
  {
    JoinedBit(b, n);
    JoinedBit(b, n + 1);
    JoinedBit(b, n + 2);
    JoinedBit(b, n + 3);
    JoinedBit(b, n + 4);
    FromFiveBits(Join(Nats(b), 8)[n..n + 5]);
  }

  lemma LetterIs(v: nat)
    requires v < 32
    ensures LetterOf(v) == "ABCDEFGHIJKLMNOPQRSTUVWXYZ234567"[v]
  {
  }

  /** Letter `j` of the encoding is the letter of the alphabet at the number that bits `5j` to `5j + 4` write. */
  lemma EncodeAt(b: Bytes, g: nat, j: nat)
    requires |b| == 5 * g && j < 8 * g
    ensures Encode(b, g)[j] == "ABCDEFGHIJKLMNOPQRSTUVWXYZ234567"[FiveBits(b, 5 * j)]
  {
    CutAt(Join(Nats(b), 8), 8 * g, j);
    JoinedFive(b, 5 * j);
    LetterIs(FiveBits(b, 5 * j));
  }
}
