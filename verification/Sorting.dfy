/** The two library calls the vault relies on, `sort` and `dedup`, and what their combination decides. */
module Sorting {

  ghost predicate TotalPreorder<T(!new)>(leq: (T, T) -> bool) {
    && (forall x, y :: leq(x, y) || leq(y, x))
    && (forall x, y, z :: leq(x, y) && leq(y, z) ==> leq(x, z))
  }

  ghost predicate Antisymmetric<T(!new)>(leq: (T, T) -> bool) {
    forall x, y :: leq(x, y) && leq(y, x) ==> x == y
  }

  ghost predicate SortedBy<T>(leq: (T, T) -> bool, s: seq<T>) {
    forall i, j | 0 <= i < j < |s| :: leq(s[i], s[j])
  }

  ghost predicate Distinct<T>(s: seq<T>) {
    forall i, j | 0 <= i < j < |s| :: s[i] != s[j]
  }

  /** Places `x` before the first element not below it, so equal elements keep their order. */
  function InsertSorted<T>(leq: (T, T) -> bool, x: T, s: seq<T>): seq<T> {
    if s == [] || leq(x, s[0]) then [x] + s
    else [s[0]] + InsertSorted(leq, x, s[1..])
  }

  /** A stable sort. */
  function Sort<T>(leq: (T, T) -> bool, s: seq<T>): seq<T> {
    if s == [] then [] else InsertSorted(leq, s[0], Sort(leq, s[1..]))
  }

  /** Drops every element equal to its predecessor. */
  function Dedup<T(==)>(s: seq<T>): seq<T> {
    if |s| <= 1 then s
    else if s[0] == s[1] then Dedup(s[1..])
    else [s[0]] + Dedup(s[1..])
  }

  lemma {:induction false} InsertSortedKeeps<T(!new)>(leq: (T, T) -> bool, x: T, s: seq<T>)
    requires TotalPreorder(leq) && SortedBy(leq, s)
    ensures multiset(InsertSorted(leq, x, s)) == multiset{x} + multiset(s)
    ensures SortedBy(leq, InsertSorted(leq, x, s))
  {
    if s == [] || leq(x, s[0]) {
    } else {
      var rest := InsertSorted(leq, x, s[1..]);
      InsertSortedKeeps(leq, x, s[1..]);
      assert s == [s[0]] + s[1..];
      forall j | 0 <= j < |rest| ensures leq(s[0], rest[j]) {
        assert rest[j] in multiset(rest);
        assert rest[j] == x || rest[j] in s[1..];
      }
    }
  }

  lemma {:induction false} SortSorts<T(!new)>(leq: (T, T) -> bool, s: seq<T>)
    requires TotalPreorder(leq)
    ensures multiset(Sort(leq, s)) == multiset(s)
    ensures SortedBy(leq, Sort(leq, s))
  {
    if s != [] {
      SortSorts(leq, s[1..]);
      InsertSortedKeeps(leq, s[0], Sort(leq, s[1..]));
      assert s == [s[0]] + s[1..];
    }
  }

  lemma {:induction false} SortedIsFixed<T(!new)>(leq: (T, T) -> bool, s: seq<T>)
    requires SortedBy(leq, s)
    ensures Sort(leq, s) == s
  {
    if s != [] {
      SortedIsFixed(leq, s[1..]);
      assert |s| > 1 ==> leq(s[0], s[1]);
      assert s == [s[0]] + s[1..];
    }
  }

  lemma {:induction false} DedupOfSorted<T(!new)>(leq: (T, T) -> bool, s: seq<T>)
    requires Antisymmetric(leq) && SortedBy(leq, s)
    ensures |Dedup(s)| <= |s|
    ensures |Dedup(s)| == |s| <==> Distinct(s)
  {
    if |s| > 1 {
      DedupOfSorted(leq, s[1..]);
      if s[0] != s[1] {
        forall j | 1 <= j < |s| ensures s[0] != s[j] {
          assert leq(s[0], s[1]);
          assert j > 1 ==> leq(s[1], s[j]);
        }
        assert Distinct(s) <==> Distinct(s[1..]) by {
          if Distinct(s[1..]) {
            forall i, j | 0 <= i < j < |s| ensures s[i] != s[j] {
              if i > 0 { assert s[1..][i - 1] != s[1..][j - 1]; }
            }
          }
        }
      }
    }
  }

  lemma {:induction false} DistinctIsCount<T>(s: seq<T>)
    ensures Distinct(s) <==> forall x | x in s :: multiset(s)[x] == 1
  {
    if s != [] {
      DistinctIsCount(s[1..]);
      var t := s[1..];
      assert s == [s[0]] + t;
      assert forall x :: x in s <==> x == s[0] || x in t;
      if Distinct(s) {
        assert s[0] !in t;
        assert Distinct(t) by {
          forall i, j | 0 <= i < j < |t| ensures t[i] != t[j] { assert t[i] == s[i + 1] && t[j] == s[j + 1]; }
        }
      }
      if forall x | x in s :: multiset(s)[x] == 1 {
        assert multiset(s)[s[0]] == 1;
        assert s[0] !in multiset(t);
        assert forall x | x in t :: multiset(t)[x] == multiset(s)[x];
        forall i, j | 0 <= i < j < |s| ensures s[i] != s[j] {
          assert s[j] == t[j - 1] && s[j] in t;
          if i > 0 { assert s[i] == t[i - 1]; }
        }
      }
    }
  }

  /** Sorting, dropping neighbours and comparing lengths accepts exactly the lists without repetition. */
  lemma SortDedupDecidesDistinct<T(!new)>(leq: (T, T) -> bool, s: seq<T>)
    requires TotalPreorder(leq) && Antisymmetric(leq)
    ensures |Dedup(Sort(leq, s))| == |s| <==> Distinct(s)
  {
    var t := Sort(leq, s);
    SortSorts(leq, s);
    assert |t| == |multiset(t)| == |multiset(s)| == |s|;
    DedupOfSorted(leq, t);
    DistinctIsCount(s);
    DistinctIsCount(t);
    assert forall x :: x in s <==> x in multiset(s);
    assert forall x :: x in t <==> x in multiset(t);
  }

  predicate IntLeq(x: int, y: int) { x <= y }

  /** Rust orders strings by their UTF-8 bytes, which is the order of the code points. */
  predicate StrLeq(a: string, b: string) {
    a == [] || (b != [] && (a[0] < b[0] || (a[0] == b[0] && StrLeq(a[1..], b[1..]))))
  }

  lemma {:induction false} StrLeqTotal(a: string, b: string)
    ensures StrLeq(a, b) || StrLeq(b, a)
  {
    if a != [] && b != [] { StrLeqTotal(a[1..], b[1..]); }
  }

  lemma {:induction false} StrLeqTransitive(a: string, b: string, c: string)
    requires StrLeq(a, b) && StrLeq(b, c)
    ensures StrLeq(a, c)
  {
    if a != [] && a[0] == b[0] == c[0] { StrLeqTransitive(a[1..], b[1..], c[1..]); }
  }

  lemma {:induction false} StrLeqAntisymmetric(a: string, b: string)
    requires StrLeq(a, b) && StrLeq(b, a)
    ensures a == b
  {
    if a != [] {
      StrLeqAntisymmetric(a[1..], b[1..]);
      assert a == [a[0]] + a[1..] && b == [b[0]] + b[1..];
    }
  }

  lemma StrLeqOrder()
    ensures TotalPreorder(StrLeq) && Antisymmetric(StrLeq)
  {
    forall a, b ensures StrLeq(a, b) || StrLeq(b, a) { StrLeqTotal(a, b); }
    forall a, b, c | StrLeq(a, b) && StrLeq(b, c) ensures StrLeq(a, c) { StrLeqTransitive(a, b, c); }
    forall a, b | StrLeq(a, b) && StrLeq(b, a) ensures a == b { StrLeqAntisymmetric(a, b); }
  }

  /** The strings agree before place `n`, where the first is smaller. */
  predicate SmallerAt(a: string, b: string, n: nat) {
    n < |a| && n < |b| && a[..n] == b[..n] && a[n] < b[n]
  }

  lemma SmallerAtTail(a: string, b: string, n: nat)
    requires a != "" && b != ""
    ensures a[0] == b[0] ==> (SmallerAt(a, b, n + 1) <==> SmallerAt(a[1..], b[1..], n))
    ensures a[0] != b[0] ==> !SmallerAt(a, b, n + 1)
  {
    if n + 1 < |a| && n + 1 < |b| {
      assert a[..n + 1] == [a[0]] + a[1..][..n] && b[..n + 1] == [b[0]] + b[1..][..n];
    }
  }

  /** Strings are in order if the first is a beginning of the second, or smaller where they first differ. */
  lemma {:induction false} StrLeqIff(a: string, b: string)
    ensures StrLeq(a, b) <==> a <= b || exists n | 0 <= n < |a| :: SmallerAt(a, b, n)
  {
    if a != "" && b != "" {
      StrLeqIff(a[1..], b[1..]);
      forall n: nat
        ensures a[0] == b[0] ==> (SmallerAt(a, b, n + 1) <==> SmallerAt(a[1..], b[1..], n))
        ensures a[0] != b[0] ==> !SmallerAt(a, b, n + 1)
      {
        SmallerAtTail(a, b, n);
      }
      PrefixTail(a, b);
      assert SmallerAt(a, b, 0) <==> a[0] < b[0];
      if n :| 0 <= n < |a[1..]| && SmallerAt(a[1..], b[1..], n) { assert SmallerAt(a, b, n + 1) || a[0] != b[0]; }
      if n :| 0 < n < |a| && SmallerAt(a, b, n) { SmallerAtTail(a, b, n - 1); }
    }
  }

  lemma PrefixTail(a: string, b: string)
    requires a != "" && b != ""
    ensures a <= b <==> a[0] == b[0] && a[1..] <= b[1..]
  {
    if a <= b { assert a[1..] == b[1..][..|a| - 1]; }
    if a[0] == b[0] && a[1..] <= b[1..] {
      assert a == [a[0]] + a[1..];
      assert b[..|a|] == [b[0]] + b[1..][..|a| - 1];
    }
  }
}
