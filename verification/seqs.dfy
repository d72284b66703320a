/** Generic sequence facts: Python slicing and the subsequence relation. */
module Seqs {

  function Min(a: int, b: int): int { if a <= b then a else b }

  function Max(a: int, b: int): int { if a >= b then a else b }

  /** Python's `s[start:]` for any integer `start`, negative counting from the end. */
  function SliceFrom<T>(s: seq<T>, start: int): (r: seq<T>)
    ensures |r| <= |s|
    ensures r == s[|s| - |r|..]
    ensures start >= 0 ==> |r| == |s| - Min(start, |s|)
    ensures start < 0 ==> |r| == Min(-start, |s|)
  {
    if start >= 0 then s[Min(start, |s|)..] else s[Max(0, |s| + start)..]
  }

  /** Python's `s[-n:]`: the last `n` elements when `n >= 1`, but everything when `n == 0`. */
  function LastN<T>(s: seq<T>, n: int): (r: seq<T>)
    ensures |r| <= |s|
    ensures r == s[|s| - |r|..]
    ensures n >= 1 ==> |r| == Min(n, |s|)
    ensures n == 0 ==> r == s
    ensures n < 0 ==> |r| == |s| - Min(-n, |s|)
  {
    SliceFrom(s, -n)
  }

  /** Python's `s[:n]` for `n >= 0`: the first `n` elements, or all of `s` when shorter. */
  function Take<T>(s: seq<T>, n: nat): (r: seq<T>)
    ensures |r| == Min(n, |s|)
    ensures r == s[..|r|]
    ensures |s| <= n ==> r == s
  {
    s[..Min(n, |s|)]
  }

  lemma AppendAssoc<T>(a: seq<T>, b: seq<T>, c: seq<T>)
    ensures (a + b) + c == a + (b + c)
  {
  }

  predicate IsSuffix<T(==)>(u: seq<T>, s: seq<T>) {
    |u| <= |s| && u == s[|s| - |u|..]
  }

  /** A suffix of a suffix is a suffix of the whole. */
  lemma {:induction false} SuffixTransitive<T>(u: seq<T>, t: seq<T>, s: seq<T>)
    requires IsSuffix(u, t) && IsSuffix(t, s)
    ensures IsSuffix(u, s)
  {
    assert u == s[|s| - |t|..][|t| - |u|..];
  }

  /** Appending the same tail keeps the suffix relation. */
  lemma {:induction false} SuffixAppend<T>(t: seq<T>, s: seq<T>, b: seq<T>)
    requires IsSuffix(t, s)
    ensures IsSuffix(t + b, s + b)
  {
    assert t + b == (s + b)[|s| - |t|..];
  }

  /** Element `k` of a suffix, read in the whole sequence. */
  lemma SuffixIndex<T>(u: seq<T>, s: seq<T>, k: nat)
    requires IsSuffix(u, s) && k < |u|
    ensures u[k] == s[|s| - |u| + k]
  {
  }

  /** Two suffixes of the same length are equal. */
  lemma SuffixUnique<T>(x: seq<T>, y: seq<T>, s: seq<T>)
    requires IsSuffix(x, s) && IsSuffix(y, s) && |x| == |y|
    ensures x == y
  {
  }

  /** `a` is obtained from `b` by deleting elements, keeping the order of the rest. */
  predicate IsSubsequence<T(==)>(a: seq<T>, b: seq<T>)
    decreases |b|
  {
    if a == [] then true
    else if b == [] then false
    else if a[0] == b[0] then IsSubsequence(a[1..], b[1..])
    else IsSubsequence(a, b[1..])
  }

  lemma {:induction false} SubsequenceOfSelf<T>(s: seq<T>)
    ensures IsSubsequence(s, s)
    decreases |s|
  {
    if s != [] {
      SubsequenceOfSelf(s[1..]);
    }
  }

  /** Dropping the first element of a subsequence leaves a subsequence. */
  lemma {:induction false} SubsequenceTail<T>(a: seq<T>, b: seq<T>)
    requires a != [] && IsSubsequence(a, b)
    ensures IsSubsequence(a[1..], b)
    decreases |b|
  {
    if a[1..] != [] {
      if a[0] == b[0] {
        SubsequenceTail(a[1..], b[1..]);
        SubsequenceCons(b[0], a[1..][1..], b[1..]);
        PrependToSuper(b[0], a[1..], b[1..]);
      } else {
        SubsequenceTail(a, b[1..]);
        PrependToSuper(b[0], a[1..], b[1..]);
      }
    }
  }

  /** Prefixing the longer sequence keeps the relation. */
  lemma {:induction false} PrependToSuper<T>(x: T, a: seq<T>, b: seq<T>)
    requires IsSubsequence(a, b)
    ensures IsSubsequence(a, [x] + b)
    decreases |b|
  {
    assert ([x] + b)[1..] == b;
    if a != [] && a[0] == x {
      assert b != [];
      if a[0] == b[0] {
        PrependToSuper(b[0], a[1..], b[1..]);
        assert [b[0]] + b[1..] == b;
      } else {
        SubsequenceTail(a, b[1..]);
        PrependToSuper(b[0], a[1..], b[1..]);
        assert [b[0]] + b[1..] == b;
      }
    }
  }

  /** Prefixing both sides with the same element keeps the relation. */
  lemma {:induction false} SubsequenceCons<T>(x: T, a: seq<T>, b: seq<T>)
    requires IsSubsequence(a, b)
    ensures IsSubsequence([x] + a, [x] + b)
  {
    assert ([x] + a)[1..] == a;
    assert ([x] + b)[1..] == b;
  }

  /** A suffix is a subsequence. */
  lemma {:induction false} SuffixIsSubsequence<T>(s: seq<T>, k: nat)
    requires k <= |s|
    ensures IsSubsequence(s[k..], s)
    decreases k
  {
    if k == 0 {
      SubsequenceOfSelf(s);
    } else {
      SuffixIsSubsequence(s[1..], k - 1);
      assert s[1..][k-1..] == s[k..];
      assert [s[0]] + s[1..] == s;
      PrependToSuper(s[0], s[k..], s[1..]);
    }
  }

  lemma {:induction false} SubsequenceTransitive<T>(a: seq<T>, b: seq<T>, c: seq<T>)
    requires IsSubsequence(a, b) && IsSubsequence(b, c)
    ensures IsSubsequence(a, c)
    decreases |c|
  {
    if a != [] {
      assert b != [] && c != [];
      assert [c[0]] + c[1..] == c;
      if b[0] == c[0] {
        if a[0] == b[0] {
          SubsequenceTransitive(a[1..], b[1..], c[1..]);
        } else {
          SubsequenceTransitive(a, b[1..], c[1..]);
          PrependToSuper(c[0], a, c[1..]);
        }
      } else {
        SubsequenceTransitive(a, b, c[1..]);
        PrependToSuper(c[0], a, c[1..]);
      }
    }
  }
}
