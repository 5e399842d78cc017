/** Order-preserving deletion on sequences: the sense in which string
    clean-up and list filtering "never add anything". */
module Sequences {

  /** `r` is obtained from `s` by deleting some elements and keeping the
      order of those that remain. */
  predicate IsSubsequence<T(==)>(r: seq<T>, s: seq<T>)
    decreases |s|
  {
    if r == [] then true
    else if s == [] then false
    else (r[0] == s[0] && IsSubsequence(r[1..], s[1..])) || IsSubsequence(r, s[1..])
  }

  lemma {:induction false} SubsequenceLength<T>(r: seq<T>, s: seq<T>)
    requires IsSubsequence(r, s)
    ensures |r| <= |s|
    decreases |s|
  {
    if r != [] {
      if r[0] == s[0] && IsSubsequence(r[1..], s[1..]) {
        SubsequenceLength(r[1..], s[1..]);
      } else {
        SubsequenceLength(r, s[1..]);
      }
    }
  }

  lemma {:induction false} SubsequenceTransitive<T>(a: seq<T>, b: seq<T>, c: seq<T>)
    requires IsSubsequence(a, b) && IsSubsequence(b, c)
    ensures IsSubsequence(a, c)
    decreases |c|
  {
    if a != [] {
      if IsSubsequence(b, c[1..]) {
        SubsequenceTransitive(a, b, c[1..]);
      } else if a[0] == b[0] && IsSubsequence(a[1..], b[1..]) {
        SubsequenceTransitive(a[1..], b[1..], c[1..]);
      } else {
        SubsequenceTransitive(a, b[1..], c[1..]);
      }
    }
  }

  /** Every contiguous slice is a subsequence. */
  lemma {:induction false} SliceIsSubsequence<T>(s: seq<T>, i: nat, j: nat)
    requires i <= j <= |s|
    ensures IsSubsequence(s[i..j], s)
    decreases |s|
  {
    if i > 0 {
      SliceIsSubsequence(s[1..], i - 1, j - 1);
      assert s[1..][i - 1..j - 1] == s[i..j];
    } else if j > 0 {
      SliceIsSubsequence(s[1..], 0, j - 1);
      assert s[1..][0..j - 1] == s[0..j][1..];
    }
  }

  /** A slice named by its start is a subsequence. */
  lemma SliceAtIsSubsequence<T>(t: seq<T>, s: seq<T>, a: nat)
    requires a + |t| <= |s| && t == s[a..a + |t|]
    ensures IsSubsequence(t, s)
  {
    SliceIsSubsequence(s, a, a + |t|);
  }

  /** Keeping a common first element keeps the relation. */
  lemma ConsSubsequence<T>(x: T, r: seq<T>, s: seq<T>)
    requires IsSubsequence(r, s)
    ensures IsSubsequence([x] + r, [x] + s)
  {
    assert ([x] + r)[1..] == r;
    assert ([x] + s)[1..] == s;
  }

  /** A subsequence of a suffix is a subsequence of the whole. */
  lemma SuffixSubsequence<T>(r: seq<T>, s: seq<T>, k: nat)
    requires k <= |s|
    requires IsSubsequence(r, s[k..])
    ensures IsSubsequence(r, s)
  {
    SliceIsSubsequence(s, k, |s|);
    assert s[k..|s|] == s[k..];
    SubsequenceTransitive(r, s[k..], s);
  }

  lemma ConsPrefix<T>(s: seq<T>, i: nat)
    requires 0 < i <= |s|
    ensures [s[0]] + s[1..][..i - 1] == s[..i]
  {
  }

  lemma ConsAssoc<T>(x: T, a: seq<T>, r: seq<T>)
    ensures [x] + (a + r) == ([x] + a) + r
  {
  }

  lemma AppendAssoc<T>(a: seq<T>, b: seq<T>, c: seq<T>)
    ensures (a + b) + c == a + (b + c)
  {
  }

  lemma AppendAssoc3<T>(a: seq<T>, b: seq<T>, c: seq<T>, d: seq<T>)
    ensures ((a + b) + c) + d == a + ((b + c) + d)
  {
  }
}
