/**
 * Small facts about sequences, stated once for any element type and used
 * by the text, dataset and matching proofs to take sequences apart and put
 * them back together.
 */
module Seqs {

  lemma HeadTail<T>(s: seq<T>)
    requires s != []
    ensures s == [s[0]] + s[1..]
  {
  }

  lemma ConsParts<T>(a: T, rest: seq<T>)
    ensures ([a] + rest)[0] == a && ([a] + rest)[1..] == rest
  {
  }

  lemma AppendNil<T>(s: seq<T>)
    ensures s + [] == s
  {
  }

  lemma AppendAssoc<T>(a: seq<T>, b: seq<T>, c: seq<T>)
    ensures (a + b) + c == a + (b + c)
  {
  }

  lemma Reassemble<T>(s: seq<T>, n: nat)
    requires n <= |s|
    ensures s == s[..n] + s[n..]
  {
  }

  /** A sequence around its element at `n`. */
  lemma SplitAround<T>(s: seq<T>, n: nat)
    requires n < |s|
    ensures s[n..] == [s[n]] + s[n + 1..]
    ensures s == s[..n] + [s[n]] + s[n + 1..]
  {
  }

  /** The same split, grouped to the right. */
  lemma Around<T>(xs: seq<T>, i: nat)
    requires i < |xs|
    ensures xs == xs[..i] + ([xs[i]] + xs[i + 1..])
  {
  }

  /** Taking one more element of a prefix appends that element; the full prefix is everything. */
  lemma PrefixStep<T>(xs: seq<T>, j: nat)
    requires j <= |xs|
    ensures j < |xs| ==> xs[..j + 1] == xs[..j] + [xs[j]]
    ensures xs[..|xs|] == xs
  {
  }

  lemma PrefixOfPrefix<T>(xs: seq<T>, m: nat, i: nat)
    requires i < m <= |xs|
    ensures xs[..m][..i] == xs[..i] && xs[..m][i] == xs[i]
  {
  }

  /** An index into the left part of a concatenation. */
  lemma IndexLeft<T>(s: seq<T>, a: seq<T>, b: seq<T>, k: nat)
    requires s == a + b && k < |a|
    ensures k < |s| && s[k] == a[k]
  {
  }

  /** An index into the right part of a concatenation. */
  lemma IndexRight<T>(s: seq<T>, a: seq<T>, b: seq<T>, j: nat)
    requires s == a + b && j < |b|
    ensures |a| + j < |s| && s[|a| + j] == b[j]
  {
  }

  lemma SingletonOf<T>(s: seq<T>, a: T)
    requires |s| == 1 && s[0] == a
    ensures s == [a]
  {
  }

  lemma PairOf<T>(s: seq<T>, a: T, b: T)
    requires |s| == 2 && s[0] == a && s[1] == b
    ensures s == [a, b]
  {
  }

  lemma PrefixOfPair<T>(a: T, b: T)
    ensures [a, b][..1] == [a] && [a][..0] == []
  {
  }
}
