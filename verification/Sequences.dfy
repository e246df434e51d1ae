/** Small facts about sequences and multisets. */
module Sequences {

  lemma SplitAt<T>(s: seq<T>, k: nat)
    requires k <= |s|
    ensures s[..k] + s[k..] == s
    ensures k < |s| ==> s[k..][0] == s[k]
    ensures s[..|s|] == s
  {
  }

  lemma NextSlice<T>(s: seq<T>, i: nat)
    requires i < |s|
    ensures s[..i + 1] == s[..i] + [s[i]]
    ensures s[..i + 1][..i] == s[..i]
  {
  }

  lemma SplitLast<T>(s: seq<T>)
    requires s != []
    ensures s == s[..|s| - 1] + [s[|s| - 1]]
  {
  }

  lemma PrefixOfPrefix<T>(s: seq<T>, i: nat, j: nat)
    requires i <= j <= |s|
    ensures s[..j][..i] == s[..i]
    ensures s[..j] == s[..i] + s[i..j]
  {
  }

  /** Taking the head off a suffix. */
  lemma RestSlice<T>(s: seq<T>, k: nat)
    requires k < |s|
    ensures s[k..][0] == s[k] && s[k..][1..] == s[k + 1..]
    ensures s[..k + 1] == s[..k] + [s[k]]
  {
  }

  lemma WithoutFirst<T>(s: seq<T>)
    requires s != []
    ensures s[..0] + s[1..] == s[1..]
  {
  }

  lemma HeadSlice<T>(s: seq<T>, k: nat)
    requires k < |s|
    ensures s[..k + 1] == [s[0]] + s[1..][..k]
    ensures k + 1 < |s| ==> s[k + 1] == s[1..][k]
  {
  }

  lemma Associate<T>(a: seq<T>, b: seq<T>, c: seq<T>)
    ensures (a + b) + c == a + (b + c)
  {
  }

  lemma AppendToTail<T>(s: seq<T>, x: T, k: nat)
    requires k <= |s|
    ensures (s + [x])[k..] == s[k..] + [x]
  {
  }

  lemma InAppended<T>(s: seq<T>, x: T, y: T)
    ensures y in s + [x] <==> y in s || y == x
    ensures s + [] == s
  {
  }

  /** Peeling the last element off a concatenation. */
  lemma PeelLast<T>(a: seq<T>, b: seq<T>)
    requires b != []
    ensures (a + b)[..|a + b| - 1] == a + b[..|b| - 1] && (a + b)[|a + b| - 1] == b[|b| - 1]
  {
  }

  /** The multiset of a sequence, from its last element. */
  lemma LastCounted<T>(s: seq<T>)
    requires s != []
    ensures multiset(s) == multiset(s[..|s| - 1]) + multiset{s[|s| - 1]}
  {
    assert s == s[..|s| - 1] + [s[|s| - 1]];
  }

  /** Slices of the tail, as a loop from the second element meets them. */
  lemma NextTailSlice<T>(s: seq<T>, k: nat)
    requires 1 <= k < |s|
    ensures s[1..k + 1] == s[1..k] + [s[k]] && s[1..k + 1][..k - 1] == s[1..k]
    ensures s[..k + 1] == s[..k] + [s[k]] && s[1..|s|] == s[1..]
  {
  }

  lemma PrefixIncluded<T>(a: seq<T>, b: seq<T>, m: multiset<T>)
    requires multiset(a + b) <= m
    ensures multiset(a) <= m
  {
  }

  lemma WithoutOne<T>(s: seq<T>, i: nat)
    requires i < |s|
    ensures multiset(s) == multiset(s[..i] + s[i + 1..]) + multiset{s[i]}
    ensures s == s[..i] + [s[i]] + s[i + 1..]
  {
    assert s == s[..i] + [s[i]] + s[i + 1..];
  }

  /** Dropping one common element keeps inclusion. */
  lemma DropCommon<T>(a: seq<T>, b: seq<T>) returns (i: nat)
    requires a != [] && multiset(a) <= multiset(b)
    ensures i < |b| && b[i] == a[0] && multiset(a[1..]) <= multiset(b[..i] + b[i + 1..])
  {
    assert a[0] in multiset(b);
    i :| 0 <= i < |b| && b[i] == a[0];
    Removed(a, 0);
    Removed(b, i);
    WithoutFirst(a);
  }

  lemma Removed<T>(s: seq<T>, i: nat)
    requires i < |s|
    ensures multiset(s[..i] + s[i + 1..]) == multiset(s) - multiset{s[i]}
  {
    WithoutOne(s, i);
  }

  /** Dropping one common element keeps a permutation a permutation. */
  lemma DropSame<T>(a: seq<T>, b: seq<T>) returns (i: nat)
    requires a != [] && multiset(a) == multiset(b)
    ensures i < |b| && b[i] == a[0] && multiset(a[1..]) == multiset(b[..i] + b[i + 1..])
  {
    assert a[0] in multiset(b);
    i :| 0 <= i < |b| && b[i] == a[0];
    Removed(a, 0);
    Removed(b, i);
    WithoutFirst(a);
  }
}
