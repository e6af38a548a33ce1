/**
 Facts about sequences and multisets that the proofs of the other modules
 use over and over. Each is proved once here, for any element type, so that a proof about
 histograms never has to rediscover them among its own definitions.
 */
module Seqs {

  lemma AppendNil<T>(a: seq<T>)
    ensures a + [] == a
  {
  }

  lemma AppendAssoc<T>(x: seq<T>, y: seq<T>, z: seq<T>)
    ensures (x + y) + z == x + (y + z)
  {
  }

  /** A non-empty sequence is its front followed by its last element. */
  lemma SplitLast<T>(s: seq<T>)
    requires s != []
    ensures s == s[..|s| - 1] + [s[|s| - 1]]
  {
  }

  /** Appending a non-empty `b` is appending its front, then its last element. */
  lemma AppendSplitLast<T>(a: seq<T>, b: seq<T>)
    requires b != []
    ensures b == b[..|b| - 1] + [b[|b| - 1]]
    ensures a + b == (a + b[..|b| - 1]) + [b[|b| - 1]]
  {
  }

  /** The front of `s + [x]` is `s`. */
  lemma FrontOfSnoc<T>(s: seq<T>, x: T)
    ensures (s + [x])[..|s|] == s
    ensures (s + [x])[|s|] == x
  {
  }

  lemma TakeAll<T>(s: seq<T>)
    ensures s[..|s|] == s
  {
  }

  /** One element more of a prefix, after a fixed `p`. */
  lemma TakeNext<T>(p: seq<T>, s: seq<T>, i: nat)
    requires i < |s|
    ensures s[..i + 1] == s[..i] + [s[i]]
    ensures p + s[..i + 1] == (p + s[..i]) + [s[i]]
  {
  }

  /** The last element of `s1` occurs in a rearrangement `s2`; taking it out of both leaves rearrangements. */
  lemma MatchLast<T>(s1: seq<T>, s2: seq<T>) returns (j: nat)
    requires s1 != [] && multiset(s1) == multiset(s2)
    ensures j < |s2| && s2 == s2[..j] + [s1[|s1| - 1]] + s2[j + 1..]
    ensures multiset(s1[..|s1| - 1]) == multiset(s2[..j] + s2[j + 1..])
  {
    var rest, x := s1[..|s1| - 1], s1[|s1| - 1];
    SplitLast(s1);
    assert x in multiset(s2);
    j :| 0 <= j < |s2| && s2[j] == x;
    var before, after := s2[..j], s2[j + 1..];
    assert s2 == before + [x] + after;
    assert multiset(rest) + multiset{x} == multiset(before + after) + multiset{x} by {
      assert multiset(s1) == multiset(rest) + multiset{x};
      assert multiset(s2) == multiset(before + after) + multiset{x};
    }
    MultisetCancel(multiset(rest), multiset(before + after), x);
  }

  lemma MultisetCancel<T>(a: multiset<T>, b: multiset<T>, x: T)
    requires a + multiset{x} == b + multiset{x}
    ensures a == b
  {
    assert a == (a + multiset{x}) - multiset{x};
    assert b == (b + multiset{x}) - multiset{x};
  }

  lemma Regroup<T>(a: multiset<T>, b: multiset<T>, c: multiset<T>, d: multiset<T>)
    ensures (a + b) + (c + d) == (a + c) + (b + d)
  {
  }

  lemma BagPlusNil<T>(a: multiset<T>)
    ensures a + multiset{} == a
  {
  }

  lemma TakeNone<T>(p: seq<T>, s: seq<T>)
    ensures p + s[..0] == p
  {
  }

  /** Two adjacent slices from the front make one. */
  lemma TakeSplit<T>(s: seq<T>, i: nat, j: nat)
    requires i <= j <= |s|
    ensures s[..i] + s[i..j] == s[..j]
  {
  }
}
