/**
 Splitting a text into words the way `istream_iterator<string>` over an
 `istringstream` does: skip whitespace, read the longest run of
 non-whitespace characters as one word, repeat until the text is used up.
 */
module Tokenizer {
  import opened Ascii

  /** The longest prefix of `s` without whitespace: what one `>>` reads once the leading whitespace is skipped. */
  function Run(s: string): (w: string)
    ensures |w| <= |s|
  {
    if s == [] || IsSpace(s[0]) then [] else [s[0]] + Run(s[1..])
  }

  /** A run is a prefix of `s` without whitespace, and it stops only at whitespace or at the end. */
  lemma {:induction false} RunShape(s: string)
    ensures Run(s) <= s && NoSpace(Run(s))
    ensures |Run(s)| == |s| || IsSpace(s[|Run(s)|])
    decreases |s|
  {
    if s != [] && !IsSpace(s[0]) {
      RunShape(s[1..]);
    }
  }

  /** The words of `s`, in order. */
  function Tokens(s: string): (ws: seq<string>)
    decreases |s|
  {
    if s == [] then []
    else if IsSpace(s[0]) then Tokens(s[1..])
    else
      var w := Run(s);
      [w] + Tokens(s[|w|..])
  }

  /** Every word is non-empty and holds no whitespace. */
  lemma {:induction false} TokensAreWords(s: string)
    ensures forall w :: w in Tokens(s) ==> w != [] && NoSpace(w)
    decreases |s|
  {
    if s != [] {
      if IsSpace(s[0]) {
        TokensAreWords(s[1..]);
      } else {
        RunShape(s);
        TokensAreWords(s[|Run(s)|..]);
      }
    }
  }

  /** Text after a run that stops inside `a`, or that ends where whitespace follows, does not extend the run. */
  lemma {:induction false} RunAppend(a: string, t: string)
    requires |Run(a)| < |a| || t == [] || IsSpace(t[0])
    ensures Run(a + t) == Run(a)
  {
    if a == [] {
      assert a + t == t;
    } else if !IsSpace(a[0]) {
      assert (a + t)[1..] == a[1..] + t;
      RunAppend(a[1..], t);
    }
  }

  /** A single word with no whitespace around it is read as exactly that word. */
  lemma TokensOfWord(w: string)
    requires w != [] && NoSpace(w)
    ensures Tokens(w) == [w]
  {
    assert w[0] in w;
    RunShape(w);
    assert Run(w) == w;
    assert w[|w|..] == [];
  }

  /** A text of whitespace only has no words. */
  lemma {:induction false} TokensOfBlank(s: string)
    requires forall c :: c in s ==> IsSpace(c)
    ensures Tokens(s) == []
    decreases |s|
  {
    if s != [] {
      assert s[0] in s;
      TokensOfBlank(s[1..]);
    }
  }

  /**
   One whitespace character separates: the words of `a + [c] + b` are the
   words of `a` followed by the words of `b`. With TokensOfWord and
   TokensOfBlank this pins Tokens down as the maximal runs of non-whitespace.
   */
  lemma {:induction false} TokensSplit(a: string, c: char, b: string)
    requires IsSpace(c)
    ensures Tokens(a + [c] + b) == Tokens(a) + Tokens(b)
    decreases |a|
  {
    var s := a + [c] + b;
    if a == [] {
      assert s == [c] + b && s[1..] == b;
    } else if IsSpace(a[0]) {
      assert s[1..] == a[1..] + [c] + b;
      TokensSplit(a[1..], c, b);
    } else {
      var w := Run(a);
      RunShape(a);
      RunAppend(a, [c] + b);
      assert a + ([c] + b) == s;
      if |w| == |a| {
        assert w == a;
        assert s[|w|..] == [c] + b;
        assert ([c] + b)[1..] == b;
        assert a[|w|..] == [];
      } else {
        assert s[|w|..] == a[|w|..] + [c] + b;
        TokensSplit(a[|w|..], c, b);
      }
    }
  }
}
