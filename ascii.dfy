/**
 Character classification as the "C" locale does it: `std::isalpha`,
 `std::tolower` and the whitespace test that `operator>>` on a stream uses.
 Characters outside ASCII are neither letters nor whitespace.
 */
module Ascii {

  predicate IsUpper(c: char) { 'A' <= c <= 'Z' }

  predicate IsLower(c: char) { 'a' <= c <= 'z' }

  /** `std::isalpha` in the "C" locale. */
  predicate IsAlpha(c: char) { IsUpper(c) || IsLower(c) }

  /** `std::isspace` in the "C" locale: blank, tab, newline, vertical tab, form feed, carriage return. */
  predicate IsSpace(c: char) { c == ' ' || 9 <= c as int <= 13 }

  /** `std::tolower`: upper-case letters become lower case, every other character is kept. */
  function ToLower(c: char): (r: char)
    ensures IsAlpha(c) <==> IsAlpha(r)
    ensures IsAlpha(c) ==> IsLower(r)
    ensures !IsUpper(c) ==> r == c
    ensures IsUpper(c) ==> r as int - 'a' as int == c as int - 'A' as int
    ensures (r == ' ') <==> (c == ' ')
  {
    if IsUpper(c) then (c as int - 'A' as int + 'a' as int) as char else c
  }

  /** The string with every character passed through ToLower (the in-place `for (char &ch ...)` loops). */
  function Lower(s: string): (r: string)
    ensures |r| == |s|
  {
    if s == [] then [] else Lower(s[..|s| - 1]) + [ToLower(s[|s| - 1])]
  }

  /** Lower works character by character. */
  lemma {:induction false} LowerAt(s: string)
    ensures forall i :: 0 <= i < |s| ==> Lower(s)[i] == ToLower(s[i])
  {
    if s != [] {
      LowerAt(s[..|s| - 1]);
    }
  }

  /** The in-place `for (char &ch : s) ch = std::tolower(ch);` loop both extractors run. */
  method LowerInPlace(s: string) returns (r: string)
    ensures r == Lower(s)
  {
    LowerAt(s);
    r := s;
    var c := 0;
    while c < |r|
      invariant 0 <= c <= |r| == |s|
      invariant forall m :: 0 <= m < |r| ==> r[m] == if m < c then ToLower(s[m]) else s[m]
    {
      r := r[c := ToLower(r[c])];
      c := c + 1;
    }
  }

  predicate AllAlpha(s: string) { forall c :: c in s ==> IsAlpha(c) }

  predicate AllLower(s: string) { forall c :: c in s ==> IsLower(c) }

  predicate NoSpace(s: string) { forall c :: c in s ==> !IsSpace(c) }

  /** The lower-cased form of an all-letter string is all lower-case letters. */
  lemma LowerOfLetters(s: string)
    requires AllAlpha(s)
    ensures AllLower(Lower(s))
  {
    LowerAt(s);
    forall c | c in Lower(s) ensures IsLower(c) {
      var i :| 0 <= i < |Lower(s)| && Lower(s)[i] == c;
      assert s[i] in s;
    }
  }

  /** Keep only letters and blanks: the `erase(remove_if(...))` of the word extractor. */
  function Clean(s: string): string
  {
    if s == [] then []
    else
      var last := s[|s| - 1];
      assert s == s[..|s| - 1] + [last];
      Clean(s[..|s| - 1]) + (if IsAlpha(last) || last == ' ' then [last] else [])
  }

  /** Clean keeps a string made only of letters and blanks as it is. */
  lemma {:induction false} CleanKeeps(s: string)
    requires forall c :: c in s ==> IsAlpha(c) || c == ' '
    ensures Clean(s) == s
  {
    if s != [] {
      var s', last := s[..|s| - 1], s[|s| - 1];
      assert s == s' + [last];
      assert last in s;
      CleanKeeps(s');
    }
  }

  /** Clean drops every character that is neither a letter nor a blank. */
  lemma {:induction false} CleanDrops(s: string)
    requires forall c :: c in s ==> !IsAlpha(c) && c != ' '
    ensures Clean(s) == []
  {
    if s != [] {
      var s', last := s[..|s| - 1], s[|s| - 1];
      assert s == s' + [last];
      assert last in s;
      CleanDrops(s');
    }
  }

  /** What Clean keeps: letters and blanks, and only characters of its input. */
  lemma {:induction false} CleanChars(s: string)
    ensures forall c :: c in Clean(s) ==> (IsAlpha(c) || c == ' ') && c in s
  {
    if s != [] {
      var s', last := s[..|s| - 1], s[|s| - 1];
      assert s == s' + [last];
      CleanChars(s');
    }
  }

  /** Clean keeps every blank: it has as many blanks as its input. */
  lemma {:induction false} CleanKeepsBlanks(s: string)
    ensures multiset(Clean(s))[' '] == multiset(s)[' ']
  {
    if s != [] {
      var s', last := s[..|s| - 1], s[|s| - 1];
      assert s == s' + [last];
      CleanKeepsBlanks(s');
    }
  }

  /** Lower keeps every blank and makes no new one. */
  lemma {:induction false} LowerKeepsBlanks(s: string)
    ensures multiset(Lower(s))[' '] == multiset(s)[' ']
  {
    if s != [] {
      var s', last := s[..|s| - 1], s[|s| - 1];
      assert s == s' + [last];
      LowerKeepsBlanks(s');
    }
  }

  /** `a` and `b` are the same letter up to case. */
  predicate SameLetter(a: char, b: char)
  {
    a == b || a as int + 32 == b as int || b as int + 32 == a as int
  }

  /** Two letters lower-case to the same letter exactly when they are the same letter up to case. */
  lemma FoldLetter(a: char, b: char)
    requires IsAlpha(a) && IsAlpha(b)
    ensures ToLower(a) == ToLower(b) <==> SameLetter(a, b)
  {
  }

  /**
   Two all-letter strings lower-case to the same string exactly when they
   agree letter by letter up to case: the case folding the letter extractor
   relies on.
   */
  lemma LowerFolds(s: string, t: string)
    requires AllAlpha(s) && AllAlpha(t)
    ensures Lower(s) == Lower(t) <==> |s| == |t| && forall i :: 0 <= i < |s| ==> SameLetter(s[i], t[i])
  {
    var ls, lt := Lower(s), Lower(t);
    LowerAt(s);
    LowerAt(t);
    if |s| == |t| {
      forall i | 0 <= i < |s|
        ensures ls[i] == lt[i] <==> SameLetter(s[i], t[i])
      {
        assert s[i] in s && t[i] in t;
        FoldLetter(s[i], t[i]);
      }
      SameAt(ls, lt);
    }
  }

  /** Strings of the same length are equal exactly when they agree at every position. */
  lemma SameAt(a: string, b: string)
    requires |a| == |b|
    ensures a == b <==> forall i :: 0 <= i < |a| ==> a[i] == b[i]
  {
  }

  lemma LowerAppend(a: string, b: string)
    ensures Lower(a + b) == Lower(a) + Lower(b)
  {
    LowerAt(a + b);
    LowerAt(a);
    LowerAt(b);
  }

  lemma {:induction false} CleanAppend(a: string, b: string)
    ensures Clean(a + b) == Clean(a) + Clean(b)
    decreases |b|
  {
    if b != [] {
      var b', last := b[..|b| - 1], b[|b| - 1];
      var tail := if IsAlpha(last) || last == ' ' then [last] else [];
      assert (a + b)[..|a + b| - 1] == a + b' && (a + b)[|a + b| - 1] == last;
      CleanAppend(a, b');
      calc {
        Clean(a + b);
        Clean(a + b') + tail;
        Clean(a) + Clean(b') + tail;
        Clean(a) + (Clean(b') + tail);
        { assert b == b' + [last]; }
        Clean(a) + Clean(b);
      }
    } else {
      assert a + b == a;
    }
  }
}
