/**
 The letter n-gram extractor (`UpdateHistogramLetter`): a window of `n`
 characters slides over the text; a window made only of letters is lower-cased
 and its count in the caller's histogram goes up by one.
 */
module LetterNgrams {
  import opened Ascii
  import opened Histogram
  import opened Seqs

  /** The window at offset `i` is all letters and lower-cases to `key`. */
  predicate MatchesAt(text: string, n: nat, i: nat, key: string)
    requires i + n <= |text|
  {
    AllAlpha(text[i..i + n]) && Lower(text[i..i + n]) == key
  }

  /** The window at offset `i` is all letters, so it counts. */
  predicate LettersAt(text: string, n: nat, i: nat)
    requires i + n <= |text|
  {
    AllAlpha(text[i..i + n])
  }

  /** The keys the windows at offsets `0 .. i-1` contribute, in offset order. */
  function KeysUpTo(text: string, n: nat, i: nat): seq<string>
    requires i + n <= |text| + 1
  {
    if i == 0 then []
    else
      var window := text[i - 1..i - 1 + n];
      KeysUpTo(text, n, i - 1) + (if AllAlpha(window) then [Lower(window)] else [])
  }

  /**
   The keys one call increments, in order. Nothing unless the text is strictly
   longer than `n`: a text of exactly `n` characters contributes nothing.
   */
  function LetterKeys(text: string, n: nat): seq<string>
  {
    if |text| > n then KeysUpTo(text, n, |text| - n + 1) else []
  }

  /** The offsets whose window counts as `key`; none when `|text| <= n`. */
  function MatchingOffsets(text: string, n: nat, key: string): set<nat>
  {
    if |text| > n then MatchesBelow(text, n, |text| - n + 1, key) else {}
  }

  /**
   `UpdateHistogramLetter(hist, text, n)`. The histogram is the caller's
   (passed by reference in the program); here it goes in and comes back out.
   */
  method UpdateHistogramLetter(hist: Hist, text: string, n: nat) returns (res: Hist)
    ensures |text| <= n ==> res == hist
    ensures res == AddKeys(hist, LetterKeys(text, n))
  {
    res := hist;
    if |text| > n {
      var i := 0;
      while i < |text| - n + 1
        invariant 0 <= i <= |text| - n + 1
        invariant res == AddKeys(hist, KeysUpTo(text, n, i))
      {
        var letters := Window(text, i, n);
        KeysUpToNext(text, n, i);
        if AllAlpha(letters) {
          letters := LowerInPlace(letters);
          AddKeysSnoc(hist, KeysUpTo(text, n, i), letters);
          res := Increment(res, letters);
        } else {
          AppendNil(KeysUpTo(text, n, i));
        }
        i := i + 1;
      }
    }
  }

  /** One window more: the window at offset `i` adds its key exactly when it is all letters. */
  lemma KeysUpToNext(text: string, n: nat, i: nat)
    requires i + n + 1 <= |text| + 1
    ensures KeysUpTo(text, n, i + 1) ==
      KeysUpTo(text, n, i) + if AllAlpha(text[i..i + n]) then [Lower(text[i..i + n])] else []
  {
  }

  /** Compose the window at offset `i` one character at a time (`letter_string += text[j]`). */
  method Window(text: string, i: nat, n: nat) returns (letters: string)
    requires i + n <= |text|
    ensures letters == text[i..i + n]
  {
    letters := [];
    var j := i;
    while j < i + n
      invariant i <= j <= i + n
      invariant letters == text[i..j]
    {
      letters := letters + [text[j]];
      j := j + 1;
    }
  }

  /** Every key a prefix of the windows contributes has length `n` and is all lower-case letters. */
  lemma {:induction false} KeysUpToShape(text: string, n: nat, i: nat)
    requires i + n <= |text| + 1
    ensures forall key :: key in KeysUpTo(text, n, i) ==> |key| == n && AllLower(key)
  {
    if i > 0 {
      KeysUpToShape(text, n, i - 1);
      var window := text[i - 1..i - 1 + n];
      if AllAlpha(window) {
        LowerOfLetters(window);
      }
    }
  }

  /**
   Every key the letter extractor adds to a histogram has length `n` and is
   made of lower-case letters only.
   */
  lemma LetterKeysShape(hist: Hist, text: string, n: nat)
    ensures forall key :: key in AddKeys(hist, LetterKeys(text, n)) && key !in hist ==>
      |key| == n && AllLower(key)
  {
    if |text| > n {
      KeysUpToShape(text, n, |text| - n + 1);
    }
    NewLetterKeys(hist, LetterKeys(text, n), n);
  }

  lemma NewLetterKeys(h: Hist, ks: seq<string>, n: nat)
    requires forall key :: key in ks ==> |key| == n && AllLower(key)
    ensures forall key :: key in AddKeys(h, ks) && key !in h ==> |key| == n && AllLower(key)
  {
    NewKeysFrom(h, ks);
  }

  /** The offsets below `i` whose window counts as `key`. */
  function MatchesBelow(text: string, n: nat, i: nat, key: string): set<nat>
    requires i + n <= |text| + 1
  {
    set j: nat | j < i && MatchesAt(text, n, j, key)
  }

  lemma MatchesBelowStep(text: string, n: nat, i: nat, key: string)
    requires 0 < i && i + n <= |text| + 1
    ensures |MatchesBelow(text, n, i, key)| ==
      |MatchesBelow(text, n, i - 1, key)| + (if MatchesAt(text, n, i - 1, key) then 1 else 0)
  {
    var s, s' := MatchesBelow(text, n, i, key), MatchesBelow(text, n, i - 1, key);
    if MatchesAt(text, n, i - 1, key) {
      forall j: nat | j in s ensures j in s' + {i - 1} {
        if j != i - 1 { assert j < i - 1; }
      }
      assert s == s' + {i - 1};
    } else {
      assert s == s';
    }
  }

  /** The number of times a prefix of the windows yields `key` is the number of matching offsets. */
  lemma {:induction false} KeysUpToCount(text: string, n: nat, i: nat, key: string)
    requires i + n <= |text| + 1
    ensures multiset(KeysUpTo(text, n, i))[key] == |MatchesBelow(text, n, i, key)|
  {
    if i == 0 {
      assert MatchesBelow(text, n, i, key) == {};
    } else {
      KeysUpToCount(text, n, i - 1, key);
      MatchesBelowStep(text, n, i, key);
      var window := text[i - 1..i - 1 + n];
      var tail := if AllAlpha(window) then [Lower(window)] else [];
      assert multiset(KeysUpTo(text, n, i)) == multiset(KeysUpTo(text, n, i - 1)) + multiset(tail);
      assert multiset(tail)[key] == if MatchesAt(text, n, i - 1, key) then 1 else 0;
    }
  }

  /**
   What one call does to each key: its count rises by exactly the number of
   offsets whose window is all letters and lower-cases to it. A key with no
   such window, and every key when the text is not longer than `n`, keeps its
   count.
   */
  lemma LetterCounts(hist: Hist, text: string, n: nat, key: string)
    ensures Count(AddKeys(hist, LetterKeys(text, n)), key) == Count(hist, key) + |MatchingOffsets(text, n, key)|
  {
    AddKeysCount(hist, LetterKeys(text, n), key);
    if |text| > n {
      KeysUpToCount(text, n, |text| - n + 1, key);
    }
  }

  /** The offsets below `i` whose window is all letters. */
  function LettersBelow(text: string, n: nat, i: nat): set<nat>
    requires i + n <= |text| + 1
  {
    set j: nat | j < i && LettersAt(text, n, j)
  }

  lemma LettersBelowStep(text: string, n: nat, i: nat)
    requires 0 < i && i + n <= |text| + 1
    ensures |LettersBelow(text, n, i)| ==
      |LettersBelow(text, n, i - 1)| + (if LettersAt(text, n, i - 1) then 1 else 0)
  {
    var s, s' := LettersBelow(text, n, i), LettersBelow(text, n, i - 1);
    if LettersAt(text, n, i - 1) {
      forall j: nat | j in s ensures j in s' + {i - 1} {
        if j != i - 1 { assert j < i - 1; }
      }
      assert s == s' + {i - 1};
    } else {
      assert s == s';
    }
  }

  /** The number of keys a prefix of the windows contributes: one per all-letter window. */
  lemma {:induction false} KeysUpToLength(text: string, n: nat, i: nat)
    requires i + n <= |text| + 1
    ensures |KeysUpTo(text, n, i)| == |LettersBelow(text, n, i)|
  {
    if i == 0 {
      assert LettersBelow(text, n, i) == {};
    } else {
      KeysUpToLength(text, n, i - 1);
      LettersBelowStep(text, n, i);
    }
  }

  /**
   One call adds to the sum of all counts exactly the number of all-letter
   windows when the text is longer than `n` (one increment per such window),
   and nothing otherwise.
   */
  lemma LetterTotal(hist: Hist, text: string, n: nat)
    ensures Total(AddKeys(hist, LetterKeys(text, n))) ==
      Total(hist) + (if |text| > n then |LettersBelow(text, n, |text| - n + 1)| else 0)
  {
    if |text| > n {
      KeysUpToLength(text, n, |text| - n + 1);
    }
    TotalAddKeys(hist, LetterKeys(text, n));
  }
}
