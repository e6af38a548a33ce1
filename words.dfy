/**
 The word n-gram extractor (`UpdateHistogramWord`): the text is split into
 words; every window of `n` consecutive words is joined with single blanks,
 lower-cased, stripped of everything that is neither a letter nor a blank,
 and its count in the caller's histogram goes up by one.
 */
module WordNgrams {
  import opened Ascii
  import opened Histogram
  import opened Tokenizer

  /** Each word followed by one blank: what `word_string += words[j] + " "` builds. */
  function Spaced(ws: seq<string>): string
  {
    if ws == [] then [] else Spaced(ws[..|ws| - 1]) + ws[|ws| - 1] + " "
  }

  /** The words joined by single blanks. */
  function Join(ws: seq<string>): string
    requires ws != []
  {
    Spaced(ws[..|ws| - 1]) + ws[|ws| - 1]
  }

  /** The key of the window of `n` words that starts at word `i`. */
  function WindowKey(ws: seq<string>, i: nat, n: nat): string
    requires 1 <= n && i + n <= |ws|
  {
    Clean(Lower(Join(ws[i..i + n])))
  }

  /** The keys of the windows starting at words `0 .. i-1`, in order. */
  function WindowKeysUpTo(ws: seq<string>, n: nat, i: nat): (ks: seq<string>)
    requires 1 <= n && i + n <= |ws| + 1
  {
    if i == 0 then [] else WindowKeysUpTo(ws, n, i - 1) + [WindowKey(ws, i - 1, n)]
  }

  /**
   The keys one call increments, in order: one per window, and none unless the
   text has strictly more than `n` words.
   */
  function WordKeys(text: string, n: nat): seq<string>
    requires 1 <= n
  {
    var ws := Tokens(text);
    if |ws| > n then WindowKeysUpTo(ws, n, |ws| - n + 1) else []
  }

  /**
   `UpdateHistogramWord(hist, text, n)`. The histogram is the caller's (passed
   by reference in the program); here it goes in and comes back out. `n` must
   be at least 1: with 0 the program reads `words[-1]`.
   */
  method UpdateHistogramWord(hist: Hist, text: string, n: nat) returns (res: Hist)
    requires 1 <= n
    ensures |Tokens(text)| <= n ==> res == hist
    ensures res == AddKeys(hist, WordKeys(text, n))
  {
    var words := Tokens(text);
    res := hist;
    if |words| > n {
      var i := 0;
      while i < |words| - n + 1
        invariant 0 <= i <= |words| - n + 1
        invariant res == AddKeys(hist, WindowKeysUpTo(words, n, i))
      {
        var phrase := WindowPhrase(words, i, n);
        WindowKeysUpToNext(words, n, i);
        AddKeysSnoc(hist, WindowKeysUpTo(words, n, i), phrase);
        res := Increment(res, phrase);
        i := i + 1;
      }
    }
  }

  /** One window more: the window starting at word `i` adds its key. */
  lemma WindowKeysUpToNext(ws: seq<string>, n: nat, i: nat)
    requires 1 <= n && i + n + 1 <= |ws| + 1
    ensures WindowKeysUpTo(ws, n, i + 1) == WindowKeysUpTo(ws, n, i) + [WindowKey(ws, i, n)]
  {
  }

  /**
   The body of the extractor's window loop: compose the first `n - 1` words
   each followed by a blank, then the last word; lower-case the phrase in
   place; erase every character that is neither a letter nor a blank.
   */
  method WindowPhrase(words: seq<string>, i: nat, n: nat) returns (phrase: string)
    requires 1 <= n && i + n <= |words|
    ensures phrase == WindowKey(words, i, n)
  {
    phrase := [];
    var j := i;
    while j < i + n - 1
      invariant i <= j <= i + n - 1
      invariant phrase == Spaced(words[i..j])
    {
      SpacedStep(words, i, j);
      phrase := phrase + words[j] + " ";
      j := j + 1;
    }
    phrase := phrase + words[i + n - 1];
    JoinWindow(words, i, n);
    phrase := LowerInPlace(phrase);
    phrase := Clean(phrase);
  }

  lemma SpacedStep(ws: seq<string>, i: nat, j: nat)
    requires i <= j < |ws|
    ensures Spaced(ws[i..j + 1]) == Spaced(ws[i..j]) + ws[j] + " "
  {
    assert ws[i..j + 1][..j - i] == ws[i..j];
  }

  lemma JoinWindow(ws: seq<string>, i: nat, n: nat)
    requires 1 <= n && i + n <= |ws|
    ensures Join(ws[i..i + n]) == Spaced(ws[i..i + n - 1]) + ws[i + n - 1]
  {
    assert ws[i..i + n][..n - 1] == ws[i..i + n - 1];
  }

  lemma {:induction false} WindowKeysUpToLength(ws: seq<string>, n: nat, i: nat)
    requires 1 <= n && i + n <= |ws| + 1
    ensures |WindowKeysUpTo(ws, n, i)| == i
  {
    if i > 0 {
      WindowKeysUpToLength(ws, n, i - 1);
    }
  }

  /**
   One call adds exactly `m - n + 1` to the sum of all counts when the text has
   `m > n` words (one increment per window), and nothing otherwise.
   */
  lemma WordTotal(hist: Hist, text: string, n: nat)
    requires 1 <= n
    ensures Total(AddKeys(hist, WordKeys(text, n))) ==
      Total(hist) + (if |Tokens(text)| > n then |Tokens(text)| - n + 1 else 0)
  {
    var ws := Tokens(text);
    if |ws| > n {
      WindowKeysUpToLength(ws, n, |ws| - n + 1);
    }
    TotalAddKeys(hist, WordKeys(text, n));
  }

  /**
   A key the call does not produce keeps its count; a produced key gains one
   per window that yields it; the new keys are exactly the produced ones.
   */
  lemma WordCounts(hist: Hist, text: string, n: nat)
    requires 1 <= n
    ensures AddKeys(hist, WordKeys(text, n)).Keys == hist.Keys + set k | k in WordKeys(text, n)
    ensures forall k :: k !in WordKeys(text, n) ==> Count(AddKeys(hist, WordKeys(text, n)), k) == Count(hist, k)
    ensures forall k :: Count(AddKeys(hist, WordKeys(text, n)), k) == Count(hist, k) + multiset(WordKeys(text, n))[k]
  {
    AddKeysCounts(hist, WordKeys(text, n));
  }

  /** Words have no blank, so the blanks of the spaced form are the separators. */
  lemma {:induction false} SpacedBlanks(ws: seq<string>)
    requires forall w :: w in ws ==> NoSpace(w)
    ensures multiset(Spaced(ws))[' '] == |ws|
  {
    if ws != [] {
      var last := ws[|ws| - 1];
      assert last in ws;
      assert ' ' !in last;
      SpacedBlanks(ws[..|ws| - 1]);
    }
  }

  /** A character of the cleaned, lower-cased form is a lower-case letter or a blank. */
  lemma CleanLowerChars(s: string)
    ensures forall c :: c in Clean(Lower(s)) ==> IsLower(c) || c == ' '
  {
    CleanChars(Lower(s));
    forall c | c in Clean(Lower(s)) ensures IsLower(c) || c == ' ' {
      assert c in Lower(s);
      var i :| 0 <= i < |s| && Lower(s)[i] == c;
    }
  }

  /** The key of a window of `n` words has only lower-case letters and blanks, and exactly `n - 1` blanks. */
  lemma WindowKeyShape(ws: seq<string>, i: nat, n: nat)
    requires 1 <= n && i + n <= |ws|
    requires forall w :: w in ws ==> NoSpace(w)
    ensures WordKeyForm(WindowKey(ws, i, n), n)
  {
    var window := ws[i..i + n];
    var front, last := window[..n - 1], window[n - 1];
    assert last in ws;
    assert ' ' !in last;
    SpacedBlanks(front);
    CleanLowerChars(Join(window));
    LowerKeepsBlanks(Join(window));
    CleanKeepsBlanks(Lower(Join(window)));
  }

  /** The form of a word key: lower-case letters and blanks only, exactly `n - 1` blanks. */
  predicate WordKeyForm(k: string, n: nat)
  {
    (forall c :: c in k ==> IsLower(c) || c == ' ') && multiset(k)[' '] == n - 1
  }

  lemma {:induction false} WindowKeysUpToShape(ws: seq<string>, n: nat, i: nat)
    requires 1 <= n && i + n <= |ws| + 1
    requires forall w :: w in ws ==> NoSpace(w)
    ensures forall k :: k in WindowKeysUpTo(ws, n, i) ==> WordKeyForm(k, n)
  {
    if i > 0 {
      var before, key := WindowKeysUpTo(ws, n, i - 1), WindowKey(ws, i - 1, n);
      WindowKeysUpToShape(ws, n, i - 1);
      WindowKeyShape(ws, i - 1, n);
      KeyFormSnoc(before, key, n);
    }
  }

  lemma KeyFormSnoc(ks: seq<string>, key: string, n: nat)
    requires forall k :: k in ks ==> WordKeyForm(k, n)
    requires WordKeyForm(key, n)
    ensures forall k :: k in ks + [key] ==> WordKeyForm(k, n)
  {
  }

  /**
   Every key the word extractor adds to a histogram consists of lower-case
   letters and blanks only, with exactly `n - 1` blanks (a word made only of
   punctuation leaves its blanks behind).
   */
  lemma WordKeysShape(hist: Hist, text: string, n: nat)
    requires 1 <= n
    ensures forall k :: k in AddKeys(hist, WordKeys(text, n)) && k !in hist ==> WordKeyForm(k, n)
  {
    WordKeysForm(text, n);
    NewKeysForm(hist, WordKeys(text, n), n);
  }

  /** Every key of one call has the form of a word key. */
  lemma WordKeysForm(text: string, n: nat)
    requires 1 <= n
    ensures forall k :: k in WordKeys(text, n) ==> WordKeyForm(k, n)
  {
    var ws := Tokens(text);
    if |ws| > n {
      TokensAreWords(text);
      WindowKeysUpToShape(ws, n, |ws| - n + 1);
    }
  }

  lemma NewKeysForm(h: Hist, ks: seq<string>, n: nat)
    requires forall k :: k in ks ==> WordKeyForm(k, n)
    ensures forall k :: k in AddKeys(h, ks) && k !in h ==> WordKeyForm(k, n)
  {
    NewKeysFrom(h, ks);
  }
}
