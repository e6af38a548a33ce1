/**
 Documents and what the two extractors make of them. A document is the
 outcome of reading one file: its content, or nothing when the file could not
 be opened (the program prints a message and goes on). The builders keep two
 histograms, `hists[0]` for letter n-grams and `hists[1]` for word n-grams.
 */
module Documents {
  import opened Ascii
  import opened Histogram
  import opened Tokenizer
  import opened LetterNgrams
  import opened WordNgrams
  import opened Seqs

  datatype Option<T> = None | Some(value: T)

  /** The result of reading one file. */
  type Doc = Option<string>

  /** The pair `hists`: letter n-grams and word n-grams. */
  datatype HistPair = HistPair(letter: Hist, word: Hist)

  /** Which of the two histograms. */
  datatype Kind = Letters | Words

  const Empty := HistPair(map[], map[])

  function Part(p: HistPair, kind: Kind): Hist
  {
    match kind
    case Letters => p.letter
    case Words => p.word
  }

  /** The keys the extractor of `kind` increments for one text. */
  function TextKeys(kind: Kind, text: string, n: nat): seq<string>
    requires 1 <= n
  {
    match kind
    case Letters => LetterKeys(text, n)
    case Words => WordKeys(text, n)
  }

  /** The keys one document contributes; an unreadable one contributes none. */
  function DocKeys(kind: Kind, d: Doc, n: nat): seq<string>
    requires 1 <= n
  {
    match d
    case None => []
    case Some(text) => TextKeys(kind, text, n)
  }

  /** The keys a sequence of documents contributes, document after document. */
  function AllKeys(kind: Kind, docs: seq<Doc>, n: nat): seq<string>
    requires 1 <= n
  {
    if docs == [] then [] else AllKeys(kind, docs[..|docs| - 1], n) + DocKeys(kind, docs[|docs| - 1], n)
  }

  /** The pair after both extractors have run over every document of `docs`, one after the other, starting from `h`. */
  function Accumulate(h: HistPair, docs: seq<Doc>, n: nat): HistPair
    requires 1 <= n
  {
    if docs == [] then h else Feed(Accumulate(h, docs[..|docs| - 1], n), docs[|docs| - 1], n)
  }

  /** What one document does to the pair: both extractors run on a readable one. */
  function Feed(p: HistPair, d: Doc, n: nat): HistPair
    requires 1 <= n
  {
    match d
    case None => p
    case Some(text) => HistPair(AddKeys(p.letter, LetterKeys(text, n)), AddKeys(p.word, WordKeys(text, n)))
  }

  /** `max_iter` passes over the corpus, one after the other. */
  function Repeat(corpus: seq<Doc>, passes: nat): seq<Doc>
  {
    if passes == 0 then [] else Repeat(corpus, passes - 1) + corpus
  }

  /** The contents of the readable documents, in order: what the loading loops push into `texts`. */
  function Loaded(docs: seq<Doc>): seq<string>
  {
    if docs == [] then []
    else
      Loaded(docs[..|docs| - 1]) + match docs[|docs| - 1] { case None => [] case Some(text) => [text] }
  }

  /** Loaded contents seen as documents again. */
  function Lift(texts: seq<string>): (docs: seq<Doc>)
    ensures |docs| == |texts|
    ensures forall i :: 0 <= i < |texts| ==> docs[i] == Some(texts[i])
  {
    if texts == [] then [] else Lift(texts[..|texts| - 1]) + [Some(texts[|texts| - 1])]
  }

  lemma AllKeysSnoc(kind: Kind, docs: seq<Doc>, d: Doc, n: nat)
    requires 1 <= n
    ensures AllKeys(kind, docs + [d], n) == AllKeys(kind, docs, n) + DocKeys(kind, d, n)
  {
    FrontOfSnoc(docs, d);
  }

  /** The keys of two stretches of documents are the keys of the first followed by those of the second. */
  lemma {:induction false} AllKeysAppend(kind: Kind, a: seq<Doc>, b: seq<Doc>, n: nat)
    requires 1 <= n
    ensures AllKeys(kind, a + b, n) == AllKeys(kind, a, n) + AllKeys(kind, b, n)
  {
    if b == [] {
      AppendNil(a);
      AppendNil(AllKeys(kind, a, n));
    } else {
      var b', d := b[..|b| - 1], b[|b| - 1];
      AppendSplitLast(a, b);
      AllKeysSnoc(kind, a + b', d, n);
      AllKeysAppend(kind, a, b', n);
      AllKeysSnoc(kind, b', d, n);
      AppendAssoc(AllKeys(kind, a, n), AllKeys(kind, b', n), DocKeys(kind, d, n));
    }
  }

  /** Accumulating one more document is feeding it to the pair accumulated so far. */
  lemma AccumulateSnoc(h: HistPair, docs: seq<Doc>, d: Doc, n: nat)
    requires 1 <= n
    ensures Accumulate(h, docs + [d], n) == Feed(Accumulate(h, docs, n), d, n)
  {
    FrontOfSnoc(docs, d);
  }

  /**
   The document-by-document counting in closed form: the pair is `h` with
   every letter key of the documents added to its letter histogram and every
   word key to its word histogram.
   */
  lemma {:induction false} AccumulateKeys(h: HistPair, docs: seq<Doc>, n: nat)
    requires 1 <= n
    ensures Accumulate(h, docs, n) ==
      HistPair(AddKeys(h.letter, AllKeys(Letters, docs, n)), AddKeys(h.word, AllKeys(Words, docs, n)))
    decreases |docs|
  {
    if docs != [] {
      var docs', d := docs[..|docs| - 1], docs[|docs| - 1];
      AccumulateKeys(h, docs', n);
      AddKeysAppend(h.letter, AllKeys(Letters, docs', n), DocKeys(Letters, d, n));
      AddKeysAppend(h.word, AllKeys(Words, docs', n), DocKeys(Words, d, n));
    }
  }

  /** The step of a loop over `docs` that has already accumulated `prefix`. */
  lemma AccumulateStep(h: HistPair, prefix: seq<Doc>, docs: seq<Doc>, i: nat, n: nat)
    requires 1 <= n && i < |docs|
    ensures Accumulate(h, prefix + docs[..i + 1], n) == Feed(Accumulate(h, prefix + docs[..i], n), docs[i], n)
  {
    TakeNext(prefix, docs, i);
    AccumulateSnoc(h, prefix + docs[..i], docs[i], n);
  }

  /** Counting `a` and then `b` is counting `a + b`. */
  lemma AccumulateAppend(h: HistPair, a: seq<Doc>, b: seq<Doc>, n: nat)
    requires 1 <= n
    ensures Accumulate(Accumulate(h, a, n), b, n) == Accumulate(h, a + b, n)
  {
    AccumulateKeys(h, a, n);
    AccumulateKeys(Accumulate(h, a, n), b, n);
    AccumulateKeys(h, a + b, n);
    AllKeysAppend(Letters, a, b, n);
    AllKeysAppend(Words, a, b, n);
    AddKeysAppend(h.letter, AllKeys(Letters, a, n), AllKeys(Letters, b, n));
    AddKeysAppend(h.word, AllKeys(Words, a, n), AllKeys(Words, b, n));
  }

  /** An earlier number of passes is a prefix of a later one. */
  lemma {:induction false} RepeatPrefix(corpus: seq<Doc>, k: nat, passes: nat)
    requires k <= passes
    ensures Repeat(corpus, k) <= Repeat(corpus, passes)
    decreases passes
  {
    if k < passes {
      RepeatPrefix(corpus, k, passes - 1);
    }
  }

  /** One pass more appends `corpus` once, and pass `k` ends within the later passes. */
  lemma RepeatLength(corpus: seq<Doc>, k: nat, passes: nat)
    requires k < passes
    ensures Repeat(corpus, k + 1) == Repeat(corpus, k) + corpus
    ensures |Repeat(corpus, k)| + |corpus| <= |Repeat(corpus, passes)|
  {
    RepeatPrefix(corpus, k + 1, passes);
  }

  /** Reading the loaded contents back as documents gives the same keys: an unreadable document contributes nothing. */
  lemma {:induction false} LiftLoaded(kind: Kind, docs: seq<Doc>, n: nat)
    requires 1 <= n
    ensures AllKeys(kind, Lift(Loaded(docs)), n) == AllKeys(kind, docs, n)
  {
    if docs != [] {
      var docs', d := docs[..|docs| - 1], docs[|docs| - 1];
      SplitLast(docs);
      LiftLoaded(kind, docs', n);
      LoadedSnoc(docs', d);
      match d {
        case None =>
          AppendNil(Loaded(docs'));
        case Some(text) =>
          LiftSnoc(Loaded(docs'), text);
          AllKeysSnoc(kind, Lift(Loaded(docs')), Some(text), n);
      }
      AllKeysSnoc(kind, docs', d, n);
    }
  }

  lemma LoadedSnoc(docs: seq<Doc>, d: Doc)
    ensures Loaded(docs + [d]) == Loaded(docs) + match d { case None => [] case Some(text) => [text] }
  {
    FrontOfSnoc(docs, d);
  }

  lemma {:induction false} LoadedAppend(a: seq<Doc>, b: seq<Doc>)
    ensures Loaded(a + b) == Loaded(a) + Loaded(b)
    decreases |b|
  {
    if b == [] {
      AppendNil(a);
      AppendNil(Loaded(a));
    } else {
      var b', d := b[..|b| - 1], b[|b| - 1];
      AppendSplitLast(a, b);
      LoadedAppend(a, b');
      LoadedSnoc(a + b', d);
      LoadedSnoc(b', d);
      AppendAssoc(Loaded(a), Loaded(b'), match d { case None => [] case Some(text) => [text] });
    }
  }

  lemma LiftSnoc(texts: seq<string>, text: string)
    ensures Lift(texts + [text]) == Lift(texts) + [Some(text)]
  {
    FrontOfSnoc(texts, text);
  }

  /** Counting the loaded contents is counting the documents they were loaded from. */
  lemma AccumulateLoaded(h: HistPair, docs: seq<Doc>, n: nat)
    requires 1 <= n
    ensures Accumulate(h, Lift(Loaded(docs)), n) == Accumulate(h, docs, n)
  {
    AccumulateKeys(h, Lift(Loaded(docs)), n);
    AccumulateKeys(h, docs, n);
    LiftLoaded(Letters, docs, n);
    LiftLoaded(Words, docs, n);
  }

  /** The keys of `before + [d] + after` are those of `before + after` and those of `d`. */
  lemma KeysAround(kind: Kind, before: seq<Doc>, d: Doc, after: seq<Doc>, n: nat)
    requires 1 <= n
    ensures multiset(AllKeys(kind, before + [d] + after, n)) ==
      multiset(AllKeys(kind, before + after, n)) + multiset(DocKeys(kind, d, n))
  {
    AllKeysAppend(kind, before, after, n);
    AllKeysAppend(kind, before + [d], after, n);
    AllKeysSnoc(kind, before, d, n);
  }

  /** The keys of any rearrangement of the documents form the same multiset. */
  lemma {:induction false} AllKeysRearranged(kind: Kind, docs1: seq<Doc>, docs2: seq<Doc>, n: nat)
    requires 1 <= n
    requires multiset(docs1) == multiset(docs2)
    ensures multiset(AllKeys(kind, docs1, n)) == multiset(AllKeys(kind, docs2, n))
    decreases |docs1|
  {
    if docs1 != [] {
      var rest, d := docs1[..|docs1| - 1], docs1[|docs1| - 1];
      var j := MatchLast(docs1, docs2);
      var before, after := docs2[..j], docs2[j + 1..];
      AllKeysRearranged(kind, rest, before + after, n);
      var dk := multiset(DocKeys(kind, d, n));
      assert multiset(AllKeys(kind, docs1, n)) == multiset(AllKeys(kind, rest, n)) + dk by {
        assert AllKeys(kind, docs1, n) == AllKeys(kind, rest, n) + DocKeys(kind, d, n);
      }
      assert multiset(AllKeys(kind, docs2, n)) == multiset(AllKeys(kind, before + after, n)) + dk by {
        KeysAround(kind, before, d, after, n);
      }
    }
  }

  /**
   The histograms depend only on the multiset of documents read, not on the
   order they are read in: the directory order of the sequential builder and
   of the first parallel one, and the `<index>.txt` order of the other two,
   give the same result when they name the same files.
   */
  lemma OnlyTheMultisetMatters(h: HistPair, docs1: seq<Doc>, docs2: seq<Doc>, n: nat)
    requires 1 <= n
    requires multiset(docs1) == multiset(docs2)
    ensures Accumulate(h, docs1, n) == Accumulate(h, docs2, n)
  {
    AccumulateKeys(h, docs1, n);
    AccumulateKeys(h, docs2, n);
    AllKeysRearranged(Letters, docs1, docs2, n);
    AllKeysRearranged(Words, docs1, docs2, n);
    AddKeysOrderFree(h.letter, AllKeys(Letters, docs1, n), AllKeys(Letters, docs2, n));
    AddKeysOrderFree(h.word, AllKeys(Words, docs1, n), AllKeys(Words, docs2, n));
  }

  /** The keys of a stretch of documents with one unreadable document in it. */
  lemma UnreadableKeys(kind: Kind, before: seq<Doc>, d: Doc, after: seq<Doc>, n: nat)
    requires 1 <= n
    requires DocKeys(kind, d, n) == []
    ensures AllKeys(kind, before + [d] + after, n) == AllKeys(kind, before + after, n)
  {
    AllKeysAppend(kind, before + [d], after, n);
    AllKeysSnoc(kind, before, d, n);
    AllKeysAppend(kind, before, after, n);
    AppendNil(AllKeys(kind, before, n));
  }

  /** A file that cannot be opened changes nothing: the result is that of the same corpus without it. */
  lemma UnreadableSkipped(h: HistPair, before: seq<Doc>, after: seq<Doc>, n: nat)
    requires 1 <= n
    ensures Accumulate(h, before + [None] + after, n) == Accumulate(h, before + after, n)
  {
    AccumulateKeys(h, before + [None] + after, n);
    AccumulateKeys(h, before + after, n);
    UnreadableKeys(Letters, before, None, after, n);
    UnreadableKeys(Words, before, None, after, n);
  }

  /** A file that cannot be opened counts as an empty text. */
  lemma UnreadableIsEmptyText(h: HistPair, before: seq<Doc>, after: seq<Doc>, n: nat)
    requires 1 <= n
    ensures Accumulate(h, before + [None] + after, n) == Accumulate(h, before + [Some("")] + after, n)
  {
    AccumulateKeys(h, before + [None] + after, n);
    AccumulateKeys(h, before + [Some("")] + after, n);
    assert Tokens("") == [];
    UnreadableKeys(Letters, before, None, after, n);
    UnreadableKeys(Words, before, None, after, n);
    UnreadableKeys(Letters, before, Some(""), after, n);
    UnreadableKeys(Words, before, Some(""), after, n);
  }

  /** With no pass at all the histograms are left as they were (empty, as the program starts them). */
  lemma NoPasses(h: HistPair, corpus: seq<Doc>, n: nat)
    requires 1 <= n
    ensures Accumulate(h, Repeat(corpus, 0), n) == h
  {
  }

  /**
   Each total is the number of windows counted: starting from empty
   histograms, the sum of the letter counts is the number of keys the letter
   extractor produced over all documents, and likewise for words.
   */
  lemma TotalsCountWindows(docs: seq<Doc>, n: nat)
    requires 1 <= n
    ensures Total(Accumulate(Empty, docs, n).letter) == |AllKeys(Letters, docs, n)|
    ensures Total(Accumulate(Empty, docs, n).word) == |AllKeys(Words, docs, n)|
  {
    AccumulateKeys(Empty, docs, n);
    TotalAddKeys(map[], AllKeys(Letters, docs, n));
    TotalAddKeys(map[], AllKeys(Words, docs, n));
    assert Total(map[]) == 0;
  }
}
