/**
 The four histogram builders. Each makes `maxIter` passes over the corpus;
 reading a file is replaced by the document it yields (`corpus[i]`, None when
 it cannot be opened). The builders differ in how the work is shared, and
 every one of them ends with the pair the sequential builder computes.

 The parallel builders take the schedule an OpenMP run would pick as
 parameters: `workers` threads, `owner[u]` the thread that processes unit
 `u`, and the order the threads enter the `letter` and `word` critical
 sections. Every thread is modelled one after the other; since each one
 touches only its own private histograms until the critical sections, this
 loses nothing but timing.
 */
module Builders {
  import opened Histogram
  import opened LetterNgrams
  import opened WordNgrams
  import opened Documents
  import opened Workshare
  import opened Seqs

  /** `CreateHistogramSequential`: every pass, every document in turn, straight into `hists`. */
  method CreateHistogramSequential(hists: HistPair, corpus: seq<Doc>, maxIter: nat, n: nat) returns (res: HistPair)
    requires 1 <= n
    ensures maxIter == 0 ==> res == hists
    ensures res == Accumulate(hists, Repeat(corpus, maxIter), n)
  {
    res := hists;
    var k := 0;
    while k < maxIter
      invariant k <= maxIter
      invariant res == Accumulate(hists, Repeat(corpus, k), n)
    {
      var i := 0;
      TakeNone(Repeat(corpus, k), corpus);
      while i < |corpus|
        invariant i <= |corpus|
        invariant res == Accumulate(hists, Repeat(corpus, k) + corpus[..i], n)
      {
        AccumulateStep(hists, Repeat(corpus, k), corpus, i, n);
        res := ProcessDocument(res, corpus[i], n);
        i := i + 1;
      }
      TakeAll(corpus);
      k := k + 1;
    }
  }

  /**
   Open one document and count it into `p`: the letter extractor, then the
   word extractor; a file that cannot be opened is reported and skipped.
   */
  method ProcessDocument(p: HistPair, d: Doc, n: nat) returns (r: HistPair)
    requires 1 <= n
    ensures r == Feed(p, d, n)
  {
    r := p;
    match d {
      case Some(content) =>
        var letter := UpdateHistogramLetter(p.letter, content, n);
        var word := UpdateHistogramWord(p.word, content, n);
        r := HistPair(letter, word);
      case None =>
    }
  }

  /** Count one loaded text into `p` the way CreateHistogramV1 and CreateHistogramV3 do: word n-grams first. */
  method CountText(p: HistPair, text: string, n: nat) returns (r: HistPair)
    requires 1 <= n
    ensures r == Feed(p, Some(text), n)
  {
    var word := UpdateHistogramWord(p.word, text, n);
    var letter := UpdateHistogramLetter(p.letter, text, n);
    r := HistPair(letter, word);
  }

  /**
   `CreateHistogramV1`. Every thread walks the directory `maxIter` times, and
   one of them (`omp single`) loads each readable document into the shared
   `texts`. Then the loaded texts are shared out (`owner` ranges over them) and
   each thread counts its own; then the critical sections.
   */
  method CreateHistogramV1(hists: HistPair, corpus: seq<Doc>, maxIter: nat, n: nat,
                           workers: nat, owner: seq<nat>, letterOrder: seq<nat>, wordOrder: seq<nat>)
    returns (res: HistPair)
    requires 1 <= n
    requires |owner| == |Loaded(Repeat(corpus, maxIter))|
    requires forall u :: 0 <= u < |owner| ==> owner[u] < workers
    requires Schedule(letterOrder, workers) && Schedule(wordOrder, workers)
    ensures res == Accumulate(hists, Repeat(corpus, maxIter), n)
  {
    var texts := LoadAll(corpus, maxIter);
    var parts := PrivatePhaseV1(texts, owner, workers, n);
    res := MergePhase(hists, parts, Lift(texts), owner, workers, letterOrder, wordOrder, n);
    AccumulateLoaded(hists, Repeat(corpus, maxIter), n);
  }

  /** The loading loops of CreateHistogramV1: the contents of every readable document of every pass, in order. */
  method LoadAll(corpus: seq<Doc>, maxIter: nat) returns (texts: seq<string>)
    ensures texts == Loaded(Repeat(corpus, maxIter))
  {
    texts := [];
    var k := 0;
    while k < maxIter
      invariant k <= maxIter
      invariant texts == Loaded(Repeat(corpus, k))
    {
      var i := 0;
      TakeNone(Repeat(corpus, k), corpus);
      while i < |corpus|
        invariant i <= |corpus|
        invariant texts == Loaded(Repeat(corpus, k) + corpus[..i])
      {
        TakeNext(Repeat(corpus, k), corpus, i);
        LoadedSnoc(Repeat(corpus, k) + corpus[..i], corpus[i]);
        match corpus[i] {
          case Some(content) =>
            texts := texts + [content];
          case None =>
            AppendNil(texts);
        }
        i := i + 1;
      }
      TakeAll(corpus);
      k := k + 1;
    }
  }

  /** Every thread's private work in CreateHistogramV1, thread by thread. */
  method PrivatePhaseV1(texts: seq<string>, owner: seq<nat>, workers: nat, n: nat) returns (parts: seq<HistPair>)
    requires 1 <= n && |owner| == |texts|
    ensures parts == PrivateParts(Lift(texts), owner, workers, n)
  {
    parts := [];
    var w := 0;
    while w < workers
      invariant w <= workers
      invariant parts == PrivateParts(Lift(texts), owner, w, n)
    {
      var mine := WorkerV1(texts, owner, w, n);
      parts := parts + [mine];
      w := w + 1;
    }
  }

  /** The private work of thread `w` in CreateHistogramV1: the loaded texts it owns, word n-grams first. */
  method WorkerV1(texts: seq<string>, owner: seq<nat>, w: nat, n: nat) returns (mine: HistPair)
    requires 1 <= n && |owner| == |texts|
    ensures mine == Accumulate(Empty, Assigned(Lift(texts), owner, w), n)
  {
    ghost var units := Lift(texts);
    mine := Empty;
    var l := 0;
    while l < |texts|
      invariant l <= |texts|
      invariant mine == Accumulate(Empty, Assigned(units[..l], owner[..l], w), n)
    {
      OwnedStep(Empty, units, owner, l, w, n);
      if owner[l] == w {
        mine := CountText(mine, texts[l], n);
      }
      l := l + 1;
    }
    TakeAll(units);
    TakeAll(owner);
  }

  /** One more unit looked at, on top of `h`: worker `w` counts it exactly when it owns it. */
  lemma OwnedStep(h: HistPair, units: seq<Doc>, owner: seq<nat>, u: nat, w: nat, n: nat)
    requires 1 <= n && |owner| == |units| && u < |units|
    ensures Accumulate(h, Assigned(units[..u + 1], owner[..u + 1], w), n) ==
      if owner[u] == w then Feed(Accumulate(h, Assigned(units[..u], owner[..u], w), n), units[u], n)
      else Accumulate(h, Assigned(units[..u], owner[..u], w), n)
  {
    AssignedStep(units, owner, u, w);
    if owner[u] == w {
      AccumulateSnoc(h, Assigned(units[..u], owner[..u], w), units[u], n);
    } else {
      AppendNil(Assigned(units[..u], owner[..u], w));
    }
  }

  /** One more unit looked at: it joins the units of `w` exactly when `w` owns it. */
  lemma AssignedStep<T>(units: seq<T>, owner: seq<nat>, u: nat, w: nat)
    requires |owner| == |units| && u < |units|
    ensures Assigned(units[..u + 1], owner[..u + 1], w) ==
      Assigned(units[..u], owner[..u], w) + (if owner[u] == w then [units[u]] else [])
  {
    TakeNext([], units, u);
    TakeNext([], owner, u);
    AssignedSnoc(units[..u], owner[..u], units[u], owner[u], w);
  }

  /**
   `CreateHistogramV2`. In every pass the documents `0.txt .. (count-1).txt`
   are shared out among the threads (`omp for nowait`); a thread reads each
   document it gets and counts it at once. `owner` ranges over all passes,
   pass after pass.
   */
  method CreateHistogramV2(hists: HistPair, corpus: seq<Doc>, maxIter: nat, n: nat,
                           workers: nat, owner: seq<nat>, letterOrder: seq<nat>, wordOrder: seq<nat>)
    returns (res: HistPair)
    requires 1 <= n
    requires |owner| == |Repeat(corpus, maxIter)|
    requires forall u :: 0 <= u < |owner| ==> owner[u] < workers
    requires Schedule(letterOrder, workers) && Schedule(wordOrder, workers)
    ensures res == Accumulate(hists, Repeat(corpus, maxIter), n)
  {
    var parts := PrivatePhaseV2(corpus, maxIter, owner, workers, n);
    res := MergePhase(hists, parts, Repeat(corpus, maxIter), owner, workers, letterOrder, wordOrder, n);
  }

  /** Every thread's private work in CreateHistogramV2, thread by thread. */
  method PrivatePhaseV2(corpus: seq<Doc>, maxIter: nat, owner: seq<nat>, workers: nat, n: nat) returns (parts: seq<HistPair>)
    requires 1 <= n && |owner| == |Repeat(corpus, maxIter)|
    ensures parts == PrivateParts(Repeat(corpus, maxIter), owner, workers, n)
  {
    parts := [];
    var w := 0;
    while w < workers
      invariant w <= workers
      invariant parts == PrivateParts(Repeat(corpus, maxIter), owner, w, n)
    {
      var mine := WorkerV2(corpus, maxIter, owner, w, n);
      parts := parts + [mine];
      w := w + 1;
    }
  }

  /** The private work of thread `w` in CreateHistogramV2: read and count each document it gets, letters first. */
  method WorkerV2(corpus: seq<Doc>, maxIter: nat, owner: seq<nat>, w: nat, n: nat) returns (mine: HistPair)
    requires 1 <= n && |owner| == |Repeat(corpus, maxIter)|
    ensures mine == Accumulate(Empty, Assigned(Repeat(corpus, maxIter), owner, w), n)
  {
    mine := Empty;
    var k := 0;
    var u := 0;
    while k < maxIter
      invariant k <= maxIter && u == |Repeat(corpus, k)| <= |owner|
      invariant mine == Accumulate(Empty, Assigned(Repeat(corpus, k), owner[..u], w), n)
    {
      RepeatLength(corpus, k, maxIter);
      TakeSplit(owner, u, u + |corpus|);
      var schedule := owner[u..u + |corpus|];
      AssignedAppend(Repeat(corpus, k), owner[..u], corpus, schedule, w);
      AccumulateAppend(Empty, Assigned(Repeat(corpus, k), owner[..u], w), Assigned(corpus, schedule, w), n);
      mine := PassV2(corpus, schedule, w, n, mine);
      u := u + |corpus|;
      k := k + 1;
    }
    TakeAll(owner);
  }

  /**
   One pass of thread `w` in CreateHistogramV2 (the `omp for` over the
   documents): `schedule[i]` is the thread that gets document `i` in this pass.
   */
  method PassV2(corpus: seq<Doc>, schedule: seq<nat>, w: nat, n: nat, mine0: HistPair) returns (mine: HistPair)
    requires 1 <= n && |schedule| == |corpus|
    ensures mine == Accumulate(mine0, Assigned(corpus, schedule, w), n)
  {
    mine := mine0;
    var i := 0;
    while i < |corpus|
      invariant i <= |corpus|
      invariant mine == Accumulate(mine0, Assigned(corpus[..i], schedule[..i], w), n)
    {
      OwnedStep(mine0, corpus, schedule, i, w, n);
      if schedule[i] == w {
        mine := ProcessDocument(mine, corpus[i], n);
      }
      i := i + 1;
    }
    TakeAll(corpus);
    TakeAll(schedule);
  }

  /**
   `CreateHistogramV3`. As CreateHistogramV2, but a thread first only loads
   the documents it gets into its own `texts`, and counts them after the
   passes, word n-grams first.
   */
  method CreateHistogramV3(hists: HistPair, corpus: seq<Doc>, maxIter: nat, n: nat,
                           workers: nat, owner: seq<nat>, letterOrder: seq<nat>, wordOrder: seq<nat>)
    returns (res: HistPair)
    requires 1 <= n
    requires |owner| == |Repeat(corpus, maxIter)|
    requires forall u :: 0 <= u < |owner| ==> owner[u] < workers
    requires Schedule(letterOrder, workers) && Schedule(wordOrder, workers)
    ensures res == Accumulate(hists, Repeat(corpus, maxIter), n)
  {
    var parts := PrivatePhaseV3(corpus, maxIter, owner, workers, n);
    res := MergePhase(hists, parts, Repeat(corpus, maxIter), owner, workers, letterOrder, wordOrder, n);
  }

  /** Every thread's private work in CreateHistogramV3, thread by thread: load its documents, then count them. */
  method PrivatePhaseV3(corpus: seq<Doc>, maxIter: nat, owner: seq<nat>, workers: nat, n: nat) returns (parts: seq<HistPair>)
    requires 1 <= n && |owner| == |Repeat(corpus, maxIter)|
    ensures parts == PrivateParts(Repeat(corpus, maxIter), owner, workers, n)
  {
    parts := [];
    var w := 0;
    while w < workers
      invariant w <= workers
      invariant parts == PrivateParts(Repeat(corpus, maxIter), owner, w, n)
    {
      var texts := LoadOwn(corpus, maxIter, owner, w);
      var mine := CountTexts(texts, n);
      AccumulateLoaded(Empty, Assigned(Repeat(corpus, maxIter), owner, w), n);
      parts := parts + [mine];
      w := w + 1;
    }
  }

  /** The loading phase of thread `w` in CreateHistogramV3: the readable documents it gets, in order. */
  method LoadOwn(corpus: seq<Doc>, maxIter: nat, owner: seq<nat>, w: nat) returns (texts: seq<string>)
    requires |owner| == |Repeat(corpus, maxIter)|
    ensures texts == Loaded(Assigned(Repeat(corpus, maxIter), owner, w))
  {
    texts := [];
    var k := 0;
    var u := 0;
    while k < maxIter
      invariant k <= maxIter && u == |Repeat(corpus, k)| <= |owner|
      invariant texts == Loaded(Assigned(Repeat(corpus, k), owner[..u], w))
    {
      RepeatLength(corpus, k, maxIter);
      TakeSplit(owner, u, u + |corpus|);
      var schedule := owner[u..u + |corpus|];
      AssignedAppend(Repeat(corpus, k), owner[..u], corpus, schedule, w);
      LoadedAppend(Assigned(Repeat(corpus, k), owner[..u], w), Assigned(corpus, schedule, w));
      texts := LoadPassV3(corpus, schedule, w, texts);
      u := u + |corpus|;
      k := k + 1;
    }
    TakeAll(owner);
  }

  /** One pass of the loading phase of thread `w` in CreateHistogramV3: `schedule[i]` is the thread that gets document `i`. */
  method LoadPassV3(corpus: seq<Doc>, schedule: seq<nat>, w: nat, texts0: seq<string>) returns (texts: seq<string>)
    requires |schedule| == |corpus|
    ensures texts == texts0 + Loaded(Assigned(corpus, schedule, w))
  {
    texts := texts0;
    var i := 0;
    while i < |corpus|
      invariant i <= |corpus|
      invariant texts == texts0 + Loaded(Assigned(corpus[..i], schedule[..i], w))
    {
      LoadedStep(corpus, schedule, i, w);
      AppendAssoc(texts0, Loaded(Assigned(corpus[..i], schedule[..i], w)),
        if schedule[i] == w then match corpus[i] { case None => [] case Some(text) => [text] } else []);
      if schedule[i] == w {
        match corpus[i] {
          case Some(content) =>
            texts := texts + [content];
          case None =>
            AppendNil(texts);
        }
      }
      i := i + 1;
    }
    TakeAll(corpus);
    TakeAll(schedule);
  }

  /** One more unit looked at: worker `w` loads it exactly when it owns it and it can be read. */
  lemma LoadedStep(units: seq<Doc>, owner: seq<nat>, u: nat, w: nat)
    requires |owner| == |units| && u < |units|
    ensures Loaded(Assigned(units[..u + 1], owner[..u + 1], w)) ==
      Loaded(Assigned(units[..u], owner[..u], w)) +
        if owner[u] == w then match units[u] { case None => [] case Some(text) => [text] } else []
  {
    AssignedStep(units, owner, u, w);
    if owner[u] == w {
      LoadedSnoc(Assigned(units[..u], owner[..u], w), units[u]);
    } else {
      AppendNil(Assigned(units[..u], owner[..u], w));
      AppendNil(Loaded(Assigned(units[..u], owner[..u], w)));
    }
  }

  /** The counting phase of a thread in CreateHistogramV3: every text it loaded, word n-grams first. */
  method CountTexts(texts: seq<string>, n: nat) returns (mine: HistPair)
    requires 1 <= n
    ensures mine == Accumulate(Empty, Lift(texts), n)
  {
    ghost var docs := Lift(texts);
    mine := Empty;
    var l := 0;
    while l < |texts|
      invariant l <= |texts|
      invariant mine == Accumulate(Empty, docs[..l], n)
    {
      TakeNext([], docs, l);
      AccumulateSnoc(Empty, docs[..l], docs[l], n);
      mine := CountText(mine, texts[l], n);
      l := l + 1;
    }
    TakeAll(docs);
  }
}
