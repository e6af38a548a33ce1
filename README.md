# N-gram histograms of a text corpus

A Dafny model of the histogram logic of `main.cpp`: a benchmark that counts
letter n-grams and word n-grams over a folder of text documents, sequentially
and with three OpenMP variants.

- **The two extractors.** `UpdateHistogramLetter` and `UpdateHistogramWord`
  are modelled as methods with loops. They are proved against pure
  specification functions: the sequence of keys one text contributes
  (`LetterKeys`, `WordKeys`), folded into the caller's histogram by
  `hist[key]++` (`AddKeys`).
- **Histograms.** A histogram is a `map<string, nat>`; a key it does not hold
  counts 0. The merge loop `dst[key] += count`, repeated in every critical
  section, is `MergeInto`.
- **The builders.** Each builder makes `maxIter` passes over a corpus of
  documents. A document is the result of reading one file: `Some(content)`,
  or `None` when the file cannot be opened. All four builders are proved to
  produce `Accumulate(hists, Repeat(corpus, maxIter), n)`, the fold that the
  sequential builder computes.
- **The parallel builders.** These take as parameters the schedule an OpenMP
  run would choose:
  - `workers`, the number of threads;
  - `owner[u]`, the thread that gets work unit `u` (loop iterations over all
    passes, in order);
  - `letterOrder` and `wordOrder`, the order in which the threads enter the
    two critical sections.

  Any schedule gives the sequential result. The reason is that the result
  depends only on the multiset of documents (`OnlyTheMultisetMatters`), and
  merging private histograms in any order adds the same bags of keys
  (`Workshare.MergedAll`).
- **Characters.** Characters are classified as in the "C" locale: ASCII
  letters, and whitespace made of blank, tab, newline, vertical tab, form
  feed and carriage return.

Modules:

| module | file | contents |
|---|---|---|
| `Seqs` | `seqs.dfy` | generic sequence and multiset facts |
| `Ascii` | `ascii.dfy` | `isalpha`, `tolower`, `isspace`; in-place lower-casing; the `erase(remove_if(...))` filter |
| `Tokenizer` | `tokens.dfy` | `istream_iterator<string>` word splitting |
| `Histogram` | `histogram.dfy` | counts, `hist[key]++`, the merge loop, totals |
| `LetterNgrams` | `letters.dfy` | the letter extractor |
| `WordNgrams` | `words.dfy` | the word extractor |
| `Documents` | `documents.dfy` | documents, the histogram pair, the sequential fold and its algebra |
| `Workshare` | `workshare.dfy` | schedules, private parts and critical-section merges |
| `Builders` | `builders.dfy` | the four builders |
| `Examples` | `examples.dfy` | concrete runs pinning down edge cases |

## Model

| member | source | states |
|---|---|---|
| `Ascii.ToLower` | main.cpp:41 | `tolower` maps each upper-case letter to its own lower-case counterpart ('A' to 'a' … 'Z' to 'z') and leaves every other character unchanged; letters stay letters, non-letters stay non-letters, and a blank comes only from a blank |
| `Ascii.FoldLetter` | main.cpp:41 | two letters lower-case to the same letter exactly when they are the same letter up to case |
| `Ascii.LowerFolds` | main.cpp:36-42 | two all-letter windows lower-case to the same key exactly when they have the same length and agree letter by letter up to case |
| `Ascii.LowerAt` | main.cpp:40-42 | lower-casing a string lower-cases each character in place, position by position |
| `Ascii.LowerInPlace` | main.cpp:73-75 | the in-place `for (char &ch ...)` loop computes `Lower(s)` |
| `Ascii.LowerOfLetters` | main.cpp:36-42 | an all-letter window lower-cases to all lower-case letters |
| `Ascii.CleanChars` | main.cpp:77-80 | the `remove_if` filter keeps only letters and blanks, and only characters of its input |
| `Ascii.CleanKeeps` | main.cpp:77-80 | the filter leaves a string of letters and blanks unchanged: no letter and no blank is removed |
| `Ascii.CleanDrops` | main.cpp:77-80 | the filter removes every character that is neither a letter nor a blank |
| `Ascii.CleanKeepsBlanks` | main.cpp:77-80 | the filter removes no blank |
| `Ascii.LowerKeepsBlanks` | main.cpp:73-75 | lower-casing neither removes nor creates a blank |
| `Ascii.LowerAppend` | main.cpp:73-75 | lower-casing distributes over concatenation |
| `Ascii.CleanAppend` | main.cpp:77-80 | the filter distributes over concatenation, so with `CleanKeeps` and `CleanDrops` it fixes the filter's result on every string |
| `Tokenizer.RunShape` | main.cpp:53-56 | one `>>` reads a whitespace-free prefix that ends only at whitespace or at the end of the text (a maximal run) |
| `Tokenizer.TokensAreWords` | main.cpp:53-56 | every token is non-empty and holds no whitespace |
| `Tokenizer.TokensOfWord` | main.cpp:53-56 | a lone whitespace-free word is read as exactly that one token |
| `Tokenizer.TokensOfBlank` | main.cpp:53-56 | a text of whitespace only has no tokens |
| `Tokenizer.TokensSplit` | main.cpp:53-56 | any single whitespace character splits the token list: the tokens of `a + [c] + b` are those of `a` followed by those of `b` |
| `Histogram.Increment` | main.cpp:44 | `hist[key]++` adds the key if absent, raises its count by one and leaves every other count alone |
| `Histogram.AddKeysIsAddBag` | main.cpp:44 | a run of increments adds exactly the multiset of the keys incremented |
| `Histogram.AddKeysCounts` | main.cpp:44 | after a run of increments the key set is the old one plus the keys, and each count rises by that key's number of occurrences |
| `Histogram.AddKeysOrderFree` | main.cpp:44 | runs of increments with the same multiset of keys give the same histogram, whatever their order |
| `Histogram.AddKeysAppend` | main.cpp:44 | incrementing the keys of `a`, then those of `b`, is incrementing those of `a + b` |
| `Histogram.TotalAddKeys` | main.cpp:44 | each increment raises the sum of all counts by exactly one |
| `Histogram.MergeInto` | main.cpp:138-140 | the merge loop gives key set `dst ∪ src` and count `dst[k] + src[k]` for every key, absent keys counting 0 |
| `Histogram.MergeCommutes` | main.cpp:138-147 | merging `h1` then `h2` into an empty map equals merging `h2` then `h1` |
| `Histogram.MergeAssociates` | main.cpp:138-140 | successive merges can be grouped either way |
| `Histogram.MergeEmpty` | main.cpp:138-140 | merging an empty histogram, or into one, changes nothing |
| `Histogram.TotalMerge` | main.cpp:138-140 | the sum of the counts of a merge is the sum of both sums |
| `LetterNgrams.UpdateHistogramLetter` | main.cpp:21-48 | the extractor leaves the histogram unchanged when the text has at most `n` characters, exactly `n` included; otherwise it increments the keys of `LetterKeys` |
| `LetterNgrams.Window` | main.cpp:28-33 | the `letter_string += text[j]` loop builds the window `text[i..i+n]` |
| `LetterNgrams.LetterCounts` | main.cpp:23-45 | each key's count rises by the number of offsets whose window is all letters and lower-cases to that key; other counts are unchanged |
| `LetterNgrams.KeysUpToCount` | main.cpp:26-45 | the windows below offset `i` yield a key exactly as often as there are matching offsets below `i` |
| `LetterNgrams.KeysUpToShape` | main.cpp:31-44 | every key of the windows has length `n` and is all lower-case letters |
| `LetterNgrams.LetterKeysShape` | main.cpp:31-44 | every key the extractor adds to the histogram has length `n` and is all lower-case letters |
| `LetterNgrams.KeysUpToLength` | main.cpp:26-45 | the windows contribute one key per all-letter window and none for a window with a non-letter |
| `LetterNgrams.LetterTotal` | main.cpp:23-45 | the extractor raises the sum of the counts by the number of all-letter windows, and by nothing when the text has at most `n` characters |
| `WordNgrams.UpdateHistogramWord` | main.cpp:50-86 | the extractor leaves the histogram unchanged when the token count is at most `n`; otherwise it increments the keys of `WordKeys` |
| `WordNgrams.WindowPhrase` | main.cpp:64-80 | the `word_string` loops, lower-casing and filter build the key of the window at word `i` |
| `WordNgrams.WindowKeysUpToLength` | main.cpp:62 | the windows below word `i` yield exactly `i` keys, one per window |
| `WordNgrams.WordTotal` | main.cpp:59-84 | with `m` tokens the sum of the counts rises by `m - n + 1` when `m > n`, and by 0 otherwise |
| `WordNgrams.WordCounts` | main.cpp:59-84 | the key set grows by the keys produced, each count rises by its number of windows, and keys not produced keep their counts |
| `WordNgrams.SpacedBlanks` | main.cpp:67-69 | joining whitespace-free tokens each followed by a blank gives exactly one blank per token |
| `WordNgrams.CleanLowerChars` | main.cpp:72-80 | after lower-casing and filtering, only lower-case letters and blanks remain |
| `WordNgrams.WindowKeyShape` | main.cpp:64-80 | a window key has only lower-case letters and blanks, and exactly `n - 1` blanks |
| `WordNgrams.WindowKeysUpToShape` | main.cpp:62-84 | every window key below word `i` has that form |
| `WordNgrams.WordKeysForm` | main.cpp:53-84 | every key one call produces has that form |
| `WordNgrams.WordKeysShape` | main.cpp:59-84 | every key the extractor adds to the histogram has that form |
| `Documents.AccumulateKeys` | main.cpp:277-300 | folding documents into the pair increments, in each histogram, the keys of all readable documents in order |
| `Documents.AccumulateSnoc` | main.cpp:284-299 | one more document is one more step of the fold |
| `Documents.AccumulateAppend` | main.cpp:277-300 | folding `a` and then `b` equals folding `a + b` |
| `Documents.AccumulateLoaded` | main.cpp:109-133 | counting the contents loaded into `texts` equals counting the documents they came from |
| `Documents.AllKeysRearranged` | main.cpp:277-300 | rearranged documents produce the same multiset of keys |
| `Documents.OnlyTheMultisetMatters` | main.cpp:277-300 | the pair after the fold depends only on the multiset of documents |
| `Documents.UnreadableSkipped` | main.cpp:285-299 | a file that cannot be opened contributes nothing: the result equals that of the corpus without it |
| `Documents.UnreadableIsEmptyText` | main.cpp:285-299 | a file that cannot be opened counts as an empty text |
| `Documents.NoPasses` | main.cpp:277 | with `max_iter = 0` both histograms are left as they were |
| `Documents.TotalsCountWindows` | main.cpp:291-292 | starting empty, each histogram's total is the number of keys its extractor produced |
| `Workshare.AssignedAppend` | main.cpp:168-170 | a thread's share of two successive passes is its share of the first followed by its share of the second |
| `Workshare.Partition` | main.cpp:129-133 | when every unit goes to one of the threads, the threads' private bags add up to the bags of all units |
| `Workshare.OrderedBagRearranged` | main.cpp:136-147 | the merged bags do not depend on the order in which the threads enter a critical section |
| `Workshare.MergeCritical` | main.cpp:136-141 | the threads entering a critical section one after the other merge their private parts into the shared histogram in that order |
| `Workshare.MergedBags` | main.cpp:136-147 | merging the private parts adds exactly the bags of keys of the threads' units |
| `Workshare.MergedAll` | main.cpp:136-147 | for any entry order of any partition, merging all private parts increments the keys of all units |
| `Workshare.WorkersCombine` | main.cpp:136-148 | the two critical sections, in independent orders, together give the sequential fold over all units |
| `Workshare.MergePhase` | main.cpp:136-148 | the end of a parallel region turns the private parts into the sequential result |
| `Builders.CreateHistogramSequential` | main.cpp:274-303 | the sequential builder folds every document of every pass into the pair, and leaves it unchanged when `max_iter = 0` |
| `Builders.ProcessDocument` | main.cpp:284-299 | one document: both extractors on a readable one, nothing on an unreadable one |
| `Builders.CountText` | main.cpp:130-133 | running the word extractor before the letter one gives the same pair as one fold step |
| `Builders.CreateHistogramV1` | main.cpp:88-151 | V1 gives the sequential result for any schedule of the loaded texts and any entry order |
| `Builders.LoadAll` | main.cpp:99-126 | the loading loops push the contents of the readable documents of every pass, in order |
| `Builders.PrivatePhaseV1` | main.cpp:92-133 | each V1 thread ends with the fold of the texts it owns |
| `Builders.WorkerV1` | main.cpp:128-133 | a V1 thread's loop counts exactly the loaded texts the schedule gives it |
| `Builders.CreateHistogramV2` | main.cpp:153-210 | V2 gives the sequential result for any schedule of the documents and any entry order |
| `Builders.PrivatePhaseV2` | main.cpp:161-192 | each V2 thread ends with the fold of the documents it owns |
| `Builders.WorkerV2` | main.cpp:167-192 | a V2 thread's passes count exactly the documents the schedule gives it, over all passes |
| `Builders.PassV2` | main.cpp:169-191 | one pass of a V2 thread counts the documents of that pass it gets |
| `Builders.CreateHistogramV3` | main.cpp:212-272 | V3 gives the sequential result for any schedule of the documents and any entry order |
| `Builders.PrivatePhaseV3` | main.cpp:220-254 | each V3 thread, loading first and counting afterwards, ends with the fold of the documents it owns |
| `Builders.LoadOwn` | main.cpp:227-249 | a V3 thread's loading loops push the readable documents the schedule gives it, in order |
| `Builders.LoadPassV3` | main.cpp:229-248 | one loading pass of a V3 thread pushes the readable documents of that pass it gets |
| `Builders.CountTexts` | main.cpp:250-254 | a V3 thread's counting loop folds all the texts it loaded |
| `Examples.LetterBound` | main.cpp:23 | a text of exactly `n` letters yields no n-gram |
| `Examples.LetterWindows` | main.cpp:26-45 | `"aBcd"` with `n = 3` yields `"abc"` and `"bcd"`, lower-cased, in offset order |
| `Examples.LetterSkip` | main.cpp:36-45 | a window holding a blank is skipped |
| `Examples.WordsOfText` | main.cpp:53-56 | leading whitespace, tabs and a trailing newline all separate words, and none is empty |
| `Examples.TokensOfStrays` | main.cpp:53-56 | a punctuation-only run is a token of its own |
| `Examples.WordStrays` | main.cpp:64-83 | a punctuation-only token leaves keys with a stray blank (`"a "`, `" b"`) |

## Left out

- OpenMP execution. The threads of a parallel region are modelled one after the other. The schedule chosen by `schedule(dynamic,1)` is the parameter `owner`. The order of entry into each named critical section is a parameter. Timing and memory ordering are not modelled.
- The `omp single` loading in `CreateHistogramV1` is modelled as one loading loop. The threads that skip the single block do no other observable work.
- Filesystem enumeration, `ifstream` and `rdbuf`. The corpus is a given sequence of documents, with `None` for a file that cannot be opened.
- File naming. `CreateHistogramV2` and `CreateHistogramV3` open `"./Texts/<i>.txt"`, while the other builders follow directory order. The model gives every builder the same corpus. The two agree only when the folder holds exactly those files.
- The `printf` and `cerr` messages on a failed open. They are output only.
- The environment variables `TEXT_ITER` and `TEST_ITER`. `maxIter` and `n` are parameters.
- The benchmark driver in `main` is left out. This covers timings, means, speedups and console and log output.
- Locales. Characters are ASCII in the "C" locale, with no multibyte text.
- `int` counter overflow. Counts are unbounded `nat`s.
- `unordered_map` iteration order. A map is a Dafny `map`, and the merge loop picks its keys in any order.
- The signed/unsigned comparisons of the source are not modelled. With `n >= 0` they behave as plain integer comparisons.
- WordNgrams.UpdateHistogramWord: requires `n >= 1`. With `n = 0` the source reads `words[i - 1]` at `i = 0`, which is undefined behaviour. The letter extractor is modelled for every `n >= 0`. The builders require `n >= 1` because they run both extractors.

## Extractor order

`CreateHistogramV1` and `CreateHistogramV3` run the word extractor before the letter one. The other two builders run the letter extractor first. The two histograms are independent, so the order does not matter: `Builders.CountText` proves this against the letter-first fold step.
