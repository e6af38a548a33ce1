/**
 How the parallel builders share the work. Each worker (an OpenMP thread)
 processes the documents a schedule gives it into private histograms, then
 merges them into the shared pair inside two critical sections, one for the
 letter histogram and one for the word histogram. The schedule is a
 parameter: `owner[u]` is the worker that processes unit `u`, and each
 critical section is entered by every worker exactly once, in an order of
 its own.
 */
module Workshare {
  import opened Histogram
  import opened Documents
  import opened Seqs

  /** The units the schedule `owner` gives to worker `w`, in order. */
  function Assigned<T>(units: seq<T>, owner: seq<nat>, w: nat): seq<T>
    requires |owner| == |units|
  {
    if units == [] then []
    else
      Assigned(units[..|units| - 1], owner[..|owner| - 1], w)
        + (if owner[|owner| - 1] == w then [units[|units| - 1]] else [])
  }

  lemma AssignedSnoc<T>(units: seq<T>, owner: seq<nat>, x: T, o: nat, w: nat)
    requires |owner| == |units|
    ensures Assigned(units + [x], owner + [o], w) == Assigned(units, owner, w) + (if o == w then [x] else [])
  {
    FrontOfSnoc(units, x);
    FrontOfSnoc(owner, o);
  }

  /** Sharing out `a + b` under `oa + ob` gives a worker its share of `a`, then its share of `b`. */
  lemma {:induction false} AssignedAppend<T>(a: seq<T>, oa: seq<nat>, b: seq<T>, ob: seq<nat>, w: nat)
    requires |oa| == |a| && |ob| == |b|
    ensures Assigned(a + b, oa + ob, w) == Assigned(a, oa, w) + Assigned(b, ob, w)
    decreases |b|
  {
    if b == [] {
      AppendNil(a);
      AppendNil(oa);
      AppendNil(Assigned(a, oa, w));
    } else {
      var b', x, ob', o := b[..|b| - 1], b[|b| - 1], ob[..|ob| - 1], ob[|ob| - 1];
      AppendSplitLast(a, b);
      AppendSplitLast(oa, ob);
      AssignedAppend(a, oa, b', ob', w);
      AssignedSnoc(a + b', oa + ob', x, o, w);
      AssignedSnoc(b', ob', x, o, w);
      AppendAssoc(Assigned(a, oa, w), Assigned(b', ob', w), if o == w then [x] else []);
    }
  }

  /** The workers `0 .. count-1`. */
  function Range(count: nat): (r: seq<nat>)
    ensures |r| == count
  {
    if count == 0 then [] else Range(count - 1) + [count - 1]
  }

  /** `order` lists every one of the `workers` workers exactly once: the order they enter a critical section. */
  predicate Schedule(order: seq<nat>, workers: nat)
  {
    (forall p :: 0 <= p < |order| ==> order[p] < workers) && multiset(order) == multiset(Range(workers))
  }

  /** The keys each unit contributes, unit by unit. */
  function UnitBags(kind: Kind, units: seq<Doc>, n: nat): (bags: seq<multiset<string>>)
    requires 1 <= n
    ensures |bags| == |units|
  {
    if units == [] then [] else UnitBags(kind, units[..|units| - 1], n) + [multiset(DocKeys(kind, units[|units| - 1], n))]
  }

  /** The bags of all units together. */
  function Sum(bags: seq<multiset<string>>): multiset<string>
  {
    if bags == [] then multiset{} else Sum(bags[..|bags| - 1]) + bags[|bags| - 1]
  }

  /** The bags of the units worker `w` owns: what it counts in its private histogram. */
  function Owned(bags: seq<multiset<string>>, owner: seq<nat>, w: nat): multiset<string>
    requires |owner| == |bags|
  {
    if bags == [] then multiset{}
    else Owned(bags[..|bags| - 1], owner[..|owner| - 1], w) + (if owner[|owner| - 1] == w then bags[|bags| - 1] else multiset{})
  }

  /** The private bags of workers `0 .. count-1` together. */
  function OwnedBy(bags: seq<multiset<string>>, owner: seq<nat>, count: nat): multiset<string>
    requires |owner| == |bags|
  {
    if count == 0 then multiset{} else OwnedBy(bags, owner, count - 1) + Owned(bags, owner, count - 1)
  }

  /** The private bags of the workers listed in `order`, together. */
  function OrderedBag(bags: seq<multiset<string>>, owner: seq<nat>, order: seq<nat>): multiset<string>
    requires |owner| == |bags|
  {
    if order == [] then multiset{}
    else OrderedBag(bags, owner, order[..|order| - 1]) + Owned(bags, owner, order[|order| - 1])
  }

  lemma {:induction false} OrderedBagAppend(bags: seq<multiset<string>>, owner: seq<nat>, a: seq<nat>, b: seq<nat>)
    requires |owner| == |bags|
    ensures OrderedBag(bags, owner, a + b) == OrderedBag(bags, owner, a) + OrderedBag(bags, owner, b)
  {
    if b == [] {
      AppendNil(a);
    } else {
      var b', w := b[..|b| - 1], b[|b| - 1];
      AppendSplitLast(a, b);
      FrontOfSnoc(a + b', w);
      FrontOfSnoc(b', w);
      OrderedBagAppend(bags, owner, a, b');
    }
  }

  /** The bags of the workers do not depend on the order they are listed in. */
  lemma {:induction false} OrderedBagRearranged(bags: seq<multiset<string>>, owner: seq<nat>, o1: seq<nat>, o2: seq<nat>)
    requires |owner| == |bags|
    requires multiset(o1) == multiset(o2)
    ensures OrderedBag(bags, owner, o1) == OrderedBag(bags, owner, o2)
    decreases |o1|
  {
    if o1 != [] {
      var rest, w := o1[..|o1| - 1], o1[|o1| - 1];
      var j := MatchLast(o1, o2);
      var before, after := o2[..j], o2[j + 1..];
      OrderedBagRearranged(bags, owner, rest, before + after);
      OrderedBagAppend(bags, owner, before, after);
      OrderedBagAppend(bags, owner, before + [w], after);
      FrontOfSnoc(before, w);
    }
  }

  lemma {:induction false} OrderedBagRange(bags: seq<multiset<string>>, owner: seq<nat>, count: nat)
    requires |owner| == |bags|
    ensures OrderedBag(bags, owner, Range(count)) == OwnedBy(bags, owner, count)
  {
    if count > 0 {
      OrderedBagRange(bags, owner, count - 1);
      FrontOfSnoc(Range(count - 1), count - 1);
    }
  }

  /** One more unit, owned by `o`: it adds its bag to the workers' bags when `o` is one of them. */
  lemma {:induction false} OwnedBySnoc(bags: seq<multiset<string>>, owner: seq<nat>, x: multiset<string>, o: nat, count: nat)
    requires |owner| == |bags|
    ensures OwnedBy(bags + [x], owner + [o], count) == OwnedBy(bags, owner, count) + (if o < count then x else multiset{})
  {
    if count > 0 {
      OwnedBySnoc(bags, owner, x, o, count - 1);
      OwnedSnoc(bags, owner, x, o, count - 1);
      var earlier, last := (if o < count - 1 then x else multiset{}), (if o == count - 1 then x else multiset{});
      assert (if o < count then x else multiset{}) == earlier + last;
      Regroup(OwnedBy(bags, owner, count - 1), earlier, Owned(bags, owner, count - 1), last);
    } else {
      BagPlusNil(OwnedBy(bags, owner, count));
    }
  }

  /** One more unit, owned by `o`: it adds its bag to those of `w` when `o` is `w`. */
  lemma OwnedSnoc(bags: seq<multiset<string>>, owner: seq<nat>, x: multiset<string>, o: nat, w: nat)
    requires |owner| == |bags|
    ensures Owned(bags + [x], owner + [o], w) == Owned(bags, owner, w) + (if o == w then x else multiset{})
  {
    FrontOfSnoc(bags, x);
    FrontOfSnoc(owner, o);
  }

  lemma {:induction false} OwnedByNil(count: nat)
    ensures OwnedBy([], [], count) == multiset{}
  {
    if count > 0 {
      OwnedByNil(count - 1);
    }
  }

  /**
   The schedule partitions the units: when every unit goes to one of the
   workers, their private bags together are the bags of all the units.
   */
  lemma {:induction false} Partition(bags: seq<multiset<string>>, owner: seq<nat>, workers: nat)
    requires |owner| == |bags|
    requires forall u :: 0 <= u < |owner| ==> owner[u] < workers
    ensures OwnedBy(bags, owner, workers) == Sum(bags)
  {
    if bags == [] {
      OwnedByNil(workers);
    } else {
      var bags', x := bags[..|bags| - 1], bags[|bags| - 1];
      var owner', o := owner[..|owner| - 1], owner[|owner| - 1];
      SplitLast(bags);
      SplitLast(owner);
      Partition(bags', owner', workers);
      OwnedBySnoc(bags', owner', x, o, workers);
    }
  }

  /** The bags of the units, added up, are the keys of all the units. */
  lemma {:induction false} SumKeys(kind: Kind, units: seq<Doc>, n: nat)
    requires 1 <= n
    ensures Sum(UnitBags(kind, units, n)) == multiset(AllKeys(kind, units, n))
  {
    if units != [] {
      var units' := units[..|units| - 1];
      SumKeys(kind, units', n);
      FrontOfSnoc(UnitBags(kind, units', n), multiset(DocKeys(kind, units[|units| - 1], n)));
    }
  }

  /** What worker `w` owns, added up, is the keys of the units assigned to it. */
  lemma {:induction false} OwnedKeys(kind: Kind, units: seq<Doc>, owner: seq<nat>, w: nat, n: nat)
    requires 1 <= n && |owner| == |units|
    ensures Owned(UnitBags(kind, units, n), owner, w) == multiset(AllKeys(kind, Assigned(units, owner, w), n))
  {
    if units != [] {
      var units', x := units[..|units| - 1], units[|units| - 1];
      var owner', o := owner[..|owner| - 1], owner[|owner| - 1];
      OwnedKeys(kind, units', owner', w, n);
      FrontOfSnoc(UnitBags(kind, units', n), multiset(DocKeys(kind, x, n)));
      if o == w {
        AllKeysSnoc(kind, Assigned(units', owner', w), x, n);
      } else {
        AppendNil(Assigned(units', owner', w));
      }
    }
  }

  /**
   The private pairs of workers `0 .. count-1` at the end of their private
   work: each has counted exactly the units the schedule gave it.
   */
  function PrivateParts(units: seq<Doc>, owner: seq<nat>, count: nat, n: nat): (parts: seq<HistPair>)
    requires 1 <= n && |owner| == |units|
    ensures |parts| == count
    ensures forall w :: 0 <= w < count ==> parts[w] == Accumulate(Empty, Assigned(units, owner, w), n)
  {
    if count == 0 then [] else PrivateParts(units, owner, count - 1, n) + [Accumulate(Empty, Assigned(units, owner, count - 1), n)]
  }

  /** The shared histogram of kind `kind` after the workers in `order` merged their parts into it, one after the other. */
  function MergedInOrder(shared: Hist, parts: seq<HistPair>, kind: Kind, order: seq<nat>): Hist
    requires forall p :: 0 <= p < |order| ==> order[p] < |parts|
  {
    if order == [] then shared
    else Merge(MergedInOrder(shared, parts, kind, order[..|order| - 1]), Part(parts[order[|order| - 1]], kind))
  }

  /**
   One named critical section (`letter` or `word`), entered by the workers in
   `order`: each adds every entry of its private histogram to the shared one.
   */
  method MergeCritical(shared: Hist, parts: seq<HistPair>, kind: Kind, order: seq<nat>) returns (r: Hist)
    requires forall p :: 0 <= p < |order| ==> order[p] < |parts|
    ensures r == MergedInOrder(shared, parts, kind, order)
  {
    r := shared;
    var p := 0;
    while p < |order|
      invariant p <= |order|
      invariant r == MergedInOrder(shared, parts, kind, order[..p])
    {
      TakeNext([], order, p);
      FrontOfSnoc(order[..p], order[p]);
      r := MergeInto(r, Part(parts[order[p]], kind));
      p := p + 1;
    }
    TakeAll(order);
  }

  /**
   The end of every parallel region: each worker enters the `letter`
   critical section (in `letterOrder`) and then the `word` one (in
   `wordOrder`) and merges its private histograms into the shared pair.
   */
  method MergePhase(hists: HistPair, parts: seq<HistPair>, ghost units: seq<Doc>, owner: seq<nat>, workers: nat,
                    letterOrder: seq<nat>, wordOrder: seq<nat>, n: nat) returns (res: HistPair)
    requires 1 <= n && |owner| == |units|
    requires forall u :: 0 <= u < |owner| ==> owner[u] < workers
    requires Schedule(letterOrder, workers) && Schedule(wordOrder, workers)
    requires parts == PrivateParts(units, owner, workers, n)
    ensures res == Accumulate(hists, units, n)
  {
    var letter := MergeCritical(hists.letter, parts, Letters, letterOrder);
    var word := MergeCritical(hists.word, parts, Words, wordOrder);
    res := HistPair(letter, word);
    WorkersCombine(hists, parts, units, owner, workers, letterOrder, wordOrder, n);
  }

  /** Merging the parts of the workers in `order` adds their private keys to the shared histogram. */
  lemma {:induction false} MergedBags(shared: Hist, parts: seq<HistPair>, kind: Kind, units: seq<Doc>, owner: seq<nat>, order: seq<nat>, n: nat)
    requires 1 <= n && |owner| == |units|
    requires forall p :: 0 <= p < |order| ==> order[p] < |parts|
    requires forall w :: 0 <= w < |parts| ==> parts[w] == Accumulate(Empty, Assigned(units, owner, w), n)
    ensures MergedInOrder(shared, parts, kind, order) == AddBag(shared, OrderedBag(UnitBags(kind, units, n), owner, order))
  {
    var bags := UnitBags(kind, units, n);
    if order == [] {
      assert AddBag(shared, multiset{}) == shared;
    } else {
      var order', w := order[..|order| - 1], order[|order| - 1];
      MergedBags(shared, parts, kind, units, owner, order', n);
      var before, mine := OrderedBag(bags, owner, order'), Owned(bags, owner, w);
      assert Part(parts[w], kind) == Tally(mine) by {
        OwnedKeys(kind, units, owner, w, n);
        AccumulateKeys(Empty, Assigned(units, owner, w), n);
        AddKeysIsAddBag(map[], AllKeys(kind, Assigned(units, owner, w), n));
      }
      MergeTally(AddBag(shared, before), mine);
      AddBagTwice(shared, before, mine);
    }
  }

  /**
   The merge phase of every parallel builder: whatever the schedule and
   whatever order the workers enter each critical section in, the shared
   pair ends up as if every unit had been processed into it in turn.
   */
  lemma WorkersCombine(hists: HistPair, parts: seq<HistPair>, units: seq<Doc>, owner: seq<nat>, workers: nat,
                       letterOrder: seq<nat>, wordOrder: seq<nat>, n: nat)
    requires 1 <= n && |owner| == |units| && |parts| == workers
    requires forall u :: 0 <= u < |owner| ==> owner[u] < workers
    requires Schedule(letterOrder, workers) && Schedule(wordOrder, workers)
    requires forall w :: 0 <= w < workers ==> parts[w] == Accumulate(Empty, Assigned(units, owner, w), n)
    ensures HistPair(MergedInOrder(hists.letter, parts, Letters, letterOrder), MergedInOrder(hists.word, parts, Words, wordOrder))
      == Accumulate(hists, units, n)
  {
    AccumulateKeys(hists, units, n);
    MergedAll(hists.letter, parts, Letters, units, owner, workers, letterOrder, n);
    MergedAll(hists.word, parts, Words, units, owner, workers, wordOrder, n);
  }

  /** The merge phase for one of the two histograms. */
  lemma MergedAll(shared: Hist, parts: seq<HistPair>, kind: Kind, units: seq<Doc>, owner: seq<nat>, workers: nat,
                  order: seq<nat>, n: nat)
    requires 1 <= n && |owner| == |units| && |parts| == workers
    requires forall u :: 0 <= u < |owner| ==> owner[u] < workers
    requires Schedule(order, workers)
    requires forall w :: 0 <= w < workers ==> parts[w] == Accumulate(Empty, Assigned(units, owner, w), n)
    ensures MergedInOrder(shared, parts, kind, order) == AddKeys(shared, AllKeys(kind, units, n))
  {
    var bags := UnitBags(kind, units, n);
    MergedBags(shared, parts, kind, units, owner, order, n);
    OrderedBagRearranged(bags, owner, order, Range(workers));
    OrderedBagRange(bags, owner, workers);
    Partition(bags, owner, workers);
    SumKeys(kind, units, n);
    AddKeysIsAddBag(shared, AllKeys(kind, units, n));
  }
}
