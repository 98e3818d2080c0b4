/** Contributions that wait to be verified and applied. */
module PendingContributions {
  import opened BinomialPartitioner
  import opened ReplaceStore
  import Sets
  import opened Wrappers
  import opened WeightedVote

  datatype Kind = Aggregate | Individual

  datatype PendingKey = PendingKey(level: nat, origin: nat, kind: Kind)

  datatype PendingContribution = PendingContribution(signers: set<nat>, level: nat, origin: nat, trusted: bool)

  type PendingList = map<PendingKey, PendingContribution>

  /** The item belongs to the level it is listed for. Items of the level past the last are full aggregates. */
  ghost predicate Fits(p: Partitioner, item: PendingContribution) {
    item.level <= p.numLevels && (item.level < p.numLevels ==> item.signers <= p.Level(item.level))
  }

  ghost predicate AllFit(p: Partitioner, list: PendingList) {
    forall key | key in list :: Fits(p, list[key])
  }

  /** At most one entry is kept per level, origin and kind. */
  function AddContribution(list: PendingList, signers: set<nat>, level: nat, origin: nat, kind: Kind, trusted: bool)
    : PendingList
  {
    list[PendingKey(level, origin, kind) := PendingContribution(signers, level, origin, trusted)]
  }

  function Score(p: Partitioner, k: Knowledge, item: PendingContribution, weight: set<nat> -> nat): int
    requires p.numIds > 0 && item.level <= p.numLevels == |k.individuals|
  {
    Evaluate(p, k, item.signers, item.level, weight(item.signers))
  }

  /** The evaluator as the list uses it; levels past the store's do not occur. */
  function Evaluator(p: Partitioner, k: Knowledge, weight: set<nat> -> nat): PendingContribution -> int {
    (item: PendingContribution) =>
      if p.numIds > 0 && item.level <= p.numLevels == |k.individuals| then Score(p, k, item, weight) else 0
  }

  ghost predicate Scored(p: Partitioner, k: Knowledge) {
    p.Valid() && p.numIds <= MAX_IDS && k.Consistent(p.numLevels) && k.InsideLevels(p)
  }

  lemma ScoreIsNatural(p: Partitioner, k: Knowledge, item: PendingContribution, weight: set<nat> -> nat)
    requires Scored(p, k) && Fits(p, item)
    ensures Score(p, k, item, weight) >= 0
  {
    if item.level < p.numLevels && item.signers != {} && !k.Stored(item.signers, item.level) {
      EvaluatorIsExact(p, k, item.signers, item.level, weight(item.signers));
    }
  }

  /** The list without the items that are gone and without the items that score zero. */
  function Kept(list: PendingList, gone: set<PendingKey>, evaluate: PendingContribution -> int): PendingList {
    map key | key in list && key !in gone && evaluate(list[key]) > 0 :: list[key]
  }

  /** Apart from `rejected`, `next` is the item of the list with the highest score, and `rest` is what
      remains; without `next` no other item has a score. */
  ghost predicate Picks(evaluate: PendingContribution -> int, list: PendingList, rejected: set<PendingKey>,
                        next: Option<PendingContribution>, key: PendingKey, rest: PendingList)
  {
    if next.None? then rest == map[] && forall k | k in list && k !in rejected :: evaluate(list[k]) <= 0
    else
      && key in list && key !in rejected && list[key] == next.value && evaluate(next.value) > 0
      && (forall k | k in list && k !in rejected :: evaluate(list[k]) <= evaluate(next.value))
      && rest == Kept(list, rejected + {key}, evaluate)
  }

  lemma PicksNext(
    evaluate: PendingContribution -> int, list: PendingList, rejected: set<PendingKey>, item: PendingContribution,
    key: PendingKey, rest: PendingList, next: Option<PendingContribution>, key': PendingKey, rest': PendingList)
    requires Picks(evaluate, list, rejected, Some(item), key, rest) && Picks(evaluate, rest, {}, next, key', rest')
    ensures Picks(evaluate, list, rejected + {key}, next, key', rest')
  {
    assert forall k | k in list && k !in rejected + {key} :: evaluate(list[k]) <= 0 || k in rest;
    if next.Some? {
      assert Kept(rest, {} + {key'}, evaluate) == Kept(list, rejected + {key} + {key'}, evaluate);
    }
  }

  /** Takes the item with the highest score off the list and drops the items without a score. */
  method PollNext(list: PendingList, evaluate: PendingContribution -> int)
    returns (best: Option<PendingContribution>, retain: PendingList, ghost key: PendingKey)
    requires forall key | key in list :: evaluate(list[key]) >= 0
    ensures Picks(evaluate, list, {}, best, key, retain)
    ensures best.Some? ==> |retain| < |list|
  {
    key := PendingKey(0, 0, Aggregate);
    var bestScore := 0;
    var bestKey: Option<PendingKey> := None;
    retain := map[];
    var rest := list.Keys;
    while rest != {}
      invariant rest <= list.Keys
      invariant retain.Keys <= list.Keys - rest && forall key | key in retain :: retain[key] == list[key]
      invariant bestKey.Some? ==> bestKey.value in list.Keys - rest && bestKey.value !in retain
      invariant bestScore == if bestKey.None? then 0 else evaluate(list[bestKey.value])
      invariant if bestKey.Some? then bestScore > 0 else retain == map[]
      invariant forall key | key in list.Keys - rest ::
                  && evaluate(list[key]) <= bestScore
                  && (evaluate(list[key]) > 0 <==> key in retain || Some(key) == bestKey)
      decreases |rest|
    {
      var item :| item in rest;
      rest := rest - {item};
      var score := evaluate(list[item]);
      if score == 0 {
        continue;
      }
      if score > bestScore {
        if bestKey.Some? {
          retain := retain[bestKey.value := list[bestKey.value]];
        }
        bestScore, bestKey := score, Some(item);
      } else {
        retain := retain[item := list[item]];
      }
    }
    if bestKey.None? {
      return None, retain, key;
    }
    key := bestKey.value;
    assert retain == Kept(list, {} + {key}, evaluate);
    RestIsSmaller(list, retain, key);
    return Some(list[bestKey.value]), retain, key;
  }

  lemma RestIsSmaller(list: PendingList, retain: PendingList, taken: PendingKey)
    requires retain.Keys <= list.Keys - {taken} && taken in list
    ensures |retain| < |list|
  {
    Sets.SubsetSize(retain.Keys, list.Keys - {taken});
  }
}
