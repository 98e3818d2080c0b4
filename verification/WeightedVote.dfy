/** Scoring of unverified contributions and checking of received updates. */
module WeightedVote {
  import opened Bits
  import opened BinomialPartitioner
  import opened Sets
  import opened Wrappers
  import opened ReplaceStore

  const COMPLETES_LEVEL_BASE_SCORE: int := 1_000_000
  const COMPLETES_LEVEL_LEVEL_PENALTY: int := 10
  const IMPROVEMENT_BASE_SCORE: int := 100_000
  const IMPROVEMENT_LEVEL_PENALTY: int := 100
  const IMPROVEMENT_ADDED_SIG_BONUS: int := 10
  const USIZE_MAX: int := 0xFFFF_FFFF_FFFF_FFFF
  // Origins are sent as u16.
  const MAX_IDS: nat := 0x1_0000

  /** What the evaluator expects the store to make of a contribution. */
  datatype Prediction = Prediction(newTotal: nat, addedSigs: int, combinedSigs: int)

  function Predict(k: Knowledge, c: set<nat>, level: nat): Prediction
    requires level < |k.individuals|
  {
    var withIndividuals := c + k.individuals[level];
    if level in k.best then
      var best := k.best[level];
      if c * best != {} then
        Prediction(|withIndividuals|, |withIndividuals| - |best|, |withIndividuals| - |c|)
      else
        var final, without := withIndividuals + best, best + c;
        Prediction(|final|, |final| - |best|, |(final - without) + (without - final)|)
    else
      Prediction(|withIndividuals|, |withIndividuals|, |withIndividuals| - |c|)
  }

  /** The score of a contribution on a level the store has; 0 means it is useless. */
  function Evaluate(p: Partitioner, k: Knowledge, c: set<nat>, level: nat, weight: nat): int
    requires p.numIds > 0 && level <= p.numLevels == |k.individuals|
  {
    if level == p.numLevels then USIZE_MAX
    else if c == {} then 0
    else if k.Stored(c, level) then 0
    else if level in k.best && (p.LevelSize(level) == |k.best[level]| || k.best[level] >= c) then 0
    else
      var prediction := Predict(k, c, level);
      if prediction.addedSigs <= 0 then
        if |c| == 1 then weight else 0
      else if prediction.newTotal == p.LevelSize(level) then
        COMPLETES_LEVEL_BASE_SCORE - level * COMPLETES_LEVEL_LEVEL_PENALTY - prediction.combinedSigs
      else
        IMPROVEMENT_BASE_SCORE - level * IMPROVEMENT_LEVEL_PENALTY
        + prediction.addedSigs * IMPROVEMENT_ADDED_SIG_BONUS - prediction.combinedSigs
  }

  /** A level the store can hold, and a contribution that belongs there. */
  ghost predicate Scorable(p: Partitioner, k: Knowledge, c: set<nat>, level: nat) {
    && p.Valid() && p.numIds <= MAX_IDS
    && level < p.numLevels && k.Consistent(p.numLevels) && k.InsideLevels(p)
    && c != {} && c <= p.Level(level)
  }

  // ---------- The prediction is what the store does ----------

  lemma MergeSize(best: set<nat>, individuals: set<nat>, c: set<nat>)
    requires individuals <= best
    ensures c !! best && c != {} ==> |c + best| > |best|
    ensures !(c !! best) && best <= c ==> c + individuals == c
    ensures !(c !! best) ==> (|Merge(best, individuals, c)| > |best| <==> |c + individuals| > |best|)
    ensures !(c !! best) && |c + individuals| > |best| ==> Merge(best, individuals, c) == c + individuals
  {
    SubsetSize(best, c + best);
    if c !! best && c != {} {
      var x :| x in c;
      assert x in c + best && x !in best;
    }
    if best <= c { assert c + individuals == c; }
  }

  /** The best after a put, in terms of the best and the individuals before it. */
  lemma PutMerges(k: Knowledge, c: set<nat>, level: nat)
    requires level < |k.individuals| && k.Consistent(|k.individuals|) && !(c <= k.BestOr(level))
    ensures level in k.best ==> k.Put(c, level).BestOr(level) == Merge(k.best[level], k.individuals[level], c)
    ensures level in k.best && |c| == 1 ==> c !! k.best[level]
    ensures level !in k.best ==> k.Put(c, level).BestOr(level) == c == c + k.individuals[level]
  {
    assert k.individuals[level] <= k.BestOr(level);
    if |c| == 1 {
      var x :| x in c && x !in k.BestOr(level);
      Singleton(c, x);
    }
  }

  lemma PredictionIsExact(k: Knowledge, c: set<nat>, level: nat)
    requires level < |k.individuals| && k.Consistent(|k.individuals|) && !(c <= k.BestOr(level))
    ensures Predict(k, c, level).addedSigs > 0 ==>
              Predict(k, c, level).newTotal == |k.Put(c, level).BestOr(level)|
    ensures Predict(k, c, level).addedSigs > 0 <==> |k.Put(c, level).BestOr(level)| > |k.BestOr(level)|
    ensures |c| == 1 ==> Predict(k, c, level).addedSigs > 0
  {
    PutMerges(k, c, level);
    if level in k.best {
      var individuals, best := k.individuals[level], k.best[level];
      MergeSize(best, individuals, c);
      if c !! best {
        assert c * best == {};
        assert c + individuals + best == c + best by { assert individuals <= k.BestOr(level); }
      }
    }
  }

  lemma SizeOnLevel(p: Partitioner, level: nat, s: set<nat>)
    requires p.numIds > 0 && s <= p.Level(level)
    ensures |s| <= p.numIds
  {
    var all := Range(0, p.numIds - 1);
    RangeSize(p.numIds - 1);
    assert p.Level(level) <= all;
    SubsetSize(s, all);
  }

  lemma PredictionFits(p: Partitioner, k: Knowledge, c: set<nat>, level: nat)
    requires Scorable(p, k, c, level)
    ensures 0 <= Predict(k, c, level).combinedSigs <= p.numIds
  {
    var individuals, best := k.individuals[level], k.BestOr(level);
    assert individuals <= best <= p.Level(level);
    SizeOnLevel(p, level, c + individuals);
    SubsetSize(c, c + individuals);
    var final, without := c + individuals + best, best + c;
    assert final == without;
    assert (final - without) + (without - final) == {};
  }

  lemma LevelBound(p: Partitioner)
    requires p.Valid() && p.numIds <= MAX_IDS
    ensures p.numLevels <= 17
  {
    assert Pow2(16) == MAX_IDS by { assert Pow2(4) == 16 && Pow2(8) == 256 && Pow2(12) == 4096; }
    if p.numLevels > 17 { Pow2Monotone(16, p.numLevels - 2); }
  }

  /** A complete level has nothing left to gain. */
  lemma CompleteLevelIsCovered(p: Partitioner, k: Knowledge, level: nat)
    requires p.Valid() && k.InsideLevels(p)
    ensures |k.BestOr(level)| <= p.LevelSize(level)
    ensures p.LevelSize(level) == |k.BestOr(level)| <==> k.BestOr(level) == p.Level(level)
  {
    LevelSizeIsCardinality(p, level);
    SubsetSize(k.BestOr(level), p.Level(level));
  }

  lemma CoveredGainsNothing(k: Knowledge, c: set<nat>, level: nat)
    requires level < |k.individuals| && k.Consistent(|k.individuals|) && c != {} && c <= k.BestOr(level)
    ensures k.Put(c, level).BestOr(level) == k.BestOr(level)
  {
    var best := k.best[level];
    var individuals := if |c| == 1 then k.individuals[level] + c else k.individuals[level];
    assert k.individuals[level] <= k.BestOr(level);
    SubsetSize(c + individuals, best);
    assert k.Put(c, level).best[level] == Merge(best, individuals, c);
  }

  /** The evaluator is exact: a contribution that is not a stored individual scores above zero if and
      only if putting it makes the level's best strictly larger, no subtraction goes below zero, and
      the weight of an individual signer is never used. */
  lemma EvaluatorIsExact(p: Partitioner, k: Knowledge, c: set<nat>, level: nat, weight: nat)
    requires Scorable(p, k, c, level) && !k.Stored(c, level)
    ensures Evaluate(p, k, c, level, weight) > 0 <==> |k.Put(c, level).BestOr(level)| > |k.BestOr(level)|
    ensures Evaluate(p, k, c, level, weight) >= 0
    ensures var prediction := Predict(k, c, level);
            && COMPLETES_LEVEL_BASE_SCORE - level * COMPLETES_LEVEL_LEVEL_PENALTY >= prediction.combinedSigs >= 0
            && IMPROVEMENT_BASE_SCORE - level * IMPROVEMENT_LEVEL_PENALTY >= prediction.combinedSigs
    ensures Evaluate(p, k, c, level, weight) == Evaluate(p, k, c, level, 0)
    ensures Evaluate(p, k, c, level, weight) > 0 ==>
              Predict(k, c, level).newTotal == |k.Put(c, level).BestOr(level)|
  {
    NoUnderflow(p, k, c, level);
    CompleteLevelIsCovered(p, k, level);
    if c <= k.BestOr(level) {
      CoveredGainsNothing(k, c, level);
    } else {
      PredictionIsExact(k, c, level);
    }
  }

  lemma NoUnderflow(p: Partitioner, k: Knowledge, c: set<nat>, level: nat)
    requires Scorable(p, k, c, level)
    ensures var prediction := Predict(k, c, level);
            && COMPLETES_LEVEL_BASE_SCORE - level * COMPLETES_LEVEL_LEVEL_PENALTY > prediction.combinedSigs >= 0
            && IMPROVEMENT_BASE_SCORE - level * IMPROVEMENT_LEVEL_PENALTY > prediction.combinedSigs
  {
    LevelBound(p);
    PredictionFits(p, k, c, level);
  }

  // ---------- What scores more ----------

  /** Putting `c` makes the best of its level larger. */
  ghost predicate Gains(p: Partitioner, k: Knowledge, c: set<nat>, level: nat) {
    && Scorable(p, k, c, level) && !k.Stored(c, level)
    && |k.Put(c, level).BestOr(level)| > |k.BestOr(level)|
  }

  /** Putting `c` completes its level. */
  ghost predicate Completes(p: Partitioner, k: Knowledge, c: set<nat>, level: nat) {
    Gains(p, k, c, level) && k.Put(c, level).BestOr(level) == p.Level(level)
  }

  /** How many signers putting `c` adds to the best of its level. */
  ghost function Gain(k: Knowledge, c: set<nat>, level: nat): int
    requires level < |k.individuals|
  {
    |k.Put(c, level).BestOr(level)| - |k.BestOr(level)|
  }

  /** The individual contributions in the new best, next to `c` and, without overlap, the old best. */
  ghost function Mended(k: Knowledge, c: set<nat>, level: nat): set<nat>
    requires level < |k.individuals|
  {
    k.Put(c, level).BestOr(level) - c - if c !! k.BestOr(level) then k.BestOr(level) else {}
  }

  lemma PredictionCounts(k: Knowledge, c: set<nat>, level: nat)
    requires level < |k.individuals| && k.Consistent(|k.individuals|)
    requires |k.Put(c, level).BestOr(level)| > |k.BestOr(level)| && !(c <= k.BestOr(level))
    ensures Predict(k, c, level).addedSigs == Gain(k, c, level)
    ensures Predict(k, c, level).combinedSigs == |Mended(k, c, level)|
  {
    PredictionIsExact(k, c, level);
    AddedIsRest(k, c, level);
    PutMerges(k, c, level);
    CombinedIsMended(k, c, level, k.Put(c, level).BestOr(level));
  }

  lemma AddedIsRest(k: Knowledge, c: set<nat>, level: nat)
    requires level < |k.individuals|
    ensures Predict(k, c, level).addedSigs == Predict(k, c, level).newTotal - |k.BestOr(level)|
  {}

  lemma CombinedIsMended(k: Knowledge, c: set<nat>, level: nat, after: set<nat>)
    requires level < |k.individuals| && k.Consistent(|k.individuals|) && |after| > |k.BestOr(level)|
    requires after == if level in k.best then Merge(k.best[level], k.individuals[level], c) else c
    ensures Predict(k, c, level).combinedSigs == |after - c - if c !! k.BestOr(level) then k.BestOr(level) else {}|
  {
    assert k.individuals[level] <= k.BestOr(level);
    assert level !in k.best ==> Merge({}, {}, c) == c;
    MendedIs(k.BestOr(level), k.individuals[level], c, after);
  }

  lemma MendedIs(best: set<nat>, individuals: set<nat>, c: set<nat>, after: set<nat>)
    requires individuals <= best && after == Merge(best, individuals, c) && |after| > |best|
    ensures var mended := after - c - if c !! best then best else {};
            && (c * best == {} ==> mended == {})
            && (c * best == {} ==> |(c + individuals + best - (best + c)) + (best + c - (c + individuals + best))| == 0)
            && (c * best != {} ==> |mended| == |c + individuals| - |c|)
            && (best == {} ==> individuals == {} && |c + individuals| - |c| == 0)
  {
    MergeSize(best, individuals, c);
    assert c * best == {} ==> c !! best by { assert forall x | x in c && x in best :: x in c * best; }
    if c !! best {
      assert c * best == {};
      assert c + individuals + best == c + best == best + c;
      assert c + best - c - best == {};
      assert best == {} ==> c + individuals == c;
    } else {
      UnionSize(c, individuals);
      assert after - c - {} == individuals - c;
    }
  }

  /** The score of a contribution that gains, by what putting it does. */
  lemma ScoreIsExact(p: Partitioner, k: Knowledge, c: set<nat>, level: nat, weight: nat)
    requires Gains(p, k, c, level)
    ensures Evaluate(p, k, c, level, weight)
         == if Completes(p, k, c, level) then 1_000_000 - 10 * level - |Mended(k, c, level)|
            else 100_000 - 100 * level + 10 * Gain(k, c, level) - |Mended(k, c, level)|
    ensures 0 < Gain(k, c, level) <= p.numIds && |Mended(k, c, level)| <= p.numIds
  {
    if c <= k.BestOr(level) { CoveredGainsNothing(k, c, level); }
    EvaluatorIsExact(p, k, c, level, weight);
    PredictionCounts(k, c, level);
    PredictionFits(p, k, c, level);
    PutKeepsInsideLevels(p, k, c, level);
    CompleteLevelIsCovered(p, k.Put(c, level), level);
    SizeOnLevel(p, level, k.Put(c, level).BestOr(level));
  }

  /** A contribution that completes its level comes before one that does not, on any levels. */
  lemma CompletingFirst(
    p: Partitioner, k: Knowledge, c: set<nat>, level: nat, d: set<nat>, level': nat, weight: nat, weight': nat)
    requires Completes(p, k, c, level) && Gains(p, k, d, level') && !Completes(p, k, d, level')
    ensures Evaluate(p, k, c, level, weight) > Evaluate(p, k, d, level', weight')
  {
    LevelBound(p);
    ScoreIsExact(p, k, c, level, weight);
    ScoreIsExact(p, k, d, level', weight');
  }

  /** Of two contributions that do not complete a level, with as many individual ones merged in, the one that
      adds more signers comes first on the same level, and the one of the earlier level if they add as many. */
  lemma MoreSignersFirst(
    p: Partitioner, k: Knowledge, c: set<nat>, level: nat, d: set<nat>, level': nat, weight: nat, weight': nat)
    requires Gains(p, k, c, level) && !Completes(p, k, c, level)
    requires Gains(p, k, d, level') && !Completes(p, k, d, level')
    requires |Mended(k, c, level)| <= |Mended(k, d, level')|
    requires || (level == level' && Gain(k, c, level) > Gain(k, d, level'))
             || (level < level' && Gain(k, c, level) >= Gain(k, d, level'))
    ensures Evaluate(p, k, c, level, weight) > Evaluate(p, k, d, level', weight')
  {
    ScoreIsExact(p, k, c, level, weight);
    ScoreIsExact(p, k, d, level', weight');
  }

  /** Of two contributions that complete a level, that of the earlier level comes first unless more individual
      ones are merged in. */
  lemma EarlierLevelFirst(
    p: Partitioner, k: Knowledge, c: set<nat>, level: nat, d: set<nat>, level': nat, weight: nat, weight': nat)
    requires Completes(p, k, c, level) && Completes(p, k, d, level')
    requires level < level' && |Mended(k, c, level)| <= |Mended(k, d, level')|
    ensures Evaluate(p, k, c, level, weight) > Evaluate(p, k, d, level', weight')
  {
    ScoreIsExact(p, k, c, level, weight);
    ScoreIsExact(p, k, d, level', weight');
  }

  /** A full aggregate comes before everything else. */
  lemma FullFirst(
    p: Partitioner, k: Knowledge, c: set<nat>, d: set<nat>, level: nat, weight: nat, weight': nat)
    requires Scorable(p, k, d, level) && !k.Stored(d, level)
    ensures Evaluate(p, k, c, p.numLevels, weight) > Evaluate(p, k, d, level, weight')
  {
    EvaluatorIsExact(p, k, d, level, weight');
    if Gains(p, k, d, level) { ScoreIsExact(p, k, d, level, weight'); }
  }

  // ---------- Received updates ----------

  datatype LevelUpdate = LevelUpdate(aggregate: set<nat>, individual: Option<set<nat>>, level: nat, origin: nat)

  /** The level is sent as `u8` and the origin as `u16`. */
  function NewUpdate(aggregate: set<nat>, individual: Option<set<nat>>, level: nat, origin: nat): LevelUpdate {
    LevelUpdate(aggregate, individual, level % 0x100, origin % 0x1_0000)
  }

  lemma NewUpdateKeepsFields(aggregate: set<nat>, individual: Option<set<nat>>, level: nat, origin: nat)
    requires level < 0x100 && origin < 0x1_0000
    ensures NewUpdate(aggregate, individual, level, origin) == LevelUpdate(aggregate, individual, level, origin)
  {}

  datatype VerificationError =
    | InvalidLevel(level: nat, numLevels: nat)
    | InvalidFullAggregate
    | InvalidOrigin(origin: nat, allowed: set<nat>)
    | InvalidIndividualContribution(numContributors: nat, containsOrigin: bool)
    | InvalidContributors(contributors: set<nat>, allowed: set<nat>)

  datatype Verdict = Accepted | Rejected(error: VerificationError)

  function Verify(p: Partitioner, msg: LevelUpdate, isComplete: set<nat> -> bool): Verdict
    requires p.numIds > 0
  {
    if msg.level > p.numLevels || msg.level < 1 then
      Rejected(VerificationError.InvalidLevel(msg.level, p.numLevels))
    else if msg.level == p.numLevels then
      if isComplete(msg.aggregate) then Accepted else Rejected(InvalidFullAggregate)
    else
      match p.IdentitiesOn(msg.level)
      case Err(_) => Rejected(VerificationError.InvalidLevel(msg.level, p.numLevels))
      case Ok(allowed) =>
        if msg.origin !in allowed then
          Rejected(InvalidOrigin(msg.origin, allowed))
        else if msg.individual.Some? && (|msg.individual.value| != 1 || msg.origin !in msg.individual.value) then
          Rejected(InvalidIndividualContribution(|msg.individual.value|, msg.origin in msg.individual.value))
        else if !(msg.aggregate <= allowed) then
          Rejected(InvalidContributors(msg.aggregate, allowed))
        else
          Accepted
  }

  /** An update of a store level is accepted if and only if it comes from that level, attaches nothing
      but the sender's own contribution, and aggregates signers of that level only. */
  lemma VerifyIsExact(p: Partitioner, msg: LevelUpdate, isComplete: set<nat> -> bool)
    requires p.Valid() && msg.level != p.numLevels
    ensures Verify(p, msg, isComplete).Accepted? <==>
              && 1 <= msg.level < p.numLevels
              && msg.origin in p.Level(msg.level)
              && (msg.individual.Some? ==> msg.individual.value == {msg.origin})
              && msg.aggregate <= p.Level(msg.level)
  {
    IdentitiesOnIsLevel(p, msg.level);
    if msg.individual.Some? && |msg.individual.value| == 1 && msg.origin in msg.individual.value {
      Singleton(msg.individual.value, msg.origin);
    }
  }

  /** A full aggregate is accepted if and only if it is complete. */
  lemma FullIsExact(p: Partitioner, msg: LevelUpdate, isComplete: set<nat> -> bool)
    requires p.Valid() && msg.level == p.numLevels
    ensures Verify(p, msg, isComplete).Accepted? <==> isComplete(msg.aggregate)
  {}

  /** The levels of `p` below one of `q`'s are inside the level that `q` has `p` on. */
  lemma SidesMatch(p: Partitioner, q: Partitioner, k: Knowledge, level: nat)
    requires p.nodeId < p.numIds == q.numIds && level > 0
    requires OnLevel(p.nodeId, q.nodeId, level) && k.InsideLevels(p)
    ensures p.nodeId in q.Level(level) && k.Below(level) <= q.Level(level)
  {
    OnLevelSymmetric(p.nodeId, q.nodeId, level);
    OppositeSides(p, q, level);
    BelowInsideUpTo(p, k, level);
  }

  /** What an honest node combines from its levels below `level` is accepted by every peer it has there. */
  lemma HonestUpdateIsAccepted(
    p: Partitioner, q: Partitioner, k: Knowledge, level: nat, individual: Option<set<nat>>,
    isComplete: set<nat> -> bool)
    requires p.Valid() && q.Valid() && p.numIds == q.numIds <= MAX_IDS
    requires 1 <= level < p.numLevels && q.nodeId in p.Level(level)
    requires k.InsideLevels(p)
    requires individual.Some? ==> individual.value == {p.nodeId}
    ensures Verify(q, NewUpdate(k.Below(level), individual, level, p.nodeId), isComplete) == Accepted
  {
    assert NewUpdate(k.Below(level), individual, level, p.nodeId)
        == LevelUpdate(k.Below(level), individual, level, p.nodeId) by {
      LevelBound(p);
      NewUpdateKeepsFields(k.Below(level), individual, level, p.nodeId);
    }
    SidesMatch(p, q, k, level);
    VerifyIsExact(q, LevelUpdate(k.Below(level), individual, level, p.nodeId), isComplete);
  }

  // ---------- Progress ----------

  ghost function SizeBelow(k: Knowledge, n: nat): nat {
    if n == 0 then 0 else SizeBelow(k, n - 1) + |k.BestOr(n - 1)|
  }

  lemma BelowDisjoint(p: Partitioner, k: Knowledge, n: nat)
    requires k.InsideLevels(p)
    ensures k.Below(n) !! k.BestOr(n)
  {
    BelowInsideUpTo(p, k, n);
    assert k.BestOr(n) <= p.Level(n);
  }

  lemma BelowSizeStep(p: Partitioner, k: Knowledge, n: nat)
    requires k.InsideLevels(p) && |k.Below(n)| == SizeBelow(k, n)
    ensures |k.Below(n + 1)| == SizeBelow(k, n + 1)
  {
    BelowDisjoint(p, k, n);
    UnionSize(k.Below(n), k.BestOr(n));
  }

  /** The number of signers is the sum over the levels, as these do not overlap. */
  lemma {:induction false} BelowSize(p: Partitioner, k: Knowledge, n: nat)
    requires k.InsideLevels(p)
    ensures |k.Below(n)| == SizeBelow(k, n)
  {
    if n > 0 {
      BelowSize(p, k, n - 1);
      BelowSizeStep(p, k, n - 1);
    }
  }

  /** A larger best on one level makes the aggregate of all levels larger by as much. */
  lemma {:induction false} SizeGrows(k: Knowledge, k': Knowledge, level: nat, n: nat)
    requires forall l: nat | l != level :: k'.BestOr(l) == k.BestOr(l)
    ensures SizeBelow(k', n) - SizeBelow(k, n) == if level < n then |k'.BestOr(level)| - |k.BestOr(level)| else 0
  {
    if n > 0 { SizeGrows(k, k', level, n - 1); }
  }

  datatype Application = Application(signers: set<nat>, level: nat)

  /** The application lies inside its level, is new to it, and makes its best strictly larger. */
  ghost predicate Improves(p: Partitioner, k: Knowledge, a: Application) {
    && Scorable(p, k, a.signers, a.level) && !k.Stored(a.signers, a.level)
    && |k.Put(a.signers, a.level).BestOr(a.level)| > |k.BestOr(a.level)|
  }

  ghost function Empty(p: Partitioner): Knowledge {
    Knowledge(seq(p.numLevels, _ => {}), map[])
  }

  /** The knowledge after `run`, a sequence of applications. */
  ghost function Replay(p: Partitioner, run: seq<Application>): (k: Knowledge)
    ensures |k.individuals| == p.numLevels
  {
    if run == [] then Empty(p)
    else
      var k := Replay(p, run[..|run| - 1]);
      var a := run[|run| - 1];
      if a.level < p.numLevels then k.Put(a.signers, a.level) else k
  }

  ghost predicate ImprovingRun(p: Partitioner, run: seq<Application>) {
    run == [] || (ImprovingRun(p, run[..|run| - 1]) && Improves(p, Replay(p, run[..|run| - 1]), run[|run| - 1]))
  }

  lemma ImprovingStep(p: Partitioner, k: Knowledge, a: Application)
    requires Improves(p, k, a)
    ensures k.Put(a.signers, a.level).Consistent(p.numLevels) && k.Put(a.signers, a.level).InsideLevels(p)
    ensures |k.Put(a.signers, a.level).Below(p.numLevels)| > |k.Below(p.numLevels)|
  {
    var k' := k.Put(a.signers, a.level);
    PutKeepsConsistent(k, a.signers, a.level);
    PutKeepsInsideLevels(p, k, a.signers, a.level);
    SizeGrows(k, k', a.level, p.numLevels);
    BelowSize(p, k, p.numLevels);
    BelowSize(p, k', p.numLevels);
  }

  lemma {:induction false} RunGrows(p: Partitioner, run: seq<Application>)
    requires ImprovingRun(p, run)
    ensures Replay(p, run).Consistent(p.numLevels) && Replay(p, run).InsideLevels(p)
    ensures |run| <= |Replay(p, run).Below(p.numLevels)|
  {
    if run != [] {
      RunGrows(p, run[..|run| - 1]);
      ImprovingStep(p, Replay(p, run[..|run| - 1]), run[|run| - 1]);
    }
  }

  /** Over any run, every application adds signers to the combined aggregate, so there are no more
      applications than validators. */
  lemma ProgressBound(p: Partitioner, run: seq<Application>)
    requires p.Valid() && ImprovingRun(p, run)
    ensures |run| <= |Replay(p, run).Below(p.numLevels)| <= p.numIds
  {
    RunGrows(p, run);
    BelowInsideUpTo(p, Replay(p, run), p.numLevels);
    UpToLast(p);
    SubsetSize(Replay(p, run).Below(p.numLevels), p.UpTo(p.numLevels - 1));
  }

  // ---------- What a run has stored ----------

  /** The signers whose individual contributions were applied to a level. */
  ghost function IndividualsOf(run: seq<Application>, level: nat): (r: set<nat>)
    ensures forall x :: x in r <==> Application({x}, level) in run
  {
    if run == [] then {}
    else
      var before, a := run[..|run| - 1], run[|run| - 1];
      assert run == before + [a];
      assert forall x | x in a.signers && |a.signers| == 1 :: a.signers == {x} by {
        forall x | x in a.signers && |a.signers| == 1 ensures a.signers == {x} { Singleton(a.signers, x); }
      }
      IndividualsOf(before, level) + if a.level == level && |a.signers| == 1 then a.signers else {}
  }

  /** The individual contributions of a level are exactly those that were applied to it. */
  lemma {:induction false} IndividualsAreRecorded(p: Partitioner, run: seq<Application>, level: nat)
    requires ImprovingRun(p, run) && level < p.numLevels
    ensures Replay(p, run).individuals[level] == IndividualsOf(run, level)
    decreases |run|
  {
    if run != [] {
      var before, a := run[..|run| - 1], run[|run| - 1];
      IndividualsAreRecorded(p, before, level);
      PutRecords(Replay(p, before), a.signers, a.level, level);
    }
  }

  /** The contributions that may not be put again are exactly the individual ones that were applied. */
  lemma StoredWasApplied(p: Partitioner, run: seq<Application>, c: set<nat>, level: nat)
    requires ImprovingRun(p, run) && level < p.numLevels
    ensures Replay(p, run).Stored(c, level) <==> |c| == 1 && Application(c, level) in run
  {
    IndividualsAreRecorded(p, run, level);
    if |c| == 1 {
      var x :| x in c;
      Singleton(c, x);
    }
  }

  lemma PutRecords(k: Knowledge, c: set<nat>, level: nat, l: nat)
    requires level < |k.individuals| && l < |k.individuals|
    ensures k.Put(c, level).individuals[l] == k.individuals[l] + if level == l && |c| == 1 then c else {}
  {}

  lemma MergeOfSingle(best: set<nat>, individuals: set<nat>, c: set<nat>, s: set<nat>)
    requires individuals <= best && c !! best && Aggregable(best, individuals + c, c, s)
    ensures |s| <= |c + best|
  {
    var t: set<nat> :| t <= individuals + c && UnionWith(best, c, t, s);
    SubsetSize(s, c + best);
  }

  /** After every application the best of its level is an aggregate of the previous best, the contribution and
      the individual ones applied so far, and no aggregate that these allow without overlap is larger. */
  lemma BestIsLargest(p: Partitioner, run: seq<Application>, a: Application)
    requires ImprovingRun(p, run + [a])
    ensures var best, after := Replay(p, run).BestOr(a.level), Replay(p, run + [a]).BestOr(a.level);
            var individuals := IndividualsOf(run + [a], a.level);
            && Aggregable(best, individuals, a.signers, after)
            && forall s | Aggregable(best, individuals, a.signers, s) :: |s| <= |after|
  {
    assert (run + [a])[..|run|] == run;
    var k, c, level := Replay(p, run), a.signers, a.level;
    IndividualsAreRecorded(p, run, level);
    IndividualsAreRecorded(p, run + [a], level);
    PutRecords(k, c, level, level);
    assert k.individuals[level] <= k.BestOr(level);
    PutIsMerge(k, c, level);
    MergeIsAggregable(k.BestOr(level), IndividualsOf(run + [a], level), c);
    if c <= k.BestOr(level) { CoveredGainsNothing(k, c, level); }
    PutMerges(k, c, level);
    if |c| == 1 {
      assert c !! k.BestOr(level);
      forall s | Aggregable(k.BestOr(level), IndividualsOf(run + [a], level), c, s)
        ensures |s| <= |c + k.BestOr(level)|
      {
        MergeOfSingle(k.BestOr(level), k.individuals[level], c, s);
      }
    } else {
      MergeIsLargestAggregate(k.BestOr(level), k.individuals[level], c);
    }
  }

  /** Without a best so far, the contribution is merged with nothing. */
  lemma PutIsMerge(k: Knowledge, c: set<nat>, level: nat)
    requires level < |k.individuals| && c != {}
    ensures var individuals := k.individuals[level] + if |c| == 1 then c else {};
            k.Put(c, level).BestOr(level) == Merge(k.BestOr(level), individuals, c)
  {
    assert k.individuals[level] + {} == k.individuals[level];
  }

  /** The best of a level is at least as large as every contribution that was applied to it. */
  lemma {:induction false} BestIsNoSmaller(p: Partitioner, run: seq<Application>, a: Application)
    requires ImprovingRun(p, run) && a in run
    ensures |a.signers| <= |Replay(p, run).BestOr(a.level)|
    decreases |run|
  {
    var before, last := run[..|run| - 1], run[|run| - 1];
    assert run == before + [last];
    if a == last {
      BestIsLargest(p, before, last);
      AloneIsAggregable(Replay(p, before).BestOr(a.level), IndividualsOf(run, a.level), a.signers);
    } else {
      BestIsNoSmaller(p, before, a);
      RunGrows(p, before);
      PutKeepsConsistent(Replay(p, before), last.signers, last.level);
    }
  }

  lemma AloneIsAggregable(best: set<nat>, individuals: set<nat>, c: set<nat>)
    ensures Aggregable(best, individuals, c, c)
  {
    assert UnionWith(best, c, {}, c) by { assert {} + c == c; }
  }

  /** The best of a level holds every signer whose individual contribution was applied to it. */
  lemma BestHoldsIndividuals(p: Partitioner, run: seq<Application>, level: nat)
    requires ImprovingRun(p, run) && level < p.numLevels
    ensures IndividualsOf(run, level) <= Replay(p, run).BestOr(level)
  {
    IndividualsAreRecorded(p, run, level);
    RunGrows(p, run);
  }
}
