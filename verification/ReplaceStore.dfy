/** The best known aggregate of every level, and the individual contributions it can be rebuilt from. */
module ReplaceStore {
  import opened BinomialPartitioner
  import opened Sets
  import opened Wrappers

  /** A contribution, known by the identities of its signers. */
  datatype Contribution = Contribution(signers: set<nat>) {

    /** Fails exactly on overlap and then leaves the contribution as it was. */
    function Combine(other: Contribution): CombineResult {
      if signers !! other.signers then Combined(Contribution(signers + other.signers))
      else Overlapping(signers * other.signers)
    }
  }

  datatype CombineResult = Combined(contribution: Contribution) | Overlapping(ids: set<nat>)

  /** What the store knows, level by level. */
  datatype Knowledge = Knowledge(individuals: seq<set<nat>>, best: map<nat, set<nat>>) {

    ghost predicate Consistent(numLevels: nat) {
      && |individuals| == numLevels
      && (forall l | l in best :: l < numLevels && best[l] != {})
      && (forall l: nat | l < numLevels :: individuals[l] <= BestOr(l))
    }

    ghost predicate InsideLevels(p: Partitioner) {
      forall l | l in best :: best[l] <= p.Level(l)
    }

    /** The signers of the level's best, nobody if there is none. */
    function BestOr(level: nat): set<nat> {
      if level in best then best[level] else {}
    }

    predicate Stored(c: set<nat>, level: nat)
      requires level < |individuals|
    {
      |c| == 1 && c <= individuals[level]
    }

    function Put(c: set<nat>, level: nat): Knowledge
      requires level < |individuals|
    {
      if c == {} then this
      else
        var ind := if |c| == 1 then individuals[level] + c else individuals[level];
        Knowledge(individuals[level := ind],
                  best[level := if level in best then Merge(best[level], ind, c) else c])
    }

    /** The signers of all levels below `n`. */
    ghost function Below(n: nat): set<nat> {
      if n == 0 then {} else Below(n - 1) + BestOr(n - 1)
    }
  }

  /** The best aggregate of a level after `c` was offered to it. */
  function Merge(best: set<nat>, individuals: set<nat>, c: set<nat>): set<nat> {
    if c !! best then c + best
    else if best <= c then c
    else if |c + individuals| > |best| then c + individuals
    else best
  }

  // ---------- Merge picks the largest aggregate there is ----------

  /** `s` is a disjoint union of the individuals in `t` with the best, the contribution or both. */
  predicate UnionWith(best: set<nat>, c: set<nat>, t: set<nat>, s: set<nat>) {
    || s == t
    || (t !! best && s == t + best)
    || (t !! c && s == t + c)
    || (t !! c && t !! best && c !! best && s == t + c + best)
  }

  /** `s` can be aggregated without overlap from the best, the contribution and some individuals. */
  ghost predicate Aggregable(best: set<nat>, individuals: set<nat>, c: set<nat>, s: set<nat>) {
    exists t: set<nat> :: t <= individuals && UnionWith(best, c, t, s)
  }

  lemma MergeIsLargestAggregate(best: set<nat>, individuals: set<nat>, c: set<nat>)
    requires individuals <= best
    ensures Aggregable(best, individuals, c, Merge(best, individuals, c))
    ensures forall s | Aggregable(best, individuals, c, s) :: |s| <= |Merge(best, individuals, c)|
  {
    MergeIsAggregable(best, individuals, c);
    forall s | Aggregable(best, individuals, c, s) ensures |s| <= |Merge(best, individuals, c)| {
      var t: set<nat> :| t <= individuals && UnionWith(best, c, t, s);
      AggregateSize(best, individuals, c, t, s);
    }
  }

  lemma MergeIsAggregable(best: set<nat>, individuals: set<nat>, c: set<nat>)
    ensures Aggregable(best, individuals, c, Merge(best, individuals, c))
  {
    var m := Merge(best, individuals, c);
    if !(c !! best) && !(best <= c) && |c + individuals| > |best| {
      assert UnionWith(best, c, individuals - c, m);
    } else {
      assert {} + c == c && {} + best == best;
      assert UnionWith(best, c, {}, m);
    }
  }

  lemma AggregateSize(best: set<nat>, individuals: set<nat>, c: set<nat>, t: set<nat>, s: set<nat>)
    requires t <= individuals <= best && UnionWith(best, c, t, s)
    ensures |s| <= |Merge(best, individuals, c)|
  {
    MergeIsLarge(best, individuals, c);
    if s <= best {
      SubsetSize(s, best);
    } else if s <= c + individuals {
      SubsetSize(s, c + individuals);
    } else {
      SubsetSize(s, c + best);
    }
  }

  lemma MergeIsLarge(best: set<nat>, individuals: set<nat>, c: set<nat>)
    requires individuals <= best
    ensures |Merge(best, individuals, c)| >= |best|
    ensures |Merge(best, individuals, c)| >= |c + individuals|
    ensures c !! best ==> Merge(best, individuals, c) == c + best
  {
    if c !! best {
      SubsetSize(best, c + best);
      SubsetSize(c + individuals, c + best);
    } else if best <= c {
      SubsetSize(best, c);
      assert c + individuals == c;
    }
  }

  // ---------- Every put keeps the store consistent ----------

  /** A new individual is either in the best already or can be added to it. */
  lemma MergeKeepsIndividuals(best: set<nat>, individuals: set<nat>, c: set<nat>)
    requires individuals <= best
    ensures individuals <= Merge(best, individuals, c)
    ensures |c| == 1 ==> individuals + c <= Merge(best, individuals + c, c)
    ensures |c| == 1 ==> |Merge(best, individuals + c, c)| >= |best|
  {
    if |c| == 1 {
      var x :| x in c;
      Singleton(c, x);
      if x in best { MergeIsLarge(best, individuals + c, c); } else { SubsetSize(best, c + best); }
    }
  }

  lemma PutKeepsConsistent(k: Knowledge, c: set<nat>, level: nat)
    requires level < |k.individuals| && k.Consistent(|k.individuals|)
    ensures k.Put(c, level).Consistent(|k.individuals|)
    ensures |k.Put(c, level).BestOr(level)| >= |k.BestOr(level)|
    ensures forall l: nat | l != level :: k.Put(c, level).BestOr(l) == k.BestOr(l)
  {
    if c != {} {
      var k' := k.Put(c, level);
      var individuals, best := k.individuals[level], k.BestOr(level);
      assert individuals <= best;
      MergeKeepsIndividuals(best, individuals, c);
      MergeIsLarge(best, individuals, c);
      forall l: nat | l < |k.individuals| ensures k'.individuals[l] <= k'.BestOr(l) {
        assert k.individuals[l] <= k.BestOr(l);
      }
    }
  }

  lemma PutKeepsInsideLevels(p: Partitioner, k: Knowledge, c: set<nat>, level: nat)
    requires level < |k.individuals| && k.Consistent(|k.individuals|)
    requires k.InsideLevels(p) && c <= p.Level(level)
    ensures k.Put(c, level).InsideLevels(p)
  {
    var k' := k.Put(c, level);
    forall l | l in k'.best ensures k'.best[l] <= p.Level(l) {
      assert l != level ==> l in k.best;
      assert k.individuals[level] <= k.BestOr(level) <= p.Level(level);
    }
  }

  // ---------- Levels combine without overlap ----------

  function UnionOf(cs: seq<Contribution>): set<nat> {
    if cs == [] then {} else UnionOf(cs[..|cs| - 1]) + cs[|cs| - 1].signers
  }

  predicate NoOverlap(cs: seq<Contribution>) {
    cs == [] || (NoOverlap(cs[..|cs| - 1]) && UnionOf(cs[..|cs| - 1]) !! cs[|cs| - 1].signers)
  }

  lemma {:induction false} NoOverlapPrefix(cs: seq<Contribution>, n: nat)
    requires n <= |cs| && NoOverlap(cs)
    ensures NoOverlap(cs[..n])
  {
    if n == |cs| { assert cs[..n] == cs; } else {
      NoOverlapPrefix(cs[..|cs| - 1], n);
      assert cs[..|cs| - 1][..n] == cs[..n];
    }
  }

  /** Combines contributions of several levels; the source panics on overlap. */
  method CombineAll(cs: seq<Contribution>) returns (r: Option<Contribution>)
    requires NoOverlap(cs)
    ensures r.None? <==> cs == []
    ensures r.Some? ==> r.value.signers == UnionOf(cs)
  {
    if cs == [] {
      return None;
    }
    var combined := cs[0];
    assert UnionOf(cs[..1]) == combined.signers by { assert cs[..1][..0] == []; }
    for i := 1 to |cs|
      invariant combined.signers == UnionOf(cs[..i])
    {
      NoOverlapPrefix(cs, i + 1);
      assert cs[..i + 1][..i] == cs[..i];
      var sum := combined.Combine(cs[i]);
      assert sum.Combined?;
      combined := sum.contribution;
    }
    assert cs[..|cs|] == cs;
    return Some(combined);
  }

  /** The levels below `n` only hold ids of these levels. */
  lemma {:induction false} BelowInsideUpTo(p: Partitioner, k: Knowledge, n: nat)
    requires k.InsideLevels(p)
    ensures n > 0 ==> k.Below(n) <= p.UpTo(n - 1)
    ensures k.Below(n) !! p.Level(n)
  {
    if n > 0 {
      BelowInsideUpTo(p, k, n - 1);
      UpToGrows(p, n - 1);
      if n > 1 { UpToGrows(p, n - 2); } else { UpToGrows(p, 0); }
    }
  }

  // ---------- The store ----------

  function Contributors(bests: map<nat, (Contribution, set<nat>)>): map<nat, set<nat>> {
    map l | l in bests :: bests[l].1
  }

  lemma SameUpdate(bests: map<nat, set<nat>>, l: nat)
    requires l in bests
    ensures bests[l := bests[l]] == bests
  {}

  lemma ContributorsUpdate(bests: map<nat, (Contribution, set<nat>)>, l: nat, entry: (Contribution, set<nat>))
    ensures Contributors(bests[l := entry]) == Contributors(bests)[l := entry.1]
  {}

  class Store {
    const partitioner: Partitioner
    var bestLevel: nat
    var individualVerified: seq<set<nat>>
    var individualContributions: seq<map<nat, Contribution>>
    var bestContribution: map<nat, (Contribution, set<nat>)>

    /** What the store knows, which is what the evaluator reads. */
    function Abs(): Knowledge
      reads this
    {
      Knowledge(individualVerified, Contributors(bestContribution))
    }

    ghost predicate Valid()
      reads this
    {
      && partitioner.Valid()
      && Abs().Consistent(partitioner.numLevels)
      && IndividualsAgree()
      && BestsAgree()
    }

    /** The set of verified signers and the map of their contributions have the same keys. */
    ghost predicate IndividualsAgree()
      reads this
    {
      && |individualVerified| == |individualContributions| == partitioner.numLevels
      && forall l: nat | l < partitioner.numLevels ::
           && individualContributions[l].Keys == individualVerified[l]
           && forall id | id in individualContributions[l] :: individualContributions[l][id].signers == {id}
    }

    /** A best and its recorded contributors agree, and the best level is the highest level with a best. */
    ghost predicate BestsAgree()
      reads this
    {
      && (forall l | l in bestContribution :: bestContribution[l].0.signers == bestContribution[l].1 && l <= bestLevel)
      && (bestLevel > 0 ==> bestLevel in bestContribution)
    }

    constructor (p: Partitioner)
      requires p.Valid()
      ensures Valid() && partitioner == p && Abs().best == map[] && bestLevel == 0
      ensures forall l: nat | l < p.numLevels :: Abs().individuals[l] == {}
    {
      partitioner := p;
      bestLevel := 0;
      individualVerified := seq(p.numLevels, _ => {});
      individualContributions := seq(p.numLevels, _ => map[]);
      bestContribution := map[];
    }

    /** The improved best for `level`, or none if `contribution` cannot improve it. */
    method CheckMerge(contribution: Contribution, level: nat) returns (r: Option<(Contribution, set<nat>)>)
      requires level < partitioner.numLevels && IndividualsAgree() && BestsAgree()
      ensures r.Some? ==> r.value.0.signers == r.value.1
      ensures level !in bestContribution ==> r == Some((contribution, contribution.signers))
      ensures level in bestContribution ==>
                var best := bestContribution[level].1;
                && Merge(best, individualVerified[level], contribution.signers) == (if r.Some? then r.value.1 else best)
                && (r.None? <==> !(contribution.signers !! best) && !(best <= contribution.signers)
                                 && |contribution.signers + individualVerified[level]| <= |best|)
    {
      if level !in bestContribution {
        return Some((contribution, contribution.signers));
      }
      var best := bestContribution[level];
      match contribution.Combine(best.0) {
        case Combined(c) => return Some((c, c.signers));
        case Overlapping(_) =>
      }
      if best.1 <= contribution.signers {
        return Some((contribution, contribution.signers));
      }
      var merged, contributors := contribution, contribution.signers;
      var complements := individualVerified[level] - contributors;
      UnionSize(contributors, individualVerified[level]);
      if |complements| + |contributors| <= |best.1| {
        return None;
      }
      while complements != {}
        invariant merged.signers == contributors
        invariant complements !! contributors && complements <= individualVerified[level]
        invariant contributors + complements == contribution.signers + individualVerified[level]
        decreases |complements|
      {
        var id :| id in complements;
        var individual := individualContributions[level][id];
        // The source panics if this overlaps.
        var sum := merged.Combine(individual);
        assert sum.Combined?;
        merged, contributors := sum.contribution, contributors + {id};
        complements := complements - {id};
      }
      return Some((merged, contributors));
    }

    /** Tracks an individual contribution; the source panics if it is already there. */
    method RecordIndividual(contribution: Contribution, id: nat, level: nat)
      requires level < partitioner.numLevels && IndividualsAgree()
      requires contribution.signers == {id} && id !in individualVerified[level]
      modifies this`individualVerified, this`individualContributions
      ensures IndividualsAgree()
      ensures individualVerified == old(individualVerified)[level := old(individualVerified)[level] + {id}]
    {
      individualVerified := individualVerified[level := individualVerified[level] + {id}];
      var known: map<nat, Contribution> := individualContributions[level];
      individualContributions := individualContributions[level := known[id := contribution]];
    }

    /** Replaces the best of `level` if `contribution` improves it. */
    method Improve(contribution: Contribution, level: nat)
      requires level < partitioner.numLevels && IndividualsAgree() && BestsAgree()
      modifies this`bestContribution, this`bestLevel
      ensures BestsAgree()
      ensures Abs().best == old(Abs().best)[level :=
                if level in old(Abs().best) then
                  Merge(old(Abs().best)[level], individualVerified[level], contribution.signers)
                else contribution.signers]
      ensures bestLevel == if old(bestLevel) < level then level else old(bestLevel)
    {
      var improved := CheckMerge(contribution, level);
      if improved.Some? {
        ContributorsUpdate(bestContribution, level, improved.value);
        bestContribution := bestContribution[level := improved.value];
        if level > bestLevel {
          bestLevel := level;
        }
      } else {
        SameUpdate(Abs().best, level);
      }
    }

    method Put(contribution: Contribution, level: nat)
      requires Valid() && level < partitioner.numLevels
      // An individual contribution that is already stored makes the source panic.
      requires !Abs().Stored(contribution.signers, level)
      modifies this
      ensures Valid() && Abs() == old(Abs()).Put(contribution.signers, level)
      ensures bestLevel == if contribution.signers != {} && old(bestLevel) < level then level else old(bestLevel)
    {
      var identity := contribution.signers;
      if identity == {} {
        return;
      }
      ghost var after := Abs().Put(identity, level);
      PutKeepsConsistent(Abs(), identity, level);
      if |identity| == 1 {
        var id :| id in identity;
        Singleton(identity, id);
        RecordIndividual(contribution, id, level);
      }
      assert individualVerified == after.individuals;
      Improve(contribution, level);
      assert Abs() == after;
    }

    function Best(level: nat): Option<Contribution>
      reads this
    {
      if level in bestContribution then Some(bestContribution[level].0) else None
    }

    /** The aggregate of the bests of all levels up to `level`. */
    method Combined(level: nat) returns (r: Option<Contribution>)
      requires Valid() && Abs().InsideLevels(partitioner)
      ensures r.Some? ==> r.value.signers == Abs().Below(level + 1)
      ensures r.Some? <==> exists l :: l in Abs().best && l <= level
      ensures r.None? ==> Abs().Below(level + 1) == {}
    {
      var signatures: seq<Contribution> := [];
      for l := 0 to level + 1
        invariant NoOverlap(signatures) && UnionOf(signatures) == Abs().Below(l)
        invariant signatures != [] <==> exists i :: i in Abs().best && i < l
      {
        if l in bestContribution {
          BelowInsideUpTo(partitioner, Abs(), l);
          var next := signatures + [bestContribution[l].0];
          assert next[..|next| - 1] == signatures;
          signatures := next;
        }
      }
      r := CombineAll(signatures);
    }
  }
}
