/** Batches: a macro block closes every batch, the genesis block is the first of them. */
module Policies {

  datatype Policy = Policy(genesis: nat, blocksPerBatch: nat, blocksPerEpoch: nat) {

    predicate Valid() {
      0 < blocksPerBatch <= blocksPerEpoch
    }

    predicate MacroAt(number: nat)
      requires Valid()
    {
      number == genesis || (number >= genesis + blocksPerBatch && MacroAt(number - blocksPerBatch))
    }

    /** The height of the last macro block at a given height. */
    function LastMacro(number: nat): (m: nat)
      requires Valid() && number >= genesis
      ensures genesis <= m <= number < m + blocksPerBatch && MacroAt(m)
    {
      if number < genesis + blocksPerBatch then genesis else LastMacro(number - blocksPerBatch) + blocksPerBatch
    }

    /** Election blocks close every epoch as macro blocks close every batch. */
    function Epochs(): (p: Policy)
      requires Valid()
      ensures p.Valid() && p.genesis == genesis && p.blocksPerBatch == blocksPerEpoch
    {
      Policy(genesis, blocksPerEpoch, blocksPerEpoch)
    }

    predicate ElectionAt(number: nat)
      requires Valid()
    {
      Epochs().MacroAt(number)
    }

    function LastElection(number: nat): (m: nat)
      requires Valid() && number >= genesis
      ensures genesis <= m <= number < m + blocksPerEpoch && ElectionAt(m)
    {
      Epochs().LastMacro(number)
    }

    function EpochAt(number: nat): nat
      requires Valid()
    {
      if number <= genesis then 0 else Batches(Epochs(), number - 1) + 1
    }
  }

  /** A macro block is the last one for itself and the rest of its batch only. */
  lemma {:induction false} LastMacroUnique(p: Policy, number: nat, m: nat)
    requires p.Valid() && p.MacroAt(m) && p.genesis <= m <= number < m + p.blocksPerBatch
    ensures p.LastMacro(number) == m
    decreases number
  {
    if m > p.genesis { LastMacroUnique(p, number - p.blocksPerBatch, m - p.blocksPerBatch); }
  }

  lemma {:induction false} MacroFromGenesis(p: Policy, m: nat)
    requires p.Valid() && p.MacroAt(m)
    ensures m >= p.genesis
  {}

  /** Macro blocks are at least a batch apart. */
  lemma NextMacro(p: Policy, m: nat, n: nat)
    requires p.Valid() && p.MacroAt(m) && p.MacroAt(n) && m < n
    ensures n >= m + p.blocksPerBatch
  {
    MacroFromGenesis(p, m);
    if n < m + p.blocksPerBatch {
      LastMacroUnique(p, n, m);
      LastMacroUnique(p, n, n);
    }
  }

  /** The number of batches closed at a height. */
  function Batches(p: Policy, number: nat): nat
    requires p.Valid()
  {
    if number < p.genesis + p.blocksPerBatch then 0 else Batches(p, number - p.blocksPerBatch) + 1
  }

  lemma {:induction false} LastMacroIsProduct(p: Policy, number: nat)
    requires p.Valid() && number >= p.genesis
    ensures p.LastMacro(number) == p.genesis + p.blocksPerBatch * Batches(p, number)
    decreases number
  {
    var b := p.blocksPerBatch;
    if number >= p.genesis + b {
      LastMacroIsProduct(p, number - b);
      NextProduct(b, Batches(p, number - b));
    } else {
      NextProduct(b, 0);
    }
  }

  lemma NextProduct(b: nat, q: nat)
    ensures b * 0 == 0 && b * (q + 1) == b * q + b
  {}

  lemma DivUnique(b: nat, q: int, r: nat)
    requires r < b
    ensures (b * q + r) / b == q && (b * q + r) % b == r
  {
    var x := b * q + r;
    var d := x / b - q;
    assert x == b * (x / b) + x % b;
    assert b * d == r - x % b;
    assert d > 0 ==> b * d >= b;
    assert d < 0 ==> b * d + b <= 0;
  }

  lemma LastRemainder(b: nat, q: nat, r: nat)
    requires r < b
    ensures (b * q + r + b - 1) % b == b - 1 <==> r == 0
  {
    if r == 0 {
      DivUnique(b, q, b - 1);
    } else {
      assert b * q + r + b - 1 == b * (q + 1) + (r - 1);
      DivUnique(b, q + 1, r - 1);
    }
  }

  /** The last macro block is what the source computes by division. */
  lemma LastMacroFormula(p: Policy, number: nat)
    requires p.Valid() && number >= p.genesis
    ensures p.LastMacro(number) == p.blocksPerBatch * ((number - p.genesis) / p.blocksPerBatch) + p.genesis
  {
    LastMacroIsProduct(p, number);
    DivUnique(p.blocksPerBatch, Batches(p, number), number - p.LastMacro(number));
  }

  lemma MacroAtIsLast(p: Policy, number: nat)
    requires p.Valid() && number >= p.genesis
    ensures p.MacroAt(number) <==> p.LastMacro(number) == number
  {
    if p.MacroAt(number) { LastMacroUnique(p, number, number); }
  }

  /** Macro blocks are where the source finds the last index of a batch. */
  lemma MacroAtFormula(p: Policy, number: nat)
    requires p.Valid() && number >= p.genesis
    ensures p.MacroAt(number) <==>
              (number - p.genesis + p.blocksPerBatch - 1) % p.blocksPerBatch == p.blocksPerBatch - 1
  {
    var last := p.LastMacro(number);
    MacroAtIsLast(p, number);
    LastMacroIsProduct(p, number);
    LastRemainder(p.blocksPerBatch, Batches(p, number), number - last);
  }

  /** Election blocks are where the source finds the last index of an epoch. */
  lemma ElectionAtFormula(p: Policy, number: nat)
    requires p.Valid() && number >= p.genesis
    ensures p.ElectionAt(number) <==>
              (number - p.genesis + p.blocksPerEpoch - 1) % p.blocksPerEpoch == p.blocksPerEpoch - 1
  {
    MacroAtFormula(p.Epochs(), number);
  }

  /** The next election block is what the source computes by division. */
  lemma NextElectionFormula(p: Policy, number: nat)
    requires p.Valid() && number >= p.genesis
    ensures p.LastElection(number) + p.blocksPerEpoch
            == ((number - p.genesis) / p.blocksPerEpoch + 1) * p.blocksPerEpoch + p.genesis
  {
    LastMacroFormula(p.Epochs(), number);
    var length, q := p.blocksPerEpoch, (number - p.genesis) / p.blocksPerEpoch;
    assert (q + 1) * length == length * q + length;
  }

  /** The epoch number is what the source computes by division. */
  lemma EpochAtFormula(p: Policy, number: nat)
    requires p.Valid() && number >= p.genesis
    ensures p.EpochAt(number) == (number - p.genesis + p.blocksPerEpoch - 1) / p.blocksPerEpoch
  {
    var length := p.blocksPerEpoch;
    if number == p.genesis {
      DivUnique(length, 0, length - 1);
    } else {
      var q := Batches(p.Epochs(), number - 1);
      LastMacroIsProduct(p.Epochs(), number - 1);
      var r := number - 1 - p.LastElection(number - 1);
      assert length * (q + 1) == length * q + length;
      DivUnique(length, q + 1, r);
    }
  }

  lemma {:induction false} WholeBatches(p: Policy, number: nat, k: nat)
    requires p.Valid() && p.MacroAt(number)
    ensures p.MacroAt(number + p.blocksPerBatch * k)
    decreases k
  {
    if k > 0 {
      WholeBatches(p, number, k - 1);
      MacroFromGenesis(p, number);
      var b := p.blocksPerBatch;
      assert b * (k - 1) + b == b * k;
      assert b * (k - 1) >= 0;
    } else {
      assert p.blocksPerBatch * 0 == 0;
    }
  }

  /** An epoch is a number of batches, so every election block is a macro block. */
  lemma {:induction false} ElectionIsMacro(p: Policy, number: nat, batchesPerEpoch: nat)
    requires p.Valid() && p.ElectionAt(number) && p.blocksPerEpoch == p.blocksPerBatch * batchesPerEpoch
    ensures p.MacroAt(number)
    decreases number
  {
    if number != p.genesis {
      ElectionIsMacro(p, number - p.blocksPerEpoch, batchesPerEpoch);
      WholeBatches(p, number - p.blocksPerEpoch, batchesPerEpoch);
    }
  }

  /** No election block is skipped by `n` exactly if it is not above the next one. */
  lemma NoneSkipped(p: Policy, m: nat, n: nat)
    requires p.Valid() && p.genesis <= m < n
    ensures n <= p.LastElection(m) + p.blocksPerEpoch <==> forall h | m < h < n :: !p.ElectionAt(h)
  {
    var e := p.LastElection(m);
    assert p.ElectionAt(e + p.blocksPerEpoch);
    forall h | m < h < n && n <= e + p.blocksPerEpoch ensures !p.ElectionAt(h) {
      if p.ElectionAt(h) { NextMacro(p.Epochs(), e, h); }
    }
  }

  /** If an epoch is a number of batches, the next macro block is never above the next election block. */
  lemma NextMacroInEpoch(p: Policy, m: nat, batchesPerEpoch: nat)
    requires p.Valid() && p.MacroAt(m) && m >= p.genesis && p.blocksPerEpoch == p.blocksPerBatch * batchesPerEpoch
    ensures m + p.blocksPerBatch <= p.LastElection(m) + p.blocksPerEpoch
  {
    var e := p.LastElection(m) + p.blocksPerEpoch;
    assert p.ElectionAt(e);
    ElectionIsMacro(p, e, batchesPerEpoch);
    NextMacro(p, m, e);
  }
}

/** Blocks and the skip pattern of their chains. */
module BlockTree {
  import opened Policies

  datatype Kind = Macro | Micro | Skip

  /** A block. Its hash is modelled by the block itself, so equal hashes mean equal blocks; the parent of
      a `Root` is a hash of no block. `tag` stands for the content that does not matter here. */
  datatype Block =
    | Root(number: nat, kind: Kind, tag: nat)
    | Child(number: nat, kind: Kind, tag: nat, parent: Block)
  {
    predicate IsMacro() { kind.Macro? }

    predicate IsSkip() { kind.Skip? }
  }

  // ---------- Chains down to a height ----------

  /** The chain of `b` has a block at every height down to `m`. */
  predicate Linked(b: Block, m: nat) {
    b.number == m || (b.Child? && b.number > m && b.number == b.parent.number + 1 && Linked(b.parent, m))
  }

  /** The ancestor of `b` at height `n`. */
  function At(b: Block, n: nat): Block {
    if b.number <= n || b.Root? then b else At(b.parent, n)
  }

  /** The skip flags of the chain of `b` above height `m`. */
  function Word(b: Block, m: nat): seq<bool> {
    if b.number <= m || b.Root? then [] else Word(b.parent, m) + [b.IsSkip()]
  }

  lemma {:induction false} AtHeight(b: Block, m: nat, n: nat)
    requires Linked(b, m) && m <= n <= b.number
    ensures At(b, n).number == n && Linked(At(b, n), m)
    ensures n < b.number ==> At(b, n + 1).Child? && At(b, n + 1).parent == At(b, n)
  {
    if n < b.number {
      AtHeight(b.parent, m, n);
    }
  }

  lemma {:induction false} AtOfAt(b: Block, n: nat, k: nat)
    requires k <= n
    ensures At(At(b, n), k) == At(b, k)
  {
    if n < b.number && b.Child? { AtOfAt(b.parent, n, k); }
  }

  lemma {:induction false} WordLength(b: Block, m: nat)
    requires Linked(b, m)
    ensures |Word(b, m)| == b.number - m
  {
    if b.number > m { WordLength(b.parent, m); }
  }

  lemma {:induction false} WordAt(b: Block, m: nat, n: nat)
    requires Linked(b, m) && m <= n <= b.number
    ensures |Word(b, m)| == b.number - m
    ensures Word(At(b, n), m) == Word(b, m)[..n - m]
    ensures n > m ==> Word(b, m)[n - m - 1] == At(b, n).IsSkip()
  {
    WordLength(b, m);
    if n < b.number { WordAt(b.parent, m, n); WordLength(b.parent, m); }
  }

  // ---------- The order of skip patterns ----------

  /** `w` is better than `v`: at the first difference it has the skip block, or it continues `v`. */
  ghost predicate Less(v: seq<bool>, w: seq<bool>) {
    exists i: nat :: LessAt(v, w, i)
  }

  predicate LessAt(v: seq<bool>, w: seq<bool>, i: nat) {
    i <= |v| && i < |w| && v[..i] == w[..i] && (i == |v| || (!v[i] && w[i]))
  }

  lemma LessIrreflexive(v: seq<bool>)
    ensures !Less(v, v)
  {}

  lemma LessTransitive(u: seq<bool>, v: seq<bool>, w: seq<bool>)
    requires Less(u, v) && Less(v, w)
    ensures Less(u, w)
  {
    var i: nat :| LessAt(u, v, i);
    var j: nat :| LessAt(v, w, j);
    var k := if i <= j then i else j;
    assert u[..k] == u[..i][..k] && w[..k] == w[..j][..k];
    assert v[..i][..k] == v[..j][..k] == v[..k];
    if i < j { assert v[..j][i] == w[..j][i]; }
    if j < i { assert u[..i][j] == v[..i][j]; }
    assert LessAt(u, w, k);
  }

  lemma {:induction false} LessTotal(v: seq<bool>, w: seq<bool>, i: nat)
    requires i <= |v| && i <= |w| && v[..i] == w[..i]
    ensures Less(v, w) || Less(w, v) || v == w
    decreases |v| - i
  {
    if i == |v| || i == |w| {
      if i < |w| { assert LessAt(v, w, i); }
      else if i < |v| { assert LessAt(w, v, i); }
      else { assert v == v[..i] && w == w[..i]; }
    } else if v[i] == w[i] {
      assert v[..i + 1] == v[..i] + [v[i]] && w[..i + 1] == w[..i] + [w[i]];
      LessTotal(v, w, i + 1);
    } else if w[i] {
      assert LessAt(v, w, i);
    } else {
      assert LessAt(w, v, i);
    }
  }
}
