/** Bitwise operations on natural numbers, as `usize` computes them below its width. */
module Bits {

  function Pow2(k: nat): (r: nat)
    ensures r > 0
  {
    if k == 0 then 1 else 2 * Pow2(k - 1)
  }

  /** `x >> k` */
  function Shr(x: nat, k: nat): nat {
    if k == 0 then x else Shr(x / 2, k - 1)
  }

  /** `a ^ b` */
  function Xor(a: nat, b: nat): nat {
    if a == 0 && b == 0 then 0
    else (if a % 2 == b % 2 then 0 else 1) + 2 * Xor(a / 2, b / 2)
  }

  /** `a | b` */
  function Or(a: nat, b: nat): nat {
    if a == 0 && b == 0 then 0
    else (if a % 2 == 0 && b % 2 == 0 then 0 else 1) + 2 * Or(a / 2, b / 2)
  }

  /** `a & !b` */
  function AndNot(a: nat, b: nat): nat {
    if a == 0 then 0
    else (if a % 2 == 1 && b % 2 == 0 then 1 else 0) + 2 * AndNot(a / 2, b / 2)
  }

  /** `x.ilog2()`, the position of the highest set bit. */
  function Ilog2(x: nat): (k: nat)
    requires x > 0
    ensures Pow2(k) <= x < Pow2(k + 1)
  {
    if x == 1 then 0 else 1 + Ilog2(x / 2)
  }

  lemma {:induction false} Pow2Monotone(j: nat, k: nat)
    requires j <= k
    ensures Pow2(j) <= Pow2(k)
  {
    if j < k { Pow2Monotone(j, k - 1); }
  }

  lemma {:induction false} XorSymmetric(a: nat, b: nat)
    ensures Xor(a, b) == Xor(b, a)
  {
    if a != 0 || b != 0 { XorSymmetric(a / 2, b / 2); }
  }

  lemma {:induction false} XorZero(a: nat, b: nat)
    ensures Xor(a, b) == 0 <==> a == b
  {
    if a != 0 || b != 0 { XorZero(a / 2, b / 2); }
  }

  /** The xor is 1 exactly for two numbers that differ in their last bit only. */
  lemma XorOne(a: nat, b: nat)
    ensures Xor(a, b) == 1 <==> a / 2 == b / 2 && a % 2 != b % 2
  {
    XorZero(a / 2, b / 2);
  }

  lemma {:induction false} XorShr(a: nat, b: nat, k: nat)
    ensures Shr(Xor(a, b), k) == Xor(Shr(a, k), Shr(b, k))
  {
    if k > 0 {
      assert Xor(a, b) / 2 == Xor(a / 2, b / 2);
      XorShr(a / 2, b / 2, k - 1);
    }
  }

  lemma DoubleProduct(q: nat, h: nat)
    ensures q * (2 * h) == 2 * (q * h)
  {}

  /** Shifting right by `k` names the aligned block of `2^k` numbers that holds `x`. */
  lemma {:induction false} ShrInterval(x: nat, k: nat, q: nat)
    ensures Shr(x, k) == q <==> q * Pow2(k) <= x < q * Pow2(k) + Pow2(k)
  {
    if k > 0 {
      ShrInterval(x / 2, k - 1, q);
      DoubleProduct(q, Pow2(k - 1));
    }
  }

  lemma {:induction false} ShrSplit(x: nat, k: nat)
    ensures Shr(x, k + 1) == Shr(x, k) / 2
  {
    if k > 0 { ShrSplit(x / 2, k - 1); }
  }

  /** Clearing or setting the `k` low bits gives the ends of that block. */
  lemma {:induction false} MaskLowBits(x: nat, k: nat)
    ensures AndNot(x, Pow2(k) - 1) == Shr(x, k) * Pow2(k)
    ensures Or(x, Pow2(k) - 1) == Shr(x, k) * Pow2(k) + Pow2(k) - 1
  {
    if k == 0 {
      AndNotZero(x);
    } else {
      MaskLowBits(x / 2, k - 1);
      var h, q := Pow2(k - 1), Shr(x / 2, k - 1);
      assert (2 * h - 1) / 2 == h - 1 && (2 * h - 1) % 2 == 1;
      DoubleProduct(q, h);
      assert AndNot(x, 2 * h - 1) == 2 * AndNot(x / 2, h - 1);
      assert Or(x, 2 * h - 1) == 1 + 2 * Or(x / 2, h - 1);
    }
  }

  lemma {:induction false} AndNotZero(x: nat)
    ensures AndNot(x, 0) == x && Or(x, 0) == x
  {
    if x > 0 { AndNotZero(x / 2); }
  }
}

/** The partition of the validators into levels, seen from one of them. */
module BinomialPartitioner {
  import opened Bits

  datatype PartitioningError = InvalidLevel(level: nat) | EmptyLevel(level: nat)

  datatype Identities = Ok(ids: set<nat>) | Err(error: PartitioningError)

  datatype Partitioner = Partitioner(nodeId: nat, numIds: nat, numLevels: nat) {

    ghost predicate Valid() {
      nodeId < numIds && this == New(nodeId, numIds)
    }

    /** The ids on `level`, computed with masks as the smallest and largest id of an aligned block. */
    function IdentitiesOn(level: nat): Identities
      requires numIds > 0
    {
      if level == 0 then
        Ok({nodeId})
      else if level >= numLevels then
        Err(InvalidLevel(level))
      else
        var m := Pow2(level - 1) - 1;
        var f := Pow2(level - 1);
        var low := AndNot(Xor(nodeId, f), m);
        var high := Min(Or(Xor(nodeId, f), m), numIds - 1);
        if low > high then Err(EmptyLevel(level)) else Ok(Range(low, high))
    }

    function LevelSize(level: nat): nat
      requires numIds > 0
    {
      match IdentitiesOn(level)
      case Ok(ids) => |ids|
      case Err(_) => 0
    }

    /** The ids whose xor with this node has its highest set bit at position `level - 1`. */
    ghost function Level(level: nat): set<nat> {
      set id: nat | id < numIds && OnLevel(nodeId, id, level)
    }

    /** The ids on this node's side of the tree below `level + 1`. */
    ghost function UpTo(level: nat): set<nat> {
      set id: nat | id < numIds && Xor(nodeId, id) < Pow2(level)
    }
  }

  function New(nodeId: nat, numIds: nat): Partitioner
    requires nodeId < numIds
  {
    Partitioner(nodeId, numIds, if numIds == 1 then 1 else Ilog2(numIds - 1) + 2)
  }

  /** The ids of the inclusive range `low..=high`. */
  function Range(low: nat, high: nat): set<nat> {
    set id: nat | id <= high && AtLeast(id, low)
  }

  predicate AtLeast(id: nat, low: nat) {
    low <= id
  }

  function Min(a: nat, b: nat): nat {
    if a < b then a else b
  }

  predicate OnLevel(a: nat, b: nat, level: nat) {
    if level == 0 then a == b else Pow2(level - 1) <= Xor(a, b) < Pow2(level)
  }

  // ---------- Level membership ----------

  lemma OnLevelBlocks(a: nat, b: nat, k: nat)
    ensures OnLevel(a, b, k + 1) <==> Shr(b, k) == Xor(Shr(a, k), 1)
    ensures OnLevel(a, b, k + 1) <==> Xor(Shr(a, k), Shr(b, k)) == 1
  {
    ShrInterval(Xor(a, b), k, 1);
    XorShr(a, b, k);
    XorOne(Shr(a, k), Shr(b, k));
    var q := Xor(Shr(a, k), 1);
    assert q / 2 == Shr(a, k) / 2 && q % 2 != Shr(a, k) % 2 by {
      XorZero(Shr(a, k) / 2, 0);
      AndNotXor(Shr(a, k));
    }
  }

  lemma AndNotXor(x: nat)
    ensures Xor(x, 1) == (if x % 2 == 0 then x + 1 else x - 1)
  {
    XorRightZero(x / 2);
  }

  lemma {:induction false} XorRightZero(x: nat)
    ensures Xor(x, 0) == x
  {
    if x > 0 { XorRightZero(x / 2); }
  }

  /** The masks of the source compute exactly the ids at the given xor distance. */
  lemma IdentitiesOnIsLevel(p: Partitioner, level: nat)
    requires p.numIds > 0 && p.nodeId < p.numIds
    ensures level < p.numLevels || level == 0 ==>
              match p.IdentitiesOn(level)
              case Ok(ids) => ids == p.Level(level) && ids != {}
              case Err(e) => e == EmptyLevel(level) && p.Level(level) == {} && level > 0
    ensures level >= p.numLevels && level > 0 ==> p.IdentitiesOn(level) == Err(InvalidLevel(level))
  {
    if level == 0 {
      assert p.nodeId in p.Level(0);
    } else if level < p.numLevels {
      var k := level - 1;
      var x := Xor(p.nodeId, Pow2(k));
      MaskLowBits(x, k);
      var q := Shr(x, k);
      assert q == Xor(Shr(p.nodeId, k), 1) by {
        XorShr(p.nodeId, Pow2(k), k);
        ShrInterval(Pow2(k), k, 1);
      }
      forall id: nat
        ensures OnLevel(p.nodeId, id, level) <==> q * Pow2(k) <= id <= q * Pow2(k) + Pow2(k) - 1
      {
        OnLevelBlocks(p.nodeId, id, k);
        ShrInterval(id, k, q);
      }
      var low, high := q * Pow2(k), Min(q * Pow2(k) + Pow2(k) - 1, p.numIds - 1);
      if low <= high {
        assert low in Range(low, high);
      }
    }
  }

  /** The only level of `b` as seen by `a`. */
  function LevelOf(a: nat, b: nat): nat {
    XorZero(a, b);
    if a == b then 0 else Ilog2(Xor(a, b)) + 1
  }

  /** Every id is on exactly one level, so the levels are disjoint and cover all ids. */
  lemma LevelOfIsUnique(a: nat, b: nat, level: nat)
    ensures OnLevel(a, b, level) <==> level == LevelOf(a, b)
  {
    XorZero(a, b);
    if a != b && level > 0 {
      var k := Ilog2(Xor(a, b));
      if level <= k { Pow2Monotone(level, k); }
      if level > k + 1 { Pow2Monotone(k + 1, level - 1); }
    }
  }

  /** Ids below `2^top` agree above bit `top`, so their xor is below `2^top` as well. */
  lemma XorBelow(a: nat, b: nat, top: nat)
    requires a < Pow2(top) && b < Pow2(top)
    ensures Xor(a, b) < Pow2(top)
  {
    ShrInterval(a, top, 0);
    ShrInterval(b, top, 0);
    XorShr(a, b, top);
    ShrInterval(Xor(a, b), top, 0);
  }

  lemma LevelOfInRange(p: Partitioner, id: nat)
    requires p.Valid() && id < p.numIds
    ensures LevelOf(p.nodeId, id) < p.numLevels && id in p.Level(LevelOf(p.nodeId, id))
  {
    LevelOfIsUnique(p.nodeId, id, LevelOf(p.nodeId, id));
    XorZero(p.nodeId, id);
    if id != p.nodeId {
      var top, k := p.numLevels - 1, Ilog2(Xor(p.nodeId, id));
      XorBelow(p.nodeId, id, top);
      if k >= top { Pow2Monotone(top, k); }
    }
  }

  lemma LevelsDisjoint(p: Partitioner, i: nat, j: nat)
    requires i != j
    ensures p.Level(i) !! p.Level(j)
  {
    forall id: nat | id in p.Level(i) ensures id !in p.Level(j) {
      LevelOfIsUnique(p.nodeId, id, i);
      LevelOfIsUnique(p.nodeId, id, j);
    }
  }

  lemma OnLevelSymmetric(a: nat, b: nat, level: nat)
    ensures OnLevel(a, b, level) <==> OnLevel(b, a, level)
  {
    XorSymmetric(a, b);
  }

  lemma UpToGrows(p: Partitioner, level: nat)
    ensures p.UpTo(level + 1) == p.UpTo(level) + p.Level(level + 1)
    ensures p.UpTo(level) !! p.Level(level + 1)
    ensures p.UpTo(0) == p.Level(0)
  {
    forall id: nat ensures Xor(p.nodeId, id) == 0 <==> id == p.nodeId {
      XorZero(p.nodeId, id);
    }
  }

  /** All levels up to `level` lie on this node's side of the tree. */
  lemma {:induction false} LevelInUpTo(p: Partitioner, i: nat, level: nat)
    requires i <= level
    ensures p.Level(i) <= p.UpTo(level)
  {
    if level > 0 {
      UpToGrows(p, level - 1);
      if i < level { LevelInUpTo(p, i, level - 1); }
    } else {
      UpToGrows(p, 0);
    }
  }

  lemma UpToLast(p: Partitioner)
    requires p.Valid()
    ensures p.UpTo(p.numLevels - 1) == Range(0, p.numIds - 1)
    ensures |p.UpTo(p.numLevels - 1)| == p.numIds
  {
    var all, last := Range(0, p.numIds - 1), p.numLevels - 1;
    forall id | id in all ensures id in p.UpTo(last) {
      LevelOfInRange(p, id);
      LevelInUpTo(p, LevelOf(p.nodeId, id), last);
    }
    assert p.UpTo(last) == all;
    RangeSize(p.numIds - 1);
  }

  lemma {:induction false} RangeSize(high: nat)
    ensures |Range(0, high)| == high + 1
  {
    if high == 0 {
      assert Range(0, 0) == {0};
    } else {
      RangeSize(high - 1);
      assert Range(0, high) == Range(0, high - 1) + {high};
    }
  }

  /** What a node has on its own side below a level is exactly what a peer on that level sees there. */
  lemma OppositeSides(a: Partitioner, b: Partitioner, level: nat)
    requires a.numIds == b.numIds
    requires level > 0 && OnLevel(a.nodeId, b.nodeId, level)
    ensures a.UpTo(level - 1) == b.Level(level)
  {
    var k := level - 1;
    OnLevelBlocks(a.nodeId, b.nodeId, k);
    forall id: nat ensures Xor(a.nodeId, id) < Pow2(k) <==> OnLevel(b.nodeId, id, level) {
      ShrInterval(Xor(a.nodeId, id), k, 0);
      XorShr(a.nodeId, id, k);
      XorZero(Shr(a.nodeId, k), Shr(id, k));
      OnLevelBlocks(b.nodeId, id, k);
      XorOne(Shr(a.nodeId, k), Shr(b.nodeId, k));
      XorOne(Shr(b.nodeId, k), Shr(id, k));
    }
  }

  lemma LevelSizeIsCardinality(p: Partitioner, level: nat)
    requires p.Valid()
    ensures p.LevelSize(level) == |p.Level(level)|
  {
    IdentitiesOnIsLevel(p, level);
    if level >= p.numLevels && p.Level(level) != {} {
      var id :| id in p.Level(level);
      LevelOfInRange(p, id);
      LevelOfIsUnique(p.nodeId, id, level);
    }
  }

  ghost function CountUpTo(p: Partitioner, level: int): nat
    requires level >= -1
  {
    if level < 0 then 0 else |p.UpTo(level)|
  }

  lemma CountStep(p: Partitioner, level: nat)
    requires p.Valid()
    ensures CountUpTo(p, level) == CountUpTo(p, level - 1) + p.LevelSize(level)
  {
    LevelSizeIsCardinality(p, level);
    if level == 0 { UpToGrows(p, 0); } else { UpToGrows(p, level - 1); }
  }

  /** Total number of ids up to `level`: those closer than `2^level` in xor distance. */
  method CumulativeLevelSize(p: Partitioner, level: nat) returns (size: nat)
    requires p.Valid()
    ensures size == |p.UpTo(level)|
  {
    size := 0;
    var lvl := 0;
    while lvl <= level
      invariant lvl <= level + 1
      invariant size == CountUpTo(p, lvl - 1)
    {
      CountStep(p, lvl);
      size := size + p.LevelSize(lvl);
      lvl := lvl + 1;
    }
  }
}
