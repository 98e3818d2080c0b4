/** A set of numbers, packed into words of 64 bits, with a cached count. */
module BitSet {

  const BITS := 64

  /** A word, lowest bit first. */
  type Word = w: seq<bool> | |w| == BITS witness seq(BITS, _ => false)

  function Zero(): Word { seq(BITS, _ => false) }

  const MAX_READABLE := 65536

  // ---------- The numbers in a sequence of words ----------

  /** The bit of a number: bit `v % 64` of word `v / 64`. Words that are not there count as zero. */
  predicate Get(store: seq<Word>, v: nat) {
    v / BITS < |store| && store[v / BITS][v % BITS]
  }

  ghost function Below(store: seq<Word>, n: nat): set<nat> {
    set v: nat | v < n && Get(store, v)
  }

  ghost function Elems(store: seq<Word>): set<nat> {
    Below(store, BITS * |store|)
  }

  lemma InElems(store: seq<Word>, v: nat)
    ensures v in Elems(store) <==> Get(store, v)
  {}

  lemma SameElems(a: seq<Word>, b: seq<Word>)
    ensures Elems(a) == Elems(b) <==> forall v: nat :: Get(a, v) == Get(b, v)
  {
    if Elems(a) == Elems(b) {
      forall v: nat ensures Get(a, v) == Get(b, v) { InElems(a, v); InElems(b, v); }
    }
    if forall v: nat :: Get(a, v) == Get(b, v) {
      forall v: nat ensures v in Elems(a) <==> v in Elems(b) { InElems(a, v); InElems(b, v); }
    }
  }

  // ---------- Counting ----------

  /** The number of ones among the lowest `j` bits. */
  function Ones(w: Word, j: nat): nat
    requires j <= BITS
  {
    if j == 0 then 0 else Ones(w, j - 1) + if w[j - 1] then 1 else 0
  }

  function CountOnes(w: Word): nat {
    Ones(w, |w|)
  }

  function Count(store: seq<Word>): nat {
    if store == [] then 0 else Count(store[..|store| - 1]) + CountOnes(store[|store| - 1])
  }

  lemma BelowStep(store: seq<Word>, n: nat)
    ensures Below(store, n + 1) == Below(store, n) + if Get(store, n) then {n} else {}
    ensures |Below(store, n + 1)| == |Below(store, n)| + if Get(store, n) then 1 else 0
  {}

  lemma {:induction false} BelowWord(store: seq<Word>, k: nat, j: nat)
    requires k < |store| && j <= BITS
    ensures |Below(store, BITS * k + j)| == |Below(store, BITS * k)| + Ones(store[k], j)
  {
    if j > 0 {
      BelowWord(store, k, j - 1);
      BelowStep(store, BITS * k + j - 1);
    }
  }

  lemma {:induction false} BelowPrefix(store: seq<Word>, k: nat)
    requires k <= |store|
    ensures |Below(store, BITS * k)| == Count(store[..k])
  {
    if k > 0 {
      BelowPrefix(store, k - 1);
      BelowWord(store, k - 1, |store[k - 1]|);
      assert store[..k][..k - 1] == store[..k - 1];
    } else {
      assert Below(store, 0) == {};
    }
  }

  /** The number of ones is the number of elements. */
  lemma CountIsCardinality(store: seq<Word>)
    ensures Count(store) == |Elems(store)|
  {
    BelowPrefix(store, |store|);
    assert store[..|store|] == store;
  }

  // ---------- Trailing zero words ----------

  predicate Compact(store: seq<Word>) {
    store == [] || store[|store| - 1] != Zero()
  }

  function Trimmed(store: seq<Word>): (r: seq<Word>)
    ensures Compact(r)
  {
    if Compact(store) then store else Trimmed(store[..|store| - 1])
  }

  lemma {:induction false} TrimmedKeepsElems(store: seq<Word>)
    ensures Elems(Trimmed(store)) == Elems(store)
  {
    if !Compact(store) {
      var init := store[..|store| - 1];
      TrimmedKeepsElems(init);
      forall v: nat ensures Get(init, v) == Get(store, v) {}
      SameElems(init, store);
    }
  }

  /** Without trailing zero words a set has one representation only. */
  lemma CompactIsCanonical(a: seq<Word>, b: seq<Word>)
    requires Compact(a) && Compact(b) && Elems(a) == Elems(b)
    ensures a == b
  {
    SameElems(a, b);
    SameLength(a, b);
    SameLength(b, a);
    forall i | 0 <= i < |a| ensures a[i] == b[i] {
      forall j | 0 <= j < BITS ensures a[i][j] == b[i][j] { assert Get(a, BITS * i + j) == Get(b, BITS * i + j); }
    }
  }

  lemma SameLength(a: seq<Word>, b: seq<Word>)
    requires Compact(a) && forall v: nat :: Get(a, v) == Get(b, v)
    ensures |a| <= |b|
  {
    if a != [] {
      var j := NonZeroBit(a[|a| - 1]);
      var v := BITS * (|a| - 1) + j;
      assert v / BITS == |a| - 1 && v % BITS == j;
      assert Get(a, v) == Get(b, v);
    }
  }

  lemma NonZeroBit(w: Word) returns (j: nat)
    requires w != Zero()
    ensures j < BITS && w[j]
  {
    assert (forall i | 0 <= i < BITS :: !w[i]) ==> w == Zero();
    j :| 0 <= j < BITS && w[j];
  }

  // ---------- Operations on words ----------

  datatype Op = And | Or | Xor {
    predicate On(a: bool, b: bool) {
      match this case And => a && b case Or => a || b case Xor => a != b
    }

    /** What the operation means for sets. */
    ghost function OnSets(a: set<nat>, b: set<nat>): set<nat> {
      match this case And => a * b case Or => a + b case Xor => (a - b) + (b - a)
    }

    function OnWords(a: Word, b: Word): Word {
      seq(BITS, i requires 0 <= i < BITS => On(a[i], b[i]))
    }
  }

  function WordAt(store: seq<Word>, i: nat): Word {
    if i < |store| then store[i] else Zero()
  }

  function Longer(a: seq<Word>, b: seq<Word>): nat {
    if |a| >= |b| then |a| else |b|
  }

  function Combined(a: seq<Word>, b: seq<Word>, op: Op): seq<Word> {
    seq(Longer(a, b), i requires 0 <= i => op.OnWords(WordAt(a, i), WordAt(b, i)))
  }

  /** Working on words is working on sets. */
  lemma CombinedIsSetOperation(a: seq<Word>, b: seq<Word>, op: Op)
    ensures Elems(Combined(a, b, op)) == op.OnSets(Elems(a), Elems(b))
  {
    var c := Combined(a, b, op);
    forall v: nat ensures v in Elems(c) <==> v in op.OnSets(Elems(a), Elems(b)) {
      InElems(a, v);
      InElems(b, v);
      InElems(c, v);
    }
  }

  /** Combines two sequences of words, the shorter of which is continued by zeros, and counts the ones. */
  method ApplyOp(a: seq<Word>, b: seq<Word>, op: Op) returns (store: seq<Word>, count: nat)
    ensures store == Combined(a, b, op) && count == Count(store)
  {
    store, count := [], 0;
    while |store| < |a| || |store| < |b|
      invariant |store| <= Longer(a, b) && store == Combined(a, b, op)[..|store|] && count == Count(store)
      decreases Longer(a, b) - |store|
    {
      var i := |store|;
      var x := op.OnWords(WordAt(a, i), WordAt(b, i));
      CountMore(store, x);
      assert Combined(a, b, op)[..i + 1] == Combined(a, b, op)[..i] + [x];
      store := store + [x];
      count := count + CountOnes(x);
    }
  }

  lemma CountMore(store: seq<Word>, w: Word)
    ensures Count(store + [w]) == Count(store) + CountOnes(w)
  {
    assert (store + [w])[..|store|] == store;
  }

  /** Whether the first sequence holds every element of the second. */
  method IsSuperset(a: seq<Word>, b: seq<Word>) returns (r: bool)
    ensures r <==> Elems(a) >= Elems(b)
  {
    var i := 0;
    while i < |a| || i < |b|
      invariant 0 <= i && forall k: nat | k < i :: Covers(WordAt(a, k), WordAt(b, k))
      decreases Longer(a, b) - i
    {
      if i >= |b| { break; }
      if !(if i < |a| then Op.And.OnWords(a[i], b[i]) == b[i] else b[i] == Zero()) {
        NotCovered(a, b, i);
        return false;
      }
      CoveredWord(WordAt(a, i), b[i]);
      i := i + 1;
    }
    AllCovered(a, b, i);
    return true;
  }

  predicate Covers(a: Word, b: Word) {
    forall j | 0 <= j < BITS :: b[j] ==> a[j]
  }

  lemma CoveredWord(a: Word, b: Word)
    ensures Covers(a, b) <==> Op.And.OnWords(a, b) == b
    ensures Covers(Zero(), b) <==> b == Zero()
  {
    if Covers(a, b) { assert Op.And.OnWords(a, b) == b; }
    if Op.And.OnWords(a, b) == b {
      forall j | 0 <= j < BITS && b[j] ensures a[j] { assert Op.And.OnWords(a, b)[j] == b[j]; }
    }
    if Covers(Zero(), b) { assert b == Zero(); }
  }

  lemma AllCovered(a: seq<Word>, b: seq<Word>, n: nat)
    requires |b| <= n && forall k: nat | k < n :: Covers(WordAt(a, k), WordAt(b, k))
    ensures Elems(a) >= Elems(b)
  {
    forall v | v in Elems(b) ensures v in Elems(a) {
      InElems(b, v);
      InElems(a, v);
      assert Covers(WordAt(a, v / BITS), WordAt(b, v / BITS));
    }
  }

  lemma NotCovered(a: seq<Word>, b: seq<Word>, i: nat)
    requires i < |b| && !(if i < |a| then Op.And.OnWords(a[i], b[i]) == b[i] else b[i] == Zero())
    ensures !(Elems(a) >= Elems(b))
  {
    CoveredWord(WordAt(a, i), b[i]);
    assert !Covers(WordAt(a, i), b[i]);
    var j :| 0 <= j < BITS && b[i][j] && !WordAt(a, i)[j];
    var v := BITS * i + j;
    assert v / BITS == i && v % BITS == j;
    InElems(a, v);
    InElems(b, v);
  }

  /** The number of common elements. */
  method IntersectionSize(a: seq<Word>, b: seq<Word>) returns (n: nat)
    ensures n == |Elems(a) * Elems(b)|
  {
    n := 0;
    ghost var both := Combined(a, b, And);
    for i := 0 to if |a| <= |b| then |a| else |b|
      invariant n == Count(both[..i])
    {
      var x := Op.And.OnWords(a[i], b[i]);
      CountMore(both[..i], x);
      assert both[..i + 1] == both[..i] + [x];
      n := n + CountOnes(x);
    }
    ghost var shorter := if |a| <= |b| then |a| else |b|;
    ZeroTail(both, shorter);
    CombinedIsSetOperation(a, b, And);
    CountIsCardinality(both);
  }

  lemma {:induction false} NoOnes(w: Word, j: nat)
    requires j <= BITS && forall i | 0 <= i < j :: !w[i]
    ensures Ones(w, j) == 0
  {
    if j > 0 { NoOnes(w, j - 1); }
  }

  lemma {:induction false} ZeroTail(store: seq<Word>, k: nat)
    requires k <= |store| && forall i | k <= i < |store| :: forall j | 0 <= j < BITS :: !store[i][j]
    ensures Count(store) == Count(store[..k])
    decreases |store|
  {
    if k < |store| {
      var init := store[..|store| - 1];
      NoOnes(store[|store| - 1], |store[|store| - 1]|);
      ZeroTail(init, k);
      assert init[..k] == store[..k];
    } else {
      assert store[..k] == store;
    }
  }

  /** Equality of sets, whatever zero words follow. */
  method Equal(a: seq<Word>, b: seq<Word>) returns (r: bool)
    ensures r <==> Elems(a) == Elems(b)
  {
    var i := 0;
    while i < |a| || i < |b|
      invariant 0 <= i && forall k: nat | k < i :: WordAt(a, k) == WordAt(b, k)
      decreases Longer(a, b) - i
    {
      if WordAt(a, i) != WordAt(b, i) {
        DifferentWord(a, b, i);
        return false;
      }
      i := i + 1;
    }
    forall v: nat ensures Get(a, v) == Get(b, v) {
      if v / BITS < i { assert WordAt(a, v / BITS) == WordAt(b, v / BITS); }
    }
    SameElems(a, b);
    return true;
  }

  lemma DifferentWord(a: seq<Word>, b: seq<Word>, i: nat)
    requires WordAt(a, i) != WordAt(b, i)
    ensures Elems(a) != Elems(b)
  {
    var x, y := WordAt(a, i), WordAt(b, i);
    assert (forall j | 0 <= j < BITS :: x[j] == y[j]) ==> x == y;
    var j :| 0 <= j < BITS && x[j] != y[j];
    var v := BITS * i + j;
    assert v / BITS == i && v % BITS == j;
    assert Get(a, v) == x[j] && Get(b, v) == y[j];
    SameElems(a, b);
  }

  // ---------- Changing one bit ----------

  /** The words with zeros added, so that there is one for number `v`. */
  function Extended(store: seq<Word>, v: nat): seq<Word> {
    if v / BITS < |store| then store else store + seq(v / BITS + 1 - |store|, _ => Zero())
  }

  function SetBit(store: seq<Word>, v: nat, bit: bool): seq<Word>
    requires v / BITS < |store|
  {
    store[v / BITS := store[v / BITS][v % BITS := bit]]
  }

  lemma ExtendedKeepsElems(store: seq<Word>, v: nat)
    ensures v / BITS < |Extended(store, v)| && Elems(Extended(store, v)) == Elems(store)
  {
    forall x: nat ensures Get(Extended(store, v), x) == Get(store, x) {}
    SameElems(Extended(store, v), store);
  }

  lemma SetBitIsSetOperation(store: seq<Word>, v: nat, bit: bool)
    requires v / BITS < |store|
    ensures Elems(SetBit(store, v, bit)) == if bit then Elems(store) + {v} else Elems(store) - {v}
  {
    var store' := SetBit(store, v, bit);
    forall x: nat ensures x in Elems(store') <==> if x == v then bit else x in Elems(store) {
      InElems(store, x);
      InElems(store', x);
      assert x / BITS == v / BITS && x % BITS == v % BITS ==> x == v;
    }
  }

  class BitSet {
    var store: seq<Word>
    var count: nat

    ghost function Model(): set<nat>
      reads this`store
    {
      Elems(store)
    }

    /** The cached count is the number of elements. */
    ghost predicate Valid()
      reads this
    {
      count == |Model()|
    }

    constructor ()
      ensures Valid() && Model() == {}
    {
      store, count := [], 0;
    }

    predicate Contains(v: nat): (r: bool)
      reads this`store
      ensures r <==> v in Model()
    {
      InElems(store, v);
      Get(store, v)
    }

    method Insert(v: nat)
      requires Valid()
      modifies this
      ensures Valid() && Model() == old(Model()) + {v}
    {
      ExtendedKeepsElems(store, v);
      store := Extended(store, v);
      InElems(store, v);
      SetBitIsSetOperation(store, v, true);
      if !store[v / BITS][v % BITS] { count := count + 1; }
      store := SetBit(store, v, true);
    }

    method Remove(v: nat)
      requires Valid()
      modifies this
      ensures Valid() && Model() == old(Model()) - {v} && Compact(store)
    {
      InElems(store, v);
      if v / BITS < |store| {
        SetBitIsSetOperation(store, v, false);
        if store[v / BITS][v % BITS] { count := count - 1; }
        store := SetBit(store, v, false);
      }
      Shrink();
    }

    /** Removes trailing zero words. */
    method Shrink()
      modifies `store
      ensures store == Trimmed(old(store)) && Model() == old(Model())
    {
      TrimmedKeepsElems(store);
      while store != [] && store[|store| - 1] == Zero()
        invariant Trimmed(store) == Trimmed(old(store))
        decreases |store|
      {
        store := store[..|store| - 1];
      }
    }

    /** Combines the words with others in place, appends the new ones, and counts the ones. */
    method CombineInPlace(other: seq<Word>, op: Op, ghost combined: seq<Word>) returns (counted: nat)
      requires |combined| == Longer(store, other)
      requires forall i | 0 <= i < |combined| :: combined[i] == op.OnWords(WordAt(store, i), WordAt(other, i))
      modifies `store
      ensures store == combined && counted == Count(combined)
    {
      ghost var before := store;
      var new', i := [], 0;
      counted := 0;
      while i < |store| || i < |other|
        invariant 0 <= i <= |combined| && |store| == |before| && counted == Count(combined[..i])
        invariant store == InPlace(before, combined, i) && new' == Appended(before, combined, i)
        decreases |combined| - i
      {
        InPlaceStep(before, combined, i);
        CountMore(combined[..i], combined[i]);
        if i < |store| {
          store := store[i := op.OnWords(store[i], WordAt(other, i))];
          counted := counted + CountOnes(store[i]);
        } else {
          var x := op.OnWords(Zero(), other[i]);
          new' := new' + [x];
          counted := counted + CountOnes(x);
        }
        i := i + 1;
      }
      assert combined[..i] == combined;
      InPlaceDone(before, combined);
      store := store + new';
    }

    /** Combines this set with another one in place. */
    method ApplyOpAssign(other: seq<Word>, op: Op)
      modifies this
      ensures Valid() && store == Trimmed(Combined(old(store), other, op))
      ensures Model() == op.OnSets(old(Model()), Elems(other))
    {
      count := CombineInPlace(other, op, Combined(store, other, op));
      CombinedIsSetOperation(old(store), other, op);
      CountIsCardinality(store);
      Shrink();
    }
  }

  /** The words of a store, the first `i` of which are combined. */
  function InPlace(store: seq<Word>, combined: seq<Word>, i: nat): seq<Word>
    requires i <= |combined| && |store| <= |combined|
  {
    if i <= |store| then combined[..i] + store[i..] else combined[..|store|]
  }

  /** The combined words up to `i` beyond the store. */
  function Appended(store: seq<Word>, combined: seq<Word>, i: nat): seq<Word>
    requires i <= |combined| && |store| <= |combined|
  {
    if i <= |store| then [] else combined[|store|..i]
  }

  lemma InPlaceDone(store: seq<Word>, combined: seq<Word>)
    requires |store| <= |combined|
    ensures InPlace(store, combined, |combined|) + Appended(store, combined, |combined|) == combined
  {}

  lemma InPlaceStep(store: seq<Word>, combined: seq<Word>, i: nat)
    requires i < |combined| && |store| <= |combined|
    ensures i < |store| ==> InPlace(store, combined, i)[i] == store[i]
    ensures i < |store| ==> InPlace(store, combined, i + 1) == InPlace(store, combined, i)[i := combined[i]]
    ensures i < |store| ==> Appended(store, combined, i + 1) == Appended(store, combined, i)
    ensures i >= |store| ==> InPlace(store, combined, i + 1) == InPlace(store, combined, i)
    ensures i >= |store| ==> Appended(store, combined, i + 1) == Appended(store, combined, i) + [combined[i]]
    ensures combined[..i + 1] == combined[..i] + [combined[i]]
  {}

  /** Combines two sets into a new one. */
  method Combine(a: BitSet, b: BitSet, op: Op) returns (r: BitSet)
    ensures fresh(r) && r.Valid() && r.store == Trimmed(Combined(a.store, b.store, op))
    ensures r.Model() == op.OnSets(a.Model(), b.Model())
  {
    var store, count := ApplyOp(a.store, b.store, op);
    CombinedIsSetOperation(a.store, b.store, op);
    CountIsCardinality(store);
    r := new BitSet();
    r.store, r.count := store, count;
    r.Shrink();
  }

  // ---------- Serialization ----------

  /** The elements in ascending order. */
  method WriteList(store: seq<Word>) returns (list: seq<nat>)
    ensures Ascending(list) && (forall v :: v in list <==> v in Elems(store))
  {
    list := [];
    for v := 0 to BITS * |store|
      invariant Ascending(list) && (forall x :: x in list <==> x in Below(store, v)) && forall x | x in list :: x < v
    {
      BelowStep(store, v);
      AscendingMore(list, v);
      if Get(store, v) { list := list + [v]; }
    }
  }

  predicate Ascending(list: seq<nat>) {
    forall i, j | 0 <= i < j < |list| :: list[i] < list[j]
  }

  lemma AscendingMore(list: seq<nat>, v: nat)
    requires Ascending(list) && forall x | x in list :: x < v
    ensures Ascending(list + [v])
  {
    forall i | 0 <= i < |list| ensures list[i] < v { assert list[i] in list; }
  }

  predicate Distinct(list: seq<nat>) {
    forall i, j | 0 <= i < j < |list| :: list[i] != list[j]
  }

  datatype ReadResult = Ok(bits: BitSet) | TooLarge(value: nat) | Duplicate(value: nat)

  /** Reads a list of elements, which must be distinct and not too large. */
  method ReadList(list: seq<nat>) returns (r: ReadResult)
    ensures r.Ok? <==> Distinct(list) && forall v | v in list :: v <= MAX_READABLE
    ensures r.Ok? ==> fresh(r.bits) && r.bits.Valid() && forall v :: v in r.bits.Model() <==> v in list
    ensures r.TooLarge? ==> r.value in list && r.value > MAX_READABLE
    ensures r.Duplicate? ==> r.value in list
  {
    var bits := new BitSet();
    for i := 0 to |list|
      invariant fresh(bits) && bits.Valid() && (forall v :: v in bits.Model() <==> v in list[..i])
      invariant Distinct(list[..i]) && forall v | v in list[..i] :: v <= MAX_READABLE
    {
      var v := list[i];
      assert v in list;
      if v > MAX_READABLE { return TooLarge(v); }
      if bits.Contains(v) {
        var k :| 0 <= k < i && list[k] == v;
        return Duplicate(v);
      }
      bits.Insert(v);
      assert list[..i + 1] == list[..i] + [v];
    }
    assert list[..|list|] == list;
    r := Ok(bits);
  }

  /** Reads words as they are, and counts their ones. */
  method ReadWords(words: seq<Word>) returns (r: BitSet)
    ensures fresh(r) && r.Valid() && r.store == words
  {
    var store, count := [], 0;
    for i := 0 to |words|
      invariant store == words[..i] && count == Count(store)
    {
      CountMore(store, words[i]);
      assert words[..i + 1] == words[..i] + [words[i]];
      store, count := store + [words[i]], count + CountOnes(words[i]);
    }
    assert words[..|words|] == words;
    CountIsCardinality(words);
    r := new BitSet();
    r.store, r.count := store, count;
  }

  /** The binary form of a set reads back as it was. */
  method BinaryRoundTrip(bits: BitSet) returns (r: BitSet)
    requires bits.Valid()
    ensures r.Valid() && r.store == bits.store && r.count == bits.count
  {
    r := ReadWords(bits.store);
  }

  /** The readable form reads back as the same set if and only if its elements are not too large. */
  method ReadableRoundTrip(bits: BitSet) returns (r: ReadResult)
    requires bits.Valid()
    ensures r.Ok? <==> forall v | v in bits.Model() :: v <= MAX_READABLE
    ensures r.Ok? ==> r.bits.Valid() && r.bits.Model() == bits.Model() && r.bits.count == bits.count
  {
    var list := WriteList(bits.store);
    assert Distinct(list);
    r := ReadList(list);
    assert forall v :: v in list <==> v in bits.Model();
    if r.Ok? { assert r.bits.Model() == bits.Model(); }
  }
}
