/** The light client's chain: ordering, extension, rebranching, finality and pruning. */
module LightBlockchain {
  import opened Policies
  import opened BlockTree
  import opened ChainState
  import opened Wrappers

  datatype Order = Extends | Superior | Inferior | Unknown

  /** At the first difference the head `v` has the skip block, the other word `w` has none. */
  predicate BehindAt(v: seq<bool>, w: seq<bool>, i: nat) {
    i < |v| && i < |w| && v[..i] == w[..i] && v[i] && !w[i]
  }

  ghost predicate Behind(v: seq<bool>, w: seq<bool>) {
    exists i: nat :: BehindAt(v, w, i)
  }

  predicate MacroAbove(head: Block, b: Block) {
    b.IsMacro() && b.number > head.number
  }

  /** How the chain of `b` compares to that of `head`, by the skip words above height `m`. */
  ghost predicate Ordered(order: Order, head: Block, m: nat, b: Block) {
    var v, w := Word(head, m), Word(b, m);
    match order
    case Extends => b.Child? && b.parent == head
    case Superior => !(b.Child? && b.parent == head) && (MacroAbove(head, b) || Less(v, w))
    case Inferior => !(b.Child? && b.parent == head) && !MacroAbove(head, b) && Behind(v, w)
    case Unknown => !(b.Child? && b.parent == head) && !MacroAbove(head, b) && w <= v
  }

  predicate Agree(v: seq<bool>, w: seq<bool>, i: int) {
    0 <= i <= |v| && i <= |w| && v[..i] == w[..i]
  }

  /** The skip flags of a fork, newest first, and the height of its first block off the main chain. */
  datatype Fork = Fork(flags: seq<bool>, start: nat)

  /** The outcome of comparing the word `w` of a fork to the word `v` of the head. */
  ghost predicate Compared(order: Order, v: seq<bool>, w: seq<bool>) {
    match order
    case Extends => false
    case Superior => Less(v, w)
    case Inferior => Behind(v, w)
    case Unknown => w <= v
  }

  lemma BehindIsLess(v: seq<bool>, w: seq<bool>)
    requires Behind(v, w)
    ensures !Less(v, w) && !(w <= v)
  {
    var i: nat :| BehindAt(v, w, i);
    forall j: nat ensures !LessAt(v, w, j) {
      assert j < i ==> v[..i][j] == v[j] && w[..i][j] == w[j];
      assert i < j <= |v| && j <= |w| ==> v[..j][i] == v[i] && w[..j][i] == w[i];
    }
  }

  lemma ComparedIsNoPrefix(order: Order, v: seq<bool>, w: seq<bool>)
    requires Compared(order, v, w) && (order.Superior? || order.Inferior?)
    ensures !(w <= v)
  {
    if order.Superior? {
      if w <= v { PrefixIsNotLess(v, w); }
    } else {
      BehindIsLess(v, w);
    }
  }

  lemma PrefixIsNotLess(v: seq<bool>, w: seq<bool>)
    requires w <= v
    ensures !Less(v, w)
  {}

  /** `flags` are the last flags of a word, newest first. */
  predicate Newest(flags: seq<bool>, w: seq<bool>) {
    |flags| <= |w| && forall i | 0 <= i < |flags| :: flags[i] == w[|w| - 1 - i]
  }

  lemma NewestPush(flags: seq<bool>, w: seq<bool>, flag: bool)
    requires Newest(flags, w) && |flags| < |w| && flag == w[|w| - 1 - |flags|]
    ensures Newest(flags + [flag], w)
  {}

  lemma NewestPop(flags: seq<bool>, w: seq<bool>)
    requires Newest(flags, w) && |flags| > 0
    ensures flags[|flags| - 1] == w[|w| - |flags|] && Newest(flags[..|flags| - 1], w)
  {}

  /** The first difference decides. */
  lemma Decide(v: seq<bool>, w: seq<bool>, i: nat)
    requires i < |v| && i < |w| && Agree(v, w, i)
    ensures w[i] && !v[i] ==> Less(v, w)
    ensures !w[i] && v[i] ==> Behind(v, w)
    ensures w[i] == v[i] ==> Agree(v, w, i + 1)
  {
    assert v[..i + 1] == v[..i] + [v[i]] && w[..i + 1] == w[..i] + [w[i]];
    assert w[i] && !v[i] ==> LessAt(v, w, i);
    assert !w[i] && v[i] ==> BehindAt(v, w, i);
  }

  /** Without a difference the longer one is better. */
  lemma DecideByLength(v: seq<bool>, w: seq<bool>, i: nat)
    requires Agree(v, w, i) && (i == |v| || i == |w|)
    ensures |v| < |w| ==> Less(v, w)
    ensures |v| >= |w| ==> w <= v
  {
    if |v| < |w| { assert LessAt(v, w, i); }
    if i == |w| { assert w == w[..i]; }
  }

  /** Some order applies. */
  lemma OrderExists(head: Block, m: nat, b: Block) returns (order: Order)
    ensures Ordered(order, head, m, b)
  {
    var v, w := Word(head, m), Word(b, m);
    LessTotal(v, w, 0);
    if b.Child? && b.parent == head { return Extends; }
    if MacroAbove(head, b) || Less(v, w) { return Superior; }
    if w <= v { return Unknown; }
    var i: nat :| LessAt(w, v, i);
    assert BehindAt(v, w, i);
    return Inferior;
  }

  /** No other order applies. */
  lemma OrderIsUnique(order: Order, other: Order, head: Block, m: nat, b: Block)
    requires Ordered(order, head, m, b) && Ordered(other, head, m, b)
    ensures order == other
  {
    var v, w := Word(head, m), Word(b, m);
    if Behind(v, w) { BehindIsLess(v, w); }
    if w <= v { PrefixIsNotLess(v, w); }
  }

  function Lesser(x: int, y: int): int {
    if x <= y then x else y
  }

  /** Everything stored is below a macro block above the macro head. */
  lemma BelowNextMacro(p: Policy, stored: set<Block>, head: Block, macroHead: Block, b: Block)
    requires Tree(p, stored, head, macroHead) && p.MacroAt(b.number) && b.number > macroHead.number
    ensures forall c | c in stored :: p.genesis <= c.number < b.number
  {
    NextMacro(p, macroHead.number, b.number);
    forall c | c in stored ensures c.number < b.number {
      assert c.number > macroHead.number ==> Attached(p, stored, macroHead, c);
    }
  }

  /** `Aborted` stands for a panic. */
  datatype PushResult = Known | Extended | Rebranched | Forked | Ignored | Orphan | InvalidBlock | Aborted

  function ResultOf(order: Order): PushResult {
    match order
    case Extends => Extended
    case Superior => Rebranched
    case Inferior => Ignored
    case Unknown => Forked
  }

  /** A macro block that fits is never put on a fork, and a block put on a fork is not better than the head. */
  lemma OrderedFork(p: Policy, stored: set<Block>, head: Block, macroHead: Block, b: Block, order: Order)
    requires Tree(p, stored, head, macroHead) && b.Child? && b.parent in stored && b.number == b.parent.number + 1
    requires b.number > macroHead.number && (p.MacroAt(b.number) <==> b.IsMacro())
    requires Ordered(order, head, macroHead.number, b)
    ensures order.Superior? ==> b.IsMacro() || Less(Word(head, macroHead.number), Word(b, macroHead.number))
    ensures order.Inferior? || order.Unknown? ==>
              !b.IsMacro() && !Less(Word(head, macroHead.number), Word(b, macroHead.number))
    ensures !b.IsMacro() ==> Attached(p, stored, macroHead, b)
  {
    SuccessorHeight(p, stored, head, macroHead, b);
    var v, w := Word(head, macroHead.number), Word(b, macroHead.number);
    if order.Inferior? { BehindIsLess(v, w); }
    if order.Unknown? { PrefixIsNotLess(v, w); }
  }

  /** An adopted block outranks the head. */
  lemma InsertOutranks(p: Policy, stored: set<Block>, head: Block, macroHead: Block, b: Block, order: Order)
    requires Tree(p, stored, head, macroHead) && b.Child? && b.parent in stored && b.number == b.parent.number + 1
    requires b.number > macroHead.number && (p.MacroAt(b.number) <==> b.IsMacro())
    requires Ordered(order, head, macroHead.number, b)
    ensures head.number >= p.genesis && b.number >= p.genesis
    ensures order.Extends? || order.Superior? ==> Outranks(p, b, head)
  {
    OrderedFork(p, stored, head, macroHead, b, order);
    StoredInBatch(p, stored, head, macroHead, head);
    MacroFromGenesis(p, macroHead.number);
    if order.Extends? || order.Superior? {
      if b.IsMacro() {
        MacroOutranks(p, stored, head, macroHead, b);
      } else {
        if order.Extends? { ChildIsBetter(b, macroHead.number); }
        BetterOutranks(p, stored, head, macroHead, b);
      }
    }
  }

  /** Where the fork leaves the main chain, the skip words agree. */
  lemma ForkPoint(head: Block, m: nat, b: Block, a: nat)
    requires Linked(head, m) && b.Child? && b.number > m && Linked(b.parent, m) && m <= a <= b.parent.number
    requires OnPath(At(b.parent, a), head)
    ensures |Word(head, m)| == head.number - m && |Word(b, m)| == b.parent.number + 1 - m
    ensures a <= head.number && Agree(Word(head, m), Word(b, m), a - m)
  {
    AtHeight(b.parent, m, a);
    OnPathBelow(At(b.parent, a), head, m);
    WordAt(head, m, a);
    WordAt(b.parent, m, a);
  }

  // ---------- Pushing, on values ----------

  datatype Event =
    | BlockPushed(block: Block, verified: bool)
    | MacroPushed(block: Block, verified: bool)
    | ElectionPushed(block: Block, verified: bool)

  /** The stored blocks and the heads. */
  datatype View = ChainView(stored: set<Block>, head: Block, macroHead: Block, electionHead: Block)

  /** The type of the block fits its height, and a macro block goes no further than the next election block. */
  predicate Acceptable(p: Policy, macroHead: Block, b: Block)
    requires p.Valid() && macroHead.number >= p.genesis
  {
    && (p.MacroAt(b.number) <==> b.IsMacro())
    && (b.IsMacro() ==> b.number <= p.LastElection(macroHead.number) + p.blocksPerEpoch)
  }

  /** `b` is new, its parent is stored and it passes the checks modelled here. */
  ghost predicate Fitting(p: Policy, stored: set<Block>, macroHead: Block, b: Block)
    requires p.Valid() && macroHead.number >= p.genesis
  {
    && b !in stored && b.Child? && b.parent in stored && b.number == b.parent.number + 1
    && b.number > macroHead.number && Acceptable(p, macroHead, b)
  }

  /** Why a block is not added, by the first check that fails. */
  ghost function Refusal(s: View, b: Block): PushResult {
    if b.number <= s.macroHead.number then Ignored
    else if b in s.stored then Known
    else if !b.Child? || b.parent !in s.stored then Orphan
    else InvalidBlock
  }

  /** The block is stored, and the head is moved to it if it is adopted. */
  ghost function Added(p: Policy, s: View, b: Block, adopted: bool): View
    requires p.Valid()
  {
    ChainView(After(p, s.stored, b), if adopted then b else s.head,
              if adopted && b.IsMacro() then b else s.macroHead,
              if adopted && b.IsMacro() && p.ElectionAt(b.number) then b else s.electionHead)
  }

  /** A macro block whose predecessors need not be known is taken over exactly if it is new and `valid`. */
  ghost predicate TakenOver(p: Policy, s: View, b: Block, valid: bool, r: PushResult, s': View)
    requires p.Valid()
  {
    && r == (if b in s.stored then Known
             else if b.number <= s.macroHead.number then Ignored
             else if valid then Extended
             else InvalidBlock)
    && s' == (if r.Extended? then Added(p, s, b, true) else s)
  }

  /** What an event does to the chain. The source panics on some blocks with a wrong number. */
  ghost predicate Pushed(p: Policy, e: Event, s: View, r: PushResult, s': View)
    requires p.Valid() && s.macroHead.number >= p.genesis
  {
    match e
    case BlockPushed(b, verified) =>
      if verified && Fitting(p, s.stored, s.macroHead, b) then
        && (exists order :: Ordered(order, s.head, s.macroHead.number, b) && r == ResultOf(order))
        && s' == Added(p, s, b, r.Extended? || r.Rebranched?)
      else
        s' == s && (r.Aborted? || r == Refusal(s, b))
    case MacroPushed(b, verified) => TakenOver(p, s, b, verified && Acceptable(p, s.macroHead, b), r, s')
    case ElectionPushed(b, verified) => TakenOver(p, s, b, verified && p.MacroAt(b.number), r, s')
  }

  lemma InsertedIsPushed(p: Policy, s: View, b: Block, order: Order, s': View)
    requires p.Valid() && s.macroHead.number >= p.genesis && Fitting(p, s.stored, s.macroHead, b)
    requires Ordered(order, s.head, s.macroHead.number, b)
    requires s' == Added(p, s, b, order.Extends? || order.Superior?)
    ensures Pushed(p, BlockPushed(b, true), s, ResultOf(order), s')
  {}

  /** Each block is followed by its parent. */
  predicate Descent(blocks: seq<Block>) {
    forall i | 0 < i < |blocks| :: ParentAt(blocks, i)
  }

  predicate ParentAt(blocks: seq<Block>, i: nat)
    requires 0 < i < |blocks|
  {
    blocks[i - 1].Child? && blocks[i] == blocks[i - 1].parent
  }

  lemma DescentStep(blocks: seq<Block>, b: Block)
    requires Descent(blocks) && |blocks| > 0 && blocks[|blocks| - 1].Child? && b == blocks[|blocks| - 1].parent
    ensures Descent(blocks + [b])
  {
    forall i | 0 < i < |blocks| ensures ParentAt(blocks + [b], i) { assert ParentAt(blocks, i); }
  }

  /** The flags on the stack continue the words up to height `h`, where they agree. */
  ghost predicate Comparing(v: seq<bool>, w: seq<bool>, m: nat, h: nat, stack: seq<bool>) {
    m < h && |w| == h - 1 - m + |stack| && Newest(stack, w) && Agree(v, w, h - 1 - m)
  }

  lemma PopFlag(v: seq<bool>, w: seq<bool>, m: nat, h: nat, stack: seq<bool>)
    requires Comparing(v, w, m, h, stack) && |stack| > 0
    ensures stack[|stack| - 1] == w[h - 1 - m]
    ensures Agree(v, w, h - m) ==> Comparing(v, w, m, h + 1, stack[..|stack| - 1])
  {
    NewestPop(stack, w);
  }

  lemma FlagsRunOut(v: seq<bool>, w: seq<bool>, m: nat, h: nat)
    requires Comparing(v, w, m, h, [])
    ensures w <= v && |w| == h - 1 - m
  {
    assert w == w[..|w|];
  }

  lemma OneFlag(v: seq<bool>, m: nat, h: nat, skip: bool)
    requires m < h <= m + |v|
    ensures Comparing(v, v[..h - 1 - m] + [skip], m, h, [skip])
  {}

  /** A block that continues a main chain block differs from the main chain in its own flag at most. */
  lemma LastFlag(head: Block, m: nat, b: Block)
    requires Linked(head, m) && b.Child? && b.number == b.parent.number + 1 > m && Linked(b.parent, m)
    requires OnPath(b.parent, head)
    ensures |Word(b, m)| == b.number - m && Comparing(Word(head, m), Word(b, m), m, b.number, [b.IsSkip()])
  {
    ForkPoint(head, m, b, b.number - 1);
  }

  /** The walk down a fork has come to `b`. */
  ghost predicate Walked(block: Block, m: nat, b: Block, flags: seq<bool>)
    requires block.Child?
  {
    && block.number > m && Linked(block.parent, m) && m < b.number <= block.parent.number
    && b == At(block.parent, b.number) && |flags| == block.parent.number + 2 - b.number
    && |Word(block, m)| == block.parent.number + 1 - m && Newest(flags, Word(block, m))
  }

  lemma WalkStart(block: Block, m: nat)
    requires block.Child? && block.number > m && Linked(block.parent, m) && block.parent.number > m
    ensures Walked(block, m, block.parent, [block.IsSkip(), block.parent.IsSkip()])
  {
    WordLength(block.parent, m);
    WordAt(block.parent, m, block.parent.number);
  }

  lemma WalkStep(block: Block, m: nat, b: Block, flags: seq<bool>)
    requires block.Child? && Walked(block, m, b, flags) && b.number > m + 1
    ensures b.Child? && Walked(block, m, b.parent, flags + [b.parent.IsSkip()])
  {
    AtHeight(block.parent, m, b.number - 1);
    WordAt(block.parent, m, b.number - 1);
    NewestPush(flags, Word(block, m), b.parent.IsSkip());
  }

  /** Where the walk meets the main chain, the words have agreed so far. */
  lemma WalkEnd(block: Block, m: nat, b: Block, flags: seq<bool>, head: Block)
    requires block.Child? && Walked(block, m, b, flags) && Linked(head, m) && b.Child? && OnPath(b.parent, head)
    ensures |Word(head, m)| == head.number - m && b.number <= head.number + 1
    ensures Comparing(Word(head, m), Word(block, m), m, b.number, flags)
  {
    var n := b.number - 1;
    assert At(block.parent, n) == b.parent by { AtHeight(block.parent, m, n); }
    ForkPoint(head, m, block, n);
  }

  class LightBlockchain {
    const policy: Policy
    const genesis: Block
    var db: ChainDb
    var heights: HeightIndex
    var elections: map<nat, Block>
    var head: Block
    var macroHead: Block
    var electionHead: Block

    ghost function View(): View
      reads this`db, this`head, this`macroHead, this`electionHead
    {
      ChainView(db.Keys, head, macroHead, electionHead)
    }

    ghost predicate Consistent()
      reads this`db, this`heights
    {
      Indexed(db, heights)
    }

    ghost predicate Chained()
      reads this`db, this`head, this`macroHead
    {
      Tree(policy, db.Keys, head, macroHead) && Flags(db, head, macroHead.number)
    }

    ghost predicate Maximal()
      reads this`db, this`head, this`macroHead
    {
      Best(db.Keys, head, macroHead.number)
    }

    ghost predicate ElectionsKept()
      requires policy.Valid() && macroHead.number >= policy.genesis
      reads this`elections, this`electionHead, this`macroHead
    {
      Elected(policy, elections, electionHead, genesis, macroHead.number)
    }

    ghost predicate Valid()
      reads this
    {
      && genesis.IsMacro() && genesis.number == policy.genesis
      && Consistent() && Chained() && Maximal() && ElectionsKept()
    }

    constructor (policy: Policy, genesis: Block)
      requires policy.Valid() && genesis.IsMacro() && genesis.number == policy.genesis
      ensures Valid() && head == macroHead == electionHead == genesis == this.genesis && this.policy == policy
      ensures db.Keys == {genesis}
    {
      GenesisIsSound(policy, genesis);
      this.policy := policy;
      this.genesis := genesis;
      db := map[genesis := ChainInfo(genesis, true, None)];
      heights := map[genesis.number := [genesis]];
      elections := map[];
      head := genesis;
      macroHead := genesis;
      electionHead := genesis;
    }

    // ---------- The chain store ----------

    method PutChainInfo(info: ChainInfo)
      requires Consistent()
      modifies `db, `heights
      ensures Consistent() && db == old(db)[info.head := info]
    {
      var b := info.head;
      if b !in db {
        var there := if b.number in heights then heights[b.number] else [];
        heights := heights[b.number := there + [b]];
      }
      db := db[b := info];
    }

    /** The stored block at a height that is on the main chain. */
    method GetChainInfoAt(n: nat) returns (r: Option<ChainInfo>)
      requires Consistent()
      ensures r.Some? ==> r.value.head in db && db[r.value.head] == r.value
      ensures r.Some? ==> r.value.head.number == n && r.value.onMain
      ensures r.None? ==> forall b | b in db && b.number == n :: !db[b].onMain
    {
      if n !in heights { return None; }
      var hashes := heights[n];
      for i := 0 to |hashes|
        invariant forall j | 0 <= j < i :: !db[hashes[j]].onMain
      {
        var info := db[hashes[i]];
        if info.onMain { return Some(info); }
      }
      return None;
    }

    /** Between macro head and head, the main chain has one block at each height. */
    method GetBlockAt(n: nat) returns (b: Block)
      requires Consistent() && Chained() && macroHead.number <= n <= head.number
      ensures b == At(head, n) && b in db && b.number == n
    {
      AncestorStored(policy, db.Keys, head, macroHead, head, n);
      var r := GetChainInfoAt(n);
      b := r.value.head;
    }

    method PruneBlocks(current: nat)
      requires policy.Valid() && Consistent() && UpTo(policy, db, current)
      modifies `db, `heights
      ensures Consistent() && db == Pruned(policy, old(db), current)
    {
      HeightsUpTo(policy, db, heights, current);
      heights := map n | n in heights && Retained(policy, current, n) :: heights[n];
      db := map b | b in db && Retained(policy, current, db[b].head.number) :: db[b];
      PruningKeepsIndex(policy, old(db), old(heights), db, heights, current);
    }

    /** Removes old blocks: a batch behind the current height, or an epoch behind for election blocks. */
    method ClearOldBlocks(current: nat)
      requires policy.Valid() && Consistent() && UpTo(policy, db, current)
      requires ElectionsUpTo(policy, elections, current)
      modifies `db, `heights, `elections
      ensures Consistent() && db == Pruned(policy, old(db), current)
      ensures elections == PrunedElections(policy, old(elections), current)
    {
      PruneBlocks(current);
      elections := map e | e in elections && Retained(policy, current, elections[e].number) :: elections[e];
    }

    // ---------- Ordering ----------

    /** The chain info of the parent of a stored block off the main chain. */
    method Predecessor(info: ChainInfo) returns (prev: ChainInfo)
      requires Chained() && info.head in db && db[info.head] == info
      requires info.head.number >= macroHead.number && !info.onMain
      ensures info.head.Child? && prev.head == info.head.parent && prev.head in db && db[prev.head] == prev
      ensures info.head.number == prev.head.number + 1 && prev.head.number >= macroHead.number
    {
      StoredLinked(policy, db.Keys, head, macroHead, head);
      assert Attached(policy, db.Keys, macroHead, info.head);
      prev := db[info.head.parent];
    }

    lemma ForkLinked(block: Block)
      requires Chained() && block.Child? && block.parent in db && block.parent.number >= macroHead.number
      ensures Linked(block.parent, macroHead.number) && Linked(head, macroHead.number)
      ensures |Word(head, macroHead.number)| == head.number - macroHead.number
      ensures block.number > macroHead.number ==>
                |Word(block, macroHead.number)| == block.parent.number + 1 - macroHead.number
    {
      StoredLinked(policy, db.Keys, head, macroHead, block.parent);
      StoredLinked(policy, db.Keys, head, macroHead, head);
      WordLength(block.parent, macroHead.number);
      WordLength(head, macroHead.number);
    }

    /** The stored parent, if there is one. */
    function Below(info: ChainInfo): Option<ChainInfo>
      reads this`db
    {
      if info.head.Child? && info.head.parent in db then Some(db[info.head.parent]) else None
    }

    /** The walk of a fork whose blocks are above the macro head. */
    ghost predicate Walking(block: Block, info: ChainInfo, flags: seq<bool>)
      requires block.Child?
      reads this`db, this`macroHead
    {
      block.parent.number >= macroHead.number ==> Walked(block, macroHead.number, info.head, flags)
    }

    lemma OffMainIsAttached(info: ChainInfo)
      requires Chained() && info.head in db && db[info.head] == info && !info.onMain
      requires info.head.number >= macroHead.number
      ensures Attached(policy, db.Keys, macroHead, info.head) && Below(info).Some?
    {
      StoredLinked(policy, db.Keys, head, macroHead, head);
    }

    /** The skip flags of the fork, newest first, down to the first block off the main chain. They are missing
        if a predecessor is, where the source panics; this takes a parent below the macro head. */
    method SkipFlags(block: Block) returns (r: Option<Fork>)
      requires Consistent() && Chained() && block.Child? && block.parent in db && block.number > macroHead.number
      requires !db[block.parent].onMain
      ensures block.parent.number >= macroHead.number ==>
                && r.Some? && macroHead.number < r.value.start <= head.number + 1
                && |Word(head, macroHead.number)| == head.number - macroHead.number
                && Comparing(Word(head, macroHead.number), Word(block, macroHead.number), macroHead.number,
                             r.value.start, r.value.flags)
    {
      ghost var m, exact := macroHead.number, block.parent.number >= macroHead.number;
      var info := db[block.parent];
      var flags, below := [block.IsSkip(), info.head.IsSkip()], Below(info);
      if exact { StartWalk(block); }
      while below.Some? && !below.value.onMain
        invariant info.head in db && db[info.head] == info && !info.onMain && below == Below(info)
        invariant Walking(block, info, flags)
        decreases info.head
      {
        if exact { StepWalk(block, info, flags); }
        info := below.value;
        flags, below := flags + [info.head.IsSkip()], Below(info);
      }
      if exact { EndWalk(block, info, flags); }
      if below.None? { return None; }
      r := Some(Fork(flags, info.head.number));
    }

    lemma StartWalk(block: Block)
      requires Consistent() && Chained() && block.Child? && block.parent in db && block.number > macroHead.number
      requires !db[block.parent].onMain && block.parent.number >= macroHead.number
      ensures Walked(block, macroHead.number, block.parent, [block.IsSkip(), block.parent.IsSkip()])
    {
      StoredLinked(policy, db.Keys, head, macroHead, block.parent);
      OffMainIsAttached(db[block.parent]);
      WalkStart(block, macroHead.number);
    }

    lemma StepWalk(block: Block, info: ChainInfo, flags: seq<bool>)
      requires Consistent() && Chained() && block.Child? && Walked(block, macroHead.number, info.head, flags)
      requires info.head in db && db[info.head] == info && !info.onMain
      requires Below(info).Some? && !Below(info).value.onMain
      ensures Walked(block, macroHead.number, Below(info).value.head, flags + [Below(info).value.head.IsSkip()])
    {
      OffMainIsAttached(info);
      OffMainIsAttached(Below(info).value);
      WalkStep(block, macroHead.number, info.head, flags);
    }

    lemma EndWalk(block: Block, info: ChainInfo, flags: seq<bool>)
      requires Consistent() && Chained() && block.Child? && Walked(block, macroHead.number, info.head, flags)
      requires info.head in db && db[info.head] == info && !info.onMain
      requires Below(info).Some? ==> Below(info).value.onMain
      ensures Below(info).Some? && info.head.number <= head.number + 1
      ensures |Word(head, macroHead.number)| == head.number - macroHead.number
      ensures Comparing(Word(head, macroHead.number), Word(block, macroHead.number), macroHead.number, info.head.number,
                        flags)
    {
      OffMainIsAttached(info);
      StoredLinked(policy, db.Keys, head, macroHead, head);
      WalkEnd(block, macroHead.number, info.head, flags, head);
    }

    /** Compares the fork to the main chain at one height; there is nothing to compare to if no block is found. */
    method CompareAt(h: nat, skip: bool, ghost w: seq<bool>, ghost exact: bool)
      returns (found: bool, order: Option<Order>)
      requires Consistent() && Chained()
      requires exact ==>
                 var m, v := macroHead.number, Word(head, macroHead.number);
                 && m < h <= head.number && |v| == head.number - m
                 && h - 1 - m < |w| && Agree(v, w, h - 1 - m) && skip == w[h - 1 - m]
      ensures exact ==> found
      ensures exact && order.None? ==> Agree(Word(head, macroHead.number), w, h - macroHead.number)
      ensures exact && order.Some? ==>
                Compared(order.value, Word(head, macroHead.number), w) && !(w <= Word(head, macroHead.number))
    {
      var info := GetChainInfoAt(h);
      if exact {
        StoredLinked(policy, db.Keys, head, macroHead, head);
        AncestorStored(policy, db.Keys, head, macroHead, head, h);
        WordAt(head, macroHead.number, h);
        Decide(Word(head, macroHead.number), w, h - 1 - macroHead.number);
      }
      if info.None? { return false, None; }
      var current := info.value.head.IsSkip();
      found := true;
      order := if skip && !current then Some(Superior) else if !skip && current then Some(Inferior) else None;
      if exact && order.Some? { ComparedIsNoPrefix(order.value, Word(head, macroHead.number), w); }
    }

    /** Compares the fork to the main chain height by height. It fails where the source panics: when the flags
        run out. */
    method CompareFlags(number: nat, fork: Fork, ghost v: seq<bool>, ghost w: seq<bool>, ghost exact: bool)
      returns (r: Option<Order>)
      requires Consistent() && Chained() && number > macroHead.number && v == Word(head, macroHead.number)
      requires exact ==> |v| == head.number - macroHead.number
      requires exact ==> Comparing(v, w, macroHead.number, fork.start, fork.flags)
      ensures exact ==> (r.None? <==> |w| < Lesser(head.number, number) - macroHead.number && w <= v)
      ensures exact && |w| == number - macroHead.number ==> r.Some? && Compared(r.value, v, w)
      ensures fork.start > head.number ==> r.Some?
    {
      ghost var m := macroHead.number;
      var end := Lesser(head.number, number);
      var stack, h := fork.flags, fork.start;
      while h <= end
        invariant h == fork.start || fork.start <= h <= end + 1
        invariant exact ==> Comparing(v, w, m, h, stack)
        decreases end - h
      {
        if stack == [] {
          if exact { FlagsRunOut(v, w, m, h); }
          return None;
        }
        var skip := stack[|stack| - 1];
        if exact { PopFlag(v, w, m, h, stack); }
        stack := stack[..|stack| - 1];
        var found, order := CompareAt(h, skip, w, exact);
        if !found { return None; }
        if order.Some? { return order; }
        h := h + 1;
      }
      if exact && |w| == number - m { DecideByLength(v, w, end - m); }
      r := Some(if head.number < number then Superior else Unknown);
    }

    /** The flags of the fork run out before the common heights do, without a difference. */
    ghost predicate RunsOut(block: Block)
      requires block.Child? && block.parent in db
      reads this`db, this`head, this`macroHead
    {
      && block.parent != head && !MacroAbove(head, block) && !db[block.parent].onMain
      && block.parent.number + 2 <= Lesser(head.number, block.number)
      && Word(block, macroHead.number) <= Word(head, macroHead.number)
    }

    /** Orders the chain of a block, whose number is not checked yet, or fails where the source panics. */
    method OrderChains(block: Block) returns (r: Option<Order>)
      requires Consistent() && Chained() && block.Child? && block.parent in db && block.number > macroHead.number
      ensures block.number == block.parent.number + 1 ==> r.Some? && Ordered(r.value, head, macroHead.number, block)
      ensures block.parent.number >= macroHead.number || db[block.parent].onMain ==> (r.None? <==> RunsOut(block))
    {
      if block.parent == head {
        return Some(Extends);
      }
      if block.IsMacro() && block.number > head.number {
        return Some(Superior);
      }
      if db[block.parent].onMain {
        r := CompareToMain(block);
      } else {
        r := CompareFork(block);
      }
    }

    /** Compares a block whose parent is off the main chain. */
    method CompareFork(block: Block) returns (r: Option<Order>)
      requires Consistent() && Chained() && block.Child? && block.parent in db && block.number > macroHead.number
      requires !db[block.parent].onMain
      ensures block.parent.number >= macroHead.number ==>
                (r.None? <==> && block.parent.number + 2 <= Lesser(head.number, block.number)
                              && Word(block, macroHead.number) <= Word(head, macroHead.number))
      ensures block.number == block.parent.number + 1 ==>
                r.Some? && Compared(r.value, Word(head, macroHead.number), Word(block, macroHead.number))
    {
      ghost var exact := block.parent.number >= macroHead.number;
      if exact { ForkLinked(block); }
      var fork := SkipFlags(block);
      if fork.None? { return None; }
      r := CompareFlags(block.number, fork.value, Word(head, macroHead.number), Word(block, macroHead.number), exact);
    }

    /** Compares a block whose parent is on the main chain, which takes one height at most. */
    method CompareToMain(block: Block) returns (r: Option<Order>)
      requires Consistent() && Chained() && block.Child? && block.parent in db && block.number > macroHead.number
      requires db[block.parent].onMain
      ensures r.Some?
      ensures block.number == block.parent.number + 1 ==>
                Compared(r.value, Word(head, macroHead.number), Word(block, macroHead.number))
    {
      ghost var w, exact := OnMainWord(block);
      r := CompareFlags(block.number, Fork([block.IsSkip()], block.number), Word(head, macroHead.number), w, exact);
    }

    /** The word that a block with a parent on the main chain is compared by. */
    lemma OnMainWord(block: Block) returns (w: seq<bool>, exact: bool)
      requires Consistent() && Chained() && block.Child? && block.parent in db && block.number > macroHead.number
      requires db[block.parent].onMain
      ensures if exact then
                && |Word(head, macroHead.number)| == head.number - macroHead.number
                && |w| == block.number - macroHead.number
                && Comparing(Word(head, macroHead.number), w, macroHead.number, block.number, [block.IsSkip()])
              else block.number > head.number
      ensures block.number == block.parent.number + 1 ==> exact && w == Word(block, macroHead.number)
    {
      var m, v := macroHead.number, Word(head, macroHead.number);
      StoredLinked(policy, db.Keys, head, macroHead, head);
      WordLength(head, m);
      w, exact := Word(block, m), true;
      if block.number == block.parent.number + 1 {
        StoredLinked(policy, db.Keys, head, macroHead, block.parent);
        LastFlag(head, m, block);
      } else if block.number <= head.number {
        w := v[..block.number - 1 - m] + [block.IsSkip()];
        OneFlag(v, m, block.number, block.IsSkip());
      } else {
        exact := false;
      }
    }

    // ---------- Adopting blocks ----------

    /** Makes a macro block the macro head, and an election block the election head. */
    method AdvanceMacroHead(block: Block, ghost before: map<nat, Block>, ghost m: nat)
      requires policy.Valid() && policy.genesis <= m < block.number
      requires Elected(policy, before, electionHead, genesis, m) && ElectionsUpTo(policy, before, block.number)
      requires elections == PrunedElections(policy, before, block.number)
      requires policy.ElectionAt(block.number) || block.number <= policy.LastElection(m) + policy.blocksPerEpoch
      modifies `macroHead, `electionHead, `elections
      ensures macroHead == block && ElectionsKept()
      ensures electionHead == if policy.ElectionAt(block.number) then block else old(electionHead)
    {
      macroHead := block;
      if policy.ElectionAt(block.number) {
        ElectionIsElected(policy, elections, block, genesis);
        electionHead := block;
        elections := elections[policy.EpochAt(block.number) := block];
      } else {
        PruningKeepsElected(policy, before, electionHead, genesis, m, block.number);
      }
    }

    /** Extends the main chain by a micro block. */
    method ExtendMicro(block: Block, prev: ChainInfo)
      requires Consistent() && head in db && prev == db[head] && block !in db
      modifies `db, `heights, `head
      ensures Consistent() && head == block && db == ExtendedBy(old(db), old(head), block)
    {
      PutChainInfo(prev.(successor := Some(block)));
      head := block;
      PutChainInfo(ChainInfo(block, true, None));
    }

    /** Clears old blocks and makes a macro block the head. */
    method Finalize(block: Block)
      requires policy.Valid() && policy.genesis <= macroHead.number < block.number && ElectionsKept()
      requires policy.ElectionAt(block.number) || Acceptable(policy, macroHead, block)
      requires block.IsMacro() && Consistent() && UpTo(policy, db, block.number)
      modifies this
      ensures head == macroHead == block && Consistent() && ElectionsKept()
      ensures db == Pruned(policy, old(db), block.number)
      ensures electionHead == if policy.ElectionAt(block.number) then block else old(electionHead)
    {
      ClearOldBlocks(block.number);
      head := block;
      AdvanceMacroHead(block, old(elections), old(macroHead.number));
    }

    /** Finalizes a macro block above everything stored. */
    method FinalizeNew(block: Block)
      requires policy.Valid() && policy.genesis <= macroHead.number < block.number && ElectionsKept()
      requires policy.ElectionAt(block.number) || Acceptable(policy, macroHead, block)
      requires block.IsMacro() && policy.MacroAt(block.number) && block !in db && Consistent()
      requires forall b | b in db :: policy.genesis <= b.number < block.number
      modifies this
      ensures head == macroHead == block && Consistent() && ElectionsKept()
      ensures UpTo(policy, old(db), block.number)
      ensures db == Pruned(policy, old(db), block.number)[block := ChainInfo(block, true, None)]
      ensures Sound(policy, db, block, block) && db.Keys == After(policy, old(db.Keys), block)
      ensures electionHead == if policy.ElectionAt(block.number) then block else old(electionHead)
    {
      SyncKeepsSound(policy, db, block);
      Finalize(block);
      PutChainInfo(ChainInfo(block, true, None));
    }

    /** Extends the main chain by a macro block. */
    method ExtendMacro(block: Block, prev: ChainInfo)
      requires policy.Valid() && policy.genesis <= macroHead.number < block.number && ElectionsKept()
      requires Acceptable(policy, macroHead, block) && block.IsMacro() && block !in db && Consistent()
      requires head in db && prev == db[head] && prev.head == head && head.number >= macroHead.number
      requires block.Child? && block.parent == head && block.number == head.number + 1
      requires forall b | b in db :: policy.genesis <= b.number < block.number
      modifies this
      ensures head == macroHead == block && Consistent() && ElectionsKept()
      ensures Follows(old(db), old(head), old(macroHead.number), db, block)
      ensures Sound(policy, db, block, block) && db.Keys == After(policy, old(db.Keys), block)
      ensures electionHead == if policy.ElectionAt(block.number) then block else old(electionHead)
    {
      PutChainInfo(prev.(successor := Some(block)));
      assert db.Keys == old(db.Keys);
      FinalizeNew(block);
      ExtendMacroFollows(policy, old(db), old(head), old(macroHead.number), block);
    }

    /** Finalizes a macro block that is stored and marked already, above the blocks stored before. */
    method FinalizeStored(block: Block, ghost before: set<Block>)
      requires policy.Valid() && policy.genesis <= macroHead.number < block.number && ElectionsKept()
      requires Acceptable(policy, macroHead, block) && block.IsMacro() && Consistent()
      requires db.Keys == before + {block} && db[block] == ChainInfo(block, true, None)
      requires forall b | b in before :: policy.genesis <= b.number < block.number
      modifies this
      ensures head == macroHead == block && Consistent() && ElectionsKept()
      ensures UpTo(policy, old(db), block.number) && db == Pruned(policy, old(db), block.number)
      ensures Sound(policy, db, block, block) && db.Keys == After(policy, before, block)
      ensures electionHead == if policy.ElectionAt(block.number) then block else old(electionHead)
    {
      PruneKeepsSound(policy, before, db, block);
      Finalize(block);
    }

    // ---------- Rebranching ----------

    /** The fork, newest first, and the block where it leaves the main chain. */
    method ForkChain(block: Block) returns (fork: seq<ChainInfo>, ancestor: ChainInfo)
      requires Chained() && block !in db && block.Child? && block.parent in db
               && block.number == block.parent.number + 1
      requires block.number > macroHead.number && Linked(block, macroHead.number)
      ensures ancestor.head in db && db[ancestor.head] == ancestor && ancestor.head == At(block, ancestor.head.number)
      ensures Leaves(head, block, macroHead.number, ancestor.head.number)
      ensures PathOf(fork, block) && |fork| == block.number - ancestor.head.number
    {
      ghost var m := macroHead.number;
      NewIsOffPath(block);
      fork := [ChainInfo(block, false, None)];
      ancestor := db[block.parent];
      while !ancestor.onMain
        invariant ancestor.head in db && db[ancestor.head] == ancestor && m <= ancestor.head.number < block.number
        invariant ancestor.head == At(block, ancestor.head.number)
        invariant PathOf(fork, block) && |fork| == block.number - ancestor.head.number
        invariant forall n | ancestor.head.number < n <= block.number :: !OnPath(At(block, n), head)
        decreases ancestor.head.number
      {
        var prev := Predecessor(ancestor);
        AtHeight(block, m, prev.head.number);
        fork := fork + [ancestor];
        ancestor := prev;
      }
      StoredLinked(policy, db.Keys, head, macroHead, head);
      OnPathBelow(ancestor.head, head, m);
    }

    /** A block that is not stored is not on the main chain. */
    lemma NewIsOffPath(b: Block)
      requires Chained() && b !in db && b.number > macroHead.number
      ensures !OnPath(b, head)
    {
      if b.number <= head.number { AncestorStored(policy, db.Keys, head, macroHead, head, b.number); }
    }

    /** The main chain above the ancestor, newest first. No macro block is among it. */
    method RevertChain(ancestor: Block) returns (reverted: seq<ChainInfo>)
      requires Consistent() && Chained() && macroHead.number <= ancestor.number <= head.number && OnPath(ancestor, head)
      ensures PathOf(reverted, head) && |reverted| == head.number - ancestor.number
    {
      reverted := [];
      var current := db[head];
      StoredLinked(policy, db.Keys, head, macroHead, head);
      while current.head != ancestor
        invariant ancestor.number <= current.head.number <= head.number
        invariant current.head in db && db[current.head] == current && current.head == At(head, current.head.number)
        invariant PathOf(reverted, head) && |reverted| == head.number - current.head.number
        decreases current.head.number
      {
        var block := current.head;
        assert Attached(policy, db.Keys, macroHead, block);
        assert !block.IsMacro();
        AtHeight(head, macroHead.number, block.number - 1);
        reverted := reverted + [current];
        current := db[block.parent];
      }
    }

    /** Takes the marks off the reverted blocks. */
    method Revert(reverted: seq<ChainInfo>)
      requires Consistent()
      modifies `db, `heights
      ensures Consistent() && db == Unmarking(old(db), reverted, |reverted|)
    {
      for i := 0 to |reverted|
        invariant Consistent() && db == Unmarking(old(db), reverted, i)
      {
        PutChainInfo(reverted[i].(onMain := false, successor := None));
      }
    }

    /** Marks the fork as the main chain, oldest block first. */
    method Adopt(fork: seq<ChainInfo>)
      requires Consistent()
      modifies `db, `heights
      ensures Consistent() && db == Marking(old(db), fork, 0)
    {
      var i := |fork|;
      while i > 0
        invariant 0 <= i <= |fork| && Consistent() && db == Marking(old(db), fork, i)
      {
        i := i - 1;
        var successor := if i > 0 then Some(fork[i - 1].head) else None;
        PutChainInfo(fork[i].(onMain := true, successor := successor));
      }
    }

    lemma PathStored(path: seq<ChainInfo>, b: Block, from: nat)
      requires Chained() && PathOf(path, b) && |path| <= b.number - macroHead.number
      requires (from == 0 && b in db) || (from == 1 && b.Child? && b.parent in db && b.number == b.parent.number + 1)
      ensures forall i | from <= i < |path| :: path[i].head in db
    {
      var top := if from == 0 then b else b.parent;
      forall i | from <= i < |path| ensures path[i].head in db {
        AncestorStored(policy, db.Keys, head, macroHead, top, b.number - i);
        assert At(b, b.number - i) == At(top, b.number - i);
      }
    }

    /** Finds the fork and the blocks to revert. The fork never leaves the chain below the macro head. */
    method FindFork(block: Block) returns (fork: seq<ChainInfo>, ancestor: ChainInfo, reverted: seq<ChainInfo>)
      requires Consistent() && Chained() && block !in db
      requires block.Child? && block.parent in db && block.number == block.parent.number + 1 > macroHead.number
      ensures Branches(db, head, macroHead.number, block, ancestor, fork, reverted)
    {
      ForkLinked(block);
      fork, ancestor := ForkChain(block);
      assert ancestor.head.number >= macroHead.number;
      reverted := RevertChain(ancestor.head);
      PathStored(fork, block, 1);
      PathStored(reverted, head, 0);
    }

    method WriteMarks(fork: seq<ChainInfo>, ancestor: ChainInfo, reverted: seq<ChainInfo>)
      requires Consistent() && |fork| > 0
      modifies `db, `heights
      ensures Consistent() && db == MovedMarks(old(db), ancestor, fork, reverted)
    {
      Revert(reverted);
      PutChainInfo(ancestor.(successor := Some(fork[|fork| - 1].head)));
      Adopt(fork);
    }

    /** Moves the main chain marks to the fork. */
    method MoveMarks(block: Block)
      requires Consistent() && Chained() && block !in db
      requires block.Child? && block.parent in db && block.number == block.parent.number + 1 > macroHead.number
      modifies `db, `heights
      ensures Consistent() && Follows(old(db), head, macroHead.number, db, block)
      ensures db.Keys == old(db.Keys) + {block} && db[block] == ChainInfo(block, true, None)
    {
      var fork, ancestor, reverted := FindFork(block);
      MovedMarksRebranch(db, head, macroHead.number, block, ancestor, fork, reverted);
      RebranchFollows(db, head, macroHead.number, block, ancestor.head.number);
      WriteMarks(fork, ancestor, reverted);
    }

    // ---------- Pushing blocks ----------

    ghost predicate Pushable(b: Block)
      requires policy.Valid() && macroHead.number >= policy.genesis
      reads this`db, this`macroHead
    {
      Fitting(policy, db.Keys, macroHead, b)
    }

    /** Extends the main chain within its batch. */
    method ExtendBatch(block: Block)
      requires Consistent() && Chained() && Maximal() && block !in db && Attached(policy, db.Keys, macroHead, block)
      requires block.parent == head
      modifies `db, `heights, `head
      ensures Consistent() && Chained() && Maximal() && head == block && db.Keys == old(db.Keys) + {block}
      ensures Follows(old(db), old(head), macroHead.number, db, head)
    {
      ExtendKeepsSound(policy, db, head, macroHead, block);
      ExtendFollows(db, head, macroHead.number, block);
      ExtendMicro(block, db[head]);
    }

    /** Extends the current main chain. */
    method Extend(block: Block)
      requires Valid() && Pushable(block) && block.parent == head
      modifies this
      ensures Valid() && View() == Added(policy, old(View()), block, true)
      ensures Follows(old(db), old(head), old(macroHead.number), db, head)
    {
      SuccessorHeight(policy, db.Keys, head, macroHead, block);
      if block.IsMacro() {
        ExtendMacro(block, db[head]);
      } else {
        ExtendBatch(block);
      }
    }

    /** Rebranches to a micro block. */
    method RebranchMicro(block: Block)
      requires Consistent() && Chained() && Maximal() && block !in db && Attached(policy, db.Keys, macroHead, block)
      requires Less(Word(head, macroHead.number), Word(block, macroHead.number))
      modifies `db, `heights, `head
      ensures Consistent() && Chained() && Maximal() && head == block && db.Keys == old(db.Keys) + {block}
      ensures Follows(old(db), old(head), macroHead.number, db, head)
    {
      MoveMarks(block);
      assert Flags(db, block, macroHead.number);
      SwitchKeepsSound(policy, old(db.Keys), head, macroHead, block, db);
      head := block;
    }

    /** Rebranches to a macro block. */
    method RebranchMacro(block: Block)
      requires Consistent() && Chained() && ElectionsKept() && Acceptable(policy, macroHead, block) && block.IsMacro()
      requires block !in db && block.Child? && block.parent in db && block.number == block.parent.number + 1
      requires macroHead.number < block.number && forall b | b in db :: b.number < block.number
      modifies this
      ensures head == macroHead == block && Consistent() && ElectionsKept()
      ensures Sound(policy, db, block, block) && db.Keys == After(policy, old(db.Keys), block)
      ensures electionHead == if policy.ElectionAt(block.number) then block else old(electionHead)
      ensures Follows(old(db), old(head), old(macroHead.number), db, block)
    {
      MoveMarks(block);
      ghost var moved := db;
      FinalizeStored(block, old(db.Keys));
      PruneFollows(policy, old(db), old(head), old(macroHead.number), moved, block);
    }

    /** Rebranches the current main chain. */
    method Rebranch(block: Block)
      requires Valid() && Pushable(block)
      requires block.IsMacro() || Less(Word(head, macroHead.number), Word(block, macroHead.number))
      modifies this
      ensures Valid() && View() == Added(policy, old(View()), block, true)
      ensures Follows(old(db), old(head), old(macroHead.number), db, head)
    {
      SuccessorHeight(policy, db.Keys, head, macroHead, block);
      if block.IsMacro() {
        RebranchMacro(block);
      } else {
        RebranchMicro(block);
      }
    }

    /** Stores a block of a fork. */
    method Store(block: Block)
      requires Consistent() && Chained() && Maximal() && block !in db && Attached(policy, db.Keys, macroHead, block)
      requires !Less(Word(head, macroHead.number), Word(block, macroHead.number))
      modifies `db, `heights
      ensures Consistent() && Chained() && Maximal() && db.Keys == old(db.Keys) + {block}
      ensures Follows(old(db), head, macroHead.number, db, head)
    {
      StoreKeepsSound(policy, db, head, macroHead, block);
      StoreFollows(policy, db, head, macroHead, block);
      PutChainInfo(ChainInfo(block, false, None));
    }

    /** Adds a verified block as its order says. */
    method Insert(block: Block, order: Order)
      requires Valid() && Pushable(block) && Ordered(order, head, macroHead.number, block)
      modifies this
      ensures Valid() && View() == Added(policy, old(View()), block, order.Extends? || order.Superior?)
      ensures Follows(old(db), old(head), old(macroHead.number), db, head)
    {
      OrderedFork(policy, db.Keys, head, macroHead, block, order);
      match order
      case Extends => Extend(block);
      case Superior => Rebranch(block);
      case Inferior | Unknown => Store(block);
    }

    /** Pushes a block into the chain. `verified` is the outcome of the checks that are not modelled. */
    method Push(block: Block, verified: bool) returns (r: PushResult)
      requires Valid()
      modifies this
      ensures Valid()
      ensures Pushed(policy, BlockPushed(block, verified), old(View()), r, View())
      ensures old(Reached(block) && (block.parent.number >= macroHead.number || db[block.parent].onMain)) ==>
                (r.Aborted? <==> old(RunsOut(block)))
      ensures r.Aborted? ==> old(Reached(block)) && block.number != block.parent.number + 1
      ensures !(verified && old(Pushable(block))) ==> db == old(db)
      ensures Follows(old(db), old(head), old(macroHead.number), db, head)
    {
      StoredLinked(policy, db.Keys, head, macroHead, head);
      StoredInBatch(policy, db.Keys, head, macroHead, head);
      var lastMacroBlock := policy.LastMacro(head.number);
      if block.number <= lastMacroBlock { return Ignored; }
      if block in db { return Known; }
      if !block.Child? || block.parent !in db { return Orphan; }
      var order := OrderChains(block);
      if order.None? { return Aborted; }
      if !verified || block.number != block.parent.number + 1 || !Acceptable(policy, macroHead, block) {
        return InvalidBlock;
      }
      Insert(block, order.value);
      r := ResultOf(order.value);
      InsertedIsPushed(policy, old(View()), block, order.value, View());
    }

    /** The block passes the first checks, and its chain is ordered. */
    ghost predicate Reached(b: Block)
      reads this`db, this`macroHead
    {
      b.number > macroHead.number && b !in db && b.Child? && b.parent in db
    }

    // ---------- Syncing ----------

    /** Takes over a macro block from any height above the macro head. */
    method AdoptMacro(block: Block)
      requires Valid() && block !in db && block.IsMacro() && policy.MacroAt(block.number)
      requires block.number > macroHead.number
               && (policy.ElectionAt(block.number) || Acceptable(policy, macroHead, block))
      modifies this
      ensures Valid() && View() == Added(policy, old(View()), block, true)
      ensures forall b | b in db && b != block :: b in old(db) && db[b] == old(db)[b]
    {
      BelowNextMacro(policy, db.Keys, head, macroHead, block);
      FinalizeNew(block);
    }

    /** Pushes a macro block whose predecessors need not be known. */
    method PushMacro(block: Block, verified: bool) returns (r: PushResult)
      requires Valid() && block.IsMacro()
      modifies this
      ensures Valid() && Pushed(policy, MacroPushed(block, verified), old(View()), r, View())
      ensures if r.Extended? then forall b | b in db && b != block :: b in old(db) && db[b] == old(db)[b]
              else db == old(db)
    {
      if block in db { return Known; }
      if block.number <= macroHead.number { return Ignored; }
      if !verified || !Acceptable(policy, macroHead, block) { return InvalidBlock; }
      AdoptMacro(block);
      r := Extended;
    }

    /** Pushes an election block of any later epoch, trusted on first use. */
    method PushPicoElection(block: Block, verified: bool) returns (r: PushResult)
      requires Valid() && block.IsMacro() && policy.ElectionAt(block.number)
      modifies this
      ensures Valid() && Pushed(policy, ElectionPushed(block, verified), old(View()), r, View())
      ensures if r.Extended? then forall b | b in db && b != block :: b in old(db) && db[b] == old(db)[b]
              else db == old(db)
    {
      if block in db { return Known; }
      if block.number <= macroHead.number { return Ignored; }
      if !verified || !policy.MacroAt(block.number) { return InvalidBlock; }
      AdoptMacro(block);
      r := Extended;
    }

    /** Back to the genesis block. */
    method Reset()
      requires policy.Valid() && genesis.IsMacro() && genesis.number == policy.genesis
      modifies this
      ensures Valid() && head == macroHead == electionHead == genesis && db.Keys == {genesis}
    {
      GenesisIsSound(policy, genesis);
      db := map[genesis := ChainInfo(genesis, true, None)];
      heights := map[genesis.number := [genesis]];
      elections := map[];
      head := genesis;
      macroHead := genesis;
      electionHead := genesis;
    }

    // ---------- Reading the chain ----------

    /** The next blocks of the main chain after a block of the current batch. */
    method GetBlocksForward(start: Block, count: nat) returns (r: Option<seq<Block>>)
      requires Consistent() && Chained()
      ensures r.None? <==> start !in db
      ensures r.Some? ==> |r.value| <= count && Succession([start] + r.value)
      ensures r.Some? && |r.value| < count ==> !Succeeded(([start] + r.value)[|r.value|])
      ensures r.Some? && start.number >= macroHead.number && OnPath(start, head) ==>
                && |r.value| == Lesser(count, head.number - start.number)
                && Following(r.value, start.number)
      ensures r.Some? && start.number >= macroHead.number && !OnPath(start, head) ==> r.value == []
    {
      if start !in db { return None; }
      var blocks := [];
      var info := db[start];
      ghost var inBatch := start.number >= macroHead.number && OnPath(start, head);
      if inBatch { PathStep(start); }
      while |blocks| < count && info.successor.Some?
        invariant |blocks| <= count && info.head in db && db[info.head] == info
        invariant Succession([start] + blocks) && info.head == ([start] + blocks)[|blocks|]
        invariant inBatch ==> Following(blocks, start.number) && info.head.number == start.number + |blocks|
        invariant inBatch ==> OnPath(info.head, head)
        invariant start.number >= macroHead.number && !inBatch ==> info == db[start] && blocks == []
        decreases count - |blocks|
      {
        if inBatch { PathStep(info.head); }
        if info.successor.value !in db { break; }
        SuccessionStep([start] + blocks, info.successor.value);
        assert [start] + (blocks + [info.successor.value]) == [start] + blocks + [info.successor.value];
        info := db[info.successor.value];
        blocks := blocks + [info.head];
      }
      if inBatch { PathStep(info.head); }
      r := Some(blocks);
    }

    /** The stored successor of a block is known. */
    ghost predicate Succeeded(b: Block)
      reads this`db
    {
      b in db && db[b].successor.Some? && db[b].successor.value in db
    }

    ghost predicate SuccessorAt(blocks: seq<Block>, i: nat)
      requires 0 < i < |blocks|
      reads this`db
    {
      Succeeded(blocks[i - 1]) && blocks[i] == db[blocks[i - 1]].successor.value
    }

    /** Each block is followed by its successor. */
    ghost predicate Succession(blocks: seq<Block>)
      reads this`db
    {
      forall i | 0 < i < |blocks| :: SuccessorAt(blocks, i)
    }

    lemma SuccessionStep(blocks: seq<Block>, b: Block)
      requires Succession(blocks) && |blocks| > 0 && Succeeded(blocks[|blocks| - 1])
      requires b == db[blocks[|blocks| - 1]].successor.value
      ensures Succession(blocks + [b])
    {
      forall i | 0 < i < |blocks| ensures SuccessorAt(blocks + [b], i) { assert SuccessorAt(blocks, i); }
    }

    /** `blocks` are the main chain blocks from the next height on. */
    ghost predicate Following(blocks: seq<Block>, n: nat)
      reads this`head
    {
      forall i | 0 <= i < |blocks| :: blocks[i] == At(head, n + 1 + i)
    }

    /** Successor links lead along the main chain up to the head. */
    lemma PathStep(b: Block)
      requires Chained() && b in db && b.number >= macroHead.number && OnPath(b, head)
      ensures b.number <= head.number && (db[b].successor.Some? <==> b.number < head.number)
      ensures b.number < head.number ==>
                var next := At(head, b.number + 1);
                db[b].successor == Some(next) && next in db && next.number == b.number + 1 && OnPath(next, head)
    {
      StoredLinked(policy, db.Keys, head, macroHead, head);
      OnPathBelow(b, head, macroHead.number);
      if b.number < head.number {
        AncestorStored(policy, db.Keys, head, macroHead, head, b.number + 1);
      }
    }

    /** The stored ancestors of a block, newest first. */
    method GetBlocksBackward(start: Block, count: nat) returns (r: Option<seq<Block>>)
      requires Consistent() && Chained()
      ensures r.None? <==> start !in db
      ensures r.Some? ==> |r.value| <= count && Descent([start] + r.value)
      ensures r.Some? ==> forall b | b in r.value :: b in db
      ensures r.Some? && |r.value| < count
              ==> var last := ([start] + r.value)[|r.value|]; last.Root? || last.parent !in db
      ensures r.Some? && |r.value| < count ==> ([start] + r.value)[|r.value|].number <= macroHead.number
    {
      if start !in db { return None; }
      var blocks, last := [], start;
      while |blocks| < count && last.Child? && last.parent in db
        invariant |blocks| <= count && Descent([start] + blocks) && last == ([start] + blocks)[|blocks|] && last in db
        invariant forall b | b in blocks :: b in db
        decreases count - |blocks|
      {
        DescentStep([start] + blocks, last.parent);
        assert [start] + (blocks + [last.parent]) == [start] + blocks + [last.parent];
        blocks := blocks + [last.parent];
        last := last.parent;
      }
      if last.number > macroHead.number { assert Attached(policy, db.Keys, macroHead, last); }
      r := Some(blocks);
    }
  }
}
