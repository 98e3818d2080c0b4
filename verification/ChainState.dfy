/** Invariants of the light client's chain, as predicates over its stored blocks. */
module ChainState {
  import opened Policies
  import opened BlockTree
  import opened Wrappers

  datatype ChainInfo = ChainInfo(head: Block, onMain: bool, successor: Option<Block>)

  /** The chain infos by block hash, and the block hashes by height. */
  type ChainDb = map<Block, ChainInfo>
  type HeightIndex = map<nat, seq<Block>>

  /** `b` continues a stored block of the current batch and is not a macro block. */
  predicate Attached(p: Policy, stored: set<Block>, macroHead: Block, b: Block) {
    && b.Child? && b.parent in stored && b.number == b.parent.number + 1
    && macroHead.number < b.number < macroHead.number + p.blocksPerBatch && !b.IsMacro()
  }

  /** Above the macro head, every stored block continues a stored block by one, and none is a macro block. */
  ghost predicate Tree(p: Policy, stored: set<Block>, head: Block, macroHead: Block) {
    && p.Valid() && p.MacroAt(macroHead.number) && macroHead.IsMacro()
    && head in stored && macroHead in stored && head.number >= macroHead.number
    && (forall b | b in stored :: b.number >= p.genesis)
    && (forall b | b in stored && b.number == macroHead.number :: b == macroHead)
    && (forall b {:trigger Attached(p, stored, macroHead, b)} | b in stored && b.number > macroHead.number ::
          Attached(p, stored, macroHead, b))
  }

  /** No stored block above height `m` has a better chain than the head. */
  ghost predicate Best(stored: set<Block>, head: Block, m: nat) {
    forall b | b in stored && b.number > m :: !Less(Word(head, m), Word(b, m))
  }

  /** `b` is on the chain of `head`. */
  predicate OnPath(b: Block, head: Block) {
    At(head, b.number) == b
  }

  /** What the chain info of `b` says about the main chain ending in `head`. */
  predicate Marked(info: ChainInfo, b: Block, head: Block) {
    && info.head == b
    && (info.onMain <==> OnPath(b, head))
    && info.successor == if OnPath(b, head) && b.number < head.number then Some(At(head, b.number + 1)) else None
  }

  ghost predicate Flags(db: ChainDb, head: Block, m: nat) {
    forall b | b in db && b.number >= m :: Marked(db[b], b, head)
  }

  /** A mark that followed `head` follows `head'`, at any height, and below height `m` nothing is touched. */
  predicate FollowsAt(db: ChainDb, head: Block, m: nat, info: ChainInfo, b: Block, head': Block) {
    && ((b in db ==> Marked(db[b], b, head)) ==> Marked(info, b, head'))
    && (b in db && b.number < m ==> info == db[b])
  }

  ghost predicate Follows(db: ChainDb, head: Block, m: nat, db': ChainDb, head': Block) {
    forall b | b in db' :: FollowsAt(db, head, m, db'[b], b, head')
  }

  /** The election blocks by epoch: the election head is the last one due, and its entry is never pruned. */
  ghost predicate Elected(p: Policy, elections: map<nat, Block>, electionHead: Block, genesis: Block, m: nat)
    requires p.Valid() && m >= p.genesis
  {
    && electionHead.number == p.LastElection(m)
    && (electionHead == genesis || Elects(p, elections, electionHead))
    && (forall e | e in elections :: p.genesis <= elections[e].number <= m)
  }

  predicate Elects(p: Policy, elections: map<nat, Block>, b: Block)
    requires p.Valid()
  {
    var epoch := p.EpochAt(b.number);
    epoch in elections && elections[epoch] == b
  }

  /** The height index lists exactly the stored blocks. */
  ghost predicate Indexed(db: ChainDb, heights: HeightIndex) {
    && (forall b | b in db :: db[b].head == b && b.number in heights && b in heights[b.number])
    && (forall n | n in heights :: heights[n] != [])
    && (forall n, b | n in heights && b in heights[n] :: b in db && b.number == n)
  }

  // ---------- Consequences of the tree ----------

  lemma {:induction false} StoredLinked(p: Policy, stored: set<Block>, head: Block, macroHead: Block, b: Block)
    requires Tree(p, stored, head, macroHead) && b in stored && b.number >= macroHead.number
    ensures Linked(b, macroHead.number) && At(b, macroHead.number) == macroHead
    decreases b
  {
    if b.number > macroHead.number {
      assert Attached(p, stored, macroHead, b);
      StoredLinked(p, stored, head, macroHead, b.parent);
    }
  }

  /** Blocks above the macro head belong to its batch. */
  lemma StoredInBatch(p: Policy, stored: set<Block>, head: Block, macroHead: Block, b: Block)
    requires Tree(p, stored, head, macroHead) && b in stored && b.number >= macroHead.number
    ensures b.number >= p.genesis && p.LastMacro(b.number) == macroHead.number
  {
    MacroFromGenesis(p, macroHead.number);
    assert b.number > macroHead.number ==> Attached(p, stored, macroHead, b);
    LastMacroUnique(p, b.number, macroHead.number);
  }

  /** The ancestors of a stored block are stored, down to the macro head. */
  lemma {:induction false} AncestorStored(p: Policy, stored: set<Block>, head: Block, macroHead: Block,
                                          b: Block, n: nat)
    requires Tree(p, stored, head, macroHead) && b in stored && macroHead.number <= n <= b.number
    ensures At(b, n) in stored && At(b, n).number == n
    decreases b
  {
    if n < b.number {
      assert Attached(p, stored, macroHead, b);
      AncestorStored(p, stored, head, macroHead, b.parent, n);
    }
  }

  lemma OnPathBelow(b: Block, head: Block, m: nat)
    requires Linked(head, m) && OnPath(b, head) && m <= b.number
    ensures b.number <= head.number
    ensures forall n: nat | m <= n <= b.number :: At(b, n) == At(head, n)
    ensures b.number < head.number ==> OnPath(At(head, b.number + 1), head)
  {
    forall n: nat | m <= n <= b.number && b.number <= head.number ensures At(b, n) == At(head, n) {
      AtOfAt(head, b.number, n);
    }
    if b.number < head.number { AtHeight(head, m, b.number + 1); }
  }

  lemma LessIsLonger(v: seq<bool>, w: seq<bool>)
    ensures Less(v, w) ==> |w| > 0
  {}

  /** Two nodes that hold the same blocks of a batch agree on the height and the skip pattern of the head. */
  lemma SameBlocksSamePattern(p: Policy, stored: set<Block>, head: Block, stored': set<Block>,
                              head': Block, macroHead: Block)
    requires Tree(p, stored, head, macroHead) && Best(stored, head, macroHead.number)
    requires Tree(p, stored', head', macroHead) && Best(stored', head', macroHead.number)
    requires forall b: Block | b.number > macroHead.number :: b in stored <==> b in stored'
    ensures Word(head, macroHead.number) == Word(head', macroHead.number) && head.number == head'.number
  {
    var m := macroHead.number;
    var v, w := Word(head, m), Word(head', m);
    StoredLinked(p, stored, head, macroHead, head);
    StoredLinked(p, stored', head', macroHead, head');
    WordLength(head, m);
    WordLength(head', m);
    LessTotal(v, w, 0);
    LessIsLonger(v, w);
    LessIsLonger(w, v);
  }

  // ---------- Adding a block ----------

  lemma AddKeepsTree(p: Policy, stored: set<Block>, head: Block, macroHead: Block, b: Block, head': Block)
    requires Tree(p, stored, head, macroHead) && Attached(p, stored, macroHead, b) && head' in {head, b}
    ensures Tree(p, stored + {b}, head', macroHead)
  {
    MacroFromGenesis(p, macroHead.number);
    forall c | c in stored && c.number > macroHead.number ensures Attached(p, stored + {b}, macroHead, c) {
      assert Attached(p, stored, macroHead, c);
    }
  }

  /** Storing a block that is not better keeps the head best. */
  lemma StoreKeepsBest(stored: set<Block>, head: Block, m: nat, b: Block)
    requires Best(stored, head, m) && !Less(Word(head, m), Word(b, m))
    ensures Best(stored + {b}, head, m)
  {}

  /** Switching to a better block makes it best. */
  lemma SwitchKeepsBest(stored: set<Block>, head: Block, m: nat, b: Block)
    requires Best(stored, head, m) && Less(Word(head, m), Word(b, m))
    ensures Best(stored + {b}, b, m)
  {
    LessIrreflexive(Word(b, m));
    forall c | c in stored && c.number > m ensures !Less(Word(b, m), Word(c, m)) {
      if Less(Word(b, m), Word(c, m)) { LessTransitive(Word(head, m), Word(b, m), Word(c, m)); }
    }
  }

  /** A block that continues the head is better than the head. */
  lemma ChildIsBetter(b: Block, m: nat)
    requires b.Child? && b.number > m
    ensures Less(Word(b.parent, m), Word(b, m))
  {
    var v := Word(b.parent, m);
    assert LessAt(v, Word(b, m), |v|);
  }

  /** A stored side block leaves every mark as it is. */
  lemma StoreFollows(p: Policy, db: ChainDb, head: Block, macroHead: Block, b: Block)
    requires Tree(p, db.Keys, head, macroHead) && b !in db && b.number > macroHead.number
    ensures Follows(db, head, macroHead.number, db[b := ChainInfo(b, false, None)], head)
  {
    if OnPath(b, head) {
      if b.number <= head.number { AncestorStored(p, db.Keys, head, macroHead, head, b.number); }
    }
  }

  /** Extending the chain changes the marks of the old and the new head only. */
  lemma ExtendFollows(db: ChainDb, head: Block, m: nat, b: Block)
    requires head in db && head.number >= m && b !in db && b.Child? && b.parent == head && b.number == head.number + 1
    ensures Follows(db, head, m, ExtendedBy(db, head, b), b)
  {
    var db' := ExtendedBy(db, head, b);
    assert OnPath(head, head);
    forall c | c in db' ensures FollowsAt(db, head, m, db'[c], c, b) {
      if c != b && c != head {
        if c.number <= head.number { assert At(b, c.number) == At(head, c.number); }
        if c.number > head.number { assert At(head, c.number) == head; assert At(b, c.number) == b; }
      }
    }
  }

  /** The stored blocks form a tree, the marks follow the head, and the head is best. */
  ghost predicate Sound(p: Policy, db: ChainDb, head: Block, macroHead: Block) {
    Tree(p, db.Keys, head, macroHead) && Flags(db, head, macroHead.number) && Best(db.Keys, head, macroHead.number)
  }

  /** The chain infos once the head knows its successor. */
  function Linking(db: ChainDb, head: Block, b: Block): ChainDb
    requires head in db
  {
    db[head := db[head].(successor := Some(b))]
  }

  /** The chain infos after the head is extended by `b`. */
  function ExtendedBy(db: ChainDb, head: Block, b: Block): ChainDb
    requires head in db
  {
    Linking(db, head, b)[b := ChainInfo(b, true, None)]
  }

  lemma ExtendKeepsSound(p: Policy, db: ChainDb, head: Block, macroHead: Block, b: Block)
    requires Sound(p, db, head, macroHead) && b !in db
    requires b.Child? && b.parent == head && Attached(p, db.Keys, macroHead, b)
    ensures Sound(p, ExtendedBy(db, head, b), b, macroHead)
    ensures ExtendedBy(db, head, b).Keys == db.Keys + {b}
  {
    ExtendFollows(db, head, macroHead.number, b);
    assert ExtendedBy(db, head, b).Keys == db.Keys + {b};
    AddKeepsTree(p, db.Keys, head, macroHead, b, b);
    ChildIsBetter(b, macroHead.number);
    SwitchKeepsBest(db.Keys, head, macroHead.number, b);
  }

  lemma StoreKeepsSound(p: Policy, db: ChainDb, head: Block, macroHead: Block, b: Block)
    requires Sound(p, db, head, macroHead) && b !in db && Attached(p, db.Keys, macroHead, b)
    requires !Less(Word(head, macroHead.number), Word(b, macroHead.number))
    ensures Sound(p, db[b := ChainInfo(b, false, None)], head, macroHead)
  {
    StoreFollows(p, db, head, macroHead, b);
    assert db[b := ChainInfo(b, false, None)].Keys == db.Keys + {b};
    AddKeepsTree(p, db.Keys, head, macroHead, b, head);
    StoreKeepsBest(db.Keys, head, macroHead.number, b);
  }

  // ---------- Switching to a fork ----------

  /** `c` is on the chain of `head`, above height `a`. */
  predicate Between(c: Block, head: Block, a: nat) {
    a < c.number <= head.number && OnPath(c, head)
  }

  /** The marks after the main chain is taken back to height `a`. */
  function Reverted(db: ChainDb, head: Block, a: nat): ChainDb {
    map c | c in db :: if Between(c, head, a) then db[c].(onMain := false, successor := None) else db[c]
  }

  /** The mark of a block on the chain of `b`. */
  function Adopted(c: Block, b: Block): ChainInfo {
    ChainInfo(c, true, if c.number < b.number then Some(At(b, c.number + 1)) else None)
  }

  /** The marks after the fork `b` is adopted above height `a`, up to height `top`. */
  function SwitchedTo(db: ChainDb, b: Block, a: nat, top: nat): ChainDb {
    map c | c in db.Keys + (if a < top == b.number then {b} else {}) ::
      if Between(c, b, a) && c.number <= top then Adopted(c, b) else db[c]
  }

  /** The marks after the fork `b` is adopted above height `a`. */
  function Switched(db: ChainDb, b: Block, a: nat): ChainDb {
    SwitchedTo(db, b, a, b.number)
  }

  /** The chain infos after the marks are taken off the first `i` infos. */
  function Unmarking(db: ChainDb, infos: seq<ChainInfo>, i: nat): ChainDb
    requires i <= |infos|
  {
    if i == 0 then db
    else Unmarking(db, infos, i - 1)[infos[i - 1].head := infos[i - 1].(onMain := false, successor := None)]
  }

  /** The chain infos after the infos from index `i` on are marked, each with the one before it as successor. */
  function Marking(db: ChainDb, infos: seq<ChainInfo>, i: nat): ChainDb
    requires i <= |infos|
    decreases |infos| - i
  {
    if i == |infos| then db
    else Marking(db, infos, i + 1)[infos[i].head := MarkOf(infos, i)]
  }

  function MarkOf(infos: seq<ChainInfo>, i: nat): ChainInfo
    requires i < |infos|
  {
    infos[i].(onMain := true, successor := if i > 0 then Some(infos[i - 1].head) else None)
  }

  lemma {:induction false} UnmarkingReverts(db: ChainDb, head: Block, m: nat, infos: seq<ChainInfo>, i: nat)
    requires Linked(head, m) && PathOf(infos, head) && i <= |infos| <= head.number - m
    requires forall b | b in db :: db[b].head == b
    requires forall j | 0 <= j < |infos| :: infos[j].head in db
    ensures Unmarking(db, infos, i) == Reverted(db, head, head.number - i)
  {
    if i == 0 {
      RevertNone(db, head);
    } else {
      UnmarkingReverts(db, head, m, infos, i - 1);
      RevertStep(db, head, m, head.number - i, infos[i - 1].head);
    }
  }

  lemma {:induction false} MarkingSwitches(db: ChainDb, b: Block, m: nat, infos: seq<ChainInfo>, i: nat)
    requires Linked(b, m) && PathOf(infos, b) && i <= |infos| <= b.number - m && b !in db
    requires forall j | 0 < j < |infos| :: infos[j].head in db
    ensures Marking(db, infos, i) == SwitchedTo(db, b, b.number - |infos|, b.number - i)
    decreases |infos| - i
  {
    var a := b.number - |infos|;
    if i == |infos| {
      SwitchNone(db, b, a);
    } else {
      MarkingSwitches(db, b, m, infos, i + 1);
      SwitchStep(db, b, m, a, b.number - i - 1, infos[i].head);
      assert MarkOf(infos, i) == Adopted(infos[i].head, b);
    }
  }

  lemma RevertNone(db: ChainDb, head: Block)
    ensures Reverted(db, head, head.number) == db
  {}

  /** Taking the mark off one more block. */
  lemma RevertStep(db: ChainDb, head: Block, m: nat, n: nat, c: Block)
    requires Linked(head, m) && m <= n < head.number && c == At(head, n + 1) && c in db && db[c].head == c
    ensures Reverted(db, head, n) == Reverted(db, head, n + 1)[c := ChainInfo(c, false, None)]
  {
    AtHeight(head, m, n + 1);
  }

  lemma SwitchNone(db: ChainDb, b: Block, a: nat)
    ensures SwitchedTo(db, b, a, a) == db
  {}

  /** Marking one more block of the fork. */
  lemma SwitchStep(db: ChainDb, b: Block, m: nat, a: nat, top: nat, c: Block)
    requires Linked(b, m) && m <= a <= top < b.number && b !in db && c == At(b, top + 1) && (c != b ==> c in db)
    ensures c.number == top + 1 && (c.number < b.number ==> Adopted(c, b).successor == Some(At(b, top + 2)))
    ensures SwitchedTo(db, b, a, top + 1) == SwitchedTo(db, b, a, top)[c := Adopted(c, b)]
  {
    AtHeight(b, m, top + 1);
  }

  /** `a` is the height where the fork `b` leaves the chain of `head`. */
  ghost predicate Leaves(head: Block, b: Block, m: nat, a: nat) {
    && m <= a <= head.number && a < b.number && Linked(b, m) && Linked(head, m)
    && At(b, a) == At(head, a)
    && (forall n | a < n <= b.number :: !OnPath(At(b, n), head))
  }

  /** The marks after a rebranch to `b`. */
  function RebranchedTo(db: ChainDb, head: Block, b: Block, a: nat): ChainDb
    requires At(b, a) in db
  {
    var ancestor := At(b, a);
    var db' := Reverted(db, head, a);
    Switched(db'[ancestor := db'[ancestor].(successor := Some(At(b, a + 1)))], b, a)
  }

  /** Below the fork both chains are the same. */
  lemma SharedBelow(head: Block, m: nat, b: Block, a: nat, n: nat)
    requires Leaves(head, b, m, a) && n <= a
    ensures At(b, n) == At(head, n)
  {
    AtOfAt(b, a, n);
    AtOfAt(head, a, n);
  }

  /** Above the fork no block is on both chains. */
  lemma ApartAbove(head: Block, m: nat, b: Block, a: nat, c: Block)
    requires Leaves(head, b, m, a) && c.number > a
    ensures !(Between(c, b, a) && Between(c, head, a))
    ensures OnPath(c, b) <==> Between(c, b, a)
    ensures OnPath(c, head) <==> Between(c, head, a)
  {
    if OnPath(c, b) { OnPathBelow(c, b, m); }
    if OnPath(c, head) { OnPathBelow(c, head, m); }
  }

  /** The mark of a stored block after a rebranch to `b`. */
  function Remarked(info: ChainInfo, c: Block, head: Block, b: Block, a: nat): ChainInfo {
    if Between(c, b, a) then Adopted(c, b)
    else if Between(c, head, a) then info.(onMain := false, successor := None)
    else if c == At(b, a) then info.(successor := Some(At(b, a + 1)))
    else info
  }

  lemma RemarkedAbove(info: ChainInfo, c: Block, head: Block, m: nat, b: Block, a: nat)
    requires Leaves(head, b, m, a) && c.number > a && Marked(info, c, head)
    ensures Marked(Remarked(info, c, head, b, a), c, b)
  {
    ApartAbove(head, m, b, a, c);
    AtHeight(b, m, a);
  }

  lemma RemarkedBelow(info: ChainInfo, c: Block, head: Block, m: nat, b: Block, a: nat)
    requires Leaves(head, b, m, a) && c.number <= a && Marked(info, c, head)
    ensures Marked(Remarked(info, c, head, b, a), c, b)
  {
    AtHeight(b, m, a);
    SharedBelow(head, m, b, a, c.number);
    if c.number < a { SharedBelow(head, m, b, a, c.number + 1); }
  }

  lemma RebranchRemarks(db: ChainDb, head: Block, b: Block, a: nat, c: Block)
    requires At(b, a) in db && At(b, a).number == a && c in db && c != b
    ensures RebranchedTo(db, head, b, a)[c] == Remarked(db[c], c, head, b, a)
  {}

  /** After a rebranch the marks describe the chain of the new head. */
  lemma RebranchMarks(db: ChainDb, head: Block, m: nat, b: Block, a: nat, c: Block)
    requires Leaves(head, b, m, a) && At(b, a) in db && b !in db && c in RebranchedTo(db, head, b, a)
    ensures FollowsAt(db, head, m, RebranchedTo(db, head, b, a)[c], c, b)
  {
    AtHeight(b, m, a);
    if c != b {
      RebranchRemarks(db, head, b, a, c);
      if Marked(db[c], c, head) {
        if c.number > a {
          RemarkedAbove(db[c], c, head, m, b, a);
        } else {
          RemarkedBelow(db[c], c, head, m, b, a);
        }
      }
    }
  }

  lemma SwitchKeepsSound(p: Policy, stored: set<Block>, head: Block, macroHead: Block, b: Block, db': ChainDb)
    requires Tree(p, stored, head, macroHead) && Best(stored, head, macroHead.number)
    requires Attached(p, stored, macroHead, b) && Less(Word(head, macroHead.number), Word(b, macroHead.number))
    requires db'.Keys == stored + {b} && Flags(db', b, macroHead.number)
    ensures Sound(p, db', b, macroHead)
  {
    AddKeepsTree(p, stored, head, macroHead, b, b);
    SwitchKeepsBest(stored, head, macroHead.number, b);
  }

  lemma RebranchFollows(db: ChainDb, head: Block, m: nat, b: Block, a: nat)
    requires Leaves(head, b, m, a) && At(b, a) in db && b !in db
    ensures Follows(db, head, m, RebranchedTo(db, head, b, a), b)
    ensures RebranchedTo(db, head, b, a).Keys == db.Keys + {b}
  {
    var db' := RebranchedTo(db, head, b, a);
    forall c | c in db' ensures FollowsAt(db, head, m, db'[c], c, b) {
      RebranchMarks(db, head, m, b, a, c);
    }
  }

  /** `fork` and `reverted` are the two chains above `ancestor`, where the fork `b` leaves the chain of `head`. */
  ghost predicate Branches(db: ChainDb, head: Block, m: nat, b: Block, ancestor: ChainInfo,
                           fork: seq<ChainInfo>, reverted: seq<ChainInfo>) {
    var a := ancestor.head.number;
    && Leaves(head, b, m, a)
    && ancestor.head in db && db[ancestor.head] == ancestor && ancestor.head == At(b, a) && b !in db
    && PathOf(fork, b) && |fork| == b.number - a && (forall i | 0 < i < |fork| :: fork[i].head in db)
    && PathOf(reverted, head) && |reverted| == head.number - a
    && (forall i | 0 <= i < |reverted| :: reverted[i].head in db)
  }

  /** Unmarks the old chain, links the ancestor to the fork and marks the fork. */
  function MovedMarks(db: ChainDb, ancestor: ChainInfo, fork: seq<ChainInfo>, reverted: seq<ChainInfo>): ChainDb
    requires |fork| > 0
  {
    var relinked := ancestor.(successor := Some(fork[|fork| - 1].head));
    Marking(Unmarking(db, reverted, |reverted|)[ancestor.head := relinked], fork, 0)
  }

  lemma RevertedAncestor(db: ChainDb, head: Block, ancestor: ChainInfo)
    requires ancestor.head in db && db[ancestor.head] == ancestor
    ensures Reverted(db, head, ancestor.head.number)[ancestor.head] == ancestor
    ensures Reverted(db, head, ancestor.head.number).Keys == db.Keys
  {}

  lemma MovedMarksSwitch(db: ChainDb, head: Block, m: nat, b: Block, ancestor: ChainInfo,
                         fork: seq<ChainInfo>, reverted: seq<ChainInfo>)
    requires Branches(db, head, m, b, ancestor, fork, reverted) && forall c | c in db :: db[c].head == c
    ensures var a := ancestor.head.number;
            MovedMarks(db, ancestor, fork, reverted)
            == Switched(
              Reverted(db, head, a)[ancestor.head := ancestor.(successor := Some(fork[|fork| - 1].head))], b, a)
  {
    var a := ancestor.head.number;
    UnmarkingReverts(db, head, m, reverted, |reverted|);
    RevertedAncestor(db, head, ancestor);
    var db' := Reverted(db, head, a)[ancestor.head := ancestor.(successor := Some(fork[|fork| - 1].head))];
    assert db'.Keys == db.Keys;
    MarkingSwitches(db', b, m, fork, 0);
  }

  /** Moving the marks is the rebranch. */
  lemma MovedMarksRebranch(db: ChainDb, head: Block, m: nat, b: Block, ancestor: ChainInfo,
                           fork: seq<ChainInfo>, reverted: seq<ChainInfo>)
    requires Branches(db, head, m, b, ancestor, fork, reverted) && forall c | c in db :: db[c].head == c
    ensures MovedMarks(db, ancestor, fork, reverted) == RebranchedTo(db, head, b, ancestor.head.number)
  {
    MovedMarksSwitch(db, head, m, b, ancestor, fork, reverted);
    RevertedAncestor(db, head, ancestor);
    assert fork[|fork| - 1].head == At(b, ancestor.head.number + 1);
  }

  /** `path` lists the chain infos of the ancestors of `b`, newest first. */
  predicate PathOf(path: seq<ChainInfo>, b: Block) {
    |path| <= b.number && forall i | 0 <= i < |path| :: path[i].head == At(b, b.number - i)
  }

  // ---------- Macro blocks and pruning ----------

  /** Whether pruning at height `current` keeps a block. */
  predicate Retained(p: Policy, current: nat, number: nat)
    requires p.Valid() && number <= current
  {
    current - number <= if p.ElectionAt(number) then p.blocksPerEpoch else p.blocksPerBatch
  }

  /** Pruning does not underflow: nothing is stored above the current height. */
  ghost predicate UpTo(p: Policy, db: ChainDb, current: nat) {
    forall b | b in db :: p.genesis <= b.number <= current
  }

  ghost predicate ElectionsUpTo(p: Policy, elections: map<nat, Block>, current: nat) {
    forall e | e in elections :: p.genesis <= elections[e].number <= current
  }

  ghost function Pruned(p: Policy, db: ChainDb, current: nat): ChainDb
    requires p.Valid() && UpTo(p, db, current)
  {
    map b | b in db && Retained(p, current, b.number) :: db[b]
  }

  ghost function PrunedElections(p: Policy, elections: map<nat, Block>, current: nat): map<nat, Block>
    requires p.Valid() && ElectionsUpTo(p, elections, current)
  {
    map e | e in elections && Retained(p, current, elections[e].number) :: elections[e]
  }

  lemma HeightsUpTo(p: Policy, db: ChainDb, heights: HeightIndex, current: nat)
    requires Indexed(db, heights) && UpTo(p, db, current)
    ensures forall n | n in heights :: n <= current
  {
    forall n | n in heights ensures n <= current {
      var b := heights[n][0];
      assert b in heights[n] && b in db;
    }
  }

  lemma PruningKeepsIndex(p: Policy, db: ChainDb, heights: HeightIndex, db': ChainDb,
                          heights': HeightIndex, current: nat)
    requires Indexed(db, heights) && p.Valid() && UpTo(p, db, current)
    requires db' == Pruned(p, db, current)
    requires heights' == map n | n in heights && n <= current && Retained(p, current, n) :: heights[n]
    ensures Indexed(db', heights')
  {}

  /** Pruning keeps the whole last batch and more. */
  lemma PruningKeepsBatch(p: Policy, db: ChainDb, current: nat, b: Block)
    requires p.Valid() && UpTo(p, db, current) && b in db && b.number + p.blocksPerBatch >= current
    ensures b in Pruned(p, db, current)
  {}

  /** A child of a stored block closes the batch if it is a macro block, and stays inside it if it is not. */
  lemma SuccessorHeight(p: Policy, stored: set<Block>, head: Block, macroHead: Block, b: Block)
    requires Tree(p, stored, head, macroHead) && b.Child? && b.parent in stored
    requires b.number == b.parent.number + 1 && b.number > macroHead.number
    requires p.MacroAt(b.number) <==> b.IsMacro()
    ensures b.IsMacro() ==> b.number == macroHead.number + p.blocksPerBatch
    ensures !b.IsMacro() ==> Attached(p, stored, macroHead, b)
    ensures forall c | c in stored :: b.IsMacro() ==> c.number < b.number
  {
    var m := macroHead.number;
    MacroFromGenesis(p, m);
    assert p.MacroAt(m + p.blocksPerBatch);
    assert b.parent.number > m ==> Attached(p, stored, macroHead, b.parent);
    if b.IsMacro() {
      NextMacro(p, m, b.number);
      forall c | c in stored ensures c.number < b.number {
        assert c.number > m ==> Attached(p, stored, macroHead, c);
      }
    }
  }

  /** A macro block above everything stored becomes head and macro head, whatever is pruned below it. */
  lemma MacroKeepsTree(p: Policy, stored: set<Block>, b: Block)
    requires p.Valid() && b.IsMacro() && p.MacroAt(b.number)
    requires forall c | c in stored :: p.genesis <= c.number && (c.number < b.number || c == b)
    ensures Tree(p, stored + {b}, b, b) && Best(stored + {b}, b, b.number)
  {
    MacroFromGenesis(p, b.number);
  }

  lemma MacroKeepsSound(p: Policy, db: ChainDb, db': ChainDb, b: Block)
    requires p.Valid() && b.IsMacro() && p.MacroAt(b.number)
    requires db'.Keys <= db.Keys + {b} && b in db' && db'[b] == ChainInfo(b, true, None)
    requires forall c | c in db :: p.genesis <= c.number < b.number
    ensures Sound(p, db', b, b)
  {
    MacroKeepsTree(p, db'.Keys, b);
    assert db'.Keys + {b} == db'.Keys;
  }

  /** A macro block that reaches no further than the next election block keeps the election head due. */
  lemma ElectionHeadIsDue(p: Policy, m: nat, n: nat)
    requires p.Valid() && p.genesis <= m < n <= p.LastElection(m) + p.blocksPerEpoch
    ensures p.LastElection(n) == if p.ElectionAt(n) then n else p.LastElection(m)
  {
    var e := p.LastElection(m);
    if p.ElectionAt(n) {
      LastMacroUnique(p.Epochs(), n, n);
    } else {
      if n == e + p.blocksPerEpoch {
        assert p.ElectionAt(n);
      }
      LastMacroUnique(p.Epochs(), n, e);
    }
  }

  /** The election entries after a macro block that is not an election block. */
  lemma PruningKeepsElected(p: Policy, elections: map<nat, Block>, last: Block, genesis: Block, m: nat, n: nat)
    requires p.Valid() && p.genesis <= m < n <= p.LastElection(m) + p.blocksPerEpoch && !p.ElectionAt(n)
    requires Elected(p, elections, last, genesis, m)
    ensures ElectionsUpTo(p, elections, n)
    ensures Elected(p, PrunedElections(p, elections, n), last, genesis, n)
  {
    ElectionHeadIsDue(p, m, n);
  }

  /** The election entries after an election block. */
  lemma ElectionIsElected(p: Policy, elections: map<nat, Block>, b: Block, genesis: Block)
    requires p.Valid() && p.ElectionAt(b.number) && ElectionsUpTo(p, elections, b.number)
    ensures b.number >= p.genesis && Elected(p, elections[p.EpochAt(b.number) := b], b, genesis, b.number)
  {
    MacroFromGenesis(p.Epochs(), b.number);
    LastMacroUnique(p.Epochs(), b.number, b.number);
  }

  // ---------- The rank of a head ----------

  /** A macro head further up, or a better skip pattern above the same one. */
  ghost predicate Outranks(p: Policy, b: Block, a: Block)
    requires p.Valid() && a.number >= p.genesis && b.number >= p.genesis
  {
    var m, n := p.LastMacro(a.number), p.LastMacro(b.number);
    m < n || (m == n && Less(Word(a, m), Word(b, m)))
  }

  lemma OutranksTransitive(p: Policy, a: Block, b: Block, c: Block)
    requires p.Valid() && a.number >= p.genesis && b.number >= p.genesis && c.number >= p.genesis
    requires Outranks(p, b, a) && Outranks(p, c, b)
    ensures Outranks(p, c, a) && c != a
  {
    var l, m, n := p.LastMacro(a.number), p.LastMacro(b.number), p.LastMacro(c.number);
    if l == m == n { LessTransitive(Word(a, l), Word(b, l), Word(c, l)); }
    LessIrreflexive(Word(a, l));
  }

  /** A better block of the batch outranks the head. */
  lemma BetterOutranks(p: Policy, stored: set<Block>, head: Block, macroHead: Block, b: Block)
    requires Tree(p, stored, head, macroHead) && Attached(p, stored, macroHead, b)
    requires Less(Word(head, macroHead.number), Word(b, macroHead.number))
    ensures head.number >= p.genesis && b.number >= p.genesis && Outranks(p, b, head)
  {
    StoredInBatch(p, stored, head, macroHead, head);
    LastMacroUnique(p, b.number, macroHead.number);
  }

  /** A macro block above the macro head outranks the head. */
  lemma MacroOutranks(p: Policy, stored: set<Block>, head: Block, macroHead: Block, b: Block)
    requires Tree(p, stored, head, macroHead) && p.MacroAt(b.number) && b.number > macroHead.number
    ensures head.number >= p.genesis && b.number >= p.genesis && Outranks(p, b, head)
  {
    StoredInBatch(p, stored, head, macroHead, head);
    LastMacroUnique(p, b.number, b.number);
  }

  // ---------- Adopting a macro block ----------

  /** The stored blocks after `b` is added: a macro block prunes them. */
  function After(p: Policy, stored: set<Block>, b: Block): set<Block>
    requires p.Valid()
  {
    (if b.IsMacro() then set c | c in stored && c.number <= b.number && Retained(p, b.number, c.number) else stored)
    + {b}
  }

  /** Pruning leaves the marks of the retained blocks as they are. */
  lemma PruneFollows(p: Policy, db: ChainDb, head: Block, m: nat, db': ChainDb, b: Block)
    requires p.Valid() && UpTo(p, db', b.number) && Follows(db, head, m, db', b)
    ensures Follows(db, head, m, Pruned(p, db', b.number), b)
  {}

  /** Extending the chain by a macro block: its predecessor gets its successor before pruning. */
  lemma ExtendMacroFollows(p: Policy, db: ChainDb, head: Block, m: nat, b: Block)
    requires head in db && head.number >= m && b !in db && b.Child? && b.parent == head && b.number == head.number + 1
    requires p.Valid() && UpTo(p, Linking(db, head, b), b.number)
    ensures Follows(db, head, m, Pruned(p, Linking(db, head, b), b.number)[b := ChainInfo(b, true, None)], b)
  {
    ExtendFollows(db, head, m, b);
    var db' := Pruned(p, Linking(db, head, b), b.number)[b := ChainInfo(b, true, None)];
    forall c | c in db' ensures FollowsAt(db, head, m, db'[c], c, b) {
      assert db'[c] == ExtendedBy(db, head, b)[c];
    }
  }

  /** The chain infos, the head and the height of the macro head. */
  datatype ChainMarks = ChainMarks(db: ChainDb, head: Block, m: nat)

  ghost predicate FollowsOn(run: seq<ChainMarks>, i: nat)
    requires 0 < i < |run|
  {
    Follows(run[i - 1].db, run[i - 1].head, run[i - 1].m, run[i].db, run[i].head)
  }

  /** Once the marks follow the head from height `low` on, they do so for the whole run, however far the macro head
      moves on. */
  lemma {:induction false} RunKeepsFlags(run: seq<ChainMarks>, low: nat)
    requires |run| > 0 && Flags(run[0].db, run[0].head, low)
    requires forall i | 0 < i < |run| :: FollowsOn(run, i)
    ensures Flags(run[|run| - 1].db, run[|run| - 1].head, low)
  {
    if |run| > 1 {
      var earlier := run[..|run| - 1];
      forall i | 0 < i < |earlier| ensures FollowsOn(earlier, i) { assert FollowsOn(run, i); }
      RunKeepsFlags(earlier, low);
      assert FollowsOn(run, |run| - 1);
    }
  }

  lemma SyncKeepsSound(p: Policy, db: ChainDb, b: Block)
    requires p.Valid() && b !in db && b.IsMacro() && p.MacroAt(b.number)
    requires forall c | c in db :: p.genesis <= c.number < b.number
    ensures UpTo(p, db, b.number)
    ensures var db' := Pruned(p, db, b.number)[b := ChainInfo(b, true, None)];
            Sound(p, db', b, b) && db'.Keys == After(p, db.Keys, b)
  {
    var db' := Pruned(p, db, b.number)[b := ChainInfo(b, true, None)];
    MacroKeepsSound(p, db, db', b);
  }

  lemma PruneKeepsSound(p: Policy, stored: set<Block>, db: ChainDb, b: Block)
    requires p.Valid() && b.IsMacro() && p.MacroAt(b.number)
    requires db.Keys == stored + {b} && db[b] == ChainInfo(b, true, None)
    requires forall c | c in stored :: p.genesis <= c.number < b.number
    ensures UpTo(p, db, b.number)
    ensures Sound(p, Pruned(p, db, b.number), b, b) && Pruned(p, db, b.number).Keys == After(p, stored, b)
  {
    MacroFromGenesis(p, b.number);
    MacroKeepsSound(p, map c | c in stored :: db[c], Pruned(p, db, b.number), b);
  }

  /** The initial state: only the genesis block, as head and macro head. */
  lemma GenesisIsSound(p: Policy, genesis: Block)
    requires p.Valid() && genesis.IsMacro() && genesis.number == p.genesis
    ensures var db := map[genesis := ChainInfo(genesis, true, None)];
            Sound(p, db, genesis, genesis) && Indexed(db, map[genesis.number := [genesis]])
    ensures Elected(p, map[], genesis, genesis, p.genesis)
  {
    var db := map[genesis := ChainInfo(genesis, true, None)];
    MacroKeepsSound(p, map[], db, genesis);
    LastMacroUnique(p.Epochs(), p.genesis, p.genesis);
  }
}
