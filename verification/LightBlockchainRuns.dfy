/** Whole runs of the light client: heads only advance, and finalized blocks stay. */
module LightBlockchainRuns {
  import opened Policies
  import opened BlockTree
  import opened ChainState
  import opened LightBlockchain

  /** The head is the best of the stored blocks, which continue the macro head. */
  ghost predicate SoundView(p: Policy, s: View) {
    Tree(p, s.stored, s.head, s.macroHead) && Best(s.stored, s.head, s.macroHead.number)
  }

  /** The callers sync with macro and election blocks only. */
  predicate Sane(p: Policy, e: Event)
    requires p.Valid()
  {
    match e
    case BlockPushed(_, _) => true
    case MacroPushed(b, _) => b.IsMacro()
    case ElectionPushed(b, _) => b.IsMacro() && p.ElectionAt(b.number)
  }

  ghost predicate PushedAt(p: Policy, events: seq<Event>, states: seq<View>, results: seq<PushResult>, i: nat)
    requires i < |events| == |results| && |states| == |events| + 1
  {
    && p.Valid() && states[i].macroHead.number >= p.genesis && Sane(p, events[i])
    && Pushed(p, events[i], states[i], results[i], states[i + 1])
  }

  /** A run: one push for each event. */
  ghost predicate Trace(p: Policy, events: seq<Event>, states: seq<View>, results: seq<PushResult>) {
    && p.Valid() && |results| == |events| && |states| == |events| + 1
    && (forall i: nat {:trigger SoundView(p, states[i])} | i < |states| :: SoundView(p, states[i]))
    && (forall i: nat {:trigger PushedAt(p, events, states, results, i)} | i < |events| ::
          PushedAt(p, events, states, results, i))
  }

  // ---------- Heads ----------

  /** The head stays or is outranked. */
  ghost predicate Advances(p: Policy, before: Block, after: Block) {
    && p.Valid() && before.number >= p.genesis && after.number >= p.genesis
    && (after == before || Outranks(p, after, before))
  }

  lemma StepAdvances(p: Policy, e: Event, s: View, r: PushResult, s': View)
    requires p.Valid() && s.macroHead.number >= p.genesis
    requires SoundView(p, s) && SoundView(p, s') && Sane(p, e) && Pushed(p, e, s, r, s')
    ensures Advances(p, s.head, s'.head)
    ensures s'.macroHead == s.macroHead || s'.macroHead.number > s.macroHead.number
  {
    if s'.head != s.head {
      match e
      case BlockPushed(b, verified) =>
        var order :| Ordered(order, s.head, s.macroHead.number, b) && r == ResultOf(order);
        InsertOutranks(p, s.stored, s.head, s.macroHead, b, order);
      case MacroPushed(b, verified) => MacroOutranks(p, s.stored, s.head, s.macroHead, b);
      case ElectionPushed(b, verified) => MacroOutranks(p, s.stored, s.head, s.macroHead, b);
    }
  }

  /** Over any part of a run the head advances, and it is the same at the end only if it never changed. */
  lemma {:induction false} RunAdvances(
    p: Policy, events: seq<Event>, states: seq<View>, results: seq<PushResult>, i: nat, j: nat)
    requires Trace(p, events, states, results) && i <= j <= |events|
    ensures Advances(p, states[i].head, states[j].head)
    ensures states[i].head == states[j].head ==> forall k | i <= k <= j :: states[k].head == states[i].head
    ensures states[i].macroHead.number <= states[j].macroHead.number
    decreases j - i
  {
    assert SoundView(p, states[i]);
    if i < j {
      RunAdvances(p, events, states, results, i, j - 1);
      assert SoundView(p, states[j - 1]) && SoundView(p, states[j]) && PushedAt(p, events, states, results, j - 1);
      StepAdvances(p, events[j - 1], states[j - 1], results[j - 1], states[j]);
      var a, b, c := states[i].head, states[j - 1].head, states[j].head;
      if b != a && c != b {
        OutranksTransitive(p, a, b, c);
      }
      LessIrreflexive(Word(a, p.LastMacro(a.number)));
    }
  }

  /** An abandoned head is never adopted again. */
  lemma NoReadoption(
    p: Policy, events: seq<Event>, states: seq<View>, results: seq<PushResult>, i: nat, k: nat, j: nat)
    requires Trace(p, events, states, results) && i < k < j <= |events| && states[k].head != states[i].head
    ensures states[j].head != states[i].head
  {
    RunAdvances(p, events, states, results, i, j);
  }

  // ---------- What is adopted ----------

  /** A new block on a stored parent, with the next number and of the type that its height asks for. */
  predicate Continuing(p: Policy, s: View, b: Block)
    requires p.Valid()
  {
    && b !in s.stored && b.Child? && b.parent in s.stored && b.number == b.parent.number + 1
    && b.number > s.macroHead.number && (b.IsMacro() <==> p.MacroAt(b.number))
  }

  lemma ContinuingFits(p: Policy, s: View, b: Block, batchesPerEpoch: nat)
    requires SoundView(p, s) && Continuing(p, s, b) && p.blocksPerEpoch == p.blocksPerBatch * batchesPerEpoch
    ensures s.macroHead.number >= p.genesis && Fitting(p, s.stored, s.macroHead, b)
  {
    MacroFromGenesis(p, s.macroHead.number);
    SuccessorHeight(p, s.stored, s.head, s.macroHead, b);
    NextMacroInEpoch(p, s.macroHead.number, batchesPerEpoch);
  }

  /** If an epoch is a number of batches, every verified block that continues the head extends the chain, and at an
      election height it becomes the election head. */
  lemma NextIsExtended(p: Policy, s: View, b: Block, r: PushResult, s': View, batchesPerEpoch: nat)
    requires SoundView(p, s) && Continuing(p, s, b) && b.parent == s.head
    requires p.blocksPerEpoch == p.blocksPerBatch * batchesPerEpoch && s.macroHead.number >= p.genesis
    requires Pushed(p, BlockPushed(b, true), s, r, s')
    ensures r.Extended? && s'.head == b && b in s'.stored
    ensures s'.macroHead == if p.MacroAt(b.number) then b else s.macroHead
    ensures p.MacroAt(b.number) && p.ElectionAt(b.number) ==> s'.electionHead == b
  {
    ContinuingFits(p, s, b, batchesPerEpoch);
  }

  /** Of the verified blocks that continue a stored block, exactly the macro blocks and those with a better skip
      word are adopted, and all are stored. */
  lemma BetterIsAdopted(p: Policy, s: View, b: Block, r: PushResult, s': View, batchesPerEpoch: nat)
    requires SoundView(p, s) && Continuing(p, s, b)
    requires p.blocksPerEpoch == p.blocksPerBatch * batchesPerEpoch && s.macroHead.number >= p.genesis
    requires Pushed(p, BlockPushed(b, true), s, r, s')
    ensures b in s'.stored
    ensures s'.head == b <==> b.IsMacro() || Less(Word(s.head, s.macroHead.number), Word(b, s.macroHead.number))
    ensures b.IsMacro() ==> s'.macroHead == b
    ensures s'.head != b ==> s'.head == s.head && s'.macroHead == s.macroHead
  {
    ContinuingFits(p, s, b, batchesPerEpoch);
    var order :| Ordered(order, s.head, s.macroHead.number, b) && r == ResultOf(order);
    OrderedFork(p, s.stored, s.head, s.macroHead, b, order);
    if order.Extends? { ChildIsBetter(b, s.macroHead.number); }
  }

  /** A verified macro block that need not continue anything is taken over if and only if it is new, above the macro
      head, at a macro height, and skips no election block. */
  lemma MacroIsTakenOver(p: Policy, s: View, b: Block, verified: bool, r: PushResult, s': View)
    requires SoundView(p, s) && b.IsMacro() && s.macroHead.number >= p.genesis
    requires Pushed(p, MacroPushed(b, verified), s, r, s')
    ensures r.Extended? <==>
              && verified && b !in s.stored && b.number > s.macroHead.number && p.MacroAt(b.number)
              && forall h | s.macroHead.number < h < b.number :: !p.ElectionAt(h)
    ensures r.Extended? ==> s'.head == s'.macroHead == b
    ensures r.Extended? && p.ElectionAt(b.number) ==> s'.electionHead == b
  {
    if b.number > s.macroHead.number { NoneSkipped(p, s.macroHead.number, b.number); }
  }

  /** A new verified election block of any later epoch is taken over. */
  lemma ElectionIsTakenOver(p: Policy, s: View, b: Block, r: PushResult, s': View, batchesPerEpoch: nat)
    requires SoundView(p, s) && b.IsMacro() && p.ElectionAt(b.number) && s.macroHead.number >= p.genesis
    requires p.blocksPerEpoch == p.blocksPerBatch * batchesPerEpoch
    requires Pushed(p, ElectionPushed(b, true), s, r, s') && b !in s.stored && b.number > s.macroHead.number
    ensures r.Extended? && s'.head == s'.macroHead == s'.electionHead == b
  {
    ElectionIsMacro(p, b.number, batchesPerEpoch);
  }

  // ---------- What is pruned ----------

  /** Only election blocks are kept for more than a batch below the macro head, and for an epoch at most. */
  ghost predicate Recent(p: Policy, s: View)
    requires p.Valid()
  {
    forall c | c in s.stored ::
      && c.number + p.blocksPerEpoch >= s.macroHead.number
      && (!p.ElectionAt(c.number) ==> c.number + p.blocksPerBatch >= s.macroHead.number)
  }

  /** Every new macro head prunes the blocks that are too old. */
  lemma PushPrunes(p: Policy, e: Event, s: View, r: PushResult, s': View)
    requires p.Valid() && s.macroHead.number >= p.genesis && SoundView(p, s) && SoundView(p, s')
    requires Pushed(p, e, s, r, s') && (s'.macroHead != s.macroHead || Recent(p, s))
    ensures Recent(p, s')
  {}

  /** Over any run from a chain without old blocks, such as that of the genesis block, no old block is stored. */
  lemma {:induction false} RunStaysRecent(
    p: Policy, events: seq<Event>, states: seq<View>, results: seq<PushResult>, n: nat)
    requires Trace(p, events, states, results) && Recent(p, states[0]) && n <= |events|
    ensures Recent(p, states[n])
  {
    if n > 0 {
      RunStaysRecent(p, events, states, results, n - 1);
      assert SoundView(p, states[n - 1]) && SoundView(p, states[n]) && PushedAt(p, events, states, results, n - 1);
      PushPrunes(p, events[n - 1], states[n - 1], results[n - 1], states[n]);
    }
  }

  // ---------- Finality ----------

  ghost predicate Continues(b: Block, a: Block) {
    Linked(b, a.number) && OnPath(a, b)
  }

  lemma {:induction false} ContinuesTransitive(c: Block, b: Block, a: Block)
    requires Continues(c, b) && Continues(b, a)
    ensures Continues(c, a)
    decreases c
  {
    if c != b {
      assert c.number != b.number;
      ContinuesTransitive(c.parent, b, a);
    }
  }

  /** A pushed block never leaves the macro head. */
  lemma PushContinues(p: Policy, e: Event, s: View, r: PushResult, s': View)
    requires p.Valid() && s.macroHead.number >= p.genesis
    requires SoundView(p, s) && e.BlockPushed? && Pushed(p, e, s, r, s')
    ensures Continues(s'.head, s.macroHead) && Continues(s'.macroHead, s.macroHead)
  {
    StoredLinked(p, s.stored, s.head, s.macroHead, s.head);
    if s'.head != s.head {
      StoredLinked(p, s.stored, s.head, s.macroHead, e.block.parent);
    }
  }

  /** As long as no macro block is synced past unknown blocks, every macro head of the run stays on the chain
      of every later head. */
  lemma {:induction false} FinalityHolds(
    p: Policy, events: seq<Event>, states: seq<View>, results: seq<PushResult>, i: nat, j: nat)
    requires Trace(p, events, states, results) && i <= j <= |events|
    requires forall k | i <= k < j :: events[k].BlockPushed?
    ensures Continues(states[j].head, states[i].macroHead) && Continues(states[j].macroHead, states[i].macroHead)
    decreases j - i
  {
    if i == j {
      assert SoundView(p, states[i]);
      StoredLinked(p, states[i].stored, states[i].head, states[i].macroHead, states[i].head);
    } else {
      FinalityHolds(p, events, states, results, i, j - 1);
      assert SoundView(p, states[j - 1]) && PushedAt(p, events, states, results, j - 1);
      PushContinues(p, events[j - 1], states[j - 1], results[j - 1], states[j]);
      ContinuesTransitive(states[j].head, states[j - 1].macroHead, states[i].macroHead);
      ContinuesTransitive(states[j].macroHead, states[j - 1].macroHead, states[i].macroHead);
    }
  }

  /** Two nodes that hold the same blocks above the same macro head agree on the height and skip pattern of the head. */
  lemma NodesAgree(a: LightBlockchain, b: LightBlockchain)
    requires a.Valid() && b.Valid() && a.policy == b.policy && a.macroHead == b.macroHead
    requires forall c: Block | c.number > a.macroHead.number :: c in a.db <==> c in b.db
    ensures a.head.number == b.head.number
    ensures Word(a.head, a.macroHead.number) == Word(b.head, b.macroHead.number)
  {
    SameBlocksSamePattern(a.policy, a.db.Keys, a.head, b.db.Keys, b.head, a.macroHead);
  }

  // ---------- Running ----------

  /** One step of a run. */
  method Step(chain: LightBlockchain, e: Event) returns (r: PushResult)
    requires chain.Valid() && Sane(chain.policy, e)
    modifies chain
    ensures chain.Valid() && Pushed(chain.policy, e, old(chain.View()), r, chain.View())
  {
    match e
    case BlockPushed(b, verified) => r := chain.Push(b, verified);
    case MacroPushed(b, verified) => r := chain.PushMacro(b, verified);
    case ElectionPushed(b, verified) => r := chain.PushPicoElection(b, verified);
  }

  lemma TraceExtends(p: Policy, events: seq<Event>, i: nat, states: seq<View>, results: seq<PushResult>,
                     r: PushResult, s: View)
    requires i < |events| && Trace(p, events[..i], states, results) && SoundView(p, s)
    requires states[i].macroHead.number >= p.genesis && Sane(p, events[i]) && Pushed(p, events[i], states[i], r, s)
    ensures Trace(p, events[..i + 1], states + [s], results + [r])
  {
    var before, events', states', results' := events[..i], events[..i + 1], states + [s], results + [r];
    forall j: nat | j < i + 1 ensures PushedAt(p, events', states', results', j) {
      if j < i { assert PushedAt(p, before, states, results, j); }
    }
    forall j: nat | j < |states'| ensures SoundView(p, states'[j]) {
      if j < |states| { assert SoundView(p, states[j]); }
    }
  }

  /** Every run keeps the invariant and is a trace. */
  method Run(chain: LightBlockchain, events: seq<Event>) returns (results: seq<PushResult>, ghost states: seq<View>)
    requires chain.Valid() && forall e | e in events :: Sane(chain.policy, e)
    modifies chain
    ensures chain.Valid() && Trace(chain.policy, events, states, results)
    ensures states[0] == old(chain.View()) && states[|events|] == chain.View()
  {
    results, states := [], [chain.View()];
    for i := 0 to |events|
      invariant chain.Valid() && Trace(chain.policy, events[..i], states, results)
      invariant states[0] == old(chain.View()) && states[i] == chain.View()
    {
      var r := Step(chain, events[i]);
      TraceExtends(chain.policy, events, i, states, results, r, chain.View());
      results, states := results + [r], states + [chain.View()];
    }
    assert events[..|events|] == events;
  }
}
