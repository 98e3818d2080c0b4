/** Operations on the mempool: pruning, block building, chain updates. */
module Mempool {
  import opened MempoolTransactions
  import opened MempoolState
  import opened Sets

  function Elements(txs: seq<Tx>): set<Tx> {
    set tx | tx in txs
  }

  // ---------- Removing several transactions ----------

  predicate Mentions(txs: set<Tx>, sender: nat) {
    exists tx :: tx in txs && tx.sender == sender
  }

  /** What goes when `txns` are removed: they, and all transactions of their senders with unknown accounts. */
  ghost function Swept(chain: Chain, all: set<Tx>, txns: set<Tx>): set<Tx> {
    set t | t in all && (t in txns || (t.sender !in chain.accounts && Mentions(txns * all, t.sender)))
  }

  lemma SweptNone(chain: Chain, all: set<Tx>)
    ensures Swept(chain, all, {}) == {}
  {}

  lemma MentionsMore(txns: set<Tx>, all: set<Tx>, tx: Tx, sender: nat)
    ensures Mentions((txns + {tx}) * all, sender)
            <==> Mentions(txns * all, sender) || (tx in all && tx.sender == sender)
  {
    if Mentions((txns + {tx}) * all, sender) {
      var u :| u in (txns + {tx}) * all && u.sender == sender;
      assert u == tx || u in txns * all;
    }
    if Mentions(txns * all, sender) {
      var u :| u in txns * all && u.sender == sender;
      assert u in (txns + {tx}) * all;
    }
    if tx in all && tx.sender == sender { assert tx in (txns + {tx}) * all; }
  }

  lemma SweptMore(chain: Chain, senders: Senders, all: set<Tx>, txns: set<Tx>, tx: Tx)
    requires Accounted(senders, all - Swept(chain, all, txns), {})
    ensures Swept(chain, all, txns) + Gone(chain, senders, all - Swept(chain, all, txns), tx)
            == Swept(chain, all, txns + {tx})
  {
    var swept := Swept(chain, all, txns);
    var gone := Gone(chain, senders, all - swept, tx);
    forall t ensures t in swept + gone <==> t in Swept(chain, all, txns + {tx}) {
      MentionsMore(txns, all, tx, t.sender);
      if tx in all && tx in swept && tx.sender !in chain.accounts {
        assert Mentions(txns * all, tx.sender) by { if tx in txns { assert tx in txns * all; } }
      }
    }
  }

  method RemoveAll(state: MempoolState, chain: Chain, txns: seq<Tx>)
    requires state.Consistent({})
    modifies state
    ensures state.Consistent({})
    ensures var gone := Swept(chain, old(state.All()), Elements(txns));
            state.regular == Without(old(state.regular), gone) && state.control == Without(old(state.control), gone)
  {
    ghost var before, before', all := state.regular, state.control, state.All();
    ghost var gone := {};
    SweptNone(chain, all);
    WithoutNone(before);
    WithoutNone(before');
    for i := 0 to |txns|
      invariant state.Consistent({}) && gone == Swept(chain, all, Elements(txns[..i]))
      invariant state.regular == Without(before, gone) && state.control == Without(before', gone)
    {
      ghost var more := Gone(chain, state.senders, state.All(), txns[i]);
      assert state.All() == all - gone;
      SweptMore(chain, state.senders, all, Elements(txns[..i]), txns[i]);
      assert Elements(txns[..i + 1]) == Elements(txns[..i]) + {txns[i]};
      var removed := state.Remove(chain, txns[i], {});
      WithoutTwice(before, gone, more);
      WithoutTwice(before', gone, more);
      gone := gone + more;
    }
    assert txns[..|txns|] == txns;
  }

  /** Removing transactions that were popped from a queue before, among others, leaves a pool in order. */
  lemma SweepKeepsPool(regular: Container, control: Container, senders: Senders, limit: nat, gone: set<Tx>)
    requires StoredIn(regular, control, {}) && Few(regular.txs + control.txs, limit)
    requires regular.totalSize <= regular.limit && control.totalSize <= control.limit
    requires Accounted(senders, Without(regular, gone).txs + Without(control, gone).txs, {})
    ensures Pool(Without(regular, gone), Without(control, gone), senders, limit)
    ensures Without(regular, gone).totalSize <= regular.limit && Without(control, gone).totalSize <= control.limit
  {
    CutKeepsPool(regular, control, senders, limit, gone);
    WithoutKeepsValid(regular, gone, {});
    WithoutKeepsValid(control, gone, {});
  }

  lemma MoreElements<T>(q: map<Tx, T>, txs: seq<Tx>, tx: Tx)
    ensures Elements(txs + [tx]) == Elements(txs) + {tx}
    ensures q - Elements(txs) - {tx} == q - Elements(txs + [tx])
  {}

  lemma FewerKeys<T>(q: map<Tx, T>, tx: Tx)
    requires tx in q
    ensures |(q - {tx}).Keys| < |q.Keys|
  {
    assert (q - {tx}).Keys == q.Keys - {tx};
  }

  // ---------- Expired transactions ----------

  predicate IsValid(chain: Chain, tx: Tx) {
    tx.IsValidAt(chain.nextHeight, chain.batch, chain.window)
  }

  lemma QueuesAreFull(regular: Container, control: Container)
    requires StoredIn(regular, control, {})
    ensures Aged(regular) && Aged(control)
    ensures regular.Ranked() && control.Ranked()
  {
    BothAreValid(regular, control, {});
  }

  /** The queue of oldest transactions holds all of them by their start heights. */
  ghost predicate Aged(c: Container) {
    c.oldest.Keys == c.txs && forall tx | tx in c.oldest :: c.oldest[tx] == tx.start
  }

  /** The transactions that are older than, or as old as, invalid ones only. */
  ghost function Expired(txs: set<Tx>, chain: Chain): set<Tx> {
    set tx | tx in txs && NoneValidUpTo(txs, chain, tx.start)
  }

  ghost predicate NoneValidUpTo(txs: set<Tx>, chain: Chain, start: nat) {
    forall other | other in txs && other.start <= start :: !IsValid(chain, other)
  }

  /** Takes the transactions that are not valid any more from the queue of oldest transactions, up to the first
      valid one. */
  method GetExpired(c: Container, chain: Chain) returns (expired: seq<Tx>, rest: Container)
    requires Aged(c)
    ensures Elements(expired) == Expired(c.txs, chain)
    ensures rest == c.(oldest := c.oldest - Elements(expired))
  {
    expired := [];
    var oldest := c.oldest;
    assert oldest - {} == oldest;
    while oldest != map[]
      invariant oldest == c.oldest - Elements(expired) && Elements(expired) <= Expired(c.txs, chain)
      decreases |oldest.Keys|
    {
      var tx := NextOldest(oldest, chain, c, Elements(expired));
      if IsValid(chain, tx) { return expired, c.(oldest := oldest); }
      MoreElements(c.oldest, expired, tx);
      FewerKeys(oldest, tx);
      oldest := oldest - {tx};
      expired := expired + [tx];
    }
    AllExpired(c, chain, Elements(expired));
    rest := c.(oldest := oldest);
  }

  /** The oldest transaction left in a queue. If it is valid all expired ones were found, otherwise it is expired. */
  method NextOldest(left: map<Tx, nat>, chain: Chain, ghost c: Container, ghost done: set<Tx>) returns (tx: Tx)
    requires Aged(c) && left == c.oldest - done && left != map[] && done <= Expired(c.txs, chain)
    ensures tx in left
    ensures IsValid(chain, tx) ==> done == Expired(c.txs, chain)
    ensures !IsValid(chain, tx) ==> done + {tx} <= Expired(c.txs, chain)
  {
    OldestExists(left);
    tx :| IsOldest(left, tx);
    if IsValid(chain, tx) {
      StopAtValid(c, chain, done, tx);
    } else {
      NextExpired(c, chain, done, tx);
    }
  }

  lemma StopAtValid(c: Container, chain: Chain, done: set<Tx>, tx: Tx)
    requires Aged(c)
    requires done <= Expired(c.txs, chain) && IsOldest(c.oldest - done, tx) && IsValid(chain, tx)
    ensures done == Expired(c.txs, chain)
  {
    forall t | t in Expired(c.txs, chain) ensures t in done {
      assert t in done || t in c.oldest - done;
    }
  }

  lemma AllExpired(c: Container, chain: Chain, done: set<Tx>)
    requires c.oldest.Keys == c.txs && done <= Expired(c.txs, chain) && c.oldest - done == map[]
    ensures done == Expired(c.txs, chain)
  {
    forall t | t in Expired(c.txs, chain) ensures t in done {
      assert t in done || t in c.oldest - done;
    }
  }

  lemma NextExpired(c: Container, chain: Chain, done: set<Tx>, tx: Tx)
    requires Aged(c)
    requires done <= Expired(c.txs, chain) && IsOldest(c.oldest - done, tx) && !IsValid(chain, tx)
    ensures tx in Expired(c.txs, chain)
  {
    forall other | other in c.txs && other.start <= tx.start ensures !IsValid(chain, other) {
      if other !in done { assert other in c.oldest - done; }
    }
  }

  /** Popping from the queue of oldest transactions makes no difference if the transactions go next. */
  lemma OldestIsHarmless(c: Container, popped: set<Tx>, gone: set<Tx>)
    requires popped <= gone
    ensures Without(c.(oldest := c.oldest - popped), gone) == Without(c, gone)
  {
    assert c.oldest - popped - gone == c.oldest - gone;
  }

  lemma SweptContains(chain: Chain, all: set<Tx>, txns: set<Tx>, some: set<Tx>)
    requires some <= all && some <= txns
    ensures some <= Swept(chain, all, txns)
  {}

  ghost function ExpiredIn(chain: Chain, s: Contents): set<Tx> {
    Expired(s.regular.txs, chain) + Expired(s.control.txs, chain)
  }

  /** What is past its window has expired, and what has expired is past its window or not valid yet, with nothing
      valid that starts earlier. */
  lemma ExpiredIsPast(txs: set<Tx>, chain: Chain, tx: Tx)
    requires tx in txs
    ensures chain.nextHeight >= tx.start + chain.window ==> tx in Expired(txs, chain)
    ensures tx in Expired(txs, chain) ==>
              || chain.nextHeight >= tx.start + chain.window
              || (chain.nextHeight + chain.batch < tx.start && NoneValidUpTo(txs, chain, tx.start))
  {}

  /** Removes the expired transactions. */
  method PruneExpired(state: MempoolState, chain: Chain)
    requires state.Valid()
    modifies state
    ensures state.Valid()
    ensures Lessened(old(state.Now()), Swept(chain, old(state.All()), ExpiredIn(chain, old(state.Now()))), state.Now())
  {
    ghost var before, before' := state.regular, state.control;
    PoolIsConsistent(before, before', state.senders, state.perSender);
    QueuesAreFull(before, before');
    var fromControl, control' := GetExpired(state.control, chain);
    var fromRegular, regular' := GetExpired(state.regular, chain);
    state.control := control';
    state.regular := regular';
    assert Elements(fromControl + fromRegular) == Elements(fromRegular) + Elements(fromControl);
    RemoveAll(state, chain, fromControl + fromRegular);
    ghost var gone := Swept(chain, old(state.All()), Elements(fromControl + fromRegular));
    SweptContains(chain, old(state.All()), Elements(fromControl + fromRegular), Elements(fromRegular));
    SweptContains(chain, old(state.All()), Elements(fromControl + fromRegular), Elements(fromControl));
    OldestIsHarmless(before, Elements(fromRegular), gone);
    OldestIsHarmless(before', Elements(fromControl), gone);
    SweepKeepsPool(before, before', state.senders, state.perSender, gone);
  }

  // ---------- Transactions for a block ----------

  /** The size of transactions in a block: each takes one byte more for its status. */
  function Encoded(txs: seq<Tx>): nat {
    if txs == [] then 0 else Encoded(txs[..|txs| - 1]) + 1 + txs[|txs| - 1].size
  }

  /** The next of `txs` is always the best of what is left in a queue. */
  ghost predicate BestFirst(q: Queue, txs: seq<Tx>) {
    forall i {:trigger BestAt(q, txs, i)} | 0 <= i < |txs| :: BestAt(q, txs, i)
  }

  ghost predicate BestAt(q: Queue, txs: seq<Tx>, i: nat)
    requires i < |txs|
  {
    IsBest(q - Elements(txs[..i]), txs[i])
  }

  lemma BestFirstMore(q: Queue, txs: seq<Tx>, tx: Tx)
    requires BestFirst(q, txs) && IsBest(q - Elements(txs), tx)
    ensures BestFirst(q, txs + [tx])
  {
    forall i | 0 <= i < |txs + [tx]| ensures BestAt(q, txs + [tx], i) {
      if i < |txs| {
        assert BestAt(q, txs, i) && (txs + [tx])[..i] == txs[..i];
      } else {
        assert (txs + [tx])[..i] == txs;
      }
    }
  }

  /** Earlier ones are better than later ones, and all are better than the rest of the queue. */
  lemma BestFirstIsOrdered(q: Queue, txs: seq<Tx>, i: nat)
    requires BestFirst(q, txs) && i < |txs|
    ensures txs[i] in q
    ensures forall j | i < j < |txs| :: txs[j] in q && Better(q[txs[i]], q[txs[j]])
    ensures forall tx | tx in q && tx !in txs :: Better(q[txs[i]], q[tx])
  {
    assert BestAt(q, txs, i);
    var left := q - Elements(txs[..i]);
    forall j | i < j < |txs| ensures txs[j] in q && Better(q[txs[i]], q[txs[j]]) {
      assert BestAt(q, txs, j);
      assert txs[i] in txs[..j];
      assert forall x | x in txs[..i] :: x in txs[..j];
      assert txs[j] in left && left[txs[j]] == q[txs[j]];
    }
    forall tx | tx in q && tx !in txs ensures Better(q[txs[i]], q[tx]) {
      assert tx !in txs[..i];
      assert tx in left && left[tx] == q[tx];
    }
  }

  /** Takes the best transactions that fit, up to the first that does not. */
  method SelectBest(c: Container, maxBytes: nat) returns (txs: seq<Tx>, size: nat, rest: Container)
    requires c.Ranked()
    ensures BestFirst(c.best, txs) && rest == c.(best := c.best - Elements(txs))
    ensures size == Encoded(txs) <= maxBytes
    ensures forall tx | IsBest(rest.best, tx) :: size + 1 + tx.size > maxBytes
  {
    txs, size := [], 0;
    var best := c.best;
    assert best == c.best - Elements([]);
    while best != map[]
      invariant best == c.best - Elements(txs) && BestFirst(c.best, txs) && size == Encoded(txs) <= maxBytes
      decreases |best.Keys|
    {
      var tx := NextBest(best, c, txs);
      if size + 1 + tx.size > maxBytes {
        return txs, size, c.(best := best);
      }
      SelectMore(c.best, best, txs, tx);
      best := best - {tx};
      size := size + 1 + tx.size;
      txs := txs + [tx];
    }
    rest := c.(best := best);
  }

  /** The best transaction left in a queue. */
  method NextBest(left: Queue, ghost c: Container, ghost txs: seq<Tx>) returns (tx: Tx)
    requires c.Ranked() && BestFirst(c.best, txs) && left == c.best - Elements(txs) && left != map[]
    ensures tx in left && BestFirst(c.best, txs + [tx]) && forall other | IsBest(left, other) :: other == tx
  {
    assert RankedQueue(c.best, c.counter);
    EndsExist(left, c.counter);
    tx :| IsBest(left, tx);
    BestIsUnique(left, tx);
    BestFirstMore(c.best, txs, tx);
  }

  lemma SelectMore(q: Queue, left: Queue, txs: seq<Tx>, tx: Tx)
    requires tx in left && left == q - Elements(txs)
    ensures left - {tx} == q - Elements(txs + [tx]) && |(left - {tx}).Keys| < |left.Keys|
    ensures Encoded(txs + [tx]) == Encoded(txs) + 1 + tx.size
  {
    EncodedMore(txs, tx);
    MoreElements(q, txs, tx);
    FewerKeys(left, tx);
  }

  lemma EncodedMore(txs: seq<Tx>, tx: Tx)
    ensures Encoded(txs + [tx]) == Encoded(txs) + 1 + tx.size
  {
    assert (txs + [tx])[..|txs|] == txs;
  }

  lemma BestIsUnique(q: Queue, tx: Tx)
    requires IsBest(q, tx)
    ensures forall other | IsBest(q, other) :: other == tx
  {
    forall other | IsBest(q, other) ensures other == tx {
      if other != tx { OrdersAreReverse(q[tx], q[other]); }
    }
  }

  /** The best transactions that fit into `maxBytes`, up to the first that does not. */
  ghost predicate Fitting(part: Container, maxBytes: nat, txs: seq<Tx>, size: nat) {
    && BestFirst(part.best, txs) && size == Encoded(txs) <= maxBytes
    && forall tx | IsBest(part.best - Elements(txs), tx) :: size + 1 + tx.size > maxBytes
  }

  /** Earlier ones win against later ones and against what is left: by priority, by fee per byte or by age. */
  ghost predicate WinnersFirst(part: Container, txs: seq<Tx>) {
    forall i, tx {:trigger WinsAt(part, txs, i, tx)} | 0 <= i < |txs| && tx in part.txs && tx !in txs[..i + 1] ::
      WinsAt(part, txs, i, tx)
  }

  ghost predicate WinsAt(part: Container, txs: seq<Tx>, i: nat, tx: Tx)
    requires i < |txs|
  {
    && txs[i] in part.best && tx in part.best && Wins(part.best[txs[i]], part.best[tx])
    && (part.best[txs[i]].priority == part.best[tx].priority ==> txs[i].feePerByte >= tx.feePerByte)
  }

  lemma BestAreWinners(part: Container, txs: seq<Tx>)
    requires part.Valid({}) && BestFirst(part.best, txs)
    ensures WinnersFirst(part, txs)
  {
    assert RankedQueue(part.best, part.counter);
    forall i, tx {:trigger WinsAt(part, txs, i, tx)} | 0 <= i < |txs| && tx in part.txs && tx !in txs[..i + 1]
      ensures WinsAt(part, txs, i, tx)
    {
      assert BestAt(part.best, txs, i);
      var left := part.best - Elements(txs[..i]);
      assert tx != txs[i] && tx !in txs[..i] by { assert txs[..i + 1] == txs[..i] + [txs[i]]; }
      assert tx in left && left[tx] == part.best[tx];
      BetterIsExact(part.best[txs[i]], part.best[tx]);
    }
  }

  lemma BestIsHarmless(c: Container, popped: set<Tx>, gone: set<Tx>)
    requires popped <= gone
    ensures Without(c.(best := c.best - popped), gone) == Without(c, gone)
  {
    assert c.best - popped - gone == c.best - gone;
  }

  /** Hands out the best regular or control transactions for a block, and removes them. */
  method HandOut(state: MempoolState, chain: Chain, fromControl: bool, maxBytes: nat) returns (txs: seq<Tx>, size: nat)
    requires state.Valid()
    modifies state
    ensures state.Valid()
    ensures Fitting(old(state.Part(fromControl)), maxBytes, txs, size)
    ensures WinnersFirst(old(state.Part(fromControl)), txs)
    ensures Lessened(old(state.Now()), Swept(chain, old(state.All()), Elements(txs)), state.Now())
  {
    ghost var before, before' := state.regular, state.control;
    PoolIsConsistent(before, before', state.senders, state.perSender);
    QueuesAreFull(before, before');
    var rest;
    txs, size, rest := SelectBest(state.Part(fromControl), maxBytes);
    SelectedAreStored(state.Part(fromControl), txs);
    BothAreValid(before, before', {});
    BestAreWinners(state.Part(fromControl), txs);
    if fromControl { state.control := rest; } else { state.regular := rest; }
    RemoveAll(state, chain, txs);
    ghost var gone := Swept(chain, old(state.All()), Elements(txs));
    SweptContains(chain, old(state.All()), Elements(txs), Elements(txs));
    BestIsHarmless(if fromControl then before' else before, Elements(txs), gone);
    SweepKeepsPool(before, before', state.senders, state.perSender, gone);
  }

  lemma SelectedAreStored(c: Container, txs: seq<Tx>)
    requires BestFirst(c.best, txs) && c.best.Keys <= c.txs
    ensures Elements(txs) <= c.txs
  {
    forall tx | tx in Elements(txs) ensures tx in c.txs {
      var i :| 0 <= i < |txs| && txs[i] == tx;
      assert BestAt(c.best, txs, i);
    }
  }

  // ---------- Returning transactions ----------

  ghost function Kind(txs: set<Tx>, control: bool): set<Tx> {
    set tx | tx in txs && tx.control == control
  }

  /** The transactions `all` have room in the mempool: their sizes and their number per sender are within the limits. */
  ghost predicate Room(all: set<Tx>, regularLimit: nat, controlLimit: nat, perSender: nat) {
    && Total(Kind(all, false), Size()) <= regularLimit && Total(Kind(all, true), Size()) <= controlLimit
    && Few(all, perSender)
  }

  /** A transaction that still applies, with a known sender whose balance covers all of its transactions in `all`. */
  ghost predicate Acceptable(chain: Chain, all: set<Tx>, tx: Tx) {
    && IsValid(chain, tx) && tx !in chain.included
    && tx.sender in chain.accounts && Total(Of(all, tx.sender), Amount()) <= chain.accounts[tx.sender]
  }

  lemma OfMore(some: set<Tx>, all: set<Tx>, tx: Tx)
    requires some + {tx} <= all
    ensures Of(some, tx.sender) + {tx} <= Of(all, tx.sender)
  {}

  /** If there is room for everything, the sender's limit admits the next transaction. */
  lemma RoomCounts(senders: Senders, some: set<Tx>, all: set<Tx>, perSender: nat, tx: Tx)
    requires Accounted(senders, some, {}) && some + {tx} <= all && tx !in some && Few(all, perSender)
    ensures tx.sender in senders ==> |senders[tx.sender].txns| < perSender
  {
    var mine, ours := Of(some, tx.sender), Of(all, tx.sender);
    OfMore(some, all, tx);
    SubsetSize(mine + {tx}, ours);
    assert |ours| <= AtLeastOne(perSender);
    if tx.sender in senders { assert ExactEntry(senders[tx.sender], mine); }
  }

  /** If there is room for everything, the next transaction fits into its container. */
  lemma RoomFits(c: Container, some: set<Tx>, all: set<Tx>, tx: Tx, isControl: bool)
    requires c.Counts() && c.txs == Kind(some, isControl) && some + {tx} <= all && tx !in some
    requires Total(Kind(all, isControl), Size()) <= c.limit
    ensures Fits(c, tx, isControl)
  {
    var txs := if tx.control == isControl then c.txs + {tx} else c.txs;
    if tx.control == isControl { TotalAdd(c.txs, Size(), tx); }
    assert txs <= Kind(all, isControl);
    TotalMonotone(txs, Kind(all, isControl), Size());
  }

  lemma WithoutUnion(regular: Container, control: Container, gone: set<Tx>)
    ensures Without(regular, gone).txs + Without(control, gone).txs == regular.txs + control.txs - gone
  {}

  /** The container has room for one transaction more. */
  predicate Fits(c: Container, tx: Tx, isControl: bool) {
    var c' := Inserted(c, tx, Medium, isControl);
    c'.totalSize <= c'.limit
  }

  /** The mempool is in order and within its limits. */
  ghost predicate Sound(perSender: nat, s: Contents) {
    && Pool(s.regular, s.control, s.senders, perSender)
    && s.regular.totalSize <= s.regular.limit && s.control.totalSize <= s.control.limit
  }

  /** A transaction is put back with medium priority, unless it is there or does not apply any more. */
  ghost predicate ReturnedOne(chain: Chain, perSender: nat, s: Contents, tx: Tx, s': Contents) {
    if tx in s.All() || !IsValid(chain, tx) || tx in chain.included then s' == s
    else exists r :: PutStep(chain, perSender, s, tx, Medium, r, s')
  }

  ghost predicate ReturnedAt(chain: Chain, perSender: nat, txs: seq<Tx>, states: seq<Contents>, i: nat)
    requires i < |txs| && |states| == |txs| + 1
  {
    ReturnedOne(chain, perSender, states[i], txs[i], states[i + 1])
  }

  /** The states through which transactions are put back one by one. */
  ghost predicate Returned(chain: Chain, perSender: nat, txs: seq<Tx>, states: seq<Contents>) {
    && |states| == |txs| + 1
    && (forall i: nat {:trigger Sound(perSender, states[i])} | i < |states| :: Sound(perSender, states[i]))
    && (forall i: nat {:trigger ReturnedAt(chain, perSender, txs, states, i)} | i < |txs| ::
          ReturnedAt(chain, perSender, txs, states, i))
  }

  lemma ReturnedConcat(chain: Chain, perSender: nat, txs: seq<Tx>, states: seq<Contents>, txs': seq<Tx>,
                       states': seq<Contents>)
    requires Returned(chain, perSender, txs, states) && Returned(chain, perSender, txs', states')
    requires states'[0] == states[|txs|]
    ensures Returned(chain, perSender, txs + txs', states + states'[1..])
    ensures (states + states'[1..])[|txs + txs'|] == states'[|txs'|] && (states + states'[1..])[0] == states[0]
  {
    var all, all' := txs + txs', states + states'[1..];
    forall i: nat | i < |all'| ensures Sound(perSender, all'[i]) {
      assert Sound(perSender, if i < |states| then states[i] else states'[i - |txs|]);
    }
    forall i: nat | i < |all| ensures ReturnedAt(chain, perSender, all, all', i) {
      if i < |txs| {
        assert ReturnedAt(chain, perSender, txs, states, i);
      } else {
        assert ReturnedAt(chain, perSender, txs', states', i - |txs|);
        assert all'[i] == states'[i - |txs|] && all'[i + 1] == states'[i - |txs| + 1];
      }
    }
  }

  lemma ReturnedNone(chain: Chain, perSender: nat, s: Contents)
    requires Sound(perSender, s)
    ensures Returned(chain, perSender, [], [s])
  {}

  lemma ReturnedMore(chain: Chain, perSender: nat, txs: seq<Tx>, states: seq<Contents>, tx: Tx, s: Contents)
    requires Returned(chain, perSender, txs, states) && Sound(perSender, s)
    requires ReturnedOne(chain, perSender, states[|txs|], tx, s)
    ensures Returned(chain, perSender, txs + [tx], states + [s])
  {
    var last := states[|txs|];
    assert Sound(perSender, last);
    assert ReturnedAt(chain, perSender, [tx], [last, s], 0);
    assert forall i: nat | i < 2 :: Sound(perSender, [last, s][i]);
    ReturnedConcat(chain, perSender, txs, states, [tx], [last, s]);
    assert [last, s][1..] == [s];
  }

  /** What the sender has reserved, and what a transaction needs in addition. */
  lemma NeededWith(senders: Senders, all: set<Tx>, tx: Tx)
    requires Accounted(senders, all, {}) && tx !in all
    ensures Total(Of(all + {tx}, tx.sender), Amount()) == ReservedBy(senders, tx.sender) + tx.amount
  {
    var mine := Of(all, tx.sender);
    OfAdd(all, tx, tx.sender);
    TotalAdd(mine, Amount(), tx);
    if tx.sender in senders {
      assert ExactEntry(senders[tx.sender], mine);
    } else {
      assert mine == {};
      assert Total({}, Amount()) == 0;
    }
  }

  /** A transaction passes the checks if and only if its sender has room for it, has a known account, and a balance
      that covers it together with the others. */
  lemma CheckIsExact(chain: Chain, senders: Senders, all: set<Tx>, perSender: nat, tx: Tx)
    requires Accounted(senders, all, {}) && tx !in all
    ensures CheckSender(chain, senders, perSender, tx).Accepted? <==>
              && (Of(all, tx.sender) == {} || |Of(all, tx.sender)| < perSender)
              && tx.sender in chain.accounts
              && Total(Of(all + {tx}, tx.sender), Amount()) <= chain.accounts[tx.sender]
    ensures CheckSender(chain, senders, perSender, tx).SenderLimitReached? <==>
              Of(all, tx.sender) != {} && |Of(all, tx.sender)| >= perSender
    ensures CheckSender(chain, senders, perSender, tx).NoConsensus? ==> tx.sender !in chain.accounts
  {
    NeededWith(senders, all, tx);
    if tx.sender in senders {
      assert ExactEntry(senders[tx.sender], Of(all, tx.sender));
    } else {
      assert Of(all, tx.sender) == {};
    }
  }

  lemma AcceptableWithLess(chain: Chain, some: set<Tx>, all: set<Tx>, tx: Tx)
    requires Acceptable(chain, all, tx) && some <= all
    ensures Acceptable(chain, some, tx)
  {
    assert Of(some, tx.sender) <= Of(all, tx.sender);
    TotalMonotone(Of(some, tx.sender), Of(all, tx.sender), Amount());
  }

  /** What is put has been checked, so it is acceptable, and nothing but it is new. */
  lemma ReturnedOneShape(chain: Chain, perSender: nat, s: Contents, tx: Tx, s': Contents)
    requires Sound(perSender, s) && ReturnedOne(chain, perSender, s, tx, s')
    ensures s'.regular.limit == s.regular.limit && s'.control.limit == s.control.limit
    ensures s'.All() <= s.All() + {tx}
    ensures s' == s || (tx !in s.All() && Acceptable(chain, s.All() + {tx}, tx))
  {
    if s' != s {
      var r :| PutStep(chain, perSender, s, tx, Medium, r, s');
      var gone :| PutEvicting(chain, s, tx, Medium, gone, s');
      NeededWith(s.senders, s.All(), tx);
      PutShape(s.regular, s.control, tx, gone);
    }
  }

  lemma PutShape(regular: Container, control: Container, tx: Tx, gone: set<Tx>)
    requires tx !in regular.txs && tx !in control.txs
    ensures var regular' := Without(Inserted(regular, tx, Medium, false), gone);
            var control' := Without(Inserted(control, tx, Medium, true), gone);
            && regular'.limit == regular.limit && control'.limit == control.limit
            && regular'.txs + control'.txs == regular.txs + control.txs + {tx} - gone
  {
    InsertedUnion(regular, control, tx, Medium);
    WithoutUnion(Inserted(regular, tx, Medium, false), Inserted(control, tx, Medium, true), gone);
  }

  /** If there is room for everything, the next transaction fits, and the sender's limit admits it. */
  lemma RoomForNext(s: Contents, all: set<Tx>, perSender: nat, tx: Tx)
    requires Pool(s.regular, s.control, s.senders, perSender) && tx !in s.All()
    requires Room(all, s.regular.limit, s.control.limit, perSender) && s.All() + {tx} <= all
    ensures tx.sender in s.senders ==> |s.senders[tx.sender].txns| < perSender
    ensures Fits(s.regular, tx, false) && Fits(s.control, tx, true)
  {
    RoomCounts(s.senders, s.All(), all, perSender, tx);
    PoolIsConsistent(s.regular, s.control, s.senders, perSender);
    KindsOfAll(s.regular.txs, s.control.txs);
    RoomFits(s.regular, s.All(), all, tx, false);
    RoomFits(s.control, s.All(), all, tx, true);
  }

  /** Without a need to evict, putting adds the transaction. */
  lemma PutAdds(chain: Chain, perSender: nat, s: Contents, tx: Tx, gone: set<Tx>, s': Contents)
    requires Pool(s.regular, s.control, s.senders, perSender) && tx !in s.All()
    requires PutEvicting(chain, s, tx, Medium, gone, s') && Fits(s.regular, tx, false) && Fits(s.control, tx, true)
    ensures s'.All() == s.All() + {tx}
  {
    InsertKeepsStored(s.regular, s.control, tx, Medium);
    var regular, control := Inserted(s.regular, tx, Medium, false), Inserted(s.control, tx, Medium, true);
    BothAreValid(regular, control, {});
    TrimIsNeeded(chain, regular, control, gone);
    PutShape(s.regular, s.control, tx, gone);
  }

  /** If there is room for everything, a transaction is put back exactly if it is acceptable. */
  lemma ReturnedWithRoom(chain: Chain, perSender: nat, s: Contents, tx: Tx, s': Contents, all: set<Tx>)
    requires Sound(perSender, s) && ReturnedOne(chain, perSender, s, tx, s') && s.All() + {tx} <= all
    requires Room(all, s.regular.limit, s.control.limit, perSender)
    ensures s'.All() == if tx in s.All() || Acceptable(chain, s.All() + {tx}, tx) then s.All() + {tx} else s.All()
  {
    if tx !in s.All() && IsValid(chain, tx) && tx !in chain.included {
      RoomForNext(s, all, perSender, tx);
      NeededWith(s.senders, s.All(), tx);
      var r :| PutStep(chain, perSender, s, tx, Medium, r, s');
      if r.Accepted? {
        var gone :| PutEvicting(chain, s, tx, Medium, gone, s');
        PutAdds(chain, perSender, s, tx, gone, s');
      }
    } else if tx in s.All() {
      assert s.All() + {tx} == s.All();
    }
  }

  ghost predicate AllAcceptable(chain: Chain, all: set<Tx>, txs: set<Tx>) {
    forall tx | tx in txs :: Acceptable(chain, all, tx)
  }

  /** What is in the mempool after `txs` are returned. If there is room, nothing goes and what is not put back is
      not acceptable beside the rest. */
  ghost predicate Returning(chain: Chain, now: set<Tx>, before: set<Tx>, txs: set<Tx>, room: bool) {
    && now <= before + txs && AllAcceptable(chain, now, now - before)
    && (room ==> before <= now && forall tx | tx in txs && tx !in now :: !Acceptable(chain, now + {tx}, tx))
  }

  lemma ReturnStep(chain: Chain, now: set<Tx>, now': set<Tx>, before: set<Tx>, txs: set<Tx>, tx: Tx, room: bool)
    requires Returning(chain, now, before, txs, room) && now' <= now + {tx}
    requires now' == now || (tx !in now && Acceptable(chain, now + {tx}, tx))
    requires room ==> now' == if tx in now || Acceptable(chain, now + {tx}, tx) then now + {tx} else now
    ensures Returning(chain, now', before, txs + {tx}, room)
  {
    forall t | t in now' - before ensures Acceptable(chain, now', t) {
      if now' != now { AcceptableAfter(chain, now, now', tx, t); }
    }
    if room {
      forall t | t in txs + {tx} && t !in now' ensures !Acceptable(chain, now' + {t}, t) {
        if Acceptable(chain, now' + {t}, t) { AcceptableWithLess(chain, now + {t}, now' + {t}, t); }
      }
    }
  }

  lemma AcceptableAfter(chain: Chain, now: set<Tx>, now': set<Tx>, tx: Tx, t: Tx)
    requires now' <= now + {tx} && Acceptable(chain, now + {tx}, tx) && (t == tx || Acceptable(chain, now, t))
    ensures Acceptable(chain, now', t)
  {
    var mine := Of(now', t.sender);
    OfAdd(now, tx, t.sender);
    if t.sender == tx.sender {
      assert mine <= Of(now + {tx}, tx.sender);
      TotalMonotone(mine, Of(now + {tx}, tx.sender), Amount());
    } else {
      assert mine <= Of(now, t.sender);
      TotalMonotone(mine, Of(now, t.sender), Amount());
    }
  }

  lemma NextElement(txs: seq<Tx>, i: nat)
    requires i < |txs|
    ensures txs[i] in Elements(txs) && Elements(txs[..i + 1]) == Elements(txs[..i]) + {txs[i]} <= Elements(txs)
  {}

  /** There is room for a whole list of transactions. */
  ghost predicate RoomFor(s: Contents, txs: set<Tx>, perSender: nat) {
    Room(s.All() + txs, s.regular.limit, s.control.limit, perSender)
  }

  lemma {:induction false} ReturnedShape(chain: Chain, perSender: nat, txs: seq<Tx>, states: seq<Contents>, n: nat)
    requires Returned(chain, perSender, txs, states) && n <= |txs|
    ensures states[n].regular.limit == states[0].regular.limit && states[n].control.limit == states[0].control.limit
    ensures Returning(chain, states[n].All(), states[0].All(), Elements(txs[..n]),
                      RoomFor(states[0], Elements(txs), perSender))
  {
    if n > 0 {
      ReturnedShape(chain, perSender, txs, states, n - 1);
      NextElement(txs, n - 1);
      assert Sound(perSender, states[n - 1]) && ReturnedAt(chain, perSender, txs, states, n - 1);
      ReturnedNext(chain, perSender, states[n - 1], txs[n - 1], states[n], states[0].All(), Elements(txs[..n - 1]),
                   states[0].All() + Elements(txs), RoomFor(states[0], Elements(txs), perSender));
    }
  }

  lemma ReturnedNext(chain: Chain, perSender: nat, s: Contents, tx: Tx, s': Contents, before: set<Tx>, done: set<Tx>,
                     all: set<Tx>, room: bool)
    requires Sound(perSender, s) && ReturnedOne(chain, perSender, s, tx, s')
             && Returning(chain, s.All(), before, done, room)
    requires s.All() + {tx} <= all && (room ==> Room(all, s.regular.limit, s.control.limit, perSender))
    ensures s'.regular.limit == s.regular.limit && s'.control.limit == s.control.limit
    ensures Returning(chain, s'.All(), before, done + {tx}, room)
  {
    ReturnedOneShape(chain, perSender, s, tx, s');
    if room { ReturnedWithRoom(chain, perSender, s, tx, s', all); }
    ReturnStep(chain, s.All(), s'.All(), before, done, tx, room);
  }

  /** With room, everything is put back if and only if all of it is acceptable. */
  lemma AllReturned(chain: Chain, now: set<Tx>, before: set<Tx>, txs: set<Tx>)
    requires Returning(chain, now, before, txs, true)
    ensures now == before + txs <==> AllAcceptable(chain, before + txs, before + txs - before)
  {
    var all := before + txs;
    if AllAcceptable(chain, all, all - before) {
      forall tx | tx in txs ensures tx in now {
        if tx !in now {
          assert tx in all - before;
          AcceptableWithLess(chain, now + {tx}, all, tx);
        }
      }
    }
  }

  /** Adds back one transaction, unless it does not apply any more. */
  method ReturnOne(state: MempoolState, chain: Chain, tx: Tx)
    requires state.Valid()
    modifies state
    ensures state.Valid() && ReturnedOne(chain, state.perSender, old(state.Now()), tx, state.Now())
  {
    if !state.Contains(tx) && IsValid(chain, tx) && tx !in chain.included {
      var r := state.Put(chain, tx, Medium);
    }
  }

  /** Puts back transactions that were handed out but did not make it into a block. */
  method ReturnAll(state: MempoolState, chain: Chain, txs: seq<Tx>) returns (ghost states: seq<Contents>)
    requires state.Valid()
    modifies state
    ensures state.Valid() && Returned(chain, state.perSender, txs, states)
    ensures states[0] == old(state.Now()) && states[|txs|] == state.Now()
    ensures Returning(chain, state.All(), old(state.All()), Elements(txs),
                      RoomFor(old(state.Now()), Elements(txs), state.perSender))
  {
    states := [state.Now()];
    ReturnedNone(chain, state.perSender, state.Now());
    for i := 0 to |txs|
      invariant state.Valid() && Returned(chain, state.perSender, txs[..i], states)
      invariant states[0] == old(state.Now()) && states[i] == state.Now()
    {
      ReturnOne(state, chain, txs[i]);
      ReturnedMore(chain, state.perSender, txs[..i], states, txs[i], state.Now());
      assert txs[..i + 1] == txs[..i] + [txs[i]];
      states := states + [state.Now()];
    }
    assert txs[..|txs|] == txs;
    ReturnedShape(chain, state.perSender, txs, states, |txs|);
  }

  // ---------- The round trip ----------

  /** There is room for what the mempool holds. */
  lemma PoolHasRoom(regular: Container, control: Container, senders: Senders, perSender: nat)
    requires Pool(regular, control, senders, perSender)
    requires regular.totalSize <= regular.limit && control.totalSize <= control.limit
    ensures Room(regular.txs + control.txs, regular.limit, control.limit, perSender)
  {
    PoolIsConsistent(regular, control, senders, perSender);
    KindsOfAll(regular.txs, control.txs);
  }

  lemma KindsOfAll(regular: set<Tx>, control: set<Tx>)
    requires AllOf(regular, false) && AllOf(control, true)
    ensures Kind(regular + control, false) == regular && Kind(regular + control, true) == control
  {}

  /** The entries are determined by the transactions. */
  lemma EntriesAreDetermined(senders: Senders, senders': Senders, all: set<Tx>)
    requires Accounted(senders, all, {}) && Accounted(senders', all, {})
    ensures senders == senders'
  {
    forall s | s in senders ensures s in senders' && senders[s] == senders'[s] {
      SameEntry(senders, senders', all, s);
    }
    forall s | s in senders' ensures s in senders {
      SameEntry(senders', senders, all, s);
    }
  }

  lemma SameEntry(senders: Senders, senders': Senders, all: set<Tx>, s: nat)
    requires Accounted(senders, all, {}) && Accounted(senders', all, {}) && s in senders
    ensures s in senders' && senders[s] == senders'[s]
  {
    assert ExactEntry(senders[s], Of(all, s));
    var tx :| tx in Of(all, s);
    assert tx in all && tx.sender == s;
    assert ExactEntry(senders'[s], Of(all, s));
  }

  /** Two pools with the same transactions have the same containers' contents and sizes, and the same entries. */
  lemma PoolIsDetermined(regular: Container, control: Container, senders: Senders,
                         regular': Container, control': Container, senders': Senders, perSender: nat)
    requires Pool(regular, control, senders, perSender) && Pool(regular', control', senders', perSender)
    requires regular.txs + control.txs == regular'.txs + control'.txs
    ensures regular.txs == regular'.txs && control.txs == control'.txs && senders == senders'
    ensures regular.totalSize == regular'.totalSize && control.totalSize == control'.totalSize
  {
    BothAreValid(regular, control, {});
    BothAreValid(regular', control', {});
    KindsOfAll(regular.txs, control.txs);
    KindsOfAll(regular'.txs, control'.txs);
    EntriesAreDetermined(senders, senders', regular.txs + control.txs);
  }

  /** What is removed, apart from the transactions themselves, has an unknown sender. */
  lemma SweptIsExact(chain: Chain, all: set<Tx>, txns: set<Tx>)
    requires txns <= all
    ensures (forall tx | tx in txns :: tx.sender in chain.accounts) ==> all - Swept(chain, all, txns) + txns == all
    ensures txns !! all - Swept(chain, all, txns)
  {}

  /** There is room for some of the transactions if there is for all. */
  lemma RoomForLess(some: set<Tx>, all: set<Tx>, regularLimit: nat, controlLimit: nat, perSender: nat)
    requires Room(all, regularLimit, controlLimit, perSender) && some <= all
    ensures Room(some, regularLimit, controlLimit, perSender)
  {
    FewerKept(all, perSender, some);
    TotalMonotone(Kind(some, false), Kind(all, false), Size());
    TotalMonotone(Kind(some, true), Kind(all, true), Size());
  }

  /** The same transactions, sizes and entries. */
  ghost predicate Unchanged(s: Contents, s': Contents) {
    && s'.regular.txs == s.regular.txs && s'.control.txs == s.control.txs && s'.senders == s.senders
    && s'.regular.totalSize == s.regular.totalSize && s'.control.totalSize == s.control.totalSize
  }

  /** The transaction still applies, and its sender's balance covers what is reserved. */
  predicate Returnable(chain: Chain, senders: Senders, tx: Tx) {
    && IsValid(chain, tx) && tx !in chain.included
    && tx.sender in chain.accounts && ReservedBy(senders, tx.sender) <= chain.accounts[tx.sender]
  }

  /** What is left of `s` when `txs` are handed out. */
  ghost function LeftAfter(chain: Chain, s: Contents, txs: set<Tx>): set<Tx> {
    s.All() - Swept(chain, s.All(), txs)
  }

  lemma HandedOut(chain: Chain, s: Contents, fromControl: bool, txs: seq<Tx>)
    requires StoredIn(s.regular, s.control, {}) && BestFirst((if fromControl then s.control else s.regular).best, txs)
    ensures var all, txns, left := s.All(), Elements(txs), LeftAfter(chain, s, Elements(txs));
            && txns <= all && left <= all && txns !! left
            && ((forall tx | tx in txns :: tx.sender in chain.accounts) ==> left + txns == all)
  {
    BothAreValid(s.regular, s.control, {});
    SelectedAreStored(if fromControl then s.control else s.regular, txs);
    SweptIsExact(chain, s.All(), Elements(txs));
  }

  /** `now` is there after `txs` were handed out and returned. */
  lemma RoundTrip(chain: Chain, perSender: nat, s: Contents, fromControl: bool, txs: seq<Tx>, now: set<Tx>)
    requires Sound(perSender, s) && BestFirst((if fromControl then s.control else s.regular).best, txs)
    requires Returning(chain, now, LeftAfter(chain, s, Elements(txs)), Elements(txs), true)
    ensures now == s.All() <==> forall tx | tx in txs :: Returnable(chain, s.senders, tx)
  {
    var all, left, txns := s.All(), LeftAfter(chain, s, Elements(txs)), Elements(txs);
    HandedOut(chain, s, fromControl, txs);
    AllReturned(chain, now, left, txns);
    forall tx | tx in txns ensures Acceptable(chain, all, tx) <==> Returnable(chain, s.senders, tx) {
      assert ExactEntry(s.senders[tx.sender], Of(all, tx.sender));
    }
    if left + txns == all {
      assert all - left == txns;
    } else {
      assert exists tx :: tx in txns && tx.sender !in chain.accounts;
    }
  }

  /** Transactions that are handed out and returned on an unchanged chain leave the mempool as it was if and only if all
      of them still apply and their senders' balances cover what is reserved. */
  method HandOutAndReturn(state: MempoolState, chain: Chain, fromControl: bool, maxBytes: nat)
    returns (txs: seq<Tx>, size: nat)
    requires state.Valid()
    modifies state
    ensures state.Valid() && Fitting(old(state.Part(fromControl)), maxBytes, txs, size)
    ensures Returning(chain, state.All(), LeftAfter(chain, old(state.Now()), Elements(txs)), Elements(txs), true)
    ensures Unchanged(old(state.Now()), state.Now())
            <==> forall tx | tx in txs :: Returnable(chain, old(state.senders), tx)
  {
    ghost var s := state.Now();
    PoolHasRoom(s.regular, s.control, s.senders, state.perSender);
    txs, size := HandOut(state, chain, fromControl, maxBytes);
    HandedOut(chain, s, fromControl, txs);
    LessenedAll(s, Swept(chain, s.All(), Elements(txs)), state.Now());
    RoomForLess(state.All() + Elements(txs), s.All(), s.regular.limit, s.control.limit, state.perSender);
    ghost var states := ReturnAll(state, chain, txs);
    RoundTrip(chain, state.perSender, s, fromControl, txs, state.All());
    if state.All() == s.All() {
      PoolIsDetermined(s.regular, s.control, s.senders, state.regular, state.control, state.senders, state.perSender);
    }
  }

  lemma FirstIsAccepted(chain: Chain, perSender: nat, s: Contents, tx: Tx)
    requires Sound(perSender, s) && s.All() == {} && !tx.control && tx.size <= s.regular.limit
    requires tx.sender in chain.accounts && tx.amount <= chain.accounts[tx.sender]
    ensures CheckSender(chain, s.senders, perSender, tx).Accepted?
    ensures Fits(s.regular, tx, false) && Fits(s.control, tx, true)
  {
    assert Of(s.All(), tx.sender) == {};
    BothAreValid(s.regular, s.control, {});
    assert s.regular.txs == {} && Total({}, Size()) == 0;
  }

  /** A transaction that is covered is added to an empty mempool. */
  lemma FirstPut(chain: Chain, perSender: nat, s: Contents, tx: Tx, r: PutResult, s': Contents)
    requires Sound(perSender, s) && s.All() == {} && !tx.control && tx.size <= s.regular.limit
    requires tx.sender in chain.accounts && tx.amount <= chain.accounts[tx.sender]
    requires PutStep(chain, perSender, s, tx, Medium, r, s')
    ensures r.Accepted? && s'.All() == {tx}
  {
    FirstIsAccepted(chain, perSender, s, tx);
    var gone :| PutEvicting(chain, s, tx, Medium, gone, s');
    PutAdds(chain, perSender, s, tx, gone, s');
  }

  lemma BestOfOne(part: Container, tx: Tx, maxBytes: nat, txs: seq<Tx>, size: nat)
    requires part.best.Keys == {tx} && tx.size < maxBytes && Fitting(part, maxBytes, txs, size)
    ensures txs == [tx]
  {
    assert txs == [] ==> IsBest(part.best - Elements(txs), tx);
    forall i | 0 <= i < |txs| ensures txs[i] == tx && txs[i] !in txs[..i] {
      assert BestAt(part.best, txs, i);
    }
    OnceOnly(txs, tx);
  }

  lemma OnceOnly(txs: seq<Tx>, tx: Tx)
    requires forall i | 0 <= i < |txs| :: txs[i] == tx && txs[i] !in txs[..i]
    ensures |txs| <= 1
  {
    if |txs| > 1 {
      FirstIsBefore(txs);
      assert false;
    }
  }

  lemma FirstIsBefore(txs: seq<Tx>)
    requires |txs| > 1
    ensures txs[0] in txs[..1]
  {}

  /** A new mempool with one transaction. */
  method PutFirst(chain: Chain, tx: Tx, limit: nat) returns (state: MempoolState)
    requires !tx.control && tx.size <= limit
    requires tx.sender in chain.accounts && tx.amount <= chain.accounts[tx.sender]
    ensures fresh(state) && state.Valid() && state.All() == {tx} && state.regular.best.Keys == {tx}
  {
    state := new MempoolState(limit, limit, 1);
    ghost var empty := state.Now();
    var r := state.Put(chain, tx, Medium);
    FirstPut(chain, 1, empty, tx, r, state.Now());
    BothAreValid(state.regular, state.control, {});
    KindsOfAll(state.regular.txs, state.control.txs);
  }

  lemma ReturnedAreValid(chain: Chain, now: set<Tx>, before: set<Tx>, txs: set<Tx>, room: bool)
    requires Returning(chain, now, before, txs, room)
    ensures forall tx | tx in now - before :: IsValid(chain, tx) && tx !in chain.included
  {
    forall tx | tx in now - before ensures IsValid(chain, tx) && tx !in chain.included {
      assert Acceptable(chain, now, tx);
    }
  }

  lemma NoneTakenBack(chain: Chain, s: Contents, tx: Tx, now: set<Tx>)
    requires s.All() == {tx} && !IsValid(chain, tx)
    requires Returning(chain, now, LeftAfter(chain, s, Elements([tx])), Elements([tx]), true)
    ensures now == {}
  {
    ReturnedAreValid(chain, now, LeftAfter(chain, s, Elements([tx])), Elements([tx]), true);
    assert LeftAfter(chain, s, Elements([tx])) == {};
    assert now <= {tx} && tx !in now;
  }

  /** A transaction that expires while it is in the mempool is handed out, but not taken back. */
  method HandOutExample() returns (tx: Tx, before: set<Tx>, handedOut: seq<Tx>, after: set<Tx>)
    ensures before == {tx} && handedOut == [tx] && after == {}
  {
    tx := Tx(0, 0, false, 1, 1.0, 1, 0);
    var state := PutFirst(Chain(map[0 := 10], {}, 0, 1, 1), tx, 10);
    before := state.regular.txs + state.control.txs;
    ghost var part, s := state.regular, state.Now();
    var size;
    var later := Chain(map[0 := 10], {}, 5, 1, 1);
    handedOut, size := HandOutAndReturn(state, later, false, 10);
    BestOfOne(part, tx, 10, handedOut, size);
    after := state.regular.txs + state.control.txs;
    NoneTakenBack(later, s, tx, after);
  }
}
