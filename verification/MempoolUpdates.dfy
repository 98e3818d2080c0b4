/** How the mempool follows the chain: adopted and reverted blocks, and balances that have changed. */
module MempoolUpdates {
  import opened MempoolTransactions
  import opened MempoolState
  import opened Mempool
  import opened Sets

  // ---------- Balances after the chain has changed ----------

  /** Of the transactions of a sender, those are kept that the balance covers together, and each of the others
      would be too much beside them. Nothing is kept if the account is unknown. */
  ghost predicate Settled(chain: Chain, sender: nat, mine: set<Tx>, kept: set<Tx>) {
    if sender in chain.accounts then
      && kept <= mine && Total(kept, Amount()) <= chain.accounts[sender]
      && TooMuch(kept, mine - kept, chain.accounts[sender])
    else
      kept == {}
  }

  ghost predicate TooMuch(kept: set<Tx>, dropped: set<Tx>, balance: nat) {
    forall tx | tx in dropped :: Total(kept, Amount()) + tx.amount > balance
  }

  /** A sender whose balance covers everything keeps everything. */
  lemma CoveredStay(chain: Chain, sender: nat, mine: set<Tx>, kept: set<Tx>)
    requires Settled(chain, sender, mine, kept)
    requires sender in chain.accounts && Total(mine, Amount()) <= chain.accounts[sender]
    ensures kept == mine
  {
    forall tx | tx in mine ensures tx in kept {
      if tx !in kept {
        TotalAdd(kept, Amount(), tx);
        TotalMonotone(kept + {tx}, mine, Amount());
      }
    }
  }

  ghost predicate ResettledAt(chain: Chain, addresses: set<nat>, before: set<Tx>, after: set<Tx>, s: nat) {
    if s in addresses then Settled(chain, s, Of(before, s), Of(after, s)) else Of(after, s) == Of(before, s)
  }

  /** The transactions of these senders are settled, those of the others stay. */
  ghost predicate Resettled(chain: Chain, addresses: set<nat>, before: set<Tx>, after: set<Tx>) {
    after <= before && forall s: nat :: ResettledAt(chain, addresses, before, after, s)
  }

  lemma ResettledNone(chain: Chain, all: set<Tx>)
    ensures Resettled(chain, {}, all, all)
  {}

  lemma ResettledMore(
    chain: Chain, addresses: set<nat>, address: nat, before: set<Tx>, now: set<Tx>, after: set<Tx>)
    requires Resettled(chain, addresses, before, now) && Resettled(chain, {address}, now, after)
             && address !in addresses
    ensures Resettled(chain, addresses + {address}, before, after)
  {
    forall s: nat ensures ResettledAt(chain, addresses + {address}, before, after, s) {
      assert ResettledAt(chain, addresses, before, now, s) && ResettledAt(chain, {address}, now, after, s);
    }
  }

  /** The accounts of these senders are known and cover what is reserved. */
  ghost predicate Covered(chain: Chain, senders: Senders, addresses: set<nat>) {
    forall s | s in senders && s in addresses :: s in chain.accounts && senders[s].reserved <= chain.accounts[s]
  }

  lemma SettledIsCovered(chain: Chain, senders: Senders, addresses: set<nat>, before: set<Tx>, after: set<Tx>)
    requires Accounted(senders, after, {}) && Resettled(chain, addresses, before, after)
    ensures Covered(chain, senders, addresses)
  {
    forall s | s in senders && s in addresses
      ensures s in chain.accounts && senders[s].reserved <= chain.accounts[s]
    {
      assert ExactEntry(senders[s], Of(after, s)) && ResettledAt(chain, addresses, before, after, s);
    }
  }

  /** Reserves the transactions of a sender again, in any order, and removes those that are not covered any more. */
  method Rebook(state: MempoolState, chain: Chain, address: nat, txns: set<Tx>)
    returns (kept: set<Tx>, reserved: nat, ghost gone: set<Tx>)
    requires state.Consistent({address}) && address in chain.accounts && txns == Of(state.All(), address)
    modifies state
    ensures state.Consistent({address}) && state.senders == old(state.senders)
    ensures kept == Of(state.All(), address) && reserved == Total(kept, Amount())
    ensures Settled(chain, address, txns, kept) && gone == txns - kept
    ensures state.regular == Without(old(state.regular), gone) && state.control == Without(old(state.control), gone)
  {
    ghost var before, before', all := state.regular, state.control, state.All();
    WithoutNone(before);
    WithoutNone(before');
    var todo := txns;
    kept, reserved, gone := {}, 0, {};
    SortStart(txns);
    while todo != {}
      invariant state.Consistent({address}) && state.senders == old(state.senders)
      invariant state.regular == Without(before, gone) && state.control == Without(before', gone)
      invariant Sorted(txns, kept, todo, gone) && Of(state.All(), address) == kept + todo
      invariant reserved == Total(kept, Amount()) <= chain.accounts[address]
      invariant TooMuch(kept, gone, chain.accounts[address])
      decreases |todo|
    {
      var tx :| tx in todo;
      SmallerSet(todo - {tx}, todo, tx);
      kept, reserved, gone := RebookOne(state, chain, address, tx, kept, reserved, before, before', txns, todo, gone);
      todo := todo - {tx};
    }
    SortEnd(txns, kept, gone);
  }

  /** The transactions of a sender are kept, gone or still to be looked at. */
  ghost predicate Sorted(txns: set<Tx>, kept: set<Tx>, todo: set<Tx>, gone: set<Tx>) {
    txns == kept + todo + gone && kept !! todo && kept !! gone && todo !! gone
  }

  lemma SortStart(txns: set<Tx>)
    ensures Sorted(txns, {}, txns, {}) && {} + txns == txns && Total({}, Amount()) == 0
  {}

  lemma SortEnd(txns: set<Tx>, kept: set<Tx>, gone: set<Tx>)
    requires Sorted(txns, kept, {}, gone)
    ensures gone == txns - kept && kept <= txns && kept + {} == kept
  {}

  lemma SortNext(txns: set<Tx>, kept: set<Tx>, todo: set<Tx>, gone: set<Tx>, tx: Tx)
    requires Sorted(txns, kept, todo, gone) && tx in todo
    ensures tx !in kept && Sorted(txns, kept + {tx}, todo - {tx}, gone) && Sorted(txns, kept, todo - {tx}, gone + {tx})
    ensures kept + {tx} + (todo - {tx}) == kept + todo && kept + todo - {tx} == kept + (todo - {tx})
  {}

  lemma TooMuchStill(kept: set<Tx>, gone: set<Tx>, balance: nat, tx: Tx)
    requires TooMuch(kept, gone, balance) && tx !in kept
    ensures TooMuch(kept + {tx}, gone, balance)
    ensures Total(kept, Amount()) + tx.amount > balance ==> TooMuch(kept, gone + {tx}, balance)
  {
    TotalAdd(kept, Amount(), tx);
  }

  method RebookOne(state: MempoolState, chain: Chain, address: nat, tx: Tx, kept: set<Tx>, reserved: nat,
                   ghost before: Container, ghost before': Container, ghost txns: set<Tx>, ghost todo: set<Tx>,
                   ghost gone: set<Tx>)
    returns (kept': set<Tx>, reserved': nat, ghost gone': set<Tx>)
    requires state.Consistent({address}) && address in chain.accounts && tx in todo
    requires state.regular == Without(before, gone) && state.control == Without(before', gone)
    requires Sorted(txns, kept, todo, gone) && Of(state.All(), address) == kept + todo
    requires reserved == Total(kept, Amount()) <= chain.accounts[address]
    requires TooMuch(kept, gone, chain.accounts[address])
    modifies state
    ensures state.Consistent({address}) && state.senders == old(state.senders)
    ensures state.regular == Without(before, gone') && state.control == Without(before', gone')
    ensures Sorted(txns, kept', todo - {tx}, gone') && Of(state.All(), address) == kept' + (todo - {tx})
    ensures reserved' == Total(kept', Amount()) <= chain.accounts[address]
    ensures TooMuch(kept', gone', chain.accounts[address])
  {
    SortNext(txns, kept, todo, gone, tx);
    TooMuchStill(kept, gone, chain.accounts[address], tx);
    kept', gone' := kept, gone;
    var covered;
    covered, reserved' := ReserveFor(tx, reserved, chain.accounts[address], kept);
    if covered {
      kept' := kept + {tx};
    } else {
      StoredOne(state.All(), address, kept + todo, tx);
      DropOne(state, chain, tx, address);
      WithoutTwice(before, gone, {tx});
      WithoutTwice(before', gone, {tx});
      gone' := gone + {tx};
    }
  }

  lemma StoredOne(all: set<Tx>, sender: nat, mine: set<Tx>, tx: Tx)
    requires Of(all, sender) == mine && tx in mine
    ensures tx in all && tx.sender == sender
  {}

  /** Reserves what a transaction needs, if the balance covers it. */
  method ReserveFor(tx: Tx, reserved: nat, balance: nat, ghost kept: set<Tx>) returns (covered: bool, reserved': nat)
    requires reserved == Total(kept, Amount()) <= balance && tx !in kept
    ensures covered <==> reserved + tx.amount <= balance
    ensures reserved' == Total(if covered then kept + {tx} else kept, Amount()) <= balance
  {
    TotalAdd(kept, Amount(), tx);
    covered := reserved + tx.amount <= balance;
    reserved' := if covered then reserved + tx.amount else reserved;
  }

  method DropOne(state: MempoolState, chain: Chain, tx: Tx, address: nat)
    requires state.Consistent({address}) && tx in state.All() && tx.sender == address
    modifies state
    ensures state.Consistent({address}) && state.senders == old(state.senders)
    ensures state.regular == Without(old(state.regular), {tx}) && state.control == Without(old(state.control), {tx})
    ensures Of(state.All(), address) == Of(old(state.All()), address) - {tx}
  {
    WithoutUnion(state.regular, state.control, {tx});
    OfRemove(state.All(), tx, address);
    var removed := state.Remove(chain, tx, {address});
  }

  /** The entries without that of one sender. */
  lemma TakeOut(senders: Senders, all: set<Tx>, address: nat)
    requires Accounted(senders, all, {}) && address in senders
    ensures Accounted(senders - {address}, all, {address}) && senders[address].txns == Of(all, address)
  {
    assert ExactEntry(senders[address], Of(all, address));
  }

  /** The entry of a sender is put back if it has transactions left. */
  lemma PutIn(senders: Senders, all: set<Tx>, address: nat, kept: set<Tx>, reserved: nat)
    requires Accounted(senders, all, {address}) && kept == Of(all, address) && reserved == Total(kept, Amount())
    ensures Accounted(if kept == {} then senders else senders[address := Sender(reserved, kept)], all, {})
  {
    forall tx | tx in all ensures tx.sender in senders || (kept != {} && tx.sender == address) {
      if tx.sender == address { assert tx in kept; }
    }
  }

  lemma ThrowOut(senders: Senders, all: set<Tx>, address: nat)
    requires Accounted(senders, all, {}) && address in senders
    ensures Accounted(senders - {address}, all - Of(all, address), {})
  {
    ThrowKeeps(senders, all, {}, address);
  }

  /** Deletes all transactions of a sender. */
  method DropSender(state: MempoolState, address: nat) returns (ghost gone: set<Tx>)
    requires state.Consistent({}) && address in state.senders
    modifies state
    ensures state.Consistent({}) && gone == Of(old(state.All()), address)
    ensures Lessened(old(state.Now()), gone, state.Now())
  {
    TakeOut(state.senders, state.All(), address);
    ThrowOut(state.senders, state.All(), address);
    var txns := state.senders[address].txns;
    WithoutUnion(state.regular, state.control, txns);
    state.senders := state.senders - {address};
    state.DeleteAll(txns);
    gone := txns;
  }

  /** Reserves the transactions of a sender again. */
  method RebookSender(state: MempoolState, chain: Chain, address: nat) returns (ghost gone: set<Tx>)
    requires state.Consistent({}) && address in state.senders && address in chain.accounts
    modifies state
    ensures state.Consistent({}) && Lessened(old(state.Now()), gone, state.Now())
    ensures gone == Of(old(state.All()), address) - Of(state.All(), address)
    ensures Settled(chain, address, Of(old(state.All()), address), Of(state.All(), address))
  {
    TakeOut(state.senders, state.All(), address);
    var txns := state.senders[address].txns;
    state.senders := state.senders - {address};
    var kept, reserved;
    kept, reserved, gone := Rebook(state, chain, address, txns);
    PutIn(state.senders, state.All(), address, kept, reserved);
    if kept != {} { state.senders := state.senders[address := Sender(reserved, kept)]; }
  }

  lemma ResettledOne(chain: Chain, address: nat, before: set<Tx>, after: set<Tx>, gone: set<Tx>)
    requires after == before - gone && gone == Of(before, address) - Of(after, address)
    requires Settled(chain, address, Of(before, address), Of(after, address))
    ensures Resettled(chain, {address}, before, after)
  {
    forall s: nat ensures ResettledAt(chain, {address}, before, after, s) {
      if s != address { assert Of(after, s) == Of(before, s); }
    }
  }

  lemma ResettledAbsent(chain: Chain, address: nat, senders: Senders, all: set<Tx>)
    requires Accounted(senders, all, {}) && address !in senders
    ensures Resettled(chain, {address}, all, all)
  {
    assert Of(all, address) == {} && Total({}, Amount()) == 0;
    ResettledOne(chain, address, all, all, {});
  }

  lemma LessenedIsSound(perSender: nat, s: Contents, gone: set<Tx>, s': Contents)
    requires Sound(perSender, s) && Lessened(s, gone, s') && Accounted(s'.senders, s'.All(), {})
    ensures Sound(perSender, s')
  {
    assert Cut(s, gone, s');
    SweepKeepsPool(s.regular, s.control, s'.senders, perSender, gone);
  }

  lemma AbsentStays(chain: Chain, perSender: nat, s: Contents, address: nat)
    requires Sound(perSender, s) && address !in s.senders
    ensures Lessened(s, {}, s) && Resettled(chain, {address}, s.All(), s.All())
  {
    NothingGone(perSender, s);
    ResettledAbsent(chain, address, s.senders, s.All());
  }

  lemma NothingGone(perSender: nat, s: Contents)
    requires Sound(perSender, s)
    ensures Lessened(s, {}, s)
  {
    PoolIsConsistent(s.regular, s.control, s.senders, perSender);
    LessenedNone(s);
  }

  /** Recomputes the reserved balance of one sender that has transactions. */
  method RecomputeKnown(state: MempoolState, chain: Chain, address: nat) returns (ghost gone: set<Tx>)
    requires state.Consistent({}) && address in state.senders
    modifies state
    ensures state.Consistent({}) && Lessened(old(state.Now()), gone, state.Now())
    ensures Resettled(chain, {address}, old(state.All()), state.All())
  {
    ghost var s := state.Now();
    if address !in chain.accounts {
      gone := DropSender(state, address);
    } else {
      gone := RebookSender(state, chain, address);
    }
    LessenedAll(s, gone, state.Now());
    if address !in chain.accounts { assert Of(s.All() - gone, address) == {}; }
    ResettledOne(chain, address, s.All(), state.All(), gone);
  }

  /** Recomputes the reserved balance of one sender. */
  method RecomputeOne(state: MempoolState, chain: Chain, address: nat) returns (ghost gone: set<Tx>)
    requires state.Valid()
    modifies state
    ensures state.Valid() && Lessened(old(state.Now()), gone, state.Now())
    ensures Resettled(chain, {address}, old(state.All()), state.All())
  {
    gone := {};
    if address in state.senders {
      PoolIsConsistent(state.regular, state.control, state.senders, state.perSender);
      gone := RecomputeKnown(state, chain, address);
      LessenedIsSound(state.perSender, old(state.Now()), gone, state.Now());
    } else {
      AbsentStays(chain, state.perSender, state.Now(), address);
    }
  }

  lemma LessenedNone(s: Contents)
    requires s.regular.Counts() && s.control.Counts()
    ensures Lessened(s, {}, s)
  {
    WithoutNone(s.regular);
    WithoutNone(s.control);
  }

  lemma LessenedTwice(s: Contents, gone: set<Tx>, s': Contents, more: set<Tx>, s'': Contents)
    requires Lessened(s, gone, s') && Lessened(s', more, s'')
    ensures Lessened(s, gone + more, s'')
  {
    assert Cut(s, gone, s') && Cut(s', more, s'');
    WithoutTwice(s.regular, gone, more);
    WithoutTwice(s.control, gone, more);
  }

  /** Recomputes the reserved balances of some senders. */
  method Recompute(state: MempoolState, chain: Chain, addresses: set<nat>) returns (ghost gone: set<Tx>)
    requires state.Valid()
    modifies state
    ensures state.Valid() && Lessened(old(state.Now()), gone, state.Now())
    ensures Resettled(chain, addresses, old(state.All()), state.All())
  {
    ghost var s := state.Now();
    NothingGone(state.perSender, s);
    ResettledNone(chain, s.All());
    gone := {};
    var todo, done := addresses, {};
    while todo != {}
      invariant state.Valid() && done + todo == addresses && done !! todo
      invariant Lessened(s, gone, state.Now()) && Resettled(chain, done, s.All(), state.All())
      decreases |todo|
    {
      var address :| address in todo;
      ghost var now := state.Now();
      ghost var more := RecomputeOne(state, chain, address);
      LessenedTwice(s, gone, now, more, state.Now());
      ResettledMore(chain, done, address, s.All(), now.All(), state.All());
      gone, todo, done := gone + more, todo - {address}, done + {address};
    }
    assert done == addresses;
  }

  // ---------- Following the chain ----------

  /** Removes a transaction that was included in a block. */
  method RemoveOne(state: MempoolState, chain: Chain, tx: Tx)
    requires state.Valid()
    modifies state
    ensures state.Valid()
    ensures Lessened(old(state.Now()), Gone(chain, old(state.senders), old(state.All()), tx), state.Now())
  {
    PoolIsConsistent(state.regular, state.control, state.senders, state.perSender);
    ghost var before, before', gone := state.regular, state.control, Gone(chain, state.senders, state.All(), tx);
    var removed := state.Remove(chain, tx, {});
    SweepKeepsPool(before, before', state.senders, state.perSender, gone);
  }

  function Flat(blocks: seq<seq<Tx>>): seq<Tx> {
    if blocks == [] then [] else Flat(blocks[..|blocks| - 1]) + blocks[|blocks| - 1]
  }

  lemma FlatMore(blocks: seq<seq<Tx>>, i: nat)
    requires i < |blocks|
    ensures Flat(blocks[..i + 1]) == Flat(blocks[..i]) + blocks[i]
  {
    assert blocks[..i + 1][..i] == blocks[..i];
  }

  /** What is left when the first `n` transactions have been adopted. */
  ghost function LeftAt(chain: Chain, all: set<Tx>, txs: seq<Tx>, n: nat): set<Tx>
    requires n <= |txs|
  {
    all - Swept(chain, all, Elements(txs[..n]))
  }

  /** The transaction is not known when it is adopted, but its sender has others. */
  ghost predicate Affects(chain: Chain, all: set<Tx>, txs: seq<Tx>, n: nat)
    requires n < |txs|
  {
    var left := LeftAt(chain, all, txs, n);
    txs[n] !in left && Of(left, txs[n].sender) != {}
  }

  /** The senders of the unknown ones among the first `n` transactions. */
  ghost predicate Affected(chain: Chain, all: set<Tx>, txs: seq<Tx>, n: nat, senders: set<nat>)
    requires n <= |txs|
  {
    forall s: nat :: s in senders <==> exists i: nat | i < n :: Affects(chain, all, txs, i) && txs[i].sender == s
  }

  lemma AffectedMore(chain: Chain, all: set<Tx>, txs: seq<Tx>, n: nat, senders: set<nat>)
    requires n < |txs| && Affected(chain, all, txs, n, senders)
    ensures Affected(chain, all, txs, n + 1, if Affects(chain, all, txs, n) then senders + {txs[n].sender} else senders)
  {
    var senders' := if Affects(chain, all, txs, n) then senders + {txs[n].sender} else senders;
    forall s: nat
      ensures s in senders' <==> exists i: nat | i < n + 1 :: Affects(chain, all, txs, i) && txs[i].sender == s
    {
      if s in senders {
        var i: nat :| i < n && Affects(chain, all, txs, i) && txs[i].sender == s;
      }
    }
  }

  /** One more transaction is swept away. */
  lemma SweepStep(chain: Chain, s: Contents, done: set<Tx>, s': Contents, tx: Tx, s'': Contents)
    requires Lessened(s, Swept(chain, s.All(), done), s') && Accounted(s'.senders, s'.All(), {})
    requires Lessened(s', Gone(chain, s'.senders, s'.All(), tx), s'')
    ensures Lessened(s, Swept(chain, s.All(), done + {tx}), s'')
  {
    var swept := Swept(chain, s.All(), done);
    LessenedAll(s, swept, s');
    SweptMore(chain, s'.senders, s.All(), done, tx);
    LessenedTwice(s, swept, s', Gone(chain, s'.senders, s'.All(), tx), s'');
  }

  /** The transactions `txs[..n]` were adopted. */
  ghost predicate Adopting(chain: Chain, s: Contents, txs: seq<Tx>, n: nat, s': Contents, affected: set<nat>)
    requires n <= |txs|
  {
    && Lessened(s, Swept(chain, s.All(), Elements(txs[..n])), s')
    && Affected(chain, s.All(), txs, n, affected)
  }

  lemma AdoptingNone(chain: Chain, perSender: nat, s: Contents)
    requires Sound(perSender, s)
    ensures Adopting(chain, s, [], 0, s, {})
  {
    NothingGone(perSender, s);
    SweptNone(chain, s.All());
    var none: seq<Tx> := [];
    assert Elements(none[..0]) == {};
  }

  lemma AdoptStep(chain: Chain, s: Contents, txs: seq<Tx>, n: nat, s': Contents, affected: set<nat>, s'': Contents)
    requires n < |txs| && Adopting(chain, s, txs, n, s', affected) && Accounted(s'.senders, s'.All(), {})
    requires Lessened(s', Gone(chain, s'.senders, s'.All(), txs[n]), s'')
    ensures var tx := txs[n];
            var more := if tx !in s'.All() && tx.sender in s'.senders then {tx.sender} else {};
            Adopting(chain, s, txs, n + 1, s'', affected + more)
  {
    var tx := txs[n];
    LessenedAll(s, Swept(chain, s.All(), Elements(txs[..n])), s');
    NextElement(txs, n);
    SweepStep(chain, s, Elements(txs[..n]), s', tx, s'');
    AffectedMore(chain, s.All(), txs, n, affected);
    EntryMeansOthers(s'.senders, s'.All(), tx.sender);
    assert affected + {} == affected;
  }

  lemma EntryMeansOthers(senders: Senders, all: set<Tx>, sender: nat)
    requires Accounted(senders, all, {})
    ensures sender in senders <==> Of(all, sender) != {}
  {
    if sender in senders {
      assert ExactEntry(senders[sender], Of(all, sender));
    } else {
      assert forall tx | tx in all :: tx.sender != sender;
    }
  }

  /** Removes an adopted transaction, or notes its sender if it is not known. */
  method AdoptOne(state: MempoolState, chain: Chain, tx: Tx, affected: set<nat>, ghost s: Contents, ghost txs: seq<Tx>,
                  ghost n: nat) returns (affected': set<nat>)
    requires state.Valid() && n < |txs| && tx == txs[n] && Adopting(chain, s, txs, n, state.Now(), affected)
    modifies state
    ensures state.Valid() && Adopting(chain, s, txs, n + 1, state.Now(), affected')
  {
    ghost var now := state.Now();
    affected' := affected;
    if state.Contains(tx) {
      RemoveOne(state, chain, tx);
    } else {
      NothingGone(state.perSender, now);
      if tx.sender in state.senders {
        affected' := affected + {tx.sender};
      }
    }
    AdoptStep(chain, s, txs, n, now, affected, state.Now());
    assert affected + {} == affected;
  }

  /** Removes the transactions of adopted blocks, and collects the senders of those that are not known. */
  method AdoptBlocks(state: MempoolState, chain: Chain, blocks: seq<seq<Tx>>) returns (affected: set<nat>)
    requires state.Valid()
    modifies state
    ensures state.Valid()
    ensures Adopting(chain, old(state.Now()), Flat(blocks), |Flat(blocks)|, state.Now(), affected)
  {
    ghost var s := state.Now();
    AdoptingNone(chain, state.perSender, s);
    affected := {};
    for i := 0 to |blocks|
      invariant state.Valid() && Adopting(chain, s, Flat(blocks[..i]), |Flat(blocks[..i])|, state.Now(), affected)
    {
      FlatMore(blocks, i);
      affected := AdoptBlock(state, chain, blocks[i], affected, s, Flat(blocks[..i]));
    }
    assert blocks[..|blocks|] == blocks;
  }

  lemma AdoptingPrefix(chain: Chain, s: Contents, txs: seq<Tx>, more: seq<Tx>, s': Contents, affected: set<nat>)
    requires Adopting(chain, s, txs, |txs|, s', affected)
    ensures Adopting(chain, s, txs + more, |txs|, s', affected)
  {
    var all := s.All();
    assert (txs + more)[..|txs|] == txs == txs[..|txs|];
    forall i: nat | i < |txs| ensures Affects(chain, all, txs, i) <==> Affects(chain, all, txs + more, i) {
      assert (txs + more)[..i] == txs[..i];
    }
    forall t: nat
      ensures t in affected <==>
              exists i: nat | i < |txs| :: Affects(chain, all, txs + more, i) && (txs + more)[i].sender == t
    {
      if t in affected {
        var i: nat :| i < |txs| && Affects(chain, all, txs, i) && txs[i].sender == t;
        assert Affects(chain, all, txs + more, i) && (txs + more)[i].sender == t;
      } else {
        forall i: nat | i < |txs| ensures !(Affects(chain, all, txs + more, i) && (txs + more)[i].sender == t) {
          assert !(Affects(chain, all, txs, i) && txs[i].sender == t);
        }
      }
    }
  }

  method AdoptBlock(state: MempoolState, chain: Chain, block: seq<Tx>, affected: set<nat>, ghost s: Contents,
                    ghost before: seq<Tx>) returns (affected': set<nat>)
    requires state.Valid() && Adopting(chain, s, before, |before|, state.Now(), affected)
    modifies state
    ensures state.Valid() && Adopting(chain, s, before + block, |before + block|, state.Now(), affected')
  {
    AdoptingPrefix(chain, s, before, block, state.Now(), affected);
    affected' := affected;
    for i := 0 to |block|
      invariant state.Valid() && Adopting(chain, s, before + block, |before| + i, state.Now(), affected')
    {
      affected' := AdoptOne(state, chain, block[i], affected', s, before + block, |before| + i);
    }
  }

  /** Adds back the transactions of reverted blocks that still apply. */
  method RevertBlocks(state: MempoolState, chain: Chain, blocks: seq<seq<Tx>>) returns (ghost states: seq<Contents>)
    requires state.Valid()
    modifies state
    ensures state.Valid() && Returned(chain, state.perSender, Flat(blocks), states)
    ensures states[0] == old(state.Now()) && states[|Flat(blocks)|] == state.Now()
  {
    states := [state.Now()];
    ReturnedNone(chain, state.perSender, state.Now());
    for i := 0 to |blocks|
      invariant state.Valid() && Returned(chain, state.perSender, Flat(blocks[..i]), states)
      invariant states[0] == old(state.Now()) && states[|Flat(blocks[..i])|] == state.Now()
    {
      FlatMore(blocks, i);
      ghost var more := ReturnAll(state, chain, blocks[i]);
      ReturnedConcat(chain, state.perSender, Flat(blocks[..i]), states, blocks[i], more);
      states := states + more[1..];
    }
    assert blocks[..|blocks|] == blocks;
  }

  /** The states of an update: without the expired transactions, without the adopted ones, through putting back the
      reverted ones, and with settled balances. */
  ghost predicate Updated(
    chain: Chain, perSender: nat, adopted: seq<Tx>, reverted: seq<Tx>, affected: set<nat>, gone: set<Tx>,
    s: Contents, pruned: Contents, returned: seq<Contents>, s': Contents)
  {
    && Lessened(s, Swept(chain, s.All(), ExpiredIn(chain, s)), pruned)
    && Returned(chain, perSender, reverted, returned)
    && Lessened(pruned, Swept(chain, pruned.All(), Elements(adopted)), returned[0])
    && Lessened(returned[|reverted|], gone, s')
    && Resettled(chain, affected, returned[|reverted|].All(), s'.All())
  }

  /** Follows the chain through reverted and adopted blocks. */
  method Update(state: MempoolState, chain: Chain, adopted: seq<seq<Tx>>, reverted: seq<seq<Tx>>)
    returns (ghost pruned: Contents, ghost returned: seq<Contents>, ghost gone: set<Tx>)
    requires state.Valid()
    modifies state
    ensures state.Valid() && |returned| == |Flat(reverted)| + 1
    ensures Updated(chain, state.perSender, Flat(adopted), Flat(reverted),
                    if adopted == [] then {} else returned[|Flat(reverted)|].senders.Keys, gone,
                    old(state.Now()), pruned, returned, state.Now())
    ensures adopted != [] ==> Covered(chain, state.senders, state.senders.Keys)
  {
    PruneExpired(state, chain);
    pruned := state.Now();
    var affected := AdoptBlocks(state, chain, adopted);
    assert Flat(adopted)[..|Flat(adopted)|] == Flat(adopted);
    returned := RevertBlocks(state, chain, reverted);
    NoneAffected(chain, pruned.All(), affected, adopted);
    if adopted != [] { affected := state.senders.Keys; }
    ghost var before := state.Now();
    gone := Recompute(state, chain, affected);
    SettledIsCovered(chain, state.senders, affected, before.All(), state.All());
    FewerEntries(before.senders, before.All(), state.senders, state.All());
  }

  lemma NoneAffected(chain: Chain, all: set<Tx>, affected: set<nat>, adopted: seq<seq<Tx>>)
    requires Affected(chain, all, Flat(adopted), |Flat(adopted)|, affected)
    ensures adopted == [] ==> affected == {}
  {}

  lemma FewerEntries(senders: Senders, all: set<Tx>, senders': Senders, all': set<Tx>)
    requires Accounted(senders, all, {}) && Accounted(senders', all', {}) && all' <= all
    ensures senders'.Keys <= senders.Keys
  {
    forall s | s in senders' ensures s in senders {
      EntryMeansOthers(senders', all', s);
      EntryMeansOthers(senders, all, s);
      assert Of(all', s) <= Of(all, s);
    }
  }

  /** A transaction that neither expires nor is adopted stays if nothing is reverted and the sender's balance covers
      what is left of its transactions. */
  lemma UpdateKeeps(chain: Chain, perSender: nat, adopted: seq<Tx>, affected: set<nat>, gone: set<Tx>, s: Contents,
                    pruned: Contents, returned: seq<Contents>, s': Contents, tx: Tx)
    requires Updated(chain, perSender, adopted, [], affected, gone, s, pruned, returned, s')
    requires tx in s.All() && tx !in ExpiredIn(chain, s) && tx !in adopted
    requires tx.sender in chain.accounts && Total(Of(s.All(), tx.sender), Amount()) <= chain.accounts[tx.sender]
    ensures tx in s'.All()
  {
    LessenedAll(s, Swept(chain, s.All(), ExpiredIn(chain, s)), pruned);
    LessenedAll(pruned, Swept(chain, pruned.All(), Elements(adopted)), returned[0]);
    CoveredStays(chain, affected, s.All(), returned[0].All(), s'.All(), tx);
  }

  /** What is new after an update still applies. */
  lemma UpdateAdds(chain: Chain, perSender: nat, adopted: seq<Tx>, reverted: seq<Tx>, affected: set<nat>, gone: set<Tx>,
                   s: Contents, pruned: Contents, returned: seq<Contents>, s': Contents, tx: Tx)
    requires Updated(chain, perSender, adopted, reverted, affected, gone, s, pruned, returned, s')
    requires tx in s'.All() && tx !in s.All()
    ensures tx in reverted && IsValid(chain, tx) && tx !in chain.included
  {
    LessenedAll(s, Swept(chain, s.All(), ExpiredIn(chain, s)), pruned);
    LessenedAll(pruned, Swept(chain, pruned.All(), Elements(adopted)), returned[0]);
    LessenedAll(returned[|reverted|], gone, s');
    ReturnedShape(chain, perSender, reverted, returned, |reverted|);
    assert reverted[..|reverted|] == reverted;
    assert tx in returned[|reverted|].All() - returned[0].All();
    assert Acceptable(chain, returned[|reverted|].All(), tx);
  }

  /** Nothing that has expired is left. */
  lemma UpdatePrunes(
    chain: Chain, perSender: nat, adopted: seq<Tx>, reverted: seq<Tx>, affected: set<nat>, gone: set<Tx>,
    s: Contents, pruned: Contents, returned: seq<Contents>, s': Contents, tx: Tx)
    requires Updated(chain, perSender, adopted, reverted, affected, gone, s, pruned, returned, s')
    requires tx in ExpiredIn(chain, s)
    ensures tx !in s'.All()
  {
    LessenedAll(s, Swept(chain, s.All(), ExpiredIn(chain, s)), pruned);
    LessenedAll(pruned, Swept(chain, pruned.All(), Elements(adopted)), returned[0]);
    LessenedAll(returned[|reverted|], gone, s');
    ReturnedShape(chain, perSender, reverted, returned, |reverted|);
    ReturnedAreValid(chain, returned[|reverted|].All(), returned[0].All(), Elements(reverted[..|reverted|]),
                     RoomFor(returned[0], Elements(reverted), perSender));
    assert !IsValid(chain, tx) && tx !in returned[0].All();
  }

  /** A reverted transaction that still applies comes back if there is room and its sender's balance covers all of
      the sender's transactions. */
  lemma UpdateReturns(
    chain: Chain, perSender: nat, adopted: seq<Tx>, reverted: seq<Tx>, affected: set<nat>, gone: set<Tx>,
    s: Contents, pruned: Contents, returned: seq<Contents>, s': Contents, tx: Tx)
    requires Updated(chain, perSender, adopted, reverted, affected, gone, s, pruned, returned, s')
    requires RoomFor(returned[0], Elements(reverted), perSender) && tx in reverted
    requires Acceptable(chain, returned[0].All() + Elements(reverted), tx)
    ensures tx in s'.All()
  {
    var all, last := returned[0].All() + Elements(reverted), returned[|reverted|].All();
    ReturnedShape(chain, perSender, reverted, returned, |reverted|);
    assert reverted[..|reverted|] == reverted;
    assert last <= all && tx in Elements(reverted);
    AcceptableWithLess(chain, last + {tx}, all, tx);
    CoveredStays(chain, affected, all, last, s'.All(), tx);
  }

  /** No transaction of an adopted block is left that the chain holds. */
  lemma AdoptedAreGone(
    chain: Chain, perSender: nat, adopted: seq<Tx>, reverted: seq<Tx>, affected: set<nat>, gone: set<Tx>,
    s: Contents, pruned: Contents, returned: seq<Contents>, s': Contents, tx: Tx)
    requires Updated(chain, perSender, adopted, reverted, affected, gone, s, pruned, returned, s')
    requires tx in adopted && tx in chain.included
    ensures tx !in s'.All()
  {
    LessenedAll(pruned, Swept(chain, pruned.All(), Elements(adopted)), returned[0]);
    LessenedAll(returned[|reverted|], gone, s');
    ReturnedShape(chain, perSender, reverted, returned, |reverted|);
    var last := returned[|reverted|].All();
    ReturnedAreValid(chain, last, returned[0].All(), Elements(reverted[..|reverted|]),
                     RoomFor(returned[0], Elements(reverted), perSender));
    assert tx !in returned[0].All();
  }

  // ---------- Cleaning up ----------

  lemma SweptAgain(chain: Chain, all: set<Tx>, txns: set<Tx>, txns': set<Tx>)
    requires txns * all == txns' * all
    ensures Swept(chain, all, txns) == Swept(chain, all, txns')
  {
    forall t | t in all ensures t in Swept(chain, all, txns) <==> t in Swept(chain, all, txns') {
      assert t in txns <==> t in txns * all;
      assert t in txns' <==> t in txns' * all;
    }
  }

  /** Some transactions, in any order. */
  method ListOf(txs: set<Tx>) returns (list: seq<Tx>)
    ensures Elements(list) == txs
  {
    list := [];
    var todo := txs;
    while todo != {}
      invariant Elements(list) + todo == txs && Elements(list) !! todo
      decreases |todo|
    {
      var tx :| tx in todo;
      SmallerSet(todo - {tx}, todo, tx);
      assert Elements(list + [tx]) == Elements(list) + {tx};
      list, todo := list + [tx], todo - {tx};
    }
  }

  /** Removes everything that has been included meanwhile. */
  method RemoveIncluded(state: MempoolState, chain: Chain)
    requires state.Valid()
    modifies state
    ensures state.Valid()
    ensures Lessened(old(state.Now()), Swept(chain, old(state.All()), chain.included), state.Now())
  {
    ghost var s := state.Now();
    PoolIsConsistent(state.regular, state.control, state.senders, state.perSender);
    var included := ListOf((state.regular.txs + state.control.txs) * chain.included);
    RemoveAll(state, chain, included);
    SweptAgain(chain, s.All(), Elements(included), chain.included);
    LessenedIsSound(state.perSender, s, Swept(chain, s.All(), chain.included), state.Now());
  }

  /** The states of a cleanup: without the expired transactions, without the included ones, and with settled
      balances. */
  ghost predicate CleanedUp(
    chain: Chain, gone: set<Tx>, s: Contents, pruned: Contents, unmined: Contents, s': Contents)
  {
    && Lessened(s, Swept(chain, s.All(), ExpiredIn(chain, s)), pruned)
    && Lessened(pruned, Swept(chain, pruned.All(), chain.included), unmined)
    && Lessened(unmined, gone, s') && Resettled(chain, unmined.senders.Keys, unmined.All(), s'.All())
  }

  /** Brings the mempool up to date after consensus was lost. */
  method Cleanup(state: MempoolState, chain: Chain)
    returns (ghost pruned: Contents, ghost unmined: Contents, ghost gone: set<Tx>)
    requires state.Valid()
    modifies state
    ensures state.Valid() && CleanedUp(chain, gone, old(state.Now()), pruned, unmined, state.Now())
    ensures state.All() <= old(state.All()) && state.All() !! chain.included
    ensures Covered(chain, state.senders, state.senders.Keys)
  {
    ghost var s := state.Now();
    PruneExpired(state, chain);
    pruned := state.Now();
    LessenedAll(s, Swept(chain, s.All(), ExpiredIn(chain, s)), pruned);
    RemoveIncluded(state, chain);
    unmined := state.Now();
    LessenedAll(pruned, Swept(chain, pruned.All(), chain.included), unmined);
    gone := Recompute(state, chain, state.senders.Keys);
    LessenedAll(unmined, gone, state.Now());
    SettledIsCovered(chain, state.senders, unmined.senders.Keys, unmined.All(), state.All());
    FewerEntries(unmined.senders, unmined.All(), state.senders, state.All());
  }

  /** A transaction that has neither expired nor been included stays if the sender's balance covers what is left of
      its transactions. */
  lemma CleanupKeeps(chain: Chain, gone: set<Tx>, s: Contents, pruned: Contents, unmined: Contents, s': Contents,
                     tx: Tx)
    requires CleanedUp(chain, gone, s, pruned, unmined, s')
    requires tx in s.All() && tx !in ExpiredIn(chain, s) && tx !in chain.included
    requires tx.sender in chain.accounts && Total(Of(s.All(), tx.sender), Amount()) <= chain.accounts[tx.sender]
    ensures tx in s'.All()
  {
    LessenedAll(s, Swept(chain, s.All(), ExpiredIn(chain, s)), pruned);
    LessenedAll(pruned, Swept(chain, pruned.All(), chain.included), unmined);
    CoveredStays(chain, unmined.senders.Keys, s.All(), unmined.All(), s'.All(), tx);
  }

  /** Nothing that has expired is left after a cleanup. */
  lemma CleanupPrunes(chain: Chain, gone: set<Tx>, s: Contents, pruned: Contents, unmined: Contents, s': Contents)
    requires CleanedUp(chain, gone, s, pruned, unmined, s')
    ensures s'.All() !! ExpiredIn(chain, s)
  {
    LessenedAll(s, Swept(chain, s.All(), ExpiredIn(chain, s)), pruned);
    LessenedAll(pruned, Swept(chain, pruned.All(), chain.included), unmined);
    LessenedAll(unmined, gone, s');
  }

  lemma CoveredStays(chain: Chain, addresses: set<nat>, all: set<Tx>, before: set<Tx>, after: set<Tx>, tx: Tx)
    requires Resettled(chain, addresses, before, after) && before <= all && tx in before
    requires tx.sender in chain.accounts && Total(Of(all, tx.sender), Amount()) <= chain.accounts[tx.sender]
    ensures tx in after
  {
    assert ResettledAt(chain, addresses, before, after, tx.sender);
    assert tx in Of(before, tx.sender) && Of(before, tx.sender) <= Of(all, tx.sender);
    TotalMonotone(Of(before, tx.sender), Of(all, tx.sender), Amount());
    if tx.sender in addresses { CoveredStay(chain, tx.sender, Of(before, tx.sender), Of(after, tx.sender)); }
    assert tx in Of(after, tx.sender);
  }
}
