/** The mempool state: two containers, the senders' transactions and their reserved balances. */
module MempoolState {
  import opened MempoolTransactions
  import opened Sets

  /** What the mempool sees of the blockchain: complete accounts, included transactions and the next height. */
  datatype Chain = Chain(accounts: map<nat, nat>, included: set<Tx>, nextHeight: nat, batch: nat, window: nat)

  datatype Sender = Sender(reserved: nat, txns: set<Tx>)

  type Senders = map<nat, Sender>

  ghost function Of(all: set<Tx>, sender: nat): set<Tx> {
    set tx | tx in all && tx.sender == sender
  }

  /** The entry of a sender lists exactly its transactions, of which there is one, and reserves what they need. */
  ghost predicate ExactEntry(entry: Sender, mine: set<Tx>) {
    entry.txns == mine && mine != {} && entry.reserved == Total(mine, Amount())
  }

  /** Every sender has an exact entry, except for those taken out. */
  ghost predicate Accounted(senders: Senders, all: set<Tx>, out: set<nat>) {
    && (forall s | s in senders :: s !in out && ExactEntry(senders[s], Of(all, s)))
    && (forall tx | tx in all :: tx.sender in senders || tx.sender in out)
  }

  function AtLeastOne(limit: nat): nat {
    if limit == 0 then 1 else limit
  }

  ghost predicate Few(all: set<Tx>, limit: nat) {
    forall s: nat :: |Of(all, s)| <= AtLeastOne(limit)
  }

  lemma FewerKept(all: set<Tx>, limit: nat, some: set<Tx>)
    requires Few(all, limit) && some <= all
    ensures Few(some, limit)
  {
    forall s: nat ensures |Of(some, s)| <= AtLeastOne(limit) {
      SubsetSize(Of(some, s), Of(all, s));
    }
  }

  lemma OfRemove(all: set<Tx>, tx: Tx, s: nat)
    ensures Of(all - {tx}, s) == if s == tx.sender then Of(all, s) - {tx} else Of(all, s)
  {}

  lemma OfAdd(all: set<Tx>, tx: Tx, s: nat)
    ensures Of(all + {tx}, s) == if s == tx.sender then Of(all, s) + {tx} else Of(all, s)
  {}

  /** The entries after a transaction is taken out of its sender's entry. */
  function Released(senders: Senders, tx: Tx): Senders
    requires tx.sender in senders && tx.amount <= senders[tx.sender].reserved
  {
    var entry := senders[tx.sender];
    if entry.txns - {tx} == {} then senders - {tx.sender}
    else senders[tx.sender := Sender(entry.reserved - tx.amount, entry.txns - {tx})]
  }

  /** The entries after a transaction is added to its sender's entry. */
  function Reserved(senders: Senders, tx: Tx): Senders {
    if tx.sender in senders
    then senders[tx.sender := Sender(senders[tx.sender].reserved + tx.amount, senders[tx.sender].txns + {tx})]
    else senders[tx.sender := Sender(tx.amount, {tx})]
  }

  /** A stored transaction has its amount reserved, and releasing it keeps the entries exact. */
  lemma ReleaseKeeps(senders: Senders, all: set<Tx>, out: set<nat>, tx: Tx)
    requires Accounted(senders, all, out) && tx in all && tx.sender in senders
    ensures tx in senders[tx.sender].txns && tx.amount <= senders[tx.sender].reserved
    ensures Accounted(Released(senders, tx), all - {tx}, out)
  {
    var mine := Of(all, tx.sender);
    TotalRemove(mine, Amount(), tx);
    var senders' := Released(senders, tx);
    forall s | s in senders' ensures s !in out && ExactEntry(senders'[s], Of(all - {tx}, s)) {
      OfRemove(all, tx, s);
      assert ExactEntry(senders[s], Of(all, s));
    }
    forall t | t in all - {tx} ensures t.sender in senders' || t.sender in out {
      if t.sender == tx.sender { assert t in mine - {tx}; }
    }
  }

  lemma ReserveKeeps(senders: Senders, all: set<Tx>, tx: Tx)
    requires Accounted(senders, all, {}) && tx !in all
    ensures Accounted(Reserved(senders, tx), all + {tx}, {})
  {
    var mine := Of(all, tx.sender);
    TotalAdd(mine, Amount(), tx);
    if tx.sender !in senders {
      assert mine == {};
      assert Total({}, Amount()) == 0;
    }
    var senders' := Reserved(senders, tx);
    forall s | s in senders' ensures ExactEntry(senders'[s], Of(all + {tx}, s)) {
      OfAdd(all, tx, s);
      if s != tx.sender { assert ExactEntry(senders[s], Of(all, s)); }
    }
  }

  /** Throwing away all transactions of a sender. */
  lemma ThrowKeeps(senders: Senders, all: set<Tx>, out: set<nat>, sender: nat)
    requires Accounted(senders, all, out) && sender in senders
    ensures Accounted(senders - {sender}, all - Of(all, sender), out)
  {
    var all' := all - Of(all, sender);
    forall s | s in senders - {sender} ensures ExactEntry(senders[s], Of(all', s)) {
      assert ExactEntry(senders[s], Of(all, s));
      assert Of(all', s) == Of(all, s);
    }
  }

  lemma OutKeeps(senders: Senders, all: set<Tx>, out: set<nat>, tx: Tx)
    requires Accounted(senders, all, out) && tx in all && tx.sender in out
    ensures Accounted(senders, all - {tx}, out)
  {
    forall s | s in senders ensures ExactEntry(senders[s], Of(all - {tx}, s)) {
      OfRemove(all, tx, s);
      assert ExactEntry(senders[s], Of(all, s));
    }
  }

  /** Both containers agree with their queues up to `popped`, and hold their own kind of transactions. */
  ghost predicate StoredIn(regular: Container, control: Container, popped: set<Tx>) {
    (forall c | c in {regular, control} :: c.Valid(popped)) && AllOf(regular.txs, false) && AllOf(control.txs, true)
  }

  lemma BothAreValid(regular: Container, control: Container, popped: set<Tx>)
    requires StoredIn(regular, control, popped)
    ensures regular.Valid(popped) && control.Valid(popped)
  {}

  ghost predicate AllOf(txs: set<Tx>, control: bool) {
    forall tx | tx in txs :: tx.control == control
  }

  lemma InsertedKeeps(c: Container, tx: Tx, priority: Priority, isControl: bool)
    requires c.Valid({}) && tx !in c.txs
    ensures Inserted(c, tx, priority, isControl).Valid({})
  {
    InsertKeeps(c, tx, priority);
  }

  lemma InsertedKind(c: Container, tx: Tx, priority: Priority, isControl: bool)
    requires AllOf(c.txs, isControl)
    ensures AllOf(Inserted(c, tx, priority, isControl).txs, isControl)
  {}

  /** The container after a transaction is inserted into the container of its kind. */
  function Inserted(c: Container, tx: Tx, priority: Priority, isControl: bool): Container {
    if tx.control == isControl then c.Insert(tx, priority) else c
  }

  lemma InsertKeepsStored(regular: Container, control: Container, tx: Tx, priority: Priority)
    requires StoredIn(regular, control, {}) && tx !in regular.txs && tx !in control.txs
    ensures StoredIn(Inserted(regular, tx, priority, false), Inserted(control, tx, priority, true), {})
  {
    BothAreValid(regular, control, {});
    InsertedKeeps(regular, tx, priority, false);
    InsertedKeeps(control, tx, priority, true);
    InsertedKind(regular, tx, priority, false);
    InsertedKind(control, tx, priority, true);
  }

  lemma InsertedUnion(regular: Container, control: Container, tx: Tx, priority: Priority)
    requires tx !in regular.txs && tx !in control.txs
    ensures Inserted(regular, tx, priority, false).txs + Inserted(control, tx, priority, true).txs
            == regular.txs + control.txs + {tx}
  {}

  lemma PoolIsConsistent(regular: Container, control: Container, senders: Senders, limit: nat)
    requires Pool(regular, control, senders, limit)
    ensures regular.Counts() && control.Counts() && regular.txs !! control.txs
  {
    BothAreValid(regular, control, {});
  }

  lemma CutKeepsStored(regular: Container, control: Container, gone: set<Tx>)
    requires StoredIn(regular, control, {})
    ensures StoredIn(Without(regular, gone), Without(control, gone), {})
  {
    BothAreValid(regular, control, {});
    WithoutKeepsValid(regular, gone, {});
    WithoutKeepsValid(control, gone, {});
    assert {} - gone == {};
  }

  lemma CutKeepsFew(regular: Container, control: Container, limit: nat, gone: set<Tx>)
    requires Few(regular.txs + control.txs, limit)
    ensures Few(Without(regular, gone).txs + Without(control, gone).txs, limit)
  {
    FewerKept(regular.txs + control.txs, limit, Without(regular, gone).txs + Without(control, gone).txs);
  }

  lemma CutKeepsPool(regular: Container, control: Container, senders: Senders, limit: nat, gone: set<Tx>)
    requires StoredIn(regular, control, {}) && Few(regular.txs + control.txs, limit)
    requires Accounted(senders, Without(regular, gone).txs + Without(control, gone).txs, {})
    ensures Pool(Without(regular, gone), Without(control, gone), senders, limit)
  {
    CutKeepsStored(regular, control, gone);
    CutKeepsFew(regular, control, limit, gone);
  }

  lemma CutIsSmaller(c: Container, first: set<Tx>, second: set<Tx>)
    requires c.Counts()
    ensures Without(c, first + second).totalSize <= Without(c, first).totalSize
  {
    TotalMonotone(c.txs - (first + second), c.txs - first, Size());
  }

  /** The worst regular transactions went first, and then the worst control transactions, as far as needed. */
  ghost predicate TrimmedBy(chain: Chain, regular: Container, control: Container, first: set<Tx>, second: set<Tx>) {
    && EvictedInOrder(chain, regular, first) && EvictedEnough(chain, regular, first)
    && EvictedInOrder(chain, Without(control, first), second) && EvictedEnough(chain, Without(control, first), second)
  }

  ghost predicate Trimmed(chain: Chain, regular: Container, control: Container, gone: set<Tx>) {
    exists first, second :: TrimmedBy(chain, regular, control, first, second) && gone == first + second
  }

  /** Nothing goes if there is room. */
  lemma TrimIsNeeded(chain: Chain, regular: Container, control: Container, gone: set<Tx>)
    requires Trimmed(chain, regular, control, gone) && regular.Counts() && control.Counts()
    requires regular.totalSize <= regular.limit && control.totalSize <= control.limit
    ensures gone == {}
  {
    var first, second :| TrimmedBy(chain, regular, control, first, second) && gone == first + second;
    NoneWent(chain, regular, first);
    WithoutNone(control);
    NoneWent(chain, control, second);
  }

  lemma NoneWent(chain: Chain, part: Container, gone: set<Tx>)
    requires EvictedEnough(chain, part, gone) && part.Counts() && part.totalSize <= part.limit
    ensures gone == {}
  {
    if gone != {} {
      var worst :| NeededLast(chain, part, gone, worst);
      TotalMonotone(part.txs - (gone - WentLast(chain, gone, worst)), part.txs, Size());
    }
  }

  /** Of the transactions that go, those with a known account are worse than all that stay in their container. */
  ghost predicate TrimmedInOrder(chain: Chain, regular: Container, control: Container, gone: set<Tx>) {
    forall t | t in gone && t.sender in chain.accounts ::
      || (t in regular.best && WorseThanRest(regular.best, gone, t))
      || (t in control.best && WorseThanRest(control.best, gone, t))
  }

  lemma TrimIsInOrder(chain: Chain, regular: Container, control: Container, gone: set<Tx>)
    requires Trimmed(chain, regular, control, gone)
    ensures TrimmedInOrder(chain, regular, control, gone)
  {
    var first, second :| TrimmedBy(chain, regular, control, first, second) && gone == first + second;
    forall t | t in gone && t.sender in chain.accounts
      ensures (t in regular.best && WorseThanRest(regular.best, gone, t))
              || (t in control.best && WorseThanRest(control.best, gone, t))
    {
      if t in second {
        var rest := Without(control, first).best;
        assert t in rest && WorseThanRest(rest, second, t);
        forall r | r in control.best && r !in gone ensures Better(control.best[r], control.best[t]) {
          assert r in rest && rest[r] == control.best[r] && rest[t] == control.best[t];
        }
      } else {
        assert t in regular.best && WorseThanRest(regular.best, first, t);
      }
    }
  }

  /** Both containers are in order, and every sender is accounted for. */
  ghost predicate Pool(regular: Container, control: Container, senders: Senders, limit: nat) {
    && StoredIn(regular, control, {}) && Accounted(senders, regular.txs + control.txs, {})
    && Few(regular.txs + control.txs, limit)
  }

  lemma AdmitKeepsPool(regular: Container, control: Container, senders: Senders, limit: nat, tx: Tx, priority: Priority)
    requires Pool(regular, control, senders, limit) && tx !in regular.txs && tx !in control.txs
    requires tx.sender in senders ==> |senders[tx.sender].txns| < limit
    ensures Pool(Inserted(regular, tx, priority, false), Inserted(control, tx, priority, true), Reserved(senders, tx),
                 limit)
  {
    InsertKeepsStored(regular, control, tx, priority);
    InsertedUnion(regular, control, tx, priority);
    ReserveKeeps(senders, regular.txs + control.txs, tx);
    FewAdd(senders, regular.txs + control.txs, limit, tx);
  }

  function CheckSender(chain: Chain, senders: Senders, limit: nat, tx: Tx): PutResult {
    if tx.sender in senders && |senders[tx.sender].txns| >= limit then SenderLimitReached
    else if tx.sender !in chain.accounts then NoConsensus
    else if ReservedBy(senders, tx.sender) + tx.amount > chain.accounts[tx.sender] then InsufficientFunds
    else Accepted
  }

  datatype PutResult = Known | SenderLimitReached | NoConsensus | InsufficientFunds | Accepted

  function ReservedBy(senders: Senders, sender: nat): nat {
    if sender in senders then senders[sender].reserved else 0
  }

  lemma FewAdd(senders: Senders, all: set<Tx>, limit: nat, tx: Tx)
    requires Accounted(senders, all, {}) && Few(all, limit) && tx !in all
    requires tx.sender in senders ==> |senders[tx.sender].txns| < limit
    ensures Few(all + {tx}, limit)
  {
    forall s: nat ensures |Of(all + {tx}, s)| <= AtLeastOne(limit) {
      OfAdd(all, tx, s);
      if s == tx.sender && s !in senders { assert Of(all, s) == {}; }
      if s == tx.sender && s in senders { assert ExactEntry(senders[s], Of(all, s)); }
    }
  }

  /** The worst transaction of a container that has some. */
  method WorstOf(c: Container) returns (worst: Tx)
    requires c.Valid({}) && c.totalSize > 0
    ensures worst in c.txs && IsWorst(c.worst, worst)
  {
    NotEmpty(c);
    EndsExist(c.worst, c.counter);
    worst :| IsWorst(c.worst, worst);
  }

  function Popped(c: Container, tx: Tx): Container {
    c.(worst := c.worst - {tx})
  }

  lemma PopOther(c: Container, tx: Tx)
    requires c.Counts() && tx !in c.txs
    ensures Popped(c, tx) == c
  {
    assert c.worst - {tx} == c.worst;
  }

  /** Popping a transaction that is removed next makes no difference. */
  lemma PopIsHarmless(c: Container, tx: Tx, gone: set<Tx>)
    requires tx in gone
    ensures Without(Popped(c, tx), gone) == Without(c, gone)
  {
    assert c.worst - {tx} - gone == c.worst - gone;
  }

  /** What `Remove` takes away. */
  ghost function Gone(chain: Chain, senders: Senders, all: set<Tx>, tx: Tx): set<Tx> {
    if tx !in all then {}
    else if tx.sender in senders && tx.sender !in chain.accounts then Of(all, tx.sender)
    else {tx}
  }

  lemma WithoutAll(regular: Container, control: Container, gone: set<Tx>, tx: Tx)
    requires regular.Counts() && control.Counts() && regular.txs !! control.txs && tx in gone
    ensures Without(regular, {}) == regular && Without(control, {}) == control
    ensures regular.Delete(tx) == Without(regular, {tx}) && control.Delete(tx) == Without(control, {tx})
    ensures Without(regular.Delete(tx), gone) == Without(regular, gone)
    ensures Without(control.Delete(tx), gone) == Without(control, gone)
    ensures Without(regular, gone).Counts() && Without(control, gone).Counts()
    ensures Without(regular, gone).txs + Without(control, gone).txs == regular.txs + control.txs - gone
  {
    WithoutNone(regular);
    WithoutNone(control);
    WithoutMore(regular, {}, tx);
    WithoutMore(control, {}, tx);
    assert {} + {tx} == {tx} && {tx} + gone == gone;
    WithoutTwice(regular, {tx}, gone);
    WithoutTwice(control, {tx}, gone);
  }

  /** Of the transactions that go, those with a known account are worse than all that stay. */
  ghost predicate EvictedInOrder(chain: Chain, part: Container, gone: set<Tx>) {
    forall t | t in gone && t.sender in chain.accounts :: t in part.best && WorseThanRest(part.best, gone, t)
  }

  /** What went last, together with `worst`: alone if its account is known, with all of its sender otherwise. */
  ghost function WentLast(chain: Chain, gone: set<Tx>, worst: Tx): set<Tx> {
    if worst.sender in chain.accounts then {worst} else Of(gone, worst.sender)
  }

  /** Without the last eviction, that of `worst`, the container would be too large still. */
  ghost predicate NeededLast(chain: Chain, part: Container, gone: set<Tx>, worst: Tx) {
    && worst in gone && worst in part.best
    && Total(part.txs - (gone - WentLast(chain, gone, worst)), Size()) > part.limit
    && (forall t | t in gone && t != worst && t.sender in chain.accounts ::
          t in part.best && Better(part.best[worst], part.best[t]))
  }

  /** Nothing went, or the last eviction was needed. */
  ghost predicate EvictedEnough(chain: Chain, part: Container, gone: set<Tx>) {
    gone == {} || exists worst :: NeededLast(chain, part, gone, worst)
  }

  /** Senders with unknown accounts went completely. */
  ghost predicate WentWhole(chain: Chain, gone: set<Tx>, all: set<Tx>) {
    forall t, u | t in gone && t.sender !in chain.accounts && u in all :: u.sender != t.sender
  }

  lemma GoneIsLast(chain: Chain, senders: Senders, all: set<Tx>, gone: set<Tx>, tx: Tx)
    requires Accounted(senders, all, {}) && tx in all && gone !! all && WentWhole(chain, gone, all)
    ensures var more := Gone(chain, senders, all, tx);
            && more <= all && WentLast(chain, gone + more, tx) == more
            && WentWhole(chain, gone + more, all - more)
  {}

  lemma LastIsNeeded(chain: Chain, part: Container, gone: set<Tx>, worst: Tx, more: set<Tx>)
    requires part.Valid({}) && EvictedInOrder(chain, part, gone) && worst in part.txs && worst in more && gone !! more
    requires WentLast(chain, gone + more, worst) == more && OthersUnknown(chain, more, worst)
    requires Total(part.txs - gone, Size()) > part.limit
    ensures NeededLast(chain, part, gone + more, worst)
  {
    assert gone + more - more == gone;
    forall t | t in gone + more && t != worst && t.sender in chain.accounts
      ensures t in part.best && Better(part.best[worst], part.best[t])
    {
      assert t in gone && WorseThanRest(part.best, gone, t);
    }
  }

  /** What is true of the evictions from `part` so far, which left `all`. */
  ghost predicate Evicting(chain: Chain, part: Container, gone: set<Tx>, all: set<Tx>) {
    && EvictedInOrder(chain, part, gone) && EvictedEnough(chain, part, gone)
    && gone !! all && WentWhole(chain, gone, all)
  }

  lemma EvictStep(chain: Chain, senders: Senders, part: Container, gone: set<Tx>, all: set<Tx>, worst: Tx)
    requires part.Valid({}) && Evicting(chain, part, gone, all) && Accounted(senders, all, {}) && worst in all
    requires IsWorst(Without(part, gone).worst, worst) && Without(part, gone).totalSize > part.limit
    ensures var more := Gone(chain, senders, all, worst);
            more <= all && worst in more && Evicting(chain, part, gone + more, all - more)
  {
    var more := Gone(chain, senders, all, worst);
    GoneShape(chain, senders, all, worst);
    GoneIsLast(chain, senders, all, gone, worst);
    LastIsNeeded(chain, part, gone, worst, more);
    EvictMore(chain, part, gone, worst, more);
  }

  lemma WithoutBoth(regular: Container, control: Container, gone: set<Tx>, more: set<Tx>)
    ensures Without(Without(regular, gone), more) == Without(regular, gone + more)
    ensures Without(Without(control, gone), more) == Without(control, gone + more)
    ensures Without(regular, gone + more).txs + Without(control, gone + more).txs
         == Without(regular, gone).txs + Without(control, gone).txs - more
  {
    WithoutTwice(regular, gone, more);
    WithoutTwice(control, gone, more);
  }

  /** Of the transactions that go, those with a known account lose against all that stay: by priority, by fee per
      byte or by age. */
  ghost predicate LosersWent(chain: Chain, part: Container, gone: set<Tx>) {
    forall t, r | t in gone && t.sender in chain.accounts && r in part.txs && r !in gone ::
      && t in part.best && r in part.best && Wins(part.best[r], part.best[t])
      && (part.best[r].priority == part.best[t].priority ==> t.feePerByte <= r.feePerByte)
  }

  lemma EvictedAreLosers(chain: Chain, part: Container, gone: set<Tx>)
    requires part.Valid({}) && EvictedInOrder(chain, part, gone)
    ensures LosersWent(chain, part, gone)
  {
    assert RankedQueue(part.best, part.counter);
    forall t, r | t in gone && t.sender in chain.accounts && r in part.txs && r !in gone
      ensures t in part.best && r in part.best && Wins(part.best[r], part.best[t])
    {
      assert WorseThanRest(part.best, gone, t);
      BetterIsExact(part.best[r], part.best[t]);
    }
  }

  ghost predicate WorseThanRest(q: Queue, gone: set<Tx>, t: Tx)
    requires t in q
  {
    forall r | r in q && r !in gone :: Better(q[r], q[t])
  }

  lemma NotEmpty(c: Container)
    requires c.Counts() && c.totalSize > 0
    ensures c.txs != {}
  {}

  lemma SmallerSet(a: set<Tx>, b: set<Tx>, tx: Tx)
    requires a <= b && tx in b && tx !in a
    ensures |a| < |b|
  {
    SubsetSize(a, b - {tx});
  }

  lemma EvictMore(chain: Chain, part: Container, gone: set<Tx>, worst: Tx, more: set<Tx>)
    requires part.Valid({}) && EvictedInOrder(chain, part, gone) && IsWorst(Without(part, gone).worst, worst)
    requires worst in more && OthersUnknown(chain, more, worst)
    ensures EvictedInOrder(chain, part, gone + more)
  {
    assert worst in part.best;
    forall r | r in part.best && r !in gone + more ensures Better(part.best[r], part.best[worst]) {
      var rest := Without(part, gone).worst;
      assert r in rest && rest[r] == part.best[r] && rest[worst] == part.best[worst];
      OrdersAreReverse(rest[worst], rest[r]);
    }
  }

  /** All of `gone` but `tx` have unknown accounts. */
  ghost predicate OthersUnknown(chain: Chain, gone: set<Tx>, tx: Tx) {
    forall t | t in gone && t != tx :: t.sender !in chain.accounts
  }

  lemma GoneShape(chain: Chain, senders: Senders, all: set<Tx>, tx: Tx)
    requires tx in all
    ensures tx in Gone(chain, senders, all, tx) && OthersUnknown(chain, Gone(chain, senders, all, tx), tx)
  {}

  /** What the mempool holds. */
  datatype Contents = Contents(regular: Container, control: Container, senders: Senders) {

    ghost function All(): set<Tx> {
      regular.txs + control.txs
    }
  }

  /** Exactly `gone` was deleted. This is quantified, so that it is unfolded only where it is needed. */
  ghost predicate Lessened(s: Contents, gone: set<Tx>, s': Contents) {
    forall g {:trigger Cut(s, g, s')} | g in {gone} :: Cut(s, g, s')
  }

  ghost predicate Cut(s: Contents, gone: set<Tx>, s': Contents) {
    s'.regular == Without(s.regular, gone) && s'.control == Without(s.control, gone)
  }

  lemma LessenedAll(s: Contents, gone: set<Tx>, s': Contents)
    requires Lessened(s, gone, s')
    ensures s'.All() == s.All() - gone
    ensures s'.regular.limit == s.regular.limit && s'.control.limit == s.control.limit
  {
    assert Cut(s, gone, s');
  }

  /** The transaction was inserted, and `gone` was evicted. */
  ghost predicate PutEvicting(chain: Chain, s: Contents, tx: Tx, priority: Priority, gone: set<Tx>, s': Contents) {
    var regular, control := Inserted(s.regular, tx, priority, false), Inserted(s.control, tx, priority, true);
    && s'.regular == Without(regular, gone) && s'.control == Without(control, gone)
    && Trimmed(chain, regular, control, gone) && Accounted(s'.senders, s'.All(), {})
    && s'.regular.totalSize <= s'.regular.limit && s'.control.totalSize <= s'.control.limit
  }

  /** What putting a transaction does: nothing if a check fails. */
  ghost predicate PutStep(
    chain: Chain, perSender: nat, s: Contents, tx: Tx, priority: Priority, r: PutResult, s': Contents)
  {
    && r == (if tx in s.All() then Known else CheckSender(chain, s.senders, perSender, tx))
    && if r.Accepted? then exists gone :: PutEvicting(chain, s, tx, priority, gone, s') else s' == s
  }

  class MempoolState {
    const perSender: nat
    var regular: Container
    var control: Container
    var senders: Senders

    ghost function All(): set<Tx>
      reads this`regular, this`control
    {
      regular.txs + control.txs
    }

    ghost function Now(): Contents
      reads this`regular, this`control, this`senders
    {
      Contents(regular, control, senders)
    }

    ghost predicate Pooled()
      reads this`regular, this`control, this`senders
    {
      Pool(regular, control, senders, perSender)
    }

    ghost predicate Sized()
      reads this`regular, this`control
    {
      regular.totalSize <= regular.limit && control.totalSize <= control.limit
    }

    ghost predicate Valid()
      reads this
    {
      Pooled() && Sized()
    }

    constructor (regularLimit: nat, controlLimit: nat, perSender: nat)
      ensures Valid() && All() == {} && this.perSender == perSender
      ensures regular.limit == regularLimit && control.limit == controlLimit
    {
      this.perSender := perSender;
      regular := Empty(regularLimit);
      control := Empty(controlLimit);
      senders := map[];
    }

    predicate Contains(tx: Tx)
      reads this`regular, this`control
    {
      tx in regular.txs || tx in control.txs
    }

    ghost predicate Counted()
      reads this`regular, this`control
    {
      regular.Counts() && control.Counts() && regular.txs !! control.txs
    }

    /** Deletes a transaction from the container that holds it. */
    method Delete(tx: Tx)
      requires regular.txs !! control.txs
      modifies `regular, `control
      ensures regular == old(regular).Delete(tx) && control == old(control).Delete(tx)
    {
      if tx in regular.txs {
        regular := regular.Delete(tx);
      } else {
        control := control.Delete(tx);
      }
    }

    /** Deletes some transactions from the containers that hold them. */
    method DeleteAll(txns: set<Tx>)
      requires Counted()
      modifies `regular, `control
      ensures regular == Without(old(regular), txns) && control == Without(old(control), txns)
    {
      ghost var before, before' := regular, control;
      WithoutNone(before);
      WithoutNone(before');
      var todo, done := txns, {};
      while todo != {}
        invariant done + todo == txns
        invariant regular == Without(before, done) && control == Without(before', done)
        decreases |todo|
      {
        var tx :| tx in todo;
        WithoutMore(before, done, tx);
        WithoutMore(before', done, tx);
        Delete(tx);
        todo, done := todo - {tx}, done + {tx};
      }
      assert done == txns;
    }

    ghost predicate Consistent(out: set<nat>)
      reads this`regular, this`control, this`senders
    {
      Counted() && Accounted(senders, All(), out)
    }

    /** Deletes a transaction whose sender has no entry. */
    method RemoveOnly(tx: Tx, ghost out: set<nat>)
      requires Consistent(out) && tx in All() && tx.sender !in senders
      modifies `regular, `control
      ensures Consistent(out) && regular == Without(old(regular), {tx}) && control == Without(old(control), {tx})
    {
      WithoutAll(regular, control, {tx}, tx);
      OutKeeps(senders, All(), out, tx);
      Delete(tx);
    }

    /** Deletes a transaction and releases its balance. */
    method RemoveKnown(tx: Tx, ghost out: set<nat>)
      requires Consistent(out) && tx in All() && tx.sender in senders
      modifies `regular, `control, `senders
      ensures Consistent(out) && regular == Without(old(regular), {tx}) && control == Without(old(control), {tx})
      ensures senders.Keys <= old(senders.Keys)
    {
      WithoutAll(regular, control, {tx}, tx);
      ReleaseKeeps(senders, All(), out, tx);
      Delete(tx);
      assert tx in senders[tx.sender].txns && senders[tx.sender].reserved >= tx.amount;
      senders := Released(senders, tx);
    }

    /** Deletes a transaction and all others of its sender. */
    method RemoveSender(tx: Tx, ghost out: set<nat>)
      requires Consistent(out) && tx in All() && tx.sender in senders
      modifies `regular, `control, `senders
      ensures Consistent(out) && senders == old(senders) - {tx.sender}
      ensures var gone := Of(old(All()), tx.sender);
              regular == Without(old(regular), gone) && control == Without(old(control), gone)
    {
      var txns := senders[tx.sender].txns;
      WithoutAll(regular, control, txns, tx);
      ThrowKeeps(senders, All(), out, tx.sender);
      Delete(tx);
      DeleteAll(txns);
      senders := senders - {tx.sender};
    }

    /** Removes a transaction and releases its balance. If the sender's account is unknown, all of its transactions
        go. */
    method Remove(chain: Chain, tx: Tx, ghost out: set<nat>) returns (removed: bool)
      requires Consistent(out)
      modifies `regular, `control, `senders
      ensures Consistent(out) && removed == old(Contains(tx))
      ensures var gone := Gone(chain, old(senders), old(All()), tx);
              regular == Without(old(regular), gone) && control == Without(old(control), gone)
      ensures tx.sender !in old(senders) ==> senders == old(senders)
      ensures senders.Keys <= old(senders.Keys)
    {
      removed := tx in regular.txs || tx in control.txs;
      if !removed {
        WithoutNone(regular);
        WithoutNone(control);
      } else if tx.sender !in senders {
        RemoveOnly(tx, out);
      } else if tx.sender !in chain.accounts {
        RemoveSender(tx, out);
      } else {
        RemoveKnown(tx, out);
      }
    }

    function Part(fromControl: bool): Container
      reads this`regular, this`control
    {
      if fromControl then control else regular
    }

    /** Removes a transaction that was popped from a queue of worst transactions. */
    method RemovePopped(chain: Chain, tx: Tx, ghost before: Container,
                        ghost before': Container) returns (ghost gone: set<Tx>)
      requires Consistent({}) && tx in All()
      requires regular == Popped(before, tx) && control == Popped(before', tx)
      modifies `regular, `control, `senders
      ensures Consistent({}) && gone == Gone(chain, old(senders), old(All()), tx)
      ensures regular == Without(before, gone) && control == Without(before', gone)
      ensures |All()| < |old(All())|
    {
      gone := Gone(chain, senders, All(), tx);
      GoneShape(chain, senders, All(), tx);
      PopIsHarmless(before, tx, gone);
      PopIsHarmless(before', tx, gone);
      var removed := Remove(chain, tx, {});
      SmallerSet(All(), old(All()), tx);
    }

    method Pop(fromControl: bool, tx: Tx)
      requires Counted() && tx in Part(fromControl).txs
      modifies `regular, `control
      ensures Counted() && All() == old(All())
      ensures regular == Popped(old(regular), tx) && control == Popped(old(control), tx)
    {
      PopOther(if fromControl then regular else control, tx);
      if fromControl {
        control := Popped(control, tx);
      } else {
        regular := Popped(regular, tx);
      }
    }

    /** Pops a transaction from a queue of worst transactions and removes it. */
    method EvictOne(chain: Chain, fromControl: bool, worst: Tx) returns (ghost gone: set<Tx>)
      requires Consistent({}) && worst in Part(fromControl).txs
      modifies `regular, `control, `senders
      ensures Consistent({}) && gone == Gone(chain, old(senders), old(All()), worst)
      ensures regular == Without(old(regular), gone) && control == Without(old(control), gone)
      ensures |All()| < |old(All())|
    {
      Pop(fromControl, worst);
      gone := RemovePopped(chain, worst, old(regular), old(control));
    }

    /** Removes the worst transactions of a container until it is small enough. */
    method Evict(chain: Chain, fromControl: bool) returns (ghost gone: set<Tx>)
      requires Consistent({}) && Part(fromControl).Valid({})
      modifies `regular, `control, `senders
      ensures Consistent({}) && regular == Without(old(regular), gone) && control == Without(old(control), gone)
      ensures Part(fromControl).totalSize <= Part(fromControl).limit
      ensures EvictedInOrder(chain, old(Part(fromControl)), gone) && EvictedEnough(chain, old(Part(fromControl)), gone)
      ensures LosersWent(chain, old(Part(fromControl)), gone)
    {
      ghost var before, before', part := regular, control, Part(fromControl);
      WithoutNone(regular);
      WithoutNone(control);
      gone := {};
      while Part(fromControl).totalSize > Part(fromControl).limit
        invariant Consistent({}) && regular == Without(before, gone) && control == Without(before', gone)
        invariant Evicting(chain, part, gone, All())
        decreases |All()|
      {
        gone := EvictNext(chain, fromControl, before, before', gone);
      }
      EvictedAreLosers(chain, part, gone);
    }

    /** Removes the worst transaction of a container that is too large. */
    method EvictNext(chain: Chain, fromControl: bool, ghost before: Container, ghost before': Container,
                     ghost gone: set<Tx>) returns (ghost gone': set<Tx>)
      requires Consistent({}) && regular == Without(before, gone) && control == Without(before', gone)
      requires Part(fromControl).totalSize > Part(fromControl).limit
      requires (if fromControl then before' else before).Valid({})
      requires Evicting(chain, if fromControl then before' else before, gone, All())
      modifies `regular, `control, `senders
      ensures Consistent({}) && regular == Without(before, gone') && control == Without(before', gone')
      ensures Evicting(chain, if fromControl then before' else before, gone', All()) && |All()| < |old(All())|
    {
      ghost var part, all := if fromControl then before' else before, All();
      WithoutKeepsValid(part, gone, {});
      assert {} - gone == {};
      var worst := WorstOf(Part(fromControl));
      EvictStep(chain, senders, part, gone, all, worst);
      WithoutBoth(before, before', gone, Gone(chain, senders, all, worst));
      ghost var more := EvictOne(chain, fromControl, worst);
      gone' := gone + more;
    }

    // ---------- Adding a transaction ----------

    /** Why a transaction is refused, by the first check that fails. */
    function Check(chain: Chain, tx: Tx): PutResult
      reads this`regular, this`control, this`senders
    {
      if Contains(tx) then Known else CheckSender(chain, senders, perSender, tx)
    }

    /** Reserves the balance and inserts the transaction. */
    method Admit(tx: Tx, priority: Priority)
      modifies `regular, `control, `senders
      ensures regular == Inserted(old(regular), tx, priority, false)
              && control == Inserted(old(control), tx, priority, true)
      ensures senders == Reserved(old(senders), tx)
    {
      senders := Reserved(senders, tx);
      if tx.control {
        control := control.Insert(tx, priority);
      } else {
        regular := regular.Insert(tx, priority);
      }
    }

    /** Evicts transactions until both containers are small enough. */
    method Trim(chain: Chain) returns (ghost gone: set<Tx>)
      requires Pooled()
      modifies `regular, `control, `senders
      ensures Pooled() && Sized()
      ensures regular == Without(old(regular), gone) && control == Without(old(control), gone)
      ensures Trimmed(chain, old(regular), old(control), gone)
    {
      PoolIsConsistent(regular, control, senders, perSender);
      ghost var first := Evict(chain, false);
      WithoutKeepsValid(old(control), first, {});
      assert {} - first == {};
      ghost var second := Evict(chain, true);
      gone := first + second;
      WithoutTwice(old(regular), first, second);
      WithoutTwice(old(control), first, second);
      assert TrimmedBy(chain, old(regular), old(control), first, second);
      CutKeepsPool(old(regular), old(control), senders, perSender, gone);
      CutIsSmaller(old(regular), first, second);
    }

    /** Adds a transaction, and evicts the worst ones if there are too many. */
    method Put(chain: Chain, tx: Tx, priority: Priority) returns (r: PutResult)
      requires Valid()
      modifies `regular, `control, `senders
      ensures Valid() && PutStep(chain, perSender, old(Now()), tx, priority, r, Now())
    {
      r := Check(chain, tx);
      if !r.Accepted? { return; }
      AdmitKeepsPool(regular, control, senders, perSender, tx, priority);
      Admit(tx, priority);
      ghost var gone := Trim(chain);
      assert PutEvicting(chain, old(Now()), tx, priority, gone, Now());
    }
  }
}
