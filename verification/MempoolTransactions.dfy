/** A container of mempool transactions with three priority queues. */
module MempoolTransactions {

  type Positive = n: int | n > 0 witness 1

  /** A transaction. Its hash is modelled by the transaction itself. `amount` is what it needs of the sender's balance,
      `feePerByte` the exact quotient of fee and size. */
  datatype Tx = Tx(id: nat, sender: nat, control: bool, amount: nat, feePerByte: real, size: Positive, start: nat) {

    /** Valid from a batch before the start height, for the length of the validity window. */
    predicate IsValidAt(height: nat, batch: nat, window: nat) {
      height + batch >= start && height < start + window
    }
  }

  /** The heights at which a transaction is valid. */
  function ValidHeights(tx: Tx, batch: nat, window: nat): set<nat> {
    set height: nat | height < tx.start + window && tx.IsValidAt(height, batch, window)
  }

  function Heights(from: nat, n: nat): (heights: set<nat>)
    ensures |heights| == n && forall height: nat :: height in heights <==> from <= height < from + n
  {
    if n == 0 then {} else Heights(from, n - 1) + {from + n - 1}
  }

  /** A transaction is valid for the window that begins at its start height, and for up to a batch before that. */
  lemma ValidityWindow(tx: Tx, batch: nat, window: nat)
    requires window > 0
    ensures |ValidHeights(tx, batch, window)| == window + (if batch < tx.start then batch else tx.start)
    ensures forall height: nat :: tx.IsValidAt(height, batch, window) <==> height in ValidHeights(tx, batch, window)
    ensures tx.IsValidAt(tx.start, batch, window) && tx.IsValidAt(tx.start + window - 1, batch, window)
    ensures !tx.IsValidAt(tx.start + window, batch, window)
  {
    var from := if batch < tx.start then tx.start - batch else 0;
    assert ValidHeights(tx, batch, window) == Heights(from, tx.start + window - from);
  }

  // ---------- Sums over transactions ----------

  ghost function Total(txs: set<Tx>, weight: Tx -> nat): nat
    decreases |txs|
  {
    if txs == {} then 0 else var tx :| tx in txs; weight(tx) + Total(txs - {tx}, weight)
  }

  lemma {:induction false} TotalRemove(txs: set<Tx>, weight: Tx -> nat, tx: Tx)
    requires tx in txs
    ensures Total(txs, weight) == weight(tx) + Total(txs - {tx}, weight)
    decreases |txs|
  {
    var x :| x in txs && Total(txs, weight) == weight(x) + Total(txs - {x}, weight);
    if x != tx {
      TotalRemove(txs - {x}, weight, tx);
      TotalRemove(txs - {tx}, weight, x);
      assert txs - {x} - {tx} == txs - {tx} - {x};
    }
  }

  lemma TotalAdd(txs: set<Tx>, weight: Tx -> nat, tx: Tx)
    requires tx !in txs
    ensures Total(txs + {tx}, weight) == Total(txs, weight) + weight(tx)
  {
    TotalRemove(txs + {tx}, weight, tx);
    assert txs + {tx} - {tx} == txs;
  }

  lemma {:induction false} TotalMonotone(some: set<Tx>, all: set<Tx>, weight: Tx -> nat)
    requires some <= all
    ensures Total(some, weight) <= Total(all, weight)
    decreases |all - some|
  {
    if all - some == {} {
      assert some == all;
    } else {
      var tx :| tx in all - some;
      TotalAdd(some, weight, tx);
      TotalMonotone(some + {tx}, all, weight);
    }
  }

  function Size(): Tx -> nat { (tx: Tx) => tx.size }

  function Amount(): Tx -> nat { (tx: Tx) => tx.amount }

  // ---------- Orders ----------

  datatype Ordering = Less | Equal | Greater {
    function Then(next: Ordering): Ordering { if Equal? then next else this }

    function Reverse(): Ordering { if Less? then Greater else if Greater? then Less else Equal }
  }

  function Compare(a: int, b: int): Ordering { if a < b then Less else if a == b then Equal else Greater }

  function CompareFees(a: real, b: real): Ordering { if a < b then Less else if a == b then Equal else Greater }

  datatype Priority = Low | Medium | High {
    function Rank(): nat { match this case Low => 1 case Medium => 2 case High => 3 }
  }

  datatype TxOrder = TxOrder(priority: Priority, feePerByte: real, insertion: nat)

  /** The order of inclusion in blocks: priority, then fee per byte, then age. */
  function BestOrder(a: TxOrder, b: TxOrder): Ordering {
    Compare(a.priority.Rank(), b.priority.Rank())
    .Then(CompareFees(a.feePerByte, b.feePerByte))
    .Then(Compare(a.insertion, b.insertion).Reverse())
  }

  /** The order of eviction. */
  function WorstOrder(a: TxOrder, b: TxOrder): Ordering {
    Compare(a.priority.Rank(), b.priority.Rank()).Reverse()
    .Then(CompareFees(a.feePerByte, b.feePerByte).Reverse()
          .Then(Compare(a.insertion, b.insertion)))
  }

  predicate Better(a: TxOrder, b: TxOrder) {
    BestOrder(a, b).Greater?
  }

  /** The order of eviction is the reverse of the order of inclusion, and both are total. */
  lemma OrdersAreReverse(a: TxOrder, b: TxOrder)
    ensures WorstOrder(a, b) == BestOrder(b, a) == BestOrder(a, b).Reverse()
    ensures BestOrder(a, b).Equal? <==> a == b
  {}

  lemma BetterTransitive(a: TxOrder, b: TxOrder, c: TxOrder)
    requires Better(a, b) && Better(b, c)
    ensures Better(a, c)
  {}

  /** High over medium over low. */
  predicate Above(a: Priority, b: Priority) {
    (a.High? && !b.High?) || (a.Medium? && b.Low?)
  }

  /** The higher priority wins, then the higher fee per byte, then the earlier insertion. */
  predicate Wins(a: TxOrder, b: TxOrder) {
    || Above(a.priority, b.priority)
    || (a.priority == b.priority && a.feePerByte > b.feePerByte)
    || (a.priority == b.priority && a.feePerByte == b.feePerByte && a.insertion < b.insertion)
  }

  /** What is better for inclusion, and worse for eviction. */
  lemma BetterIsExact(a: TxOrder, b: TxOrder)
    ensures Better(a, b) <==> Wins(a, b)
    ensures WorstOrder(b, a).Greater? <==> Wins(a, b)
  {
    OrdersAreReverse(b, a);
  }

  // ---------- The container ----------

  type Queue = map<Tx, TxOrder>

  /** The order of a transaction has its fee per byte, and an insertion number of its own. */
  ghost predicate RankedQueue(q: Queue, counter: nat) {
    && (forall tx | tx in q :: q[tx].feePerByte == tx.feePerByte && q[tx].insertion < counter)
    && (forall tx, other {:trigger q[tx].insertion, q[other].insertion} | tx in q && other in q && tx != other ::
          q[tx].insertion != q[other].insertion)
  }

  datatype Container = Container(
    txs: set<Tx>, best: Queue, worst: Queue, oldest: map<Tx, nat>, limit: nat, totalSize: int, counter: nat)
  {
    /** The queues hold the transactions, except that some of `popped` may be missing. */
    ghost predicate Keyed(popped: set<Tx>) {
      && best.Keys <= txs <= best.Keys + popped
      && worst.Keys <= txs <= worst.Keys + popped
      && oldest.Keys <= txs <= oldest.Keys + popped
    }

    /** Both orders of a transaction are the same, and no two transactions have the same. */
    ghost predicate Ranked() {
      && (forall q | q in {best, worst} :: RankedQueue(q, counter))
      && (forall tx | tx in best && tx in worst :: best[tx] == worst[tx])
      && (forall tx | tx in oldest :: oldest[tx] == tx.start)
    }

    /** No queue holds a transaction that is not there, and the total size is the sum of the sizes. */
    ghost predicate Counts() {
      best.Keys <= txs && worst.Keys <= txs && oldest.Keys <= txs && totalSize == Total(txs, Size())
    }

    ghost predicate Valid(popped: set<Tx>) {
      Keyed(popped) && Ranked() && totalSize == Total(txs, Size())
    }

    function Insert(tx: Tx, priority: Priority): Container {
      if tx in txs then this
      else
        var order := TxOrder(priority, tx.feePerByte, counter);
        Container(txs + {tx}, best[tx := order], worst[tx := order], oldest[tx := tx.start], limit, totalSize + tx.size,
                  counter + 1)
    }

    function Delete(tx: Tx): Container {
      if tx !in txs then this
      else Container(txs - {tx}, best - {tx}, worst - {tx}, oldest - {tx}, limit, totalSize - tx.size, counter)
    }
  }

  function Empty(limit: nat): (c: Container)
    ensures c.Valid({}) && c.txs == {} && c.limit == limit
  {
    Container({}, map[], map[], map[], limit, 0, 0)
  }

  lemma PushKeepsRanks(q: Queue, counter: nat, tx: Tx, order: TxOrder)
    requires RankedQueue(q, counter) && order.feePerByte == tx.feePerByte && order.insertion == counter
    ensures RankedQueue(q[tx := order], counter + 1)
  {}

  lemma InsertKeepsKeys(c: Container, tx: Tx, priority: Priority)
    requires c.Keyed({}) && tx !in c.txs
    ensures c.Insert(tx, priority).Keyed({})
  {}

  lemma InsertKeepsRanks(c: Container, tx: Tx, priority: Priority)
    requires c.Ranked()
    ensures c.Insert(tx, priority).Ranked()
  {
    var order := TxOrder(priority, tx.feePerByte, c.counter);
    assert RankedQueue(c.best, c.counter) && RankedQueue(c.worst, c.counter);
    PushKeepsRanks(c.best, c.counter, tx, order);
    PushKeepsRanks(c.worst, c.counter, tx, order);
  }

  lemma InsertKeeps(c: Container, tx: Tx, priority: Priority)
    requires c.Valid({}) && tx !in c.txs
    ensures c.Insert(tx, priority).Valid({})
  {
    TotalAdd(c.txs, Size(), tx);
    InsertKeepsKeys(c, tx, priority);
    InsertKeepsRanks(c, tx, priority);
  }

  /** What is inserted later loses against an older one with the same priority and fee. */
  lemma OlderFirst(c: Container, tx: Tx, priority: Priority, other: Tx)
    requires c.Valid({}) && tx !in c.txs && other in c.txs
    ensures var q := c.Insert(tx, priority).best;
            && tx in q && other in q && q[other] == c.best[other]
            && q[tx].priority == priority && q[tx].feePerByte == tx.feePerByte
            && (q[other].priority == priority && other.feePerByte == tx.feePerByte ==> Wins(q[other], q[tx]))
  {
    assert RankedQueue(c.best, c.counter);
  }

  /** The container without the transactions `gone`; the others keep their orders. */
  ghost function Without(c: Container, gone: set<Tx>): Container {
    Container(c.txs - gone, c.best - gone, c.worst - gone, c.oldest - gone, c.limit, Total(c.txs - gone, Size()),
              c.counter)
  }

  lemma WithoutNone(c: Container)
    requires c.Counts()
    ensures Without(c, {}) == c
  {
    assert c.txs - {} == c.txs && c.best - {} == c.best && c.worst - {} == c.worst && c.oldest - {} == c.oldest;
  }

  /** Deleting one transaction more. */
  lemma WithoutMore(c: Container, gone: set<Tx>, tx: Tx)
    requires c.Counts()
    ensures Without(c, gone).Delete(tx) == Without(c, gone + {tx})
  {
    var txs := c.txs - gone;
    assert txs - {tx} == c.txs - (gone + {tx});
    assert c.best - gone - {tx} == c.best - (gone + {tx});
    assert c.worst - gone - {tx} == c.worst - (gone + {tx});
    assert c.oldest - gone - {tx} == c.oldest - (gone + {tx});
    if tx in txs {
      TotalRemove(txs, Size(), tx);
    } else {
      assert txs - {tx} == txs && c.best - gone - {tx} == c.best - gone;
      assert c.worst - gone - {tx} == c.worst - gone && c.oldest - gone - {tx} == c.oldest - gone;
    }
  }

  lemma WithoutTwice(c: Container, gone: set<Tx>, more: set<Tx>)
    ensures Without(Without(c, gone), more) == Without(c, gone + more)
  {
    assert c.txs - gone - more == c.txs - (gone + more);
    assert c.best - gone - more == c.best - (gone + more);
    assert c.worst - gone - more == c.worst - (gone + more);
    assert c.oldest - gone - more == c.oldest - (gone + more);
  }

  /** The queues stay in agreement, and popped transactions that are gone do not matter any more. */
  lemma WithoutKeepsValid(c: Container, gone: set<Tx>, popped: set<Tx>)
    requires c.Valid(popped)
    ensures Without(c, gone).Valid(popped - gone) && Without(c, gone).totalSize <= c.totalSize
  {
    TotalMonotone(c.txs - gone, c.txs, Size());
    assert RankedQueue(c.best, c.counter) && RankedQueue(c.worst, c.counter);
  }

  // ---------- The ends of the queues ----------

  predicate IsBest(q: Queue, tx: Tx) {
    tx in q && forall other | other in q && other != tx :: BestOrder(q[tx], q[other]).Greater?
  }

  predicate IsWorst(q: Queue, tx: Tx) {
    tx in q && forall other | other in q && other != tx :: WorstOrder(q[tx], q[other]).Greater?
  }

  predicate IsOldest(q: map<Tx, nat>, tx: Tx) {
    tx in q && forall other | other in q :: q[tx] <= q[other]
  }

  lemma {:induction false} EndsExist(q: Queue, counter: nat)
    requires RankedQueue(q, counter) && q != map[]
    ensures (exists tx :: IsBest(q, tx)) && (exists tx :: IsWorst(q, tx))
    decreases |q|
  {
    var tx :| tx in q;
    var rest := q - {tx};
    if rest == map[] {
      assert q.Keys == {tx} by { assert forall t | t in q && t != tx :: t in rest; }
      assert IsBest(q, tx) && IsWorst(q, tx);
    } else {
      assert |rest| < |q| by { assert q.Keys == rest.Keys + {tx}; }
      EndsExist(rest, counter);
      var best :| IsBest(rest, best);
      var worst :| IsWorst(rest, worst);
      BestExtends(q, tx, best);
      WorstExtends(q, tx, worst);
    }
  }

  lemma BestExtends(q: Queue, tx: Tx, best: Tx)
    requires tx in q && IsBest(q - {tx}, best) && q[tx] != q[best]
    ensures IsBest(q, if Better(q[tx], q[best]) then tx else best)
  {
    var rest := q - {tx};
    OrdersAreReverse(q[tx], q[best]);
    forall other | other in q && other != tx && other != best ensures Better(q[best], q[other]) {
      assert other in rest && rest[other] == q[other];
    }
    if Better(q[tx], q[best]) {
      forall other | other in q && other != tx ensures Better(q[tx], q[other]) {
        if other != best { BetterTransitive(q[tx], q[best], q[other]); }
      }
    }
  }

  lemma WorstExtends(q: Queue, tx: Tx, worst: Tx)
    requires tx in q && IsWorst(q - {tx}, worst) && q[tx] != q[worst]
    ensures IsWorst(q, if Better(q[worst], q[tx]) then tx else worst)
  {
    var rest := q - {tx};
    OrdersAreReverse(q[tx], q[worst]);
    forall other | other in q && other != tx && other != worst ensures Better(q[other], q[worst]) {
      assert other in rest && rest[other] == q[other];
      OrdersAreReverse(q[worst], q[other]);
    }
    if Better(q[worst], q[tx]) {
      forall other | other in q && other != tx ensures WorstOrder(q[tx], q[other]).Greater? {
        if other != worst { BetterTransitive(q[other], q[worst], q[tx]); }
        OrdersAreReverse(q[tx], q[other]);
      }
    }
  }

  lemma {:induction false} OldestExists(q: map<Tx, nat>)
    requires q != map[]
    ensures exists tx :: IsOldest(q, tx)
    decreases |q|
  {
    var tx :| tx in q;
    var rest := q - {tx};
    assert forall t | t in q && t != tx :: t in rest;
    if rest == map[] {
      assert IsOldest(q, tx);
    } else {
      assert |rest| < |q| by { assert q.Keys == rest.Keys + {tx}; }
      OldestExists(rest);
      var oldest :| IsOldest(rest, oldest);
      assert IsOldest(q, if q[tx] <= q[oldest] then tx else oldest);
    }
  }
}
