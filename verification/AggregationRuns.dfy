/** Whole runs of the aggregation: what is emitted, what is applied, and what is sent. */
module AggregationRuns {
  import opened BinomialPartitioner
  import opened ReplaceStore
  import opened WeightedVote
  import opened PendingContributions
  import opened Aggregation
  import opened Wrappers

  /** The result of a poll, the contribution it applied, and what it selected. */
  datatype Turn = Turn(result: Option<set<nat>>, taken: Option<PendingContribution>, pick: Pick)

  ghost predicate StepAt(setup: Setup, inputs: seq<PollInput>, states: seq<Snapshot>, turns: seq<Turn>, i: nat)
    requires i < |inputs| == |turns| && |states| == |inputs| + 1
  {
    PollStep(setup, states[i], inputs[i], states[i + 1], turns[i].result, turns[i].taken, turns[i].pick)
  }

  /** The store is what the applications made of it, each of them improved it, and the levels follow it. */
  ghost predicate Known(p: Partitioner, s: Snapshot) {
    && ImprovingRun(p, s.applied) && s.known == Replay(p, s.applied)
    && LevelsInStep(p, s.known, s.levels, s.final.Some?, -1) && AllFit(p, s.pending)
  }

  /** A run: one poll for each input. */
  ghost predicate Trace(setup: Setup, inputs: seq<PollInput>, states: seq<Snapshot>, turns: seq<Turn>) {
    && |turns| == |inputs| && |states| == |inputs| + 1 && Initial(setup.partitioner, states[0])
    && (forall i: nat {:trigger Known(setup.partitioner, states[i])} | i < |states| ::
          Known(setup.partitioner, states[i]))
    && (forall i: nat {:trigger StepAt(setup, inputs, states, turns, i)} | i < |inputs| ::
          StepAt(setup, inputs, states, turns, i))
  }

  /** The results that the stream yields. */
  function Emitted(turns: seq<Turn>): seq<set<nat>> {
    if turns == [] then []
    else
      var last := turns[|turns| - 1].result;
      Emitted(turns[..|turns| - 1]) + if last.Some? then [last.value] else []
  }

  // ---------- Growth ----------

  /** The poll yielded an aggregate of the store, and not a full aggregate that bypasses it. */
  predicate FromStore(p: Partitioner, turn: Turn) {
    turn.result.Some? && Target(p, turn.taken).Some?
  }

  ghost function Combined(p: Partitioner, s: Snapshot): set<nat> {
    s.known.Below(p.numLevels)
  }

  /** Applications are never undone, and each enlarges the combined aggregate. */
  lemma {:induction false} StoreGrows(
    setup: Setup, inputs: seq<PollInput>, states: seq<Snapshot>, turns: seq<Turn>, i: nat, j: nat)
    requires Trace(setup, inputs, states, turns) && i <= j <= |inputs|
    ensures states[i].applied <= states[j].applied
    ensures |Combined(setup.partitioner, states[i])| + |states[j].applied| - |states[i].applied|
         <= |Combined(setup.partitioner, states[j])|
  {
    if i < j {
      StoreGrows(setup, inputs, states, turns, i, j - 1);
      assert StepAt(setup, inputs, states, turns, j - 1);
    }
  }

  /** An aggregate of the store is the combined one after its poll. */
  lemma ResultIsCombined(setup: Setup, inputs: seq<PollInput>, states: seq<Snapshot>, turns: seq<Turn>, i: nat)
    requires Trace(setup, inputs, states, turns) && i < |inputs| && FromStore(setup.partitioner, turns[i])
    ensures turns[i].result == Some(Combined(setup.partitioner, states[i + 1]))
    ensures |states[i + 1].applied| == |states[i].applied| + 1
  {
    assert StepAt(setup, inputs, states, turns, i);
  }

  /** It replays the applications so far. */
  lemma ResultIsReplayed(setup: Setup, inputs: seq<PollInput>, states: seq<Snapshot>, turns: seq<Turn>, i: nat)
    requires Trace(setup, inputs, states, turns) && i < |inputs| && FromStore(setup.partitioner, turns[i])
    ensures turns[i].result == Some(Replay(setup.partitioner, states[i + 1].applied).Below(setup.partitioner.numLevels))
    ensures states[i + 1].applied
         == states[i].applied + [Application(turns[i].taken.value.signers, turns[i].taken.value.level)]
  {
    ResultIsCombined(setup, inputs, states, turns, i);
    assert StepAt(setup, inputs, states, turns, i) && Known(setup.partitioner, states[i + 1]);
  }

  /** Later aggregates of the store are larger. */
  ghost predicate Growing(p: Partitioner, turns: seq<Turn>) {
    forall i: nat, j: nat | i < j < |turns| && FromStore(p, turns[i]) && FromStore(p, turns[j]) ::
      |turns[i].result.value| < |turns[j].result.value|
  }

  lemma ResultGrows(setup: Setup, inputs: seq<PollInput>, states: seq<Snapshot>, turns: seq<Turn>, i: nat, j: nat)
    requires Trace(setup, inputs, states, turns) && i < j < |turns|
    requires FromStore(setup.partitioner, turns[i]) && FromStore(setup.partitioner, turns[j])
    ensures |turns[i].result.value| < |turns[j].result.value|
  {
    ResultIsCombined(setup, inputs, states, turns, i);
    ResultIsCombined(setup, inputs, states, turns, j);
    StoreGrows(setup, inputs, states, turns, i + 1, j);
    StoreGrows(setup, inputs, states, turns, j, j + 1);
  }

  lemma ResultsGrow(setup: Setup, inputs: seq<PollInput>, states: seq<Snapshot>, turns: seq<Turn>)
    requires Trace(setup, inputs, states, turns)
    ensures Growing(setup.partitioner, turns)
  {
    var p := setup.partitioner;
    forall i: nat, j: nat | i < j < |turns| && FromStore(p, turns[i]) && FromStore(p, turns[j])
      ensures |turns[i].result.value| < |turns[j].result.value|
    {
      ResultGrows(setup, inputs, states, turns, i, j);
    }
  }

  /** How many polls yielded an aggregate of the store. */
  function StoreResults(p: Partitioner, turns: seq<Turn>): nat {
    if turns == [] then 0
    else StoreResults(p, turns[..|turns| - 1]) + if FromStore(p, turns[|turns| - 1]) then 1 else 0
  }

  /** Each of them applied a contribution, so there are no more than ids. */
  lemma {:induction false} StoreResultsBound(
    setup: Setup, inputs: seq<PollInput>, states: seq<Snapshot>, turns: seq<Turn>, n: nat)
    requires setup.partitioner.Valid() && Trace(setup, inputs, states, turns) && n <= |inputs|
    ensures StoreResults(setup.partitioner, turns[..n]) <= |states[n].applied| <= setup.partitioner.numIds
  {
    assert Known(setup.partitioner, states[n]);
    ProgressBound(setup.partitioner, states[n].applied);
    if n > 0 {
      StoreResultsBound(setup, inputs, states, turns, n - 1);
      assert turns[..n][..n - 1] == turns[..n - 1];
      assert StepAt(setup, inputs, states, turns, n - 1);
    }
  }

  // ---------- The final result ----------

  /** A complete aggregate is the last one that is yielded. */
  ghost predicate Settled(isComplete: set<nat> -> bool, turns: seq<Turn>) {
    forall i: nat, j: nat | i < j < |turns| && turns[i].result.Some? && isComplete(turns[i].result.value) ::
      turns[j].result.None?
  }

  /** The final result is the complete aggregate that was yielded. */
  lemma {:induction false} FinalStays(
    setup: Setup, inputs: seq<PollInput>, states: seq<Snapshot>, turns: seq<Turn>, i: nat, j: nat)
    requires Trace(setup, inputs, states, turns) && i < j <= |inputs|
    requires turns[i].result.Some? && setup.isComplete(turns[i].result.value)
    ensures states[j].final == turns[i].result && (j < |inputs| ==> turns[j].result.None?)
  {
    assert StepAt(setup, inputs, states, turns, j - 1);
    if i + 1 < j {
      FinalStays(setup, inputs, states, turns, i, j - 1);
    }
    if j < |inputs| {
      assert StepAt(setup, inputs, states, turns, j);
    }
  }

  lemma {:induction false} FinalWasYielded(
    setup: Setup, inputs: seq<PollInput>, states: seq<Snapshot>, turns: seq<Turn>, n: nat) returns (i: nat)
    requires Trace(setup, inputs, states, turns) && n <= |inputs| && states[n].final.Some?
    ensures i < n && turns[i].result == states[n].final && setup.isComplete(states[n].final.value)
  {
    assert n > 0;
    assert StepAt(setup, inputs, states, turns, n - 1);
    if states[n - 1].final.Some? {
      i := FinalWasYielded(setup, inputs, states, turns, n - 1);
    } else {
      i := n - 1;
    }
  }

  lemma ResultsSettle(setup: Setup, inputs: seq<PollInput>, states: seq<Snapshot>, turns: seq<Turn>)
    requires Trace(setup, inputs, states, turns)
    ensures Settled(setup.isComplete, turns)
  {
    forall i: nat, j: nat
      | i < j < |turns| && turns[i].result.Some? && setup.isComplete(turns[i].result.value)
      ensures turns[j].result.None?
    {
      FinalStays(setup, inputs, states, turns, i, j);
    }
  }

  // ---------- Where applied contributions come from ----------

  predicate Own(p: Partitioner, item: PendingContribution) {
    item == PendingContribution({p.nodeId}, 0, p.nodeId, true)
  }

  /** The item is a part of the update, and not trusted. */
  predicate PartOf(item: PendingContribution, update: LevelUpdate) {
    && !item.trusted && item.level == update.level && item.origin == update.origin
    && (item.signers == update.aggregate || update.individual == Some(item.signers))
  }

  ghost predicate PartOfAccepted(setup: Setup, item: PendingContribution, update: LevelUpdate) {
    && setup.partitioner.Valid() && Verify(setup.partitioner, update, setup.isComplete).Accepted?
    && PartOf(item, update)
  }

  /** The item came with an accepted update of one of the first `n` polls. */
  ghost predicate Arrived(setup: Setup, inputs: seq<PollInput>, n: nat, item: PendingContribution) {
    exists i: nat, u | i < n && i < |inputs| && u in inputs[i].updates :: PartOfAccepted(setup, item, u)
  }

  ghost predicate Genuine(setup: Setup, inputs: seq<PollInput>, n: nat, item: PendingContribution) {
    Own(setup.partitioner, item) || Arrived(setup, inputs, n, item)
  }

  /** The verification of the applied item succeeded: it was in flight, or it was started after some
      others failed. */
  ghost predicate Verified(before: Snapshot, input: PollInput, turn: Turn) {
    || (input.verification == Done(true) && before.current.Some? && turn.taken == before.current)
    || (OutcomeAt(input.outcomes, |turn.pick.rejected|) == Done(true) && turn.taken == turn.pick.next)
  }

  ghost predicate AllGenuine(setup: Setup, inputs: seq<PollInput>, n: nat, list: PendingList) {
    forall key | key in list :: Genuine(setup, inputs, n, list[key])
  }

  lemma ArrivedBefore(setup: Setup, inputs: seq<PollInput>, n: nat, item: PendingContribution)
    requires Arrived(setup, inputs, n, item)
    ensures Arrived(setup, inputs, n + 1, item)
  {
    var i: nat, u :| i < n && i < |inputs| && u in inputs[i].updates && PartOfAccepted(setup, item, u);
  }

  lemma ArrivedNow(setup: Setup, inputs: seq<PollInput>, n: nat, item: PendingContribution, update: LevelUpdate)
    requires n < |inputs| && update in inputs[n].updates && PartOfAccepted(setup, item, update)
    ensures Arrived(setup, inputs, n + 1, item)
  {}

  lemma {:induction false} ListedIsGenuine(
    setup: Setup, c: Context, inputs: seq<PollInput>, n: nat, inbox: Inbox, updates: seq<LevelUpdate>)
    requires c.partitioner == setup.partitioner && setup.partitioner.Valid() && n < |inputs|
    requires forall u | u in updates :: u in inputs[n].updates
    requires AllGenuine(setup, inputs, n, inbox.list)
    ensures AllGenuine(setup, inputs, n + 1, ReceivedAll(c, setup.isComplete, inbox, updates).list)
  {
    if updates == [] {
      forall key | key in inbox.list ensures Genuine(setup, inputs, n + 1, inbox.list[key]) {
        if !Own(setup.partitioner, inbox.list[key]) { ArrivedBefore(setup, inputs, n, inbox.list[key]); }
      }
    } else {
      var m := |updates| - 1;
      ListedIsGenuine(setup, c, inputs, n, inbox, updates[..m]);
      if Verify(setup.partitioner, updates[m], setup.isComplete).Accepted? {
        OneListed(setup, inputs, n, ReceivedAll(c, setup.isComplete, inbox, updates[..m]).list, updates[m]);
      }
    }
  }

  lemma OneListed(setup: Setup, inputs: seq<PollInput>, n: nat, before: PendingList, update: LevelUpdate)
    requires setup.partitioner.Valid() && n < |inputs| && update in inputs[n].updates
    requires Verify(setup.partitioner, update, setup.isComplete).Accepted?
    requires AllGenuine(setup, inputs, n + 1, before)
    ensures AllGenuine(setup, inputs, n + 1, Listed(before, update))
  {
    var list := Listed(before, update);
    forall key | key in list ensures Genuine(setup, inputs, n + 1, list[key]) {
      if key in before && list[key] == before[key] {
        assert Genuine(setup, inputs, n + 1, before[key]);
      } else {
        ArrivedNow(setup, inputs, n, list[key], update);
      }
    }
  }

  /** All pending contributions are genuine, and what is being verified is not trusted. */
  lemma {:induction false} PendingIsGenuine(
    setup: Setup, inputs: seq<PollInput>, states: seq<Snapshot>, turns: seq<Turn>, n: nat)
    requires setup.partitioner.Valid() && Trace(setup, inputs, states, turns) && n <= |inputs|
    ensures AllGenuine(setup, inputs, n, states[n].pending)
    ensures states[n].current.Some? ==> Arrived(setup, inputs, n, states[n].current.value)
  {
    if n > 0 {
      PendingIsGenuine(setup, inputs, states, turns, n - 1);
      assert StepAt(setup, inputs, states, turns, n - 1);
      StepIsGenuine(setup, inputs, n - 1, states[n - 1], states[n], turns[n - 1]);
    }
  }

  lemma StepIsGenuine(setup: Setup, inputs: seq<PollInput>, n: nat, s: Snapshot, s': Snapshot, turn: Turn)
    requires n < |inputs| && PollStep(setup, s, inputs[n], s', turn.result, turn.taken, turn.pick)
    requires AllGenuine(setup, inputs, n, s.pending)
    requires s.current.Some? ==> Arrived(setup, inputs, n, s.current.value)
    ensures AllGenuine(setup, inputs, n + 1, s'.pending)
    ensures s'.current.Some? ==> Arrived(setup, inputs, n + 1, s'.current.value)
    ensures turn.taken.Some? ==> Checked(setup, inputs, n, s, turn)
  {
    var c := ContextAt(setup, s.known, s.final);
    var list := ReceivedAll(c, setup.isComplete, Inbox(s.pending, s.log), inputs[n].updates).list;
    ListedIsGenuine(setup, c, inputs, n, Inbox(s.pending, s.log), inputs[n].updates);
    if s.current.Some? { ArrivedBefore(setup, inputs, n, s.current.value); }
    ProceedsGenuinely(setup, inputs, n, s, list, s'.pending, s'.current, turn);
  }

  ghost predicate Checked(setup: Setup, inputs: seq<PollInput>, n: nat, s: Snapshot, turn: Turn)
    requires n < |inputs| && turn.taken.Some?
  {
    || Own(setup.partitioner, turn.taken.value)
    || (Arrived(setup, inputs, n + 1, turn.taken.value) && Verified(s, inputs[n], turn))
  }

  lemma ProceedsGenuinely(setup: Setup, inputs: seq<PollInput>, n: nat, s: Snapshot, list: PendingList,
                          list': PendingList, current': Option<PendingContribution>, turn: Turn)
    requires n < |inputs|
    requires Proceeds(setup, s.known, list, s.current, inputs[n], turn.pick, list', current', turn.taken)
    requires AllGenuine(setup, inputs, n + 1, list)
    requires s.current.Some? ==> Arrived(setup, inputs, n + 1, s.current.value)
    ensures AllGenuine(setup, inputs, n + 1, list')
    ensures current'.Some? ==> Arrived(setup, inputs, n + 1, current'.value)
    ensures turn.taken.Some? ==> Checked(setup, inputs, n, s, turn)
  {
    if s.current.None? || inputs[n].verification == Done(false) {
      var evaluate := Evaluator(setup.partitioner, s.known, setup.weight);
      assert DecidedBy(evaluate, list, inputs[n].outcomes, turn.pick, list', current', turn.taken);
      DecidedGenuinely(setup, inputs, n, s, evaluate, list, list', current', turn);
    }
  }

  lemma DecidedGenuinely(
    setup: Setup, inputs: seq<PollInput>, n: nat, s: Snapshot, evaluate: PendingContribution -> int, list: PendingList,
    list': PendingList, current': Option<PendingContribution>, turn: Turn)
    requires n < |inputs| && DecidedBy(evaluate, list, inputs[n].outcomes, turn.pick, list', current', turn.taken)
    requires AllGenuine(setup, inputs, n + 1, list)
    ensures AllGenuine(setup, inputs, n + 1, list')
    ensures current'.Some? ==> Arrived(setup, inputs, n + 1, current'.value)
    ensures turn.taken.Some? ==> Checked(setup, inputs, n, s, turn)
  {
    forall key | key in list' ensures Genuine(setup, inputs, n + 1, list'[key]) {
      assert key in list && list'[key] == list[key];
    }
    if turn.pick.next.Some? {
      assert Genuine(setup, inputs, n + 1, list[turn.pick.key]);
      UntrustedOnArrival(setup, inputs, n + 1, list[turn.pick.key]);
    }
  }

  /** Only the own contribution is trusted. */
  lemma UntrustedOnArrival(setup: Setup, inputs: seq<PollInput>, n: nat, item: PendingContribution)
    requires Genuine(setup, inputs, n, item)
    ensures item.trusted <==> Own(setup.partitioner, item)
  {}

  /** Every applied contribution is the own one, or it came with an accepted update and was verified. */
  lemma OnlyVerifiedIsApplied(setup: Setup, inputs: seq<PollInput>, states: seq<Snapshot>, turns: seq<Turn>, n: nat)
    requires setup.partitioner.Valid() && Trace(setup, inputs, states, turns) && n < |inputs|
    requires turns[n].taken.Some?
    ensures Checked(setup, inputs, n, states[n], turns[n])
  {
    PendingIsGenuine(setup, inputs, states, turns, n);
    assert StepAt(setup, inputs, states, turns, n);
    StepIsGenuine(setup, inputs, n, states[n], states[n + 1], turns[n]);
  }

  // ---------- What is verified first ----------

  ghost predicate SameSender(u: LevelUpdate, v: LevelUpdate) {
    u.level == v.level && u.origin == v.origin
  }

  ghost predicate Lists(list: PendingList, u: LevelUpdate, kind: Kind, signers: set<nat>) {
    var key := PendingKey(u.level, u.origin, kind);
    key in list && list[key] == PendingContribution(signers, u.level, u.origin, false)
  }

  /** Both parts of the update are listed. */
  ghost predicate BothListed(list: PendingList, u: LevelUpdate) {
    Lists(list, u, Aggregate, u.aggregate) && (u.individual.Some? ==> Lists(list, u, Individual, u.individual.value))
  }

  lemma ListedBoth(list: PendingList, u: LevelUpdate)
    ensures BothListed(Listed(list, u), u)
  {}

  lemma StaysListed(list: PendingList, u: LevelUpdate, v: LevelUpdate)
    requires BothListed(list, u) && !SameSender(u, v)
    ensures BothListed(Listed(list, v), u)
  {}

  /** The parts of an accepted update are listed, unless a later one of the same sender replaces them. */
  lemma {:induction false} ReceivedLists(
    c: Context, isComplete: set<nat> -> bool, inbox: Inbox, updates: seq<LevelUpdate>, j: nat)
    requires c.partitioner.Valid() && j < |updates| && Verify(c.partitioner, updates[j], isComplete).Accepted?
    requires forall i | j < i < |updates| && Verify(c.partitioner, updates[i], isComplete).Accepted? ::
               !SameSender(updates[j], updates[i])
    ensures BothListed(ReceivedAll(c, isComplete, inbox, updates).list, updates[j])
  {
    var n := |updates| - 1;
    var earlier := ReceivedAll(c, isComplete, inbox, updates[..n]).list;
    if j == n {
      ListedBoth(earlier, updates[n]);
    } else {
      ReceivedLists(c, isComplete, inbox, updates[..n], j);
      if Verify(c.partitioner, updates[n], isComplete).Accepted? {
        StaysListed(earlier, updates[j], updates[n]);
      }
    }
  }

  lemma {:induction false} ReceivedFit(
    c: Context, isComplete: set<nat> -> bool, inbox: Inbox, updates: seq<LevelUpdate>)
    requires c.partitioner.Valid() && AllFit(c.partitioner, inbox.list)
    ensures AllFit(c.partitioner, ReceivedAll(c, isComplete, inbox, updates).list)
  {
    if updates != [] {
      var n := |updates| - 1;
      ReceivedFit(c, isComplete, inbox, updates[..n]);
      if updates[n].level != c.partitioner.numLevels { VerifyIsExact(c.partitioner, updates[n], isComplete); }
    }
  }

  /** What is pending when a poll has received its updates. */
  ghost function Gathered(setup: Setup, s: Snapshot, input: PollInput): PendingList
    requires setup.partitioner.Valid()
  {
    ReceivedAll(ContextAt(setup, s.known, s.final), setup.isComplete, Inbox(s.pending, s.log), input.updates).list
  }

  /** A contribution with a score stays pending, unless it is applied or awaited, or its verification failed. */
  lemma NothingUsefulIsLost(
    setup: Setup, inputs: seq<PollInput>, states: seq<Snapshot>, turns: seq<Turn>, i: nat, key: PendingKey)
    requires setup.partitioner.Valid() && Trace(setup, inputs, states, turns) && i < |inputs|
    requires var list := Gathered(setup, states[i], inputs[i]);
             key in list && Evaluator(setup.partitioner, states[i].known, setup.weight)(list[key]) > 0
    ensures var list, s' := Gathered(setup, states[i], inputs[i]), states[i + 1];
            || (key in s'.pending && s'.pending[key] == list[key])
            || turns[i].taken == Some(list[key])
            || s'.current == Some(list[key])
            || (key in turns[i].pick.rejected && inputs[i].outcomes != [] && inputs[i].outcomes[0] == Done(false))
  {
    var s, s', list := states[i], states[i + 1], Gathered(setup, states[i], inputs[i]);
    assert StepAt(setup, inputs, states, turns, i);
    if s.current.None? || inputs[i].verification == Done(false) {
      var evaluate := Evaluator(setup.partitioner, s.known, setup.weight);
      assert DecidedBy(evaluate, list, inputs[i].outcomes, turns[i].pick, s'.pending, s'.current, turns[i].taken);
      DecidedKeeps(evaluate, list, inputs[i].outcomes, turns[i].pick, s'.pending, s'.current, turns[i].taken, key);
    }
  }

  lemma DecidedKeeps(
    evaluate: PendingContribution -> int, list: PendingList, outcomes: seq<Outcome>, pick: Pick, list': PendingList,
    current': Option<PendingContribution>, taken: Option<PendingContribution>, key: PendingKey)
    requires DecidedBy(evaluate, list, outcomes, pick, list', current', taken)
    requires key in list && evaluate(list[key]) > 0
    ensures || (key in list' && list'[key] == list[key]) || taken == Some(list[key]) || current' == Some(list[key])
            || (key in pick.rejected && outcomes != [] && outcomes[0] == Done(false))
  {
    if key in pick.rejected {
      assert pick.rejected != {};
      assert OutcomeAt(outcomes, 0) == Done(false);
    }
  }

  lemma CompletingIsPicked(
    p: Partitioner, k: Knowledge, weight: set<nat> -> nat, list: PendingList, pick: Pick, rest: PendingList,
    key: PendingKey)
    requires Scored(p, k) && AllFit(p, list)
    requires Picks(Evaluator(p, k, weight), list, pick.rejected, pick.next, pick.key, rest)
    requires key in list && key !in pick.rejected && Completes(p, k, list[key].signers, list[key].level)
    ensures pick.next.Some?
    ensures pick.next.value.level == p.numLevels || Completes(p, k, pick.next.value.signers, pick.next.value.level)
  {
    var item, evaluate := list[key], Evaluator(p, k, weight);
    ScoreIsExact(p, k, item.signers, item.level, weight(item.signers));
    EvaluatorIsExact(p, k, item.signers, item.level, weight(item.signers));
    assert evaluate(item) > 0 && evaluate(item) <= evaluate(pick.next.value);
    var next := pick.next.value;
    assert Fits(p, list[pick.key]);
    if next.level < p.numLevels {
      ScoreMeansImproves(p, k, next, weight);
      if !Completes(p, k, next.signers, next.level) {
        CompletingFirst(p, k, item.signers, item.level, next.signers, next.level, weight(item.signers),
                        weight(next.signers));
      }
    }
  }

  /** A full aggregate that is applied is yielded, and is final if it is complete. */
  lemma FullIsYielded(setup: Setup, inputs: seq<PollInput>, states: seq<Snapshot>, turns: seq<Turn>, i: nat)
    requires Trace(setup, inputs, states, turns) && i < |inputs| && states[i].final.None?
    requires turns[i].taken.Some? && turns[i].taken.value.level == setup.partitioner.numLevels
    ensures turns[i].result == Some(turns[i].taken.value.signers)
    ensures setup.isComplete(turns[i].taken.value.signers) ==> states[i + 1].final == turns[i].result
  {
    assert StepAt(setup, inputs, states, turns, i);
  }

  /** The own contribution, as it is listed at the start. */
  function OwnItem(p: Partitioner): PendingContribution {
    PendingContribution({p.nodeId}, 0, p.nodeId, true)
  }

  lemma OwnCompletes(p: Partitioner, k: Knowledge)
    requires p.Valid() && p.numIds <= MAX_IDS && k == Empty(p)
    ensures Completes(p, k, {p.nodeId}, 0) && Mended(k, {p.nodeId}, 0) == {}
  {
    UpToGrows(p, 0);
    UpToIsUnion(p, 0, p.nodeId);
    OwnLevel(p);
    assert k.Put({p.nodeId}, 0).BestOr(0) == {p.nodeId};
  }

  lemma OwnLevel(p: Partitioner)
    requires p.Valid()
    ensures p.Level(0) == {p.nodeId}
  {
    IdentitiesOnIsLevel(p, 0);
  }

  /** Nothing but a full aggregate scores as much as the own contribution at the start. */
  lemma OwnScoresMost(p: Partitioner, k: Knowledge, item: PendingContribution, weight: set<nat> -> nat)
    requires p.Valid() && p.numIds <= MAX_IDS && k == Empty(p) && Fits(p, item) && 0 < item.level < p.numLevels
    ensures Score(p, k, item, weight) < Score(p, k, OwnItem(p), weight) == 1_000_000
  {
    OwnCompletes(p, k);
    ScoreIsExact(p, k, {p.nodeId}, 0, weight({p.nodeId}));
    if item.signers != {} {
      EvaluatorIsExact(p, k, item.signers, item.level, weight(item.signers));
      if Gains(p, k, item.signers, item.level) {
        ScoreIsExact(p, k, item.signers, item.level, weight(item.signers));
        if !Completes(p, k, item.signers, item.level) {
          CompletingFirst(p, k, {p.nodeId}, 0, item.signers, item.level, weight({p.nodeId}), weight(item.signers));
        }
      }
    }
  }

  /** What is listed besides the own contribution has a higher level. */
  ghost predicate OwnAmong(p: Partitioner, list: PendingList) {
    && PendingKey(0, p.nodeId, Aggregate) in list && list[PendingKey(0, p.nodeId, Aggregate)] == OwnItem(p)
    && forall key | key in list && key != PendingKey(0, p.nodeId, Aggregate) :: list[key].level > 0
  }

  lemma {:induction false} OwnStaysAmong(
    c: Context, isComplete: set<nat> -> bool, inbox: Inbox, updates: seq<LevelUpdate>)
    requires c.partitioner.Valid() && OwnAmong(c.partitioner, inbox.list)
    ensures OwnAmong(c.partitioner, ReceivedAll(c, isComplete, inbox, updates).list)
  {
    if updates != [] { OwnStaysAmong(c, isComplete, inbox, updates[..|updates| - 1]); }
  }

  lemma OwnIsPicked(p: Partitioner, k: Knowledge, weight: set<nat> -> nat, list: PendingList, outcomes: seq<Outcome>,
                    pick: Pick, rest: PendingList)
    requires p.Valid() && p.numIds <= MAX_IDS && k == Empty(p) && AllFit(p, list) && OwnAmong(p, list)
    requires forall key | key in list :: list[key].level < p.numLevels
    requires Picks(Evaluator(p, k, weight), list, pick.rejected, pick.next, pick.key, rest)
    requires Rejections(list, pick.rejected, outcomes)
    ensures pick.next == Some(OwnItem(p))
  {
    var own, evaluate := PendingKey(0, p.nodeId, Aggregate), Evaluator(p, k, weight);
    OwnCompletes(p, k);
    ScoreIsExact(p, k, {p.nodeId}, 0, weight({p.nodeId}));
    assert own !in pick.rejected && evaluate(list[own]) == 1_000_000;
    assert pick.key != own ==> evaluate(list[pick.key]) < 1_000_000 by {
      if pick.key != own {
        assert Fits(p, list[pick.key]);
        OwnScoresMost(p, k, list[pick.key], weight);
      }
    }
  }

  /** The first poll of every run applies the own contribution, unless it receives a full aggregate. */
  lemma OwnIsFirst(setup: Setup, inputs: seq<PollInput>, states: seq<Snapshot>, turns: seq<Turn>)
    requires setup.partitioner.Valid() && setup.partitioner.numIds <= MAX_IDS
    requires Trace(setup, inputs, states, turns) && inputs != []
    requires forall key | key in Gathered(setup, states[0], inputs[0]) ::
               Gathered(setup, states[0], inputs[0])[key].level < setup.partitioner.numLevels
    ensures turns[0].taken == Some(OwnItem(setup.partitioner))
    ensures states[1].applied == [Application({setup.partitioner.nodeId}, 0)]
  {
    var s, s', p, turn := states[0], states[1], setup.partitioner, turns[0];
    assert StepAt(setup, inputs, states, turns, 0) && Known(p, s);
    var c, list := ContextAt(setup, s.known, s.final), Gathered(setup, s, inputs[0]);
    ReceivedFit(c, setup.isComplete, Inbox(s.pending, s.log), inputs[0].updates);
    OwnStaysAmong(c, setup.isComplete, Inbox(s.pending, s.log), inputs[0].updates);
    assert DecidedBy(Evaluator(p, s.known, setup.weight), list, inputs[0].outcomes, turn.pick, s'.pending, s'.current,
                     turn.taken);
    OwnIsPicked(p, s.known, setup.weight, list, inputs[0].outcomes, turn.pick, s'.pending);
  }

  lemma FullIsPicked(
    p: Partitioner, k: Knowledge, weight: set<nat> -> nat, list: PendingList, pick: Pick, rest: PendingList,
    key: PendingKey)
    requires Scored(p, k) && AllFit(p, list)
    requires Picks(Evaluator(p, k, weight), list, pick.rejected, pick.next, pick.key, rest)
    requires key in list && key !in pick.rejected && list[key].level == p.numLevels
    ensures pick.next.Some? && pick.next.value.level == p.numLevels
  {
    var item, evaluate := list[key], Evaluator(p, k, weight);
    assert evaluate(item) == USIZE_MAX && evaluate(item) <= evaluate(pick.next.value);
    var next := pick.next.value;
    assert Fits(p, list[pick.key]);
    if next.level < p.numLevels {
      ScoreMeansImproves(p, k, next, weight);
      FullFirst(p, k, item.signers, next.signers, next.level, weight(item.signers), weight(next.signers));
    }
  }

  /** If a poll starts a verification while a full aggregate is pending, then what is verified last is one, unless
      the verification of that one failed. */
  lemma FullIsVerifiedFirst(
    setup: Setup, inputs: seq<PollInput>, states: seq<Snapshot>, turns: seq<Turn>, i: nat, key: PendingKey)
    requires setup.partitioner.Valid() && setup.partitioner.numIds <= MAX_IDS
    requires Trace(setup, inputs, states, turns) && i < |inputs|
    requires states[i].current.None? || inputs[i].verification == Done(false)
    requires var list := Gathered(setup, states[i], inputs[i]);
             key in list && key !in turns[i].pick.rejected && list[key].level == setup.partitioner.numLevels
    ensures var next := turns[i].pick.next;
            && next.Some? && (turns[i].taken == next || states[i + 1].current == next)
            && next.value.level == setup.partitioner.numLevels
  {
    var s, s', p, turn := states[i], states[i + 1], setup.partitioner, turns[i];
    assert StepAt(setup, inputs, states, turns, i) && Known(p, s);
    RunGrows(p, s.applied);
    var list := Gathered(setup, s, inputs[i]);
    ReceivedFit(ContextAt(setup, s.known, s.final), setup.isComplete, Inbox(s.pending, s.log), inputs[i].updates);
    assert DecidedBy(Evaluator(p, s.known, setup.weight), list, inputs[i].outcomes, turn.pick, s'.pending, s'.current,
                     turn.taken);
    FullIsPicked(p, s.known, setup.weight, list, turn.pick, s'.pending, key);
  }

  /** If a poll starts a verification while a pending contribution completes its level, then what is verified last
      completes its level, too, or is a full aggregate, unless the verification of that contribution failed. */
  lemma CompletingIsVerifiedFirst(
    setup: Setup, inputs: seq<PollInput>, states: seq<Snapshot>, turns: seq<Turn>, i: nat, key: PendingKey)
    requires setup.partitioner.Valid() && setup.partitioner.numIds <= MAX_IDS
    requires Trace(setup, inputs, states, turns) && i < |inputs|
    requires states[i].current.None? || inputs[i].verification == Done(false)
    requires var list := Gathered(setup, states[i], inputs[i]);
             && key in list && key !in turns[i].pick.rejected
             && Completes(setup.partitioner, states[i].known, list[key].signers, list[key].level)
    ensures var next := turns[i].pick.next;
            && next.Some? && (turns[i].taken == next || states[i + 1].current == next)
            && (next.value.level == setup.partitioner.numLevels
                || Completes(setup.partitioner, states[i].known, next.value.signers, next.value.level))
  {
    var s, s', p, turn := states[i], states[i + 1], setup.partitioner, turns[i];
    assert StepAt(setup, inputs, states, turns, i) && Known(p, s);
    RunGrows(p, s.applied);
    var list := Gathered(setup, s, inputs[i]);
    ReceivedFit(ContextAt(setup, s.known, s.final), setup.isComplete, Inbox(s.pending, s.log), inputs[i].updates);
    assert DecidedBy(Evaluator(p, s.known, setup.weight), list, inputs[i].outcomes, turn.pick, s'.pending, s'.current,
                     turn.taken);
    CompletingIsPicked(p, s.known, setup.weight, list, turn.pick, s'.pending, key);
  }

  // ---------- Running ----------

  lemma TraceExtends(setup: Setup, inputs: seq<PollInput>, i: nat, states: seq<Snapshot>, turns: seq<Turn>,
                     s: Snapshot, turn: Turn)
    requires i < |inputs| && Trace(setup, inputs[..i], states, turns) && Known(setup.partitioner, s)
    requires PollStep(setup, states[i], inputs[i], s, turn.result, turn.taken, turn.pick)
    ensures Trace(setup, inputs[..i + 1], states + [s], turns + [turn])
    ensures Emitted(turns + [turn]) == Emitted(turns) + if turn.result.Some? then [turn.result.value] else []
  {
    var before, inputs', states', turns' := inputs[..i], inputs[..i + 1], states + [s], turns + [turn];
    assert turns'[..|turns'| - 1] == turns;
    forall j: nat | j < i + 1 ensures StepAt(setup, inputs', states', turns', j) {
      if j < i {
        assert StepAt(setup, before, states, turns, j);
      }
    }
    forall j: nat | j < |states'| ensures Known(setup.partitioner, states'[j]) {
      if j < |states| {
        assert Known(setup.partitioner, states[j]);
      }
    }
  }

  /** Whatever the environment does: no poll of any run aborts, every update sent on the way is accepted
      by its receiver, the aggregates of the store grow strictly, and a complete one is the last. */
  method Run(p: Partitioner, peers: nat, complete: set<nat> -> bool, weight: set<nat> -> nat, inputs: seq<PollInput>)
    returns (results: seq<set<nat>>, sent: seq<Message>, ghost states: seq<Snapshot>, ghost turns: seq<Turn>)
    requires p.Valid() && p.numIds <= MAX_IDS
    ensures Trace(Setup(p, peers, complete, weight), inputs, states, turns)
    ensures results == Emitted(turns) && Growing(p, turns) && Settled(complete, turns)
    ensures StoreResults(p, turns) <= |states[|inputs|].applied| <= p.numIds
    ensures sent == Delivered(states[|inputs|].log) && AllWelcome(p.numIds, sent, complete)
  {
    ghost var setup := Setup(p, peers, complete, weight);
    var node := new Node(p, peers, complete, weight);
    results, states, turns := [], [node.State()], [];
    assert Known(p, states[0]);
    for i := 0 to |inputs|
      invariant node.Valid() && node.SetupOf() == setup && fresh(node) && fresh(node.store)
      invariant Trace(setup, inputs[..i], states, turns) && states[i] == node.State() && results == Emitted(turns)
    {
      ghost var taken, pick;
      var r;
      r, taken, pick := node.Poll(inputs[i]);
      TraceExtends(setup, inputs, i, states, turns, node.State(), Turn(r, taken, pick));
      states, turns := states + [node.State()], turns + [Turn(r, taken, pick)];
      if r.Some? {
        results := results + [r.value];
      }
    }
    assert inputs[..|inputs|] == inputs && turns[..|turns|] == turns;
    ResultsGrow(setup, inputs, states, turns);
    ResultsSettle(setup, inputs, states, turns);
    StoreResultsBound(setup, inputs, states, turns, |inputs|);
    sent := node.sent;
  }
}
