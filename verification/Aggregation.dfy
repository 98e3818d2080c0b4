/** The aggregation of one node: it scores, verifies one contribution at a time, applies it and sends updates. */
module Aggregation {
  import opened BinomialPartitioner
  import opened Sets
  import opened Wrappers
  import opened ReplaceStore
  import opened WeightedVote
  import opened Levels
  import opened PendingContributions

  datatype Message = Message(to: nat, update: LevelUpdate)

  /** Every node of the aggregation is known, and an honest one accepts the update sent to it. */
  ghost predicate Welcome(numIds: nat, m: Message, isComplete: set<nat> -> bool) {
    m.to < numIds && Verify(New(m.to, numIds), m.update, isComplete) == Accepted
  }

  ghost predicate AllWelcome(numIds: nat, sent: seq<Message>, isComplete: set<nat> -> bool) {
    forall m | m in sent :: Welcome(numIds, m, isComplete)
  }

  // ---------- Invariants of the levels ----------

  ghost predicate LevelsMatch(p: Partitioner, levels: seq<Level>) {
    && |levels| == p.numLevels
    && forall i: nat | i < |levels| :: levels[i].id == i && levels[i].peerIds == p.Level(i) && levels[i].Valid()
  }

  ghost predicate StartedPrefix(levels: seq<Level>) {
    && |levels| > 0 && levels[0].started
    && forall i: nat, j: nat | i < j < |levels| && levels[j].started :: levels[i].started
  }

  ghost predicate Covered(p: Partitioner, k: Knowledge, i: nat) {
    k.BestOr(i) == p.Level(i)
  }

  /** Levels with peers are complete exactly when their best covers them; `open` is still to be checked. */
  ghost predicate CompleteIffCovered(p: Partitioner, k: Knowledge, levels: seq<Level>, open: int) {
    forall i: nat | i < |levels| && levels[i].peerIds != {} ::
      (levels[i].complete ==> Covered(p, k, i)) && (i != open && Covered(p, k, i) ==> levels[i].complete)
  }

  ghost predicate SuccessorStarted(levels: seq<Level>) {
    forall i: nat | i + 1 < |levels| && levels[i].complete :: levels[i + 1].started
  }

  /** Before the final result the levels follow the store, afterwards all are complete. */
  ghost predicate LevelsInStep(p: Partitioner, k: Knowledge, levels: seq<Level>, final: bool, open: int) {
    && LevelsMatch(p, levels)
    && StartedPrefix(levels)
    && (!final ==> CompleteIffCovered(p, k, levels, open) && SuccessorStarted(levels))
    && (final ==> forall i: nat | i < |levels| :: levels[i].complete)
  }

  /** The levels changed only by starting all levels up to `level`, and by their round-robin. */
  ghost predicate StartedUpTo(before: seq<Level>, after: seq<Level>, level: int) {
    && |before| == |after|
    && forall i: nat | i < |after| ::
         && after[i].started == (before[i].started || i <= level)
         && after[i].complete == before[i].complete
         && after[i].id == before[i].id && after[i].peerIds == before[i].peerIds && after[i].Valid()
  }

  lemma StartingKeepsStep(
    p: Partitioner, k: Knowledge, before: seq<Level>, after: seq<Level>, level: int, final: bool, open: int)
    requires LevelsInStep(p, k, before, final, open) && StartedUpTo(before, after, level)
    ensures LevelsInStep(p, k, after, final, open)
  {}

  lemma InitialLevelsInStep(p: Partitioner, k: Knowledge, levels: seq<Level>)
    requires p.Valid() && k.best == map[] && |levels| == p.numLevels
    requires forall i: nat | i < p.numLevels :: Created(p, i, levels[i])
    ensures LevelsInStep(p, k, levels, false, -1)
  {
    assert Created(p, 0, levels[0]);
  }

  lemma PutOpensLevel(p: Partitioner, k: Knowledge, levels: seq<Level>, final: bool, a: Application)
    requires LevelsInStep(p, k, levels, final, -1) && Improves(p, k, a)
    ensures LevelsInStep(p, k.Put(a.signers, a.level), levels, final, a.level)
  {
    PutKeepsConsistent(k, a.signers, a.level);
    CompleteLevelIsCovered(p, k, a.level);
    var k' := k.Put(a.signers, a.level);
    if !final {
      // A level that can still be improved is not covered, so it is not marked complete.
      assert !Covered(p, k, a.level) by {
        if Covered(p, k, a.level) { CoveredGainsNothing(k, a.signers, a.level); }
      }
      forall i: nat | i < |levels| && levels[i].peerIds != {}
        ensures (levels[i].complete ==> Covered(p, k', i)) && (i != a.level && Covered(p, k', i) ==> levels[i].complete)
      {
        assert i != a.level ==> k'.BestOr(i) == k.BestOr(i);
      }
    }
  }

  lemma StartingExtends(before: seq<Level>, levels: seq<Level>, lvl: nat, next: Level)
    requires StartedUpTo(before, levels, lvl - 1) && lvl < |levels|
    requires next.started && next == levels[lvl].(started := true, nextPeerIndex := next.nextPeerIndex) && next.Valid()
    ensures StartedUpTo(before, levels[lvl := next], lvl)
  {}

  lemma StartingKeepsMatch(p: Partitioner, before: seq<Level>, after: seq<Level>, level: int)
    requires LevelsMatch(p, before) && StartedUpTo(before, after, level)
    ensures LevelsMatch(p, after)
  {}

  /** The level was checked: it is marked already, or it has peers and is not covered. */
  lemma NothingToMark(p: Partitioner, k: Knowledge, levels: seq<Level>, final: bool, level: nat)
    requires LevelsInStep(p, k, levels, final, level) && level < |levels|
    requires levels[level].complete || (levels[level].peerIds != {} && !Covered(p, k, level))
    ensures LevelsInStep(p, k, levels, final, -1)
  {}

  function Mark(levels: seq<Level>, level: nat): seq<Level>
    requires level < |levels|
  {
    levels[level := levels[level].(complete := true)]
  }

  ghost function MarkBelow(levels: seq<Level>, n: nat): (r: seq<Level>)
    requires n <= |levels|
    ensures |r| == |levels|
    ensures forall i: nat | i < |r| :: r[i] == if i < n then levels[i].(complete := true) else levels[i]
  {
    if n == 0 then levels else Mark(MarkBelow(levels, n - 1), n - 1)
  }

  /** The level was marked, and its successor started. */
  lemma MarkingKeepsStep(p: Partitioner, k: Knowledge, before: seq<Level>, after: seq<Level>, level: nat, upTo: int)
    requires LevelsInStep(p, k, before, false, level) && level < |before|
    requires before[level].peerIds == {} || Covered(p, k, level)
    requires StartedUpTo(Mark(before, level), after, upTo)
    requires level + 1 < |after| ==> after[level + 1].started
    ensures LevelsInStep(p, k, after, false, -1)
  {}

  lemma AdvancingIsStarting(levels: seq<Level>, level: nat, count: nat)
    requires level < |levels| && forall i: nat | i < |levels| :: levels[i].Valid()
    ensures StartedUpTo(levels, levels[level := Advance(levels[level], count)], -1)
  {}

  // ---------- What is sent ----------

  /** The update for a level; the own contribution is attached unless all signers below are present. */
  ghost function UpdateFor(p: Partitioner, signers: set<nat>, levelId: nat): LevelUpdate
    requires levelId > 0
  {
    NewUpdate(signers, if |signers| < |p.UpTo(levelId - 1)| then Some({p.nodeId}) else None, levelId, p.nodeId)
  }

  function Broadcast(ids: seq<nat>, update: LevelUpdate): seq<Message> {
    if ids == [] then [] else Broadcast(ids[..|ids| - 1], update) + [Message(ids[|ids| - 1], update)]
  }

  lemma {:induction false} BroadcastReachesAll(ids: seq<nat>, update: LevelUpdate)
    ensures forall m :: m in Broadcast(ids, update) <==> m.update == update && m.to in ids
  {
    if ids != [] { BroadcastReachesAll(ids[..|ids| - 1], update); }
  }

  ghost function FinalUpdates(p: Partitioner, final: Option<set<nat>>, to: set<nat>): seq<Message>
    requires p.numLevels > 0
  {
    if final.Some? then Broadcast(Ascending(to), UpdateFor(p, final.value, p.numLevels)) else []
  }

  ghost function BestUpdates(p: Partitioner, k: Knowledge, levelId: nat, to: set<nat>): seq<Message>
    requires levelId > 0
  {
    if exists l :: l in k.best && l < levelId then Broadcast(Ascending(to), UpdateFor(p, k.Below(levelId), levelId))
    else []
  }

  /** The final result if there is one, and the combined bests below the level if there are any. */
  ghost function Updates(p: Partitioner, k: Knowledge, final: Option<set<nat>>, levelId: nat,
                         to: set<nat>): seq<Message>
    requires levelId > 0 && p.numLevels > 0
  {
    FinalUpdates(p, final, to) + BestUpdates(p, k, levelId, to)
  }

  // ---------- What peers get ----------

  ghost predicate HasBelow(k: Knowledge, levelId: nat) {
    exists l :: l in k.best && l < levelId
  }

  ghost predicate SignsBelow(k: Knowledge, levelId: nat, x: nat) {
    exists l | l in k.best && l < levelId :: x in k.best[l]
  }

  /** Somebody of the levels below does not sign. */
  ghost predicate MissesBelow(p: Partitioner, levelId: nat, signers: set<nat>) {
    exists l: nat, x | l < levelId && x in p.Level(l) :: x !in signers
  }

  /** What the peers of a level should get: the signers of all bests below it, and the own contribution exactly if
      somebody of these levels is missing. */
  ghost predicate Honest(p: Partitioner, k: Knowledge, levelId: nat, u: LevelUpdate) {
    && u.level == levelId && u.origin == p.nodeId
    && (forall x :: x in u.aggregate <==> SignsBelow(k, levelId, x))
    && u.individual == if MissesBelow(p, levelId, u.aggregate) then Some({p.nodeId}) else None
  }

  /** The final result, as an update of the level past the last. */
  ghost predicate Full(p: Partitioner, final: set<nat>, u: LevelUpdate) {
    && u.level == p.numLevels && u.origin == p.nodeId && u.aggregate == final
    && u.individual == if |final| < p.numIds then Some({p.nodeId}) else None
  }

  ghost predicate GetsBest(p: Partitioner, k: Knowledge, levelId: nat, to: nat, sent: seq<Message>) {
    exists u :: Message(to, u) in sent && Honest(p, k, levelId, u)
  }

  ghost predicate GetsFinal(p: Partitioner, final: set<nat>, to: nat, sent: seq<Message>) {
    exists u :: Message(to, u) in sent && Full(p, final, u)
  }

  /** A peer of a level gets what is known below it, if anything is, and the final result, if there is one. */
  ghost predicate Served(
    p: Partitioner, k: Knowledge, final: Option<set<nat>>, levelId: nat, to: nat, sent: seq<Message>)
  {
    && (HasBelow(k, levelId) ==> GetsBest(p, k, levelId, to, sent))
    && (final.Some? ==> GetsFinal(p, final.value, to, sent))
  }

  lemma {:induction false} BelowIsUnion(k: Knowledge, n: nat, x: nat)
    ensures x in k.Below(n) <==> SignsBelow(k, n, x)
  {
    if n > 0 {
      BelowIsUnion(k, n - 1, x);
      if SignsBelow(k, n, x) {
        var l :| l in k.best && l < n && x in k.best[l];
        assert l == n - 1 || SignsBelow(k, n - 1, x);
      }
      if x in k.Below(n - 1) {
        var l :| l in k.best && l < n - 1 && x in k.best[l];
      }
    }
  }

  lemma {:induction false} UpToIsUnion(p: Partitioner, n: nat, x: nat)
    ensures x in p.UpTo(n) <==> exists l: nat :: l <= n && x in p.Level(l)
  {
    UpToGrows(p, 0);
    if n > 0 {
      UpToIsUnion(p, n - 1, x);
      UpToGrows(p, n - 1);
    }
  }

  lemma SmallerIsMissing(p: Partitioner, k: Knowledge, levelId: nat)
    requires k.InsideLevels(p) && levelId > 0
    ensures |k.Below(levelId)| < |p.UpTo(levelId - 1)| <==> MissesBelow(p, levelId, k.Below(levelId))
  {
    var signers, all := k.Below(levelId), p.UpTo(levelId - 1);
    BelowInsideUpTo(p, k, levelId);
    SubsetSize(signers, all);
    if MissesBelow(p, levelId, signers) {
      var l: nat, x :| l < levelId && x in p.Level(l) && x !in signers;
      UpToIsUnion(p, levelId - 1, x);
    }
    if signers != all {
      var x :| x in all && x !in signers;
      UpToIsUnion(p, levelId - 1, x);
    }
  }

  lemma UpdateIsHonest(p: Partitioner, k: Knowledge, levelId: nat)
    requires p.Valid() && p.numIds <= MAX_IDS && k.InsideLevels(p) && 1 <= levelId < p.numLevels
    ensures Honest(p, k, levelId, UpdateFor(p, k.Below(levelId), levelId))
  {
    LevelBound(p);
    SmallerIsMissing(p, k, levelId);
    forall x ensures x in k.Below(levelId) <==> SignsBelow(k, levelId, x) { BelowIsUnion(k, levelId, x); }
  }

  lemma FinalIsFull(p: Partitioner, final: set<nat>)
    requires p.Valid() && p.numIds <= MAX_IDS
    ensures Full(p, final, UpdateFor(p, final, p.numLevels))
  {
    LevelBound(p);
    UpToLast(p);
  }

  lemma BestReaches(p: Partitioner, k: Knowledge, levelId: nat, to: set<nat>)
    requires p.Valid() && p.numIds <= MAX_IDS && k.InsideLevels(p) && 1 <= levelId < p.numLevels
    ensures forall id | id in to && HasBelow(k, levelId) :: GetsBest(p, k, levelId, id, BestUpdates(p, k, levelId, to))
    ensures forall m | m in BestUpdates(p, k, levelId, to) :: m.to in to && Honest(p, k, levelId, m.update)
    ensures |BestUpdates(p, k, levelId, to)| == if HasBelow(k, levelId) then |to| else 0
  {
    var ids, update := Ascending(to), UpdateFor(p, k.Below(levelId), levelId);
    UpdateIsHonest(p, k, levelId);
    BroadcastReachesAll(ids, update);
    BroadcastLength(ids, update);
    forall id | id in to && HasBelow(k, levelId) ensures GetsBest(p, k, levelId, id, BestUpdates(p, k, levelId, to)) {
      assert Message(id, update) in BestUpdates(p, k, levelId, to);
    }
  }

  lemma FinalReaches(p: Partitioner, final: set<nat>, to: set<nat>)
    requires p.Valid() && p.numIds <= MAX_IDS
    ensures forall id | id in to :: GetsFinal(p, final, id, FinalUpdates(p, Some(final), to))
    ensures forall m | m in FinalUpdates(p, Some(final), to) :: m.to in to && Full(p, final, m.update)
    ensures |FinalUpdates(p, Some(final), to)| == |to|
  {
    var ids, update := Ascending(to), UpdateFor(p, final, p.numLevels);
    FinalIsFull(p, final);
    BroadcastReachesAll(ids, update);
    BroadcastLength(ids, update);
    forall id | id in to ensures GetsFinal(p, final, id, FinalUpdates(p, Some(final), to)) {
      assert Message(id, update) in FinalUpdates(p, Some(final), to);
    }
  }

  lemma ServedByParts(p: Partitioner, k: Knowledge, final: Option<set<nat>>, levelId: nat, to: nat,
                      finals: seq<Message>, bests: seq<Message>)
    requires HasBelow(k, levelId) ==> GetsBest(p, k, levelId, to, bests)
    requires final.Some? ==> GetsFinal(p, final.value, to, finals)
    ensures Served(p, k, final, levelId, to, finals + bests)
  {
    if HasBelow(k, levelId) {
      var u :| Message(to, u) in bests && Honest(p, k, levelId, u);
      assert Message(to, u) in finals + bests;
    }
    if final.Some? {
      var u :| Message(to, u) in finals && Full(p, final.value, u);
      assert Message(to, u) in finals + bests;
    }
  }

  /** Every recipient of the updates of a level is served, and nobody gets anything else. */
  lemma UpdatesServe(p: Partitioner, k: Knowledge, final: Option<set<nat>>, levelId: nat, to: set<nat>)
    requires p.Valid() && p.numIds <= MAX_IDS && k.InsideLevels(p) && 1 <= levelId < p.numLevels
    ensures forall id | id in to :: Served(p, k, final, levelId, id, Updates(p, k, final, levelId, to))
    ensures forall m | m in Updates(p, k, final, levelId, to) ::
              m.to in to && (Honest(p, k, levelId, m.update) || (final.Some? && Full(p, final.value, m.update)))
    ensures |Updates(p, k, final, levelId, to)|
         == (if final.Some? then |to| else 0) + if HasBelow(k, levelId) then |to| else 0
  {
    BestReaches(p, k, levelId, to);
    if final.Some? { FinalReaches(p, final.value, to); }
    forall id | id in to ensures Served(p, k, final, levelId, id, Updates(p, k, final, levelId, to)) {
      ServedByParts(p, k, final, levelId, id, FinalUpdates(p, final, to), BestUpdates(p, k, levelId, to));
    }
  }

  lemma {:induction false} BroadcastLength(ids: seq<nat>, update: LevelUpdate)
    ensures |Broadcast(ids, update)| == |ids|
  {
    if ids != [] { BroadcastLength(ids[..|ids| - 1], update); }
  }

  // ---------- What receivers accept ----------

  lemma BestIsWelcome(p: Partitioner, k: Knowledge, levelId: nat, to: nat, isComplete: set<nat> -> bool)
    requires p.Valid() && p.numIds <= MAX_IDS && k.InsideLevels(p)
    requires 1 <= levelId < p.numLevels && to in p.Level(levelId)
    ensures Welcome(p.numIds, Message(to, UpdateFor(p, k.Below(levelId), levelId)), isComplete)
  {
    var individual := if |k.Below(levelId)| < |p.UpTo(levelId - 1)| then Some({p.nodeId}) else None;
    HonestUpdateIsAccepted(p, New(to, p.numIds), k, levelId, individual, isComplete);
  }

  lemma FinalIsWelcome(p: Partitioner, final: set<nat>, to: nat, isComplete: set<nat> -> bool)
    requires p.Valid() && p.numIds <= MAX_IDS && to < p.numIds && isComplete(final)
    ensures Welcome(p.numIds, Message(to, UpdateFor(p, final, p.numLevels)), isComplete)
  {
    var individual := if |final| < |p.UpTo(p.numLevels - 1)| then Some({p.nodeId}) else None;
    LevelBound(p);
    NewUpdateKeepsFields(final, individual, p.numLevels, p.nodeId);
  }

  lemma BroadcastIsWelcome(numIds: nat, ids: seq<nat>, update: LevelUpdate, isComplete: set<nat> -> bool)
    requires forall to | to in ids :: Welcome(numIds, Message(to, update), isComplete)
    ensures AllWelcome(numIds, Broadcast(ids, update), isComplete)
  {
    BroadcastReachesAll(ids, update);
    forall m | m in Broadcast(ids, update) ensures Welcome(numIds, m, isComplete) {
      assert m == Message(m.to, update);
    }
  }

  /** The pending list with the contributions of an update. */
  function Listed(list: PendingList, update: LevelUpdate): PendingList {
    var list' := AddContribution(list, update.aggregate, update.level, update.origin, Aggregate, false);
    if update.individual.None? then list'
    else AddContribution(list', update.individual.value, update.level, update.origin, Individual, false)
  }

  /** What the updates of the levels depend on. */
  datatype Context = Context(partitioner: Partitioner, known: Knowledge, final: Option<set<nat>>, peerCount: nat)

  /** A level moves on when it is updated: only its round-robin changes. */
  ghost function Moved(c: Context, l: Level): (l': Level)
    ensures l.Valid() ==> l'.Valid() && l' == l.(nextPeerIndex := l'.nextPeerIndex)
  {
    if l.Valid() then Advance(l, c.peerCount) else l
  }

  /** The next peers of a level get its updates, or the sender of an update gets an answer. */
  datatype Event =
    | Update(context: Context, levelId: nat, level: Level)
    | Reply(context: Context, levelId: nat, to: nat)

  /** The messages of an event; a peer with a full aggregate needs no answer. */
  ghost function Delivery(e: Event): seq<Message> {
    var c := e.context;
    if e.levelId == 0 || e.levelId >= c.partitioner.numLevels then []
    else Updates(c.partitioner, c.known, c.final, e.levelId,
                 if e.Update? then Selected(e.level, c.peerCount) else {e.to})
  }

  ghost function Delivered(log: seq<Event>): seq<Message> {
    if log == [] then [] else Delivered(log[..|log| - 1]) + Delivery(log[|log| - 1])
  }

  lemma ReplyDelivered(log: seq<Event>, c: Context, levelId: nat, to: nat)
    requires 1 <= levelId <= c.partitioner.numLevels
    ensures Delivered(log + [Reply(c, levelId, to)])
         == Delivered(log) + (if levelId == c.partitioner.numLevels then []
                              else Updates(c.partitioner, c.known, c.final, levelId, {to}))
  {
    DeliveredStep(log, Reply(c, levelId, to));
  }

  lemma DeliveredStep(log: seq<Event>, e: Event)
    ensures Delivered(log + [e]) == Delivered(log) + Delivery(e)
  {
    assert (log + [e])[..|log|] == log;
  }

  datatype Inbox = Inbox(list: PendingList, log: seq<Event>)

  /** A rejected update changes nothing; an accepted one is answered and its contributions are listed. */
  ghost function Received(c: Context, isComplete: set<nat> -> bool, inbox: Inbox, update: LevelUpdate): Inbox
    requires c.partitioner.Valid()
  {
    if Verify(c.partitioner, update, isComplete).Rejected? then inbox
    else Inbox(Listed(inbox.list, update), inbox.log + [Reply(c, update.level, update.origin)])
  }

  ghost function ReceivedAll(
    c: Context, isComplete: set<nat> -> bool, inbox: Inbox, updates: seq<LevelUpdate>): Inbox
    requires c.partitioner.Valid()
  {
    if updates == [] then inbox
    else
      var n := |updates| - 1;
      Received(c, isComplete, ReceivedAll(c, isComplete, inbox, updates[..n]), updates[n])
  }

  lemma ReceivedStep(
    c: Context, isComplete: set<nat> -> bool, inbox: Inbox, updates: seq<LevelUpdate>, i: nat)
    requires c.partitioner.Valid() && i < |updates|
    ensures ReceivedAll(c, isComplete, inbox, updates[..i + 1])
         == Received(c, isComplete, ReceivedAll(c, isComplete, inbox, updates[..i]), updates[i])
  {
    assert updates[..i + 1][..i] == updates[..i];
  }

  /** The levels, and what was sent so far. */
  datatype Talk = Talk(levels: seq<Level>, log: seq<Event>)

  /** The next peers of a level get its updates. */
  ghost function Sending(c: Context, t: Talk, l: nat): (r: Talk)
    requires l < |t.levels|
    ensures |r.levels| == |t.levels|
  {
    Talk(t.levels[l := Moved(c, t.levels[l])], t.log + [Update(c, l, t.levels[l])])
  }

  /** A level is started, and its next peers get its updates; level 0 has nobody to send to. */
  ghost function Starting(c: Context, t: Talk, l: nat): (r: Talk)
    requires l < |t.levels|
    ensures |r.levels| == |t.levels|
  {
    var t' := Talk(t.levels[l := t.levels[l].(started := true)], t.log);
    if l == 0 then t' else Sending(c, t', l)
  }

  /** All levels from `from` to below `to` are started. */
  ghost function StartingAll(c: Context, t: Talk, from: nat, to: nat): (r: Talk)
    requires to <= |t.levels|
    ensures |r.levels| == |t.levels|
  {
    if to <= from then t else Starting(c, StartingAll(c, t, from, to - 1), to - 1)
  }

  /** The first level that is not started, or the number of levels. */
  function FirstIdle(levels: seq<Level>, from: nat): (l: nat)
    requires from <= |levels|
    ensures from <= l <= |levels| && (l < |levels| ==> !levels[l].started)
    ensures forall i | from <= i < l :: levels[i].started
    decreases |levels| - from
  {
    if from == |levels| || !levels[from].started then from else FirstIdle(levels, from + 1)
  }

  /** As started levels form a prefix, these are the levels below the first idle one. */
  lemma StartedAreBelowIdle(levels: seq<Level>, i: nat)
    requires StartedPrefix(levels) && i < |levels|
    ensures levels[i].started <==> i < FirstIdle(levels, 0)
  {
    var idle := FirstIdle(levels, 0);
    assert idle <= i ==> !levels[idle].started;
  }

  /** All levels up to `level` that are not started are started, in order. */
  ghost function StartingUpTo(c: Context, t: Talk, level: nat): (r: Talk)
    requires level < |t.levels|
    ensures |r.levels| == |t.levels|
  {
    StartingAll(c, t, FirstIdle(t.levels, 0), level + 1)
  }

  /** The next level is started, or gets the improved aggregate if it was started before. */
  ghost function Activating(c: Context, t: Talk, l: nat): (r: Talk)
    requires l < |t.levels|
    ensures |r.levels| == |t.levels|
  {
    if t.levels[l].started then Sending(c, t, l) else StartingUpTo(c, t, l)
  }

  /** A covered level is marked and its successor activated, and so on with the successor. */
  ghost function Completing(c: Context, t: Talk, l: nat): (r: Talk)
    requires l < |t.levels|
    ensures |r.levels| == |t.levels|
    decreases |t.levels| - l
  {
    if t.levels[l].complete || !(t.levels[l].peerIds == {} || Covered(c.partitioner, c.known, l)) then t
    else
      var t' := Talk(Mark(t.levels, l), t.log);
      if l == |t.levels| - 1 then t' else Completing(c, Activating(c, t', l + 1), l + 1)
  }

  /** The started levels below `n` other than level 0 get their updates. */
  ghost function Updating(c: Context, t: Talk, n: nat): (r: Talk)
    requires n <= |t.levels|
    ensures |r.levels| == |t.levels|
  {
    if n <= 1 then t else Sending(c, Updating(c, t, n - 1), n - 1)
  }

  /** The periodic update fired `n` times. */
  ghost function Ticking(c: Context, t: Talk, n: nat): (r: Talk)
    ensures |r.levels| == |t.levels|
  {
    if n == 0 then t
    else
      var t' := Ticking(c, t, n - 1);
      Updating(c, t', FirstIdle(t'.levels, 0))
  }

  /** The first idle level is started, if there is one. */
  ghost function StartingIdle(c: Context, t: Talk): (r: Talk)
    ensures |r.levels| == |t.levels|
  {
    var idle := FirstIdle(t.levels, 0);
    if idle == |t.levels| then t else StartingUpTo(c, t, idle)
  }

  /** The level timeout fired `n` times. */
  ghost function TimingOut(c: Context, t: Talk, n: nat): (r: Talk)
    ensures |r.levels| == |t.levels|
  {
    if n == 0 then t else StartingIdle(c, TimingOut(c, t, n - 1))
  }

  /** A level with a new best is started, and what this completes is followed up. */
  ghost function Following(c: Context, t: Talk, level: Option<nat>): (r: Talk)
    requires level.Some? ==> level.value < |t.levels|
    ensures |r.levels| == |t.levels|
  {
    if level.None? then t else Completing(c, StartingUpTo(c, t, level.value), level.value)
  }

  /** A poll in which `level` got a new best, either from the verification in flight or from a new one:
      the context changes with the store. */
  ghost function Polled(
    before: Context, after: Context, t: Talk, input: PollInput, finished: bool, level: Option<nat>): (r: Talk)
    requires level.Some? ==> level.value < |t.levels|
    ensures |r.levels| == |t.levels|
  {
    if finished then TimingOut(after, Ticking(after, Following(after, t, level), input.ticks), input.timeouts)
    else Following(after, TimingOut(before, Ticking(before, t, input.ticks), input.timeouts), level)
  }

  /** With a complete aggregate all levels are marked. */
  ghost predicate Concluded(t: Talk, complete: bool, t': Talk) {
    t'.log == t.log && t'.levels == if complete then MarkBelow(t.levels, |t.levels|) else t.levels
  }

  /** Each timeout starts one more level until all are started. */
  lemma {:induction false} TimeoutsStart(c: Context, t: Talk, n: nat)
    requires StartedPrefix(t.levels) && AllValid(t.levels)
    ensures var levels := TimingOut(c, t, n).levels;
            && StartedPrefix(levels) && AllValid(levels)
            && var idle := FirstIdle(t.levels, 0) + n;
               FirstIdle(levels, 0) == if idle <= |levels| then idle else |levels|
  {
    if n > 0 {
      TimeoutsStart(c, t, n - 1);
      IdleIsStarted(c, TimingOut(c, t, n - 1));
    }
  }

  lemma IdleIsStarted(c: Context, t: Talk)
    requires StartedPrefix(t.levels) && AllValid(t.levels)
    ensures var levels := StartingIdle(c, t).levels;
            && StartedPrefix(levels) && AllValid(levels)
            && var idle := FirstIdle(t.levels, 0);
               FirstIdle(levels, 0) == if idle < |levels| then idle + 1 else |levels|
  {
    var idle := FirstIdle(t.levels, 0);
    if idle < |t.levels| {
      StartingAllStarts(c, t, idle + 1);
      OneMoreStarted(t.levels, StartingIdle(c, t).levels);
    }
  }

  lemma OneMoreStarted(before: seq<Level>, after: seq<Level>)
    requires StartedPrefix(before) && FirstIdle(before, 0) < |before|
    requires StartedUpTo(before, after, FirstIdle(before, 0))
    ensures StartedPrefix(after) && AllValid(after) && FirstIdle(after, 0) == FirstIdle(before, 0) + 1
  {
    var idle := FirstIdle(before, 0);
    forall i: nat | i < |before| ensures after[i].started <==> i <= idle {
      StartedAreBelowIdle(before, i);
    }
    StartedAreBelowIdle(after, idle);
    if idle + 1 < |after| { StartedAreBelowIdle(after, idle + 1); }
  }

  /** Starting levels in order starts exactly these. */
  lemma {:induction false} StartingAllStarts(c: Context, t: Talk, to: nat)
    requires to <= |t.levels| && AllValid(t.levels)
    ensures StartedUpTo(t.levels, StartingAll(c, t, FirstIdle(t.levels, 0), to).levels, to - 1)
  {
    var from := FirstIdle(t.levels, 0);
    if to <= from {
      NoneToStart(t.levels, to - 1);
    } else {
      StartingAllStarts(c, t, to - 1);
      StartingNext(c, t.levels, StartingAll(c, t, from, to - 1), to - 1);
    }
  }

  ghost predicate AllValid(levels: seq<Level>) {
    forall i: nat | i < |levels| :: levels[i].Valid()
  }

  lemma NoneToStart(levels: seq<Level>, level: int)
    requires level < FirstIdle(levels, 0) && AllValid(levels)
    ensures StartedUpTo(levels, levels, level)
  {}

  lemma StartingNext(c: Context, before: seq<Level>, t: Talk, l: nat)
    requires l < |t.levels| && StartedUpTo(before, t.levels, l - 1)
    ensures StartedUpTo(before, Starting(c, t, l).levels, l)
  {
    StartingOne(c, t, l);
    StartingExtends(before, t.levels, l, Starting(c, t, l).levels[l]);
  }

  lemma StartingOne(c: Context, t: Talk, l: nat)
    requires l < |t.levels| && t.levels[l].Valid()
    ensures var next := Starting(c, t, l).levels[l];
            && next.Valid() && next.started
            && next == t.levels[l].(started := true, nextPeerIndex := next.nextPeerIndex)
            && Starting(c, t, l).levels == t.levels[l := next]
  {
    var level := t.levels[l].(started := true);
    assert level.Valid();
    var l' := Moved(c, level);
    assert t.levels[l := level][l := l'] == t.levels[l := l'];
  }

  /** All levels below `n` except level 0 have moved on. */
  lemma {:induction false} UpdatingMovesOn(c: Context, t: Talk, n: nat, i: nat)
    requires n <= |t.levels| && i < |t.levels|
    ensures Updating(c, t, n).levels[i] == if 0 < i < n then Moved(c, t.levels[i]) else t.levels[i]
  {
    if n > 1 { UpdatingMovesOn(c, t, n - 1, i); }
  }

  lemma UpdatingKeeps(c: Context, t: Talk, n: nat)
    requires n <= |t.levels| && AllValid(t.levels)
    ensures StartedUpTo(t.levels, Updating(c, t, n).levels, -1)
  {
    forall i: nat | i < |t.levels| ensures Updating(c, t, n).levels[i].Valid()
      && Updating(c, t, n).levels[i] == t.levels[i].(nextPeerIndex := Updating(c, t, n).levels[i].nextPeerIndex)
    {
      UpdatingMovesOn(c, t, n, i);
    }
  }

  /** Every update sent to peers of a level is welcome there. */
  lemma UpdatesAreWelcome(
    p: Partitioner, k: Knowledge, final: Option<set<nat>>, levelId: nat, to: set<nat>, isComplete: set<nat> -> bool)
    requires p.Valid() && p.numIds <= MAX_IDS && k.InsideLevels(p)
    requires 1 <= levelId < p.numLevels && to <= p.Level(levelId)
    requires final.Some? ==> isComplete(final.value)
    ensures AllWelcome(p.numIds, Updates(p, k, final, levelId, to), isComplete)
  {
    var ids := Ascending(to);
    if final.Some? {
      forall id | id in ids
        ensures Welcome(p.numIds, Message(id, UpdateFor(p, final.value, p.numLevels)), isComplete)
      {
        FinalIsWelcome(p, final.value, id, isComplete);
      }
      BroadcastIsWelcome(p.numIds, ids, UpdateFor(p, final.value, p.numLevels), isComplete);
    }
    forall id | id in ids
      ensures Welcome(p.numIds, Message(id, UpdateFor(p, k.Below(levelId), levelId)), isComplete)
    {
      BestIsWelcome(p, k, levelId, id, isComplete);
    }
    BroadcastIsWelcome(p.numIds, ids, UpdateFor(p, k.Below(levelId), levelId), isComplete);
  }

  // ---------- What is applied ----------

  /** An item with a score improves its level. */
  lemma ScoreMeansImproves(p: Partitioner, k: Knowledge, item: PendingContribution, weight: set<nat> -> nat)
    requires Scored(p, k) && Fits(p, item) && item.level < p.numLevels && Score(p, k, item, weight) > 0
    ensures Improves(p, k, Application(item.signers, item.level))
  {
    EvaluatorIsExact(p, k, item.signers, item.level, weight(item.signers));
  }

  lemma RunExtends(p: Partitioner, run: seq<Application>, a: Application)
    requires ImprovingRun(p, run) && Improves(p, Replay(p, run), a)
    ensures ImprovingRun(p, run + [a]) && Replay(p, run + [a]) == Replay(p, run).Put(a.signers, a.level)
  {
    assert (run + [a])[..|run + [a]| - 1] == run;
  }

  /** What an improving application does to the store, the levels and the run. */
  lemma ApplyingKeeps(
    p: Partitioner, k: Knowledge, levels: seq<Level>, final: bool, run: seq<Application>, a: Application)
    requires LevelsInStep(p, k, levels, final, -1) && ImprovingRun(p, run) && Replay(p, run) == k && Improves(p, k, a)
    ensures LevelsInStep(p, k.Put(a.signers, a.level), levels, final, a.level)
    ensures ImprovingRun(p, run + [a]) && Replay(p, run + [a]) == k.Put(a.signers, a.level)
    ensures k.Put(a.signers, a.level).InsideLevels(p) && a.level in k.Put(a.signers, a.level).best
    ensures |k.Put(a.signers, a.level).Below(p.numLevels)| > |k.Below(p.numLevels)|
  {
    RunExtends(p, run, a);
    ImprovingStep(p, k, a);
    PutOpensLevel(p, k, levels, final, a);
  }

  ghost predicate Ready(p: Partitioner, k: Knowledge, item: PendingContribution) {
    forall i | i in {item} :: Fits(p, i) && (i.level < p.numLevels ==> Improves(p, k, Application(i.signers, i.level)))
  }

  /** The level whose best an item changes; full aggregates bypass the store. */
  function Target(p: Partitioner, taken: Option<PendingContribution>): Option<nat> {
    if taken.Some? && taken.value.level < p.numLevels then Some(taken.value.level) else None
  }

  /** What applying `taken` did to the store and the run. */
  ghost predicate Advanced(
    p: Partitioner, k: Knowledge, run: seq<Application>, k': Knowledge, run': seq<Application>,
    taken: Option<PendingContribution>)
  {
    if Target(p, taken).Some? then
      && run' == run + [Application(taken.value.signers, taken.value.level)]
      && |k'.Below(p.numLevels)| > |k.Below(p.numLevels)|
    else
      k' == k && run' == run
  }

  /** The aggregate that applying `taken` gave. */
  ghost function Result(p: Partitioner, k: Knowledge, taken: Option<PendingContribution>): Option<set<nat>> {
    if taken.None? then None
    else if Target(p, taken).Some? then Some(k.Below(p.numLevels))
    else Some(taken.value.signers)
  }

  /** The first level that has not been started, or the number of levels if there is none. */
  method FirstNotStarted(levels: seq<Level>) returns (first: nat)
    ensures first == FirstIdle(levels, 0)
  {
    first := 0;
    while first < |levels| && levels[first].started
      invariant first <= |levels| && FirstIdle(levels, 0) == FirstIdle(levels, first)
    {
      first := first + 1;
    }
  }

  // ---------- The node ----------

  method MakeUpdate(p: Partitioner, signers: set<nat>, levelId: nat) returns (update: LevelUpdate)
    requires p.Valid() && levelId > 0
    ensures update == UpdateFor(p, signers, levelId)
  {
    var expected := CumulativeLevelSize(p, levelId - 1);
    update := NewUpdate(signers, if |signers| < expected then Some({p.nodeId}) else None, levelId, p.nodeId);
  }

  lemma BroadcastStep(sent: seq<Message>, ids: seq<nat>, i: nat, update: LevelUpdate)
    requires i < |ids|
    ensures sent + Broadcast(ids[..i + 1], update) == sent + Broadcast(ids[..i], update) + [Message(ids[i], update)]
  {
    assert ids[..i + 1][..i] == ids[..i];
  }

  lemma BroadcastEnds(ids: seq<nat>, update: LevelUpdate)
    ensures Broadcast(ids[..0], update) == [] && Broadcast(ids[..|ids|], update) == Broadcast(ids, update)
  {
    assert ids[..|ids|] == ids;
  }

  lemma NoRecipients(p: Partitioner, k: Knowledge, final: Option<set<nat>>, levelId: nat)
    requires levelId > 0 && p.numLevels > 0
    ensures Updates(p, k, final, levelId, {}) == []
  {}

  lemma Associate(a: seq<Message>, b: seq<Message>, c: seq<Message>)
    ensures (a + b) + c == a + (b + c)
  {}

  lemma WelcomeGrows(numIds: nat, sent: seq<Message>, more: seq<Message>, isComplete: set<nat> -> bool)
    requires AllWelcome(numIds, sent, isComplete) && AllWelcome(numIds, more, isComplete)
    ensures AllWelcome(numIds, sent + more, isComplete)
  {}

  /** What a verification has produced so far. */
  datatype Outcome = InFlight | Done(ok: bool)

  /** What the environment presents to one poll. Verifications that are started take their outcomes in turn. */
  datatype PollInput = PollInput(
    updates: seq<LevelUpdate>, verification: Outcome, ticks: nat, timeouts: nat, outcomes: seq<Outcome>)

  /** The outcome of the verification that is started after `n` others; the unknown ones are in flight. */
  function OutcomeAt(outcomes: seq<Outcome>, n: nat): Outcome {
    if n < |outcomes| then outcomes[n] else InFlight
  }

  /** What was selected for verification, after others that were rejected. */
  datatype Pick = Pick(rejected: set<PendingKey>, next: Option<PendingContribution>, key: PendingKey)

  /** The verification of these items was started and failed. */
  ghost predicate Rejections(list: PendingList, rejected: set<PendingKey>, outcomes: seq<Outcome>) {
    && (forall key | key in rejected :: key in list && !list[key].trusted)
    && (forall n: nat | n < |rejected| :: OutcomeAt(outcomes, n) == Done(false))
  }

  /** The best item that is not rejected is applied if it is trusted or verified, and awaited if its
      verification is in flight. */
  ghost predicate DecidedBy(
    evaluate: PendingContribution -> int, list: PendingList, outcomes: seq<Outcome>, pick: Pick,
    list': PendingList, current': Option<PendingContribution>, taken: Option<PendingContribution>)
  {
    && Picks(evaluate, list, pick.rejected, pick.next, pick.key, list')
    && Rejections(list, pick.rejected, outcomes)
    && var outcome := OutcomeAt(outcomes, |pick.rejected|);
       if pick.next.None? then taken.None? && current'.None?
       else if pick.next.value.trusted || outcome == Done(true) then taken == pick.next && current'.None?
       else outcome.InFlight? && taken.None? && current' == pick.next
  }

  // Quantified, so that the evaluator is unfolded only where it is needed.
  ghost predicate Decided(
    setup: Setup, k: Knowledge, list: PendingList, outcomes: seq<Outcome>, pick: Pick,
    list': PendingList, current': Option<PendingContribution>, taken: Option<PendingContribution>)
  {
    forall evaluate {:trigger DecidedBy(evaluate, list, outcomes, pick, list', current', taken)} |
      evaluate in {Evaluator(setup.partitioner, k, setup.weight)} ::
      DecidedBy(evaluate, list, outcomes, pick, list', current', taken)
  }

  ghost predicate PicksBest(setup: Setup, k: Knowledge, list: PendingList, pick: Pick, rest: PendingList) {
    forall evaluate {:trigger Picks(evaluate, list, pick.rejected, pick.next, pick.key, rest)} |
      evaluate in {Evaluator(setup.partitioner, k, setup.weight)} ::
      Picks(evaluate, list, pick.rejected, pick.next, pick.key, rest)
  }

  lemma PicksBestAfter(setup: Setup, k: Knowledge, list: PendingList, pick: Pick, rest: PendingList,
                       next: Option<PendingContribution>, key: PendingKey, rest': PendingList)
    requires PicksBest(setup, k, list, pick, rest) && pick.next.Some?
    requires PicksBest(setup, k, rest, Pick({}, next, key), rest')
    ensures PicksBest(setup, k, list, Pick(pick.rejected + {pick.key}, next, key), rest')
  {
    var evaluate := Evaluator(setup.partitioner, k, setup.weight);
    assert Picks(evaluate, list, pick.rejected, pick.next, pick.key, rest);
    assert Picks(evaluate, rest, {}, next, key, rest');
    PicksNext(evaluate, list, pick.rejected, pick.next.value, pick.key, rest, next, key, rest');
  }

  lemma OneMoreRejected(
    setup: Setup, k: Knowledge, list: PendingList, pick: Pick, rest: PendingList, outcomes: seq<Outcome>)
    requires PicksBest(setup, k, list, pick, rest) && Rejections(list, pick.rejected, outcomes)
    requires pick.next.Some? && !pick.next.value.trusted && OutcomeAt(outcomes, |pick.rejected|) == Done(false)
    ensures Rejections(list, pick.rejected + {pick.key}, outcomes)
    ensures |pick.rejected + {pick.key}| == |pick.rejected| + 1
  {
    assert Picks(Evaluator(setup.partitioner, k, setup.weight), list, pick.rejected, pick.next, pick.key, rest);
  }

  lemma Decides(setup: Setup, k: Knowledge, list: PendingList, pick: Pick, rest: PendingList, outcomes: seq<Outcome>)
    requires PicksBest(setup, k, list, pick, rest) && Rejections(list, pick.rejected, outcomes)
    requires pick.next.Some? ==> pick.next.value.trusted || OutcomeAt(outcomes, |pick.rejected|) != Done(false)
    ensures var verified := IsVerified(pick, outcomes);
            Decided(setup, k, list, outcomes, pick, rest,
                    if verified then None else pick.next, if verified then pick.next else None)
  {
    assert Picks(Evaluator(setup.partitioner, k, setup.weight), list, pick.rejected, pick.next, pick.key, rest);
  }

  ghost predicate IsVerified(pick: Pick, outcomes: seq<Outcome>) {
    pick.next.Some? && (pick.next.value.trusted || OutcomeAt(outcomes, |pick.rejected|) == Done(true))
  }

  /** A verification in flight goes on or is applied; if there is none or it failed, a new one is started. */
  ghost predicate Proceeds(
    setup: Setup, k: Knowledge, list: PendingList, current: Option<PendingContribution>, input: PollInput,
    pick: Pick, list': PendingList, current': Option<PendingContribution>, taken: Option<PendingContribution>)
  {
    if current.None? || input.verification == Done(false) then
      Decided(setup, k, list, input.outcomes, pick, list', current', taken)
    else
      && list' == list && taken == (if input.verification == Done(true) then current else None)
      && current' == (if input.verification.InFlight? then current else None)
  }

  datatype Setup = Setup(
    partitioner: Partitioner, peerCount: nat, isComplete: set<nat> -> bool, weight: set<nat> -> nat)

  /** The state of a node between two polls. */
  datatype Snapshot = Snapshot(
    known: Knowledge, applied: seq<Application>, levels: seq<Level>, log: seq<Event>, pending: PendingList,
    current: Option<PendingContribution>, final: Option<set<nat>>)

  /** Only the own contribution is known, and it is trusted. */
  ghost predicate Initial(p: Partitioner, s: Snapshot) {
    && s.known == Empty(p) && s.applied == [] && s.log == [] && s.current.None? && s.final.None?
    && |s.levels| == p.numLevels && (forall i: nat | i < p.numLevels :: Created(p, i, s.levels[i]))
    && s.pending == AddContribution(map[], {p.nodeId}, 0, p.nodeId, Aggregate, true)
  }

  ghost function ContextAt(setup: Setup, k: Knowledge, final: Option<set<nat>>): Context {
    Context(setup.partitioner, k, final, setup.peerCount)
  }

  /** One poll: all updates are answered and listed, at most one contribution `taken` is applied, and the
      timers run; `r` is its result unless there is a final one, and the first complete one is final. */
  ghost predicate PollStep(setup: Setup, s: Snapshot, input: PollInput, s': Snapshot, r: Option<set<nat>>,
                           taken: Option<PendingContribution>, pick: Pick)
  {
    var p := setup.partitioner;
    && p.Valid() && |s.levels| == p.numLevels
    && Advanced(p, s.known, s.applied, s'.known, s'.applied, taken)
    && r == (if s.final.Some? then None else Result(p, s'.known, taken))
    && s'.final == (if r.Some? && setup.isComplete(r.value) then r else s.final)
    && var context := ContextAt(setup, s.known, s.final);
       var inbox := ReceivedAll(context, setup.isComplete, Inbox(s.pending, s.log), input.updates);
    && Proceeds(setup, s.known, inbox.list, s.current, input, pick, s'.pending, s'.current, taken)
    && var talk := Polled(context, ContextAt(setup, s'.known, s.final), Talk(s.levels, inbox.log), input,
                          s.current.Some? && input.verification == Done(true), Target(p, taken));
       Concluded(talk, r.Some? && setup.isComplete(r.value), Talk(s'.levels, s'.log))
  }

  lemma StepAssembled(
    setup: Setup, s: Snapshot, input: PollInput, inbox: Inbox, talk: Talk, best: Option<set<nat>>, s': Snapshot,
    r: Option<set<nat>>, taken: Option<PendingContribution>, pick: Pick)
    requires setup.partitioner.Valid() && |s.levels| == setup.partitioner.numLevels
    requires var c := ContextAt(setup, s.known, s.final);
             && inbox == ReceivedAll(c, setup.isComplete, Inbox(s.pending, s.log), input.updates)
             && talk == Polled(c, ContextAt(setup, s'.known, s.final), Talk(s.levels, inbox.log), input,
                               s.current.Some? && input.verification == Done(true), Target(setup.partitioner, taken))
    requires Advanced(setup.partitioner, s.known, s.applied, s'.known, s'.applied, taken)
    requires Proceeds(setup, s.known, inbox.list, s.current, input, pick,
                      s'.pending, s'.current, taken)
    requires best == Result(setup.partitioner, s'.known, taken) && r == if s.final.Some? then None else best
    requires s'.final == if r.Some? && setup.isComplete(r.value) then r else s.final
    requires Concluded(talk, r.Some? && setup.isComplete(r.value), Talk(s'.levels, s'.log))
    ensures PollStep(setup, s, input, s', r, taken, pick)
  {}

  class Node {
    const partitioner: Partitioner
    const peerCount: nat
    const isComplete: set<nat> -> bool
    const weight: set<nat> -> nat
    const store: Store
    var levels: seq<Level>
    var pending: PendingList
    var current: Option<PendingContribution>
    var finalResult: Option<set<nat>>
    var sent: seq<Message>
    /** The applications since the start, in order. */
    ghost var applied: seq<Application>
    /** What was sent since the start, in order. */
    ghost var log: seq<Event>

    function SetupOf(): Setup {
      Setup(partitioner, peerCount, isComplete, weight)
    }

    ghost function State(): Snapshot
      reads this, store
    {
      Snapshot(store.Abs(), applied, levels, log, pending, current, finalResult)
    }

    ghost function Sends(): Context
      reads `finalResult, store
    {
      Context(partitioner, store.Abs(), finalResult, peerCount)
    }

    ghost function Now(): Talk
      reads `levels, `log
    {
      Talk(levels, log)
    }

    // The store's own invariant is quantified over, so that it is unfolded only where the store is used.
    ghost predicate StoreOk()
      reads store
    {
      && partitioner.Valid() && partitioner.numIds <= MAX_IDS && store.partitioner == partitioner
      && (forall s | s in {store} :: s.Valid() && s.Abs().InsideLevels(partitioner))
    }

    ghost predicate Welcomed()
      reads `sent
    {
      AllWelcome(partitioner.numIds, sent, isComplete)
    }

    /** The messages sent are those of the log. */
    ghost predicate Logged()
      reads `sent, `log
    {
      forall l | l in {log} :: sent == Delivered(l)
    }

    ghost predicate FinalOk()
      reads `finalResult
    {
      finalResult.Some? ==> isComplete(finalResult.value)
    }

    /** What sending relies on and keeps. */
    ghost predicate Core()
      reads `sent, `log, `finalResult, store
    {
      StoreOk() && Welcomed() && Logged() && FinalOk()
    }

    /** The store is what the applications made of it, and each of them improved it. */
    ghost predicate HistoryOk()
      reads `applied, store
    {
      forall run | run in {applied} :: ImprovingRun(partitioner, run) && Replay(partitioner, run) == store.Abs()
    }

    ghost predicate PendingOk()
      reads `pending
    {
      AllFit(partitioner, pending)
    }

    /** What is being verified still improves the store, as nothing is applied meanwhile. */
    ghost predicate CurrentOk()
      reads `current, store
    {
      current.Some? ==> Ready(partitioner, store.Abs(), current.value)
    }

    ghost predicate InStep()
      reads `levels, `finalResult, store
    {
      LevelsInStep(partitioner, store.Abs(), levels, finalResult.Some?, -1)
    }

    ghost predicate Valid()
      reads this, store
    {
      Core() && HistoryOk() && PendingOk() && CurrentOk() && InStep()
    }

    constructor (p: Partitioner, peers: nat, complete: set<nat> -> bool, w: set<nat> -> nat)
      requires p.Valid() && p.numIds <= MAX_IDS
      ensures Valid() && fresh(store) && SetupOf() == Setup(p, peers, complete, w)
      ensures Initial(p, State())
    {
      partitioner, peerCount, isComplete, weight := p, peers, complete, w;
      var s := new Store(p);
      store := s;
      var ls := CreateLevels(p);
      levels := ls;
      // The own contribution is trusted.
      pending := AddContribution(map[], {p.nodeId}, 0, p.nodeId, Aggregate, true);
      current, finalResult, sent, applied, log := None, None, [], [], [];
      new;
      assert store.Abs() == Empty(p);
      InitialLevelsInStep(p, store.Abs(), levels);
    }

    /** Sends `signers` as update of `levelId` to every node in `nodeIds`. */
    method SendContribution(signers: set<nat>, levelId: nat, nodeIds: set<nat>)
      requires partitioner.Valid() && levelId > 0
      // The source panics on recipients that do not exist.
      requires forall id | id in nodeIds :: id < partitioner.numIds
      modifies this`sent
      ensures sent == old(sent) + Broadcast(Ascending(nodeIds), UpdateFor(partitioner, signers, levelId))
    {
      var update := MakeUpdate(partitioner, signers, levelId);
      var ids := Ascending(nodeIds);
      ghost var before := sent;
      BroadcastEnds(ids, update);
      for i := 0 to |ids|
        invariant sent == before + Broadcast(ids[..i], update)
      {
        BroadcastStep(before, ids, i, update);
        sent := sent + [Message(ids[i], update)];
      }
    }

    /** Sends the final result, if any, and the best aggregate below `levelId` to some of its peers. */
    method SendUpdate(levelId: nat, nodeIds: set<nat>)
      requires StoreOk() && Welcomed() && FinalOk()
      requires 1 <= levelId < partitioner.numLevels && nodeIds <= partitioner.Level(levelId)
      modifies this`sent
      ensures Welcomed()
      ensures sent == old(sent) + Updates(partitioner, store.Abs(), finalResult, levelId, nodeIds)
      ensures forall id | id in nodeIds ::
                Served(partitioner, store.Abs(), finalResult, levelId, id, sent[|old(sent)|..])
    {
      UpdatesServe(partitioner, store.Abs(), finalResult, levelId, nodeIds);
      ghost var updates := Updates(partitioner, store.Abs(), finalResult, levelId, nodeIds);
      UpdatesAreWelcome(partitioner, store.Abs(), finalResult, levelId, nodeIds, isComplete);
      WelcomeGrows(partitioner.numIds, sent, updates, isComplete);
      if nodeIds == {} {
        NoRecipients(partitioner, store.Abs(), finalResult, levelId);
        return;
      }
      assert forall id | id in nodeIds :: id in partitioner.Level(levelId);
      SendFinalResult(nodeIds);
      SendBest(levelId, nodeIds);
      Associate(old(sent), FinalUpdates(partitioner, finalResult, nodeIds),
                BestUpdates(partitioner, store.Abs(), levelId, nodeIds));
    }

    method SendFinalResult(nodeIds: set<nat>)
      requires partitioner.Valid() && forall id | id in nodeIds :: id < partitioner.numIds
      modifies this`sent
      ensures sent == old(sent) + FinalUpdates(partitioner, finalResult, nodeIds)
    {
      if finalResult.Some? {
        SendContribution(finalResult.value, partitioner.numLevels, nodeIds);
      }
    }

    method SendBest(levelId: nat, nodeIds: set<nat>)
      requires store.Valid() && store.partitioner == partitioner && store.Abs().InsideLevels(partitioner)
      requires levelId > 0 && forall id | id in nodeIds :: id < partitioner.numIds
      modifies this`sent
      ensures sent == old(sent) + BestUpdates(partitioner, store.Abs(), levelId, nodeIds)
    {
      var best := store.Combined(levelId - 1);
      if best.Some? {
        SendContribution(best.value.signers, levelId, nodeIds);
      }
    }

    /** Sends an update to the next peers of a level. */
    method UpdateLevel(levelId: nat)
      requires Core() && LevelsMatch(partitioner, levels) && 1 <= levelId < partitioner.numLevels
      modifies this`sent, this`log, this`levels
      ensures Core()
      ensures levels == old(levels)[levelId := Advance(old(levels)[levelId], peerCount)]
      ensures Now() == Sending(Sends(), old(Now()), levelId)
    {
      ghost var e := Update(Sends(), levelId, levels[levelId]);
      DeliveredStep(log, e);
      var nextPeers, next := SelectNextPeers(levels[levelId], peerCount);
      levels := levels[levelId := next];
      SendUpdate(levelId, nextPeers);
      log := log + [e];
    }

    /** Starts all levels up to `level`. */
    method StartLevel(level: nat)
      requires Core() && LevelsMatch(partitioner, levels) && level < partitioner.numLevels
      modifies this`sent, this`log, this`levels
      ensures Core() && StartedUpTo(old(levels), levels, level) && Now() == StartingUpTo(Sends(), old(Now()), level)
    {
      StartingAllStarts(Sends(), Now(), level + 1);
      var toStart := FirstNotStarted(levels);
      if toStart == |levels| || toStart > level {
        return;
      }
      StartRange(toStart, level);
    }

    method StartRange(toStart: nat, level: nat)
      requires Core() && LevelsMatch(partitioner, levels) && toStart <= level < partitioner.numLevels
      modifies this`sent, this`log, this`levels
      ensures Core() && Now() == StartingAll(Sends(), old(Now()), toStart, level + 1)
    {
      ghost var c, t := Sends(), Now();
      for lvl := toStart to level + 1
        invariant Core() && Sends() == c && LevelsMatch(partitioner, levels) && Now() == StartingAll(c, t, toStart, lvl)
      {
        StartOne(lvl);
      }
    }

    /** Starts a level and sends its first update; level 0 has nobody to send to. */
    method StartOne(lvl: nat)
      requires Core() && LevelsMatch(partitioner, levels) && lvl < partitioner.numLevels
      modifies this`sent, this`log, this`levels
      ensures Core() && LevelsMatch(partitioner, levels) && Now() == Starting(Sends(), old(Now()), lvl)
    {
      levels := levels[lvl := levels[lvl].(started := true)];
      if levels[lvl].id != 0 {
        UpdateLevel(lvl);
      }
    }

    /** Whether the level has no peers or its best holds all of them. */
    method IsCovered(levelId: nat) returns (covered: bool)
      requires Core() && LevelsMatch(partitioner, levels) && levelId < partitioner.numLevels
      ensures covered <==> levels[levelId].peerIds == {} || Covered(partitioner, store.Abs(), levelId)
    {
      CompleteLevelIsCovered(partitioner, store.Abs(), levelId);
      LevelSizeIsCardinality(partitioner, levelId);
      var numPeers := |levels[levelId].peerIds|;
      if numPeers == 0 {
        return true;
      }
      var best := store.Best(levelId);
      return best.Some? && |best.value.signers| >= numPeers;
    }

    /** Starts the level if it was not started, and sends it the improved aggregate otherwise. */
    method Activate(levelId: nat) returns (ghost upTo: int)
      requires Core() && LevelsMatch(partitioner, levels) && 1 <= levelId < partitioner.numLevels
      modifies this`sent, this`log, this`levels
      ensures Core() && StartedUpTo(old(levels), levels, upTo) && levels[levelId].started
      ensures Now() == Activating(Sends(), old(Now()), levelId)
    {
      if !levels[levelId].started {
        StartLevel(levelId);
        upTo := levelId;
      } else {
        AdvancingIsStarting(levels, levelId, peerCount);
        UpdateLevel(levelId);
        upTo := -1;
      }
    }

    /** Marks the level complete if its best covers it, and then goes on with the next level. */
    method CheckCompletedLevel(levelId: nat)
      requires Core() && levelId < partitioner.numLevels
      requires LevelsInStep(partitioner, store.Abs(), levels, finalResult.Some?, levelId)
      modifies this`sent, this`log, this`levels
      ensures Core() && InStep() && Now() == Completing(Sends(), old(Now()), levelId)
      decreases partitioner.numLevels - levelId
    {
      ghost var before, k := levels, store.Abs();
      if levels[levelId].complete {
        NothingToMark(partitioner, k, levels, finalResult.Some?, levelId);
        return;
      }
      var covered := IsCovered(levelId);
      if !covered {
        NothingToMark(partitioner, k, levels, finalResult.Some?, levelId);
        return;
      }
      levels := Mark(levels, levelId);
      if levelId == |levels| - 1 {
        MarkingKeepsStep(partitioner, k, before, levels, levelId, -1);
        return;
      }
      ghost var upTo := Activate(levelId + 1);
      MarkingKeepsStep(partitioner, k, before, levels, levelId, upTo);
      CheckCompletedLevel(levelId + 1);
    }

    /** Updates the levels from level 1 on, up to the first that is not started. */
    method UpdateStarted()
      requires Core() && LevelsMatch(partitioner, levels) && levels[0].started
      modifies this`sent, this`log, this`levels
      ensures Core() && Now() == Updating(Sends(), old(Now()), FirstIdle(old(levels), 0))
    {
      ghost var c, t := Sends(), Now();
      var levelId := 1;
      var more := IsNext(levelId, c, t);
      while more
        invariant Core() && Sends() == c && 1 <= levelId <= FirstIdle(t.levels, 0) && Now() == Updating(c, t, levelId)
        invariant more <==> levelId < FirstIdle(t.levels, 0)
        decreases FirstIdle(t.levels, 0) - levelId
      {
        UpdateNext(levelId, c, t);
        levelId := levelId + 1;
        more := IsNext(levelId, c, t);
      }
    }

    /** Whether there is another level, and it is started. */
    method IsNext(levelId: nat, ghost c: Context, ghost t: Talk) returns (more: bool)
      requires Core() && Sends() == c && LevelsMatch(partitioner, t.levels)
      requires 1 <= levelId <= FirstIdle(t.levels, 0) && Now() == Updating(c, t, levelId)
      ensures more <==> levelId < FirstIdle(t.levels, 0)
    {
      UpdatingKeeps(c, t, levelId);
      more := levelId < |levels| && levels[levelId].started;
    }

    method UpdateNext(levelId: nat, ghost c: Context, ghost t: Talk)
      requires Core() && LevelsMatch(partitioner, t.levels) && 1 <= levelId < partitioner.numLevels
      requires Sends() == c && Now() == Updating(c, t, levelId)
      modifies this`sent, this`log, this`levels
      ensures Core() && Sends() == c && Now() == Updating(c, t, levelId + 1)
    {
      UpdatingKeeps(c, t, levelId);
      StartingKeepsMatch(partitioner, t.levels, levels, -1);
      UpdateLevel(levelId);
    }

    /** Updates every started level. As these form a prefix, stopping at the first other one skips nothing. */
    method AutomaticUpdate()
      requires Core() && InStep()
      modifies this`sent, this`log, this`levels
      ensures Core() && InStep() && Now() == Updating(Sends(), old(Now()), FirstIdle(old(levels), 0))
    {
      ghost var before := levels;
      UpdatingKeeps(Sends(), Now(), FirstIdle(levels, 0));
      UpdateStarted();
      StartingKeepsStep(partitioner, store.Abs(), before, levels, -1, finalResult.Some?, -1);
    }

    /** Starts the first level that has not been started. */
    method ActivateNextLevel()
      requires Core() && InStep()
      modifies this`sent, this`log, this`levels
      ensures Core() && InStep()
      ensures forall i: nat | i < |levels| && (i == 0 || old(levels)[i - 1].started) :: levels[i].started
      ensures Now() == StartingIdle(Sends(), old(Now()))
    {
      var toStart := FirstNotStarted(levels);
      if toStart == |levels| {
        return;
      }
      ghost var before := levels;
      StartLevel(toStart);
      StartingKeepsStep(partitioner, store.Abs(), before, levels, toStart, finalResult.Some?, -1);
    }

    /** Checks an update, responds to its sender and lists its contributions. */
    method Receive(update: LevelUpdate)
      requires Core() && PendingOk()
      modifies this`sent, this`log, this`pending
      ensures Core() && PendingOk()
      ensures Inbox(pending, log)
           == Received(Sends(), isComplete, old(Inbox(pending, log)), update)
    {
      if Verify(partitioner, update, isComplete).Rejected? {
        return;
      }
      if update.level != partitioner.numLevels {
        VerifyIsExact(partitioner, update, isComplete);
      }
      RespondToUpdate(update.level, update.origin);
      List(update.aggregate, update.level, update.origin, Aggregate);
      if update.individual.Some? {
        List(update.individual.value, update.level, update.origin, Individual);
      }
    }

    method List(signers: set<nat>, level: nat, origin: nat, kind: Kind)
      requires PendingOk() && Fits(partitioner, PendingContribution(signers, level, origin, false))
      modifies this`pending
      ensures PendingOk() && pending == AddContribution(old(pending), signers, level, origin, kind, false)
    {
      pending := AddContribution(pending, signers, level, origin, kind, false);
    }

    method ReceiveAll(updates: seq<LevelUpdate>)
      requires Core() && PendingOk()
      modifies this`sent, this`log, this`pending
      ensures Core() && PendingOk()
      ensures Inbox(pending, log)
           == ReceivedAll(Sends(), isComplete, old(Inbox(pending, log)), updates)
    {
      ghost var c, inbox := Sends(), Inbox(pending, log);
      for i := 0 to |updates|
        invariant Core() && PendingOk() && Sends() == c
        invariant Inbox(pending, log) == ReceivedAll(c, isComplete, inbox, updates[..i])
      {
        ReceivedStep(c, isComplete, inbox, updates, i);
        Receive(updates[i]);
      }
      assert updates[..|updates|] == updates;
    }

    /** Sends the own best aggregate back, unless the peer has a full aggregate. */
    method RespondToUpdate(levelId: nat, nodeId: nat)
      requires Core()
      requires levelId == partitioner.numLevels ||
               (1 <= levelId < partitioner.numLevels && nodeId in partitioner.Level(levelId))
      modifies this`sent, this`log
      ensures Core() && log == old(log) + [Reply(Sends(), levelId, nodeId)]
    {
      ReplyDelivered(log, Sends(), levelId, nodeId);
      log := log + [Reply(Sends(), levelId, nodeId)];
      if levelId == partitioner.numLevels {
        return;
      }
      SendUpdate(levelId, {nodeId});
    }

    /** Applies a contribution that scored when it was selected, and returns the new aggregate. */
    method ApplyContribution(item: PendingContribution) returns (aggregate: set<nat>)
      requires Core() && HistoryOk() && InStep() && Ready(partitioner, store.Abs(), item)
      modifies this`applied, this`sent, this`log, this`levels, store
      ensures Core() && HistoryOk() && InStep()
      ensures Advanced(partitioner, old(store.Abs()), old(applied), store.Abs(), applied, Some(item))
      ensures Some(aggregate) == Result(partitioner, store.Abs(), Some(item))
      ensures Now() == Following(Sends(), old(Now()), Target(partitioner, Some(item)))
    {
      if item.level == partitioner.numLevels {
        return item.signers;
      }
      PutInStore(item);
      Follow(item.level);
      aggregate := BestAggregate(item.level);
    }

    /** The aggregate of all levels; the source expects it to exist, as some level has a best. */
    method BestAggregate(ghost level: nat) returns (aggregate: set<nat>)
      requires StoreOk() && level in store.Abs().best
      ensures aggregate == store.Abs().Below(partitioner.numLevels)
    {
      var combined := store.Combined(partitioner.numLevels - 1);
      aggregate := combined.value.signers;
    }

    method StorePut(item: PendingContribution)
      requires StoreOk() && item.level < partitioner.numLevels && !store.Abs().Stored(item.signers, item.level)
      requires store.Abs().Put(item.signers, item.level).InsideLevels(partitioner)
      modifies store
      ensures StoreOk() && store.Abs() == old(store.Abs()).Put(item.signers, item.level)
    {
      store.Put(Contribution(item.signers), item.level);
    }

    method PutInStore(item: PendingContribution)
      requires StoreOk() && HistoryOk() && InStep()
      requires Ready(partitioner, store.Abs(), item) && item.level < partitioner.numLevels
      modifies this`applied, store
      ensures StoreOk() && HistoryOk()
      ensures LevelsInStep(partitioner, store.Abs(), levels, finalResult.Some?, item.level)
      ensures item.level in store.Abs().best
      ensures applied == old(applied) + [Application(item.signers, item.level)]
      ensures store.Abs() == old(store.Abs()).Put(item.signers, item.level)
      ensures |store.Abs().Below(partitioner.numLevels)| > |old(store.Abs()).Below(partitioner.numLevels)|
    {
      ghost var a := Application(item.signers, item.level);
      ApplyingKeeps(partitioner, store.Abs(), levels, finalResult.Some?, applied, a);
      StorePut(item);
      applied := applied + [a];
    }

    /** Starts the level of a new best and checks what it completes. */
    method Follow(level: nat)
      requires Core() && level < partitioner.numLevels
      requires LevelsInStep(partitioner, store.Abs(), levels, finalResult.Some?, level)
      modifies this`sent, this`log, this`levels
      ensures Core() && InStep()
      ensures Now() == Completing(Sends(), StartingUpTo(Sends(), old(Now()), level), level)
    {
      ghost var before := levels;
      StartLevel(level);
      StartingKeepsStep(partitioner, store.Abs(), before, levels, level, finalResult.Some?, level);
      CheckCompletedLevel(level);
    }

    /** Applies the contribution under verification if its verification has succeeded. */
    method FinishVerification(outcome: Outcome) returns (r: Option<set<nat>>, ghost taken: Option<PendingContribution>)
      requires Core() && HistoryOk() && CurrentOk() && InStep()
      modifies this`current, this`applied, this`sent, this`log, this`levels, store
      ensures Core() && HistoryOk() && CurrentOk() && InStep()
      ensures taken == if outcome == Done(true) then old(current) else None
      ensures current == if outcome.InFlight? then old(current) else None
      ensures Advanced(partitioner, old(store.Abs()), old(applied), store.Abs(), applied, taken)
      ensures r == Result(partitioner, store.Abs(), taken)
      ensures Now() == Following(Sends(), old(Now()), Target(partitioner, taken))
    {
      r, taken := None, None;
      if current.None? || outcome.InFlight? {
        return;
      }
      var item := current.value;
      current := None;
      if !outcome.ok {
        return;
      }
      taken := Some(item);
      var aggregate := ApplyContribution(item);
      r := Some(aggregate);
    }

    /** Takes the best pending contribution off the list; it can be applied as long as the store stays as it is. */
    method SelectNext() returns (next: Option<PendingContribution>, ghost key: PendingKey)
      requires StoreOk() && PendingOk()
      modifies this`pending
      ensures PendingOk()
      ensures next.Some? ==> Ready(partitioner, store.Abs(), next.value) && |pending| < |old(pending)|
      ensures PicksBest(SetupOf(), store.Abs(), old(pending), Pick({}, next, key), pending)
    {
      var evaluate := Evaluator(partitioner, store.Abs(), weight);
      forall key | key in pending ensures evaluate(pending[key]) >= 0 {
        ScoreIsNatural(partitioner, store.Abs(), pending[key], weight);
      }
      next, pending, key := PollNext(pending, evaluate);
      if next.Some? && next.value.level < partitioner.numLevels {
        ScoreMeansImproves(partitioner, store.Abs(), next.value, weight);
      }
    }

    /** Starts verifying pending contributions until one is in flight or can be applied. */
    method Choose(outcomes: seq<Outcome>) returns (next: Option<PendingContribution>, verified: bool, ghost pick: Pick)
      requires StoreOk() && PendingOk()
      modifies this`pending
      ensures PendingOk() && next == pick.next
      ensures if next.Some? then Ready(partitioner, store.Abs(), next.value) else !verified
      ensures Decided(SetupOf(), store.Abs(), old(pending), outcomes, pick, pending,
                      if verified then None else next, if verified then next else None)
    {
      ghost var k, key, rest := store.Abs(), PendingKey(0, 0, Aggregate), pending;
      var started := 0;
      next, key := SelectNext();
      pick := Pick({}, next, key);
      while next.Some? && !next.value.trusted && OutcomeAt(outcomes, started) == Done(false)
        invariant PendingOk() && (next.Some? ==> Ready(partitioner, k, next.value)) && next == pick.next
        invariant PicksBest(SetupOf(), k, old(pending), pick, pending)
        invariant Rejections(old(pending), pick.rejected, outcomes) && started == |pick.rejected|
        decreases |outcomes| - started
      {
        OneMoreRejected(SetupOf(), k, old(pending), pick, pending, outcomes);
        rest := pending;
        next, key := SelectNext();
        PicksBestAfter(SetupOf(), k, old(pending), pick, rest, next, key, pending);
        pick := Pick(pick.rejected + {pick.key}, next, key);
        started := started + 1;
      }
      verified := next.Some? && (next.value.trusted || OutcomeAt(outcomes, started) == Done(true));
      Decides(SetupOf(), k, old(pending), pick, pending, outcomes);
    }

    method StartVerification(outcomes: seq<Outcome>)
      returns (r: Option<set<nat>>, ghost taken: Option<PendingContribution>, ghost pick: Pick)
      requires Core() && HistoryOk() && PendingOk() && InStep() && current.None?
      modifies this`current, this`pending, this`applied, this`sent, this`log, this`levels, store
      ensures Core() && HistoryOk() && PendingOk() && CurrentOk() && InStep()
      ensures Decided(SetupOf(), old(store.Abs()), old(pending), outcomes, pick, pending, current, taken)
      ensures Advanced(partitioner, old(store.Abs()), old(applied), store.Abs(), applied, taken)
      ensures r == Result(partitioner, store.Abs(), taken)
      ensures Now() == Following(Sends(), old(Now()), Target(partitioner, taken))
    {
      r, taken := None, None;
      var next, verified;
      next, verified, pick := Choose(outcomes);
      if verified {
        taken := next;
        var aggregate := ApplyContribution(next.value);
        r := Some(aggregate);
      } else {
        current := next;
      }
    }

    /** Keeps the first complete aggregate as the final result and marks all levels complete. */
    method Conclude(aggregate: set<nat>)
      requires FinalOk() && InStep() && finalResult.None?
      modifies this`finalResult, this`levels
      ensures FinalOk() && InStep()
      ensures finalResult == if isComplete(aggregate) then Some(aggregate) else None
      ensures levels == if isComplete(aggregate) then MarkBelow(old(levels), |old(levels)|) else old(levels)
    {
      if isComplete(aggregate) {
        ghost var before := levels;
        for i := 0 to |levels|
          invariant levels == MarkBelow(before, i)
        {
          levels := Mark(levels, i);
        }
        finalResult := Some(aggregate);
      }
    }

    /** Returns the new best aggregate unless there is a final result, and concludes if it is complete. */
    method Report(best: Option<set<nat>>) returns (r: Option<set<nat>>)
      requires FinalOk() && InStep()
      modifies this`finalResult, this`levels
      ensures FinalOk() && InStep()
      ensures r == if old(finalResult).Some? then None else best
      ensures finalResult == if r.Some? && isComplete(r.value) then r else old(finalResult)
      ensures levels == if r.Some? && isComplete(r.value) then MarkBelow(old(levels), |old(levels)|) else old(levels)
    {
      if finalResult.Some? {
        return None;
      }
      r := best;
      if r.Some? {
        Conclude(r.value);
      }
    }

    /** The periodic update and the level timeout may each have fired several times. */
    method RunTimers(ticks: nat, timeouts: nat)
      requires Core() && InStep()
      modifies this`sent, this`log, this`levels
      ensures Core() && InStep()
      ensures Now() == TimingOut(Sends(), Ticking(Sends(), old(Now()), ticks), timeouts)
    {
      ghost var c, t := Sends(), Now();
      for i := 0 to ticks
        invariant Core() && InStep() && Sends() == c && Now() == Ticking(c, t, i)
      {
        AutomaticUpdate();
      }
      ghost var t' := Now();
      for i := 0 to timeouts
        invariant Core() && InStep() && Sends() == c && Now() == TimingOut(c, t', i)
      {
        ActivateNextLevel();
      }
    }

    /** Handles the verification in flight and the timers, and then selects what to verify next. */
    method Work(input: PollInput)
      returns (best: Option<set<nat>>, ghost taken: Option<PendingContribution>, ghost pick: Pick)
      requires Core() && HistoryOk() && PendingOk() && CurrentOk() && InStep()
      modifies this`current, this`pending, this`applied, this`sent, this`log, this`levels, store
      ensures Core() && HistoryOk() && PendingOk() && CurrentOk() && InStep()
      ensures Advanced(partitioner, old(store.Abs()), old(applied), store.Abs(), applied, taken)
      ensures best == Result(partitioner, store.Abs(), taken)
      ensures Proceeds(SetupOf(), old(store.Abs()), old(pending), old(current), input, pick,
                       pending, current, taken)
      ensures Now() == Polled(old(Sends()), Sends(), old(Now()), input,
                              old(current).Some? && input.verification == Done(true), Target(partitioner, taken))
    {
      ghost var k, run := store.Abs(), applied;
      best, taken := FinishVerification(input.verification);
      pick := Pick({}, None, PendingKey(0, 0, Aggregate));
      RunTimers(input.ticks, input.timeouts);
      if current.None? && best.None? {
        assert taken.None? && store.Abs() == k && applied == run;
        best, taken, pick := StartVerification(input.outcomes);
      }
    }

    /** One poll of the aggregation: handles `updates`, the verification in flight and the timers, and
        then selects what to verify next. Returns the new best aggregate unless there is a final result. */
    method Poll(input: PollInput)
      returns (r: Option<set<nat>>, ghost taken: Option<PendingContribution>, ghost pick: Pick)
      requires Valid()
      modifies this, store
      ensures Valid()
      ensures PollStep(SetupOf(), old(State()), input, State(), r, taken, pick)
    {
      ghost var s := State();
      ReceiveAll(input.updates);
      ghost var inbox := Inbox(pending, log);
      r, taken, pick := Work(input);
      ghost var talk, best := Now(), r;
      r := Report(r);
      StepAssembled(SetupOf(), s, input, inbox, talk, best, State(), r, taken, pick);
    }
  }
}
