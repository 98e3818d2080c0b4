/** What a run of the aggregation sends: which peers are served, and when. */
module AggregationDelivery {
  import opened BinomialPartitioner
  import opened ReplaceStore
  import opened WeightedVote
  import opened Levels
  import opened PendingContributions
  import opened Aggregation
  import opened AggregationRuns
  import opened Wrappers

  // ---------- Messages of a log ----------

  lemma {:induction false} DeliveredGrows(log: seq<Event>, log': seq<Event>)
    requires log <= log'
    ensures Delivered(log) <= Delivered(log')
    decreases |log'|
  {
    if log != log' {
      DeliveredGrows(log, log'[..|log'| - 1]);
    }
  }

  /** The messages that were sent since `log`. */
  ghost function Since(log: seq<Event>, log': seq<Event>): seq<Message>
    requires log <= log'
  {
    DeliveredGrows(log, log');
    Delivered(log')[|Delivered(log)|..]
  }

  lemma {:induction false} EventIsDelivered(log: seq<Event>, log': seq<Event>, i: nat)
    requires log <= log' && |log| <= i < |log'|
    ensures forall m | m in Delivery(log'[i]) :: m in Since(log, log')
    decreases |log'|
  {
    var init, e := log'[..|log'| - 1], log'[|log'| - 1];
    assert log' == init + [e];
    SinceMore(log, init, e);
    if i < |init| {
      EventIsDelivered(log, init, i);
    }
  }

  lemma SinceMore(log: seq<Event>, log': seq<Event>, e: Event)
    requires log <= log'
    ensures log <= log' + [e] && Since(log, log' + [e]) == Since(log, log') + Delivery(e)
  {
    DeliveredGrows(log, log');
    DeliveredStep(log', e);
  }

  // ---------- Levels make progress ----------

  ghost predicate Later(a: Level, b: Level) {
    b.id == a.id && b.peerIds == a.peerIds && b.Valid() && (a.started ==> b.started) && (a.complete ==> b.complete)
  }

  /** The next peers of level `l` got its updates. */
  ghost predicate UpdateAt(cs: set<Context>, level: Level, l: nat, log: seq<Event>, i: nat)
    requires i < |log|
  {
    && log[i].Update? && log[i].context in cs && log[i].levelId == l
    && log[i].level.id == level.id && log[i].level.peerIds == level.peerIds && log[i].level.Valid()
  }

  ghost predicate Notified(cs: set<Context>, t: Talk, t': Talk, l: nat)
    requires l < |t.levels|
  {
    exists i: nat | |t.log| <= i < |t'.log| :: UpdateAt(cs, t.levels[l], l, t'.log, i)
  }

  ghost predicate StartAt(cs: set<Context>, t: Talk, t': Talk, l: nat)
    requires l < |t.levels| == |t'.levels|
  {
    l > 0 && t'.levels[l].started && !t.levels[l].started ==> Notified(cs, t, t', l)
  }

  ghost predicate CompleteAt(cs: set<Context>, t: Talk, t': Talk, l: nat)
    requires l + 1 < |t.levels| == |t'.levels|
  {
    t'.levels[l].complete && !t.levels[l].complete ==> Notified(cs, t, t', l + 1)
  }

  ghost predicate Kept(t: Talk, t': Talk) {
    && |t'.levels| == |t.levels| && t.log <= t'.log
    && forall l: nat | l < |t.levels| :: Later(t.levels[l], t'.levels[l])
  }

  /** Levels only move forward, a level that is started gets its updates, and so does one whose predecessor is
      completed. */
  ghost predicate Progress(cs: set<Context>, t: Talk, t': Talk) {
    && Kept(t, t')
    && (forall l: nat {:trigger StartAt(cs, t, t', l)} | l < |t.levels| :: StartAt(cs, t, t', l))
    && (forall l: nat {:trigger CompleteAt(cs, t, t', l)} | l + 1 < |t.levels| :: CompleteAt(cs, t, t', l))
  }

  lemma NotifiedEarly(cs: set<Context>, t: Talk, t': Talk, t'': Talk, l: nat)
    requires l < |t.levels| && Notified(cs, t, t', l) && t'.log <= t''.log
    ensures Notified(cs, t, t'', l)
  {
    var i: nat :| |t.log| <= i < |t'.log| && UpdateAt(cs, t.levels[l], l, t'.log, i);
    assert t'.log[i] == t''.log[i];
    assert UpdateAt(cs, t.levels[l], l, t''.log, i);
  }

  lemma NotifiedLate(cs: set<Context>, t: Talk, t': Talk, t'': Talk, l: nat)
    requires Kept(t, t') && l < |t.levels| && Notified(cs, t', t'', l)
    ensures Notified(cs, t, t'', l)
  {
    var i: nat :| |t'.log| <= i < |t''.log| && UpdateAt(cs, t'.levels[l], l, t''.log, i);
    assert Later(t.levels[l], t'.levels[l]);
    assert UpdateAt(cs, t.levels[l], l, t''.log, i);
  }

  lemma KeptTwice(t: Talk, t': Talk, t'': Talk)
    requires Kept(t, t') && Kept(t', t'')
    ensures Kept(t, t'')
  {
    forall l: nat | l < |t.levels| ensures Later(t.levels[l], t''.levels[l]) {
      assert Later(t.levels[l], t'.levels[l]) && Later(t'.levels[l], t''.levels[l]);
    }
  }

  lemma ProgressTwice(cs: set<Context>, t: Talk, t': Talk, t'': Talk)
    requires Progress(cs, t, t') && Progress(cs, t', t'')
    ensures Progress(cs, t, t'')
  {
    KeptTwice(t, t', t'');
    forall l: nat | l < |t.levels| ensures StartAt(cs, t, t'', l) {
      assert StartAt(cs, t, t', l) && StartAt(cs, t', t'', l);
      if l > 0 && t''.levels[l].started && !t.levels[l].started {
        if t'.levels[l].started { NotifiedEarly(cs, t, t', t'', l); } else { NotifiedLate(cs, t, t', t'', l); }
      }
    }
    forall l: nat | l + 1 < |t.levels| ensures CompleteAt(cs, t, t'', l) {
      assert CompleteAt(cs, t, t', l) && CompleteAt(cs, t', t'', l);
      if t''.levels[l].complete && !t.levels[l].complete {
        if t'.levels[l].complete { NotifiedEarly(cs, t, t', t'', l + 1); } else { NotifiedLate(cs, t, t', t'', l + 1); }
      }
    }
  }

  lemma ProgressNone(cs: set<Context>, t: Talk)
    requires AllValid(t.levels)
    ensures Progress(cs, t, t)
  {}

  lemma KeptIsValid(t: Talk, t': Talk)
    requires Kept(t, t')
    ensures AllValid(t'.levels)
  {
    forall l: nat | l < |t'.levels| ensures t'.levels[l].Valid() { assert Later(t.levels[l], t'.levels[l]); }
  }

  lemma SendingProgress(cs: set<Context>, c: Context, t: Talk, l: nat)
    requires c in cs && l < |t.levels| && AllValid(t.levels)
    ensures Progress(cs, t, Sending(c, t, l)) && Notified(cs, t, Sending(c, t, l), l)
  {
    var t' := Sending(c, t, l);
    assert UpdateAt(cs, t.levels[l], l, t'.log, |t.log|);
  }

  lemma StartingProgress(cs: set<Context>, c: Context, t: Talk, l: nat)
    requires c in cs && l < |t.levels| && AllValid(t.levels)
    ensures Progress(cs, t, Starting(c, t, l)) && Starting(c, t, l).levels[l].started
    ensures l > 0 ==> Notified(cs, t, Starting(c, t, l), l)
  {
    var t', t'' := Talk(t.levels[l := t.levels[l].(started := true)], t.log), Starting(c, t, l);
    assert AllValid(t'.levels);
    if l > 0 {
      SendingProgress(cs, c, t', l);
      NotifiedLate(cs, t, t', t'', l);
      forall i: nat | i < |t.levels| ensures Later(t.levels[i], t''.levels[i]) {
        assert Later(t'.levels[i], t''.levels[i]);
      }
    }
  }

  lemma {:induction false} StartingAllProgress(cs: set<Context>, c: Context, t: Talk, from: nat, to: nat)
    requires c in cs && to <= |t.levels| && AllValid(t.levels)
    ensures Progress(cs, t, StartingAll(c, t, from, to))
    ensures forall l | from <= l < to :: StartingAll(c, t, from, to).levels[l].started
  {
    if to <= from {
      ProgressNone(cs, t);
    } else {
      StartingAllProgress(cs, c, t, from, to - 1);
      var t' := StartingAll(c, t, from, to - 1);
      KeptIsValid(t, t');
      StartingProgress(cs, c, t', to - 1);
      ProgressTwice(cs, t, t', StartingAll(c, t, from, to));
      forall l | from <= l < to ensures StartingAll(c, t, from, to).levels[l].started {
        assert Later(t'.levels[l], StartingAll(c, t, from, to).levels[l]);
      }
    }
  }

  lemma StartingUpToProgress(cs: set<Context>, c: Context, t: Talk, level: nat)
    requires c in cs && level < |t.levels| && AllValid(t.levels)
    ensures Progress(cs, t, StartingUpTo(c, t, level)) && StartingUpTo(c, t, level).levels[level].started
  {
    var idle, t' := FirstIdle(t.levels, 0), StartingUpTo(c, t, level);
    StartingAllProgress(cs, c, t, idle, level + 1);
    assert Later(t.levels[level], t'.levels[level]);
  }

  lemma ActivatingProgress(cs: set<Context>, c: Context, t: Talk, l: nat)
    requires c in cs && 0 < l < |t.levels| && AllValid(t.levels)
    ensures Progress(cs, t, Activating(c, t, l)) && Notified(cs, t, Activating(c, t, l), l)
  {
    if t.levels[l].started {
      SendingProgress(cs, c, t, l);
    } else {
      StartingUpToProgress(cs, c, t, l);
      assert StartAt(cs, t, Activating(c, t, l), l);
    }
  }

  /** A level is marked, and its successor activated. */
  lemma MarkingProgress(cs: set<Context>, c: Context, t: Talk, l: nat)
    requires c in cs && l < |t.levels| && AllValid(t.levels)
    ensures var t' := Talk(Mark(t.levels, l), t.log);
            Progress(cs, t, if l + 1 == |t.levels| then t' else Activating(c, t', l + 1))
  {
    var t' := Talk(Mark(t.levels, l), t.log);
    assert AllValid(t'.levels) && Kept(t, t');
    if l + 1 < |t.levels| {
      var t'' := Activating(c, t', l + 1);
      ActivatingProgress(cs, c, t', l + 1);
      KeptTwice(t, t', t'');
      NotifiedLate(cs, t, t', t'', l + 1);
      forall i: nat | i < |t.levels| ensures StartAt(cs, t, t'', i) {
        assert StartAt(cs, t', t'', i);
        if i > 0 && t''.levels[i].started && !t.levels[i].started { NotifiedLate(cs, t, t', t'', i); }
      }
      forall i: nat | i + 1 < |t.levels| ensures CompleteAt(cs, t, t'', i) {
        assert CompleteAt(cs, t', t'', i);
        if i != l && t''.levels[i].complete && !t.levels[i].complete { NotifiedLate(cs, t, t', t'', i + 1); }
      }
    }
  }

  lemma {:induction false} CompletingProgress(cs: set<Context>, c: Context, t: Talk, l: nat)
    requires c in cs && l < |t.levels| && AllValid(t.levels)
    ensures Progress(cs, t, Completing(c, t, l))
    decreases |t.levels| - l
  {
    if t.levels[l].complete || !(t.levels[l].peerIds == {} || Covered(c.partitioner, c.known, l)) {
      ProgressNone(cs, t);
    } else {
      MarkingProgress(cs, c, t, l);
      if l + 1 < |t.levels| {
        var t' := Activating(c, Talk(Mark(t.levels, l), t.log), l + 1);
        KeptIsValid(t, t');
        CompletingProgress(cs, c, t', l + 1);
        ProgressTwice(cs, t, t', Completing(c, t, l));
      }
    }
  }

  lemma {:induction false} UpdatingProgress(cs: set<Context>, c: Context, t: Talk, n: nat)
    requires c in cs && n <= |t.levels| && AllValid(t.levels)
    ensures Progress(cs, t, Updating(c, t, n))
    ensures forall l: nat | 0 < l < n :: Notified(cs, t, Updating(c, t, n), l)
  {
    if n <= 1 {
      ProgressNone(cs, t);
    } else {
      var t', t'' := Updating(c, t, n - 1), Updating(c, t, n);
      UpdatingProgress(cs, c, t, n - 1);
      KeptIsValid(t, t');
      SendingProgress(cs, c, t', n - 1);
      ProgressTwice(cs, t, t', t'');
      forall l: nat | 0 < l < n ensures Notified(cs, t, t'', l) {
        if l < n - 1 { NotifiedEarly(cs, t, t', t'', l); } else { NotifiedLate(cs, t, t', t'', l); }
      }
    }
  }

  /** All levels below the first idle one get their updates when the periodic update fires. */
  lemma {:induction false} TickingProgress(cs: set<Context>, c: Context, t: Talk, n: nat)
    requires c in cs && AllValid(t.levels)
    ensures Progress(cs, t, Ticking(c, t, n))
    ensures forall l: nat | n > 0 && 0 < l < FirstIdle(t.levels, 0) :: Notified(cs, t, Ticking(c, t, n), l)
  {
    if n == 0 {
      ProgressNone(cs, t);
    } else {
      var t', t'' := Ticking(c, t, n - 1), Ticking(c, t, n);
      TickingProgress(cs, c, t, n - 1);
      KeptIsValid(t, t');
      UpdatingProgress(cs, c, t', FirstIdle(t'.levels, 0));
      ProgressTwice(cs, t, t', t'');
      forall l: nat | 0 < l < FirstIdle(t.levels, 0) ensures Notified(cs, t, t'', l) {
        if n > 1 { NotifiedEarly(cs, t, t', t'', l); }
      }
    }
  }

  lemma {:induction false} TimingOutProgress(cs: set<Context>, c: Context, t: Talk, n: nat)
    requires c in cs && AllValid(t.levels)
    ensures Progress(cs, t, TimingOut(c, t, n))
  {
    if n == 0 {
      ProgressNone(cs, t);
    } else {
      var t' := TimingOut(c, t, n - 1);
      TimingOutProgress(cs, c, t, n - 1);
      KeptIsValid(t, t');
      if FirstIdle(t'.levels, 0) == |t'.levels| {
        ProgressNone(cs, t');
      } else {
        StartingUpToProgress(cs, c, t', FirstIdle(t'.levels, 0));
      }
      ProgressTwice(cs, t, t', TimingOut(c, t, n));
    }
  }

  lemma TimersProgress(cs: set<Context>, c: Context, t: Talk, ticks: nat, timeouts: nat)
    requires c in cs && AllValid(t.levels)
    ensures Progress(cs, t, TimingOut(c, Ticking(c, t, ticks), timeouts))
    ensures forall l: nat | ticks > 0 && 0 < l < FirstIdle(t.levels, 0) ::
              Notified(cs, t, TimingOut(c, Ticking(c, t, ticks), timeouts), l)
  {
    var t' := Ticking(c, t, ticks);
    var t'' := TimingOut(c, t', timeouts);
    TickingProgress(cs, c, t, ticks);
    KeptIsValid(t, t');
    TimingOutProgress(cs, c, t', timeouts);
    ProgressTwice(cs, t, t', t'');
    forall l: nat | ticks > 0 && 0 < l < FirstIdle(t.levels, 0) ensures Notified(cs, t, t'', l) {
      NotifiedEarly(cs, t, t', t'', l);
    }
  }

  lemma FollowingProgress(cs: set<Context>, c: Context, t: Talk, level: Option<nat>)
    requires c in cs && AllValid(t.levels) && (level.Some? ==> level.value < |t.levels|)
    ensures Progress(cs, t, Following(c, t, level))
    ensures level.Some? ==> Following(c, t, level).levels[level.value].started
  {
    if level.None? {
      ProgressNone(cs, t);
    } else {
      var t' := StartingUpTo(c, t, level.value);
      StartingUpToProgress(cs, c, t, level.value);
      KeptIsValid(t, t');
      CompletingProgress(cs, c, t', level.value);
      ProgressTwice(cs, t, t', Following(c, t, level));
      assert Later(t'.levels[level.value], Following(c, t, level).levels[level.value]);
    }
  }

  lemma {:induction false} IdleIsLater(a: seq<Level>, b: seq<Level>, from: nat)
    requires |a| == |b| && from <= |a| && forall l: nat | l < |a| :: a[l].started ==> b[l].started
    ensures FirstIdle(a, from) <= FirstIdle(b, from)
    decreases |a| - from
  {
    if from < |a| && a[from].started { IdleIsLater(a, b, from + 1); }
  }

  /** A poll makes progress, serves all started levels if the periodic update fires, and starts the level that it
      applies a contribution to. */
  lemma PolledProgress(before: Context, after: Context, t: Talk, input: PollInput, finished: bool, level: Option<nat>)
    requires AllValid(t.levels) && (level.Some? ==> level.value < |t.levels|)
    ensures var t' := Polled(before, after, t, input, finished, level);
            && Progress({before, after}, t, t')
            && (level.Some? ==> t'.levels[level.value].started)
            && forall l: nat | input.ticks > 0 && 0 < l < FirstIdle(t.levels, 0) :: Notified({before, after}, t, t', l)
  {
    var cs, t' := {before, after}, Polled(before, after, t, input, finished, level);
    var mid := if finished then Following(after, t, level)
               else TimingOut(before, Ticking(before, t, input.ticks), input.timeouts);
    if finished {
      FollowingProgress(cs, after, t, level);
      KeptIsValid(t, mid);
      TimersProgress(cs, after, mid, input.ticks, input.timeouts);
      forall l: nat | l < |t.levels| ensures t.levels[l].started ==> mid.levels[l].started {
        assert Later(t.levels[l], mid.levels[l]);
      }
      IdleIsLater(t.levels, mid.levels, 0);
      if level.Some? { assert Later(mid.levels[level.value], t'.levels[level.value]); }
    } else {
      TimersProgress(cs, before, t, input.ticks, input.timeouts);
      KeptIsValid(t, mid);
      FollowingProgress(cs, after, mid, level);
    }
    ProgressTwice(cs, t, mid, t');
    forall l: nat | input.ticks > 0 && 0 < l < FirstIdle(t.levels, 0) ensures Notified(cs, t, t', l) {
      if finished { NotifiedLate(cs, t, mid, t', l); } else { NotifiedEarly(cs, t, mid, t', l); }
    }
  }

  /** Every timeout starts at least one more level, as long as there is one. */
  lemma {:induction false} TimingOutStarts(cs: set<Context>, c: Context, t: Talk, n: nat)
    requires c in cs && AllValid(t.levels)
    ensures FirstIdle(TimingOut(c, t, n).levels, 0) >= Min(FirstIdle(t.levels, 0) + n, |t.levels|)
  {
    if n > 0 {
      var t', t'' := TimingOut(c, t, n - 1), TimingOut(c, t, n);
      TimingOutStarts(cs, c, t, n - 1);
      TimingOutProgress(cs, c, t, n - 1);
      KeptIsValid(t, t');
      var idle := FirstIdle(t'.levels, 0);
      if idle < |t'.levels| {
        StartingUpToProgress(cs, c, t', idle);
        StartedMore(t', t'', idle);
      }
    }
  }

  lemma StartedMore(t: Talk, t': Talk, idle: nat)
    requires Kept(t, t') && idle == FirstIdle(t.levels, 0) < |t.levels| && t'.levels[idle].started
    ensures FirstIdle(t'.levels, 0) > idle
  {
    forall l: nat | l < |t.levels| ensures t.levels[l].started ==> t'.levels[l].started {
      assert Later(t.levels[l], t'.levels[l]);
    }
    IdleIsLater(t.levels, t'.levels, 0);
  }

  lemma KeptIdle(t: Talk, t': Talk)
    requires Kept(t, t')
    ensures FirstIdle(t.levels, 0) <= FirstIdle(t'.levels, 0)
  {
    forall l: nat | l < |t.levels| ensures t.levels[l].started ==> t'.levels[l].started {
      assert Later(t.levels[l], t'.levels[l]);
    }
    IdleIsLater(t.levels, t'.levels, 0);
  }

  lemma TimersStart(cs: set<Context>, c: Context, t: Talk, ticks: nat, timeouts: nat)
    requires c in cs && AllValid(t.levels)
    ensures FirstIdle(TimingOut(c, Ticking(c, t, ticks), timeouts).levels, 0)
         >= Min(FirstIdle(t.levels, 0) + timeouts, |t.levels|)
  {
    TickingProgress(cs, c, t, ticks);
    KeptIsValid(t, Ticking(c, t, ticks));
    KeptIdle(t, Ticking(c, t, ticks));
    TimingOutStarts(cs, c, Ticking(c, t, ticks), timeouts);
  }

  lemma FollowingKeepsIdle(c: Context, t: Talk, level: Option<nat>)
    requires AllValid(t.levels) && (level.Some? ==> level.value < |t.levels|)
    ensures AllValid(Following(c, t, level).levels)
    ensures FirstIdle(t.levels, 0) <= FirstIdle(Following(c, t, level).levels, 0)
  {
    FollowingProgress({c}, c, t, level);
    KeptIsValid(t, Following(c, t, level));
    KeptIdle(t, Following(c, t, level));
  }

  lemma PolledStarts(before: Context, after: Context, t: Talk, input: PollInput, finished: bool, level: Option<nat>)
    requires AllValid(t.levels) && (level.Some? ==> level.value < |t.levels|)
    ensures FirstIdle(Polled(before, after, t, input, finished, level).levels, 0)
         >= Min(FirstIdle(t.levels, 0) + input.timeouts, |t.levels|)
  {
    if finished {
      FollowingKeepsIdle(after, t, level);
      TimersStart({after}, after, Following(after, t, level), input.ticks, input.timeouts);
    } else {
      var mid := TimingOut(before, Ticking(before, t, input.ticks), input.timeouts);
      TimersStart({before}, before, t, input.ticks, input.timeouts);
      TimersProgress({before}, before, t, input.ticks, input.timeouts);
      KeptIsValid(t, mid);
      FollowingKeepsIdle(after, mid, level);
    }
  }

  // ---------- Who is served in a run ----------

  ghost function NewMessages(s: Snapshot, s': Snapshot): seq<Message> {
    if s.log <= s'.log then Since(s.log, s'.log) else []
  }

  /** `count` peers of level `l`, or all of them if there are fewer, get what is known below the level. */
  ghost predicate GroupServed(p: Partitioner, c: Context, l: nat, group: set<nat>, sent: seq<Message>) {
    && group <= p.Level(l) && |group| == Min(c.peerCount, |p.Level(l)|)
    && forall id | id in group :: Served(p, c.known, c.final, l, id, sent)
  }

  ghost predicate LevelServed(setup: Setup, s: Snapshot, s': Snapshot, l: nat) {
    || (exists group :: GroupServed(setup.partitioner, ContextAt(setup, s.known, s.final), l, group,
                                    NewMessages(s, s')))
    || (exists group :: GroupServed(setup.partitioner, ContextAt(setup, s'.known, s.final), l, group,
                                    NewMessages(s, s')))
  }

  lemma {:induction false} PrefixSize(ids: seq<nat>, n: nat)
    requires n <= |ids| && forall i: nat | i < n :: ids[i] !in Elements(ids[..i])
    ensures |Elements(ids[..n])| == n
  {
    if n > 0 {
      PrefixSize(ids, n - 1);
      assert Elements(ids[..n]) == Elements(ids[..n - 1]) + {ids[n - 1]};
    } else {
      assert Elements(ids[..0]) == {};
    }
  }

  lemma SelectedSize(level: Level, count: nat)
    requires level.Valid() && level.id > 0
    ensures |Selected(level, count)| == Min(count, |level.peerIds|) && Selected(level, count) <= level.peerIds
  {
    if level.peerIds != {} {
      var ids, n := Rotated(level), Min(count, |level.peerIds|);
      forall i: nat | i < n ensures ids[i] !in Elements(ids[..i]) && ids[i] in level.peerIds {
        RotatedIsDistinct(level, i);
      }
      PrefixSize(ids, n);
    }
  }

  /** The peers that are selected for an update are served. */
  lemma GroupIsSelected(c: Context, level: Level, l: nat, sent: seq<Message>)
    requires c.partitioner.Valid() && c.partitioner.numIds <= MAX_IDS && c.known.InsideLevels(c.partitioner)
    requires 0 < l < c.partitioner.numLevels && Placed(c.partitioner, l, level)
    requires forall m | m in Delivery(Update(c, l, level)) :: m in sent
    ensures GroupServed(c.partitioner, c, l, Selected(level, c.peerCount), sent)
  {
    var group := Selected(level, c.peerCount);
    SelectedSize(level, c.peerCount);
    UpdatesServe(c.partitioner, c.known, c.final, l, group);
    forall id | id in group ensures Served(c.partitioner, c.known, c.final, l, id, sent) {
      ServedInMore(c.partitioner, c.known, c.final, l, id, Delivery(Update(c, l, level)), sent);
    }
  }

  ghost predicate Placed(p: Partitioner, l: nat, level: Level) {
    level.id == l && level.peerIds == p.Level(l) && level.Valid()
  }

  lemma ServedInMore(p: Partitioner, k: Knowledge, final: Option<set<nat>>, levelId: nat, to: nat,
                     some: seq<Message>, sent: seq<Message>)
    requires Served(p, k, final, levelId, to, some) && forall m | m in some :: m in sent
    ensures Served(p, k, final, levelId, to, sent)
  {
    if HasBelow(k, levelId) {
      var u :| Message(to, u) in some && Honest(p, k, levelId, u);
      assert Message(to, u) in sent;
    }
    if final.Some? {
      var u :| Message(to, u) in some && Full(p, final.value, u);
      assert Message(to, u) in sent;
    }
  }

  lemma {:induction false} ReceivedGrows(c: Context, isComplete: set<nat> -> bool, inbox: Inbox,
                                         updates: seq<LevelUpdate>)
    requires c.partitioner.Valid()
    ensures inbox.log <= ReceivedAll(c, isComplete, inbox, updates).log
  {
    if updates != [] { ReceivedGrows(c, isComplete, inbox, updates[..|updates| - 1]); }
  }

  /** Every accepted update is answered. */
  lemma {:induction false} ReceivedReplies(
    c: Context, isComplete: set<nat> -> bool, inbox: Inbox, updates: seq<LevelUpdate>, j: nat) returns (i: nat)
    requires c.partitioner.Valid() && j < |updates| && Verify(c.partitioner, updates[j], isComplete).Accepted?
    ensures var log := ReceivedAll(c, isComplete, inbox, updates).log;
            |inbox.log| <= i < |log| && log[i] == Reply(c, updates[j].level, updates[j].origin)
  {
    var n := |updates| - 1;
    ReceivedGrows(c, isComplete, inbox, updates[..n]);
    if j == n {
      i := |ReceivedAll(c, isComplete, inbox, updates[..n]).log|;
    } else {
      i := ReceivedReplies(c, isComplete, inbox, updates[..n], j);
    }
  }

  ghost predicate IsTalk(setup: Setup, s: Snapshot, input: PollInput, s': Snapshot, turn: Turn, t: Talk, t': Talk) {
    var p, before, after := setup.partitioner, ContextAt(setup, s.known, s.final), ContextAt(setup, s'.known, s.final);
    && p.Valid() && |s.levels| == p.numLevels
    && t == Talk(s.levels, ReceivedAll(before, setup.isComplete, Inbox(s.pending, s.log), input.updates).log)
    && s.log <= t.log <= t'.log == s'.log
    && Progress({before, after}, t, t')
    && (forall l: nat | input.ticks > 0 && 0 < l < FirstIdle(t.levels, 0) :: Notified({before, after}, t, t', l))
    && (Target(p, turn.taken).Some? ==> t'.levels[Target(p, turn.taken).value].started)
    && Concluded(t', turn.result.Some? && setup.isComplete(turn.result.value), Talk(s'.levels, s'.log))
  }

  /** What a poll of a run sends. */
  lemma PollTalks(setup: Setup, inputs: seq<PollInput>, states: seq<Snapshot>, turns: seq<Turn>, i: nat)
    returns (t: Talk, t': Talk)
    requires Trace(setup, inputs, states, turns) && i < |inputs|
    ensures IsTalk(setup, states[i], inputs[i], states[i + 1], turns[i], t, t')
  {
    var s, s', p := states[i], states[i + 1], setup.partitioner;
    assert StepAt(setup, inputs, states, turns, i) && Known(p, s);
    var before, after := ContextAt(setup, s.known, s.final), ContextAt(setup, s'.known, s.final);
    var inbox := ReceivedAll(before, setup.isComplete, Inbox(s.pending, s.log), inputs[i].updates);
    var finished := s.current.Some? && inputs[i].verification == Done(true);
    ReceivedGrows(before, setup.isComplete, Inbox(s.pending, s.log), inputs[i].updates);
    t := Talk(s.levels, inbox.log);
    t' := Polled(before, after, t, inputs[i], finished, Target(p, turns[i].taken));
    PolledProgress(before, after, t, inputs[i], finished, Target(p, turns[i].taken));
  }

  lemma NotifiedIsServed(
    setup: Setup, s: Snapshot, input: PollInput, s': Snapshot, turn: Turn, t: Talk, t': Talk, l: nat)
    requires IsTalk(setup, s, input, s', turn, t, t') && setup.partitioner.numIds <= MAX_IDS
    requires s.known.InsideLevels(setup.partitioner) && s'.known.InsideLevels(setup.partitioner)
    requires LevelsMatch(setup.partitioner, s.levels) && 0 < l < setup.partitioner.numLevels
    requires Notified({ContextAt(setup, s.known, s.final), ContextAt(setup, s'.known, s.final)}, t, t', l)
    ensures LevelServed(setup, s, s', l)
  {
    var cs := {ContextAt(setup, s.known, s.final), ContextAt(setup, s'.known, s.final)};
    var i: nat :| |t.log| <= i < |t'.log| && UpdateAt(cs, t.levels[l], l, t'.log, i);
    var e := t'.log[i];
    EventIsDelivered(s.log, s'.log, i);
    GroupIsSelected(e.context, e.level, l, NewMessages(s, s'));
  }

  ghost predicate Well(p: Partitioner, s: Snapshot) {
    s.known.InsideLevels(p) && LevelsMatch(p, s.levels) && StartedPrefix(s.levels)
  }

  lemma StatesAreWell(setup: Setup, inputs: seq<PollInput>, states: seq<Snapshot>, turns: seq<Turn>, i: nat)
    requires Trace(setup, inputs, states, turns) && i < |states|
    ensures Well(setup.partitioner, states[i])
  {
    assert Known(setup.partitioner, states[i]);
    RunGrows(setup.partitioner, states[i].applied);
  }

  /** Whenever the periodic update fires, every started level is served. */
  lemma TickServes(setup: Setup, inputs: seq<PollInput>, states: seq<Snapshot>, turns: seq<Turn>, i: nat, l: nat)
    requires setup.partitioner.numIds <= MAX_IDS && Trace(setup, inputs, states, turns) && i < |inputs|
    requires 0 < l < setup.partitioner.numLevels == |states[i].levels|
    requires inputs[i].ticks > 0 && states[i].levels[l].started
    ensures LevelServed(setup, states[i], states[i + 1], l)
  {
    StatesAreWell(setup, inputs, states, turns, i);
    StatesAreWell(setup, inputs, states, turns, i + 1);
    var t, t' := PollTalks(setup, inputs, states, turns, i);
    StartedAreBelowIdle(states[i].levels, l);
    NotifiedIsServed(setup, states[i], inputs[i], states[i + 1], turns[i], t, t', l);
  }

  /** Every level that is started is served at once. */
  lemma StartServes(setup: Setup, inputs: seq<PollInput>, states: seq<Snapshot>, turns: seq<Turn>, i: nat, l: nat)
    requires setup.partitioner.numIds <= MAX_IDS && Trace(setup, inputs, states, turns) && i < |inputs|
    requires 0 < l < setup.partitioner.numLevels == |states[i].levels| == |states[i + 1].levels|
    requires !states[i].levels[l].started && states[i + 1].levels[l].started
    ensures LevelServed(setup, states[i], states[i + 1], l)
  {
    StatesAreWell(setup, inputs, states, turns, i);
    StatesAreWell(setup, inputs, states, turns, i + 1);
    var t, t' := PollTalks(setup, inputs, states, turns, i);
    assert StartAt({ContextAt(setup, states[i].known, states[i].final),
                    ContextAt(setup, states[i + 1].known, states[i].final)}, t, t', l);
    NotifiedIsServed(setup, states[i], inputs[i], states[i + 1], turns[i], t, t', l);
  }

  /** Every level timeout of a run starts one more level, until all are started. */
  lemma TimeoutStarts(setup: Setup, inputs: seq<PollInput>, states: seq<Snapshot>, turns: seq<Turn>, i: nat)
    requires Trace(setup, inputs, states, turns) && i < |inputs|
    ensures |states[i + 1].levels| == |states[i].levels|
    ensures FirstIdle(states[i + 1].levels, 0)
         >= Min(FirstIdle(states[i].levels, 0) + inputs[i].timeouts, |states[i].levels|)
  {
    StatesAreWell(setup, inputs, states, turns, i);
    assert StepAt(setup, inputs, states, turns, i);
    StepStarts(setup, states[i], inputs[i], states[i + 1], turns[i]);
  }

  lemma StepStarts(setup: Setup, s: Snapshot, input: PollInput, s': Snapshot, turn: Turn)
    requires PollStep(setup, s, input, s', turn.result, turn.taken, turn.pick)
             && LevelsMatch(setup.partitioner, s.levels)
    ensures |s'.levels| == |s.levels|
    ensures FirstIdle(s'.levels, 0) >= Min(FirstIdle(s.levels, 0) + input.timeouts, |s.levels|)
  {
    var p, before, after := setup.partitioner, ContextAt(setup, s.known, s.final), ContextAt(setup, s'.known, s.final);
    var t := Talk(s.levels, ReceivedAll(before, setup.isComplete, Inbox(s.pending, s.log), input.updates).log);
    var finished := s.current.Some? && input.verification == Done(true);
    PolledStarts(before, after, t, input, finished, Target(p, turn.taken));
    var t' := Polled(before, after, t, input, finished, Target(p, turn.taken));
    IdleIsLater(t'.levels, s'.levels, 0);
  }

  /** When a level with peers gets covered, the next level is served, unless the run is concluded. */
  lemma CoveringServes(setup: Setup, inputs: seq<PollInput>, states: seq<Snapshot>, turns: seq<Turn>, i: nat, l: nat)
    requires setup.partitioner.numIds <= MAX_IDS && Trace(setup, inputs, states, turns) && i < |inputs|
    requires l + 1 < setup.partitioner.numLevels && setup.partitioner.Level(l) != {}
    requires states[i].final.None? && states[i + 1].final.None?
    requires !Covered(setup.partitioner, states[i].known, l) && Covered(setup.partitioner, states[i + 1].known, l)
    ensures LevelServed(setup, states[i], states[i + 1], l + 1)
  {
    StatesAreWell(setup, inputs, states, turns, i);
    StatesAreWell(setup, inputs, states, turns, i + 1);
    var t, t' := PollTalks(setup, inputs, states, turns, i);
    assert StepAt(setup, inputs, states, turns, i);
    NotConcluded(setup, states[i], inputs[i], states[i + 1], turns[i], t, t');
    assert Known(setup.partitioner, states[i]) && Known(setup.partitioner, states[i + 1]);
    NewlyComplete(setup.partitioner, states[i], states[i + 1], l);
    assert CompleteAt({ContextAt(setup, states[i].known, states[i].final),
                       ContextAt(setup, states[i + 1].known, states[i].final)}, t, t', l);
    NotifiedIsServed(setup, states[i], inputs[i], states[i + 1], turns[i], t, t', l + 1);
  }

  lemma NotConcluded(
    setup: Setup, s: Snapshot, input: PollInput, s': Snapshot, turn: Turn, t: Talk, t': Talk)
    requires IsTalk(setup, s, input, s', turn, t, t') && s'.final.None?
    requires PollStep(setup, s, input, s', turn.result, turn.taken, turn.pick)
    ensures s'.levels == t'.levels && s.levels == t.levels
  {}

  lemma NewlyComplete(p: Partitioner, s: Snapshot, s': Snapshot, l: nat)
    requires Known(p, s) && Known(p, s') && s.final.None? && s'.final.None? && l < p.numLevels && p.Level(l) != {}
    requires !Covered(p, s.known, l) && Covered(p, s'.known, l)
    ensures !s.levels[l].complete && s'.levels[l].complete
  {}

  /** The sender of every accepted update of a store level is served. */
  lemma ReplyServes(setup: Setup, inputs: seq<PollInput>, states: seq<Snapshot>, turns: seq<Turn>, i: nat, j: nat)
    requires setup.partitioner.Valid() && setup.partitioner.numIds <= MAX_IDS
    requires Trace(setup, inputs, states, turns) && i < |inputs| && j < |inputs[i].updates|
    requires var u := inputs[i].updates[j];
             Verify(setup.partitioner, u, setup.isComplete).Accepted? && u.level < setup.partitioner.numLevels
    ensures var u := inputs[i].updates[j];
            Served(setup.partitioner, states[i].known, states[i].final, u.level, u.origin,
                   NewMessages(states[i], states[i + 1]))
  {
    var s, s', p, u := states[i], states[i + 1], setup.partitioner, inputs[i].updates[j];
    StatesAreWell(setup, inputs, states, turns, i);
    var t, t' := PollTalks(setup, inputs, states, turns, i);
    var c := ContextAt(setup, s.known, s.final);
    var at := ReceivedReplies(c, setup.isComplete, Inbox(s.pending, s.log), inputs[i].updates, j);
    VerifyIsExact(p, u, setup.isComplete);
    EventIsDelivered(s.log, s'.log, at);
    UpdatesServe(p, c.known, c.final, u.level, {u.origin});
    ServedInMore(p, c.known, c.final, u.level, u.origin, Delivery(s'.log[at]), NewMessages(s, s'));
  }

  ghost predicate BestsStarted(s: Snapshot) {
    forall l | l in s.known.best :: l < |s.levels| && s.levels[l].started
  }

  /** Every level with a best is started. */
  lemma {:induction false} BestIsStarted(
    setup: Setup, inputs: seq<PollInput>, states: seq<Snapshot>, turns: seq<Turn>, n: nat)
    requires Trace(setup, inputs, states, turns) && n <= |inputs|
    ensures BestsStarted(states[n])
  {
    if n > 0 {
      BestIsStarted(setup, inputs, states, turns, n - 1);
      var t, t' := PollTalks(setup, inputs, states, turns, n - 1);
      BestStep(setup, inputs, states, turns, n - 1, t, t');
    }
  }

  lemma BestStep(setup: Setup, inputs: seq<PollInput>, states: seq<Snapshot>, turns: seq<Turn>, i: nat, t: Talk,
                 t': Talk)
    requires Trace(setup, inputs, states, turns) && i < |inputs| && BestsStarted(states[i])
    requires IsTalk(setup, states[i], inputs[i], states[i + 1], turns[i], t, t')
    ensures BestsStarted(states[i + 1])
  {
    var s, s' := states[i], states[i + 1];
    forall l | l in s'.known.best ensures l < |s'.levels| && s'.levels[l].started {
      BestsAreLevels(setup, inputs, states, turns, i, l);
      StartedStays(setup, s, inputs[i], s', turns[i], t, t', l);
    }
  }

  lemma BestsAreLevels(setup: Setup, inputs: seq<PollInput>, states: seq<Snapshot>, turns: seq<Turn>, i: nat, l: nat)
    requires Trace(setup, inputs, states, turns) && i < |inputs| && l in states[i + 1].known.best
    ensures l < |states[i].levels|
    ensures l in states[i].known.best || Target(setup.partitioner, turns[i].taken) == Some(l)
  {
    var s, s', p := states[i], states[i + 1], setup.partitioner;
    assert StepAt(setup, inputs, states, turns, i) && Known(p, s) && Known(p, s');
    RunGrows(p, s'.applied);
    if l !in s.known.best { NewBestIsTarget(p, s, s', turns[i].taken, l); }
  }

  lemma StartedStays(
    setup: Setup, s: Snapshot, input: PollInput, s': Snapshot, turn: Turn, t: Talk, t': Talk, l: nat)
    requires IsTalk(setup, s, input, s', turn, t, t') && l < |s.levels|
    requires s.levels[l].started || Target(setup.partitioner, turn.taken) == Some(l)
    ensures l < |s'.levels| && s'.levels[l].started
  {
    assert Later(t.levels[l], t'.levels[l]);
  }

  lemma NewBestIsTarget(p: Partitioner, s: Snapshot, s': Snapshot, taken: Option<PendingContribution>, l: nat)
    requires Known(p, s) && Known(p, s') && Advanced(p, s.known, s.applied, s'.known, s'.applied, taken)
    requires l in s'.known.best && l !in s.known.best
    ensures Target(p, taken) == Some(l)
  {
    if Target(p, taken).Some? {
      var a := Application(taken.value.signers, taken.value.level);
      assert s'.applied[..|s'.applied| - 1] == s.applied;
    }
  }
}
