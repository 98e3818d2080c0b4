/** Rate limits of single peers and ids, and the runs of a limiter that may forget them. */
module RateLimiting {
  import opened Wrappers

  datatype Key = Key(peer: nat, id: nat)

  datatype Config = Config(maxRequests: nat, timeWindow: nat)

  datatype RateLimit = RateLimit(allowed: nat, window: nat, lastReset: nat, counter: nat) {

    function NextReset(): nat { lastReset + window }

    /** Resets an elapsed window, then counts a request. */
    function Increment(now: nat): RateLimit {
      if NextReset() <= now then this.(lastReset := now, counter := 1) else this.(counter := counter + 1)
    }

    predicate IsAllowed() { counter <= allowed }

    predicate CanDelete(now: nat) { counter == 0 || NextReset() <= now }
  }

  function New(config: Config, now: nat): RateLimit {
    RateLimit(config.maxRequests, config.timeWindow, now, 0)
  }

  type Limits = map<Key, RateLimit>

  /** The limit of a key after a request. A missing one is created at `created`, then counted at `now`. */
  function Requested(limit: Option<RateLimit>, config: Config, created: nat, now: nat): RateLimit {
    (if limit.Some? then limit.value else New(config, created)).Increment(now)
  }

  function Lookup(limits: Limits, k: Key): Option<RateLimit> {
    if k in limits then Some(limits[k]) else None
  }

  // ---------- Runs ----------

  /** A request reads the clock when it creates a limit and when it counts; a disconnect reads it once. */
  datatype Event =
    | Request(key: Key, created: nat, now: nat)
    | Disconnect(peer: nat, now: nat)

  type Configs = nat -> Config

  function Request1(limits: Limits, configs: Configs, k: Key, created: nat, now: nat): Limits {
    limits[k := Requested(Lookup(limits, k), configs(k.id), created, now)]
  }

  /** Some limits that can be deleted are gone, the others are unchanged. */
  ghost predicate Forgets(before: Limits, after: Limits, now: nat) {
    && after.Keys <= before.Keys
    && (forall k | k in after :: after[k] == before[k])
    && (forall k | k in before && k !in after :: before[k].CanDelete(now))
  }

  /** One step of a limiter that may forget limits when a peer disconnects. The answer is whether a request is
      refused. */
  ghost predicate Transition(configs: Configs, e: Event, before: Limits, after: Limits, exceeded: bool) {
    match e
    case Request(k, created, now) =>
      after == Request1(before, configs, k, created, now) && exceeded == !after[k].IsAllowed()
    case Disconnect(_, now) => Forgets(before, after, now) && !exceeded
  }

  /** The clock after the first `i` events. */
  function Clock(events: seq<Event>, i: nat): nat
    requires i <= |events|
  {
    if i == 0 then 0 else events[i - 1].now
  }

  /** The clock readings of a run never decrease. */
  ghost predicate Monotone(events: seq<Event>) {
    forall i {:trigger OrderedAt(events, i)} | 0 <= i < |events| :: OrderedAt(events, i)
  }

  predicate OrderedAt(events: seq<Event>, i: nat)
    requires i < |events|
  {
    InOrder(Clock(events, i), events[i])
  }

  predicate InOrder(clock: nat, e: Event) {
    if e.Request? then clock <= e.created <= e.now else clock <= e.now
  }

  /** The limits before, between and after the events, and the answers. */
  ghost predicate Trace(configs: Configs, events: seq<Event>, states: seq<Limits>, answers: seq<bool>) {
    && |states| == |events| + 1 && |answers| == |events| && states[0] == map[]
    && forall i {:trigger StepAt(configs, events, states, answers, i)} | 0 <= i < |events| ::
         StepAt(configs, events, states, answers, i)
  }

  ghost predicate StepAt(configs: Configs, events: seq<Event>, states: seq<Limits>, answers: seq<bool>, i: nat)
    requires i < |events| && |states| == |events| + 1 && |answers| == |events|
  {
    Transition(configs, events[i], states[i], states[i + 1], answers[i])
  }

  // ---------- Limits that count at least one request ----------

  predicate ProperLimit(limit: RateLimit, config: Config) {
    limit.allowed == config.maxRequests && limit.window == config.timeWindow && limit.counter >= 1
  }

  ghost predicate Proper(configs: Configs, limits: Limits) {
    forall k | k in limits :: ProperLimit(limits[k], configs(k.id))
  }

  lemma StepKeepsProper(configs: Configs, e: Event, before: Limits, after: Limits, exceeded: bool)
    requires Proper(configs, before) && Transition(configs, e, before, after, exceeded)
    ensures Proper(configs, after)
  {}

  lemma {:induction false} RunIsProper(configs: Configs, events: seq<Event>, states: seq<Limits>,
                                       answers: seq<bool>, i: nat)
    requires Trace(configs, events, states, answers) && i <= |events|
    ensures Proper(configs, states[i])
  {
    if i > 0 {
      RunIsProper(configs, events, states, answers, i - 1);
      assert StepAt(configs, events, states, answers, i - 1);
      StepKeepsProper(configs, events[i - 1], states[i - 1], states[i], answers[i - 1]);
    }
  }

  // ---------- A limiter that never forgets ----------

  /** The limits of a limiter that never forgets, after the first `i` events. */
  function Kept(configs: Configs, events: seq<Event>, i: nat): Limits
    requires i <= |events|
  {
    if i == 0 then map[] else KeptAfter(configs, Kept(configs, events, i - 1), events[i - 1])
  }

  function KeptAfter(configs: Configs, limits: Limits, e: Event): Limits {
    if e.Request? then Request1(limits, configs, e.key, e.created, e.now) else limits
  }

  /** Its answer to event `i`. */
  function KeptAnswer(configs: Configs, events: seq<Event>, i: nat): bool
    requires i < |events|
  {
    events[i].Request? && !Kept(configs, events, i + 1)[events[i].key].IsAllowed()
  }

  lemma {:induction false} KeptIsProper(configs: Configs, events: seq<Event>, i: nat)
    requires i <= |events|
    ensures Proper(configs, Kept(configs, events, i))
  {
    if i > 0 { KeptIsProper(configs, events, i - 1); }
  }

  /** Creating a limit again at `created` and counting at `now` is as good as never having deleted it. */
  predicate Harmless(config: Config, created: nat, now: nat) {
    created == now || created + config.timeWindow <= now || config.maxRequests == 0
  }

  /** The limit of a key equals that of the limiter that never forgets, is forgotten because its window is over, or
      does not matter because it never allows anything. */
  predicate Matches(limit: Option<RateLimit>, kept: Option<RateLimit>, config: Config, clock: nat) {
    || config.maxRequests == 0
    || limit == kept
    || (limit.None? && kept.Some? && kept.value.NextReset() <= clock)
  }

  lemma RequestKeepsMatch(limit: Option<RateLimit>, kept: Option<RateLimit>, config: Config, clock: nat,
                          created: nat, now: nat)
    requires Matches(limit, kept, config, clock) && clock <= created <= now
    requires limit.None? && kept.Some? ==> Harmless(config, created, now)
    requires limit.Some? ==> ProperLimit(limit.value, config)
    requires kept.Some? ==> ProperLimit(kept.value, config)
    ensures Matches(Some(Requested(limit, config, created, now)), Some(Requested(kept, config, created, now)), config,
                    now)
    ensures Requested(limit, config, created, now).IsAllowed() == Requested(kept, config, created, now).IsAllowed()
  {}

  ghost predicate AllMatch(configs: Configs, limits: Limits, kept: Limits, clock: nat) {
    forall k: Key :: Matches(Lookup(limits, k), Lookup(kept, k), configs(k.id), clock)
  }

  lemma StepKeepsMatch(configs: Configs, e: Event, before: Limits, after: Limits, exceeded: bool,
                       kept: Limits, clock: nat)
    requires AllMatch(configs, before, kept, clock) && Proper(configs, before) && Proper(configs, kept)
    requires Transition(configs, e, before, after, exceeded) && InOrder(clock, e)
    requires e.Request? && e.key !in before && e.key in kept ==> Harmless(configs(e.key.id), e.created, e.now)
    ensures AllMatch(configs, after, KeptAfter(configs, kept, e), e.now)
    ensures exceeded == (e.Request? && !KeptAfter(configs, kept, e)[e.key].IsAllowed())
  {
    forall k: Key ensures Matches(Lookup(after, k), Lookup(KeptAfter(configs, kept, e), k), configs(k.id), e.now) {
      assert Matches(Lookup(before, k), Lookup(kept, k), configs(k.id), clock);
      if e.Request? && e.key == k {
        RequestKeepsMatch(Lookup(before, k), Lookup(kept, k), configs(k.id), clock, e.created, e.now);
      }
    }
    if e.Request? {
      var k := e.key;
      assert Matches(Lookup(before, k), Lookup(kept, k), configs(k.id), clock);
      RequestKeepsMatch(Lookup(before, k), Lookup(kept, k), configs(k.id), clock, e.created, e.now);
    }
  }

  /** Event `i` requests a key whose limit was forgotten. */
  predicate Recreates(configs: Configs, events: seq<Event>, states: seq<Limits>, i: nat)
    requires i < |events| && |states| == |events| + 1
  {
    events[i].Request? && events[i].key !in states[i] && events[i].key in Kept(configs, events, i)
  }

  predicate HarmlessAt(configs: Configs, events: seq<Event>, i: nat)
    requires i < |events|
  {
    events[i].Request? && Harmless(configs(events[i].key.id), events[i].created, events[i].now)
  }

  /** The first `n` events create forgotten limits again in a harmless way only. */
  ghost predicate HarmlessUpTo(configs: Configs, events: seq<Event>, states: seq<Limits>, n: nat)
    requires n <= |events| && |states| == |events| + 1
  {
    forall i | 0 <= i < n && Recreates(configs, events, states, i) :: HarmlessAt(configs, events, i)
  }

  lemma {:induction false} RunMatches(configs: Configs, events: seq<Event>, states: seq<Limits>,
                                      answers: seq<bool>, i: nat)
    requires Trace(configs, events, states, answers) && Monotone(events) && i <= |events|
    requires HarmlessUpTo(configs, events, states, i)
    ensures AllMatch(configs, states[i], Kept(configs, events, i), Clock(events, i))
    ensures i > 0 ==> answers[i - 1] == KeptAnswer(configs, events, i - 1)
  {
    if i > 0 {
      var e := events[i - 1];
      RunMatches(configs, events, states, answers, i - 1);
      RunIsProper(configs, events, states, answers, i - 1);
      KeptIsProper(configs, events, i - 1);
      assert StepAt(configs, events, states, answers, i - 1) && OrderedAt(events, i - 1);
      assert Recreates(configs, events, states, i - 1) ==> HarmlessAt(configs, events, i - 1);
      StepKeepsMatch(configs, e, states[i - 1], states[i], answers[i - 1], Kept(configs, events, i - 1),
                     Clock(events, i - 1));
    }
  }

  /** Forgetting limits never changes an answer if every request that creates a limit again is harmless, for instance
      if its two clock readings are the same. */
  lemma ForgettingIsInvisible(configs: Configs, events: seq<Event>, states: seq<Limits>, answers: seq<bool>)
    requires Trace(configs, events, states, answers) && Monotone(events)
    requires HarmlessUpTo(configs, events, states, |events|)
    ensures forall i | 0 <= i < |events| :: answers[i] == KeptAnswer(configs, events, i)
  {
    forall i | 0 <= i < |events| ensures answers[i] == KeptAnswer(configs, events, i) {
      RunMatches(configs, events, states, answers, i + 1);
    }
  }

  // ---------- When forgetting is visible ----------

  /** Whether each of a series of requests to one key is allowed. */
  function Allowed(limit: RateLimit, times: seq<nat>): seq<bool>
    decreases times
  {
    if times == [] then [] else [limit.Increment(times[0]).IsAllowed()] + Allowed(limit.Increment(times[0]), times[1..])
  }

  ghost predicate Ascending(clock: nat, times: seq<nat>)
    decreases times
  {
    times == [] || (clock <= times[0] && Ascending(times[0], times[1..]))
  }

  /** No later series of requests is answered differently by the two limits. */
  ghost predicate Indistinguishable(a: RateLimit, b: RateLimit, clock: nat) {
    forall times | Ascending(clock, times) :: Allowed(a, times) == Allowed(b, times)
  }

  function Repeated(time: nat, n: nat): seq<nat> {
    if n == 0 then [] else [time] + Repeated(time, n - 1)
  }

  lemma {:induction false} RepeatedAscends(clock: nat, time: nat, n: nat)
    requires clock <= time
    ensures Ascending(clock, Repeated(time, n))
    decreases n
  {
    if n > 0 { RepeatedAscends(time, time, n - 1); }
  }

  /** Requests inside the window are counted one by one. */
  lemma {:induction false} AllowedInWindow(limit: RateLimit, time: nat, n: nat)
    requires n > 0 && time < limit.NextReset()
    ensures |Allowed(limit, Repeated(time, n))| == n
    ensures Allowed(limit, Repeated(time, n))[n - 1] <==> limit.counter + n <= limit.allowed
    decreases n
  {
    if n > 1 { AllowedInWindow(limit.Increment(time), time, n - 1); }
  }

  lemma AllowedAfterReset(limit: RateLimit, time: nat, n: nat)
    requires n > 0 && limit.NextReset() <= time && limit.window > 0
    ensures |Allowed(limit, Repeated(time, n))| == n
    ensures Allowed(limit, Repeated(time, n))[n - 1] <==> n <= limit.allowed
  {
    if n > 1 { AllowedInWindow(limit.Increment(time), time, n - 1); }
  }

  lemma {:induction false} NeverAllowed(a: RateLimit, b: RateLimit, times: seq<nat>)
    requires a.allowed == 0 && b.allowed == 0
    ensures Allowed(a, times) == Allowed(b, times)
    decreases times
  {
    if times != [] { NeverAllowed(a.Increment(times[0]), b.Increment(times[0]), times[1..]); }
  }

  /** A limit that was forgotten after its window and is created again can be told from one that was kept, unless
      the request is harmless. */
  lemma ForgettingIsVisible(kept: RateLimit, config: Config, created: nat, now: nat)
    requires ProperLimit(kept, config) && kept.NextReset() <= created <= now
    ensures Indistinguishable(Requested(None, config, created, now), Requested(Some(kept), config, created, now), now)
            <==> Harmless(config, created, now)
  {
    var a, b := Requested(None, config, created, now), Requested(Some(kept), config, created, now);
    if config.maxRequests == 0 {
      forall times | Ascending(now, times) ensures Allowed(a, times) == Allowed(b, times) { NeverAllowed(a, b, times); }
    } else if !Harmless(config, created, now) {
      var n, time := config.maxRequests, created + config.timeWindow;
      RepeatedAscends(now, time, n);
      AllowedAfterReset(a, time, n);
      AllowedInWindow(b, time, n);
      assert Allowed(a, Repeated(time, n)) != Allowed(b, Repeated(time, n));
    }
  }

  /** In any run, at the first request that creates a forgotten limit again in another way, it can be told from then
      on that the limit was forgotten. */
  lemma RecreationIsExact(configs: Configs, events: seq<Event>, states: seq<Limits>, answers: seq<bool>, i: nat)
    requires Trace(configs, events, states, answers) && Monotone(events) && i < |events|
    requires HarmlessUpTo(configs, events, states, i) && Recreates(configs, events, states, i)
    ensures events[i].key in states[i + 1] && events[i].key in Kept(configs, events, i + 1)
    ensures Indistinguishable(states[i + 1][events[i].key], Kept(configs, events, i + 1)[events[i].key], events[i].now)
            <==> HarmlessAt(configs, events, i)
  {
    var e, k, config := events[i], events[i].key, configs(events[i].key.id);
    RunMatches(configs, events, states, answers, i);
    RunIsProper(configs, events, states, answers, i);
    KeptIsProper(configs, events, i);
    var kept := Kept(configs, events, i)[k];
    assert StepAt(configs, events, states, answers, i) && OrderedAt(events, i);
    assert Matches(Lookup(states[i], k), Lookup(Kept(configs, events, i), k), config, Clock(events, i));
    var a, b := Requested(None, config, e.created, e.now), Requested(Some(kept), config, e.created, e.now);
    if config.maxRequests == 0 {
      forall times | Ascending(e.now, times) ensures Allowed(a, times) == Allowed(b, times) {
        NeverAllowed(a, b, times);
      }
    } else {
      ForgettingIsVisible(kept, config, e.created, e.now);
    }
  }

  // ---------- Continuing a run ----------

  /** A series of requests of one key, each with equal clock readings. */
  function Requests(k: Key, times: seq<nat>): seq<Event> {
    if times == [] then [] else Requests(k, times[..|times| - 1]) + [Request(k, times[|times| - 1], times[|times| - 1])]
  }

  /** The limits after each of these requests. */
  function LimitsAfter(configs: Configs, limits: Limits, k: Key, times: seq<nat>): (states: seq<Limits>)
    ensures |states| == |times|
  {
    if times == [] then []
    else
      var before := LimitsAfter(configs, limits, k, times[..|times| - 1]);
      var last := if before == [] then limits else before[|before| - 1];
      before + [Request1(last, configs, k, times[|times| - 1], times[|times| - 1])]
  }

  /** Whether these requests are refused. */
  function Refusals(states: seq<Limits>, k: Key): seq<bool> {
    seq(|states|, i requires 0 <= i < |states| => k in states[i] && !states[i][k].IsAllowed())
  }

  ghost predicate Agrees(configs: Configs, events: seq<Event>, answers: seq<bool>)
    requires |answers| == |events|
  {
    forall i | 0 <= i < |events| :: answers[i] == KeptAnswer(configs, events, i)
  }

  /** These clock readings never decrease. */
  ghost predicate Later(clock: nat, times: seq<nat>) {
    forall i {:trigger LaterAt(clock, times, i)} | 0 <= i < |times| :: LaterAt(clock, times, i)
  }

  predicate LaterAt(clock: nat, times: seq<nat>, i: nat)
    requires i < |times|
  {
    (if i == 0 then clock else times[i - 1]) <= times[i]
  }

  lemma LaterPrefix(clock: nat, times: seq<nat>, n: nat)
    requires Later(clock, times) && n <= |times|
    ensures Later(clock, times[..n])
  {
    forall i | 0 <= i < n ensures LaterAt(clock, times[..n], i) { assert LaterAt(clock, times, i); }
  }

  lemma TraceMore(configs: Configs, events: seq<Event>, states: seq<Limits>, answers: seq<bool>, e: Event,
                  after: Limits, exceeded: bool)
    requires Trace(configs, events, states, answers) && Monotone(events)
    requires Transition(configs, e, states[|events|], after, exceeded) && InOrder(Clock(events, |events|), e)
    ensures Trace(configs, events + [e], states + [after], answers + [exceeded]) && Monotone(events + [e])
  {
    var events', states', answers' := events + [e], states + [after], answers + [exceeded];
    forall i | 0 <= i < |events'| ensures StepAt(configs, events', states', answers', i) && OrderedAt(events', i) {
      if i < |events| { assert StepAt(configs, events, states, answers, i) && OrderedAt(events, i); }
    }
  }

  lemma TracePrefix(configs: Configs, events: seq<Event>, states: seq<Limits>, answers: seq<bool>, m: nat)
    requires Trace(configs, events, states, answers) && Monotone(events) && m <= |events|
    ensures Trace(configs, events[..m], states[..m + 1], answers[..m]) && Monotone(events[..m])
  {
    var events', states', answers' := events[..m], states[..m + 1], answers[..m];
    forall i | 0 <= i < |events'| ensures StepAt(configs, events', states', answers', i) {
      assert StepAt(configs, events, states, answers, i);
    }
    forall i | 0 <= i < |events'| ensures OrderedAt(events', i) {
      assert OrderedAt(events, i);
    }
  }

  lemma {:induction false} KeptPrefix(configs: Configs, events: seq<Event>, events': seq<Event>, i: nat)
    requires i <= |events| && events <= events'
    ensures Kept(configs, events, i) == Kept(configs, events', i)
  {
    if i > 0 {
      KeptPrefix(configs, events, events', i - 1);
      assert events[i - 1] == events'[i - 1];
    }
  }

  /** A run that goes on with requests of one key is a run. */
  lemma {:induction false} Continued(
    configs: Configs, events: seq<Event>, states: seq<Limits>, answers: seq<bool>, k: Key, times: seq<nat>)
    requires Trace(configs, events, states, answers) && Monotone(events) && Later(Clock(events, |events|), times)
    ensures var more := LimitsAfter(configs, states[|events|], k, times);
            && |Requests(k, times)| == |times| && Monotone(events + Requests(k, times))
            && Trace(configs, events + Requests(k, times), states + more, answers + Refusals(more, k))
            && Clock(events + Requests(k, times), |events| + |times|)
               == if times == [] then Clock(events, |events|) else times[|times| - 1]
    decreases |times|
  {
    var limits := states[|events|];
    if times == [] {
      assert events + [] == events && states + [] == states && answers + Refusals([], k) == answers;
    } else {
      var n := |times| - 1;
      var before, t := times[..n], times[n];
      LaterPrefix(Clock(events, |events|), times, n);
      assert LaterAt(Clock(events, |events|), times, n);
      Continued(configs, events, states, answers, k, before);
      var events', states' := events + Requests(k, before), states + LimitsAfter(configs, limits, k, before);
      var answers' := answers + Refusals(LimitsAfter(configs, limits, k, before), k);
      var last := states'[|events'|];
      var after := Request1(last, configs, k, t, t);
      TraceMore(configs, events', states', answers', Request(k, t, t), after, !after[k].IsAllowed());
      assert events' + [Request(k, t, t)] == events + Requests(k, times);
      assert states' + [after] == states + LimitsAfter(configs, limits, k, times);
      assert answers' + [!after[k].IsAllowed()] == answers + Refusals(LimitsAfter(configs, limits, k, times), k);
    }
  }

  /** However requests of a known key go on after `m` events, they are answered as if nothing had been forgotten. */
  ghost predicate SameAnswers(configs: Configs, events: seq<Event>, states: seq<Limits>, answers: seq<bool>, m: nat,
                              k: Key, times: seq<nat>)
    requires m <= |events| && |states| == |events| + 1 && |answers| == |events|
  {
    var answers' := answers[..m] + Refusals(LimitsAfter(configs, states[m], k, times), k);
    var events' := events[..m] + Requests(k, times);
    |answers'| == |events'| && Agrees(configs, events', answers')
  }

  ghost predicate NeverDiffers(configs: Configs, events: seq<Event>, states: seq<Limits>, answers: seq<bool>)
    requires |states| == |events| + 1 && |answers| == |events|
  {
    forall m: nat, k: Key, times {:trigger SameAnswers(configs, events, states, answers, m, k, times)} |
      m <= |events| && k in states[m] && Later(Clock(events, m), times) ::
      SameAnswers(configs, events, states, answers, m, k, times)
  }

  function LastOf(limits: Limits, states: seq<Limits>): Limits {
    if states == [] then limits else states[|states| - 1]
  }

  lemma {:induction false} KeptContinued(configs: Configs, events: seq<Event>, k: Key, times: seq<nat>)
    ensures |Requests(k, times)| == |times|
    ensures var kept := Kept(configs, events, |events|);
            Kept(configs, events + Requests(k, times), |events| + |times|)
            == LastOf(kept, LimitsAfter(configs, kept, k, times))
    decreases |times|
  {
    if times == [] {
      assert events + [] == events;
    } else {
      var n := |times| - 1;
      KeptContinued(configs, events, k, times[..n]);
      var events', e := events + Requests(k, times[..n]), Request(k, times[n], times[n]);
      assert events + Requests(k, times) == events' + [e];
      KeptMore(configs, events', e);
    }
  }

  lemma KeptMore(configs: Configs, events: seq<Event>, e: Event)
    ensures Kept(configs, events + [e], |events| + 1) == KeptAfter(configs, Kept(configs, events, |events|), e)
  {
    KeptPrefix(configs, events, events + [e], |events|);
  }

  function Same(time: nat, n: nat): seq<nat> {
    seq(n, _ => time)
  }

  /** Requests at the same time are counted one by one, after a reset if the window is over. */
  lemma {:induction false} CountSame(configs: Configs, limits: Limits, k: Key, time: nat, n: nat)
    requires k in limits && limits[k].window > 0 && n > 0
    ensures var last := LastOf(limits, LimitsAfter(configs, limits, k, Same(time, n)));
            && k in last
            && last[k] == if limits[k].NextReset() <= time then limits[k].(lastReset := time, counter := n)
                          else limits[k].(counter := limits[k].counter + n)
  {
    assert Same(time, n)[..n - 1] == Same(time, n - 1);
    if n > 1 { CountSame(configs, limits, k, time, n - 1); }
  }

  /** A forgotten limit that is created again in a harmful way admits one request too many later. */
  lemma HarmShows(configs: Configs, events: seq<Event>, states: seq<Limits>, answers: seq<bool>, i: nat)
    requires Trace(configs, events, states, answers) && Monotone(events) && i < |events|
    requires HarmlessUpTo(configs, events, states, i)
    requires Recreates(configs, events, states, i) && !HarmlessAt(configs, events, i)
    ensures !NeverDiffers(configs, events, states, answers)
  {
    var e, k, m := events[i], events[i].key, i + 1;
    var config := configs(k.id);
    var n, time := config.maxRequests, e.created + config.timeWindow;
    HarmfulLimits(configs, events, states, answers, i);
    SameIsLater(e.now, time, n);
    KeptRefuses(configs, events, m, k, time, n);
    CountSame(configs, states[m], k, time, n);
    DifferAtLast(configs, events, states, answers, m, k, Same(time, n));
  }

  lemma SameIsLater(clock: nat, time: nat, n: nat)
    requires clock <= time
    ensures Later(clock, Same(time, n))
  {
    forall j | 0 <= j < n ensures LaterAt(clock, Same(time, n), j) {}
  }

  lemma KeptRefuses(configs: Configs, events: seq<Event>, m: nat, k: Key, time: nat, n: nat)
    requires m <= |events| && n > 0 && k in Kept(configs, events, m)
    requires var limit := Kept(configs, events, m)[k];
             limit.allowed == n && limit.counter > 0 && limit.window > 0 && time < limit.NextReset()
    ensures |Requests(k, Same(time, n))| == n
    ensures var kept := Kept(configs, events[..m] + Requests(k, Same(time, n)), m + n);
            k in kept && !kept[k].IsAllowed()
  {
    KeptPrefix(configs, events[..m], events, m);
    KeptContinued(configs, events[..m], k, Same(time, n));
    CountSame(configs, Kept(configs, events, m), k, time, n);
  }

  lemma DifferAtLast(configs: Configs, events: seq<Event>, states: seq<Limits>, answers: seq<bool>, m: nat,
                     k: Key, times: seq<nat>)
    requires m <= |events| && |states| == |events| + 1 && |answers| == |events| && times != []
    requires |Requests(k, times)| == |times|
    requires var last := LastOf(states[m], LimitsAfter(configs, states[m], k, times)); k in last && last[k].IsAllowed()
    requires var kept := Kept(configs, events[..m] + Requests(k, times), m + |times|); k in kept && !kept[k].IsAllowed()
    ensures !SameAnswers(configs, events, states, answers, m, k, times)
  {
    LastRequest(k, times);
    var more, n := LimitsAfter(configs, states[m], k, times), |times|;
    var events', answers' := events[..m] + Requests(k, times), answers[..m] + Refusals(more, k);
    assert answers'[m + n - 1] == Refusals(more, k)[n - 1];
    assert answers'[m + n - 1] != KeptAnswer(configs, events', m + n - 1);
  }

  lemma LastRequest(k: Key, times: seq<nat>)
    requires times != []
    ensures var n := |times| - 1;
            |Requests(k, times)| == n + 1 && Requests(k, times)[n] == Request(k, times[n], times[n])
  {
    RequestsLength(k, times[..|times| - 1]);
  }

  lemma {:induction false} RequestsLength(k: Key, times: seq<nat>)
    ensures |Requests(k, times)| == |times|
    decreases |times|
  {
    if times != [] { RequestsLength(k, times[..|times| - 1]); }
  }

  /** The limits of the two limiters after the harmful request. */
  lemma HarmfulLimits(configs: Configs, events: seq<Event>, states: seq<Limits>, answers: seq<bool>, i: nat)
    requires Trace(configs, events, states, answers) && Monotone(events) && i < |events|
    requires HarmlessUpTo(configs, events, states, i)
    requires Recreates(configs, events, states, i) && !HarmlessAt(configs, events, i)
    ensures var e, k, kept := events[i], events[i].key, Kept(configs, events, i + 1);
            var config := configs(k.id);
            && config.maxRequests > 0 && e.now < e.created + config.timeWindow < e.now + config.timeWindow
            && k in states[i + 1] && k in kept
            && states[i + 1][k] == RateLimit(config.maxRequests, config.timeWindow, e.created, 1)
            && kept[k] == RateLimit(config.maxRequests, config.timeWindow, e.now, 1)
  {
    var e, k := events[i], events[i].key;
    var config, kept := configs(k.id), Kept(configs, events, i);
    RunMatches(configs, events, states, answers, i);
    KeptIsProper(configs, events, i);
    assert StepAt(configs, events, states, answers, i) && OrderedAt(events, i);
    assert Matches(Lookup(states[i], k), Lookup(kept, k), config, Clock(events, i));
    assert ProperLimit(kept[k], config);
  }

  lemma {:induction false} HarmlessIfSame(
    configs: Configs, events: seq<Event>, states: seq<Limits>, answers: seq<bool>, n: nat)
    requires Trace(configs, events, states, answers) && Monotone(events) && n <= |events|
    requires NeverDiffers(configs, events, states, answers)
    ensures HarmlessUpTo(configs, events, states, n)
  {
    if n > 0 {
      HarmlessIfSame(configs, events, states, answers, n - 1);
      if Recreates(configs, events, states, n - 1) && !HarmlessAt(configs, events, n - 1) {
        HarmShows(configs, events, states, answers, n - 1);
        assert false;
      }
    }
  }

  /** Requests of a known key create nothing again. */
  lemma StillHarmless(configs: Configs, events: seq<Event>, states: seq<Limits>, answers: seq<bool>, m: nat, k: Key,
                      times: seq<nat>)
    requires Trace(configs, events, states, answers) && Monotone(events) && m <= |events| && k in states[m]
    requires HarmlessUpTo(configs, events, states, |events|) && Later(Clock(events, m), times)
    ensures SameAnswers(configs, events, states, answers, m, k, times)
  {
    var prefix, more := events[..m], LimitsAfter(configs, states[m], k, times);
    var events', states' := prefix + Requests(k, times), states[..m + 1] + more;
    var answers' := answers[..m] + Refusals(more, k);
    TracePrefix(configs, events, states, answers, m);
    assert Clock(prefix, |prefix|) == Clock(events, m);
    Continued(configs, prefix, states[..m + 1], answers[..m], k, times);
    KeyStays(configs, states[m], k, times);
    forall i | 0 <= i < |events'| && Recreates(configs, events', states', i) ensures HarmlessAt(configs, events', i) {
      if i < m {
        KeptPrefix(configs, prefix, events, i);
        KeptPrefix(configs, prefix, events', i);
        assert Recreates(configs, events, states, i) && HarmlessAt(configs, events, i);
      } else {
        RequestsAt(k, times, i - m);
        assert false;
      }
    }
    ForgettingIsInvisible(configs, events', states', answers');
  }

  lemma {:induction false} KeyStays(configs: Configs, limits: Limits, k: Key, times: seq<nat>)
    requires k in limits
    ensures forall i | 0 <= i < |times| :: k in LimitsAfter(configs, limits, k, times)[i]
    decreases |times|
  {
    if times != [] { KeyStays(configs, limits, k, times[..|times| - 1]); }
  }

  lemma {:induction false} RequestsAt(k: Key, times: seq<nat>, i: nat)
    requires i < |times|
    ensures |Requests(k, times)| == |times| && Requests(k, times)[i] == Request(k, times[i], times[i])
    decreases |times|
  {
    var n := |times| - 1;
    RequestsLength(k, times[..n]);
    if i < n { RequestsAt(k, times[..n], i); }
  }

  /** However a run goes on, the limiter that forgets answers like the one that never does if and only if the run
      creates forgotten limits again in a harmless way only. */
  lemma ForgettingIsExact(configs: Configs, events: seq<Event>, states: seq<Limits>, answers: seq<bool>)
    requires Trace(configs, events, states, answers) && Monotone(events)
    ensures NeverDiffers(configs, events, states, answers) <==> HarmlessUpTo(configs, events, states, |events|)
  {
    if NeverDiffers(configs, events, states, answers) {
      HarmlessIfSame(configs, events, states, answers, |events|);
    }
    if HarmlessUpTo(configs, events, states, |events|) {
      forall m: nat, k: Key, times | m <= |events| && k in states[m] && Later(Clock(events, m), times)
        ensures SameAnswers(configs, events, states, answers, m, k, times)
      {
        StillHarmless(configs, events, states, answers, m, k, times);
      }
    }
  }

  /** One request is allowed every ten seconds. The peer leaves, and its limit is created again at second 20, while the
      request is counted at second 21. */
  function ExampleEvents(k: Key): seq<Event> {
    [Request(k, 0, 0), Disconnect(k.peer, 10), Request(k, 20, 21), Request(k, 30, 30)]
  }

  function ExampleStates(k: Key): seq<Limits> {
    [map[], map[k := RateLimit(1, 10, 0, 1)], map[], map[k := RateLimit(1, 10, 20, 1)],
     map[k := RateLimit(1, 10, 30, 1)]]
  }

  lemma ExampleForgets(configs: Configs, k: Key)
    requires configs(k.id) == Config(1, 10)
    ensures Monotone(ExampleEvents(k))
    ensures Trace(configs, ExampleEvents(k), ExampleStates(k), [false, false, false, false])
  {
    var events, states, answers := ExampleEvents(k), ExampleStates(k), [false, false, false, false];
    assert StepAt(configs, events, states, answers, 0);
    assert StepAt(configs, events, states, answers, 1);
    assert StepAt(configs, events, states, answers, 2);
    assert StepAt(configs, events, states, answers, 3);
  }

  lemma ExampleKept(configs: Configs, k: Key)
    requires configs(k.id) == Config(1, 10)
    ensures Lookup(Kept(configs, ExampleEvents(k), 3), k) == Some(RateLimit(1, 10, 21, 1))
  {
    var events := ExampleEvents(k);
    assert Lookup(Kept(configs, events, 1), k) == Some(RateLimit(1, 10, 0, 1));
    assert Kept(configs, events, 2) == Kept(configs, events, 1);
    assert Kept(configs, events, 3) == Request1(Kept(configs, events, 2), configs, k, 20, 21);
  }

  /** The request at second 30 is allowed, while a limiter that never forgets refuses it. */
  lemma ForgettingExample(configs: Configs, k: Key)
    requires configs(k.id) == Config(1, 10)
    ensures Monotone(ExampleEvents(k))
    ensures Trace(configs, ExampleEvents(k), ExampleStates(k), [false, false, false, false])
    ensures KeptAnswer(configs, ExampleEvents(k), 3)
  {
    ExampleForgets(configs, k);
    ExampleKept(configs, k);
  }

  // ---------- How much a window admits ----------

  predicate Admits(e: Event, exceeded: bool, k: Key, from: nat, to: nat) {
    e.Request? && e.key == k && from <= e.now < to && !exceeded
  }

  /** The number of requests of a key that are allowed in `[from, to)`, among the first `i` events. */
  function Admitted(events: seq<Event>, answers: seq<bool>, k: Key, from: nat, to: nat, i: nat): nat
    requires i <= |events| == |answers|
  {
    if i == 0 then 0
    else
      Admitted(events, answers, k, from, to, i - 1)
      + if Admits(events[i - 1], answers[i - 1], k, from, to) then 1 else 0
  }

  /** What windows that start at `earliest` or later can still admit in `[from, from + window)`. */
  function Future(config: Config, earliest: nat, from: nat): nat {
    if earliest >= from + config.timeWindow then 0
    else if earliest >= from then config.maxRequests
    else 2 * config.maxRequests
  }

  /** What the current window can still admit in `[from, from + window)`. */
  function Current(limit: RateLimit, config: Config, from: nat): nat {
    if limit.lastReset < from + config.timeWindow && limit.NextReset() > from && limit.counter < config.maxRequests
    then config.maxRequests - limit.counter else 0
  }

  function Budget(limit: Option<RateLimit>, config: Config, clock: nat, from: nat): nat {
    if limit.None? then Future(config, clock, from)
    else Current(limit.value, config, from) + Future(config, limit.value.NextReset(), from)
  }

  /** An allowed request is paid for. */
  lemma RequestPays(limit: Option<RateLimit>, config: Config, clock: nat, created: nat, now: nat, from: nat)
    requires clock <= created <= now
    requires limit.Some? ==> ProperLimit(limit.value, config) && limit.value.lastReset <= clock
    ensures var limit' := Requested(limit, config, created, now);
            (if from <= now < from + config.timeWindow && limit'.IsAllowed() then 1 else 0)
            + Budget(Some(limit'), config, now, from) <= Budget(limit, config, clock, from)
  {}

  /** The window of a limit starts no later than the clock. */
  ghost predicate Started(limits: Limits, clock: nat) {
    forall k | k in limits :: limits[k].lastReset <= clock
  }

  lemma StepPays(configs: Configs, e: Event, before: Limits, after: Limits, exceeded: bool, clock: nat,
                 k: Key, from: nat)
    requires Transition(configs, e, before, after, exceeded) && InOrder(clock, e)
    requires Proper(configs, before) && Started(before, clock)
    ensures Started(after, e.now)
    ensures var config := configs(k.id);
            (if Admits(e, exceeded, k, from, from + config.timeWindow) then 1 else 0)
            + Budget(Lookup(after, k), config, e.now, from) <= Budget(Lookup(before, k), config, clock, from)
  {
    var config := configs(k.id);
    if e.Request? && e.key == k {
      RequestPays(Lookup(before, k), config, clock, e.created, e.now, from);
    }
  }

  lemma {:induction false} RunPays(configs: Configs, events: seq<Event>, states: seq<Limits>,
                                   answers: seq<bool>, i: nat, k: Key, from: nat)
    requires Trace(configs, events, states, answers) && Monotone(events) && i <= |events|
    ensures Started(states[i], Clock(events, i))
    ensures var config := configs(k.id);
            Admitted(events, answers, k, from, from + config.timeWindow, i)
            + Budget(Lookup(states[i], k), config, Clock(events, i), from) <= 2 * config.maxRequests
  {
    if i > 0 {
      RunPays(configs, events, states, answers, i - 1, k, from);
      RunIsProper(configs, events, states, answers, i - 1);
      assert StepAt(configs, events, states, answers, i - 1) && OrderedAt(events, i - 1);
      StepPays(configs, events[i - 1], states[i - 1], states[i], answers[i - 1], Clock(events, i - 1), k, from);
    }
  }

  /** Whatever is forgotten, any interval as long as the window admits at most twice the maximum. */
  lemma WindowAdmitsTwice(configs: Configs, events: seq<Event>, states: seq<Limits>, answers: seq<bool>,
                          k: Key, from: nat)
    requires Trace(configs, events, states, answers) && Monotone(events)
    ensures var config := configs(k.id);
            Admitted(events, answers, k, from, from + config.timeWindow, |events|) <= 2 * config.maxRequests
  {
    RunPays(configs, events, states, answers, |events|, k, from);
  }
}
