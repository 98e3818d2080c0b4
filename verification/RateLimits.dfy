/** The limits of all peers, with deferred deletion. */
module RateLimits {
  import opened RateLimiting
  import opened Wrappers

  /** Ordered by time, then by peer and id. */
  datatype Expiration = Expiration(time: nat, key: Key)

  predicate Before(a: Expiration, b: Expiration) {
    || a.time < b.time
    || (a.time == b.time && (a.key.peer < b.key.peer || (a.key.peer == b.key.peer && a.key.id < b.key.id)))
  }

  /** A strict total order, by time first. */
  lemma BeforeIsOrder(a: Expiration, b: Expiration, c: Expiration)
    ensures Before(a, b) ==> !Before(b, a) && a != b && a.time <= b.time
    ensures a != b ==> Before(a, b) || Before(b, a)
    ensures Before(a, b) && Before(b, c) ==> Before(a, c)
  {}

  predicate IsFirst(e: Expiration, all: set<Expiration>) {
    e in all && forall f | f in all && f != e :: Before(e, f)
  }

  lemma {:induction false} FirstExists(all: set<Expiration>)
    requires all != {}
    ensures exists e :: IsFirst(e, all)
    decreases |all|
  {
    var x :| x in all;
    var rest := all - {x};
    assert forall f | f in all && f != x :: f in rest;
    if rest == {} {
      assert IsFirst(x, all);
    } else {
      FirstExists(rest);
      var y :| IsFirst(y, rest);
      assert IsFirst(if Before(x, y) then x else y, all);
    }
  }

  /** The limits marked for deletion, by key and by expiration time. */
  datatype Pending = Pending(byKey: map<Key, RateLimit>, byExpiration: set<Expiration>) {

    /** The two indexes hold the same entries. */
    ghost predicate Valid() {
      && (forall k | k in byKey :: Expiration(byKey[k].NextReset(), k) in byExpiration)
      && (forall e | e in byExpiration :: e.key in byKey && byKey[e.key].NextReset() == e.time)
    }
  }

  type Active = map<nat, map<nat, RateLimit>>

  function Of(active: Active, p: nat): map<nat, RateLimit> {
    if p in active then active[p] else map[]
  }

  function Find(active: Active, k: Key): Option<RateLimit> {
    if k.id in Of(active, k.peer) then Some(active[k.peer][k.id]) else None
  }

  /** `limits` are the active limits by key, and no peer is listed without a limit. */
  ghost predicate Flattens(active: Active, limits: Limits) {
    && (forall k: Key {:trigger Find(active, k)} :: Find(active, k) == Lookup(limits, k))
    && (forall p | p in active :: active[p] != map[])
  }

  /** Every marked limit is active, and resets no earlier than recorded. */
  ghost predicate Backed(pending: Pending, limits: Limits) {
    forall k | k in pending.byKey :: k in limits && pending.byKey[k].NextReset() <= limits[k].NextReset()
  }

  /** Every limit of a peer that has not sent a request since it left is marked with its exact reset time. */
  ghost predicate Marked(pending: Pending, limits: Limits, gone: set<nat>) {
    forall k | k in limits && k.peer in gone ::
      k in pending.byKey && pending.byKey[k].NextReset() == limits[k].NextReset()
  }

  lemma PutFlattens(active: Active, limits: Limits, k: Key, limit: RateLimit)
    requires Flattens(active, limits)
    ensures Flattens(active[k.peer := Of(active, k.peer)[k.id := limit]], limits[k := limit])
  {
    var active' := active[k.peer := Of(active, k.peer)[k.id := limit]];
    assert k.id in active'[k.peer];
    forall x: Key ensures Find(active', x) == Lookup(limits[k := limit], x) {
      assert Find(active, x) == Lookup(limits, x);
    }
  }

  /** The limits of one peer are replaced, and the peer goes if it has none. */
  function Replaced(active: Active, p: nat, rest: map<nat, RateLimit>): Active {
    if rest == map[] then active - {p} else active[p := rest]
  }

  lemma ReplacedFlattens(active: Active, limits: Limits, p: nat, rest: map<nat, RateLimit>, limits': Limits)
    requires Flattens(active, limits) && p in active
    requires forall k: Key :: Lookup(limits', k) == if k.peer == p then Lookup1(rest, k.id) else Lookup(limits, k)
    ensures Flattens(Replaced(active, p, rest), limits')
  {
    forall x: Key ensures Find(Replaced(active, p, rest), x) == Lookup(limits', x) {
      assert Find(active, x) == Lookup(limits, x);
    }
  }

  lemma RemoveFlattens(active: Active, limits: Limits, k: Key)
    requires Flattens(active, limits) && k.peer in active
    ensures Flattens(Replaced(active, k.peer, active[k.peer] - {k.id}), limits - {k})
  {
    var rest := active[k.peer] - {k.id};
    forall x: Key
      ensures Lookup(limits - {k}, x) == if x.peer == k.peer then Lookup1(rest, x.id) else Lookup(limits, x)
    {
      assert Find(active, x) == Lookup(limits, x);
    }
    ReplacedFlattens(active, limits, k.peer, rest, limits - {k});
  }

  function Lookup1(ofPeer: map<nat, RateLimit>, id: nat): Option<RateLimit> {
    if id in ofPeer then Some(ofPeer[id]) else None
  }

  /** The limits of a peer that cannot be deleted. */
  function Counting(ofPeer: map<nat, RateLimit>, now: nat): map<nat, RateLimit> {
    map id | id in ofPeer && !ofPeer[id].CanDelete(now) :: ofPeer[id]
  }

  ghost function Retained(limits: Limits, peer: nat, now: nat): Limits {
    map k | k in limits && (k.peer == peer ==> !limits[k].CanDelete(now)) :: limits[k]
  }

  /** The mark of `k` after the limits of `peer` are marked, except for `todo`. */
  function MarkAfter(byKey: map<Key, RateLimit>, peer: nat, ofPeer: map<nat, RateLimit>, todo: set<nat>,
                     now: nat, k: Key): Option<RateLimit> {
    if k.peer == peer && k.id in ofPeer && k.id !in todo && !ofPeer[k.id].CanDelete(now) then Some(ofPeer[k.id])
    else Lookup(byKey, k)
  }

  lemma MarkOne(byKey: map<Key, RateLimit>, marked: map<Key, RateLimit>, marked': map<Key, RateLimit>, peer: nat,
                ofPeer: map<nat, RateLimit>, todo: set<nat>, id: nat, now: nat)
    requires id in ofPeer && id in todo
    requires forall k: Key :: Lookup(marked, k) == MarkAfter(byKey, peer, ofPeer, todo, now, k)
    requires marked' == if ofPeer[id].CanDelete(now) then marked else marked[Key(peer, id) := ofPeer[id]]
    ensures forall k: Key :: Lookup(marked', k) == MarkAfter(byKey, peer, ofPeer, todo - {id}, now, k)
  {
    forall k: Key ensures Lookup(marked', k) == MarkAfter(byKey, peer, ofPeer, todo - {id}, now, k) {
      assert Lookup(marked, k) == MarkAfter(byKey, peer, ofPeer, todo, now, k);
    }
  }

  lemma AbsentPeer(active: Active, limits: Limits, peer: nat)
    requires Flattens(active, limits) && peer !in active
    ensures forall k | k in limits :: k.peer != peer
  {
    forall k | k in limits ensures k.peer != peer { assert Find(active, k) == Lookup(limits, k); }
  }

  lemma RetainFlattens(active: Active, limits: Limits, peer: nat, now: nat)
    requires Flattens(active, limits) && peer in active
    ensures Flattens(Replaced(active, peer, Counting(active[peer], now)), Retained(limits, peer, now))
  {
    var rest, limits' := Counting(active[peer], now), Retained(limits, peer, now);
    forall k: Key ensures Lookup(limits', k) == if k.peer == peer then Lookup1(rest, k.id) else Lookup(limits, k) {
      assert Find(active, k) == Lookup(limits, k);
    }
    ReplacedFlattens(active, limits, peer, rest, limits');
  }

  /** Marking is exact for the peer that leaves, and no mark is left without its limit. */
  lemma RetainKeepsTracked(before: Pending, after: Pending, active: Active, limits: Limits, gone: set<nat>,
                           peer: nat, now: nat, configs: Configs)
    requires Flattens(active, limits) && peer in active && Proper(configs, limits)
    requires Backed(before, limits) && Marked(before, limits, gone)
    requires forall k | k in before.byKey :: before.byKey[k].NextReset() > now
    requires forall k: Key :: Lookup(after.byKey, k) == MarkAfter(before.byKey, peer, active[peer], {}, now, k)
    ensures Backed(after, Retained(limits, peer, now)) && Marked(after, Retained(limits, peer, now), gone + {peer})
    ensures Forgets(limits, Retained(limits, peer, now), now) && Proper(configs, Retained(limits, peer, now))
    ensures forall k | k in after.byKey :: after.byKey[k].NextReset() > now
  {
    var limits' := Retained(limits, peer, now);
    forall k | k in after.byKey ensures k in limits' && now < after.byKey[k].NextReset() <= limits'[k].NextReset() {
      assert Find(active, k) == Lookup(limits, k);
      assert Lookup(after.byKey, k) == MarkAfter(before.byKey, peer, active[peer], {}, now, k);
    }
    forall k | k in limits' && k.peer in gone + {peer}
      ensures k in after.byKey && after.byKey[k].NextReset() == limits'[k].NextReset()
    {
      assert Find(active, k) == Lookup(limits, k);
      assert Lookup(after.byKey, k) == MarkAfter(before.byKey, peer, active[peer], {}, now, k);
    }
  }

  lemma ForgetsTransitive(a: Limits, b: Limits, c: Limits, now: nat)
    requires Forgets(a, b, now) && Forgets(b, c, now)
    ensures Forgets(a, c, now)
  {}

  function Expired(limits: Limits, k: Key, now: nat): Limits
    requires k in limits
  {
    if limits[k].CanDelete(now) then limits - {k} else limits
  }

  /** An expired mark always has its limit. If the limit stays, its peer is not gone. */
  lemma ExpireKeepsTracked(before: Pending, after: Pending, limits: Limits, gone: set<nat>, e: Expiration,
                           now: nat, configs: Configs)
    requires before.Valid() && Backed(before, limits) && Marked(before, limits, gone) && Proper(configs, limits)
    requires e in before.byExpiration && e.time <= now
    requires after == Pending(before.byKey - {e.key}, before.byExpiration - {e})
    ensures e.key in limits && |after.byExpiration| < |before.byExpiration|
    ensures Backed(after, Expired(limits, e.key, now)) && Marked(after, Expired(limits, e.key, now), gone)
    ensures Forgets(limits, Expired(limits, e.key, now), now) && Proper(configs, Expired(limits, e.key, now))
  {
    assert before.byExpiration == after.byExpiration + {e};
  }

  class RateLimits {
    ghost const configs: Configs
    var active: Active
    var pending: Pending
    /** The active limits by key. */
    ghost var limits: Limits
    /** The peers that left and have not sent a request since. */
    ghost var gone: set<nat>
    ghost var clock: nat

    ghost predicate Flat()
      reads this`active, this`limits
    {
      Flattens(active, limits)
    }

    ghost predicate Counted()
      reads this`limits, this`clock
    {
      Proper(configs, limits) && Started(limits, clock)
    }

    ghost predicate Tracked()
      reads this`limits, this`pending, this`gone
    {
      pending.Valid() && Backed(pending, limits) && Marked(pending, limits, gone)
    }

    ghost predicate Valid()
      reads this
    {
      Flat() && Counted() && Tracked()
    }

    constructor (configs: Configs)
      ensures Valid() && this.configs == configs && limits == map[] && clock == 0
    {
      this.configs := configs;
      active := map[];
      pending := Pending(map[], {});
      limits := map[];
      gone := {};
      clock := 0;
    }

    /** Counts a request and says whether it exceeds the limit. */
    method ExceedsRateLimit(k: Key, config: Config, created: nat, now: nat) returns (exceeded: bool)
      requires Valid() && config == configs(k.id) && clock <= created <= now
      modifies `active, `limits, `gone, `clock
      ensures Valid() && clock == now && gone == old(gone) - {k.peer}
      ensures Transition(configs, Request(k, created, now), old(limits), limits, exceeded)
    {
      var ofPeer := if k.peer in active then active[k.peer] else map[];
      var limit := if k.id in ofPeer then ofPeer[k.id] else New(config, created);
      assert Find(active, k) == Lookup(limits, k);
      limit := limit.Increment(now);
      PutFlattens(active, limits, k, limit);
      active := active[k.peer := ofPeer[k.id := limit]];
      limits := limits[k := limit];
      gone := gone - {k.peer};
      clock := now;
      exceeded := !limit.IsAllowed();
    }

    /** Takes the entry that expires first, if its time has come. */
    method PopFirstIfExpired(now: nat) returns (r: Option<Expiration>)
      requires pending.Valid()
      modifies `pending
      ensures pending.Valid()
      ensures r.None? ==> pending == old(pending) && forall e | e in pending.byExpiration :: e.time > now
      ensures r.Some? ==> r.value in old(pending).byExpiration && r.value.time <= now
      ensures r.Some? ==> pending == Pending(old(pending).byKey - {r.value.key}, old(pending).byExpiration - {r.value})
    {
      if pending.byExpiration == {} { return None; }
      FirstExists(pending.byExpiration);
      var first :| IsFirst(first, pending.byExpiration);
      if first.time > now { return None; }
      assert first.key in pending.byKey;
      pending := Pending(pending.byKey - {first.key}, pending.byExpiration - {first});
      r := Some(first);
    }

    /** Marks a limit for deletion, and replaces an earlier mark. */
    method InsertPending(k: Key, limit: RateLimit)
      requires pending.Valid()
      modifies `pending
      ensures pending.Valid() && pending.byKey == old(pending).byKey[k := limit]
    {
      var byExpiration := pending.byExpiration;
      if k in pending.byKey {
        byExpiration := byExpiration - {Expiration(pending.byKey[k].NextReset(), k)};
      }
      pending := Pending(pending.byKey[k := limit], byExpiration + {Expiration(limit.NextReset(), k)});
    }

    /** Deletes the limit of an expired mark, unless the peer has used it since. */
    method Expire(k: Key, now: nat)
      requires Flat() && k in limits
      modifies `active, `limits
      ensures Flat() && limits == Expired(old(limits), k, now)
    {
      assert Find(active, k) == Lookup(limits, k);
      assert k.peer in active && k.id in active[k.peer];
      if active[k.peer][k.id].CanDelete(now) {
        RemoveFlattens(active, limits, k);
        active := Replaced(active, k.peer, active[k.peer] - {k.id});
        limits := limits - {k};
      }
    }

    /** Takes one expired mark and deletes its limit. */
    method CleanUpOne(now: nat) returns (done: bool)
      requires Flat() && Proper(configs, limits) && Tracked()
      modifies `active, `limits, `pending
      ensures Flat() && Proper(configs, limits) && Tracked() && Forgets(old(limits), limits, now)
      ensures done ==> forall e | e in pending.byExpiration :: e.time > now
      ensures !done ==> |pending.byExpiration| < |old(pending).byExpiration|
    {
      var next := PopFirstIfExpired(now);
      if next.None? { return true; }
      ExpireKeepsTracked(old(pending), pending, limits, gone, next.value, now, configs);
      Expire(next.value.key, now);
      done := false;
    }

    /** Deletes the marked limits whose time has come. */
    method CleanUp(now: nat)
      requires Flat() && Proper(configs, limits) && Tracked()
      modifies `active, `limits, `pending
      ensures Flat() && Proper(configs, limits) && Tracked() && Forgets(old(limits), limits, now)
      ensures forall k | k in pending.byKey :: pending.byKey[k].NextReset() > now
    {
      var done := false;
      while !done
        invariant Flat() && Proper(configs, limits) && Tracked() && Forgets(old(limits), limits, now)
        invariant done ==> forall e | e in pending.byExpiration :: e.time > now
        decreases !done, |pending.byExpiration|
      {
        ghost var before := limits;
        done := CleanUpOne(now);
        ForgetsTransitive(old(limits), before, limits, now);
      }
    }

    /** Marks the limits of a peer that still count, and returns them without the others. */
    method RetainLimits(peer: nat, ofPeer: map<nat, RateLimit>, now: nat) returns (rest: map<nat, RateLimit>)
      requires pending.Valid()
      modifies `pending
      ensures pending.Valid() && rest == Counting(ofPeer, now)
      ensures forall k: Key :: Lookup(pending.byKey, k) == MarkAfter(old(pending).byKey, peer, ofPeer, {}, now, k)
    {
      rest := ofPeer;
      var todo := ofPeer.Keys;
      while todo != {}
        invariant pending.Valid() && todo <= ofPeer.Keys
        invariant rest.Keys <= ofPeer.Keys && forall id | id in rest :: rest[id] == ofPeer[id]
        invariant forall id | id in ofPeer :: id in rest <==> id in todo || !ofPeer[id].CanDelete(now)
        invariant forall k: Key :: Lookup(pending.byKey, k) == MarkAfter(old(pending).byKey, peer, ofPeer, todo, now, k)
        decreases |todo|
      {
        var id :| id in todo;
        var limit := rest[id];
        ghost var marked := pending.byKey;
        if !limit.CanDelete(now) {
          InsertPending(Key(peer, id), limit);
        } else {
          rest := rest - {id};
        }
        MarkOne(old(pending).byKey, marked, pending.byKey, peer, ofPeer, todo, id, now);
        todo := todo - {id};
      }
    }

    /** Marks the limits of a peer that leaves, and deletes those that count nothing. */
    method RemoveRateLimits(peer: nat, now: nat)
      requires Valid() && clock <= now
      modifies this
      ensures Valid() && clock == now && gone == old(gone) + {peer}
      ensures Transition(configs, Disconnect(peer, now), old(limits), limits, false)
      ensures forall k | k in limits && k.peer in gone :: limits[k].NextReset() > now
    {
      CleanUp(now);
      if peer in active {
        ghost var marked, cleaned := pending, limits;
        var rest := RetainLimits(peer, active[peer], now);
        RetainFlattens(active, limits, peer, now);
        RetainKeepsTracked(marked, pending, active, limits, gone, peer, now, configs);
        active := Replaced(active, peer, rest);
        limits := Retained(limits, peer, now);
        ForgetsTransitive(old(limits), cleaned, limits, now);
      } else {
        AbsentPeer(active, limits, peer);
      }
      gone := gone + {peer};
      clock := now;
    }
  }

  // ---------- Whole runs ----------

  /** Every run of the limiter keeps its invariant and is a trace of a limiter that forgets only what has expired. */
  method Run(limiter: RateLimits, configs: Configs, events: seq<Event>) returns (answers: seq<bool>,
             ghost states: seq<Limits>)
    requires limiter.Valid() && limiter.configs == configs && limiter.limits == map[] && limiter.clock == 0
    requires Monotone(events)
    modifies limiter
    ensures limiter.Valid() && Trace(configs, events, states, answers) && states[|events|] == limiter.limits
  {
    answers, states := [], [map[]];
    for i := 0 to |events|
      invariant limiter.Valid() && limiter.configs == configs && limiter.clock == Clock(events, i)
      invariant |states| == i + 1 && |answers| == i && states[0] == map[] && states[i] == limiter.limits
      invariant forall j | 0 <= j < i :: Transition(configs, events[j], states[j], states[j + 1], answers[j])
    {
      assert OrderedAt(events, i);
      var exceeded := false;
      match events[i] {
        case Request(k, created, now) => exceeded := limiter.ExceedsRateLimit(k, configs(k.id), created, now);
        case Disconnect(peer, now) => limiter.RemoveRateLimits(peer, now);
      }
      answers, states := answers + [exceeded], states + [limiter.limits];
    }
  }

  /** The example run on the class: the request at second 30 is allowed, while a limiter that never forgets refuses
      it. */
  method RunExample(k: Key) returns (answers: seq<bool>)
    ensures answers == [false, false, false, false]
    ensures KeptAnswer(_ => Config(1, 10), ExampleEvents(k), 3)
  {
    var configs: Configs := _ => Config(1, 10);
    ForgettingExample(configs, k);
    var limiter := new RateLimits(configs);
    var first := limiter.ExceedsRateLimit(k, Config(1, 10), 0, 0);
    limiter.RemoveRateLimits(k.peer, 10);
    assert k !in limiter.limits;
    var second := limiter.ExceedsRateLimit(k, Config(1, 10), 20, 21);
    var third := limiter.ExceedsRateLimit(k, Config(1, 10), 30, 30);
    answers := [first, false, second, third];
  }
}
