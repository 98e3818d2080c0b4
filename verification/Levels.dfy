/** The levels of the aggregation and the round-robin over their peers. */
module Levels {
  import opened BinomialPartitioner

  /** `nextPeerIndex` counts positions in the ascending order of the peers. */
  datatype Level = Level(id: nat, peerIds: set<nat>, started: bool, complete: bool, nextPeerIndex: nat) {

    predicate Valid() {
      peerIds != {} ==> nextPeerIndex < |peerIds|
    }
  }

  // ---------- Iteration over an identity ----------

  predicate Ascends(s: seq<nat>) {
    forall i: nat, j: nat | i < j < |s| :: s[i] < s[j]
  }

  lemma {:induction false} LeastExists(s: set<nat>) returns (m: nat)
    requires s != {}
    ensures m in s && forall x | x in s :: m <= x
  {
    var first :| first in s;
    if exists x :: x in s && x < first {
      var smaller :| smaller in s && smaller < first;
      var rest := s - {first};
      assert smaller in rest;
      m := LeastExists(rest);
      assert forall x | x in s :: x in rest || x == first;
    } else {
      m := first;
    }
  }

  function Least(s: set<nat>): (m: nat)
    requires s != {}
    ensures m in s && forall x | x in s :: m <= x
  {
    assert exists m :: m in s && forall x | x in s :: m <= x by { var m := LeastExists(s); }
    var m :| m in s && forall x | x in s :: m <= x;
    m
  }

  /** The ids in the order in which an identity is iterated. */
  function Ascending(s: set<nat>): (r: seq<nat>)
    ensures |r| == |s| && Ascends(r)
    ensures forall x :: x in r <==> x in s
  {
    if s == {} then [] else
      var m := Least(s);
      [m] + Ascending(s - {m})
  }

  // ---------- Creation ----------

  /** The levels of a new aggregation: only level 0 is started, and every other level starts its
      round-robin at the position that this node has on its own side of the tree. */
  ghost predicate Created(p: Partitioner, i: nat, level: Level) {
    && level.id == i && level.peerIds == p.Level(i) && level.started == (i == 0) && !level.complete
    && level.Valid()
    && (i > 0 && level.peerIds != {} ==>
          exists index: nat :: index < |Ascending(p.UpTo(i - 1))|
            && Ascending(p.UpTo(i - 1))[index] == p.nodeId && level.nextPeerIndex == index % |level.peerIds|)
  }

  /** Creates a level above 0, given the ids on this node's side of the tree. */
  method CreateLevel(p: Partitioner, i: nat, lhs: set<nat>) returns (level: Level)
    requires p.Valid() && 0 < i < p.numLevels && lhs == p.UpTo(i - 1)
    ensures Created(p, i, level)
  {
    IdentitiesOnIsLevel(p, i);
    match p.IdentitiesOn(i) {
      case Ok(rhs) =>
        LevelInUpTo(p, 0, i - 1);
        // The source panics if the node is missing from its side of the tree.
        assert p.nodeId in p.Level(0);
        var index := Position(Ascending(lhs), p.nodeId);
        level := Level(i, rhs, false, false, index % |rhs|);
      case Err(_) =>
        level := Level(i, {}, false, false, 0);
    }
  }

  method CreateLevels(p: Partitioner) returns (levels: seq<Level>)
    requires p.Valid()
    ensures |levels| == p.numLevels
    ensures forall i: nat | i < p.numLevels :: Created(p, i, levels[i])
  {
    IdentitiesOnIsLevel(p, 0);
    UpToGrows(p, 0);
    levels := [Level(0, {p.nodeId}, true, false, 0)];
    var lhs := {p.nodeId};
    for i := 1 to p.numLevels
      invariant |levels| == i && lhs == p.UpTo(i - 1)
      invariant forall j: nat | j < i :: Created(p, j, levels[j])
    {
      var level := CreateLevel(p, i, lhs);
      levels := levels + [level];
      UpToGrows(p, i - 1);
      lhs := lhs + level.peerIds;
    }
  }

  function Position(s: seq<nat>, x: nat): (i: nat)
    requires x in s
    ensures i < |s| && s[i] == x
  {
    if s[0] == x then 0 else 1 + Position(s[1..], x)
  }

  // ---------- Round-robin ----------

  /** The peers in the order in which the next selections reach them. */
  function Rotated(level: Level): seq<nat> {
    var peers := Ascending(level.peerIds);
    if level.Valid() && peers != [] then peers[level.nextPeerIndex..] + peers[..level.nextPeerIndex] else peers
  }

  function Elements(s: seq<nat>): set<nat> {
    set x | x in s
  }

  function Selected(level: Level, count: nat): set<nat> {
    if level.id == 0 || level.peerIds == {} then {}
    else Elements(Rotated(level)[..Min(count, |level.peerIds|)])
  }

  function Advance(level: Level, count: nat): Level {
    if level.id == 0 || level.peerIds == {} then level
    else level.(nextPeerIndex := Around(level.nextPeerIndex, Min(count, |level.peerIds|), |level.peerIds|))
  }

  /** `m` positions further, back to the start at the end; `m` is at most one round. */
  function Around(i: nat, m: nat, n: nat): nat {
    if i + m < n then i + m else i + m - n
  }

  /** The index after `m` more selections, as the source computes it. */
  method NextIndex(i: nat, m: nat, n: nat) returns (next: nat)
    requires i < n && m <= n
    ensures next == Around(i, m, n)
  {
    var x := i + m;
    next := x % n;
    ghost var q := x / n;
    assert x == n * q + next;
    if q < 0 { MulMonotone(n, q, -1); }
    if q > 1 { MulMonotone(n, 2, q); }
    if q == 1 { assert n * q == n; } else { assert n * q == 0; }
  }

  lemma MulMonotone(n: nat, a: int, b: int)
    requires a <= b
    ensures n * a <= n * b
  {
    assert n * b - n * a == n * (b - a);
  }

  /** Selects the next `count` peers and moves the index past them. */
  method SelectNextPeers(level: Level, count: nat) returns (selected: set<nat>, next: Level)
    requires level.Valid()
    ensures selected == Selected(level, count) && next == Advance(level, count) && next.Valid()
    ensures selected <= level.peerIds
  {
    if level.id == 0 || level.peerIds == {} {
      return {}, level;
    }
    var numPeers := Min(count, |level.peerIds|);
    var identities := Rotated(level);
    selected := {};
    for i := 0 to numPeers
      invariant selected == Elements(identities[..i]) && selected <= level.peerIds
    {
      // The source panics if a peer is selected twice.
      assert identities[i] !in selected by { RotatedIsDistinct(level, i); }
      ElementsGrow(identities, i);
      selected := selected + {identities[i]};
    }
    var index := NextIndex(level.nextPeerIndex, numPeers, |level.peerIds|);
    next := level.(nextPeerIndex := index);
  }

  lemma ElementsGrow(s: seq<nat>, i: nat)
    requires i < |s|
    ensures Elements(s[..i + 1]) == Elements(s[..i]) + {s[i]}
  {
    assert s[..i + 1] == s[..i] + [s[i]];
  }

  lemma RotatedIsDistinct(level: Level, i: nat)
    requires level.Valid() && i < |level.peerIds|
    ensures Rotated(level)[i] !in Elements(Rotated(level)[..i]) && Rotated(level)[i] in level.peerIds
  {
    var peers, rotated := Ascending(level.peerIds), Rotated(level);
    forall t: nat | t < i ensures rotated[..i][t] != rotated[i] {
      RotatedAt(level, t);
      RotatedAt(level, i);
      var a, b := Around(level.nextPeerIndex, t, |peers|), Around(level.nextPeerIndex, i, |peers|);
      assert a < b || b < a;
    }
  }

  lemma RotatedAt(level: Level, t: nat)
    requires level.Valid() && t < |level.peerIds|
    ensures Rotated(level)[t] == Ascending(level.peerIds)[Around(level.nextPeerIndex, t, |level.peerIds|)]
  {}

  // ---------- Fairness ----------

  /** The levels after each of `counts` was requested in turn. */
  function AdvanceAll(level: Level, counts: seq<nat>): Level {
    if counts == [] then level else Advance(AdvanceAll(level, counts[..|counts| - 1]), counts[|counts| - 1])
  }

  /** In how many of these requests `chosen` held of the level and the requested count. */
  function CountRequests(level: Level, counts: seq<nat>, chosen: (Level, nat) -> bool): nat {
    if counts == [] then 0 else
      var before := counts[..|counts| - 1];
      CountRequests(level, before, chosen)
      + (if chosen(AdvanceAll(level, before), counts[|counts| - 1]) then 1 else 0)
  }

  /** In how many of these requests `peer` was selected. */
  function Selections(level: Level, counts: seq<nat>, peer: nat): nat {
    CountRequests(level, counts, Chooses(peer))
  }

  function Chooses(peer: nat): (Level, nat) -> bool {
    (at: Level, count: nat) => peer in Selected(at, count)
  }

  /** The number of peers handed out by the requests. */
  function Total(counts: seq<nat>, n: nat): nat {
    if counts == [] then 0 else Total(counts[..|counts| - 1], n) + Min(counts[|counts| - 1], n)
  }

  function Step(i: nat, n: nat): nat {
    if i + 1 == n then 0 else i + 1
  }

  /** The position reached from `i` after `t` steps around `n` positions. */
  function Walk(i: nat, t: nat, n: nat): nat
    decreases t
  {
    if t == 0 then i else Walk(Step(i, n), t - 1, n)
  }

  /** How often these steps leave from position `j`. */
  function Hits(i: nat, t: nat, j: nat, n: nat): nat
    decreases t
  {
    if t == 0 then 0 else (if i == j then 1 else 0) + Hits(Step(i, n), t - 1, j, n)
  }

  /** The number of full rounds in `t` steps. */
  function Rounds(t: nat, n: nat): nat
    requires n > 0
  {
    if t < n then 0 else 1 + Rounds(t - n, n)
  }

  /** The steps from `i` to `j` around `n` positions. */
  function Distance(i: nat, j: nat, n: nat): nat
    requires i < n && j < n
  {
    if i <= j then j - i else j + n - i
  }

  lemma {:induction false} HitsAdd(i: nat, a: nat, b: nat, j: nat, n: nat)
    ensures Hits(i, a + b, j, n) == Hits(i, a, j, n) + Hits(Walk(i, a, n), b, j, n)
    decreases a
  {
    if a > 0 { HitsAdd(Step(i, n), a - 1, b, j, n); }
  }

  lemma {:induction false} WalkAdd(i: nat, a: nat, b: nat, n: nat)
    ensures Walk(i, a + b, n) == Walk(Walk(i, a, n), b, n)
    decreases a
  {
    if a > 0 { WalkAdd(Step(i, n), a - 1, b, n); }
  }

  /** Within one round a position is reached at most once. */
  lemma {:induction false} OneRound(i: nat, t: nat, j: nat, n: nat)
    requires i < n && j < n && t <= n
    ensures Hits(i, t, j, n) == if Distance(i, j, n) < t then 1 else 0
    ensures Walk(i, t, n) == Around(i, t, n)
    decreases t
  {
    if t > 0 { OneRound(Step(i, n), t - 1, j, n); }
  }

  lemma {:induction false} HitsPerRound(i: nat, t: nat, j: nat, n: nat)
    requires i < n && j < n
    ensures Rounds(t, n) <= Hits(i, t, j, n) <= Rounds(t, n) + 1
  {
    if t < n {
      OneRound(i, t, j, n);
    } else {
      OneRound(i, n, j, n);
      HitsAdd(i, n, t - n, j, n);
      HitsPerRound(i, t - n, j, n);
    }
  }

  /** One request selects the peers that are fewer steps away than it asks for. */
  lemma SelectedIsNear(level: Level, count: nat, j: nat)
    requires level.Valid() && level.id > 0 && j < |level.peerIds|
    ensures Ascending(level.peerIds)[j] in Selected(level, count)
            <==> Distance(level.nextPeerIndex, j, |level.peerIds|) < Min(count, |level.peerIds|)
  {
    var peers, n := Ascending(level.peerIds), |level.peerIds|;
    var d, m := Distance(level.nextPeerIndex, j, n), Min(count, n);
    var rotated := Rotated(level);
    assert rotated[d] == peers[j];
    if d < m {
      assert rotated[..m][d] == peers[j];
    } else {
      RotatedIsDistinct(level, d);
      PrefixElements(rotated, m, d);
    }
  }

  lemma PrefixElements(s: seq<nat>, m: nat, n: nat)
    requires m <= n <= |s|
    ensures Elements(s[..m]) <= Elements(s[..n])
  {}

  lemma AdvanceIsWalk(level: Level, count: nat)
    requires level.Valid() && level.id > 0 && level.peerIds != {}
    ensures var n := |level.peerIds|;
            Advance(level, count).nextPeerIndex == Walk(level.nextPeerIndex, Min(count, n), n)
  {
    var n := |level.peerIds|;
    OneRound(level.nextPeerIndex, Min(count, n), 0, n);
  }

  lemma {:induction false} AdvanceAllIsWalk(level: Level, counts: seq<nat>)
    requires level.Valid() && level.id > 0 && level.peerIds != {}
    ensures AdvanceAll(level, counts).Valid()
    ensures AdvanceAll(level, counts)
         == level.(nextPeerIndex := Walk(level.nextPeerIndex, Total(counts, |level.peerIds|), |level.peerIds|))
  {
    if counts != [] {
      var n, before, count := |level.peerIds|, counts[..|counts| - 1], counts[|counts| - 1];
      AdvanceAllIsWalk(level, before);
      AdvanceIsWalk(AdvanceAll(level, before), count);
      WalkAdd(level.nextPeerIndex, Total(before, n), Min(count, n), n);
    }
  }

  lemma {:induction false} RequestsAreHits(level: Level, counts: seq<nat>, chosen: (Level, nat) -> bool, j: nat)
    requires level.Valid() && level.id > 0 && j < |level.peerIds|
    requires forall i: nat, count: nat | i < |level.peerIds| ::
               chosen(level.(nextPeerIndex := i), count)
               <==> Distance(i, j, |level.peerIds|) < Min(count, |level.peerIds|)
    ensures CountRequests(level, counts, chosen)
         == Hits(level.nextPeerIndex, Total(counts, |level.peerIds|), j, |level.peerIds|)
  {
    if counts != [] {
      var n, before, count := |level.peerIds|, counts[..|counts| - 1], counts[|counts| - 1];
      var i, total := level.nextPeerIndex, Total(before, n);
      RequestsAreHits(level, before, chosen, j);
      AdvanceAllIsWalk(level, before);
      OneRound(Walk(i, total, n), Min(count, n), j, n);
      HitsAdd(i, total, Min(count, n), j, n);
    }
  }

  /** Over any requests, a peer is selected as often as the round-robin leaves from its position. */
  lemma SelectionsAreHits(level: Level, counts: seq<nat>, peer: nat, j: nat)
    requires level.Valid() && level.id > 0 && j < |level.peerIds| && Ascending(level.peerIds)[j] == peer
    ensures Selections(level, counts, peer)
         == Hits(level.nextPeerIndex, Total(counts, |level.peerIds|), j, |level.peerIds|)
  {
    forall i: nat, count: nat | i < |level.peerIds|
      ensures Chooses(peer)(level.(nextPeerIndex := i), count)
              <==> Distance(i, j, |level.peerIds|) < Min(count, |level.peerIds|)
    {
      SelectedIsNear(level.(nextPeerIndex := i), count, j);
    }
    RequestsAreHits(level, counts, Chooses(peer), j);
  }

  /** Whatever counts are requested, no peer is selected more than once more often than another. */
  lemma RoundRobinIsFair(level: Level, counts: seq<nat>, a: nat, b: nat)
    requires level.Valid() && level.id > 0 && a in level.peerIds && b in level.peerIds
    ensures Selections(level, counts, a) <= Selections(level, counts, b) + 1
  {
    var peers, n := Ascending(level.peerIds), |level.peerIds|;
    var i, j := Position(peers, a), Position(peers, b);
    SelectionsAreHits(level, counts, a, i);
    SelectionsAreHits(level, counts, b, j);
    HitsPerRound(level.nextPeerIndex, Total(counts, n), i, n);
    HitsPerRound(level.nextPeerIndex, Total(counts, n), j, n);
  }

  /** Requests that together ask for as many peers as the level has reach every peer. */
  lemma RoundRobinReachesEveryone(level: Level, counts: seq<nat>, peer: nat)
    requires level.Valid() && level.id > 0 && peer in level.peerIds
    requires Total(counts, |level.peerIds|) >= |level.peerIds|
    ensures Selections(level, counts, peer) >= 1
  {
    var peers, n := Ascending(level.peerIds), |level.peerIds|;
    var j := Position(peers, peer);
    SelectionsAreHits(level, counts, peer, j);
    HitsPerRound(level.nextPeerIndex, Total(counts, n), j, n);
  }
}
