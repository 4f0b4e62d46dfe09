/**
 * Race places: RaceManager.PlaceComparer, the sort of the agents by it, and
 * the places 1..M handed out in sorted order. Aircraft are named by their
 * handle, their position in the area's list of agents.
 */
module Ranking {
  import opened RaceStatus
  import Arithmetic

  /** Checkpoints completed: the recorded checkpoint plus a full track per finished lap. */
  function Key(s: AircraftStatus, count: int): int {
    s.checkpointIndex + (s.lap - 1) * count
  }

  /** int.CompareTo. */
  function CompareInts(x: int, y: int): int {
    if x < y then -1 else if x > y then 1 else 0
  }

  /** float.CompareTo, on reals. */
  function CompareReals(x: real, y: real): int {
    if x < y then -1 else if x > y then 1 else 0
  }

  /** Every recorded checkpoint index lies on the track. */
  predicate IndicesInRange(st: seq<AircraftStatus>, count: int) {
    forall k :: 0 <= k < |st| ==> 0 <= st[k].checkpointIndex < count
  }

  /** Every handle in s names a status. */
  predicate HandlesIn(s: seq<nat>, m: nat) {
    forall i :: 0 <= i < |s| ==> s[i] < m
  }

  /**
   * PlaceComparer(a, b): negative when a ranks ahead of b. More checkpoints
   * completed is ahead; on a tie, the aircraft closer to a's next checkpoint
   * is ahead. distance(h, c) is the distance from aircraft h to checkpoint c.
   */
  function PlaceComparer(st: seq<AircraftStatus>, count: int, distance: (nat, int) -> real, a: nat, b: nat): (c: int)
    requires a < |st| && b < |st|
    ensures -1 <= c <= 1
  {
    var checkpointA := Key(st[a], count);
    var checkpointB := Key(st[b], count);
    if checkpointA == checkpointB then
      var next := st[a].checkpointIndex;
      CompareReals(distance(a, next), distance(b, next))
    else
      -1 * CompareInts(checkpointA, checkpointB)
  }

  /**
   * The intended order, stated on each aircraft's own next checkpoint: more
   * checkpoints completed, or as many and closer to its next checkpoint.
   */
  predicate RanksAhead(st: seq<AircraftStatus>, count: int, distance: (nat, int) -> real, a: nat, b: nat)
    requires a < |st| && b < |st|
  {
    Key(st[a], count) > Key(st[b], count) ||
    (Key(st[a], count) == Key(st[b], count) &&
     distance(a, st[a].checkpointIndex) < distance(b, st[b].checkpointIndex))
  }

  /** With indices on the track, equal keys mean the same checkpoint on the same lap. */
  lemma EqualKeysSameCheckpoint(x: AircraftStatus, y: AircraftStatus, count: int)
    requires 0 <= x.checkpointIndex < count && 0 <= y.checkpointIndex < count
    requires Key(x, count) == Key(y, count)
    ensures x.checkpointIndex == y.checkpointIndex && x.lap == y.lap
  {
    assert x.checkpointIndex - y.checkpointIndex == (y.lap - x.lap) * count;
    assert y.checkpointIndex - x.checkpointIndex == (x.lap - y.lap) * count;
    if y.lap > x.lap {
      Arithmetic.MultipleAtLeast(y.lap - x.lap, count);
      assert false;
    } else if y.lap < x.lap {
      Arithmetic.MultipleAtLeast(x.lap - y.lap, count);
      assert false;
    }
  }

  /**
   * PlaceComparer means RanksAhead: although it measures both distances to
   * a's checkpoint, equal keys put both aircraft on the same checkpoint. So
   * it is negative exactly when a ranks ahead, positive exactly when b does,
   * and antisymmetric.
   */
  lemma ComparerRanks(st: seq<AircraftStatus>, count: int, distance: (nat, int) -> real, a: nat, b: nat)
    requires IndicesInRange(st, count) && a < |st| && b < |st|
    ensures PlaceComparer(st, count, distance, a, b) < 0 <==> RanksAhead(st, count, distance, a, b)
    ensures PlaceComparer(st, count, distance, a, b) > 0 <==> RanksAhead(st, count, distance, b, a)
    ensures PlaceComparer(st, count, distance, a, b) == -PlaceComparer(st, count, distance, b, a)
  {
    if Key(st[a], count) == Key(st[b], count) {
      EqualKeysSameCheckpoint(st[a], st[b], count);
    }
  }

  /** "a may precede b" in sorted order. */
  predicate Precedes(st: seq<AircraftStatus>, count: int, distance: (nat, int) -> real, a: nat, b: nat)
    requires a < |st| && b < |st|
  {
    PlaceComparer(st, count, distance, a, b) <= 0
  }

  /** Precedes is a total preorder, as List.Sort requires of its comparer. */
  lemma PrecedesTotalPreorder(st: seq<AircraftStatus>, count: int, distance: (nat, int) -> real, a: nat, b: nat, c: nat)
    requires IndicesInRange(st, count) && a < |st| && b < |st| && c < |st|
    ensures Precedes(st, count, distance, a, b) || Precedes(st, count, distance, b, a)
    ensures Precedes(st, count, distance, a, b) && Precedes(st, count, distance, b, c) ==> Precedes(st, count, distance, a, c)
  {
    ComparerRanks(st, count, distance, a, b);
    ComparerRanks(st, count, distance, b, c);
    ComparerRanks(st, count, distance, a, c);
  }

  predicate SortedByPlace(st: seq<AircraftStatus>, count: int, distance: (nat, int) -> real, s: seq<nat>)
    requires HandlesIn(s, |st|)
  {
    forall i, j :: 0 <= i < j < |s| ==> Precedes(st, count, distance, s[i], s[j])
  }

  /** Insert handle x before the first handle it may precede. */
  function Insert(st: seq<AircraftStatus>, count: int, distance: (nat, int) -> real, x: nat, s: seq<nat>): (r: seq<nat>)
    requires x < |st| && HandlesIn(s, |st|)
    ensures HandlesIn(r, |st|)
    ensures multiset(r) == multiset(s) + multiset{x}
  {
    if s == [] then [x]
    else if Precedes(st, count, distance, x, s[0]) then [x] + s
    else
      assert s == [s[0]] + s[1..];
      [s[0]] + Insert(st, count, distance, x, s[1..])
  }

  /** The ranking sort (List.Sort with PlaceComparer), as an insertion sort. */
  function SortByPlace(st: seq<AircraftStatus>, count: int, distance: (nat, int) -> real, s: seq<nat>): (r: seq<nat>)
    requires HandlesIn(s, |st|)
    ensures HandlesIn(r, |st|)
    ensures multiset(r) == multiset(s)
  {
    if s == [] then []
    else
      assert s == [s[0]] + s[1..];
      Insert(st, count, distance, s[0], SortByPlace(st, count, distance, s[1..]))
  }

  lemma {:induction false} InsertSorted(st: seq<AircraftStatus>, count: int, distance: (nat, int) -> real, x: nat, s: seq<nat>)
    requires IndicesInRange(st, count) && x < |st| && HandlesIn(s, |st|)
    requires SortedByPlace(st, count, distance, s)
    ensures SortedByPlace(st, count, distance, Insert(st, count, distance, x, s))
    decreases |s|
  {
    var r := Insert(st, count, distance, x, s);
    if s == [] {
    } else if Precedes(st, count, distance, x, s[0]) {
      forall j | 0 < j < |r|
        ensures Precedes(st, count, distance, x, r[j])
      {
        if j > 1 {
          PrecedesTotalPreorder(st, count, distance, x, s[0], r[j]);
        }
      }
    } else {
      var rest := Insert(st, count, distance, x, s[1..]);
      InsertSorted(st, count, distance, x, s[1..]);
      PrecedesTotalPreorder(st, count, distance, x, s[0], x);
      forall j | 0 <= j < |rest|
        ensures Precedes(st, count, distance, s[0], rest[j])
      {
        assert rest[j] in multiset(rest);
        if rest[j] != x {
          assert rest[j] in multiset(s[1..]);
          var m :| 0 <= m < |s[1..]| && s[1..][m] == rest[j];
          assert s[m + 1] == rest[j];
        }
      }
    }
  }

  /** The sort orders the handles by place and keeps exactly the same handles. */
  lemma {:induction false} SortByPlaceSorted(st: seq<AircraftStatus>, count: int, distance: (nat, int) -> real, s: seq<nat>)
    requires IndicesInRange(st, count) && HandlesIn(s, |st|)
    ensures SortedByPlace(st, count, distance, SortByPlace(st, count, distance, s))
    decreases |s|
  {
    if s != [] {
      SortByPlaceSorted(st, count, distance, s[1..]);
      InsertSorted(st, count, distance, s[0], SortByPlace(st, count, distance, s[1..]));
    }
  }

  /** The handles 0..m-1 of m aircraft, in list order. */
  function AgentHandles(m: nat): (r: seq<nat>)
    ensures |r| == m && forall i :: 0 <= i < m ==> r[i] == i
  {
    seq(m, i => i)
  }

  /** A reordering of the handles 0..m-1. */
  predicate IsHandleOrder(s: seq<nat>, m: nat) {
    multiset(s) == multiset(AgentHandles(m))
  }

  lemma {:induction false} HandlesOnce(m: nat, x: nat)
    ensures multiset(AgentHandles(m))[x] == if x < m then 1 else 0
    decreases m
  {
    if m > 0 {
      HandlesOnce(m - 1, x);
      assert AgentHandles(m) == AgentHandles(m - 1) + [m - 1];
    }
  }

  /** A reordering of 0..m-1 names every aircraft exactly once. */
  lemma HandleOrderFacts(s: seq<nat>, m: nat)
    requires IsHandleOrder(s, m)
    ensures |s| == m && HandlesIn(s, m)
    ensures forall i, j :: 0 <= i < j < |s| ==> s[i] != s[j]
    ensures forall k :: 0 <= k < m ==> k in s
  {
    assert |s| == |multiset(s)| == |multiset(AgentHandles(m))| == m;
    forall i | 0 <= i < |s|
      ensures s[i] < m
    {
      assert s[i] in multiset(s);
      HandlesOnce(m, s[i]);
    }
    forall k | 0 <= k < m
      ensures k in s
    {
      HandlesOnce(m, k);
      assert k in multiset(s);
    }
    forall i, j | 0 <= i < j < |s|
      ensures s[i] != s[j]
    {
      if s[i] == s[j] {
        var x := s[i];
        assert s == s[..j] + s[j..];
        assert x in multiset(s[..j]) by { assert s[..j][i] == x; }
        assert x in multiset(s[j..]) by { assert s[j..][0] == x; }
        assert multiset(s)[x] == multiset(s[..j])[x] + multiset(s[j..])[x];
        HandlesOnce(m, x);
        assert false;
      }
    }
  }

  /** The loop after the sort: the aircraft at sorted position i gets place i + 1. */
  predicate PlacedInOrder(st: seq<AircraftStatus>, order: seq<nat>)
    requires HandlesIn(order, |st|)
  {
    forall i :: 0 <= i < |order| ==> st[order[i]].place == i + 1
  }

  /** Places come from sorting, so only place fields differ between the two status lists. */
  predicate SameProgress(st: seq<AircraftStatus>, placed: seq<AircraftStatus>) {
    |st| == |placed| &&
    forall k :: 0 <= k < |st| ==> placed[k] == st[k].(place := placed[k].place)
  }

  /** Some aircraft holds place p. */
  predicate PlaceTaken(placed: seq<AircraftStatus>, p: int) {
    exists k :: 0 <= k < |placed| && placed[k].place == p
  }

  /**
   * What a ranking leaves behind: every place in 1..M, no two aircraft on
   * the same place, every place taken, and an aircraft that ranks ahead of
   * another (by the statuses st it was ranked on) on the smaller place.
   */
  predicate PlacesReflectRanking(st: seq<AircraftStatus>, count: int, distance: (nat, int) -> real, placed: seq<AircraftStatus>)
    requires |placed| == |st|
  {
    (forall k :: 0 <= k < |placed| ==> 1 <= placed[k].place <= |placed|) &&
    (forall j, k :: 0 <= j < k < |placed| ==> placed[j].place != placed[k].place) &&
    (forall p :: 1 <= p <= |placed| ==> PlaceTaken(placed, p)) &&
    (forall j, k :: 0 <= j < |st| && 0 <= k < |st| && RanksAhead(st, count, distance, j, k)
       ==> placed[j].place < placed[k].place)
  }

  /** The statuses st with the places of from. */
  function WithPlaces(st: seq<AircraftStatus>, from: seq<AircraftStatus>): (r: seq<AircraftStatus>)
    requires |from| == |st|
    ensures SameProgress(st, r)
    ensures forall k :: 0 <= k < |r| ==> r[k].place == from[k].place
  {
    seq(|st|, k requires 0 <= k < |st| => st[k].(place := from[k].place))
  }

  /**
   * Ranking before ticking changes only places: ticking the ranked statuses
   * gives the unranked ticks with the ranking's places, those places survive
   * the tick, and every tick completes a lap or forces a respawn just as it
   * would have unranked.
   */
  lemma TickAllKeepsPlaces(before: seq<AircraftStatus>, ranked: seq<AircraftStatus>, nexts: seq<int>, bonus: real, dt: real)
    requires SameProgress(before, ranked) && |nexts| == |before|
    ensures TickAll(ranked, nexts, bonus, dt) == WithPlaces(TickAll(before, nexts, bonus, dt), ranked)
    ensures ranked == WithPlaces(before, TickAll(ranked, nexts, bonus, dt))
    ensures forall k :: 0 <= k < |ranked| ==>
              Tick(ranked[k], nexts[k], bonus, dt).respawn == Tick(before[k], nexts[k], bonus, dt).respawn &&
              Tick(ranked[k], nexts[k], bonus, dt).lapCompleted == Tick(before[k], nexts[k], bonus, dt).lapCompleted &&
              Tick(ranked[k], nexts[k], bonus, dt).status.lap == Tick(before[k], nexts[k], bonus, dt).status.lap
  {
    forall k | 0 <= k < |ranked|
      ensures Tick(ranked[k], nexts[k], bonus, dt) ==
              var r := Tick(before[k], nexts[k], bonus, dt); r.(status := r.status.(place := ranked[k].place))
    {
      TickIgnoresPlace(before[k], ranked[k].place, nexts[k], bonus, dt);
    }
  }

  /**
   * After a ranking refresh every aircraft has a place in 1..M, no two share
   * one, every place is taken, and an aircraft that ranks ahead of another
   * has the smaller place.
   */
  lemma RankingPlaces(st: seq<AircraftStatus>, count: int, distance: (nat, int) -> real,
                      order: seq<nat>, placed: seq<AircraftStatus>)
    requires IndicesInRange(st, count)
    requires IsHandleOrder(order, |st|)
    requires HandlesIn(order, |st|) && SortedByPlace(st, count, distance, order)
    requires SameProgress(st, placed) && PlacedInOrder(placed, order)
    ensures forall k :: 0 <= k < |placed| ==> 1 <= placed[k].place <= |placed|
    ensures forall j, k :: 0 <= j < k < |placed| ==> placed[j].place != placed[k].place
    ensures forall p :: 1 <= p <= |placed| ==> PlaceTaken(placed, p)
    ensures forall j, k :: 0 <= j < |st| && 0 <= k < |st| && RanksAhead(st, count, distance, j, k)
              ==> placed[j].place < placed[k].place
  {
    var m := |st|;
    HandleOrderFacts(order, m);
    forall k | 0 <= k < m
      ensures exists i :: 0 <= i < m && order[i] == k && placed[k].place == i + 1
    {
      assert k in order;
      var i :| 0 <= i < m && order[i] == k;
    }
    forall p | 1 <= p <= m
      ensures PlaceTaken(placed, p)
    {
      assert placed[order[p - 1]].place == p;
    }
    forall j, k | 0 <= j < m && 0 <= k < m && RanksAhead(st, count, distance, j, k)
      ensures placed[j].place < placed[k].place
    {
      var i1 :| 0 <= i1 < m && order[i1] == j && placed[j].place == i1 + 1;
      var i2 :| 0 <= i2 < m && order[i2] == k && placed[k].place == i2 + 1;
      ComparerRanks(st, count, distance, k, j);
      if i2 <= i1 {
        assert false;
      }
    }
  }

  /**
   * One ranking, from the statuses st and the previous order before: order
   * is the sorted handles, and placed is st with the places the sort gave,
   * which reflect the ranking.
   */
  predicate RankedFrom(st: seq<AircraftStatus>, count: int, distance: (nat, int) -> real,
                       before: seq<nat>, order: seq<nat>, placed: seq<AircraftStatus>)
  {
    && HandlesIn(before, |st|) && order == SortByPlace(st, count, distance, before)
    && IsHandleOrder(order, |st|) && HandlesIn(order, |st|)
    && SameProgress(st, placed) && PlacedInOrder(placed, order)
    && PlacesReflectRanking(st, count, distance, placed)
  }

  /**
   * Two aircraft on the same checkpoint count, one 10 and one 3 away from its
   * checkpoint: sorting puts the closer one first.
   */
  lemma CloserAircraftSortsFirst(distance: (nat, int) -> real)
    requires distance(0, 1) == 10.0 && distance(1, 1) == 3.0
    ensures var st := [AircraftStatus(1, 2, 0, 15.0), AircraftStatus(1, 2, 0, 15.0)];
            SortByPlace(st, 4, distance, AgentHandles(2)) == [1, 0]
  {
    var st := [AircraftStatus(1, 2, 0, 15.0), AircraftStatus(1, 2, 0, 15.0)];
    assert Key(st[0], 4) == 5 && Key(st[1], 4) == 5;
    assert AgentHandles(2) == [0, 1];
    assert AgentHandles(2)[1..] == [1];
    assert SortByPlace(st, 4, distance, [1]) == [1];
  }
}
