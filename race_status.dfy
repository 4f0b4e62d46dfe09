/**
 * The race manager's per-aircraft status record and what one FixedUpdate
 * does to it: follow the agent's checkpoint progress, count laps, and run
 * the per-checkpoint countdown that forces a respawn when it runs out.
 */
module RaceStatus {
  import CheckpointIndex
  import Arithmetic
  import FlightControl

  /**
   * AircraftStatus: the checkpoint the aircraft is heading for, its lap, its
   * place (0 until the first ranking) and the seconds left to reach the next
   * checkpoint.
   */
  datatype AircraftStatus = AircraftStatus(checkpointIndex: int, lap: int, place: int, timeRemaining: real)

  /** The status every aircraft starts the race with. */
  function StartStatus(bonus: real): AircraftStatus {
    AircraftStatus(0, 1, 0, bonus)
  }

  /**
   * Progress: when the agent's next checkpoint differs from the recorded one,
   * copy it and restart the countdown; a new index of 0 completes a lap.
   */
  function FollowCheckpoint(s: AircraftStatus, next: int, bonus: real): AircraftStatus {
    if s.checkpointIndex == next then s
    else
      var moved := s.(checkpointIndex := next, timeRemaining := bonus);
      if next == 0 then moved.(lap := moved.lap + 1) else moved
  }

  /** What one tick did to one aircraft's status. */
  datatype TickResult = TickResult(status: AircraftStatus, lapCompleted: bool, respawn: bool)

  /**
   * One FixedUpdate for one aircraft: follow its progress, then count the
   * time remaining down by dt, never below 0; at 0 the aircraft is respawned
   * and the time restored to the bonus. A lap is completed exactly when the
   * index changed to 0, and the time remaining stays in (0, bonus].
   */
  function Tick(s: AircraftStatus, next: int, bonus: real, dt: real): (r: TickResult)
    ensures r.status.checkpointIndex == next && r.status.place == s.place
    ensures r.lapCompleted <==> s.checkpointIndex != next && next == 0
    ensures r.status.lap == if r.lapCompleted then s.lap + 1 else s.lap
    ensures r.respawn <==> (if s.checkpointIndex != next then bonus else s.timeRemaining) <= dt
    ensures r.respawn ==> r.status.timeRemaining == bonus
    ensures !r.respawn ==> r.status.timeRemaining == (if s.checkpointIndex != next then bonus else s.timeRemaining) - dt
    ensures bonus > 0.0 && dt >= 0.0 && 0.0 < s.timeRemaining <= bonus ==> 0.0 < r.status.timeRemaining <= bonus
  {
    var p := FollowCheckpoint(s, next, bonus);
    var t := FlightControl.Max(0.0, p.timeRemaining - dt);
    var lapCompleted := s.checkpointIndex != next && next == 0;
    if t == 0.0 then TickResult(p.(timeRemaining := bonus), lapCompleted, true)
    else TickResult(p.(timeRemaining := t), lapCompleted, false)
  }

  /** A tick neither reads nor changes the place. */
  lemma TickIgnoresPlace(s: AircraftStatus, p: int, next: int, bonus: real, dt: real)
    ensures Tick(s.(place := p), next, bonus, dt) ==
            var r := Tick(s, next, bonus, dt); r.(status := r.status.(place := p))
  {
  }

  /** One tick for every aircraft, aircraft k heading for checkpoint nexts[k]. */
  function TickAll(st: seq<AircraftStatus>, nexts: seq<int>, bonus: real, dt: real): (r: seq<AircraftStatus>)
    requires |nexts| == |st|
    ensures |r| == |st|
    ensures forall k :: 0 <= k < |st| ==> r[k] == Tick(st[k], nexts[k], bonus, dt).status
  {
    seq(|st|, k requires 0 <= k < |st| => Tick(st[k], nexts[k], bonus, dt).status)
  }

  /** The status after k ticks with the agent's next checkpoint fixed, and the respawns on the way. */
  datatype TickRun = TickRun(status: AircraftStatus, respawns: nat)

  function RunTicks(s: AircraftStatus, next: int, bonus: real, dt: real, k: nat): TickRun
    decreases k
  {
    if k == 0 then TickRun(s, 0)
    else
      var before := RunTicks(s, next, bonus, dt, k - 1);
      var r := Tick(before.status, next, bonus, dt);
      TickRun(r.status, before.respawns + if r.respawn then 1 else 0)
  }

  lemma ProductStep(n: nat, x: real)
    ensures (n + 1) as real * x == n as real * x + x
  {
    var a := n as real;
    assert (n + 1) as real == a + 1.0;
    assert (a + 1.0) * x == a * x + 1.0 * x;
  }

  /**
   * Without a checkpoint, the time remaining drops by dt per tick and nothing
   * is respawned while more than k * dt seconds were left.
   */
  lemma {:induction false} CountdownWithoutRespawn(s: AircraftStatus, bonus: real, dt: real, k: nat)
    requires dt > 0.0
    requires s.timeRemaining > k as real * dt
    ensures RunTicks(s, s.checkpointIndex, bonus, dt, k) == TickRun(s.(timeRemaining := s.timeRemaining - k as real * dt), 0)
  {
    ElapsedIsProduct(k, dt);
    CountdownBy(s, bonus, dt, k);
  }

  /** The seconds k ticks of dt take, added up one tick at a time. */
  function Elapsed(k: nat, dt: real): real
    decreases k
  {
    if k == 0 then 0.0 else Elapsed(k - 1, dt) + dt
  }

  /** Added up tick by tick, k ticks of dt take k * dt seconds. */
  lemma {:induction false} ElapsedIsProduct(k: nat, dt: real)
    ensures Elapsed(k, dt) == k as real * dt
    decreases k
  {
    if k > 0 {
      ElapsedIsProduct(k - 1, dt);
      ProductStep(k - 1, dt);
    }
  }

  /** CountdownWithoutRespawn with the elapsed time added up tick by tick. */
  lemma {:induction false} CountdownBy(s: AircraftStatus, bonus: real, dt: real, k: nat)
    requires dt > 0.0 && s.timeRemaining > Elapsed(k, dt)
    ensures RunTicks(s, s.checkpointIndex, bonus, dt, k) == TickRun(s.(timeRemaining := s.timeRemaining - Elapsed(k, dt)), 0)
    decreases k
  {
    if k > 0 {
      CountdownBy(s, bonus, dt, k - 1);
    }
  }

  /**
   * An aircraft whose countdown starts at a bonus of exactly n ticks and that
   * reaches no checkpoint is respawned once, on tick n and not before, with
   * its time restored to the bonus.
   */
  lemma RespawnOnBonusTick(s: AircraftStatus, bonus: real, dt: real, n: nat)
    requires dt > 0.0 && n >= 1
    requires bonus == n as real * dt && s.timeRemaining == bonus
    ensures forall k :: 0 <= k < n ==> RunTicks(s, s.checkpointIndex, bonus, dt, k).respawns == 0
    ensures RunTicks(s, s.checkpointIndex, bonus, dt, n) == TickRun(s, 1)
  {
    ElapsedIsProduct(n, dt);
    forall k | 0 <= k < n
      ensures RunTicks(s, s.checkpointIndex, bonus, dt, k).respawns == 0
    {
      ElapsedBelow(k, n, dt);
      CountdownBy(s, bonus, dt, k);
    }
    ElapsedBelow(n - 1, n, dt);
    CountdownBy(s, bonus, dt, n - 1);
  }

  /** Fewer ticks take less time, and n ticks take dt more than n - 1. */
  lemma {:induction false} ElapsedBelow(k: nat, n: nat, dt: real)
    requires dt > 0.0 && k < n
    ensures Elapsed(k, dt) < Elapsed(n, dt)
    ensures Elapsed(n, dt) == Elapsed(n - 1, dt) + dt
    decreases n - k
  {
    if k < n - 1 {
      ElapsedBelow(k, n - 1, dt);
    }
  }

  /**
   * With a 15 second bonus and 0.02 second ticks, an aircraft that reaches
   * no checkpoint for 751 ticks is respawned exactly once, at tick 750.
   */
  lemma FifteenSecondTimeout(s: AircraftStatus)
    requires s.timeRemaining == 15.0
    ensures forall k :: 0 <= k < 750 ==> RunTicks(s, s.checkpointIndex, 15.0, 0.02, k).respawns == 0
    ensures RunTicks(s, s.checkpointIndex, 15.0, 0.02, 750).respawns == 1
    ensures RunTicks(s, s.checkpointIndex, 15.0, 0.02, 751).respawns == 1
  {
    RespawnOnBonusTick(s, 15.0, 0.02, 750);
  }

  /**
   * The statuses a race manager records while an agent passes k checkpoints
   * starting from checkpoint i, one pass per tick.
   */
  function FollowPasses(s: AircraftStatus, i: int, count: int, bonus: real, k: nat): AircraftStatus
    requires 0 <= i < count
    decreases k
  {
    if k == 0 then s
    else FollowCheckpoint(FollowPasses(s, i, count, bonus, k - 1), CheckpointIndex.Advance(i, count, k), bonus)
  }

  /**
   * On a track of two or more checkpoints, following an agent's passes from
   * checkpoint i counts one lap exactly when the passes reach checkpoint 0.
   */
  lemma {:induction false} FollowPassesCountsLaps(s: AircraftStatus, i: int, count: int, bonus: real, k: nat)
    requires 0 <= i < count && count >= 2 && k <= count
    requires s.checkpointIndex == i
    ensures FollowPasses(s, i, count, bonus, k).checkpointIndex == CheckpointIndex.Advance(i, count, k)
    ensures FollowPasses(s, i, count, bonus, k).lap == if i + k >= count then s.lap + 1 else s.lap
    ensures FollowPasses(s, i, count, bonus, k).place == s.place
    decreases k
  {
    if k > 0 {
      FollowPassesCountsLaps(s, i, count, bonus, k - 1);
      AdvanceWithinLap(i, count, k - 1);
      AdvanceWithinLap(i, count, k);
      var before := FollowPasses(s, i, count, bonus, k - 1);
      var next := CheckpointIndex.Advance(i, count, k);
      assert before.checkpointIndex != next;
      assert FollowPasses(s, i, count, bonus, k) == FollowCheckpoint(before, next, bonus);
    }
  }

  /** Within one lap of passes the index is i + k, less count once it wraps. */
  lemma AdvanceWithinLap(i: int, count: int, k: nat)
    requires 0 <= i < count && k <= count
    ensures CheckpointIndex.Advance(i, count, k) == if i + k < count then i + k else i + k - count
  {
    CheckpointIndex.AdvanceIsModular(i, count, k);
    if i + k < count {
      Arithmetic.ModUnique(i + k, count, 0, i + k);
    } else {
      Arithmetic.ModUnique(i + k, count, 1, i + k - count);
    }
  }

  /**
   * A whole lap of passes brings the recorded status back to its checkpoint
   * with the lap count one higher.
   */
  lemma FullLapCountsOnce(s: AircraftStatus, i: int, count: int, bonus: real)
    requires 0 <= i < count && count >= 2
    requires s.checkpointIndex == i
    ensures FollowPasses(s, i, count, bonus, count).checkpointIndex == i
    ensures FollowPasses(s, i, count, bonus, count).lap == s.lap + 1
  {
    FollowPassesCountsLaps(s, i, count, bonus, count);
    CheckpointIndex.FullCycleReturns(i, count);
  }

  /**
   * Four checkpoints, starting at checkpoint 0 on lap 1: passing checkpoints
   * 0, 1, 2 and 3 leaves the aircraft on lap 2 heading for checkpoint 0.
   */
  lemma FourCheckpointLap(bonus: real)
    ensures FollowPasses(StartStatus(bonus), 0, 4, bonus, 4).lap == 2
    ensures FollowPasses(StartStatus(bonus), 0, 4, bonus, 4).checkpointIndex == 0
  {
    FullLapCountsOnce(StartStatus(bonus), 0, 4, bonus);
  }

  /**
   * With a single checkpoint, the agent's next index is 0 after every pass, so
   * the recorded index never changes and no lap is ever counted.
   */
  lemma {:induction false} SingleCheckpointNeverCountsLaps(s: AircraftStatus, bonus: real, k: nat)
    requires s.checkpointIndex == 0
    ensures FollowPasses(s, 0, 1, bonus, k) == s
    decreases k
  {
    if k > 0 {
      SingleCheckpointNeverCountsLaps(s, bonus, k - 1);
    }
  }
}
