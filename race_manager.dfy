/**
 * RaceManager as an object: it follows the agents' checkpoint progress in a
 * status record per aircraft, ranks them every half second, runs the
 * per-checkpoint countdown, keeps the pause-aware clock and ends the race.
 *
 * The game state lives in the GameManager singleton, whose setter fires
 * OnStateChange; here it is a field, and SetGameState is that setter.
 * Aircraft are named by their handle, their index in the area's agent list;
 * the status dictionary keyed by agent is a sequence indexed by handle.
 */
module Race {
  import opened GameStates
  import opened Wrappers
  import opened RaceStatus
  import opened Aircraft
  import Ranking
  import RaceClock
  import Ordinals
  import CheckpointIndex
  import FlightControl

  /** Places are recomputed when more than this many seconds have passed. */
  const PlaceUpdateInterval: real := 0.5

  /**
   * The loop after the sort: the aircraft at sorted position i gets place
   * i + 1, and nothing else about any status changes.
   */
  method AssignPlaces(st: seq<AircraftStatus>, order: seq<nat>) returns (placed: seq<AircraftStatus>)
    requires |order| == |st| && Ranking.HandlesIn(order, |st|)
    requires forall i, j :: 0 <= i < j < |order| ==> order[i] != order[j]
    ensures Ranking.SameProgress(st, placed)
    ensures Ranking.PlacedInOrder(placed, order)
  {
    placed := st;
    var i := 0;
    while i < |order|
      invariant 0 <= i <= |order| == |placed|
      invariant Ranking.SameProgress(st, placed)
      invariant forall j :: 0 <= j < i ==> placed[order[j]].place == j + 1
    {
      placed := placed[order[i] := placed[order[i]].(place := i + 1)];
      i := i + 1;
    }
  }

  /**
   * One ranking: sort the handles with PlaceComparer starting from the
   * previous order, then place them 1..M in sorted order.
   */
  method RankAircraft(st: seq<AircraftStatus>, count: int, distance: (nat, int) -> real, before: seq<nat>)
    returns (order: seq<nat>, placed: seq<AircraftStatus>)
    requires Ranking.IsHandleOrder(before, |st|) && Ranking.IndicesInRange(st, count)
    ensures Ranking.RankedFrom(st, count, distance, before, order, placed)
    ensures Ranking.IsHandleOrder(order, |st|) && Ranking.SameProgress(st, placed)
  {
    Ranking.HandleOrderFacts(before, |st|);
    order := Ranking.SortByPlace(st, count, distance, before);
    Ranking.SortByPlaceSorted(st, count, distance, before);
    Ranking.HandleOrderFacts(order, |st|);
    placed := AssignPlaces(st, order);
    Ranking.RankingPlaces(st, count, distance, order, placed);
    assert Ranking.PlacesReflectRanking(st, count, distance, placed);
  }

  class RaceManager {
    const numLaps: int
    const checkpointBonusTime: real
    const area: AircraftArea

    /** Handle of the agent the camera follows. */
    var FollowAgent: nat
    /** GameManager.Instance.GameState. */
    var gameState: GameState
    var lastResumeTime: real
    var previouslyElapsedTime: real
    var lastPlaceUpdate: real
    /** aircraftStatuses, by handle; empty until the race starts. */
    var statuses: seq<AircraftStatus>
    /** sortedAircraftAgents: the handles in their last ranked order, once ranked. */
    var sortedAircraftAgents: Option<seq<nat>>

    /**
     * A race area (not training) with agents and checkpoints; the followed
     * agent among them; no agent listed twice; each agent belonging to the
     * area and heading for one of its checkpoints.
     */
    predicate AgentsValid()
      reads this`FollowAgent, area`AircraftAgents, area`Checkpoints, area.AircraftAgents`NextCheckpointIndex
    {
      var agents := area.AircraftAgents;
      |agents| > 0 && !area.trainingMode && |area.Checkpoints| > 0 &&
      FollowAgent < |agents| &&
      Distinct(agents) &&
      (forall k :: 0 <= k < |agents| ==> agents[k].area == area && agents[k].Valid())
    }

    /**
     * A status per agent once the race runs; every recorded index on the
     * track; every countdown in (0, bonus]; the ranked order a reordering of
     * the handles.
     */
    predicate StatusesValid()
      reads this`statuses, this`gameState, this`sortedAircraftAgents, area`AircraftAgents, area`Checkpoints
    {
      var m := |area.AircraftAgents|;
      (|statuses| == 0 || |statuses| == m) &&
      (gameState == Playing || gameState == Paused || gameState == Gameover ==> |statuses| == m) &&
      StatusesInRange(statuses, |area.Checkpoints|, checkpointBonusTime) &&
      (sortedAircraftAgents.Some? ==> Ranking.IsHandleOrder(sortedAircraftAgents.value, m))
    }

    predicate Valid()
      reads this`FollowAgent, this`statuses, this`gameState, this`sortedAircraftAgents
      reads area`AircraftAgents, area`Checkpoints, area.AircraftAgents`NextCheckpointIndex
    {
      AgentsValid() && StatusesValid()
    }

    /** The pause timers with the current game state. */
    function Clock(): RaceClock.Clock
      reads this`gameState, this`lastResumeTime, this`previouslyElapsedTime
    {
      RaceClock.Clock(gameState, lastResumeTime, previouslyElapsedTime)
    }

    /** The RaceTime getter at time now. */
    function RaceTime(now: real): real
      reads this
    {
      RaceClock.RaceTime(Clock(), now)
    }

    /** The race scene is entered in the Preparing state with all timers at 0. */
    constructor (area: AircraftArea, numLaps: int, checkpointBonusTime: real)
      ensures this.area == area && this.numLaps == numLaps && this.checkpointBonusTime == checkpointBonusTime
      ensures gameState == Preparing && Clock() == RaceClock.Clock(Preparing, 0.0, 0.0)
      ensures FollowAgent == 0 && lastPlaceUpdate == 0.0 && statuses == [] && sortedAircraftAgents == None
    {
      this.area := area;
      this.numLaps := numLaps;
      this.checkpointBonusTime := checkpointBonusTime;
      FollowAgent := 0;
      gameState := Preparing;
      lastResumeTime := 0.0;
      previouslyElapsedTime := 0.0;
      lastPlaceUpdate := 0.0;
      statuses := [];
      sortedAircraftAgents := None;
    }

    /**
     * GetAgentPlace: the place as an English ordinal, "" before the first
     * ranking; the digits read back as the place and the last two
     * characters are its suffix.
     */
    function GetAgentPlace(agent: nat): (r: string)
      requires agent < |statuses|
      reads this
      ensures r == "" <==> statuses[agent].place <= 0
      ensures statuses[agent].place > 0 ==> Ordinals.ParsePlace(r) == Some(statuses[agent].place)
      ensures statuses[agent].place > 0 ==> |r| >= 3 && r[|r| - 2..] == Ordinals.PlaceSuffix(statuses[agent].place)
    {
      var place := statuses[agent].place;
      if place > 0 then
        Ordinals.PlaceTextRoundTrip(place);
        Ordinals.PlaceText(place)
      else
        Ordinals.PlaceText(place)
    }

    /**
     * Start: freeze every agent and follow the last player agent, or agent 0
     * when there is none.
     */
    method Start()
      requires Valid()
      modifies this`FollowAgent, area.AircraftAgents`frozen, area.AircraftAgents`trailEmitting
      ensures Valid()
      ensures forall k :: 0 <= k < |area.AircraftAgents| ==> area.AircraftAgents[k].frozen && !area.AircraftAgents[k].trailEmitting
      ensures (exists k :: 0 <= k < |area.AircraftAgents| && area.AircraftAgents[k].isPlayer) ==>
                area.AircraftAgents[FollowAgent].isPlayer &&
                forall k :: FollowAgent < k < |area.AircraftAgents| ==> !area.AircraftAgents[k].isPlayer
      ensures (forall k :: 0 <= k < |area.AircraftAgents| ==> !area.AircraftAgents[k].isPlayer) ==> FollowAgent == 0
      ensures forall k :: 0 <= k < |area.AircraftAgents| ==>
                area.AircraftAgents[k].NextCheckpointIndex == old(area.AircraftAgents[k].NextCheckpointIndex)
    {
      var agents := area.AircraftAgents;
      FollowAgent := 0;
      var k := 0;
      while k < |agents|
        invariant 0 <= k <= |agents| && FollowAgent < |agents|
        invariant area.AircraftAgents == agents
        invariant forall j :: 0 <= j < k ==> agents[j].frozen && !agents[j].trailEmitting
        invariant (exists j :: 0 <= j < k && agents[j].isPlayer) ==>
                    agents[FollowAgent].isPlayer && forall j :: FollowAgent < j < k ==> !agents[j].isPlayer
        invariant (forall j :: 0 <= j < k ==> !agents[j].isPlayer) ==> FollowAgent == 0
        invariant forall j :: 0 <= j < |agents| ==> agents[j].NextCheckpointIndex == old(agents[j].NextCheckpointIndex)
      {
        agents[k].FreezeAgent();
        if agents[k].isPlayer {
          FollowAgent := k;
        }
        k := k + 1;
      }
    }

    /**
     * StartRace, after the countdown: every aircraft starts on checkpoint 0
     * of lap 1 with no place and the full bonus time, and the race is on.
     */
    method StartRace(now: real)
      requires Valid() && (gameState != Playing && gameState != Paused && gameState != Gameover)
      modifies this`statuses, this`gameState, this`lastResumeTime, this`previouslyElapsedTime, area.AircraftAgents`frozen, area.AircraftAgents`trailEmitting
      ensures Valid()
      ensures |statuses| == |area.AircraftAgents|
      ensures forall k :: 0 <= k < |statuses| ==> statuses[k] == StartStatus(checkpointBonusTime)
      ensures Clock() == RaceClock.Enter(old(Clock()), Playing, now)
      ensures forall k :: 0 <= k < |area.AircraftAgents| ==>
                !area.AircraftAgents[k].frozen && area.AircraftAgents[k].trailEmitting == old(area.AircraftAgents[k].trailEmitting)
    {
      statuses := seq(|area.AircraftAgents|, _ => StartStatus(checkpointBonusTime));
      SetGameState(Playing, now);
    }

    /**
     * PauseInputPerformed: the pause key pauses the game, freezing every
     * aircraft, only while Playing; otherwise it changes nothing.
     */
    method PauseInputPerformed(now: real)
      requires Valid()
      modifies this`gameState, this`lastResumeTime, this`previouslyElapsedTime, area.AircraftAgents`frozen, area.AircraftAgents`trailEmitting
      ensures Valid()
      ensures Clock() == if old(gameState) == Playing then RaceClock.Enter(old(Clock()), Paused, now) else old(Clock())
      ensures old(gameState) == Playing ==>
                forall k :: 0 <= k < |area.AircraftAgents| ==> area.AircraftAgents[k].frozen && !area.AircraftAgents[k].trailEmitting
      ensures old(gameState) != Playing ==> forall k :: 0 <= k < |area.AircraftAgents| ==> unchanged(area.AircraftAgents[k])
      ensures forall k :: 0 <= k < |area.AircraftAgents| ==>
                area.AircraftAgents[k].NextCheckpointIndex == old(area.AircraftAgents[k].NextCheckpointIndex)
    {
      if gameState == Playing {
        SetGameState(Paused, now);
      }
    }

    /** The GameState setter: store the state, then run OnStateChange. */
    method SetGameState(s: GameState, now: real)
      requires Valid()
      requires s == Playing || s == Paused || s == Gameover ==> |statuses| == |area.AircraftAgents|
      modifies this`gameState, this`lastResumeTime, this`previouslyElapsedTime, area.AircraftAgents`frozen, area.AircraftAgents`trailEmitting
      ensures Valid()
      ensures Clock() == RaceClock.Enter(old(Clock()), s, now)
      ensures s == Playing ==>
                forall k :: 0 <= k < |area.AircraftAgents| ==>
                  !area.AircraftAgents[k].frozen && area.AircraftAgents[k].trailEmitting == old(area.AircraftAgents[k].trailEmitting)
      ensures RaceClock.Banks(s) ==>
                forall k :: 0 <= k < |area.AircraftAgents| ==> area.AircraftAgents[k].frozen && !area.AircraftAgents[k].trailEmitting
      ensures RaceClock.Resets(s) ==> forall k :: 0 <= k < |area.AircraftAgents| ==> unchanged(area.AircraftAgents[k])
      ensures forall k :: 0 <= k < |area.AircraftAgents| ==>
                area.AircraftAgents[k].NextCheckpointIndex == old(area.AircraftAgents[k].NextCheckpointIndex) &&
                area.AircraftAgents[k].spawnCheckpoint == old(area.AircraftAgents[k].spawnCheckpoint)
    {
      gameState := s;
      OnStateChange(now);
    }

    /**
     * OnStateChange: Playing records the resume time and thaws the agents;
     * Paused and Gameover bank the time played and freeze them; any other
     * state zeroes both timers.
     */
    method OnStateChange(now: real)
      requires Valid()
      modifies this`lastResumeTime, this`previouslyElapsedTime, area.AircraftAgents`frozen, area.AircraftAgents`trailEmitting
      ensures Valid()
      ensures Clock() == RaceClock.Enter(old(Clock()), gameState, now)
      ensures gameState == Playing ==>
                forall k :: 0 <= k < |area.AircraftAgents| ==>
                  !area.AircraftAgents[k].frozen && area.AircraftAgents[k].trailEmitting == old(area.AircraftAgents[k].trailEmitting)
      ensures RaceClock.Banks(gameState) ==>
                forall k :: 0 <= k < |area.AircraftAgents| ==> area.AircraftAgents[k].frozen && !area.AircraftAgents[k].trailEmitting
      ensures RaceClock.Resets(gameState) ==> forall k :: 0 <= k < |area.AircraftAgents| ==> unchanged(area.AircraftAgents[k])
      ensures forall k :: 0 <= k < |area.AircraftAgents| ==>
                area.AircraftAgents[k].NextCheckpointIndex == old(area.AircraftAgents[k].NextCheckpointIndex) &&
                area.AircraftAgents[k].spawnCheckpoint == old(area.AircraftAgents[k].spawnCheckpoint)
    {
      var agents := area.AircraftAgents;
      if gameState == Playing {
        lastResumeTime := now;
        var k := 0;
        while k < |agents|
          invariant 0 <= k <= |agents|
          invariant area.AircraftAgents == agents && area.Checkpoints == old(area.Checkpoints)
          invariant lastResumeTime == now && previouslyElapsedTime == old(previouslyElapsedTime)
          invariant forall j :: 0 <= j < k ==> !agents[j].frozen
          invariant forall j :: 0 <= j < |agents| ==> agents[j].trailEmitting == old(agents[j].trailEmitting)
          invariant forall j :: 0 <= j < |agents| ==>
                      agents[j].NextCheckpointIndex == old(agents[j].NextCheckpointIndex) &&
                      agents[j].spawnCheckpoint == old(agents[j].spawnCheckpoint)
        {
          agents[k].ThawAgent();
          k := k + 1;
        }
      } else if gameState == Paused || gameState == Gameover {
        previouslyElapsedTime := previouslyElapsedTime + (now - lastResumeTime);
        var k := 0;
        while k < |agents|
          invariant 0 <= k <= |agents|
          invariant area.AircraftAgents == agents && area.Checkpoints == old(area.Checkpoints)
          invariant lastResumeTime == old(lastResumeTime)
          invariant previouslyElapsedTime == old(previouslyElapsedTime) + (now - old(lastResumeTime))
          invariant forall j :: 0 <= j < k ==> agents[j].frozen && !agents[j].trailEmitting
          invariant forall j :: 0 <= j < |agents| ==>
                      agents[j].NextCheckpointIndex == old(agents[j].NextCheckpointIndex) &&
                      agents[j].spawnCheckpoint == old(agents[j].spawnCheckpoint)
        {
          agents[k].FreezeAgent();
          k := k + 1;
        }
      } else {
        lastResumeTime := 0.0;
        previouslyElapsedTime := 0.0;
      }
    }

    /**
     * The ranking half of FixedUpdate: sort the handles with PlaceComparer,
     * starting from the last ranked order, and give the aircraft at sorted
     * position i place i + 1. The places are then 1..M, one per aircraft,
     * and an aircraft that ranks ahead of another has the smaller place.
     */
    method UpdatePlaces(fixedTime: real, distance: (nat, int) -> real)
      requires Valid() && gameState == Playing
      modifies this`lastPlaceUpdate, this`sortedAircraftAgents, this`statuses
      ensures Valid() && lastPlaceUpdate == fixedTime && sortedAircraftAgents.Some?
      ensures Ranking.RankedFrom(old(statuses), |area.Checkpoints|, distance,
                                 old(sortedAircraftAgents).GetOr(Ranking.AgentHandles(|area.AircraftAgents|)),
                                 sortedAircraftAgents.value, statuses)
    {
      lastPlaceUpdate := fixedTime;
      // The first ranking starts from the aircraft in the order the area lists them.
      var before := sortedAircraftAgents.GetOr(Ranking.AgentHandles(|area.AircraftAgents|));
      var order, placed := RankAircraft(statuses, |area.Checkpoints|, distance, before);
      PlacesKeepRange(statuses, placed, |area.Checkpoints|, checkpointBonusTime);
      sortedAircraftAgents := Some(order);
      statuses := placed;
    }

    /** The agent whose lap ends the race: the followed one, past the last lap. */
    predicate Finishes(k: nat, r: TickResult)
      reads this`FollowAgent
    {
      k == FollowAgent && r.lapCompleted && r.status.lap > numLaps
    }

    /**
     * The lap half of one agent's update: when the agent has moved on to
     * another checkpoint, record it and restart the countdown; a move to
     * checkpoint 0 completes a lap, and the followed agent's completing its
     * last lap ends the game, freezing every agent.
     */
    method UpdateLap(k: nat, status: AircraftStatus, fixedTime: real) returns (moved: AircraftStatus)
      requires Valid() && k < |statuses| && (gameState == Playing || gameState == Gameover)
      modifies this`gameState, this`lastResumeTime, this`previouslyElapsedTime, area.AircraftAgents`frozen, area.AircraftAgents`trailEmitting
      ensures Valid() && statuses == old(statuses)
      ensures gameState == Playing || gameState == Gameover
      ensures var next := area.AircraftAgents[k].NextCheckpointIndex;
              && moved == FollowCheckpoint(status, next, checkpointBonusTime)
              && var r := TickResult(moved, status.checkpointIndex != next && next == 0, false);
                 && Clock() == (if Finishes(k, r) then RaceClock.Enter(old(Clock()), Gameover, fixedTime) else old(Clock()))
                 && forall j :: 0 <= j < |area.AircraftAgents| ==>
                      var a := area.AircraftAgents[j];
                      a.frozen == (Finishes(k, r) || old(a.frozen)) && a.trailEmitting == (!Finishes(k, r) && old(a.trailEmitting))
    {
      var agent := area.AircraftAgents[k];
      moved := status;
      if moved.checkpointIndex != agent.NextCheckpointIndex {
        moved := moved.(checkpointIndex := agent.NextCheckpointIndex, timeRemaining := checkpointBonusTime);
        if moved.checkpointIndex == 0 {
          moved := moved.(lap := moved.lap + 1);
          if k == FollowAgent && moved.lap > numLaps {
            SetGameState(Gameover, fixedTime);
          }
        }
      }
    }

    /**
     * The countdown half of one agent's update: take dt off the time
     * remaining, never below 0; at 0 put the agent back at its last completed
     * checkpoint and restore the bonus time.
     */
    method UpdateTimeRemaining(k: nat, status: AircraftStatus, fixedDeltaTime: real) returns (counted: AircraftStatus, respawn: bool)
      requires k < |area.AircraftAgents| && Distinct(area.AircraftAgents)
      modifies area.AircraftAgents`spawnCheckpoint
      ensures respawn <==> status.timeRemaining <= fixedDeltaTime
      ensures counted == status.(timeRemaining := if respawn then checkpointBonusTime else status.timeRemaining - fixedDeltaTime)
      ensures forall j :: 0 <= j < |area.AircraftAgents| ==>
                area.AircraftAgents[j].spawnCheckpoint ==
                  if j == k && respawn then CheckpointIndex.Previous(area.AircraftAgents[k].NextCheckpointIndex, |area.Checkpoints|)
                  else old(area.AircraftAgents[j].spawnCheckpoint)
    {
      var agent := area.AircraftAgents[k];
      DistinctAt(area.AircraftAgents, k);
      counted := status.(timeRemaining := FlightControl.Max(0.0, status.timeRemaining - fixedDeltaTime));
      respawn := counted.timeRemaining == 0.0;
      if respawn {
        area.ResetAgentPosition(agent, false, 0);
        counted := counted.(timeRemaining := checkpointBonusTime);
      }
    }

    /**
     * One agent's status update in FixedUpdate, the lap half and then the
     * countdown half: its status becomes its Tick; the followed agent's last
     * lap ends the game and freezes every agent, and nothing else freezes or
     * thaws one; the agent respawns exactly when its Tick does.
     */
    method UpdateAgentStatus(k: nat, fixedTime: real, fixedDeltaTime: real)
      requires Valid() && fixedDeltaTime >= 0.0 && k < |statuses|
      requires gameState == Playing || gameState == Gameover
      modifies this`statuses, this`gameState, this`lastResumeTime, this`previouslyElapsedTime, area.AircraftAgents`frozen, area.AircraftAgents`trailEmitting
      modifies area.AircraftAgents`spawnCheckpoint
      ensures Valid()
      ensures gameState == Playing || gameState == Gameover
      ensures var next := area.AircraftAgents[k].NextCheckpointIndex;
              var r := Tick(old(statuses[k]), next, checkpointBonusTime, fixedDeltaTime);
              && statuses == old(statuses)[k := r.status]
              && Clock() == (if Finishes(k, r) then RaceClock.Enter(old(Clock()), Gameover, fixedTime) else old(Clock()))
              && (forall j :: 0 <= j < |area.AircraftAgents| ==>
                    var a := area.AircraftAgents[j];
                    && a.frozen == (Finishes(k, r) || old(a.frozen))
                    && a.trailEmitting == (!Finishes(k, r) && old(a.trailEmitting))
                    && a.spawnCheckpoint ==
                         if j == k && r.respawn then CheckpointIndex.Previous(next, |area.Checkpoints|) else old(a.spawnCheckpoint))
    {
      var moved := UpdateLap(k, statuses[k], fixedTime);
      var counted, respawn := UpdateTimeRemaining(k, moved, fixedDeltaTime);
      StatusInRange(statuses, k, counted, |area.Checkpoints|, checkpointBonusTime);
      statuses := statuses[k := counted];
    }

    /** Each agent's frozen flag, trail and spawn point, by handle. */
    function Flags(): (r: seq<AgentFlags>)
      reads area`AircraftAgents, area.AircraftAgents`frozen, area.AircraftAgents`trailEmitting
      reads area.AircraftAgents`spawnCheckpoint
      ensures |r| == |area.AircraftAgents|
    {
      FlagsOf(area.AircraftAgents)
    }

    lemma FlagsElements()
      ensures forall k :: 0 <= k < |area.AircraftAgents| ==>
                Flags()[k] == AgentFlags(area.AircraftAgents[k].frozen, area.AircraftAgents[k].trailEmitting,
                                         area.AircraftAgents[k].spawnCheckpoint)
    {
      FlagsOfElements(area.AircraftAgents);
    }
    /** The checkpoint each agent heads for, by handle. */
    function NextIndices(): (r: seq<int>)
      reads area`AircraftAgents, area.AircraftAgents`NextCheckpointIndex
      ensures |r| == |area.AircraftAgents|
    {
      NextIndicesOf(area.AircraftAgents)
    }

    lemma NextIndicesElements()
      ensures forall k :: 0 <= k < |area.AircraftAgents| ==> NextIndices()[k] == area.AircraftAgents[k].NextCheckpointIndex
    {
      NextIndicesOfElements(area.AircraftAgents);
    }

    /**
     * The status loop of FixedUpdate run on the statuses st with the clock
     * at clock0 and the agents' flags at flags0: every status ticked towards
     * its agent's next checkpoint; the game over, the clock banked and every
     * agent frozen exactly when the followed agent's tick completes a lap
     * past the last, and otherwise no agent frozen or thawed; every agent
     * whose countdown ran out put back at its last checkpoint, and every
     * other agent's spawn point kept.
     */
    ghost predicate TickedFrom(st: seq<AircraftStatus>, clock0: RaceClock.Clock, flags0: seq<AgentFlags>,
                               fixedTime: real, fixedDeltaTime: real)
      reads this, area, area.AircraftAgents
    {
      var agents := area.AircraftAgents;
      var nexts := NextIndices();
      && |st| == |agents| && |flags0| == |agents| && FollowAgent < |agents|
      && statuses == TickAll(st, nexts, checkpointBonusTime, fixedDeltaTime)
      && var r := Tick(st[FollowAgent], nexts[FollowAgent], checkpointBonusTime, fixedDeltaTime);
         var over := r.lapCompleted && r.status.lap > numLaps;
         && Clock() == (if over then RaceClock.Enter(clock0, Gameover, fixedTime) else clock0)
         && AgentsTicked(agents, flags0, st, nexts, checkpointBonusTime, fixedDeltaTime, |area.Checkpoints|, |agents|, over)
    }

    /**
     * One FixedUpdate while Playing, from the statuses st0, clock clock0,
     * last ranking time last0 and ranked order sorted0: when more than half
     * a second has passed since the last ranking, the statuses are ranked
     * (from sorted0, or the handle order before the first ranking), and the
     * ranked statuses are then ticked; otherwise st0 itself is ticked.
     */
    ghost predicate RaceStepped(st0: seq<AircraftStatus>, clock0: RaceClock.Clock, flags0: seq<AgentFlags>,
                                last0: real, sorted0: Option<seq<nat>>,
                                fixedTime: real, fixedDeltaTime: real, distance: (nat, int) -> real)
      reads this, area, area.AircraftAgents
    {
      var refresh := last0 + PlaceUpdateInterval < fixedTime;
      && |statuses| == |st0|
      && lastPlaceUpdate == (if refresh then fixedTime else last0)
      && (!refresh ==> TickedFrom(st0, clock0, flags0, fixedTime, fixedDeltaTime))
      && (refresh ==>
            var ranked := Ranking.WithPlaces(st0, statuses);
            && sortedAircraftAgents.Some?
            && Ranking.RankedFrom(st0, |area.Checkpoints|, distance, sorted0.GetOr(Ranking.AgentHandles(|st0|)),
                                  sortedAircraftAgents.value, ranked)
            && TickedFrom(ranked, clock0, flags0, fixedTime, fixedDeltaTime))
    }

    /**
     * FixedUpdate: while Playing, one race step; in any other state nothing
     * happens, to the race manager or to any agent. The agents' next
     * checkpoints are never changed.
     */
    method FixedUpdate(fixedTime: real, fixedDeltaTime: real, distance: (nat, int) -> real)
      requires Valid() && fixedDeltaTime >= 0.0
      modifies this`statuses, this`gameState, this`lastResumeTime, this`previouslyElapsedTime
      modifies this`lastPlaceUpdate, this`sortedAircraftAgents, area.AircraftAgents`frozen, area.AircraftAgents`trailEmitting
      modifies area.AircraftAgents`spawnCheckpoint
      ensures Valid()
      ensures old(gameState) != Playing ==>
                statuses == old(statuses) && lastPlaceUpdate == old(lastPlaceUpdate) && Clock() == old(Clock()) &&
                forall k :: 0 <= k < |area.AircraftAgents| ==> unchanged(area.AircraftAgents[k])
      ensures !(old(gameState) == Playing && old(lastPlaceUpdate) + PlaceUpdateInterval < fixedTime) ==>
                sortedAircraftAgents == old(sortedAircraftAgents)
      ensures old(gameState) == Playing ==>
                RaceStepped(old(statuses), old(Clock()), old(Flags()), old(lastPlaceUpdate), old(sortedAircraftAgents),
                            fixedTime, fixedDeltaTime, distance)
    {
      if gameState == Playing {
        if lastPlaceUpdate + PlaceUpdateInterval < fixedTime {
          ghost var ranked := RankAndTick(fixedTime, fixedDeltaTime, distance);
        } else {
          UpdateStatuses(fixedTime, fixedDeltaTime, Flags(), statuses);
        }
      }
    }

    /**
     * FixedUpdate when a ranking is due: rank, then tick every agent; ranked
     * is the statuses as the ranking left them.
     */
    method RankAndTick(fixedTime: real, fixedDeltaTime: real, distance: (nat, int) -> real)
      returns (ghost ranked: seq<AircraftStatus>)
      requires Valid() && fixedDeltaTime >= 0.0 && gameState == Playing
      modifies this`statuses, this`gameState, this`lastResumeTime, this`previouslyElapsedTime
      modifies this`lastPlaceUpdate, this`sortedAircraftAgents, area.AircraftAgents`frozen, area.AircraftAgents`trailEmitting
      modifies area.AircraftAgents`spawnCheckpoint
      ensures Valid()
      ensures lastPlaceUpdate == fixedTime && |statuses| == |old(statuses)| && sortedAircraftAgents.Some?
      ensures Ranking.RankedFrom(old(statuses), |area.Checkpoints|, distance,
                                 old(sortedAircraftAgents).GetOr(Ranking.AgentHandles(|area.AircraftAgents|)),
                                 sortedAircraftAgents.value, ranked)
      ensures TickedFrom(ranked, old(Clock()), old(Flags()), fixedTime, fixedDeltaTime)
      ensures ranked == Ranking.WithPlaces(old(statuses), statuses)
    {
      ghost var before, flags0 := statuses, Flags();
      UpdatePlaces(fixedTime, distance);
      ranked := statuses;
      UpdateStatuses(fixedTime, fixedDeltaTime, flags0, before);
    }

    /**
     * The status loop of FixedUpdate: every agent in list order. unranked is
     * any earlier copy of the statuses that differs from them at most in
     * places (the statuses before a ranking, or the statuses themselves): the
     * loop keeps the places it was given.
     */
    method UpdateStatuses(fixedTime: real, fixedDeltaTime: real, ghost flags0: seq<AgentFlags>, ghost unranked: seq<AircraftStatus>)
      requires Valid() && fixedDeltaTime >= 0.0 && gameState == Playing && flags0 == Flags()
      requires Ranking.SameProgress(unranked, statuses)
      modifies this`statuses, this`gameState, this`lastResumeTime, this`previouslyElapsedTime, area.AircraftAgents`frozen, area.AircraftAgents`trailEmitting
      modifies area.AircraftAgents`spawnCheckpoint
      ensures Valid()
      ensures statuses == TickAll(old(statuses), NextIndices(), checkpointBonusTime, fixedDeltaTime)
      ensures TickedFrom(old(statuses), old(Clock()), flags0, fixedTime, fixedDeltaTime)
      ensures old(statuses) == Ranking.WithPlaces(unranked, statuses)
    {
      FlagsElements();
      NextIndicesElements();
      ghost var nexts, st := NextIndices(), statuses;
      TickAgents(fixedTime, fixedDeltaTime, flags0, nexts);
      assert NextIndices() == nexts;
      StatusesTickedAll(st, statuses, nexts, checkpointBonusTime, fixedDeltaTime);
      Ranking.TickAllKeepsPlaces(unranked, st, nexts, checkpointBonusTime, fixedDeltaTime);
    }

    /**
     * The loop of UpdateStatuses, agents in list order, each heading for its
     * checkpoint in nexts and starting from its flags in flags0.
     */
    method TickAgents(fixedTime: real, fixedDeltaTime: real, ghost flags0: seq<AgentFlags>, ghost nexts: seq<int>)
      requires Valid() && fixedDeltaTime >= 0.0 && gameState == Playing
      requires |flags0| == |area.AircraftAgents| && |nexts| == |area.AircraftAgents| == |statuses|
      requires forall j :: 0 <= j < |nexts| ==> area.AircraftAgents[j].NextCheckpointIndex == nexts[j]
      requires AgentsTicked(area.AircraftAgents, flags0, statuses, nexts, checkpointBonusTime, fixedDeltaTime, |area.Checkpoints|, 0, false)
      modifies this`statuses, this`gameState, this`lastResumeTime, this`previouslyElapsedTime, area.AircraftAgents`frozen, area.AircraftAgents`trailEmitting
      modifies area.AircraftAgents`spawnCheckpoint
      ensures Valid()
      ensures StatusesTicked(old(statuses), statuses, nexts, checkpointBonusTime, fixedDeltaTime, |nexts|)
      ensures var r := Tick(old(statuses)[FollowAgent], nexts[FollowAgent], checkpointBonusTime, fixedDeltaTime);
              var over := r.lapCompleted && r.status.lap > numLaps;
              && Clock() == (if over then RaceClock.Enter(old(Clock()), Gameover, fixedTime) else old(Clock()))
              && AgentsTicked(area.AircraftAgents, flags0, old(statuses), nexts, checkpointBonusTime, fixedDeltaTime,
                              |area.Checkpoints|, |nexts|, over)
    {
      var agents := area.AircraftAgents;
      ghost var clock0, st := Clock(), statuses;
      ghost var count := |area.Checkpoints|;
      ghost var r := Tick(st[FollowAgent], nexts[FollowAgent], checkpointBonusTime, fixedDeltaTime);
      var k := 0;
      while k < |agents|
        invariant 0 <= k <= |agents| == |st| && FollowAgent < |agents|
        invariant Valid() && area.AircraftAgents == agents && |area.Checkpoints| == count
        invariant gameState == Playing || gameState == Gameover
        invariant StatusesTicked(st, statuses, nexts, checkpointBonusTime, fixedDeltaTime, k)
        invariant var over := FollowAgent < k && r.lapCompleted && r.status.lap > numLaps;
                  && Clock() == (if over then RaceClock.Enter(clock0, Gameover, fixedTime) else clock0)
                  && AgentsTicked(agents, flags0, st, nexts, checkpointBonusTime, fixedDeltaTime, count, k, over)
      {
        StatusesTickedStep(st, statuses, nexts, checkpointBonusTime, fixedDeltaTime, k);
        UpdateAgentStatus(k, fixedTime, fixedDeltaTime);
        k := k + 1;
      }
    }
  }

  /** The checkpoint each agent in the list heads for. */
  function NextIndicesOf(agents: seq<AircraftAgent>): (r: seq<int>)
    reads agents`NextCheckpointIndex
    ensures |r| == |agents|
  {
    if agents == [] then []
    else NextIndicesOf(agents[..|agents| - 1]) + [agents[|agents| - 1].NextCheckpointIndex]
  }

  lemma {:induction false} NextIndicesOfElements(agents: seq<AircraftAgent>)
    ensures forall k :: 0 <= k < |agents| ==> NextIndicesOf(agents)[k] == agents[k].NextCheckpointIndex
    decreases |agents|
  {
    if agents != [] {
      NextIndicesOfElements(agents[..|agents| - 1]);
    }
  }

  /** What the race loop may change on an agent: frozen, its trail, and where it respawns. */
  datatype AgentFlags = AgentFlags(frozen: bool, trailEmitting: bool, spawnCheckpoint: int)

  /** The flags of each agent in the list. */
  function FlagsOf(agents: seq<AircraftAgent>): (r: seq<AgentFlags>)
    reads agents`frozen, agents`trailEmitting, agents`spawnCheckpoint
    ensures |r| == |agents|
  {
    if agents == [] then []
    else
      var a := agents[|agents| - 1];
      FlagsOf(agents[..|agents| - 1]) + [AgentFlags(a.frozen, a.trailEmitting, a.spawnCheckpoint)]
  }

  lemma {:induction false} FlagsOfElements(agents: seq<AircraftAgent>)
    ensures forall k :: 0 <= k < |agents| ==>
              FlagsOf(agents)[k] == AgentFlags(agents[k].frozen, agents[k].trailEmitting, agents[k].spawnCheckpoint)
    decreases |agents|
  {
    if agents != [] {
      FlagsOfElements(agents[..|agents| - 1]);
    }
  }

  /**
   * s is st after the status loop has ticked agents 0..k-1, agent j towards
   * checkpoint nexts[j]; the others as in st.
   */
  predicate StatusesTicked(st: seq<AircraftStatus>, s: seq<AircraftStatus>, nexts: seq<int>, bonus: real, dt: real, k: int)
    requires |nexts| == |st|
  {
    |s| == |st| && forall j :: 0 <= j < |st| ==> s[j] == if j < k then Tick(st[j], nexts[j], bonus, dt).status else st[j]
  }

  lemma StatusesTickedStep(st: seq<AircraftStatus>, s: seq<AircraftStatus>, nexts: seq<int>, bonus: real, dt: real, k: nat)
    requires |nexts| == |st| && k < |st| && StatusesTicked(st, s, nexts, bonus, dt, k)
    ensures s[k] == st[k] && StatusesTicked(st, s[k := Tick(st[k], nexts[k], bonus, dt).status], nexts, bonus, dt, k + 1)
  {
  }

  lemma StatusesTickedAll(st: seq<AircraftStatus>, s: seq<AircraftStatus>, nexts: seq<int>, bonus: real, dt: real)
    requires |nexts| == |st| && StatusesTicked(st, s, nexts, bonus, dt, |st|)
    ensures s == TickAll(st, nexts, bonus, dt)
  {
  }

  /**
   * The agents' flags once agents 0..k-1 have been updated from flags0:
   * all frozen and without trail if the game ended, otherwise as in flags0;
   * each updated agent whose countdown ran out set to respawn at the
   * checkpoint before its next one, every other spawn point as in flags0.
   */
  predicate AgentsTicked(agents: seq<AircraftAgent>, flags0: seq<AgentFlags>, st: seq<AircraftStatus>, nexts: seq<int>,
                         bonus: real, dt: real, count: int, k: int, over: bool)
    reads agents`frozen, agents`trailEmitting, agents`spawnCheckpoint
    requires |st| == |agents| && |nexts| == |agents| && |flags0| == |agents|
  {
    forall j :: 0 <= j < |agents| ==>
      && agents[j].frozen == (over || flags0[j].frozen)
      && agents[j].trailEmitting == (!over && flags0[j].trailEmitting)
      && agents[j].spawnCheckpoint ==
           if j < k && Tick(st[j], nexts[j], bonus, dt).respawn then CheckpointIndex.Previous(nexts[j], count)
           else flags0[j].spawnCheckpoint
  }

  /** Every recorded checkpoint index on the track and every countdown in (0, bonus]. */
  predicate StatusesInRange(st: seq<AircraftStatus>, count: int, bonus: real) {
    Ranking.IndicesInRange(st, count) &&
    (bonus > 0.0 ==> forall k :: 0 <= k < |st| ==> 0.0 < st[k].timeRemaining <= bonus)
  }

  /** Giving the aircraft new places keeps their indices and countdowns. */
  lemma PlacesKeepRange(st: seq<AircraftStatus>, placed: seq<AircraftStatus>, count: int, bonus: real)
    requires Ranking.SameProgress(st, placed) && StatusesInRange(st, count, bonus)
    ensures StatusesInRange(placed, count, bonus)
  {
  }

  /** Replacing one status by a status in range keeps every status in range. */
  lemma StatusInRange(st: seq<AircraftStatus>, k: nat, s: AircraftStatus, count: int, bonus: real)
    requires StatusesInRange(st, count, bonus) && k < |st|
    requires 0 <= s.checkpointIndex < count && (bonus > 0.0 ==> 0.0 < s.timeRemaining <= bonus)
    ensures StatusesInRange(st[k := s], count, bonus)
  {
  }

  /** No agent occurs twice in the list. */
  predicate Distinct(agents: seq<AircraftAgent>) {
    DistinctFrom(agents, 0)
  }

  /** No agent at index i or later occurs again after i. */
  predicate DistinctFrom(agents: seq<AircraftAgent>, i: nat)
    decreases |agents| - i
  {
    i >= |agents| ||
    ((forall j :: i < j < |agents| ==> agents[j] != agents[i]) && DistinctFrom(agents, i + 1))
  }

  /** In a list without repeats, the agent at k occurs at no other index. */
  lemma {:induction false} DistinctAt(agents: seq<AircraftAgent>, k: nat)
    requires Distinct(agents) && k < |agents|
    ensures forall j :: 0 <= j < |agents| && j != k ==> agents[j] != agents[k]
  {
    DistinctBelow(agents, 0, k);
  }

  lemma {:induction false} DistinctBelow(agents: seq<AircraftAgent>, i: nat, k: nat)
    requires DistinctFrom(agents, i) && i <= k < |agents|
    ensures forall j :: i <= j < |agents| && j != k ==> agents[j] != agents[k]
    decreases k - i
  {
    if i < k {
      DistinctBelow(agents, i + 1, k);
    }
  }
}
