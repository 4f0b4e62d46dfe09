/**
 * The aircraft area and its agents as objects: the checkpoint list built
 * along the race path, the respawn index, and the per-step behaviour of an
 * agent (action decoding, the trail rule, the frozen gate, movement,
 * checkpoint progress, training rewards and episode ends).
 *
 * Engine quantities are parameters: the current Euler angles, the fixed
 * delta time, the ML-Agents step count, the local distance to the next
 * checkpoint, the academy's checkpoint radius and Random.Range draws.
 */
module Aircraft {
  import opened Geometry
  import opened FlightControl
  import CheckpointIndex

  /** The two checkpoint prefabs: an ordinary ring and the start/finish line. */
  datatype Prefab = CheckpointPrefab | FinishCheckpointPrefab

  /** The steps of a training episode; racing agents have no limit (0). */
  const TrainingMaxStep: int := 5000

  /** Unity's Random.Range(min, max) on ints: a value in [min, max), or min when the range is empty. */
  predicate RandomRangeResult(pick: int, min: int, max: int) {
    if min < max then min <= pick < max else pick == min
  }

  /** A checkpoint game object, instantiated from a prefab at a waypoint of the race path. */
  class Checkpoint {
    const prefab: Prefab
    const localPosition: Vector3

    constructor (prefab: Prefab, localPosition: Vector3)
      ensures this.prefab == prefab && this.localPosition == localPosition
    {
      this.prefab := prefab;
      this.localPosition := localPosition;
    }
  }

  /** The area holding a race: its agents and its checkpoints in track order. */
  class AircraftArea {
    const trainingMode: bool
    var AircraftAgents: seq<AircraftAgent>
    var Checkpoints: seq<Checkpoint>

    constructor (trainingMode: bool)
      ensures this.trainingMode == trainingMode
      ensures AircraftAgents == [] && Checkpoints == []
    {
      this.trainingMode := trainingMode;
      AircraftAgents := [];
      Checkpoints := [];
    }

    /** Awake: the agents found in the area, of which there must be at least one. */
    method Awake(found: seq<AircraftAgent>)
      requires |found| > 0
      modifies this`AircraftAgents
      ensures AircraftAgents == found && |AircraftAgents| > 0
    {
      AircraftAgents := found;
    }

    /**
     * Start: one new checkpoint per path unit, in index order, checkpoint i
     * at waypoint i; only the last one is the finish line.
     */
    method Start(waypoints: seq<Vector3>, numCheckpoints: nat)
      requires numCheckpoints <= |waypoints|
      modifies this`Checkpoints
      ensures |Checkpoints| == numCheckpoints
      ensures forall i :: 0 <= i < numCheckpoints ==> Checkpoints[i].localPosition == waypoints[i]
      ensures forall i :: 0 <= i < numCheckpoints ==>
                (Checkpoints[i].prefab == FinishCheckpointPrefab <==> i == numCheckpoints - 1)
      ensures forall i :: 0 <= i < numCheckpoints ==> fresh(Checkpoints[i])
      ensures forall i, j :: 0 <= i < j < numCheckpoints ==> Checkpoints[i] != Checkpoints[j]
    {
      Checkpoints := [];
      var i := 0;
      while i < numCheckpoints
        invariant 0 <= i <= numCheckpoints && |Checkpoints| == i
        invariant forall k :: 0 <= k < i ==> Checkpoints[k].localPosition == waypoints[k]
        invariant forall k :: 0 <= k < i ==>
                    (Checkpoints[k].prefab == FinishCheckpointPrefab <==> k == numCheckpoints - 1)
        invariant forall k :: 0 <= k < i ==> fresh(Checkpoints[k])
        invariant forall k, j :: 0 <= k < j < i ==> Checkpoints[k] != Checkpoints[j]
      {
        var checkpoint;
        if i == numCheckpoints - 1 {
          checkpoint := new Checkpoint(FinishCheckpointPrefab, waypoints[i]);
        } else {
          checkpoint := new Checkpoint(CheckpointPrefab, waypoints[i]);
        }
        Checkpoints := Checkpoints + [checkpoint];
        i := i + 1;
      }
    }

    /**
     * ResetAgentPosition: optionally draw a new next checkpoint, then place
     * the agent at the checkpoint before it (the last one it completed).
     * pick is the Random.Range(0, count) draw, used only when randomizing.
     */
    method ResetAgentPosition(agent: AircraftAgent, randomize: bool, pick: int)
      requires randomize ==> RandomRangeResult(pick, 0, |Checkpoints|)
      modifies (if randomize then {agent} else {})`NextCheckpointIndex, agent`spawnCheckpoint
      ensures agent.NextCheckpointIndex == if randomize then pick else old(agent.NextCheckpointIndex)
      ensures randomize && |Checkpoints| > 0 ==> 0 <= agent.NextCheckpointIndex < |Checkpoints|
      ensures agent.spawnCheckpoint == CheckpointIndex.Previous(agent.NextCheckpointIndex, |Checkpoints|)
    {
      if randomize {
        agent.NextCheckpointIndex := pick;
      }
      var previousCheckpointIndex := agent.NextCheckpointIndex - 1;
      if previousCheckpointIndex == -1 {
        previousCheckpointIndex := |Checkpoints| - 1;
      }
      agent.spawnCheckpoint := previousCheckpointIndex;
    }
  }

  /** An aircraft agent: its controls, smoothing, trail, progress and training timers. */
  class AircraftAgent {
    const area: AircraftArea
    /** True for the human-controlled AircraftPlayer. */
    const isPlayer: bool
    const stepTimeout: int
    const pitchSpeed: real
    const yawSpeed: real
    const rollSpeed: real
    /** Episode length set when the agent is initialized. */
    const maxStep: int

    var NextCheckpointIndex: int
    /** The step count after which a training episode times out. */
    var nextStepTimeout: int
    var frozen: bool
    var pitchChange: real
    var yawChange: real
    var rollChange: real
    var smoothPitchChange: real
    var smoothYawChange: real
    var smoothRollChange: real
    var boost: bool
    var trailEmitting: bool
    /** The points the trail renderer currently shows. */
    var trail: seq<Vector3>
    /** Euler angles last written to the transform. */
    var rotation: Vector3
    var velocity: Vector3
    var angularVelocity: Vector3
    /** The checkpoint whose place on the race path the agent was last put at. */
    var spawnCheckpoint: int

    /** The agent's next checkpoint exists, and maxStep is as initialization set it. */
    predicate Valid()
      reads this`NextCheckpointIndex, area`Checkpoints
    {
      0 <= NextCheckpointIndex < |area.Checkpoints| &&
      maxStep == (if area.trainingMode then TrainingMaxStep else 0)
    }

    /** The three smoothed control values. */
    function Smoothed(): Smoothing
      reads this
    {
      Smoothing(smoothPitchChange, smoothYawChange, smoothRollChange)
    }

    /** InitializeAgent: 5000 steps per episode in training, no limit when racing. */
    constructor (area: AircraftArea, isPlayer: bool, stepTimeout: int, pitchSpeed: real, yawSpeed: real, rollSpeed: real)
      ensures this.area == area && this.isPlayer == isPlayer && this.stepTimeout == stepTimeout
      ensures this.pitchSpeed == pitchSpeed && this.yawSpeed == yawSpeed && this.rollSpeed == rollSpeed
      ensures maxStep == if area.trainingMode then TrainingMaxStep else 0
      ensures NextCheckpointIndex == 0 && nextStepTimeout == 0 && !frozen && !boost && !trailEmitting
      ensures Smoothed() == Smoothing(0.0, 0.0, 0.0) && trail == []
    {
      this.area := area;
      this.isPlayer := isPlayer;
      this.stepTimeout := stepTimeout;
      this.pitchSpeed := pitchSpeed;
      this.yawSpeed := yawSpeed;
      this.rollSpeed := rollSpeed;
      maxStep := if area.trainingMode then TrainingMaxStep else 0;
      NextCheckpointIndex := 0;
      nextStepTimeout := 0;
      frozen := false;
      pitchChange, yawChange, rollChange := 0.0, 0.0, 0.0;
      smoothPitchChange, smoothYawChange, smoothRollChange := 0.0, 0.0, 0.0;
      boost := false;
      trailEmitting := false;
      trail := [];
      rotation := Zero;
      velocity := Zero;
      angularVelocity := Zero;
      spawnCheckpoint := 0;
    }

    /**
     * AgentAction: decode the action, apply the trail rule, and, unless
     * frozen, move; in training also pay the step penalty, end a timed-out
     * episode and count a checkpoint reached within the radius.
     */
    method AgentAction(vectorAction: seq<real>, curRot: Vector3, dt: real, stepCount: int,
                       checkpointDistance: real, checkpointRadius: real)
      returns (reward: real, done: bool)
      requires Valid() && |vectorAction| >= 3 && dt >= 0.0
      modifies this`pitchChange, this`yawChange, this`boost, this`trail, this`trailEmitting
      modifies this`rollChange, this`smoothPitchChange, this`smoothYawChange, this`smoothRollChange, this`rotation
      modifies this`NextCheckpointIndex, this`nextStepTimeout
      ensures Valid() && frozen == old(frozen)
      ensures pitchChange == DecodeDirection(vectorAction[0])
      ensures yawChange == DecodeDirection(vectorAction[1])
      ensures boost == DecodeBoost(vectorAction[2])
      ensures trailEmitting == boost
      ensures trail == if boost && !old(trailEmitting) then [] else old(trail)
      ensures frozen ==> reward == 0.0 && !done
      ensures frozen ==> Smoothed() == old(Smoothed()) && rotation == old(rotation) && rollChange == old(rollChange)
      ensures frozen ==> NextCheckpointIndex == old(NextCheckpointIndex) && nextStepTimeout == old(nextStepTimeout)
      ensures !frozen ==> rollChange == RollTarget(curRot.z, yawChange)
      ensures !frozen ==> Smoothed() == Smooth(old(Smoothed()), pitchChange, yawChange, rollChange, dt)
      ensures !frozen ==> rotation == NewRotation(curRot, Smoothed(), dt, pitchSpeed, yawSpeed, rollSpeed)
      ensures !frozen && area.trainingMode ==>
                var timedOut := stepCount > old(nextStepTimeout);
                var reached := checkpointDistance < checkpointRadius;
                && done == timedOut
                && reward == -1.0 / TrainingMaxStep as real + (if timedOut then -0.5 else 0.0) + (if reached then 0.5 else 0.0)
                && NextCheckpointIndex == (if reached then CheckpointIndex.Next(old(NextCheckpointIndex), |area.Checkpoints|) else old(NextCheckpointIndex))
                && nextStepTimeout == (if reached then stepCount + stepTimeout else old(nextStepTimeout))
      ensures !frozen && !area.trainingMode ==>
                reward == 0.0 && !done && NextCheckpointIndex == old(NextCheckpointIndex) && nextStepTimeout == old(nextStepTimeout)
    {
      reward, done := 0.0, false;
      pitchChange := DecodeDirection(vectorAction[0]);
      yawChange := DecodeDirection(vectorAction[1]);
      boost := DecodeBoost(vectorAction[2]);
      if boost && !trailEmitting {
        trail := [];
      }
      trailEmitting := boost;

      if frozen {
        return;
      }

      ProcessMovement(curRot, dt);

      if area.trainingMode {
        reward := -1.0 / maxStep as real;
        if stepCount > nextStepTimeout {
          reward := reward - 0.5;
          done := true;
        }
        if checkpointDistance < checkpointRadius {
          var bonus := GotCheckpoint(stepCount);
          reward := reward + bonus;
        }
      }
    }

    /**
     * ProcessMovement: the roll target, one tick of smoothing, and the new
     * Euler angles with pitch and roll clamped. Thrust is not modelled.
     */
    method ProcessMovement(curRot: Vector3, dt: real)
      requires dt >= 0.0
      modifies this`rollChange, this`smoothPitchChange, this`smoothYawChange, this`smoothRollChange, this`rotation
      ensures rollChange == RollTarget(curRot.z, yawChange)
      ensures Smoothed() == Smooth(old(Smoothed()), pitchChange, yawChange, rollChange, dt)
      ensures rotation == NewRotation(curRot, Smoothed(), dt, pitchSpeed, yawSpeed, rollSpeed)
    {
      var rollAngle := if curRot.z > 180.0 then curRot.z - 360.0 else curRot.z;
      if yawChange == 0.0 {
        rollChange := -rollAngle / MaxRollAngle;
      } else {
        rollChange := -yawChange;
      }

      smoothPitchChange := MoveTowards(smoothPitchChange, pitchChange, 2.0 * dt);
      smoothYawChange := MoveTowards(smoothYawChange, yawChange, 2.0 * dt);
      smoothRollChange := MoveTowards(smoothRollChange, rollChange, 2.0 * dt);

      rotation := NewRotation(curRot, Smoothed(), dt, pitchSpeed, yawSpeed, rollSpeed);
    }

    /** AgentReset: stop, stop the trail, respawn (at a random checkpoint in training) and restart the timeout. */
    method AgentReset(stepCount: int, pick: int)
      requires Valid()
      requires area.trainingMode ==> RandomRangeResult(pick, 0, |area.Checkpoints|)
      modifies this`velocity, this`angularVelocity, this`trailEmitting, this`NextCheckpointIndex,
               this`spawnCheckpoint, this`nextStepTimeout
      ensures Valid()
      ensures velocity == Zero && angularVelocity == Zero && !trailEmitting
      ensures NextCheckpointIndex == if area.trainingMode then pick else old(NextCheckpointIndex)
      ensures spawnCheckpoint == CheckpointIndex.Previous(NextCheckpointIndex, |area.Checkpoints|)
      ensures nextStepTimeout == if area.trainingMode then stepCount + stepTimeout else old(nextStepTimeout)
    {
      velocity := Zero;
      angularVelocity := Zero;
      trailEmitting := false;
      area.ResetAgentPosition(this, area.trainingMode, pick);
      if area.trainingMode {
        nextStepTimeout := stepCount + stepTimeout;
      }
    }

    /** FreezeAgent: stop acting and stop the trail (not allowed in training). */
    method FreezeAgent()
      requires !area.trainingMode
      modifies this`frozen, this`trailEmitting
      ensures frozen && !trailEmitting
    {
      frozen := true;
      trailEmitting := false;
    }

    /** ThawAgent: act again (not allowed in training); the trail stays as it is. */
    method ThawAgent()
      requires !area.trainingMode
      modifies this`frozen
      ensures !frozen
    {
      frozen := false;
    }

    /**
     * GotCheckpoint: head for the next checkpoint round the track; in
     * training, earn half a point and restart the step timeout.
     */
    method GotCheckpoint(stepCount: int) returns (reward: real)
      requires Valid()
      modifies this`NextCheckpointIndex, this`nextStepTimeout
      ensures Valid()
      ensures NextCheckpointIndex == CheckpointIndex.Next(old(NextCheckpointIndex), |area.Checkpoints|)
      ensures reward == if area.trainingMode then 0.5 else 0.0
      ensures nextStepTimeout == if area.trainingMode then stepCount + stepTimeout else old(nextStepTimeout)
    {
      NextCheckpointIndex := (NextCheckpointIndex + 1) % |area.Checkpoints|;
      reward := 0.0;
      if area.trainingMode {
        reward := 0.5;
        nextStepTimeout := stepCount + stepTimeout;
      }
    }

    /**
     * OnTriggerEnter: passing through a collider counts only when it is
     * tagged "checkpoint" and is the very checkpoint the agent heads for; a
     * pass is a GotCheckpoint.
     */
    method OnTriggerEnter(tag: string, other: object, stepCount: int) returns (reward: real, passed: bool)
      requires Valid()
      modifies this`NextCheckpointIndex, this`nextStepTimeout
      ensures Valid()
      ensures passed <==> tag == "checkpoint" && other == area.Checkpoints[old(NextCheckpointIndex)]
      ensures NextCheckpointIndex == if passed then CheckpointIndex.Next(old(NextCheckpointIndex), |area.Checkpoints|) else old(NextCheckpointIndex)
      ensures !passed ==> reward == 0.0 && nextStepTimeout == old(nextStepTimeout)
      ensures passed ==> reward == (if area.trainingMode then 0.5 else 0.0) &&
                         nextStepTimeout == (if area.trainingMode then stepCount + stepTimeout else old(nextStepTimeout))
    {
      reward := 0.0;
      passed := tag == "checkpoint" && other == area.Checkpoints[NextCheckpointIndex];
      if passed {
        reward := GotCheckpoint(stepCount);
      }
    }

    /**
     * OnCollisionEnter: hitting anything but another agent ends a training
     * episode with a penalty of 1; in a race the aircraft explodes, is frozen,
     * put back at its last completed checkpoint and thawed. The delays
     * between those steps are not modelled.
     */
    method OnCollisionEnter(tag: string) returns (reward: real, done: bool)
      requires Valid()
      modifies this`frozen, this`trailEmitting, this`spawnCheckpoint, this`NextCheckpointIndex
      ensures Valid() && NextCheckpointIndex == old(NextCheckpointIndex)
      ensures tag == "agent" ==>
                reward == 0.0 && !done && frozen == old(frozen) &&
                trailEmitting == old(trailEmitting) && spawnCheckpoint == old(spawnCheckpoint)
      ensures tag != "agent" && area.trainingMode ==>
                reward == -1.0 && done && frozen == old(frozen) &&
                trailEmitting == old(trailEmitting) && spawnCheckpoint == old(spawnCheckpoint)
      ensures tag != "agent" && !area.trainingMode ==>
                reward == 0.0 && !done && !frozen && !trailEmitting &&
                spawnCheckpoint == CheckpointIndex.Previous(NextCheckpointIndex, |area.Checkpoints|)
    {
      reward, done := 0.0, false;
      if tag != "agent" {
        if area.trainingMode {
          reward, done := -1.0, true;
          return;
        } else {
          ExplosionReset();
        }
      }
    }

    /** ExplosionReset with its waits removed: freeze, respawn at the last completed checkpoint, thaw. */
    method ExplosionReset()
      requires Valid() && !area.trainingMode
      modifies this`frozen, this`trailEmitting, this`spawnCheckpoint, this`NextCheckpointIndex
      ensures Valid() && NextCheckpointIndex == old(NextCheckpointIndex)
      ensures !frozen && !trailEmitting
      ensures spawnCheckpoint == CheckpointIndex.Previous(NextCheckpointIndex, |area.Checkpoints|)
    {
      FreezeAgent();
      area.ResetAgentPosition(this, false, 0);
      ThawAgent();
    }
  }
}
