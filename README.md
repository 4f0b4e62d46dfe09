# Aircraft race: a verified model of the race and agent logic

This project models the bookkeeping of a Unity aircraft racing game. In the
game, aircraft agents are trained with ML-Agents and race a human player
through a ring of checkpoints. The model covers two parts:

- **The race coordinator (`RaceManager`)**, modelled as the class
  `Race.RaceManager`. It keeps one status record per aircraft: the checkpoint
  the aircraft is heading for, its lap, its place and the seconds it has left.
  On every fixed update it:
  - copies each agent's checkpoint progress;
  - counts a lap when the index wraps to 0;
  - runs the per-checkpoint countdown that respawns an aircraft which runs out
    of time;
  - re-ranks the field every half second with `PlaceComparer`;
  - ends the race when the followed aircraft completes its last lap.

  It also keeps a pause-aware race clock, driven by the game state, and shows
  places as English ordinals.
- **The aircraft and their area** (`AircraftAgent`, `AircraftArea`,
  `AircraftPlayer`), modelled as the classes `Aircraft.AircraftAgent` and
  `Aircraft.AircraftArea` and as the pure modules `FlightControl` and
  `PlayerInput`. They cover:
  - decoding of the discrete actions;
  - the trail rule and the frozen gate;
  - the self-levelling roll target, smoothing and the wrap-around angle clamp;
  - checkpoint progress and the training rewards and timeouts;
  - the checkpoint list built along the race path;
  - the respawn at the last completed checkpoint;
  - the player's input encoding.

Every engine quantity is an input to the model. That covers the time of day, the
fixed delta time, the current Euler angles, distances to checkpoints, the
ML-Agents step count and random draws. Times and angles are mathematical reals.

The modules are:

- `Wrappers` (Option), `Geometry` (Vector3), `GameStates` (the GameState enum),
  `Arithmetic` (remainder facts).
- `Ordinals`: the place text and a parser that reads it back.
- `FlightControl`: action decoding, roll target, MoveTowards, ClampAngle and
  the new rotation.
- `PlayerInput`: `Mathf.Round` and `Heuristic`.
- `CheckpointIndex`: the next and previous checkpoint indices.
- `RaceStatus`: the status record and one tick of it.
- `Ranking`: `PlaceComparer`, the sort, and what the places mean.
- `RaceClock`: the pause timers against a reference "time played".
- `Aircraft`: the `Checkpoint`, `AircraftArea` and `AircraftAgent` classes.
- `Race`: the `RaceManager` class.

The game state lives in the GameManager singleton, and its setter fires
`OnStateChange`. In the model the state is a field of `RaceManager`, and
`SetGameState` is that setter. Aircraft are named by their handle, which is
their index in the area's agent list. The status dictionary keyed by agent is a
sequence indexed by handle. The ranked agent list is a sequence of handles.

The GameState enum (GameManager.cs:8-16) has no Countdown state; the countdown
before the race runs while the state is Preparing. The model's enum has the
code's six states: Default, MainMenu, Preparing, Playing, Paused and Gameover.

The area's agent list comes from `GetComponentsInChildren`, which returns each
component once. `RaceManager.Valid` therefore includes that no agent occurs
twice in the list, so updating one agent leaves every other agent alone.

## Model

All source paths are under `aircraft_mla/Aircraft/Assets/Aircraft/Scripts/`.

| member | source | states |
|---|---|---|
| Ordinals.PlaceText | aircraft_mla/Aircraft/Assets/Aircraft/Scripts/RaceManager.cs:105-126 | The text is empty exactly when the place is 0 or less. Otherwise it is decimal digits followed by the two-letter suffix the place calls for. |
| Ordinals.DecimalString | aircraft_mla/Aircraft/Assets/Aircraft/Scripts/RaceManager.cs:113-124 | `place.ToString()` is a non-empty string of digits. It has no leading zero for a positive number and is one digit long exactly below 10. |
| Ordinals.ParseDecimalString | aircraft_mla/Aircraft/Assets/Aircraft/Scripts/RaceManager.cs:113-124 | Reading the decimal text back gives the number. |
| Ordinals.PlaceTextRoundTrip | aircraft_mla/Aircraft/Assets/Aircraft/Scripts/RaceManager.cs:105-126 | Every positive place's text parses back to that place. |
| Ordinals.PlaceSuffixIsEnglishBelow111 | aircraft_mla/Aircraft/Assets/Aircraft/Scripts/RaceManager.cs:113-125 | For places 1 to 110 the suffix is the usual English one: 11th, 12th and 13th, otherwise chosen by the last digit. |
| Ordinals.PlaceSuffixDiffersAt111 | aircraft_mla/Aircraft/Assets/Aircraft/Scripts/RaceManager.cs:113-118 | The 11 to 13 rule is literal, so place 111 is written "111st" where English says "111th". |
| Race.RaceManager.GetAgentPlace | aircraft_mla/Aircraft/Assets/Aircraft/Scripts/RaceManager.cs:105-126 | The text is "" exactly when the aircraft has no place yet. A positive place's text reads back as that place, and its last two characters are the place's suffix ("st", "nd", "rd" or "th" by the 11-13 and last-digit rule). |
| FlightControl.RollTarget | aircraft_mla/Aircraft/Assets/Aircraft/Scripts/AircraftAgent.cs:231-242 | While yawing the target is minus the yaw. When not yawing, the target has the opposite sign to the signed roll and cancels it at 45 degrees per unit, so it is 0 when level and within [-1, 1] for a roll within 45 degrees. |
| FlightControl.MoveTowards | aircraft_mla/Aircraft/Assets/Aircraft/Scripts/AircraftAgent.cs:245-247 | A step moves at most maxDelta, stays between current and target, and shrinks the remaining distance by exactly maxDelta, down to 0. The result is the target exactly when the target was within maxDelta. |
| FlightControl.MoveTowardsConverges | aircraft_mla/Aircraft/Assets/Aircraft/Scripts/AircraftAgent.cs:245-247 | After k steps towards a fixed target the distance is the initial one minus k times maxDelta, floored at 0. The target is reached once k times maxDelta covers the initial distance. |
| FlightControl.MoveTowardsStaysAtTarget | aircraft_mla/Aircraft/Assets/Aircraft/Scripts/AircraftAgent.cs:245-247 | Once a smoothed value is at its target, further steps keep it there. |
| FlightControl.Smooth | aircraft_mla/Aircraft/Assets/Aircraft/Scripts/AircraftAgent.cs:244-247 | Each of pitch, yaw and roll moves towards its target by exactly 2·dt per tick, or by the whole remaining distance when that is smaller, and never past the target. |
| FlightControl.ClampAngle | aircraft_mla/Aircraft/Assets/Aircraft/Scripts/AircraftAgent.cs:269-274 | For bounds -180 < from < 0 < to <= 180:<br>• for an angle in [-180, 360), ClampAngle equals an independent clamp on signed angles; the result lies in [0, to] or [360 + from, 360), and an angle already in range comes back normalised and otherwise unchanged;<br>• for an angle in [-180, 360 + to], the result reads as a signed angle within [from, to];<br>• an angle in [360, 360 + to] comes back unchanged. |
| FlightControl.ClampAngleIdempotent | aircraft_mla/Aircraft/Assets/Aircraft/Scripts/AircraftAgent.cs:269-274 | Clamping a clamped angle again changes nothing. |
| FlightControl.NewRotationLimits | aircraft_mla/Aircraft/Assets/Aircraft/Scripts/AircraftAgent.cs:249-256 | Whenever the unclamped pitch and roll lie in [-180, 405] (an engine angle in [0, 360) plus a step under 45 degrees), the new pitch and roll read as signed angles within ±45 degrees. Yaw is the current yaw plus the smoothed step, unclamped. |
| PlayerInput.Round | aircraft_mla/Aircraft/Assets/Aircraft/Scripts/AircraftPlayer.cs:32-38 | `Mathf.Round` gives an integer within 0.5 of x, and the even one on a tie. |
| PlayerInput.RoundInteger | aircraft_mla/Aircraft/Assets/Aircraft/Scripts/AircraftPlayer.cs:32-38 | An integer rounds to itself. |
| PlayerInput.Heuristic | aircraft_mla/Aircraft/Assets/Aircraft/Scripts/AircraftPlayer.cs:29-47 | The action has three elements [pitch, yaw, boost], each rounded. A rounded -1 for pitch or yaw becomes 2, any other value passes unchanged, and boost is never remapped. |
| PlayerInput.DirectionRoundTrip | aircraft_mla/Aircraft/Assets/Aircraft/Scripts/AircraftPlayer.cs:40-44 | For v in {-1, 0, 1}, the agent's decoding of the encoded value returns v. |
| PlayerInput.ActionValueRoundTrip | aircraft_mla/Aircraft/Assets/Aircraft/Scripts/AircraftAgent.cs:74-78 | For every discrete action value 0, 1, 2, encoding the decoded value gives it back, and the decoded value is an integer. |
| PlayerInput.HeuristicDecodes | aircraft_mla/Aircraft/Assets/Aircraft/Scripts/AircraftPlayer.cs:29-47 | For input axes in [-1, 1], AgentAction decodes the player's pitch and yaw to exactly their rounded values, and boost is on exactly when the rounded boost axis is 1. |
| CheckpointIndex.Next | aircraft_mla/Aircraft/Assets/Aircraft/Scripts/AircraftAgent.cs:196-199 | The next index stays in [0, N). It is 0 exactly after the last checkpoint and i + 1 otherwise. |
| CheckpointIndex.PreviousIsPredecessor | aircraft_mla/Aircraft/Assets/Aircraft/Scripts/AircraftArea.cs:79-81 | For next in [0, N), the respawn index equals (next + N - 1) % N and lies in [0, N). It and the next-index step undo each other. |
| CheckpointIndex.AdvanceIsModular | aircraft_mla/Aircraft/Assets/Aircraft/Scripts/AircraftAgent.cs:196-199 | After k passes from checkpoint i the agent heads for (i + k) % N. |
| CheckpointIndex.FullCycleReturns | aircraft_mla/Aircraft/Assets/Aircraft/Scripts/AircraftAgent.cs:196-199 | N passes bring the agent back to the checkpoint it started from. |
| RaceStatus.Tick | aircraft_mla/Aircraft/Assets/Aircraft/Scripts/RaceManager.cs:286-310 | One aircraft's tick:<br>• the recorded index becomes the agent's and the place is kept;<br>• a lap is completed exactly when the index changed to 0;<br>• a respawn happens exactly when the remaining time (reset to the bonus on a change) is at most dt, and then the time is the bonus;<br>• without a respawn the time is that remaining time minus dt;<br>• with bonus > 0 and dt >= 0, the time stays in (0, bonus]. |
| RaceStatus.TickIgnoresPlace | aircraft_mla/Aircraft/Assets/Aircraft/Scripts/RaceManager.cs:286-310 | A tick neither reads nor changes the place. |
| RaceStatus.CountdownWithoutRespawn | aircraft_mla/Aircraft/Assets/Aircraft/Scripts/RaceManager.cs:304-310 | Without a checkpoint, k ticks take k·dt off the time remaining and respawn nothing while more than k·dt was left. |
| RaceStatus.RespawnOnBonusTick | aircraft_mla/Aircraft/Assets/Aircraft/Scripts/RaceManager.cs:304-310 | With a bonus of exactly n ticks and no checkpoint, there is no respawn before tick n. On tick n there is exactly one, and the status returns to its starting value. |
| RaceStatus.FifteenSecondTimeout | aircraft_mla/Aircraft/Assets/Aircraft/Scripts/RaceManager.cs:304-310 | With the default 15-second bonus and 0.02-second ticks, the first respawn is at tick 750. |
| RaceStatus.FollowPassesCountsLaps | aircraft_mla/Aircraft/Assets/Aircraft/Scripts/RaceManager.cs:288-296 | On a track of at least two checkpoints, following up to N passes records the agent's index. It counts one lap exactly when the passes reach checkpoint 0 and keeps the place. |
| RaceStatus.FullLapCountsOnce | aircraft_mla/Aircraft/Assets/Aircraft/Scripts/RaceManager.cs:288-296 | A full lap of passes returns the record to its checkpoint with the lap one higher. |
| RaceStatus.FourCheckpointLap | aircraft_mla/Aircraft/Assets/Aircraft/Scripts/RaceManager.cs:288-296 | On four checkpoints, starting at checkpoint 0 of lap 1, four passes give lap 2 heading for checkpoint 0. |
| RaceStatus.SingleCheckpointNeverCountsLaps | aircraft_mla/Aircraft/Assets/Aircraft/Scripts/RaceManager.cs:288-296 | With one checkpoint the agent's index is always 0, so the record never changes and no lap is ever counted. |
| Ranking.PlaceComparer | aircraft_mla/Aircraft/Assets/Aircraft/Scripts/RaceManager.cs:321-342 | The comparer returns -1, 0 or 1. |
| Ranking.EqualKeysSameCheckpoint | aircraft_mla/Aircraft/Assets/Aircraft/Scripts/RaceManager.cs:325-327 | With indices in [0, N), equal checkpoints-completed keys mean the same lap and the same checkpoint. So a's next checkpoint is also b's. |
| Ranking.ComparerRanks | aircraft_mla/Aircraft/Assets/Aircraft/Scripts/RaceManager.cs:321-342 | The comparer is negative exactly when a ranks ahead of b and positive exactly when b ranks ahead of a. Ranking ahead means more checkpoints completed, or the same and closer to the next checkpoint. The comparer is antisymmetric in sign. |
| Ranking.PrecedesTotalPreorder | aircraft_mla/Aircraft/Assets/Aircraft/Scripts/RaceManager.cs:321-342 | The comparer's "not after" relation is total, reflexive and transitive, so sorting with it is well defined. |
| Ranking.SortByPlace | aircraft_mla/Aircraft/Assets/Aircraft/Scripts/RaceManager.cs:276 | The sorted list is a permutation of the list it sorts, and it names only existing aircraft. |
| Ranking.InsertSorted | aircraft_mla/Aircraft/Assets/Aircraft/Scripts/RaceManager.cs:276 | Inserting a handle into a list sorted by the comparer keeps it sorted. |
| Ranking.SortByPlaceSorted | aircraft_mla/Aircraft/Assets/Aircraft/Scripts/RaceManager.cs:276 | The sorted list is ordered by the comparer. |
| Ranking.HandlesOnce | aircraft_mla/Aircraft/Assets/Aircraft/Scripts/RaceManager.cs:269-273 | Each handle below M occurs in that copy exactly once, and no other handle occurs. |
| Ranking.HandleOrderFacts | aircraft_mla/Aircraft/Assets/Aircraft/Scripts/RaceManager.cs:269-276 | Any reordering of the agent list has M entries, all existing handles, all distinct, with every aircraft present. |
| Ranking.RankingPlaces | aircraft_mla/Aircraft/Assets/Aircraft/Scripts/RaceManager.cs:276-280 | After a ranking the places are:<br>• in 1..M;<br>• distinct, with every place taken;<br>• such that an aircraft that ranks ahead of another has the smaller place. |
| Ranking.TickAllKeepsPlaces | aircraft_mla/Aircraft/Assets/Aircraft/Scripts/RaceManager.cs:264-311 | Ranking before the status loop changes only places. The loop keeps those places, and every lap, game-over and respawn decision is the one the unranked statuses would give. |
| Ranking.CloserAircraftSortsFirst | aircraft_mla/Aircraft/Assets/Aircraft/Scripts/RaceManager.cs:327-333 | Two aircraft with the same checkpoint count, 10 and 3 units from the checkpoint, are sorted closer first. |
| RaceClock.PauseFreezesClock | aircraft_mla/Aircraft/Assets/Aircraft/Scripts/RaceManager.cs:236-241 | Whenever the clock is read after a pause, it shows what it showed at the pause. |
| RaceClock.ResumeContinues | aircraft_mla/Aircraft/Assets/Aircraft/Scripts/RaceManager.cs:229-235 | Resuming continues the clock from its paused value. |
| RaceClock.ClockMonotone | aircraft_mla/Aircraft/Assets/Aircraft/Scripts/RaceManager.cs:61-78 | While Playing the clock never runs backwards. In every other state it stands still. |
| RaceClock.ResetZeroesClock | aircraft_mla/Aircraft/Assets/Aircraft/Scripts/RaceManager.cs:252-257 | Entering any state other than Playing, Paused or Gameover zeroes both timers and the clock. |
| RaceClock.ReplayTracksPlayedTime | aircraft_mla/Aircraft/Assets/Aircraft/Scripts/RaceManager.cs:227-258 | Over any sequence of state changes the game can make, the two timers equal an independent "time played since the last reset":<br>• while Playing, banked time plus time since the resume;<br>• in Paused and Gameover, the banked time;<br>• in any other state, zero. |
| RaceClock.RaceTimeIsPlayedTime | aircraft_mla/Aircraft/Assets/Aircraft/Scripts/RaceManager.cs:61-78 | RaceTime reports exactly the time played while Playing or Paused, and 0 otherwise. After Gameover the banked timer holds the time played. |
| RaceClock.PauseNotCounted | aircraft_mla/Aircraft/Assets/Aircraft/Scripts/RaceManager.cs:61-78 | Started at s, paused at p and resumed at r, the clock shows (p - s) + (now - r), whatever the length of the pause. |
| Aircraft.AircraftArea.Awake | aircraft_mla/Aircraft/Assets/Aircraft/Scripts/AircraftArea.cs:30-34 | The area's agents are those found, and there is at least one. |
| Aircraft.AircraftArea.Start | aircraft_mla/Aircraft/Assets/Aircraft/Scripts/AircraftArea.cs:42-63 | The area gets exactly numCheckpoints new, distinct checkpoints in index order, checkpoint i at waypoint i. Exactly the last one uses the finish prefab. |
| Aircraft.AircraftArea.ResetAgentPosition | aircraft_mla/Aircraft/Assets/Aircraft/Scripts/AircraftArea.cs:71-81 | Without randomizing the next checkpoint is unchanged. With randomizing it is the draw, which lies in [0, N). The agent is put at the previous checkpoint, with 0 wrapping to N-1. |
| Aircraft.AircraftAgent.constructor | aircraft_mla/Aircraft/Assets/Aircraft/Scripts/AircraftAgent.cs:54-65 | maxStep is 5000 in training and 0 when racing, and the controls start at zero. |
| Aircraft.AircraftAgent.AgentAction | aircraft_mla/Aircraft/Assets/Aircraft/Scripts/AircraftAgent.cs:72-107 | Pitch and yaw decode 2 as -1, and boost is on exactly for 1.<br>• The trail emits exactly when boosting and is cleared only when boost starts, even when frozen.<br>• A frozen agent changes nothing else and earns nothing.<br>• Otherwise it moves, as ProcessMovement states.<br>• In training it earns -1/5000, plus -0.5 and done when the step count passes the timeout, plus 0.5 and the next checkpoint when within the radius. |
| Aircraft.AircraftAgent.ProcessMovement | aircraft_mla/Aircraft/Assets/Aircraft/Scripts/AircraftAgent.cs:220-260 | The roll target is RollTarget, the smoothed values take one Smooth step, and the new rotation is the clamped NewRotation. |
| Aircraft.AircraftAgent.AgentReset | aircraft_mla/Aircraft/Assets/Aircraft/Scripts/AircraftAgent.cs:160-170 | The reset stops the agent and its trail. It respawns the agent (at a random checkpoint in training) at the previous checkpoint, and in training restarts the step timeout. |
| Aircraft.AircraftAgent.FreezeAgent | aircraft_mla/Aircraft/Assets/Aircraft/Scripts/AircraftAgent.cs:175-181 | The agent is frozen and its trail stopped. This is not allowed in training. |
| Aircraft.AircraftAgent.ThawAgent | aircraft_mla/Aircraft/Assets/Aircraft/Scripts/AircraftAgent.cs:186-191 | The agent is no longer frozen. This is not allowed in training. |
| Aircraft.AircraftAgent.GotCheckpoint | aircraft_mla/Aircraft/Assets/Aircraft/Scripts/AircraftAgent.cs:196-206 | The next checkpoint is (i + 1) % N, still a valid index. In training the agent earns 0.5 and the timeout becomes step + stepTimeout. |
| Aircraft.AircraftAgent.OnTriggerEnter | aircraft_mla/Aircraft/Assets/Aircraft/Scripts/AircraftAgent.cs:280-287 | A pass counts exactly when the collider is tagged "checkpoint" and is the checkpoint the agent heads for. Only then does the index advance; in training the pass also earns 0.5 and restarts the step timeout at step + stepTimeout. Otherwise reward and timeout are unchanged. |
| Aircraft.AircraftAgent.OnCollisionEnter | aircraft_mla/Aircraft/Assets/Aircraft/Scripts/AircraftAgent.cs:293-309 | Hitting another agent does nothing. Hitting anything else gives -1 and done in training; in a race the aircraft explodes and respawns at its last completed checkpoint, unfrozen. |
| Aircraft.AircraftAgent.ExplosionReset | aircraft_mla/Aircraft/Assets/Aircraft/Scripts/AircraftAgent.cs:315-331 | The agent ends up unfrozen with its trail off, at its previous checkpoint. Its next checkpoint is unchanged. |
| Race.AssignPlaces | aircraft_mla/Aircraft/Assets/Aircraft/Scripts/RaceManager.cs:277-280 | The aircraft at sorted position i gets place i + 1, and nothing else in any status changes. |
| Race.RankAircraft | aircraft_mla/Aircraft/Assets/Aircraft/Scripts/RaceManager.cs:269-280 | One ranking sorts the previous order with the comparer and places the aircraft in sorted order. The places then reflect the ranking, as RankingPlaces states. |
| Race.RaceManager.constructor | aircraft_mla/Aircraft/Assets/Aircraft/Scripts/RaceManager.cs:44-49 | Both pause timers and the last ranking time start at 0 (the field initialisers at these lines), with no statuses and no ranked order yet. The state is Preparing because the main menu loads the race scene in that state (MainMenuController.cs:58, which sets it through GameManager.cs:96-110 once the scene has loaded). |
| Race.RaceManager.Start | aircraft_mla/Aircraft/Assets/Aircraft/Scripts/RaceManager.cs:147-185 | Every agent is frozen. The camera follows the last player agent in the list, or agent 0 when there is none. |
| Race.RaceManager.StartRace | aircraft_mla/Aircraft/Assets/Aircraft/Scripts/RaceManager.cs:191-209 | Every aircraft starts at checkpoint 0, lap 1, place 0, with the full bonus time. The game enters Playing, the clock resumes and the agents thaw, with their trails left as they were. |
| Race.RaceManager.PauseInputPerformed | aircraft_mla/Aircraft/Assets/Aircraft/Scripts/RaceManager.cs:215-222 | The pause key pauses (banking the time played and freezing every agent) only while Playing. Otherwise it changes neither the clock nor any agent. No agent's next checkpoint changes. |
| Race.RaceManager.SetGameState | aircraft_mla/Aircraft/Assets/Aircraft/Scripts/GameManager.cs:47-51 | Setting the state runs OnStateChange. The clock moves as RaceClock.Enter says. Playing thaws every agent and leaves its trail alone; Paused and Gameover freeze every agent with its trail off; any other state leaves the agents alone. No agent's next or spawn checkpoint changes. |
| Race.RaceManager.OnStateChange | aircraft_mla/Aircraft/Assets/Aircraft/Scripts/RaceManager.cs:227-258 | Entering Playing records the resume time and thaws every agent, changing only the frozen flag (trails are left as they were). Entering Paused or Gameover banks the time and freezes them. Any other state zeroes both timers and leaves the agents alone. |
| Race.RaceManager.UpdatePlaces | aircraft_mla/Aircraft/Assets/Aircraft/Scripts/RaceManager.cs:264-281 | The last ranking time becomes now. The handle copy is made on first use, the order is re-sorted from the previous one, and the places reflect the ranking. |
| Race.RaceManager.UpdateLap | aircraft_mla/Aircraft/Assets/Aircraft/Scripts/RaceManager.cs:288-302 | When the agent moved on, its index is copied and the bonus time restored. A move to 0 adds a lap. The game is over (clock banked, all frozen) exactly when the followed agent passes numLaps. |
| Race.RaceManager.UpdateTimeRemaining | aircraft_mla/Aircraft/Assets/Aircraft/Scripts/RaceManager.cs:304-310 | The time drops by dt. It runs out exactly when it was at most dt, and then the agent respawns at its previous checkpoint and the time is the bonus again. |
| Race.RaceManager.UpdateAgentStatus | aircraft_mla/Aircraft/Assets/Aircraft/Scripts/RaceManager.cs:284-311 | One agent's status becomes its Tick and no other status changes. The game ends exactly on the followed agent's final lap, and only then is any agent frozen or its trail stopped. This agent alone is respawned, at its previous checkpoint, exactly on a Tick respawn; every other spawn checkpoint is unchanged. |
| Race.RaceManager.UpdateStatuses | aircraft_mla/Aircraft/Assets/Aircraft/Scripts/RaceManager.cs:283-311 | The status loop:<br>• every status is ticked towards its agent's next checkpoint, and the places it was given are kept;<br>• game over (clock banked, every agent frozen with its trail off) exactly when the followed agent's tick passes numLaps; otherwise every agent's frozen and trail flags are unchanged;<br>• each aircraft whose countdown ran out is respawned at its last checkpoint, and every other spawn checkpoint is unchanged. |
| Race.RaceManager.TickAgents | aircraft_mla/Aircraft/Assets/Aircraft/Scripts/RaceManager.cs:284-311 | The loop over the agents in list order: each status becomes its Tick towards the agent's next checkpoint. The followed agent's final lap ends the game, and only then are agents frozen. Exactly the agents whose Tick respawns get their previous checkpoint as spawn point. |
| Race.RaceManager.RankAndTick | aircraft_mla/Aircraft/Assets/Aircraft/Scripts/RaceManager.cs:264-311 | When a ranking is due, the statuses are ranked first (the order re-sorted from the previous one, the places reflecting the ranking), and the ranked statuses are then ticked as UpdateStatuses states, with the same game-over, freeze, trail and respawn rules. |
| Race.RaceManager.FixedUpdate | aircraft_mla/Aircraft/Assets/Aircraft/Scripts/RaceManager.cs:260-313 | Outside Playing nothing changes: not the statuses, the clock, the ranking time, the ranked list or any agent. While Playing:<br>• a ranking happens exactly when lastPlaceUpdate + 0.5 < fixedTime, and the status loop follows, as RankAndTick and UpdateStatuses state;<br>• when no ranking is due, the ranked list is unchanged, so the next ranking starts from the last order;<br>• the agents' next checkpoints are not in FixedUpdate's frame, so none of them changes. |

## Left out

- Unity physics and transforms are not modelled: thrust, boostMultiplier, `AddForce`, `Sleep`/`WakeUp` and quaternions. The agent's velocity is only zeroed on reset. The Euler angles that ProcessMovement writes are recorded as a value.
- `CollectObservations` and `RayPerception3D` are left out because they are foreign ML-Agents calls. `VectorToNextCheckpoint` is an input: its length in AgentAction. The ranking's tie-break is also an input, the distance function: `PlaceComparer` measures `Vector3.Distance` from each aircraft to the checkpoint at the index recorded in its status (RaceManager.cs:85-88, 330-332), and the model passes it as `distance(handle, checkpointIndex)`.
- Cinemachine path evaluation and the random sideways spawn offset are left out because they are library geometry. Only the index of the spawn checkpoint is kept.
- Coroutines are left out. The countdown before `StartRace` is gone, and `ExplosionReset` runs its freeze, respawn and thaw without the waits between them.
- The UI is left out: HUD, pause menu, game-over screen and camera. So are the difficulty models given to AI agents (`GiveModel`) and scene loading.
- The getters `GetAgentLap`, `GetAgentTime` and `GetAgentNextCheckpoint` are field reads of the status sequence and need no member of their own.
- `Debug.Assert` calls become preconditions: a non-empty agent list at wake-up, and Freeze/Thaw outside training.
- IEEE floating point is not modelled, because times, angles and rewards are mathematical reals. In particular the countdown's "reached exactly 0" test and `Mathf.Round` work on exact values.
- The learning algorithm is not modelled. Rewards and episode ends are outputs only.
- Ranking.SortByPlace: `List.Sort` is an unstable introsort, and the model sorts by insertion. Both yield a permutation ordered by the comparer, but aircraft that compare equal may end in a different order.
- FlightControl.ClampAngle: its properties are stated only for bounds -180 < from < 0 < to <= 180. The equality with the signed clamp covers angles in [-180, 360), and the bound on the result covers angles in [-180, 360 + to]. An engine Euler angle in [0, 360) plus a step under 45 degrees lies in [-180, 405], which is 360 + to for the ±45-degree limits. Outside these ranges the function is still defined, but nothing is claimed.
- Race.RaceManager.FixedUpdate: the contract is stated for one call. A whole race is covered by the lemmas about RaceStatus.Tick and RaceClock.Replay, not by a loop over calls.
