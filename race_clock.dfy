/**
 * The race manager's pause-aware race clock: the two pause timers, how a
 * game state change updates them (OnStateChange), and the time they report
 * (RaceTime). Time.time is passed in as `now`.
 */
module RaceClock {
  import opened GameStates

  /** The pause timers together with the game state they were last updated for. */
  datatype Clock = Clock(state: GameState, lastResumeTime: real, previouslyElapsedTime: real)

  /** Both timers start at 0, before any state change. */
  const Initial: Clock := Clock(Default, 0.0, 0.0)

  /** States whose entry banks the time played since the last resume. */
  predicate Banks(s: GameState) {
    s == Paused || s == Gameover
  }

  /** States whose entry zeroes both timers. */
  predicate Resets(s: GameState) {
    s != Playing && !Banks(s)
  }

  /**
   * OnStateChange after the state was set to s at time now: entering Playing
   * records the resume time, entering Paused or Gameover banks the time
   * played since then, and any other state zeroes both timers.
   */
  function Enter(c: Clock, s: GameState, now: real): Clock {
    match s
    case Playing => Clock(s, now, c.previouslyElapsedTime)
    case Paused => Clock(s, c.lastResumeTime, c.previouslyElapsedTime + (now - c.lastResumeTime))
    case Gameover => Clock(s, c.lastResumeTime, c.previouslyElapsedTime + (now - c.lastResumeTime))
    case _ => Clock(s, 0.0, 0.0)
  }

  /** The RaceTime getter: running while Playing, held while Paused, 0 otherwise. */
  function RaceTime(c: Clock, now: real): real {
    if c.state == Playing then c.previouslyElapsedTime + now - c.lastResumeTime
    else if c.state == Paused then c.previouslyElapsedTime
    else 0.0
  }

  /**
   * Pausing stops the clock: whenever it is read later, a clock paused at
   * time now reports what it showed at now.
   */
  lemma PauseFreezesClock(c: Clock, now: real, later: real)
    requires c.state == Playing
    ensures RaceTime(Enter(c, Paused, now), later) == RaceTime(c, now)
  {
  }

  /** Resuming continues the clock from the value it was paused at. */
  lemma ResumeContinues(c: Clock, now: real, later: real)
    requires c.state == Paused
    ensures RaceTime(Enter(c, Playing, now), later) == RaceTime(c, now) + (later - now)
  {
  }

  /** While Playing the clock never runs backwards, and while Paused it stands still. */
  lemma ClockMonotone(c: Clock, now: real, later: real)
    requires now <= later
    ensures c.state == Playing ==> RaceTime(c, now) <= RaceTime(c, later)
    ensures c.state != Playing ==> RaceTime(c, now) == RaceTime(c, later)
  {
  }

  /** Entering a state other than Playing, Paused or Gameover zeroes the timers and the clock. */
  lemma ResetZeroesClock(c: Clock, s: GameState, now: real, later: real)
    requires Resets(s)
    ensures Enter(c, s, now) == Clock(s, 0.0, 0.0)
    ensures RaceTime(Enter(c, s, now), later) == 0.0
  {
  }

  /** A game state change at a given time. */
  datatype Transition = Transition(to: GameState, at: real)

  /** The timers after a sequence of state changes, starting from Initial. */
  function Replay(trace: seq<Transition>): Clock
    decreases |trace|
  {
    if trace == [] then Initial
    else
      var last := trace[|trace| - 1];
      Enter(Replay(trace[..|trace| - 1]), last.to, last.at)
  }

  /** The state in force before change i. */
  function Prior(trace: seq<Transition>, i: int): GameState
    requires 0 <= i < |trace|
  {
    if i == 0 then Default else trace[i - 1].to
  }

  /**
   * The changes the game makes: Paused (PauseInputPerformed) and Gameover
   * (FixedUpdate) are entered only from Playing, and Playing (StartRace, the
   * resume button) never from Playing.
   */
  predicate WellFormed(trace: seq<Transition>) {
    forall i :: 0 <= i < |trace| ==>
      (Banks(trace[i].to) ==> Prior(trace, i) == Playing) &&
      (trace[i].to == Playing ==> Prior(trace, i) != Playing)
  }

  /**
   * The reference: the summed length of the Playing intervals since the last
   * reset, the final interval running until now.
   */
  function PlayedTime(trace: seq<Transition>, now: real): real
    decreases |trace|
  {
    if trace == [] then 0.0
    else
      var last := trace[|trace| - 1];
      var earlier := PlayedTime(trace[..|trace| - 1], last.at);
      if last.to == Playing then earlier + (now - last.at)
      else if Banks(last.to) then earlier
      else 0.0
  }

  /**
   * The timers track the played time: while Playing the banked time plus the
   * time since the resume is the played time, in Paused and Gameover the
   * banked time is the played time, and in any other state both are zero.
   */
  lemma {:induction false} ReplayTracksPlayedTime(trace: seq<Transition>, now: real)
    requires WellFormed(trace)
    ensures var c := Replay(trace);
            && c.state == (if trace == [] then Default else trace[|trace| - 1].to)
            && (c.state == Playing ==> c.previouslyElapsedTime + (now - c.lastResumeTime) == PlayedTime(trace, now))
            && (Banks(c.state) ==> c.previouslyElapsedTime == PlayedTime(trace, now))
            && (Resets(c.state) ==> c.lastResumeTime == 0.0 && c.previouslyElapsedTime == 0.0 && PlayedTime(trace, now) == 0.0)
    decreases |trace|
  {
    if trace != [] {
      var n := |trace| - 1;
      var prefix := trace[..n];
      var last := trace[n];
      assert WellFormed(prefix) by {
        forall i | 0 <= i < |prefix|
          ensures Prior(prefix, i) == Prior(trace, i)
        {
        }
      }
      ReplayTracksPlayedTime(prefix, last.at);
      assert Prior(trace, n) == Replay(prefix).state;
    }
  }

  /**
   * RaceTime reports exactly the time played since the last reset while
   * Playing or Paused, and 0 in every other state; after Gameover the banked
   * timer holds the played time.
   */
  lemma RaceTimeIsPlayedTime(trace: seq<Transition>, now: real)
    requires WellFormed(trace)
    ensures var c := Replay(trace);
            && (c.state == Playing || c.state == Paused ==> RaceTime(c, now) == PlayedTime(trace, now))
            && (c.state == Gameover ==> c.previouslyElapsedTime == PlayedTime(trace, now))
            && (c.state != Playing && c.state != Paused ==> RaceTime(c, now) == 0.0)
  {
    ReplayTracksPlayedTime(trace, now);
  }

  /**
   * Preparing, started at s, paused at p, resumed at r: at time now the
   * clock shows p - s + now - r, whatever the length of the pause.
   */
  lemma PauseNotCounted(s: real, p: real, r: real, now: real)
    ensures var trace := [Transition(Preparing, 0.0), Transition(Playing, s), Transition(Paused, p), Transition(Playing, r)];
            RaceTime(Replay(trace), now) == (p - s) + (now - r)
  {
    var trace := [Transition(Preparing, 0.0), Transition(Playing, s), Transition(Paused, p), Transition(Playing, r)];
    assert trace[..3][..2][..1][..0] == [];
    assert Replay(trace[..1]) == Clock(Preparing, 0.0, 0.0);
    assert Replay(trace[..2]) == Clock(Playing, s, 0.0) by { assert trace[..2][..1] == trace[..1]; }
    assert Replay(trace[..3]) == Clock(Paused, s, p - s) by { assert trace[..3][..2] == trace[..2]; }
  }
}
