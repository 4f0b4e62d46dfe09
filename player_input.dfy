/**
 * AircraftPlayer.Heuristic: the human player's three input axes, rounded and
 * written as the same discrete action array the learned policy produces, so
 * that AgentAction decodes both the same way.
 */
module PlayerInput {
  import opened FlightControl

  predicate IsEven(n: int) {
    n % 2 == 0
  }

  /**
   * Unity's Mathf.Round: the nearest integer, and the even one of the two
   * when x lies exactly half-way between them.
   */
  function Round(x: real): (r: int)
    ensures -0.5 <= x - r as real <= 0.5
    ensures x - r as real == 0.5 || x - r as real == -0.5 ==> IsEven(r)
  {
    var f := x.Floor;
    var frac := x - f as real;
    if frac < 0.5 then f
    else if frac > 0.5 then f + 1
    else if IsEven(f) then f
    else f + 1
  }

  /** An integer rounds to itself. */
  lemma RoundInteger(n: int)
    ensures Round(n as real) == n
  {
  }

  /** The discrete value sent for a rounded pitch or yaw: -1 is sent as 2. */
  function EncodeDirection(v: int): real {
    if v == -1 then 2.0 else v as real
  }

  /**
   * Heuristic's action array: [pitch, yaw, boost], each input rounded, with
   * a rounded -1 for pitch or yaw sent as 2; boost is never remapped.
   */
  function Heuristic(pitchInput: real, yawInput: real, boostInput: real): (action: seq<real>)
    ensures |action| == 3
    ensures Round(pitchInput) == -1 ==> action[0] == 2.0
    ensures Round(pitchInput) != -1 ==> action[0] == Round(pitchInput) as real
    ensures Round(yawInput) == -1 ==> action[1] == 2.0
    ensures Round(yawInput) != -1 ==> action[1] == Round(yawInput) as real
    ensures action[2] == Round(boostInput) as real
  {
    [EncodeDirection(Round(pitchInput)), EncodeDirection(Round(yawInput)), Round(boostInput) as real]
  }

  /** Decoding undoes encoding for every direction the player can give. */
  lemma DirectionRoundTrip(v: int)
    requires -1 <= v <= 1
    ensures DecodeDirection(EncodeDirection(v)) == v as real
  {
  }

  /** Encoding undoes decoding for every discrete action value 0, 1, 2. */
  lemma ActionValueRoundTrip(a: int)
    requires 0 <= a <= 2
    ensures EncodeDirection(DecodeDirection(a as real).Floor) == a as real
    ensures DecodeDirection(a as real) == DecodeDirection(a as real).Floor as real
  {
  }

  /**
   * An input axis in [-1, 1] reaches AgentAction as exactly its rounded value:
   * pitch and yaw through the 2 -> -1 decoding, boost switched on exactly when
   * the rounded boost axis is 1.
   */
  lemma HeuristicDecodes(pitchInput: real, yawInput: real, boostInput: real)
    requires -1.0 <= pitchInput <= 1.0 && -1.0 <= yawInput <= 1.0
    ensures var action := Heuristic(pitchInput, yawInput, boostInput);
            && DecodeDirection(action[0]) == Round(pitchInput) as real
            && DecodeDirection(action[1]) == Round(yawInput) as real
            && (DecodeBoost(action[2]) <==> Round(boostInput) == 1)
  {
    var p, y := Round(pitchInput), Round(yawInput);
    assert -1 <= p <= 1 && -1 <= y <= 1;
    DirectionRoundTrip(p);
    DirectionRoundTrip(y);
  }
}
