/**
 * `DroneBladeController`: status keywords switch two flags, and the spin
 * speed ramps up to `maxSpinSpeed` or down to 0 by rate * deltaTime.
 */
module Blades {
  import opened Optional
  import opened Geometry

  /** `key` occurs in `s` starting at index `i`. */
  predicate OccursAt(s: string, key: string, i: int) {
    0 <= i <= |s| - |key| && s[i..i + |key|] == key
  }

  /** Ordinal (case-sensitive) `string.Contains`. */
  function Contains(s: string, key: string): bool
    decreases |s|
  {
    |key| <= |s| && (s[..|key|] == key || (|s| > 0 && Contains(s[1..], key)))
  }

  /** `Contains` finds exactly the keys that occur at some position of `s`. */
  lemma {:induction false} ContainsIff(s: string, key: string)
    ensures Contains(s, key) <==> exists i :: OccursAt(s, key, i)
    decreases |s|
  {
    if |key| <= |s| {
      if s[..|key|] == key {
        assert OccursAt(s, key, 0);
      } else if |s| > 0 {
        ContainsIff(s[1..], key);
        if Contains(s[1..], key) {
          var i :| OccursAt(s[1..], key, i);
          assert OccursAt(s, key, i + 1);
        }
        if exists i :: OccursAt(s, key, i) {
          var i :| OccursAt(s, key, i);
          assert i > 0;
          assert OccursAt(s[1..], key, i - 1);
        }
      }
    }
  }

  /** A key whose first character never appears in `s` is not contained in it. */
  lemma {:induction false} FirstCharAbsent(s: string, key: string)
    requires |key| > 0 && forall i :: 0 <= i < |s| ==> s[i] != key[0]
    ensures !Contains(s, key)
    decreases |s|
  {
    if |key| <= |s| {
      assert s[..|key|][0] != key[0];
      FirstCharAbsent(s[1..], key);
    }
  }

  datatype Command = SpinUp | SpinDown | NoCommand

  /** The keyword dispatch of Update: "Arming" is tested before "Disarming". */
  function KeywordCommand(status: Option<string>): Command {
    if status.None? || status.value == "" then NoCommand
    else if Contains(status.value, "Arming") then SpinUp
    else if Contains(status.value, "Disarming") then SpinDown
    else NoCommand
  }

  /**
   * Ordinal matching keeps the two keywords apart: a status reporting
   * "Disarming" without a capital 'A' anywhere is read as a disarm, not as
   * arming, although "Disarming" ends in "arming".
   */
  lemma DisarmReportStopsSpinning(s: string)
    requires Contains(s, "Disarming")
    requires forall i :: 0 <= i < |s| ==> s[i] != 'A'
    ensures KeywordCommand(Some(s)) == SpinDown
  {
    FirstCharAbsent(s, "Arming");
  }

  /** An arming report starts the blades. */
  lemma ArmingReportStartsSpinning()
    ensures KeywordCommand(Some("Status: Arming motors")) == SpinUp
  {
    var up := "Status: Arming motors";
    assert up[8..14] == "Arming";
    assert OccursAt(up, "Arming", 8);
    ContainsIff(up, "Arming");
  }

  /** A disarming report stops them. */
  lemma DisarmingReportStopsSpinning()
    ensures KeywordCommand(Some("Status: Disarming motors")) == SpinDown
  {
    var down := "Status: Disarming motors";
    assert down[8..17] == "Disarming";
    assert OccursAt(down, "Disarming", 8);
    ContainsIff(down, "Disarming");
    assert forall i :: 0 <= i < |down| ==> down[i] != 'A';
    DisarmReportStopsSpinning(down);
  }

  function RampUp(speed: real, rate: real, deltaTime: real, maxSpeed: real): real {
    Min(speed + rate * deltaTime, maxSpeed)
  }

  function RampDown(speed: real, rate: real, deltaTime: real): real {
    Max(speed - rate * deltaTime, 0.0)
  }

  /**
   * With non-negative rates and frame time, neither ramp leaves [0, max]:
   * spinning up never passes the maximum and spinning down never passes zero.
   */
  lemma RampsStayInRange(speed: real, up: real, down: real, deltaTime: real, maxSpeed: real)
    requires 0.0 <= speed <= maxSpeed
    requires 0.0 <= up && 0.0 <= down && 0.0 <= deltaTime
    ensures speed <= RampUp(speed, up, deltaTime, maxSpeed) <= maxSpeed
    ensures 0.0 <= RampDown(speed, down, deltaTime) <= speed
  {
    MulNonNeg(up, deltaTime);
    MulNonNeg(down, deltaTime);
  }

  class DroneBladeController {
    var maxSpinSpeed: real
    var spinAcceleration: real
    var spinDeceleration: real
    var currentSpinSpeed: real
    var isSpinningUp: bool
    var isSpinningDown: bool

    predicate FlagsExclusive()
      reads this
    {
      !(isSpinningUp && isSpinningDown)
    }

    predicate RatesNonNegative()
      reads this
    {
      0.0 <= maxSpinSpeed && 0.0 <= spinAcceleration && 0.0 <= spinDeceleration
    }

    predicate SpeedInRange()
      reads this
    {
      0.0 <= currentSpinSpeed <= maxSpinSpeed
    }

    constructor (maxSpinSpeed: real, spinAcceleration: real, spinDeceleration: real)
      ensures this.maxSpinSpeed == maxSpinSpeed && this.spinAcceleration == spinAcceleration
      ensures this.spinDeceleration == spinDeceleration
      ensures currentSpinSpeed == 0.0 && !isSpinningUp && !isSpinningDown
      ensures FlagsExclusive() && (0.0 <= maxSpinSpeed ==> SpeedInRange())
    {
      this.maxSpinSpeed := maxSpinSpeed;
      this.spinAcceleration := spinAcceleration;
      this.spinDeceleration := spinDeceleration;
      currentSpinSpeed := 0.0;
      isSpinningUp, isSpinningDown := false, false;
    }

    method StartSpinning()
      modifies this`isSpinningUp, this`isSpinningDown
      ensures isSpinningUp && !isSpinningDown
    {
      isSpinningUp := true;
      isSpinningDown := false;
    }

    method StopSpinning()
      modifies this`isSpinningUp, this`isSpinningDown
      ensures !isSpinningUp && isSpinningDown
    {
      isSpinningUp := false;
      isSpinningDown := true;
    }

    /**
     * One frame: react to the receiver's status message (absent when the
     * receiver reference is missing), then move the speed.
     */
    method Update(receiverStatus: Option<Option<string>>, deltaTime: real)
      modifies this`isSpinningUp, this`isSpinningDown, this`currentSpinSpeed
      ensures var cmd := if receiverStatus.None? then NoCommand else KeywordCommand(receiverStatus.value);
        && (cmd == SpinUp ==> isSpinningUp && !isSpinningDown)
        && (cmd == SpinDown ==> !isSpinningUp && isSpinningDown)
        && (cmd == NoCommand ==> isSpinningUp == old(isSpinningUp) && isSpinningDown == old(isSpinningDown))
      ensures isSpinningUp ==>
        currentSpinSpeed == RampUp(old(currentSpinSpeed), spinAcceleration, deltaTime, maxSpinSpeed)
      ensures !isSpinningUp && isSpinningDown ==>
        currentSpinSpeed == RampDown(old(currentSpinSpeed), spinDeceleration, deltaTime)
      ensures !isSpinningUp && !isSpinningDown ==> currentSpinSpeed == old(currentSpinSpeed)
      ensures old(FlagsExclusive()) ==> FlagsExclusive()
      ensures old(SpeedInRange()) && RatesNonNegative() && 0.0 <= deltaTime ==> SpeedInRange()
    {
      if receiverStatus.Some? {
        var statusMessage := receiverStatus.value;
        if !(statusMessage.None? || statusMessage.value == "") {
          if Contains(statusMessage.value, "Arming") {
            StartSpinning();
          } else if Contains(statusMessage.value, "Disarming") {
            StopSpinning();
          }
        }
      }
      if RatesNonNegative() && 0.0 <= deltaTime && SpeedInRange() {
        RampsStayInRange(currentSpinSpeed, spinAcceleration, spinDeceleration, deltaTime, maxSpinSpeed);
      }
      if isSpinningUp {
        currentSpinSpeed := RampUp(currentSpinSpeed, spinAcceleration, deltaTime, maxSpinSpeed);
      } else if isSpinningDown {
        currentSpinSpeed := RampDown(currentSpinSpeed, spinDeceleration, deltaTime);
      }
    }
  }
}
