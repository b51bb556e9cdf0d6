/**
 * The test-mode page: a simulated temperature that drifts toward the target,
 * the threshold law that turns the temperature error into a PWM percentage,
 * and three 120-entry diagnostic histories (src/testing_page.py).
 */
module TestMode {
  import opened Results
  import opened Rolling

  /** The diagnostic histories are `deque(maxlen=120)`. */
  const HistoryCapacity: nat := 120

  /** The simulated temperature is kept within these bounds (°C). */
  const LowestTemperature: real := 20.0
  const HighestTemperature: real := 100.0

  /** The PWM percentages the threshold law can command. */
  const DutyLevels: set<int> := {0, 10, 30, 60, 100}

  /**
   * The threshold law on `error = target - current`: a coarse step table in
   * which each boundary belongs to the lower bracket.
   */
  function HeaterDuty(error: real): (pwm: int)
    ensures pwm in DutyLevels
    ensures pwm > 0 <==> error > 0.0
  {
    if error > 0.0 then
      if error > 5.0 then 100
      else if error > 2.0 then 60
      else if error > 0.5 then 30
      else 10
    else
      0
  }

  /** Each PWM level is commanded on exactly one half-open bracket of the error. */
  lemma HeaterDutyBrackets(error: real)
    ensures HeaterDuty(error) == 100 <==> 5.0 < error
    ensures HeaterDuty(error) == 60 <==> 2.0 < error <= 5.0
    ensures HeaterDuty(error) == 30 <==> 0.5 < error <= 2.0
    ensures HeaterDuty(error) == 10 <==> 0.0 < error <= 0.5
    ensures HeaterDuty(error) == 0 <==> error <= 0.0
  {
  }

  /** A larger error never commands less power. */
  lemma HeaterDutyMonotone(e1: real, e2: real)
    requires e1 <= e2
    ensures HeaterDuty(e1) <= HeaterDuty(e2)
  {
  }

  /** The PWM value `update_ui` computes: the threshold law only while control is on and the target is positive. */
  function PwmCommand(active: bool, target: real, current: real): (pwm: int)
    ensures pwm in DutyLevels
    ensures !active || target <= 0.0 ==> pwm == 0
    ensures active && target > 0.0 ==> (pwm > 0 <==> current < target)
  {
    if active && target > 0.0 then HeaterDuty(target - current) else 0
  }

  /** `max(20, min(100, t))`. */
  function ClampTemperature(t: real): (r: real)
    ensures LowestTemperature <= r <= HighestTemperature
    ensures LowestTemperature <= t <= HighestTemperature ==> r == t
    ensures t < LowestTemperature ==> r == LowestTemperature
    ensures t > HighestTemperature ==> r == HighestTemperature
  {
    if t > HighestTemperature then HighestTemperature
    else if t < LowestTemperature then LowestTemperature
    else t
  }

  /**
   * The simulated drift before clamping: up by `rise` below the target, down
   * by `fall` above it, and no change at the target or while control is off
   * or the target is not positive.
   */
  function Drift(active: bool, target: real, current: real, rise: real, fall: real): (next: real)
    requires 0.1 <= rise <= 0.5 && 0.1 <= fall <= 0.3
    ensures !active || target <= 0.0 || current == target ==> next == current
    ensures active && target > 0.0 && current < target ==> current + 0.1 <= next <= current + 0.5
    ensures active && target > 0.0 && current > target ==> current - 0.3 <= next <= current - 0.1
  {
    if active && target > 0.0 then
      if current < target then current + rise
      else if current > target then current - fall
      else current
    else
      current
  }

  class TestingPage {
    var targetTemperature: real
    var currentTemperature: real
    var temperatureControlActive: bool
    var temperatureHistory: seq<real>
    var pwmHistory: seq<int>
    var timeHistory: seq<real>

    /** Every entry ever appended, oldest first; the deques hold their last 120. */
    ghost var temperatureSamples: seq<real>
    ghost var pwmSamples: seq<int>
    ghost var timeSamples: seq<real>

    ghost predicate Valid()
      reads this
      ensures Valid() ==> |temperatureHistory| == |pwmHistory| == |timeHistory| <= HistoryCapacity
    {
      && |temperatureSamples| == |pwmSamples| == |timeSamples|
      && temperatureHistory == LastN(temperatureSamples, HistoryCapacity)
      && pwmHistory == LastN(pwmSamples, HistoryCapacity)
      && timeHistory == LastN(timeSamples, HistoryCapacity)
    }

    /** The page as created: no target, room temperature 25 °C, control off, empty histories. */
    constructor ()
      ensures Valid()
      ensures targetTemperature == 0.0 && currentTemperature == 25.0 && !temperatureControlActive
      ensures temperatureSamples == [] && pwmSamples == [] && timeSamples == []
    {
      targetTemperature := 0.0;
      currentTemperature := 25.0;
      temperatureControlActive := false;
      temperatureHistory, pwmHistory, timeHistory := [], [], [];
      temperatureSamples, pwmSamples, timeSamples := [], [], [];
    }

    /**
     * `set_target_temperature`: `parsed` is what `float()` made of the input
     * field, `None` where it raised `ValueError`.
     */
    method SetTargetTemperature(parsed: Option<real>)
      modifies this`targetTemperature
      ensures targetTemperature == if parsed.Some? then parsed.value else old(targetTemperature)
    {
      if parsed.Some? {
        targetTemperature := parsed.value;
      }
    }

    /** `toggle_temp_control`: flips the control flag, so two toggles restore it. */
    method ToggleTemperatureControl()
      modifies this`temperatureControlActive
      ensures temperatureControlActive == !old(temperatureControlActive)
    {
      temperatureControlActive := !temperatureControlActive;
    }

    /**
     * `update_ui`, once per second: drift the simulated temperature (the random
     * `rise` and `fall` come from `random.uniform(0.1, 0.5)` and
     * `random.uniform(0.1, 0.3)`), clamp it to [20, 100], apply the threshold
     * law, and append one entry to each history.
     */
    method UpdateUi(rise: real, fall: real, now: real) returns (pwm: int)
      requires Valid()
      requires 0.1 <= rise <= 0.5 && 0.1 <= fall <= 0.3
      modifies this`currentTemperature, this`temperatureHistory, this`pwmHistory, this`timeHistory
      modifies this`temperatureSamples, this`pwmSamples, this`timeSamples
      ensures Valid()
      ensures currentTemperature == ClampTemperature(
        Drift(temperatureControlActive, targetTemperature, old(currentTemperature), rise, fall))
      ensures LowestTemperature <= currentTemperature <= HighestTemperature
      ensures pwm == PwmCommand(temperatureControlActive, targetTemperature, currentTemperature)
      ensures temperatureSamples == old(temperatureSamples) + [currentTemperature]
      ensures pwmSamples == old(pwmSamples) + [pwm]
      ensures timeSamples == old(timeSamples) + [now]
      ensures temperatureHistory == Push(old(temperatureHistory), currentTemperature, HistoryCapacity)
      ensures pwmHistory == Push(old(pwmHistory), pwm, HistoryCapacity)
      ensures timeHistory == Push(old(timeHistory), now, HistoryCapacity)
    {
      if temperatureControlActive && targetTemperature > 0.0 {
        if currentTemperature < targetTemperature {
          currentTemperature := currentTemperature + rise;
        } else if currentTemperature > targetTemperature {
          currentTemperature := currentTemperature - fall;
        }
      }
      currentTemperature := ClampTemperature(currentTemperature);

      if temperatureControlActive && targetTemperature > 0.0 {
        var error := targetTemperature - currentTemperature;
        if error > 0.0 {
          if error > 5.0 {
            pwm := 100;
          } else if error > 2.0 {
            pwm := 60;
          } else if error > 0.5 {
            pwm := 30;
          } else {
            pwm := 10;
          }
        } else {
          pwm := 0;
        }
      } else {
        pwm := 0;
      }

      RecordSample(currentTemperature, pwm, now);
    }

    /** The end of `update_ui`: one entry appended to each `deque(maxlen=120)`. */
    method RecordSample(temperature: real, pwm: int, now: real)
      requires Valid()
      modifies this`temperatureHistory, this`pwmHistory, this`timeHistory
      modifies this`temperatureSamples, this`pwmSamples, this`timeSamples
      ensures Valid()
      ensures temperatureSamples == old(temperatureSamples) + [temperature]
      ensures pwmSamples == old(pwmSamples) + [pwm]
      ensures timeSamples == old(timeSamples) + [now]
      ensures temperatureHistory == Push(old(temperatureHistory), temperature, HistoryCapacity)
      ensures pwmHistory == Push(old(pwmHistory), pwm, HistoryCapacity)
      ensures timeHistory == Push(old(timeHistory), now, HistoryCapacity)
    {
      PushWindow(temperatureSamples, temperature, HistoryCapacity);
      PushWindow(pwmSamples, pwm, HistoryCapacity);
      PushWindow(timeSamples, now, HistoryCapacity);
      temperatureHistory := Push(temperatureHistory, temperature, HistoryCapacity);
      pwmHistory := Push(pwmHistory, pwm, HistoryCapacity);
      timeHistory := Push(timeHistory, now, HistoryCapacity);
      temperatureSamples := temperatureSamples + [temperature];
      pwmSamples := pwmSamples + [pwm];
      timeSamples := timeSamples + [now];
    }
  }
}
