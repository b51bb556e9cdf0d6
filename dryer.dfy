/**
 * The main page of the dryer: the drying-session countdown, the preset
 * selection that arms it, and the 60-sample environment history behind the
 * live graph (src/main_page.py).
 */
module Dryer {
  import opened Rolling

  /** The environment history keeps at most this many samples. */
  const HistoryCapacity: nat := 60

  /** The PWM value `start_dryer` sets ("full power"). */
  const FullPower: int := 255

  /** The preset selected when the page is created. */
  const InitialPreset: string := "PLA"

  /** A preset as the main page stores it: target temperature in °C, drying time in minutes. */
  datatype Preset = Preset(temperature: int, dryingTime: int)

  /** The preset table the main page starts with. */
  function BuiltInPresets(): map<string, Preset> {
    map["PLA" := Preset(66, 60), "ABS" := Preset(59, 90), "PETG" := Preset(55, 75), "PC" := Preset(80, 120)]
  }

  /** The fields the start, stop and countdown handlers change. */
  datatype Session = Session(timerRunning: bool, heaterOn: bool, pwmValue: int, remainingTime: int)

  /** `start_dryer`: heater on at full power, countdown running, remaining time untouched. */
  function Started(s: Session): Session {
    s.(heaterOn := true, pwmValue := FullPower, timerRunning := true)
  }

  /** `stop_dryer`: heater off, PWM 0, countdown stopped, remaining time untouched. */
  function Stopped(s: Session): Session {
    s.(heaterOn := false, pwmValue := 0, timerRunning := false)
  }

  /** One firing of the one-second countdown timer (`update_countdown`). */
  function Ticked(s: Session): Session {
    if s.timerRunning && s.remainingTime > 0 then
      var t := s.(remainingTime := s.remainingTime - 1);
      if t.remainingTime == 0 then Stopped(t) else t
    else
      s
  }

  /** `n` firings of the countdown timer. */
  function Ticks(s: Session, n: nat): Session {
    if n == 0 then s else Ticked(Ticks(s, n - 1))
  }

  /** `divmod(remaining_time, 60)`, as the countdown label shows it. */
  function CountdownSplit(remaining: int): (split: (int, int))
    ensures 0 <= split.1 < 60 && split.0 * 60 + split.1 == remaining
    ensures remaining >= 0 ==> split.0 >= 0
  {
    (remaining / 60, remaining % 60)
  }

  /** Minutes and seconds below 60 that add up to `remaining` are the ones the label shows. */
  lemma CountdownSplitUnique(remaining: int, mins: int, secs: int)
    requires 0 <= secs < 60 && mins * 60 + secs == remaining
    ensures CountdownSplit(remaining) == (mins, secs)
  {
    var (m, s) := CountdownSplit(remaining);
    assert (m - mins) * 60 == secs - s;
  }

  /**
   * A tick never drives the remaining time below zero: it takes away exactly one
   * second while the countdown runs with time left, and otherwise changes nothing.
   */
  lemma TickStep(s: Session)
    ensures s.timerRunning && s.remainingTime > 0 ==> Ticked(s).remainingTime == s.remainingTime - 1
    ensures !(s.timerRunning && s.remainingTime > 0) ==> Ticked(s) == s
    ensures s.remainingTime >= 0 ==> Ticked(s).remainingTime >= 0
  {
  }

  /**
   * A running countdown with `r > 0` seconds left keeps running for the first
   * `r - 1` ticks, one second less each time, and the `r`-th tick stops the
   * dryer with the heater off and PWM 0.
   */
  lemma {:induction false} CountdownRunsOut(s: Session, n: nat)
    requires s.timerRunning && 0 < n <= s.remainingTime
    ensures Ticks(s, n).remainingTime == s.remainingTime - n
    ensures n < s.remainingTime ==> Ticks(s, n) == s.(remainingTime := s.remainingTime - n)
    ensures n == s.remainingTime ==> Ticks(s, n) == Stopped(s.(remainingTime := 0))
  {
    if n > 1 {
      CountdownRunsOut(s, n - 1);
    }
  }

  /**
   * Starting with no time left turns the heater on at full power, and no later
   * tick ever stops it: the countdown only stops the dryer when a decrement
   * reaches zero.
   */
  lemma {:induction false} StartWithNoTimeLeft(s: Session, n: nat)
    requires s.remainingTime == 0
    ensures Ticks(Started(s), n) == Started(s)
    ensures Ticks(Started(s), n).heaterOn && Ticks(Started(s), n).pwmValue == FullPower
  {
    if n > 0 {
      StartWithNoTimeLeft(s, n - 1);
    }
  }

  class MainPage {
    var presets: map<string, Preset>
    var selectedPreset: string
    var targetTemperature: int
    var presetTime: int
    var remainingTime: int
    var timerRunning: bool
    var heaterOn: bool
    var pwmValue: int
    var temperatureHistory: seq<real>
    var humidityHistory: seq<real>
    var timeHistory: seq<string>

    /** Every sample ever taken, oldest first; the histories are their last 60. */
    ghost var temperatureSamples: seq<real>
    ghost var humiditySamples: seq<real>
    ghost var timeSamples: seq<string>

    ghost predicate Valid()
      reads this
      ensures Valid() ==> |temperatureHistory| == |humidityHistory| == |timeHistory| <= HistoryCapacity
    {
      && |temperatureSamples| == |humiditySamples| == |timeSamples|
      && temperatureHistory == LastN(temperatureSamples, HistoryCapacity)
      && humidityHistory == LastN(humiditySamples, HistoryCapacity)
      && timeHistory == LastN(timeSamples, HistoryCapacity)
    }

    function SessionState(): Session
      reads this
    {
      Session(timerRunning, heaterOn, pwmValue, remainingTime)
    }

    /** The page as created: preset PLA armed for its 60 minutes, dryer stopped, no samples yet. */
    constructor ()
      ensures Valid()
      ensures presets == BuiltInPresets() && selectedPreset == InitialPreset
      ensures targetTemperature == 66 && presetTime == 60 && remainingTime == 3600
      ensures !timerRunning && !heaterOn && pwmValue == 0
      ensures temperatureSamples == [] && humiditySamples == [] && timeSamples == []
    {
      var table := BuiltInPresets();
      presets := table;
      selectedPreset := InitialPreset;
      targetTemperature := 34;
      targetTemperature := table[InitialPreset].temperature;
      presetTime := table[InitialPreset].dryingTime;
      remainingTime := table[InitialPreset].dryingTime * 60;
      timerRunning := false;
      heaterOn, pwmValue := false, 0;
      temperatureHistory, humidityHistory, timeHistory := [], [], [];
      temperatureSamples, humiditySamples, timeSamples := [], [], [];
    }

    /** `start_dryer`. */
    method StartDryer()
      modifies this`heaterOn, this`pwmValue, this`timerRunning
      ensures SessionState() == Started(old(SessionState()))
    {
      heaterOn := true;
      pwmValue := FullPower;
      timerRunning := true;
    }

    /** `stop_dryer`. */
    method StopDryer()
      modifies this`heaterOn, this`pwmValue, this`timerRunning
      ensures SessionState() == Stopped(old(SessionState()))
    {
      heaterOn := false;
      pwmValue := 0;
      timerRunning := false;
    }

    /** `update_countdown`, run once per second while the countdown timer is active. */
    method UpdateCountdown()
      modifies this`heaterOn, this`pwmValue, this`timerRunning, this`remainingTime
      ensures SessionState() == Ticked(old(SessionState()))
      ensures old(remainingTime) >= 0 ==> remainingTime >= 0
    {
      if timerRunning && remainingTime > 0 {
        remainingTime := remainingTime - 1;
        if remainingTime == 0 {
          StopDryer();
        }
      }
    }

    /**
     * `update_selected_preset`: selects `preset` and re-arms the countdown from
     * its drying time, whether or not the dryer is running. `found` is false
     * where the program raises `KeyError` after recording the selection.
     */
    method UpdateSelectedPreset(preset: string) returns (found: bool)
      modifies this`selectedPreset, this`targetTemperature, this`presetTime, this`remainingTime
      ensures selectedPreset == preset
      ensures found == (preset in presets)
      ensures found ==> targetTemperature == presets[preset].temperature
      ensures found ==> presetTime == presets[preset].dryingTime
      ensures found ==> remainingTime == presets[preset].dryingTime * 60
      ensures !found ==> targetTemperature == old(targetTemperature) && presetTime == old(presetTime)
      ensures !found ==> remainingTime == old(remainingTime)
    {
      selectedPreset := preset;
      found := preset in presets;
      if found {
        targetTemperature := presets[preset].temperature;
        presetTime := presets[preset].dryingTime;
        remainingTime := presetTime * 60;
      }
    }

    /**
     * `simulate_environment`: one temperature sample `34 + tempJitter`, one
     * humidity sample `30 + humidityJitter` and one clock reading are appended,
     * and the oldest entry of each list is dropped once they exceed 60.
     */
    method SimulateEnvironment(tempJitter: real, humidityJitter: real, clock: string)
      requires Valid()
      requires -2.0 <= tempJitter <= 2.0 && -5.0 <= humidityJitter <= 5.0
      modifies this`temperatureHistory, this`humidityHistory, this`timeHistory
      modifies this`temperatureSamples, this`humiditySamples, this`timeSamples
      ensures Valid()
      ensures temperatureSamples == old(temperatureSamples) + [34.0 + tempJitter]
      ensures humiditySamples == old(humiditySamples) + [30.0 + humidityJitter]
      ensures timeSamples == old(timeSamples) + [clock]
      ensures temperatureHistory == Push(old(temperatureHistory), 34.0 + tempJitter, HistoryCapacity)
      ensures humidityHistory == Push(old(humidityHistory), 30.0 + humidityJitter, HistoryCapacity)
      ensures timeHistory == Push(old(timeHistory), clock, HistoryCapacity)
    {
      var temp := 34.0 + tempJitter;
      var humidity := 30.0 + humidityJitter;
      PushWindow(temperatureSamples, temp, HistoryCapacity);
      PushWindow(humiditySamples, humidity, HistoryCapacity);
      PushWindow(timeSamples, clock, HistoryCapacity);
      temperatureHistory := temperatureHistory + [temp];
      humidityHistory := humidityHistory + [humidity];
      timeHistory := timeHistory + [clock];
      if |temperatureHistory| > HistoryCapacity {
        temperatureHistory := temperatureHistory[1..];
        humidityHistory := humidityHistory[1..];
        timeHistory := timeHistory[1..];
      }
      temperatureSamples := temperatureSamples + [temp];
      humiditySamples := humiditySamples + [humidity];
      timeSamples := timeSamples + [clock];
    }
  }
}
