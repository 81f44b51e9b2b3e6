/**
 * The intake state of the tracker screen and the "Drink Water" action
 * (App.js:13-16, 60-66), plus the settings slider, the only other writer of
 * the intake (App.js:173-181).
 */
module Intake {
  import opened AppConstants
  import Progress

  /**
   * `Math.floor(Math.random() * pepTalk.length)`, with the random draw passed in.
   * Each message owns a sub-interval of [0, 1) of width 1 / |PepTalk|.
   */
  function PepTalkIndex(random: real): (i: int)
    requires 0.0 <= random < 1.0
    ensures 0 <= i < |PepTalk|
    ensures i as real / |PepTalk| as real <= random < (i + 1) as real / |PepTalk| as real
  {
    (random * |PepTalk| as real).Floor
  }

  /** A draw picks message k exactly when it falls in k's interval, so every message can be chosen. */
  lemma PepTalkIndexInterval(random: real, k: int)
    requires 0.0 <= random < 1.0
    requires 0 <= k < |PepTalk|
    ensures PepTalkIndex(random) == k <==>
              k as real / |PepTalk| as real <= random < (k + 1) as real / |PepTalk| as real
  {
    var n := |PepTalk| as real;
    if k as real / n <= random < (k + 1) as real / n {
      assert k as real <= random * n < (k + 1) as real;
    }
  }

  /** The React state cells `waterIntake` and `currentPepTalk`. */
  class WaterTracker {
    var waterIntake: int
    var currentPepTalk: string

    /** Intake never goes negative, and the message shown is empty or one of the pep talks. */
    ghost predicate Valid()
      reads this
    {
      waterIntake >= 0 && (currentPepTalk == "" || currentPepTalk in PepTalk)
    }

    /** `useState(0)` and `useState('')`. */
    constructor ()
      ensures Valid()
      ensures waterIntake == 0 && currentPepTalk == ""
    {
      waterIntake := 0;
      currentPepTalk := "";
    }

    /** `handleDrinkWater`: add one WATER_INTAKE_GOAL and show a message chosen by `random`. */
    method HandleDrinkWater(random: real)
      requires Valid()
      requires 0.0 <= random < 1.0
      modifies this
      ensures Valid()
      ensures waterIntake == old(waterIntake) + WATER_INTAKE_GOAL
      ensures currentPepTalk == PepTalk[PepTalkIndex(random)]
    {
      var newCurrentIntake := waterIntake + WATER_INTAKE_GOAL;
      waterIntake := newCurrentIntake;
      var randomIndex := PepTalkIndex(random);
      currentPepTalk := PepTalk[randomIndex];
    }

    /** The slider's `onValueChange`: it overwrites the intake (not a goal) with a value in 1000..5000, step 100. */
    method SetWaterIntake(value: int)
      requires Valid()
      requires 1000 <= value <= 5000 && value % 100 == 0
      modifies this
      ensures Valid()
      ensures waterIntake == value && currentPepTalk == old(currentPepTalk)
    {
      waterIntake := value;
    }
  }

  /**
   * One drink moves the bar by exactly one segment: every rendered segment after
   * the first now looks as its predecessor did before.
   */
  lemma DrinkShiftsBar(intake: int, i: int)
    requires 0 <= i < DIV_COUNT - 1
    ensures Progress.DivOpacity(intake + WATER_INTAKE_GOAL, i + 1) == Progress.DivOpacity(intake, i)
  {
    Progress.DivOpacityIsSliceFill(intake + WATER_INTAKE_GOAL, i + 1);
    Progress.DivOpacityIsSliceFill(intake, i);
  }

  /** Below saturation, one drink adds exactly one full segment's worth of opacity to the bar. */
  lemma DrinkAddsOneSegment(intake: int)
    requires 0 <= intake <= (DIV_COUNT - 1) * WATER_INTAKE_GOAL
    ensures Progress.BarFill(intake + WATER_INTAKE_GOAL, DIV_COUNT) == Progress.BarFill(intake, DIV_COUNT) + 1.0
  {
    Progress.BarFillShowsIntake(intake + WATER_INTAKE_GOAL, DIV_COUNT);
    Progress.BarFillShowsIntake(intake, DIV_COUNT);
  }
}
