/**
 * The progress bar: DIV_COUNT segments, each standing for WATER_INTAKE_GOAL ml,
 * whose opacities show the intake (App.js:68-80, rendered at App.js:128-133).
 * Arithmetic is exact: the source's floating-point division is a `real` division here.
 */
module Progress {
  import opened AppConstants

  /** Intake as a fraction of the whole bar (`progress`). */
  function ProgressOf(intake: int): (p: real)
    ensures p * (WATER_INTAKE_GOAL * DIV_COUNT) as real == intake as real
    ensures 0 <= intake <= WATER_INTAKE_GOAL * DIV_COUNT ==> 0.0 <= p <= 1.0
  {
    intake as real / (WATER_INTAKE_GOAL * DIV_COUNT) as real
  }

  /** `filledDivs`: the number of complete WATER_INTAKE_GOAL slices in the intake. */
  function FilledDivs(intake: int): (n: int)
    ensures n * WATER_INTAKE_GOAL <= intake < (n + 1) * WATER_INTAKE_GOAL
    ensures n == intake / WATER_INTAKE_GOAL
  {
    var x := ProgressOf(intake) * DIV_COUNT as real;
    var q := intake / WATER_INTAKE_GOAL;
    assert x == intake as real / WATER_INTAKE_GOAL as real;
    assert q as real <= x < (q + 1) as real;
    x.Floor
  }

  /** `remainingProgress`: how much of the first incomplete slice the intake covers. */
  function RemainingProgress(intake: int): (r: real)
    ensures 0.0 <= r < 1.0
    ensures r * WATER_INTAKE_GOAL as real == (intake % WATER_INTAKE_GOAL) as real
  {
    var n := FilledDivs(intake);
    assert ProgressOf(intake) * DIV_COUNT as real == intake as real / WATER_INTAKE_GOAL as real;
    ProgressOf(intake) * DIV_COUNT as real - n as real
  }

  /** `calculateDivOpacity`: the opacity of segment `divIndex` at the given intake. */
  function DivOpacity(intake: int, divIndex: int): (r: real)
    ensures 0.0 <= r <= MAX_OPACITY
    ensures 0.0 < r < MAX_OPACITY ==> divIndex == intake / WATER_INTAKE_GOAL && divIndex != DIV_COUNT
  {
    var filledDivs := FilledDivs(intake);
    if divIndex < filledDivs then MAX_OPACITY
    else if divIndex == filledDivs && filledDivs != DIV_COUNT then RemainingProgress(intake)
    else 0.0
  }

  /**
   * Reference definition: segment `i` stands for the slice of intake from
   * i * WATER_INTAKE_GOAL to (i + 1) * WATER_INTAKE_GOAL ml, and its fill is the
   * share of that slice the intake covers, clamped to [0, 1].
   */
  function SliceFill(intake: int, i: int): real
  {
    var share := (intake - i * WATER_INTAKE_GOAL) as real / WATER_INTAKE_GOAL as real;
    if share <= 0.0 then 0.0 else if share >= 1.0 then 1.0 else share
  }

  /** Every segment except the one at index DIV_COUNT shows exactly its slice's fill. */
  lemma DivOpacityIsSliceFill(intake: int, i: int)
    requires i != DIV_COUNT
    ensures DivOpacity(intake, i) == SliceFill(intake, i)
  {
    var q := intake / WATER_INTAKE_GOAL;
    var share := (intake - i * WATER_INTAKE_GOAL) as real / WATER_INTAKE_GOAL as real;
    if i < q {
      assert (i + 1) * WATER_INTAKE_GOAL <= intake;
      assert share >= 1.0;
    } else if i == q {
      assert share * WATER_INTAKE_GOAL as real == (intake % WATER_INTAKE_GOAL) as real;
      assert share == RemainingProgress(intake);
    } else {
      assert intake < i * WATER_INTAKE_GOAL;
      assert share < 0.0;
    }
  }

  /**
   * The guard `filledDivs !== DIV_COUNT`: the first segment past the bar is never
   * partly filled; it reads 0 until a whole further slice is drunk.
   */
  lemma SegmentPastBar(intake: int)
    ensures DivOpacity(intake, DIV_COUNT) ==
              if intake >= (DIV_COUNT + 1) * WATER_INTAKE_GOAL then MAX_OPACITY else 0.0
  {
  }

  /** Saturation: from DIV_COUNT * WATER_INTAKE_GOAL ml on, every rendered segment is full. */
  lemma SaturatedBar(intake: int)
    requires intake >= DIV_COUNT * WATER_INTAKE_GOAL
    ensures forall i :: 0 <= i < DIV_COUNT ==> DivOpacity(intake, i) == MAX_OPACITY
  {
  }

  /** When exactly DIV_COUNT slices are complete, no segment at all is partly filled. */
  lemma NoPartialFillWhenFull(intake: int, i: int)
    requires intake / WATER_INTAKE_GOAL == DIV_COUNT
    ensures DivOpacity(intake, i) == MAX_OPACITY || DivOpacity(intake, i) == 0.0
  {
  }

  /** Monotonicity: drinking more never dims any segment. */
  lemma DivOpacityMonotone(a: int, b: int, i: int)
    requires a <= b
    ensures DivOpacity(a, i) <= DivOpacity(b, i)
  {
    if i == DIV_COUNT {
      SegmentPastBar(a);
      SegmentPastBar(b);
    } else {
      DivOpacityIsSliceFill(a, i);
      DivOpacityIsSliceFill(b, i);
    }
  }

  /** At any intake at most one segment is strictly between empty and full. */
  lemma AtMostOnePartial(intake: int, i: int, j: int)
    requires 0.0 < DivOpacity(intake, i) < MAX_OPACITY
    requires 0.0 < DivOpacity(intake, j) < MAX_OPACITY
    ensures i == j
  {
  }

  /** Sum of the opacities of segments 0 .. n-1. */
  function BarFill(intake: int, n: nat): real
  {
    if n == 0 then 0.0 else BarFill(intake, n - 1) + DivOpacity(intake, n - 1)
  }

  /** The intake clamped to [0, n * WATER_INTAKE_GOAL]: what the first n segments can show. */
  function Shown(intake: int, n: nat): int
  {
    if intake <= 0 then 0 else if intake >= n * WATER_INTAKE_GOAL then n * WATER_INTAKE_GOAL else intake
  }

  /**
   * The rendered bar shows the intake exactly: the opacities of its first n segments
   * add up to the intake, clamped to those segments' capacity, in units of WATER_INTAKE_GOAL.
   */
  lemma {:induction false} BarFillShowsIntake(intake: int, n: nat)
    requires n <= DIV_COUNT
    ensures BarFill(intake, n) * WATER_INTAKE_GOAL as real == Shown(intake, n) as real
  {
    if n > 0 {
      BarFillShowsIntake(intake, n - 1);
      DivOpacityIsSliceFill(intake, n - 1);
    }
  }
}
