/** The fixed values the water tracker is built on (App.js:6-10). */
module AppConstants {

  /** Millilitres added by one tap of "Drink Water", and the size of one progress segment. */
  const WATER_INTAKE_GOAL: int := 250

  /** Spacing of reminders, in milliseconds (one hour). */
  const NOTIFICATION_INTERVAL: int := 60 * 60 * 1000

  /** Number of segments in the progress bar. */
  const DIV_COUNT: int := 8

  /** Opacity of a segment that is completely filled. */
  const MAX_OPACITY: real := 1.0

  /** The messages shown after a drink. */
  const PepTalk: seq<string> := [
    "You got this!", "More water!", "You are doing amazing!", "Keep going!",
    "Every sip matters!", "Almost there!", "Your efforts will pay off!"
  ]
}
