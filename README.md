# Water intake tracker: progress bar, drink action and reminder schedule

A Dafny model of the logic inside the single-screen water tracker `App.js`.
Almost all of that file is React Native UI. Three small pieces of it compute
something, and those pieces are modelled here:

- **Progress bar** (`progress.dfy`, module `Progress`): `calculateDivOpacity`. It
  gives the opacity of each of the `DIV_COUNT = 8` segments for the current
  intake. Each segment stands for `WATER_INTAKE_GOAL = 250` ml. The model is
  proved against a reference definition: segment `i` shows the clamped share of
  the slice from `250·i` to `250·(i+1)` ml. From that, the lemmas show the range,
  saturation, monotonicity and a single partial segment. They also show that the
  eight opacities add up to the intake, clamped to 2000 ml, in units of 250 ml.
- **Drink action** (`intake.dfy`, module `Intake`): the state cells
  `waterIntake` and `currentPepTalk` form the class `WaterTracker`.
  `handleDrinkWater` adds 250 ml and shows the pep talk at
  `Math.floor(Math.random() * 7)`. The settings slider also writes
  `waterIntake`, so it is modelled too. Lemmas show that one drink moves the bar
  by exactly one segment.
- **Reminder pass** (`reminders.dfy`, module `Reminders`):
  `scheduleNotifications`. It cancels all pending reminders. Then it schedules
  one reminder at every top of the hour after `now` that is earlier than
  `now + 24h`. The notification service is a class that records the calls made
  to it. Either service call may be rejected. The source catches nothing, so
  the first rejection ends the pass, and only a rejection ends it early. The loop is proved against
  `ReminderTimes`, a closed-form specification. A rejected cancel-all changes
  nothing. After any other rejection, exactly a prefix of `ReminderTimes` is
  pending. Lemmas show that this specification is exactly the set of tops of
  the hour in the next 24 hours: there are 24 of them, or 23 when `now` is on
  the hour. They also show that a completed pass replaces every earlier
  reminder.

The constants of `App.js:6-10` are in `constants.dfy` (module `AppConstants`).

Behaviour of the code that a reader might not expect, and that the model
follows:
- The daily goal is the constant 250. There is no goal-setting operation, and a
  drink always adds 250 ml.
- The settings slider labelled "Set daily water intake goal" overwrites the
  **intake** (`App.js:173-180`).
- Scheduling does not depend on whether notification permission was granted.
  The permission effect only logs.
- If `now` is not on the hour (for example 14:30), a pass schedules 24
  reminders (15:00 up to 14:00 the next day). Only a `now` exactly on the hour
  gives 23 (`Reminders.ReminderCountByOffset`,
  `Reminders.HalfPastTwoExample`).

## Model

| member | source | states |
|---|---|---|
| `Progress.ProgressOf` | App.js:69 | `progress` is the intake as a fraction of the whole bar (2000 ml), and lies in `[0, 1]` while the intake is between 0 and 2000 ml |
| `Progress.FilledDivs` | App.js:69-70 | `filledDivs` is the number of complete 250 ml slices: `n·250 <= intake < (n+1)·250`, so it equals `intake div 250` |
| `Progress.RemainingProgress` | App.js:69-71 | `remainingProgress` lies in `[0, 1)` and is `(intake mod 250) / 250` |
| `Progress.DivOpacity` | App.js:68-80 | the opacity of any segment, at any intake, lies in `[0, MAX_OPACITY]`; a value strictly between 0 and 1 occurs only at index `intake div 250`, and only when that index is not `DIV_COUNT` |
| `Progress.DivOpacityIsSliceFill` | App.js:68-80 | for every index other than `DIV_COUNT`, the opacity is the share of that segment's own 250 ml slice that the intake covers, clamped to `[0, 1]`: 1 below `filledDivs`, the remainder at `filledDivs`, 0 above |
| `Progress.SegmentPastBar` | App.js:73-79 | the `filledDivs !== DIV_COUNT` guard: segment `DIV_COUNT` is never partial; it reads 0 below 2250 ml and 1 from there on |
| `Progress.SaturatedBar` | App.js:68-80 | from 2000 ml on, all eight rendered segments have opacity exactly 1 |
| `Progress.NoPartialFillWhenFull` | App.js:75-76 | when exactly `DIV_COUNT` slices are complete, every segment reads either 0 or 1 |
| `Progress.DivOpacityMonotone` | App.js:68-80 | for a fixed segment, more intake never gives a lower opacity |
| `Progress.AtMostOnePartial` | App.js:73-79 | at any intake, at most one segment has an opacity strictly between 0 and 1 |
| `Progress.BarFillShowsIntake` | App.js:128-133 | the opacities of the first `n <= 8` rendered segments add up to the intake clamped to `[0, 250·n]`, divided by 250 |
| `Intake.PepTalkIndex` | App.js:64 | `Math.floor(random · 7)` for a draw in `[0, 1)` is a valid index into `pepTalk`, and the draw lies in that index's interval `[i/7, (i+1)/7)` |
| `Intake.PepTalkIndexInterval` | App.js:64 | index `k` is chosen exactly when the draw lies in `[k/7, (k+1)/7)`: every message can be chosen, and each owns an interval of equal width |
| `Intake.WaterTracker.constructor` | App.js:15-16 | the screen starts at intake 0 with no message shown |
| `Intake.WaterTracker.HandleDrinkWater` | App.js:60-66 | the intake becomes the old intake plus 250; the message shown becomes `pepTalk[floor(random·7)]`, always an element of `pepTalk`; intake stays non-negative |
| `Intake.WaterTracker.SetWaterIntake` | App.js:173-180 | the slider replaces the intake with its value (1000 to 5000, step 100) and leaves the message unchanged |
| `Intake.DrinkShiftsBar` | App.js:60-80 | after a drink, rendered segment `i+1` has the opacity that segment `i` had before |
| `Intake.DrinkAddsOneSegment` | App.js:60-80 | below saturation, a drink raises the bar's total opacity by exactly one segment |
| `Reminders.NextTopOfHour` | App.js:32-33 | the first reminder time is a whole hour and lies in `(now, now + 1h]` |
| `Reminders.NextTopOfHourIsLeast` | App.js:33 | no whole hour lies strictly between `now` and the first reminder time |
| `Reminders.BeforeHorizonIffBelowCount` | App.js:36 | the loop condition `endTime < now + 24h` holds for the k-th time exactly when `k` is below the number of reminders |
| `Reminders.ReminderCountByOffset` | App.js:32-52 | a pass schedules 24 reminders when `now` is not on the hour and 23 when it is |
| `Reminders.HalfPastTwoExample` | App.js:32-52 | at 14:30 the reminders are 15:00, 16:00, …, 14:00 the next day: 24 of them |
| `Reminders.ReminderTimesShape` | App.js:33-51 | the schedule is not empty and starts at the next top of the hour; consecutive times differ by exactly one hour; every time lies in `(now, now + 24h)`; one more hour would reach the horizon |
| `Reminders.ReminderTimesIncreasing` | App.js:51 | the scheduled times are strictly increasing |
| `Reminders.ScheduledIsTopOfHour` | App.js:32-52 | each scheduled time is a whole hour strictly between `now` and `now + 24h` |
| `Reminders.TopOfHourIsScheduled` | App.js:32-52 | each whole hour strictly between `now` and `now + 24h` is scheduled |
| `Reminders.ReminderTimesAreTopsOfHours` | App.js:32-52 | a time is scheduled if and only if it is a whole hour strictly between `now` and `now + 24h` |
| `Reminders.Schedules` | App.js:36-52 | the loop makes one schedule call per time, in the same order as the times |
| `Reminders.PassPrefixStep` | App.js:36-52 | each accepted schedule call extends the pass by the next reminder time, one interval after the previous one |
| `Reminders.ReminderPassOrder` | App.js:30-52 | one completed pass makes exactly one cancel-all call, first, followed by one schedule call per reminder time, in order |
| `Reminders.PendingAfterCancel` | App.js:30-52 | after a cancel-all followed by schedule calls, exactly those times are pending, whatever was scheduled before |
| `Reminders.PendingAfterPassPrefix` | App.js:30-52 | a pass stopped after n accepted schedule calls leaves exactly the first n reminder times pending |
| `Reminders.ReminderTimesDistinct` | App.js:36-51 | no reminder time occurs twice in a pass |
| `Reminders.LatestPassWins` | App.js:28-58 | after any history, a completed pass leaves exactly its own reminder times pending, and no time is pending twice |
| `Reminders.RejectedCancelEffect` | App.js:30 | a pass whose cancel-all was rejected made that one call, changed nothing, collected nothing and did not complete |
| `Reminders.StoppedPassEffect` | App.js:30-52 | a pass ended by a rejected schedule call after n accepted ones made n + 2 calls, all but the last accepted; it logged the cancel-all and those n calls, leaves exactly the first n reminder times pending, and did not complete |
| `Reminders.CompletedPassEffect` | App.js:30-52 | a pass whose every call (one cancel-all and one schedule per reminder time) was accepted has logged the whole pass, leaves exactly `ReminderTimes(now)` pending, and completed |
| `Reminders.NotificationCenter.CancelAllScheduledNotifications` | App.js:30 | an accepted call appends one cancel-all to the service's log; a rejected one changes nothing; the service's answer is recorded |
| `Reminders.NotificationCenter.ScheduleLocalNotification` | App.js:37-49 | an accepted call appends one schedule for the given time and returns its position in the log as the handle; a rejected one changes nothing; the service's answer is recorded |
| `Reminders.ScheduleNotifications` | App.js:29-55 | `PassEffect`: the pass stops only at a rejected call, so every answer of the service during the pass but the last is an acceptance, and `completed` holds if and only if every call was accepted. A rejected cancel-all is the only call and changes nothing. Otherwise the log gains the cancel-all and the first k reminder times, exactly those k times are pending, and k + 1 calls were made, or k + 2 when one was rejected. When completed, k is the full count, the log gains `ReminderPass(now)`, and exactly `ReminderTimes(now)` is pending. One handle is collected per accepted call, in order |

## Left out

- Rendering, styles, the navbar, the settings modal and its open/close handlers (`App.js:83-89`, `118-294`) are presentational. Only the slider's write to the intake is modelled.
- The splash animations (`App.js:91-116`) are `Animated` values that a completion callback removes, so they are animation plumbing.
- The permission request (`App.js:18-26`) is an asynchronous call into `expo-permissions` that only logs. Nothing depends on its result.
- The notification service is reduced to the order of its calls. The reminder's title, body and Android channel, its `repeat: 'hour'` setting and the real handles it returns are not modelled. A handle is the call's position in the log.
- A rejected call into the notification service ends the pass. The source does not catch that exception, so the promise started at `App.js:57` rejects unhandled. The model ends the pass with `completed` false and does not model the exception itself. Whether the service accepts or rejects a call is left open: either is possible. A rejected call is assumed to change nothing at the service. In particular, a rejected cancel-all is assumed to leave every earlier reminder registered, although the real service might have cancelled some of them before failing.
- `console.log` of the handles (`App.js:54`) is output only.
- `Math.random` is a parameter `random` with `0 <= random < 1`. Its distribution is not modelled, beyond each message owning an interval of equal width.
- `Date` is integer epoch milliseconds, and a time is truncated to the hour by whole hours since the epoch. Time zones with offsets that are not whole hours and daylight-saving changes are not modelled.
- The opacity arithmetic is exact (`real`). JavaScript's floating-point rounding of `waterIntake / 2000 * 8` is not modelled.
- React's asynchronous effects and state updates are not modelled (`useEffect`, re-render order, and `setWaterIntake` taking effect on the next render). Each handler runs as one atomic step.
