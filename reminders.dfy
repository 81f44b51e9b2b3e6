/**
 * One reminder pass (`scheduleNotifications`, App.js:28-58): cancel every pending
 * reminder, then schedule one at each top of the hour from the next one on, while
 * it is earlier than 24 hours from now. Time is integer epoch milliseconds; the
 * notification service is a log of the calls made to it.
 */
module Reminders {
  import opened AppConstants

  /** One hour of wall-clock time, the unit `new Date(..., hours + 1, 0, 0)` truncates to. */
  const HOUR_MS: int := 60 * 60 * 1000

  /** The horizon of one pass. */
  const DAY_MS: int := 24 * 60 * 60 * 1000

  /** A call made to the notification service. */
  datatype Event = CancelAll | Schedule(time: int)

  /** `endTime` before the loop: the first top of the hour strictly after `now`. */
  function NextTopOfHour(now: int): (t: int)
    ensures t % HOUR_MS == 0
    ensures now < t <= now + HOUR_MS
  {
    (now / HOUR_MS + 1) * HOUR_MS
  }

  /** No top of the hour lies strictly between `now` and NextTopOfHour(now). */
  lemma NextTopOfHourIsLeast(now: int, t: int)
    requires t % HOUR_MS == 0 && now < t
    ensures NextTopOfHour(now) <= t
  {
    var q := t / HOUR_MS;
    assert t == q * HOUR_MS;
    assert now / HOUR_MS < q;
  }

  /** Number of k >= 0 with NextTopOfHour(now) + k * NOTIFICATION_INTERVAL < now + DAY_MS. */
  function ReminderCount(now: int): nat
  {
    var span := now + DAY_MS - NextTopOfHour(now);
    (span + NOTIFICATION_INTERVAL - 1) / NOTIFICATION_INTERVAL
  }

  /** The k-th reminder is scheduled before the horizon exactly when k is below the count. */
  lemma BeforeHorizonIffBelowCount(now: int, k: nat)
    ensures NextTopOfHour(now) + k * NOTIFICATION_INTERVAL < now + DAY_MS <==> k < ReminderCount(now)
  {
    var span := now + DAY_MS - NextTopOfHour(now);
    var c := ReminderCount(now);
    assert (c - 1) * NOTIFICATION_INTERVAL < span <= c * NOTIFICATION_INTERVAL;
  }

  /** The times one pass schedules, as a specification. */
  function ReminderTimes(now: int): seq<int>
  {
    seq(ReminderCount(now), k => NextTopOfHour(now) + k * NOTIFICATION_INTERVAL)
  }

  /** 24 reminders when `now` is not on the hour, 23 when it is. */
  lemma ReminderCountByOffset(now: int)
    ensures |ReminderTimes(now)| == if now % HOUR_MS == 0 then 23 else 24
  {
    var a := now / HOUR_MS;
    assert now == a * HOUR_MS + now % HOUR_MS;
    assert NextTopOfHour(now) == a * HOUR_MS + HOUR_MS;
  }

  /**
   * The schedule starts at the next top of the hour, is spaced by exactly
   * NOTIFICATION_INTERVAL, lies strictly inside (now, now + DAY_MS), and is
   * complete: one more interval would reach the horizon.
   */
  lemma ReminderTimesShape(now: int)
    ensures var ts := ReminderTimes(now);
      && |ts| > 0
      && ts[0] == NextTopOfHour(now)
      && (forall k :: 0 < k < |ts| ==> ts[k] == ts[k - 1] + NOTIFICATION_INTERVAL)
      && (forall k :: 0 <= k < |ts| ==> now < ts[k] < now + DAY_MS)
      && ts[|ts| - 1] + NOTIFICATION_INTERVAL >= now + DAY_MS
  {
    var ts := ReminderTimes(now);
    ReminderCountByOffset(now);
    forall k | 0 <= k < |ts| ensures now < ts[k] < now + DAY_MS {
      BeforeHorizonIffBelowCount(now, k);
    }
    BeforeHorizonIffBelowCount(now, |ts|);
  }

  /** The schedule is strictly increasing. */
  lemma ReminderTimesIncreasing(now: int, i: int, j: int)
    requires 0 <= i < j < |ReminderTimes(now)|
    ensures ReminderTimes(now)[i] < ReminderTimes(now)[j]
  {
  }

  /** Every scheduled time is a top of the hour in the next 24 hours. */
  lemma ScheduledIsTopOfHour(now: int, k: nat)
    requires k < |ReminderTimes(now)|
    ensures ReminderTimes(now)[k] % HOUR_MS == 0
    ensures now < ReminderTimes(now)[k] < now + DAY_MS
  {
    var m := now / HOUR_MS + 1 + k;
    assert ReminderTimes(now)[k] == m * HOUR_MS;
    BeforeHorizonIffBelowCount(now, k);
  }

  /** Every top of the hour in the next 24 hours is scheduled. */
  lemma TopOfHourIsScheduled(now: int, t: int)
    requires t % HOUR_MS == 0 && now < t < now + DAY_MS
    ensures t in ReminderTimes(now)
  {
    NextTopOfHourIsLeast(now, t);
    var q := t / HOUR_MS;
    var k := q - now / HOUR_MS - 1;
    assert t == q * HOUR_MS;
    assert k >= 0;
    assert t == NextTopOfHour(now) + k * NOTIFICATION_INTERVAL;
    BeforeHorizonIffBelowCount(now, k);
    assert ReminderTimes(now)[k] == t;
  }

  /** The schedule is exactly the set of tops of the hour in the next 24 hours. */
  lemma ReminderTimesAreTopsOfHours(now: int, t: int)
    ensures t in ReminderTimes(now) <==> t % HOUR_MS == 0 && now < t < now + DAY_MS
  {
    var ts := ReminderTimes(now);
    if t in ts {
      var k :| 0 <= k < |ts| && ts[k] == t;
      ScheduledIsTopOfHour(now, k);
    }
    if t % HOUR_MS == 0 && now < t < now + DAY_MS {
      TopOfHourIsScheduled(now, t);
    }
  }

  /** At 14:30 (on day 0 of the epoch) the pass yields 24 reminders, 15:00 through 14:00 the next day. */
  lemma HalfPastTwoExample()
    ensures var now := 14 * HOUR_MS + HOUR_MS / 2;
      && |ReminderTimes(now)| == 24
      && ReminderTimes(now)[0] == 15 * HOUR_MS
      && ReminderTimes(now)[23] == (24 + 14) * HOUR_MS
  {
    ReminderCountByOffset(14 * HOUR_MS + HOUR_MS / 2);
  }

  /** The calls made for a list of times, in order. */
  function Schedules(ts: seq<int>): (es: seq<Event>)
    ensures |es| == |ts|
    ensures forall k :: 0 <= k < |ts| ==> es[k] == Schedule(ts[k])
  {
    if ts == [] then [] else Schedules(ts[..|ts| - 1]) + [Schedule(ts[|ts| - 1])]
  }

  /** The calls of a pass that stopped after scheduling its first n reminder times. */
  function PassPrefix(now: int, n: nat): seq<Event>
    requires n <= |ReminderTimes(now)|
  {
    [CancelAll] + Schedules(ReminderTimes(now)[..n])
  }

  /** The calls one completed pass makes: one cancel-all, then one schedule per reminder time. */
  function ReminderPass(now: int): seq<Event>
  {
    PassPrefix(now, |ReminderTimes(now)|)
  }

  /** One more accepted schedule call extends the prefix by the next reminder time. */
  lemma PassPrefixStep(now: int, n: nat)
    requires n < |ReminderTimes(now)|
    ensures PassPrefix(now, n + 1) == PassPrefix(now, n) + [Schedule(NextTopOfHour(now) + n * NOTIFICATION_INTERVAL)]
  {
    assert ReminderTimes(now)[..n + 1] == ReminderTimes(now)[..n] + [ReminderTimes(now)[n]];
  }

  /** A pass cancels exactly once, before anything is scheduled, and schedules the reminder times in order. */
  lemma ReminderPassOrder(now: int)
    ensures var pass := ReminderPass(now);
      && pass[0] == CancelAll
      && |pass| == |ReminderTimes(now)| + 1
      && (forall k :: 0 < k < |pass| ==> pass[k] == Schedule(ReminderTimes(now)[k - 1]))
      && (forall k :: 0 <= k < |pass| && pass[k] == CancelAll ==> k == 0)
  {
    assert ReminderTimes(now)[..|ReminderTimes(now)|] == ReminderTimes(now);
  }

  /**
   * The reminders registered with the service after the calls `events`: those
   * scheduled since the last cancel-all (each then repeats hourly).
   */
  function Pending(events: seq<Event>): seq<int>
  {
    if events == [] then []
    else match events[|events| - 1]
      case CancelAll => []
      case Schedule(t) => Pending(events[..|events| - 1]) + [t]
  }

  /** A cancel-all followed by schedules leaves exactly those schedules pending, whatever came before. */
  lemma {:induction false} PendingAfterCancel(before: seq<Event>, ts: seq<int>)
    ensures Pending(before + [CancelAll] + Schedules(ts)) == ts
  {
    if ts != [] {
      var init := ts[..|ts| - 1];
      PendingAfterCancel(before, init);
      assert before + [CancelAll] + Schedules(ts)
          == (before + [CancelAll] + Schedules(init)) + [Schedule(ts[|ts| - 1])];
    }
  }

  /** A pass that stopped after n schedule calls leaves exactly the first n reminder times pending. */
  lemma PendingAfterPassPrefix(before: seq<Event>, now: int, n: nat)
    requires n <= |ReminderTimes(now)|
    ensures Pending(before + PassPrefix(now, n)) == ReminderTimes(now)[..n]
  {
    assert before + PassPrefix(now, n) == before + [CancelAll] + Schedules(ReminderTimes(now)[..n]);
    PendingAfterCancel(before, ReminderTimes(now)[..n]);
  }

  /** No reminder time occurs twice in a pass. */
  lemma ReminderTimesDistinct(now: int)
    ensures forall i, j :: 0 <= i < j < |ReminderTimes(now)| ==> ReminderTimes(now)[i] != ReminderTimes(now)[j]
  {
    forall i, j | 0 <= i < j < |ReminderTimes(now)|
      ensures ReminderTimes(now)[i] != ReminderTimes(now)[j]
    {
      ReminderTimesIncreasing(now, i, j);
    }
  }

  /**
   * Full replacement: after any history, a completed pass leaves exactly its own
   * reminder times pending, and no time is pending twice.
   */
  lemma LatestPassWins(before: seq<Event>, now: int)
    ensures var pending := Pending(before + ReminderPass(now));
      && pending == ReminderTimes(now)
      && forall i, j :: 0 <= i < j < |pending| ==> pending[i] != pending[j]
  {
    PendingAfterPassPrefix(before, now, |ReminderTimes(now)|);
    assert ReminderTimes(now)[..|ReminderTimes(now)|] == ReminderTimes(now);
    ReminderTimesDistinct(now);
  }

  /** n accepted calls in a row. */
  ghost function AllAccepted(n: nat): (a: seq<bool>)
    ensures |a| == n && forall k :: 0 <= k < n ==> a[k]
  {
    seq(n, _ => true)
  }

  /**
   * The notification service, seen through the calls it accepted. Either call
   * may be rejected (`ok` is false); a rejected call is taken to change nothing.
   */
  class NotificationCenter {
    var events: seq<Event>
    /** The service's answer to every call made so far: true when accepted. */
    ghost var answers: seq<bool>

    constructor ()
      ensures events == [] && answers == []
    {
      events := [];
      answers := [];
    }

    /** `Notifications.cancelAllScheduledNotificationsAsync`. */
    method CancelAllScheduledNotifications() returns (ok: bool)
      modifies this
      ensures events == if ok then old(events) + [CancelAll] else old(events)
      ensures answers == old(answers) + [ok]
    {
      ok :| true;
      if ok {
        events := events + [CancelAll];
      }
      answers := answers + [ok];
    }

    /** `Notifications.scheduleLocalNotificationAsync`; the handle is the call's position in the log. */
    method ScheduleLocalNotification(time: int) returns (ok: bool, id: nat)
      modifies this
      ensures events == if ok then old(events) + [Schedule(time)] else old(events)
      ensures answers == old(answers) + [ok]
      ensures id == |old(events)|
    {
      ok :| true;
      id := |events|;
      if ok {
        events := events + [Schedule(time)];
      }
      answers := answers + [ok];
    }
  }

  /**
   * What a pass at `now` has done, given the service's log `before` and `after`
   * it, the service's answers `earlier` to the calls before it and `answers`
   * to all calls after it, whether it `completed`, and the handles `ids` it
   * collected.
   */
  ghost predicate PassEffect(now: int, before: seq<Event>, after: seq<Event>,
                             earlier: seq<bool>, answers: seq<bool>, completed: bool, ids: seq<nat>)
  {
    && |answers| > |earlier|
    && answers[..|earlier|] == earlier
    && var a := answers[|earlier|..];
    // The pass stops only at a rejected call: every answer but the last is an
    // acceptance, and it completes exactly when every call was accepted.
    && (forall k :: 0 <= k < |a| - 1 ==> a[k])
    && (completed <==> a[|a| - 1])
    // A rejected cancel-all: it was the only call, and nothing changes.
    && (!a[0] ==> |a| == 1 && after == before && ids == [])
    // Otherwise: the cancel-all, then the first |ids| reminder times, which are
    // all that is pending; one call more was made if one was rejected.
    && (a[0] ==>
          && |ids| <= |ReminderTimes(now)|
          && |a| == (if completed then |ids| + 1 else |ids| + 2)
          && after == before + PassPrefix(now, |ids|)
          && Pending(after) == ReminderTimes(now)[..|ids|])
    // Every call accepted: the whole pass, which replaces all earlier reminders.
    && (completed ==>
          && |ids| == |ReminderTimes(now)|
          && after == before + ReminderPass(now)
          && Pending(after) == ReminderTimes(now))
    // One handle per accepted schedule call, in order.
    && (forall k :: 0 <= k < |ids| ==> ids[k] == |before| + 1 + k)
  }

  /** A pass whose cancel-all was rejected. */
  lemma RejectedCancelEffect(now: int, before: seq<Event>, earlier: seq<bool>)
    ensures PassEffect(now, before, before, earlier, earlier + [false], false, [])
  {
    assert (earlier + [false])[|earlier|..] == [false];
  }

  /** A pass stopped by a rejected schedule call after |ids| accepted ones. */
  lemma StoppedPassEffect(now: int, before: seq<Event>, earlier: seq<bool>, ids: seq<nat>)
    requires |ids| < |ReminderTimes(now)|
    requires forall k :: 0 <= k < |ids| ==> ids[k] == |before| + 1 + k
    ensures PassEffect(now, before, before + PassPrefix(now, |ids|),
                       earlier, earlier + AllAccepted(|ids| + 1) + [false], false, ids)
  {
    var answers := earlier + AllAccepted(|ids| + 1) + [false];
    assert answers[..|earlier|] == earlier;
    assert answers[|earlier|..] == AllAccepted(|ids| + 1) + [false];
    PendingAfterPassPrefix(before, now, |ids|);
  }

  /** A pass whose every call was accepted. */
  lemma CompletedPassEffect(now: int, before: seq<Event>, earlier: seq<bool>, ids: seq<nat>)
    requires |ids| == |ReminderTimes(now)|
    requires forall k :: 0 <= k < |ids| ==> ids[k] == |before| + 1 + k
    ensures PassEffect(now, before, before + PassPrefix(now, |ids|),
                       earlier, earlier + AllAccepted(|ids| + 1), true, ids)
  {
    var answers := earlier + AllAccepted(|ids| + 1);
    assert answers[..|earlier|] == earlier;
    assert answers[|earlier|..] == AllAccepted(|ids| + 1);
    PendingAfterPassPrefix(before, now, |ids|);
    assert ReminderTimes(now)[..|ids|] == ReminderTimes(now);
  }

  /**
   * `scheduleNotifications`: one reminder pass at time `now`. The source catches
   * nothing, so the first rejected call ends the pass; `completed` says whether
   * every call was accepted.
   */
  method ScheduleNotifications(center: NotificationCenter, now: int)
      returns (completed: bool, notificationIds: seq<nat>)
    modifies center
    ensures PassEffect(now, old(center.events), center.events, old(center.answers), center.answers,
                       completed, notificationIds)
  {
    ghost var before := center.events;
    ghost var earlier := center.answers;
    notificationIds := [];
    completed := false;
    var cancelled := center.CancelAllScheduledNotifications();
    if !cancelled {
      RejectedCancelEffect(now, before, earlier);
      return;
    }
    assert center.events == before + PassPrefix(now, 0);
    var endTime := NextTopOfHour(now);
    while endTime < now + DAY_MS
      invariant endTime == NextTopOfHour(now) + |notificationIds| * NOTIFICATION_INTERVAL
      invariant |notificationIds| <= |ReminderTimes(now)|
      invariant center.events == before + PassPrefix(now, |notificationIds|)
      invariant center.answers == earlier + AllAccepted(|notificationIds| + 1)
      invariant forall k :: 0 <= k < |notificationIds| ==> notificationIds[k] == |before| + 1 + k
      decreases now + DAY_MS - endTime
    {
      BeforeHorizonIffBelowCount(now, |notificationIds|);
      var ok, notificationId := center.ScheduleLocalNotification(endTime);
      if !ok {
        StoppedPassEffect(now, before, earlier, notificationIds);
        return;
      }
      PassPrefixStep(now, |notificationIds|);
      assert center.events == before + PassPrefix(now, |notificationIds| + 1);
      assert endTime + NOTIFICATION_INTERVAL == NextTopOfHour(now) + (|notificationIds| + 1) * NOTIFICATION_INTERVAL;
      assert AllAccepted(|notificationIds| + 1) + [true] == AllAccepted(|notificationIds| + 2);
      notificationIds := notificationIds + [notificationId];
      endTime := endTime + NOTIFICATION_INTERVAL;
    }
    BeforeHorizonIffBelowCount(now, |notificationIds|);
    CompletedPassEffect(now, before, earlier, notificationIds);
    completed := true;
  }
}
