/**
 * The seven proctoring checks and the reason code of a proctored request.
 *
 * Each check is a read-only function of the store, the current time (whole
 * seconds) and, for the last one, whether the native review surface exists
 * on this system. Elapsed time is counted in whole days, rounded down, with
 * a day being exactly 86400 seconds.
 */
module Checks {
  import opened Wrappers
  import opened Store
  import opened Config

  const SecondsPerDay: int := 86400

  /** Days after a refusal before the user may be asked again; fixed. */
  const RefusalCooldownDays: int := 91

  /** `Int(floor((now - since) / 86400))`; negative when `since` lies in the future. */
  function ElapsedDays(now: int, since: int): (d: int)
    ensures d * SecondsPerDay <= now - since < (d + 1) * SecondsPerDay
  {
    (now - since) / SecondsPerDay
  }

  /** "At least n whole days have passed" is "at least n * 86400 seconds have passed". */
  lemma DaysAtLeast(now: int, since: int, n: int)
    ensures ElapsedDays(now, since) >= n <==> now - since >= n * SecondsPerDay
  {
    var d := ElapsedDays(now, since);
    if d >= n {
      assert d * SecondsPerDay >= n * SecondsPerDay;
    } else {
      assert (d + 1) * SecondsPerDay <= n * SecondsPerDay;
    }
  }

  /** Check 1: no refusal is stored, or 91 whole days have passed since it. */
  predicate CheckRefusalDate(s: Store, now: int)
    ensures CheckRefusalDate(s, now) <==>
      DateAt(s, Refusal).None? || now - DateAt(s, Refusal).value >= RefusalCooldownDays * SecondsPerDay
  {
    match DateAt(s, Refusal)
    case None => true
    case Some(refusal) =>
      DaysAtLeast(now, refusal, RefusalCooldownDays);
      ElapsedDays(now, refusal) >= RefusalCooldownDays
  }

  /** Check 2: no "remind me later" is stored, or the reminder threshold in days has passed. */
  predicate CheckReminderDate(s: Store, now: int)
    ensures CheckReminderDate(s, now) <==>
      DateAt(s, Reminder).None? ||
      now - DateAt(s, Reminder).value >= Threshold(s, ReminderThreshold) * SecondsPerDay
  {
    match DateAt(s, Reminder)
    case None => true
    case Some(reminder) =>
      var threshold := Threshold(s, ReminderThreshold);
      DaysAtLeast(now, reminder, threshold);
      ElapsedDays(now, reminder) >= threshold
  }

  /** Check 3: no review is stored, or the days-since-last-review threshold has passed. */
  predicate CheckDaysSinceLastReview(s: Store, now: int)
    ensures CheckDaysSinceLastReview(s, now) <==>
      DateAt(s, Review).None? ||
      now - DateAt(s, Review).value >= Threshold(s, ReviewThreshold) * SecondsPerDay
  {
    match DateAt(s, Review)
    case None => true
    case Some(review) =>
      var threshold := Threshold(s, ReviewThreshold);
      DaysAtLeast(now, review, threshold);
      ElapsedDays(now, review) >= threshold
  }

  /** Check 4: an install date IS stored and the days-since-install threshold has passed. */
  predicate CheckDaysSinceInstall(s: Store, now: int)
    ensures CheckDaysSinceInstall(s, now) <==>
      DateAt(s, Install).Some? &&
      now - DateAt(s, Install).value >= Threshold(s, InstallThreshold) * SecondsPerDay
  {
    match DateAt(s, Install)
    case None => false
    case Some(install) =>
      var threshold := Threshold(s, InstallThreshold);
      DaysAtLeast(now, install, threshold);
      ElapsedDays(now, install) >= threshold
  }

  /** Check 5: the use count (absent counts as 0) has reached the uses threshold. */
  predicate CheckUses(s: Store)
    ensures Uses !in s ==> (CheckUses(s) <==> Threshold(s, UsesThreshold) <= 0)
    ensures Uses in s && s[Uses].IntValue? ==> (CheckUses(s) <==> s[Uses].n >= Threshold(s, UsesThreshold))
    ensures Uses in s && !s[Uses].IntValue? ==> (CheckUses(s) <==> Threshold(s, UsesThreshold) <= 0)
  {
    Count(s, Uses) >= Threshold(s, UsesThreshold)
  }

  /** Check 6: the significant-event count (absent counts as 0) has reached its threshold. */
  predicate CheckSignificantEvents(s: Store)
    ensures Events !in s ==> (CheckSignificantEvents(s) <==> Threshold(s, EventsThreshold) <= 0)
    ensures Events in s && s[Events].IntValue? ==> (CheckSignificantEvents(s) <==> s[Events].n >= Threshold(s, EventsThreshold))
    ensures Events in s && !s[Events].IntValue? ==> (CheckSignificantEvents(s) <==> Threshold(s, EventsThreshold) <= 0)
  {
    Count(s, Events) >= Threshold(s, EventsThreshold)
  }

  /** Check 7: the native review surface exists, or an app store id is stored. */
  predicate CheckAppInfo(s: Store, nativeAvailable: bool)
    ensures CheckAppInfo(s, nativeAvailable) <==> nativeAvailable || (ID in s && s[ID].StringValue?)
  {
    if nativeAvailable then true else GetAppID(s).Some?
  }

  /** Check number `k` (1 to 7) in the order a proctored request evaluates them. */
  predicate Passes(s: Store, now: int, nativeAvailable: bool, k: int)
    requires 1 <= k <= 7
    ensures k == 1 ==> (Passes(s, now, nativeAvailable, k) <==> CheckRefusalDate(s, now))
    ensures k == 2 ==> (Passes(s, now, nativeAvailable, k) <==> CheckReminderDate(s, now))
    ensures k == 3 ==> (Passes(s, now, nativeAvailable, k) <==> CheckDaysSinceLastReview(s, now))
    ensures k == 4 ==> (Passes(s, now, nativeAvailable, k) <==> CheckDaysSinceInstall(s, now))
    ensures k == 5 ==> (Passes(s, now, nativeAvailable, k) <==> CheckUses(s))
    ensures k == 6 ==> (Passes(s, now, nativeAvailable, k) <==> CheckSignificantEvents(s))
    ensures k == 7 ==> (Passes(s, now, nativeAvailable, k) <==> CheckAppInfo(s, nativeAvailable))
  {
    match k
    case 1 => CheckRefusalDate(s, now)
    case 2 => CheckReminderDate(s, now)
    case 3 => CheckDaysSinceLastReview(s, now)
    case 4 => CheckDaysSinceInstall(s, now)
    case 5 => CheckUses(s)
    case 6 => CheckSignificantEvents(s)
    case _ => CheckAppInfo(s, nativeAvailable)
  }

  /**
   * The first failing check among checks `k` to 7, or 0 when they all pass:
   * the reference definition of the short-circuit chain.
   */
  function FirstFailureFrom(s: Store, now: int, nativeAvailable: bool, k: int): (r: int)
    requires 1 <= k <= 8
    decreases 8 - k
    ensures r == 0 || k <= r <= 7
    ensures r == 0 <==> forall j :: k <= j <= 7 ==> Passes(s, now, nativeAvailable, j)
    ensures r != 0 ==> !Passes(s, now, nativeAvailable, r)
    ensures r != 0 ==> forall j :: k <= j < r ==> Passes(s, now, nativeAvailable, j)
  {
    if k == 8 then 0
    else if !Passes(s, now, nativeAvailable, k) then k
    else FirstFailureFrom(s, now, nativeAvailable, k + 1)
  }

  /**
   * The reason code of a proctored request: 0 when the review is granted,
   * else the number of the first check that fails.
   */
  function FailedCheck(s: Store, now: int, nativeAvailable: bool): (r: int)
    ensures 0 <= r <= 7
    ensures r == 0 <==> forall j :: 1 <= j <= 7 ==> Passes(s, now, nativeAvailable, j)
    ensures r != 0 ==> !Passes(s, now, nativeAvailable, r)
    ensures r != 0 ==> forall j :: 1 <= j < r ==> Passes(s, now, nativeAvailable, j)
  {
    FirstFailureFrom(s, now, nativeAvailable, 1)
  }

  /**
   * Short-circuit ordering, both directions: the code is k exactly when
   * checks 1 to k-1 pass and check k fails.
   */
  lemma ReasonCodeIsFirstFailure(s: Store, now: int, nativeAvailable: bool, k: int)
    requires 1 <= k <= 7
    ensures FailedCheck(s, now, nativeAvailable) == k <==>
      (forall j :: 1 <= j < k ==> Passes(s, now, nativeAvailable, j)) && !Passes(s, now, nativeAvailable, k)
  {
  }

  /**
   * The refusal cooldown is the fixed 91 days: the check does not look at
   * any threshold, so writing any threshold leaves its outcome unchanged.
   */
  lemma RefusalIgnoresThresholds(s: Store, now: int, k: Key, threshold: Option<int>)
    requires k.IsThreshold()
    ensures CheckRefusalDate(SetThreshold(s, k, threshold), now) == CheckRefusalDate(s, now)
  {
    var r := SetThreshold(s, k, threshold);
    assert SameAt(s, r, Refusal);
  }

  /**
   * The asymmetric absent-date rule: an absent refusal, reminder or review
   * date passes its check, while an absent install date fails its check
   * whatever the thresholds are. (A value of another kind under a date key
   * reads as absent.)
   */
  lemma AbsentDates(s: Store, now: int)
    ensures DateAt(s, Refusal).None? ==> CheckRefusalDate(s, now)
    ensures DateAt(s, Reminder).None? ==> CheckReminderDate(s, now)
    ensures DateAt(s, Review).None? ==> CheckDaysSinceLastReview(s, now)
    ensures DateAt(s, Install).None? ==> !CheckDaysSinceInstall(s, now)
  {
  }
}
