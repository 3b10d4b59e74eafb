/**
 * Properties that relate several calls: what a request decides after an
 * earlier request, refusal or reminder, and what a fresh store decides.
 */
module Scenarios {
  import opened Wrappers
  import opened Store
  import opened Config
  import opened Checks
  import opened Recorder

  /** Checks 1 and 2 read only the refusal and reminder entries and their threshold. */
  lemma EarlyChecksUnchanged(s: Store, r: Store, now: int)
    requires SameAt(s, r, Refusal) && SameAt(s, r, Reminder) && SameAt(s, r, ReminderThreshold)
    ensures CheckRefusalDate(r, now) == CheckRefusalDate(s, now)
    ensures CheckReminderDate(r, now) == CheckReminderDate(s, now)
  {
    assert DateAt(r, Refusal) == DateAt(s, Refusal);
    assert DateAt(r, Reminder) == DateAt(s, Reminder);
    assert Threshold(r, ReminderThreshold) == Threshold(s, ReminderThreshold);
  }

  /**
   * On the native path a granted request records the review date before
   * prompting, so a second request at the same moment is denied by check 3
   * (when the days-since-last-review threshold is positive).
   */
  lemma NativeGrantThenDeniedByLastReview(s: Store, now: int)
    requires FailedCheck(s, now, true) == 0
    requires Threshold(s, ReviewThreshold) > 0
    ensures FailedCheck(ProctoredReviewed(s, now, true), now, true) == 3
  {
    var r := ProctoredReviewed(s, now, true);
    assert SameAt(s, r, Refusal) && SameAt(s, r, Reminder) && SameAt(s, r, ReminderThreshold);
    assert SameAt(s, r, ReviewThreshold);
    EarlyChecksUnchanged(s, r, now);
    assert Passes(s, now, true, 1) && Passes(s, now, true, 2);
    assert Threshold(r, ReviewThreshold) == Threshold(s, ReviewThreshold);
    assert !Passes(r, now, true, 3);
    ReasonCodeIsFirstFailure(r, now, true, 3);
  }

  /**
   * On the fallback-dialog path the review date is written only when "OK"
   * is tapped, so a granted request leaves the store as it was and an
   * immediate second request is granted again.
   */
  lemma FallbackGrantRecordsNothing(s: Store, now: int)
    requires FailedCheck(s, now, false) == 0
    ensures ProctoredReviewed(s, now, false) == s
    ensures FailedCheck(ProctoredReviewed(s, now, false), now, false) == 0
  {
  }

  /**
   * After "No, Thanks" every request for the next 91 days is denied by
   * check 1; from 91 days on, check 1 passes.
   */
  lemma RefusalCooldown(s: Store, now: int, later: int, nativeAvailable: bool)
    ensures later - now < RefusalCooldownDays * SecondsPerDay ==>
      FailedCheck(Responded(s, NoThanks, now), later, nativeAvailable) == 1
    ensures later - now >= RefusalCooldownDays * SecondsPerDay ==>
      CheckRefusalDate(Responded(s, NoThanks, now), later)
  {
    var r := Responded(s, NoThanks, now);
    if later - now < RefusalCooldownDays * SecondsPerDay {
      assert !Passes(r, later, nativeAvailable, 1);
      ReasonCodeIsFirstFailure(r, later, nativeAvailable, 1);
    }
  }

  /**
   * After "Remind Me Later" every request is denied by check 2 until the
   * reminder threshold in days has passed, unless check 1 already denies it.
   */
  lemma ReminderCooldown(s: Store, now: int, later: int, nativeAvailable: bool)
    requires CheckRefusalDate(s, later)
    ensures later - now < Threshold(s, ReminderThreshold) * SecondsPerDay ==>
      FailedCheck(Responded(s, RemindMeLater, now), later, nativeAvailable) == 2
    ensures later - now >= Threshold(s, ReminderThreshold) * SecondsPerDay ==>
      CheckReminderDate(Responded(s, RemindMeLater, now), later)
  {
    var r := Responded(s, RemindMeLater, now);
    assert SameAt(s, r, Refusal) && SameAt(s, r, ReminderThreshold);
    assert DateAt(r, Refusal) == DateAt(s, Refusal);
    assert Threshold(r, ReminderThreshold) == Threshold(s, ReminderThreshold);
    if later - now < Threshold(s, ReminderThreshold) * SecondsPerDay {
      assert Passes(r, later, nativeAvailable, 1);
      assert !Passes(r, later, nativeAvailable, 2);
      ReasonCodeIsFirstFailure(r, later, nativeAvailable, 2);
    }
  }

  /**
   * A store with no dates at all (a fresh install before `setAppID`) is
   * denied by check 4, whatever the thresholds and counters say.
   */
  lemma NoInstallDateDenied(s: Store, now: int, nativeAvailable: bool)
    requires Refusal !in s && Reminder !in s && Review !in s && Install !in s
    ensures FailedCheck(s, now, nativeAvailable) == 4
  {
    AbsentDates(s, now);
    assert Passes(s, now, nativeAvailable, 1) && Passes(s, now, nativeAvailable, 2);
    assert Passes(s, now, nativeAvailable, 3) && !Passes(s, now, nativeAvailable, 4);
    ReasonCodeIsFirstFailure(s, now, nativeAvailable, 4);
  }

  /**
   * With every threshold 0, an install date one day back and no refusal,
   * reminder or review, a request is granted wherever check 7 passes.
   */
  lemma ZeroThresholdsGranted(s: Store, now: int, nativeAvailable: bool)
    requires IntAt(s, EventsThreshold) == Some(0) && IntAt(s, UsesThreshold) == Some(0)
    requires IntAt(s, InstallThreshold) == Some(0) && IntAt(s, ReviewThreshold) == Some(0)
    requires IntAt(s, ReminderThreshold) == Some(0)
    requires DateAt(s, Install) == Some(now - SecondsPerDay)
    requires Refusal !in s && Reminder !in s && Review !in s
    requires Count(s, Uses) >= 0 && Count(s, Events) >= 0
    requires nativeAvailable || GetAppID(s).Some?
    ensures FailedCheck(s, now, nativeAvailable) == 0
  {
    forall j | 1 <= j <= 7 ensures Passes(s, now, nativeAvailable, j) {
    }
  }

  /**
   * The uses threshold is inclusive: with every other check passing, one use
   * short of it is denied by check 5 and reaching it is granted.
   */
  lemma UsesThresholdBoundary(s: Store, now: int, nativeAvailable: bool)
    requires CheckRefusalDate(s, now) && CheckReminderDate(s, now)
    requires CheckDaysSinceLastReview(s, now) && CheckDaysSinceInstall(s, now)
    requires CheckSignificantEvents(s) && CheckAppInfo(s, nativeAvailable)
    ensures Count(s, Uses) == Threshold(s, UsesThreshold) - 1 ==> FailedCheck(s, now, nativeAvailable) == 5
    ensures Count(s, Uses) == Threshold(s, UsesThreshold) ==> FailedCheck(s, now, nativeAvailable) == 0
  {
    if Count(s, Uses) == Threshold(s, UsesThreshold) - 1 {
      assert !Passes(s, now, nativeAvailable, 5);
      assert forall j :: 1 <= j < 5 ==> Passes(s, now, nativeAvailable, j);
      ReasonCodeIsFirstFailure(s, now, nativeAvailable, 5);
    }
    if Count(s, Uses) == Threshold(s, UsesThreshold) {
      assert forall j :: 1 <= j <= 7 ==> Passes(s, now, nativeAvailable, j);
    }
  }

  /**
   * "OK" resets only the use-based conditions: the install date, the
   * thresholds and the strings keep their values.
   */
  lemma AcceptKeepsConfiguration(s: Store, now: int, k: Key)
    requires k == Install || k.IsThreshold() || k.IsString()
    ensures SameAt(s, Responded(s, OK, now), k)
  {
  }

  /**
   * Counters only move one step per call: after any run without an "OK"
   * tap, a counter has grown by at least 0 and at most the number of calls.
   */
  lemma CounterGrowthBounded(s: Store, calls: seq<Call>, nativeAvailable: bool, k: Key)
    requires k.IsCounter()
    requires NoAccept(calls)
    ensures Count(s, k) <= Count(Run(s, calls, nativeAvailable), k) <= Count(s, k) + |calls|
  {
    CountAfterCalls(s, calls, nativeAvailable, k);
  }

  /** `n` calls of `addUse`, at any times. */
  function AddUseCalls(n: nat, now: int): (calls: seq<Call>)
    ensures |calls| == n
    ensures forall i :: 0 <= i < n ==> calls[i] == Call(AddUse, now)
  {
    seq(n, _ => Call(AddUse, now))
  }

  /** Every call of a run of `addUse` calls counts toward the uses. */
  lemma {:induction false} IncrementsOfAddUses(calls: seq<Call>)
    requires forall i :: 0 <= i < |calls| ==> calls[i].op == AddUse
    ensures Increments(calls, Uses) == |calls|
    decreases |calls|
  {
    if calls != [] {
      IncrementsOfAddUses(calls[1..]);
    }
  }

  /** `addUse` called N times on a fresh store leaves a use count of N. */
  lemma UsesFromFreshStore(n: nat, now: int, nativeAvailable: bool)
    ensures IntAt(Run(map[], AddUseCalls(n, now), nativeAvailable), Uses) == (if n == 0 then None else Some(n))
  {
    var calls := AddUseCalls(n, now);
    IncrementsOfAddUses(calls);
    CountAfterCalls(map[], calls, nativeAvailable, Uses);
    if n > 0 {
      UsesStored(map[], calls, nativeAvailable);
    } else {
      assert calls == [];
    }
  }

  /** After at least one `addUse` the use count is stored as an integer. */
  lemma {:induction false} UsesStored(s: Store, calls: seq<Call>, nativeAvailable: bool)
    requires |calls| > 0
    requires forall i :: 0 <= i < |calls| ==> calls[i].op == AddUse
    ensures IntAt(Run(s, calls, nativeAvailable), Uses).Some?
    decreases |calls|
  {
    var r := Step(s, calls[0], nativeAvailable);
    if |calls| > 1 {
      UsesStored(r, calls[1..], nativeAvailable);
    } else {
      assert Run(r, calls[1..], nativeAvailable) == r;
    }
  }
}
