/**
 * The proctor itself: its state is the preference store, which every
 * public call reads and most of them update in place. The capability of
 * the system (whether the native review surface exists) is fixed when the
 * proctor is created; the current time is passed to every call that reads
 * or records a date.
 */
module Proctor {
  import opened Wrappers
  import opened Store
  import opened Config
  import opened Checks
  import opened Recorder

  class AppReviewProctor {
    /** The proctor's values in the preference store. */
    var defaults: Store
    /** Whether the native review surface exists on this system. */
    const nativeReviewAvailable: bool

    constructor (initial: Store, nativeReviewAvailable: bool)
      ensures defaults == initial
      ensures this.nativeReviewAvailable == nativeReviewAvailable
    {
      defaults := initial;
      this.nativeReviewAvailable := nativeReviewAvailable;
    }

    /** Records one significant event. */
    method AddSignificantEvent()
      modifies this
      ensures defaults == Incremented(old(defaults), Events)
      ensures Count(defaults, Events) == Count(old(defaults), Events) + 1
    {
      var eventCount := 0;
      match IntAt(defaults, Events) {
        case Some(n) => eventCount := n;
        case None => eventCount := 0;
      }
      eventCount := eventCount + 1;
      defaults := defaults[Events := IntValue(eventCount)];
    }

    /** Records one use of the app. */
    method AddUse()
      modifies this
      ensures defaults == Incremented(old(defaults), Uses)
      ensures Count(defaults, Uses) == Count(old(defaults), Uses) + 1
    {
      var useCount := 0;
      match IntAt(defaults, Uses) {
        case Some(n) => useCount := n;
        case None => useCount := 0;
      }
      useCount := useCount + 1;
      defaults := defaults[Uses := IntValue(useCount)];
    }

    /** Records `now` as the install date unless one is stored already. */
    method AddInstallDate(now: int)
      modifies this
      ensures defaults == InstallDated(old(defaults), now)
    {
      if DateAt(defaults, Install).Some? {
        // an install date exists already: it is never overwritten
      } else {
        defaults := defaults[Install := DateValue(now)];
      }
    }

    /** Records `now` as the last review date. */
    method AddReviewDate(now: int)
      modifies this
      ensures defaults == Dated(old(defaults), Review, now)
    {
      defaults := defaults[Review := DateValue(now)];
    }

    /** Records `now` as the refusal date. */
    method AddRefusalDate(now: int)
      modifies this
      ensures defaults == Dated(old(defaults), Refusal, now)
    {
      defaults := defaults[Refusal := DateValue(now)];
    }

    /** Records `now` as the "remind me later" date. */
    method AddReminderDate(now: int)
      modifies this
      ensures defaults == Dated(old(defaults), Reminder, now)
    {
      defaults := defaults[Reminder := DateValue(now)];
    }

    method SetSignificantEventsThreshold(threshold: Option<int>)
      modifies this
      ensures defaults == SetThreshold(old(defaults), EventsThreshold, threshold)
    {
      if threshold.None? { return; }
      defaults := defaults[EventsThreshold := IntValue(threshold.value)];
    }

    method SetUsesThreshold(threshold: Option<int>)
      modifies this
      ensures defaults == SetThreshold(old(defaults), UsesThreshold, threshold)
    {
      if threshold.None? { return; }
      defaults := defaults[UsesThreshold := IntValue(threshold.value)];
    }

    method SetDaysSinceInstallThreshold(threshold: Option<int>)
      modifies this
      ensures defaults == SetThreshold(old(defaults), InstallThreshold, threshold)
    {
      if threshold.None? { return; }
      defaults := defaults[InstallThreshold := IntValue(threshold.value)];
    }

    method SetDaysSinceLastReviewThreshold(threshold: Option<int>)
      modifies this
      ensures defaults == SetThreshold(old(defaults), ReviewThreshold, threshold)
    {
      if threshold.None? { return; }
      defaults := defaults[ReviewThreshold := IntValue(threshold.value)];
    }

    method SetReminderThreshold(threshold: Option<int>)
      modifies this
      ensures defaults == SetThreshold(old(defaults), ReminderThreshold, threshold)
    {
      if threshold.None? { return; }
      defaults := defaults[ReminderThreshold := IntValue(threshold.value)];
    }

    method SetAppTitle(title: Option<string>)
      modifies this
      ensures defaults == SetString(old(defaults), Title, title)
    {
      if title.None? { return; }
      defaults := defaults[Title := StringValue(title.value)];
    }

    method SetReviewText(text: Option<string>)
      modifies this
      ensures defaults == SetString(old(defaults), Text, text)
    {
      if text.None? { return; }
      defaults := defaults[Text := StringValue(text.value)];
    }

    /** Stores the app store id; the first call also marks the install date. */
    method SetAppID(id: Option<string>, now: int)
      modifies this
      ensures defaults == AppIDSet(old(defaults), id, now)
    {
      if id.None? { return; }
      defaults := defaults[ID := StringValue(id.value)];
      AddInstallDate(now);
    }

    method SetAffiliateCode(code: Option<string>)
      modifies this
      ensures defaults == SetString(old(defaults), AffiliateCode, code)
    {
      if code.None? { return; }
      defaults := defaults[AffiliateCode := StringValue(code.value)];
    }

    method SetAffiliateCampaignCode(code: Option<string>)
      modifies this
      ensures defaults == SetString(old(defaults), AffiliateCampaignCode, code)
    {
      if code.None? { return; }
      defaults := defaults[AffiliateCampaignCode := StringValue(code.value)];
    }

    /** Resets the use-based conditions after an accepted review. */
    method ClearProctorConditions()
      modifies this
      ensures defaults == Cleared(old(defaults))
    {
      defaults := defaults[Events := IntValue(0)];
      defaults := defaults[Uses := IntValue(0)];
      defaults := defaults - {Refusal};
      defaults := defaults - {Reminder};
      assert defaults == old(defaults)[Events := IntValue(0)][Uses := IntValue(0)] - {Refusal, Reminder};
    }

    /**
     * Shows the review prompt: the native surface after recording the review
     * date, or else the fallback dialog, whose buttons are the three
     * `...Tapped` methods below.
     */
    method DisplayPrompt(now: int)
      modifies this
      ensures defaults == Prompted(old(defaults), now, nativeReviewAvailable)
    {
      if nativeReviewAvailable {
        AddReviewDate(now);
      }
    }

    /** The fallback dialog's "No, Thanks" button. */
    method NoThanksTapped(now: int)
      modifies this
      ensures defaults == Responded(old(defaults), NoThanks, now)
    {
      AddRefusalDate(now);
    }

    /** The fallback dialog's "Remind Me Later" button. */
    method RemindMeLaterTapped(now: int)
      modifies this
      ensures defaults == Responded(old(defaults), RemindMeLater, now)
    {
      AddReminderDate(now);
    }

    /** The fallback dialog's "OK" button (it then opens the store page). */
    method OkTapped(now: int)
      modifies this
      ensures defaults == Responded(old(defaults), OK, now)
    {
      ClearProctorConditions();
      AddReviewDate(now);
    }

    /**
     * A proctored review request: the seven checks in order, stopping at the
     * first that fails; `whatWentWrong` is its number, or 0 when the prompt
     * is displayed.
     */
    method ProctoredReview(now: int) returns (granted: bool, whatWentWrong: int)
      modifies this
      ensures whatWentWrong == FailedCheck(old(defaults), now, nativeReviewAvailable)
      ensures granted <==> whatWentWrong == 0
      ensures defaults == ProctoredReviewed(old(defaults), now, nativeReviewAvailable)
    {
      ghost var s := defaults;
      whatWentWrong := 0;
      if !CheckRefusalDate(defaults, now) {
        whatWentWrong := 1;
      } else if !CheckReminderDate(defaults, now) {
        whatWentWrong := 2;
      } else if !CheckDaysSinceLastReview(defaults, now) {
        whatWentWrong := 3;
      } else if !CheckDaysSinceInstall(defaults, now) {
        whatWentWrong := 4;
      } else if !CheckUses(defaults) {
        whatWentWrong := 5;
      } else if !CheckSignificantEvents(defaults) {
        whatWentWrong := 6;
      } else if !CheckAppInfo(defaults, nativeReviewAvailable) {
        whatWentWrong := 7;
      }
      if whatWentWrong != 0 {
        ReasonCodeIsFirstFailure(s, now, nativeReviewAvailable, whatWentWrong);
      }
      if whatWentWrong == 0 {
        DisplayPrompt(now);
        granted := true;
      } else {
        granted := false;
      }
    }

    /** A direct review request: no checks; needs a stored app id. */
    method RequestDirectReview(now: int)
      modifies this
      ensures defaults == DirectReviewed(old(defaults), now)
    {
      match GetAppID(defaults) {
        case Some(_) =>
          AddReviewDate(now);
        case None =>
      }
    }
  }
}
