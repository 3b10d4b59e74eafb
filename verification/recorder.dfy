/**
 * What every public call, and every button of the fallback dialog, does to
 * the store: the reference definitions the mutating methods of
 * `Proctor.AppReviewProctor` are proved against.
 */
module Recorder {
  import opened Wrappers
  import opened Store
  import opened Config
  import opened Checks

  /** `addUse` / `addSignificantEvent`: read the counter (absent is 0), add one, write it back. */
  function Incremented(s: Store, k: Key): (r: Store)
    requires k.IsCounter()
    ensures IntAt(r, k) == Some(Count(s, k) + 1)
    ensures SameExcept(s, r, {k})
  {
    s[k := IntValue(Count(s, k) + 1)]
  }

  /** `addReviewDate` / `addRefusalDate` / `addReminderDate`: store `now` under the date key. */
  function Dated(s: Store, k: Key, now: int): (r: Store)
    requires k.IsDate()
    ensures DateAt(r, k) == Some(now)
    ensures SameExcept(s, r, {k})
  {
    s[k := DateValue(now)]
  }

  /** `addInstallDate`: store `now` as the install date only when no install date is stored. */
  function InstallDated(s: Store, now: int): (r: Store)
    ensures DateAt(s, Install).Some? ==> r == s
    ensures DateAt(s, Install).None? ==> DateAt(r, Install) == Some(now)
    ensures SameExcept(s, r, {Install})
  {
    if DateAt(s, Install).Some? then s else Dated(s, Install, now)
  }

  /** `setAppID`: `nil` does nothing; otherwise store the id, then `addInstallDate`. */
  function AppIDSet(s: Store, id: Option<string>, now: int): (r: Store)
    ensures id.None? ==> r == s
    ensures id.Some? ==> GetAppID(r) == id
    ensures id.Some? && DateAt(s, Install).Some? ==> DateAt(r, Install) == DateAt(s, Install)
    ensures id.Some? && DateAt(s, Install).None? ==> DateAt(r, Install) == Some(now)
    ensures SameExcept(s, r, {ID, Install})
  {
    match id
    case None => s
    case Some(_) => InstallDated(SetString(s, ID, id), now)
  }

  /**
   * `clearProctorConditions`: both counters become 0, the refusal and the
   * reminder dates are removed, and nothing else changes.
   */
  function Cleared(s: Store): (r: Store)
    ensures IntAt(r, Uses) == Some(0) && IntAt(r, Events) == Some(0)
    ensures Refusal !in r && Reminder !in r
    ensures SameExcept(s, r, {Uses, Events, Refusal, Reminder})
  {
    s[Events := IntValue(0)][Uses := IntValue(0)] - {Refusal, Reminder}
  }

  /** The three buttons of the fallback dialog. */
  datatype Response = NoThanks | RemindMeLater | OK

  /**
   * The state effect of a button of the fallback dialog: "No, Thanks"
   * records a refusal, "Remind Me Later" a reminder, and "OK" clears the
   * proctor conditions and then records the review date.
   */
  function Responded(s: Store, response: Response, now: int): (r: Store)
    ensures response == NoThanks ==> DateAt(r, Refusal) == Some(now) && SameExcept(s, r, {Refusal})
    ensures response == RemindMeLater ==> DateAt(r, Reminder) == Some(now) && SameExcept(s, r, {Reminder})
    ensures response == OK ==>
      && IntAt(r, Uses) == Some(0) && IntAt(r, Events) == Some(0)
      && Refusal !in r && Reminder !in r
      && DateAt(r, Review) == Some(now)
      && SameExcept(s, r, {Uses, Events, Refusal, Reminder, Review})
  {
    match response
    case NoThanks => Dated(s, Refusal, now)
    case RemindMeLater => Dated(s, Reminder, now)
    case OK => Dated(Cleared(s), Review, now)
  }

  /**
   * `displayPrompt`: with the native review surface the review date is
   * recorded before the prompt; the fallback dialog changes nothing until
   * one of its buttons is tapped.
   */
  function Prompted(s: Store, now: int, nativeAvailable: bool): (r: Store)
    ensures nativeAvailable ==> DateAt(r, Review) == Some(now) && SameExcept(s, r, {Review})
    ensures !nativeAvailable ==> r == s
  {
    if nativeAvailable then Dated(s, Review, now) else s
  }

  /**
   * `proctoredReview`: a denied request changes nothing; a granted one
   * displays the prompt.
   */
  function ProctoredReviewed(s: Store, now: int, nativeAvailable: bool): (r: Store)
    ensures FailedCheck(s, now, nativeAvailable) != 0 ==> r == s
    ensures FailedCheck(s, now, nativeAvailable) == 0 && nativeAvailable ==>
      DateAt(r, Review) == Some(now) && SameExcept(s, r, {Review})
    ensures !nativeAvailable ==> r == s
  {
    if FailedCheck(s, now, nativeAvailable) == 0 then Prompted(s, now, nativeAvailable) else s
  }

  /**
   * `requestDirectReview`: without a stored app id nothing happens; with one
   * only the review date is recorded (and the store page is opened).
   */
  function DirectReviewed(s: Store, now: int): (r: Store)
    ensures GetAppID(s).None? ==> r == s
    ensures GetAppID(s).Some? ==> DateAt(r, Review) == Some(now) && SameExcept(s, r, {Review})
  {
    if GetAppID(s).Some? then Dated(s, Review, now) else s
  }

  /** A call of the public interface, or a tap on a fallback-dialog button. */
  datatype Op =
    | AddUse
    | AddSignificantEvent
    | SetSignificantEventsThreshold(threshold: Option<int>)
    | SetUsesThreshold(threshold: Option<int>)
    | SetDaysSinceInstallThreshold(threshold: Option<int>)
    | SetDaysSinceLastReviewThreshold(threshold: Option<int>)
    | SetReminderThreshold(threshold: Option<int>)
    | SetAppTitle(title: Option<string>)
    | SetReviewText(text: Option<string>)
    | SetAppID(id: Option<string>)
    | SetAffiliateCode(code: Option<string>)
    | SetAffiliateCampaignCode(code: Option<string>)
    | RequestProctoredReview
    | RequestDirectReview
    | Tap(response: Response)

  /** One call at the time `now`. */
  datatype Call = Call(op: Op, now: int)

  /** The store after one call, on a system with or without the native review surface. */
  function Step(s: Store, c: Call, nativeAvailable: bool): Store {
    match c.op
    case AddUse => Incremented(s, Uses)
    case AddSignificantEvent => Incremented(s, Events)
    case SetSignificantEventsThreshold(t) => SetThreshold(s, EventsThreshold, t)
    case SetUsesThreshold(t) => SetThreshold(s, UsesThreshold, t)
    case SetDaysSinceInstallThreshold(t) => SetThreshold(s, InstallThreshold, t)
    case SetDaysSinceLastReviewThreshold(t) => SetThreshold(s, ReviewThreshold, t)
    case SetReminderThreshold(t) => SetThreshold(s, ReminderThreshold, t)
    case SetAppTitle(v) => SetString(s, Title, v)
    case SetReviewText(v) => SetString(s, Text, v)
    case SetAppID(id) => AppIDSet(s, id, c.now)
    case SetAffiliateCode(v) => SetString(s, AffiliateCode, v)
    case SetAffiliateCampaignCode(v) => SetString(s, AffiliateCampaignCode, v)
    case RequestProctoredReview => ProctoredReviewed(s, c.now, nativeAvailable)
    case RequestDirectReview => DirectReviewed(s, c.now)
    case Tap(response) => Responded(s, response, c.now)
  }

  /** The store after a sequence of calls, first to last. */
  function Run(s: Store, calls: seq<Call>, nativeAvailable: bool): Store
    decreases |calls|
  {
    if calls == [] then s else Run(Step(s, calls[0], nativeAvailable), calls[1..], nativeAvailable)
  }

  /** The number of calls in `calls` that increment counter `k`. */
  function Increments(calls: seq<Call>, k: Key): (n: nat)
    requires k.IsCounter()
    ensures n <= |calls|
  {
    if calls == [] then 0
    else
      var here := if calls[0].op == (if k == Uses then AddUse else AddSignificantEvent) then 1 else 0;
      here + Increments(calls[1..], k)
  }

  /** No call in `calls` is a tap on "OK", the one thing that resets the counters. */
  predicate NoAccept(calls: seq<Call>) {
    forall i :: 0 <= i < |calls| ==> calls[i].op != Tap(OK)
  }

  /** One call moves a counter up by one if it is that counter's `add...`, and otherwise leaves it. */
  lemma StepCount(s: Store, c: Call, nativeAvailable: bool, k: Key)
    requires k.IsCounter()
    requires c.op != Tap(OK)
    ensures Count(Step(s, c, nativeAvailable), k) ==
      Count(s, k) + (if c.op == (if k == Uses then AddUse else AddSignificantEvent) then 1 else 0)
  {
    var r := Step(s, c, nativeAvailable);
    match c.op
    case AddUse =>
    case AddSignificantEvent =>
    case Tap(response) =>
      assert SameAt(s, r, k);
    case _ =>
      assert SameAt(s, r, k);
  }

  /**
   * Counters only grow between acceptances: after any calls with no "OK"
   * tap, a counter is its old value (absent is 0) plus the number of its
   * `add...` calls. From a fresh store, N calls of `addUse` give N uses.
   */
  lemma {:induction false} CountAfterCalls(s: Store, calls: seq<Call>, nativeAvailable: bool, k: Key)
    requires k.IsCounter()
    requires NoAccept(calls)
    ensures Count(Run(s, calls, nativeAvailable), k) == Count(s, k) + Increments(calls, k)
    decreases |calls|
  {
    if calls != [] {
      StepCount(s, calls[0], nativeAvailable, k);
      assert NoAccept(calls[1..]) by {
        forall i | 0 <= i < |calls[1..]| ensures calls[1..][i].op != Tap(OK) {
          assert calls[1..][i] == calls[i + 1];
        }
      }
      CountAfterCalls(Step(s, calls[0], nativeAvailable), calls[1..], nativeAvailable, k);
    }
  }

  /** No call moves a stored install date. */
  lemma StepKeepsInstall(s: Store, c: Call, nativeAvailable: bool)
    requires DateAt(s, Install).Some?
    ensures DateAt(Step(s, c, nativeAvailable), Install) == DateAt(s, Install)
  {
    var r := Step(s, c, nativeAvailable);
    if !c.op.SetAppID? {
      assert SameAt(s, r, Install);
    }
  }

  /**
   * The install date is written once: whatever calls follow, a stored
   * install date never changes.
   */
  lemma {:induction false} InstallDateSetOnce(s: Store, calls: seq<Call>, nativeAvailable: bool)
    requires DateAt(s, Install).Some?
    ensures DateAt(Run(s, calls, nativeAvailable), Install) == DateAt(s, Install)
    decreases |calls|
  {
    if calls != [] {
      StepKeepsInstall(s, calls[0], nativeAvailable);
      InstallDateSetOnce(Step(s, calls[0], nativeAvailable), calls[1..], nativeAvailable);
    }
  }

  /** A store that differs from a well-typed one only on well-typed entries of `keys` is well typed. */
  lemma WellTypedExcept(s: Store, r: Store, keys: set<Key>)
    requires WellTyped(s) && SameExcept(s, r, keys)
    requires forall k :: k in keys && k in r ==> WellTypedAt(k, r[k])
    ensures WellTyped(r)
  {
    forall k | k in r ensures WellTypedAt(k, r[k]) {
      if k !in keys {
        assert SameAt(s, r, k);
      }
    }
  }

  /** One call keeps every stored value of the kind the proctor writes for its key. */
  lemma StepWellTyped(s: Store, c: Call, nativeAvailable: bool)
    requires WellTyped(s)
    ensures WellTyped(Step(s, c, nativeAvailable))
  {
    var r := Step(s, c, nativeAvailable);
    match c.op
    case AddUse =>
      if Uses in s { assert WellTypedAt(Uses, s[Uses]); }
      WellTypedExcept(s, r, {Uses});
    case AddSignificantEvent =>
      if Events in s { assert WellTypedAt(Events, s[Events]); }
      WellTypedExcept(s, r, {Events});
    case SetSignificantEventsThreshold(t) => WellTypedExcept(s, r, {EventsThreshold});
    case SetUsesThreshold(t) => WellTypedExcept(s, r, {UsesThreshold});
    case SetDaysSinceInstallThreshold(t) => WellTypedExcept(s, r, {InstallThreshold});
    case SetDaysSinceLastReviewThreshold(t) => WellTypedExcept(s, r, {ReviewThreshold});
    case SetReminderThreshold(t) => WellTypedExcept(s, r, {ReminderThreshold});
    case SetAppTitle(v) => WellTypedExcept(s, r, {Title});
    case SetReviewText(v) => WellTypedExcept(s, r, {Text});
    case SetAppID(id) =>
      if Install in s { assert WellTypedAt(Install, s[Install]); }
      WellTypedExcept(s, r, {ID, Install});
    case SetAffiliateCode(v) => WellTypedExcept(s, r, {AffiliateCode});
    case SetAffiliateCampaignCode(v) => WellTypedExcept(s, r, {AffiliateCampaignCode});
    case RequestProctoredReview =>
      if Review in s { assert WellTypedAt(Review, s[Review]); }
      WellTypedExcept(s, r, {Review});
    case RequestDirectReview =>
      if Review in s { assert WellTypedAt(Review, s[Review]); }
      WellTypedExcept(s, r, {Review});
    case Tap(response) =>
      if Review in s { assert WellTypedAt(Review, s[Review]); }
      WellTypedExcept(s, r, {Uses, Events, Refusal, Reminder, Review});
  }

  /** Every sequence of calls keeps the store well typed. */
  lemma {:induction false} RunWellTyped(s: Store, calls: seq<Call>, nativeAvailable: bool)
    requires WellTyped(s)
    ensures WellTyped(Run(s, calls, nativeAvailable))
    decreases |calls|
  {
    if calls != [] {
      StepWellTyped(s, calls[0], nativeAvailable);
      RunWellTyped(Step(s, calls[0], nativeAvailable), calls[1..], nativeAvailable);
    }
  }

  /**
   * A date is never cleared on its own and only ever overwritten with the
   * time of the call: after one call each date is unchanged or `now`, except
   * that an "OK" tap removes the refusal and reminder dates together.
   */
  lemma StepDates(s: Store, c: Call, nativeAvailable: bool, k: Key)
    requires k.IsDate()
    ensures var r := Step(s, c, nativeAvailable);
      || DateAt(r, k) == DateAt(s, k)
      || DateAt(r, k) == Some(c.now)
      || (c.op == Tap(OK) && (k == Refusal || k == Reminder) && k !in r)
  {
    var r := Step(s, c, nativeAvailable);
    match c.op
    case Tap(response) =>
      if response != OK || k == Install {
        assert SameAt(s, r, k) || DateAt(r, k) == Some(c.now);
      }
    case SetAppID(id) =>
      assert SameAt(s, r, k) || DateAt(r, k) == Some(c.now);
    case RequestProctoredReview =>
      assert SameAt(s, r, k) || DateAt(r, k) == Some(c.now);
    case RequestDirectReview =>
      assert SameAt(s, r, k) || DateAt(r, k) == Some(c.now);
    case _ =>
      assert SameAt(s, r, k);
  }
}
