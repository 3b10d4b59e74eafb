/**
 * Overridable configuration: the five proctoring thresholds and the five
 * presentation strings. A setter given `nil` leaves the store alone; a
 * getter falls back to the compiled-in default when its key is absent.
 */
module Config {
  import opened Wrappers
  import opened Store

  // Compiled-in threshold defaults.
  const DefaultSignificantEventThreshold: int := 30
  const DefaultUseThreshold: int := 10
  const DefaultDaysSinceInstallThreshold: int := 10
  const DefaultDaysSinceLastReviewThreshold: int := 30
  const DefaultReminderThreshold: int := 1

  // Compiled-in string defaults.
  const DefaultAffiliateCode: string := ""
  const DefaultAffiliateCampaignCode: string := ""
  const DefaultReviewText: string := "If you enjoy using this app, would you take a moment to rate it? This will help us reach others with similar interests. Thanks for your support!"

  /** The compiled-in default of a threshold key. */
  function DefaultThreshold(k: Key): (r: int)
    requires k.IsThreshold()
    ensures r >= 1
    ensures k == EventsThreshold || k == ReviewThreshold ==> r == 30
    ensures k == UsesThreshold || k == InstallThreshold ==> r == 10
    ensures k == ReminderThreshold ==> r == 1
  {
    match k
    case EventsThreshold => DefaultSignificantEventThreshold
    case UsesThreshold => DefaultUseThreshold
    case InstallThreshold => DefaultDaysSinceInstallThreshold
    case ReviewThreshold => DefaultDaysSinceLastReviewThreshold
    case ReminderThreshold => DefaultReminderThreshold
  }

  /** The threshold a check compares against: the stored integer, else the default. */
  function Threshold(s: Store, k: Key): (r: int)
    requires k.IsThreshold()
    ensures k in s && s[k].IntValue? ==> r == s[k].n
    ensures k !in s ==> r == DefaultThreshold(k)
    ensures k in s && !s[k].IntValue? ==> r == DefaultThreshold(k)
  {
    IntAt(s, k).GetOr(DefaultThreshold(k))
  }

  /** The store after one of the five `set...Threshold(threshold)` calls. */
  function SetThreshold(s: Store, k: Key, threshold: Option<int>): (r: Store)
    requires k.IsThreshold()
    ensures threshold.None? ==> r == s
    ensures threshold.Some? ==> k in r && r[k] == IntValue(threshold.value)
    ensures SameExcept(s, r, {k})
  {
    match threshold
    case None => s
    case Some(t) => s[k := IntValue(t)]
  }

  /** The store after `setAppTitle`, `setReviewText`, `setAffiliateCode`,
      `setAffiliateCampaignCode`, or the first write of `setAppID`. */
  function SetString(s: Store, k: Key, value: Option<string>): (r: Store)
    requires k.IsString()
    ensures value.None? ==> r == s
    ensures value.Some? ==> k in r && r[k] == StringValue(value.value)
    ensures SameExcept(s, r, {k})
  {
    match value
    case None => s
    case Some(v) => s[k := StringValue(v)]
  }

  /** `getAppTitle`: the stored title, else the bundle's display name. */
  function GetAppTitle(s: Store, bundleName: string): (r: string)
    ensures StringAt(s, Title).None? ==> r == bundleName
    ensures Title in s && s[Title].StringValue? ==> r == s[Title].str
  {
    StringAt(s, Title).GetOr(bundleName)
  }

  /** `getReviewText`: the stored text, else the compiled-in request text. */
  function GetReviewText(s: Store): (r: string)
    ensures StringAt(s, Text).None? ==> r == DefaultReviewText
    ensures Text in s && s[Text].StringValue? ==> r == s[Text].str
  {
    StringAt(s, Text).GetOr(DefaultReviewText)
  }

  /** `getAppID`: the stored app store identifier, with no default. */
  function GetAppID(s: Store): (r: Option<string>)
    ensures r.Some? <==> ID in s && s[ID].StringValue?
    ensures r.Some? ==> s[ID] == StringValue(r.value)
  {
    StringAt(s, ID)
  }

  /** `getAffiliateCode`: the stored code, else the empty default. */
  function GetAffiliateCode(s: Store): (r: string)
    ensures StringAt(s, AffiliateCode).None? ==> r == DefaultAffiliateCode
    ensures AffiliateCode in s && s[AffiliateCode].StringValue? ==> r == s[AffiliateCode].str
  {
    StringAt(s, AffiliateCode).GetOr(DefaultAffiliateCode)
  }

  /** `getAffiliateCampaignCode`: the stored code, else the empty default. */
  function GetAffiliateCampaignCode(s: Store): (r: string)
    ensures StringAt(s, AffiliateCampaignCode).None? ==> r == DefaultAffiliateCampaignCode
    ensures AffiliateCampaignCode in s && s[AffiliateCampaignCode].StringValue? ==> r == s[AffiliateCampaignCode].str
  {
    StringAt(s, AffiliateCampaignCode).GetOr(DefaultAffiliateCampaignCode)
  }

  /**
   * A threshold setter and the lookup the checks use are partners: after
   * setting `v` the lookup gives exactly `v`, `nil` changes no lookup, and
   * no other threshold's lookup moves.
   */
  lemma SetThresholdThenLookup(s: Store, k: Key, threshold: Option<int>, other: Key)
    requires k.IsThreshold() && other.IsThreshold()
    ensures threshold.Some? ==> Threshold(SetThreshold(s, k, threshold), k) == threshold.value
    ensures threshold.None? ==> Threshold(SetThreshold(s, k, threshold), other) == Threshold(s, other)
    ensures other != k ==> Threshold(SetThreshold(s, k, threshold), other) == Threshold(s, other)
  {
    var r := SetThreshold(s, k, threshold);
    assert SameAt(s, r, other) || other == k;
  }

  /** On a store no threshold was ever written to, every lookup is its default. */
  lemma UnsetThresholdsAreDefaults(s: Store)
    requires forall k: Key :: k.IsThreshold() ==> k !in s
    ensures Threshold(s, EventsThreshold) == 30
    ensures Threshold(s, UsesThreshold) == 10
    ensures Threshold(s, InstallThreshold) == 10
    ensures Threshold(s, ReviewThreshold) == 30
    ensures Threshold(s, ReminderThreshold) == 1
  {
    assert EventsThreshold.IsThreshold() && UsesThreshold.IsThreshold() && InstallThreshold.IsThreshold();
    assert ReviewThreshold.IsThreshold() && ReminderThreshold.IsThreshold();
  }

  /**
   * A string setter and its getter are partners: the getter returns what was
   * last set, and `nil` leaves what the getter returns as it was.
   */
  lemma SetStringThenGet(s: Store, value: Option<string>, bundleName: string)
    ensures value.Some? ==> GetReviewText(SetString(s, Text, value)) == value.value
    ensures value.Some? ==> GetAppTitle(SetString(s, Title, value), bundleName) == value.value
    ensures value.Some? ==> GetAffiliateCode(SetString(s, AffiliateCode, value)) == value.value
    ensures value.Some? ==> GetAffiliateCampaignCode(SetString(s, AffiliateCampaignCode, value)) == value.value
    ensures GetReviewText(SetString(s, Text, None)) == GetReviewText(s)
    ensures GetAppTitle(SetString(s, Title, None), bundleName) == GetAppTitle(s, bundleName)
    ensures GetAffiliateCode(SetString(s, AffiliateCode, None)) == GetAffiliateCode(s)
    ensures GetAffiliateCampaignCode(SetString(s, AffiliateCampaignCode, None)) == GetAffiliateCampaignCode(s)
  {
  }
}
