/**
 * The persistent preference store the proctor keeps its bookkeeping in.
 *
 * Every value lives under the bundle identifier followed by one of sixteen
 * fixed suffixes ("<bundle>ARPUses", "<bundle>ARPInstall", ...). Each read
 * in the source is a typed cast (`value(forKey:) as? Int`, `as? Date`,
 * `as? String`), so a key that holds a value of another kind reads as absent
 * exactly like a missing key; `IntAt`, `DateAt` and `StringAt` keep that.
 */
module Store {
  import opened Wrappers

  /** The sixteen suffixes the proctor stores values under. */
  datatype Key =
    // counters
    | Uses | Events
    // dates
    | Install | Review | Refusal | Reminder
    // thresholds
    | EventsThreshold | UsesThreshold | InstallThreshold | ReviewThreshold | ReminderThreshold
    // strings
    | ID | Text | Title | AffiliateCode | AffiliateCampaignCode
  {
    predicate IsCounter() { Uses? || Events? }
    predicate IsDate() { Install? || Review? || Refusal? || Reminder? }
    predicate IsThreshold() {
      EventsThreshold? || UsesThreshold? || InstallThreshold? || ReviewThreshold? || ReminderThreshold?
    }
    predicate IsString() { ID? || Text? || Title? || AffiliateCode? || AffiliateCampaignCode? }
  }

  /** A stored value: an integer, a date (whole seconds) or a string. */
  datatype Value = IntValue(n: int) | DateValue(t: int) | StringValue(str: string)

  /** The contents of the preference store, restricted to the proctor's keys. */
  type Store = map<Key, Value>

  /** The suffix a key is stored under, after the bundle identifier. */
  function KeyName(k: Key): (r: string)
    ensures |r| > 3 && r[..3] == "ARP"
  {
    match k
    case Uses => "ARPUses"
    case Events => "ARPEvents"
    case Install => "ARPInstall"
    case Review => "ARPReview"
    case Refusal => "ARPRefusal"
    case Reminder => "ARPReminder"
    case EventsThreshold => "ARPEventsThreshold"
    case UsesThreshold => "ARPUsesThreshold"
    case InstallThreshold => "ARPInstallThreshold"
    case ReviewThreshold => "ARPReviewThreshold"
    case ReminderThreshold => "ARPReminderThreshold"
    case ID => "ARPID"
    case Text => "ARPText"
    case Title => "ARPTitle"
    case AffiliateCode => "ARPAffiliateCode"
    case AffiliateCampaignCode => "ARPAffiliateCampaignCode"
  }

  /** The key a suffix names, if it names one. */
  function KeyOfName(name: string): (r: Option<Key>)
    ensures r.Some? ==> KeyName(r.value) == name
  {
    if name == "ARPUses" then Some(Uses)
    else if name == "ARPEvents" then Some(Events)
    else if name == "ARPInstall" then Some(Install)
    else if name == "ARPReview" then Some(Review)
    else if name == "ARPRefusal" then Some(Refusal)
    else if name == "ARPReminder" then Some(Reminder)
    else if name == "ARPEventsThreshold" then Some(EventsThreshold)
    else if name == "ARPUsesThreshold" then Some(UsesThreshold)
    else if name == "ARPInstallThreshold" then Some(InstallThreshold)
    else if name == "ARPReviewThreshold" then Some(ReviewThreshold)
    else if name == "ARPReminderThreshold" then Some(ReminderThreshold)
    else if name == "ARPID" then Some(ID)
    else if name == "ARPText" then Some(Text)
    else if name == "ARPTitle" then Some(Title)
    else if name == "ARPAffiliateCode" then Some(AffiliateCode)
    else if name == "ARPAffiliateCampaignCode" then Some(AffiliateCampaignCode)
    else None
  }

  /** Every suffix is recognised as the key it was written for. */
  lemma KeyNameRoundTrip(k: Key)
    ensures KeyOfName(KeyName(k)) == Some(k)
  {
    match k
    case Uses =>
    case Events =>
    case Install =>
    case Review =>
    case Refusal =>
    case Reminder =>
    case EventsThreshold =>
    case UsesThreshold =>
    case InstallThreshold =>
    case ReviewThreshold =>
    case ReminderThreshold =>
    case ID =>
    case Text =>
    case Title =>
    case AffiliateCode =>
    case AffiliateCampaignCode =>
  }

  /** The full preference key: the bundle identifier, then the suffix. */
  function NamespacedKey(bundle: string, k: Key): (r: string)
    ensures |r| == |bundle| + |KeyName(k)|
    ensures r[..|bundle|] == bundle && r[|bundle|..] == KeyName(k)
  {
    bundle + KeyName(k)
  }

  /** The key a full preference key stands for under `bundle`, if any. */
  function KeyOfNamespaced(bundle: string, full: string): (r: Option<Key>)
    ensures r.Some? ==> NamespacedKey(bundle, r.value) == full
  {
    if |bundle| <= |full| && full[..|bundle|] == bundle then
      var r := KeyOfName(full[|bundle|..]);
      assert r.Some? ==> bundle + KeyName(r.value) == full[..|bundle|] + full[|bundle|..];
      assert full[..|bundle|] + full[|bundle|..] == full;
      r
    else None
  }

  /**
   * Under one bundle identifier the sixteen keys never collide, so the
   * proctor's values can be modelled as a map from `Key`.
   */
  lemma NamespacedKeyRoundTrip(bundle: string, k: Key)
    ensures KeyOfNamespaced(bundle, NamespacedKey(bundle, k)) == Some(k)
  {
    var full := NamespacedKey(bundle, k);
    assert full[..|bundle|] == bundle;
    assert full[|bundle|..] == KeyName(k);
    KeyNameRoundTrip(k);
  }

  /** `value(forKey: k) as? Int`. */
  function IntAt(s: Store, k: Key): (r: Option<int>)
    ensures r.Some? <==> k in s && s[k].IntValue?
    ensures r.Some? ==> s[k] == IntValue(r.value)
  {
    if k in s && s[k].IntValue? then Some(s[k].n) else None
  }

  /** `value(forKey: k) as? Date`. */
  function DateAt(s: Store, k: Key): (r: Option<int>)
    ensures r.Some? <==> k in s && s[k].DateValue?
    ensures r.Some? ==> s[k] == DateValue(r.value)
  {
    if k in s && s[k].DateValue? then Some(s[k].t) else None
  }

  /** `value(forKey: k) as? String`. */
  function StringAt(s: Store, k: Key): (r: Option<string>)
    ensures r.Some? <==> k in s && s[k].StringValue?
    ensures r.Some? ==> s[k] == StringValue(r.value)
  {
    if k in s && s[k].StringValue? then Some(s[k].str) else None
  }

  /** A counter as the source reads it: an absent value counts as 0. */
  function Count(s: Store, k: Key): (r: int)
    ensures k !in s ==> r == 0
    ensures k in s && s[k].IntValue? ==> r == s[k].n
    ensures k in s && !s[k].IntValue? ==> r == 0
  {
    IntAt(s, k).GetOr(0)
  }

  /** The kind of value the proctor itself writes under each key. */
  predicate WellTypedAt(k: Key, v: Value) {
    if k.IsCounter() then v.IntValue? && v.n >= 0
    else if k.IsThreshold() then v.IntValue?
    else if k.IsDate() then v.DateValue?
    else v.StringValue?
  }

  /** Every stored value has the kind the proctor writes for its key. */
  predicate WellTyped(s: Store) {
    forall k :: k in s ==> WellTypedAt(k, s[k])
  }

  /** Two stores agree on key `k`. */
  predicate SameAt(s: Store, s': Store, k: Key) {
    (k in s <==> k in s') && (k in s ==> s[k] == s'[k])
  }

  /** Two stores agree everywhere except, possibly, on the keys in `keys`. */
  predicate SameExcept(s: Store, s': Store, keys: set<Key>) {
    forall k :: k !in keys ==> SameAt(s, s', k)
  }
}
