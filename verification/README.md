# AppReviewProctor, modelled in Dafny

AppReviewProctor decides when an iOS app may ask its user for an App Store
review. It keeps its bookkeeping in the app's preference store
(`UserDefaults`), under keys made of the bundle identifier and a fixed suffix:

- two counters: uses and significant events;
- four dates: install, last review, refusal and "remind me later";
- five thresholds;
- five strings: the app store id, the review text, the app title and two affiliate codes.

A proctored review request runs seven checks in a fixed order and stops at
the first one that fails:

1. refusal cooldown, a fixed 91 days;
2. reminder cooldown;
3. days since the last review;
4. days since install;
5. uses;
6. significant events;
7. app info.

A refused request reports the number of the failing check. A granted
request shows either the native review surface or a fallback dialog. The
dialog has three buttons: "No, Thanks", "Remind Me Later" and "OK". Each
button records its outcome in the store.

The model is organised as follows:

- `wrappers.dfy`: `Option`, the model of Swift's optionals.
- `store.dfy` (module `Store`): the keys, the stored values, and the typed
  reads. `as? Int`, `as? Date` and `as? String` treat a value of another
  kind as absent. The module also proves that the sixteen key suffixes
  cannot collide under one bundle prefix.
- `config.dfy` (module `Config`): the compiled-in defaults, the threshold
  lookup, the setters (`nil` does nothing) and the string getters.
- `checks.dfy` (module `Checks`): the seven checks as functions of the
  store, the time and the capability flag. It also holds the reference
  definition of the reason code: the first failing check, or 0.
- `recorder.dfy` (module `Recorder`): what each public call and each dialog
  button does to the store. It also defines a run of calls, which the
  lemmas about several calls use.
- `proctor.dfy` (module `Proctor`): the class `AppReviewProctor`. Its field
  `defaults` is the store, and its methods update it in place. Each method
  is proved to leave the store its specification function gives: a
  `Recorder` function for the counters, dates, buttons and requests, and
  `Config.SetThreshold` or `Config.SetString` for the nine setters.
  `ProctoredReview` is also proved to return the reason code
  `Checks.FailedCheck`.
- `scenarios.dfy` (module `Scenarios`): properties that span several calls.

Inputs the model takes as parameters:

- Time is whole seconds, passed as `now`. Elapsed days are
  `(now - t) / 86400`, which is floor division, as in the source.
- Whether the native review surface exists (`#available(iOS 10.3, *)`) is
  the flag `nativeReviewAvailable` / `nativeAvailable`.
- The bundle's display name, the default app title, is a parameter of
  `GetAppTitle`.

## Behaviour worth noting

The last-review date is recorded at display time only on the native path:
`displayPrompt` calls `addReviewDate` before
`SKStoreReviewController.requestReview` (line 1066). On the fallback-dialog
path the date is written only by the "OK" button (lines 1115 and 1175).
"No, Thanks", "Remind Me Later" and an ignored dialog leave the review date
as it was: absent if no review was ever recorded, otherwise the date of
the earlier review. `Scenarios.NativeGrantThenDeniedByLastReview` and
`Scenarios.FallbackGrantRecordsNothing` state the two behaviours.

A date check with threshold 0 does not always pass: when the stored date
lies in the future, the elapsed days are negative (line 501) and the
comparison with 0 fails (lines 508, 555, 688 and 734). The model keeps this
comparison.

## Model

| member | source | states |
|---|---|---|
| Store.KeyOfName | AppReviewProctor/Classes/AppReviewProctor.swift:247-255 | a recognised suffix is the one its key is stored under |
| Store.KeyNameRoundTrip | AppReviewProctor/Classes/AppReviewProctor.swift:247-255 | each of the sixteen suffixes is recognised as its own key, so no two keys share a suffix |
| Store.KeyOfNamespaced | AppReviewProctor/Classes/AppReviewProctor.swift:39 | a full key recognised under a bundle prefix is that prefix followed by the key's suffix |
| Store.NamespacedKeyRoundTrip | AppReviewProctor/Classes/AppReviewProctor.swift:39 | under one bundle identifier the full keys of distinct suffixes never collide |
| Store.KeyName | AppReviewProctor/Classes/AppReviewProctor.swift:247-255 | each of the sixteen suffixes the values are stored under starts with "ARP" |
| Store.NamespacedKey | AppReviewProctor/Classes/AppReviewProctor.swift:247 | a full preference key is the bundle identifier followed by exactly the key's suffix |
| Store.IntAt | AppReviewProctor/Classes/AppReviewProctor.swift:247 | `as? Int`: present exactly when an integer is stored under the key, and then that integer |
| Store.DateAt | AppReviewProctor/Classes/AppReviewProctor.swift:296 | `as? Date`: present exactly when a date is stored under the key, and then that date |
| Store.StringAt | AppReviewProctor/Classes/AppReviewProctor.swift:927 | `as? String`: present exactly when a string is stored under the key, and then that string |
| Store.Count | AppReviewProctor/Classes/AppReviewProctor.swift:244-251 | a counter is the stored integer, and 0 when the key is absent or holds another kind of value |
| Config.DefaultThreshold | AppReviewProctor/Classes/AppReviewProctor.swift:61-65 | every default threshold is positive: 30 events, 10 uses, 10 days since install, 30 days since review, 1 reminder day |
| Config.Threshold | AppReviewProctor/Classes/AppReviewProctor.swift:61-65 | the stored integer if one is there; otherwise (absent, or not an integer) the compiled-in default |
| Config.SetThreshold | AppReviewProctor/Classes/AppReviewProctor.swift:388-475 | `nil` leaves the store unchanged; `v` stores exactly `v` under its own key and changes no other key |
| Config.SetString | AppReviewProctor/Classes/AppReviewProctor.swift:827-917 | `nil` leaves the store unchanged; a string is stored under its own key and no other key changes |
| Config.GetAppTitle | AppReviewProctor/Classes/AppReviewProctor.swift:922-939 | the stored title, or the bundle name when none is stored or the stored value is not a string |
| Config.GetReviewText | AppReviewProctor/Classes/AppReviewProctor.swift:953-970 | the stored text, or the compiled-in request text when none is stored or the stored value is not a string |
| Config.GetAppID | AppReviewProctor/Classes/AppReviewProctor.swift:974-991 | present exactly when a string is stored under the id key, and then that string |
| Config.GetAffiliateCode | AppReviewProctor/Classes/AppReviewProctor.swift:995-1012 | the stored code, or the empty default when none is stored or the stored value is not a string |
| Config.GetAffiliateCampaignCode | AppReviewProctor/Classes/AppReviewProctor.swift:1016-1033 | the stored campaign code, or the empty default when none is stored or the stored value is not a string |
| Config.SetThresholdThenLookup | AppReviewProctor/Classes/AppReviewProctor.swift:388-475 | after setting `v` the lookup gives `v`; `nil` changes no lookup; other thresholds' lookups are unchanged |
| Config.UnsetThresholdsAreDefaults | AppReviewProctor/Classes/AppReviewProctor.swift:61-65 | with no threshold stored the lookups are 30 events, 10 uses, 10 days since install, 30 days since review and 1 reminder day |
| Config.SetStringThenGet | AppReviewProctor/Classes/AppReviewProctor.swift:827-1033 | each string getter returns what its setter last stored; a `nil` set leaves the getter's result unchanged |
| Checks.ElapsedDays | AppReviewProctor/Classes/AppReviewProctor.swift:500-501 | the floor of the elapsed seconds over 86400: `d*86400 <= now - t < (d+1)*86400` |
| Checks.DaysAtLeast | AppReviewProctor/Classes/AppReviewProctor.swift:500-508 | at least n whole days have passed exactly when at least n*86400 seconds have passed |
| Checks.CheckRefusalDate | AppReviewProctor/Classes/AppReviewProctor.swift:487-520 | passes iff no refusal date is stored or at least 91*86400 seconds have passed since it |
| Checks.CheckReminderDate | AppReviewProctor/Classes/AppReviewProctor.swift:526-567 | passes iff no reminder date is stored or the reminder threshold in days has passed since it |
| Checks.CheckDaysSinceLastReview | AppReviewProctor/Classes/AppReviewProctor.swift:705-746 | passes iff no review date is stored or the last-review threshold in days has passed since it |
| Checks.CheckDaysSinceInstall | AppReviewProctor/Classes/AppReviewProctor.swift:659-700 | passes iff an install date is stored and the install threshold in days has passed since it |
| Checks.CheckUses | AppReviewProctor/Classes/AppReviewProctor.swift:615-654 | passes iff the stored use count is at least the uses threshold; with no integer stored, iff the threshold is at most 0 |
| Checks.CheckSignificantEvents | AppReviewProctor/Classes/AppReviewProctor.swift:572-611 | passes iff the stored event count is at least the events threshold; with no integer stored, iff the threshold is at most 0 |
| Checks.Passes | AppReviewProctor/Classes/AppReviewProctor.swift:127-141 | check number k is the k-th check the request chain evaluates: refusal, reminder, last review, install, uses, events, app info |
| Checks.CheckAppInfo | AppReviewProctor/Classes/AppReviewProctor.swift:756-781 | passes iff the native review surface exists or an app store id is stored |
| Checks.FirstFailureFrom | AppReviewProctor/Classes/AppReviewProctor.swift:127-141 | the first failing check among checks k to 7, or 0 exactly when all of them pass |
| Checks.FailedCheck | AppReviewProctor/Classes/AppReviewProctor.swift:127-141 | the reason code lies in 0..7; it is 0 iff all seven checks pass; otherwise check r fails and all earlier checks pass |
| Checks.ReasonCodeIsFirstFailure | AppReviewProctor/Classes/AppReviewProctor.swift:127-141 | for k in 1..7, the reason code is k iff checks 1..k-1 pass and check k fails |
| Checks.RefusalIgnoresThresholds | AppReviewProctor/Classes/AppReviewProctor.swift:487-520 | setting any threshold never changes the outcome of the refusal check: its 91 days are fixed |
| Checks.AbsentDates | AppReviewProctor/Classes/AppReviewProctor.swift:494-498 | an absent refusal, reminder or review date passes its check; an absent install date fails its check (see also lines 534-538, 667-671 and 713-717) |
| Recorder.Incremented | AppReviewProctor/Classes/AppReviewProctor.swift:242-286 | the counter becomes its old value (absent counts as 0) plus one; no other key changes |
| Recorder.Dated | AppReviewProctor/Classes/AppReviewProctor.swift:323-377 | the date key holds `now`; no other key changes |
| Recorder.InstallDated | AppReviewProctor/Classes/AppReviewProctor.swift:292-318 | an existing install date is kept and nothing changes; otherwise the install date becomes `now` and nothing else changes |
| Recorder.AppIDSet | AppReviewProctor/Classes/AppReviewProctor.swift:863-881 | `nil` does nothing; otherwise the id is stored and the install date is kept, or becomes `now` if absent; only those two keys change |
| Recorder.Cleared | AppReviewProctor/Classes/AppReviewProctor.swift:792-802 | both counters become 0, the refusal and reminder dates are removed, and every other key is unchanged |
| Recorder.Responded | AppReviewProctor/Classes/AppReviewProctor.swift:1141-1180 | "No, Thanks" sets only the refusal date; "Remind Me Later" sets only the reminder date; "OK" zeroes both counters, removes refusal and reminder, sets the review date, and changes nothing else |
| Recorder.Prompted | AppReviewProctor/Classes/AppReviewProctor.swift:1052-1068 | the native path sets only the review date to `now`; the fallback dialog changes nothing until a button is tapped |
| Recorder.ProctoredReviewed | AppReviewProctor/Classes/AppReviewProctor.swift:143-198 | a denied request changes nothing; a granted request on the native path sets only the review date; the fallback path changes nothing |
| Recorder.DirectReviewed | AppReviewProctor/Classes/AppReviewProctor.swift:87-104 | with no app id stored nothing changes; with one only the review date changes, to `now` |
| Recorder.StepCount | AppReviewProctor/Classes/AppReviewProctor.swift:242-286 | any call except "OK" raises a counter by one if it is that counter's `add` call and otherwise leaves it unchanged |
| Recorder.CountAfterCalls | AppReviewProctor/Classes/AppReviewProctor.swift:242-286 | after any calls without an "OK" tap, a counter is its old value plus the number of its `add` calls (counters never decrease) |
| Recorder.StepKeepsInstall | AppReviewProctor/Classes/AppReviewProctor.swift:292-318 | no call changes a stored install date |
| Recorder.InstallDateSetOnce | AppReviewProctor/Classes/AppReviewProctor.swift:863-881 | after any sequence of calls a stored install date is unchanged |
| Recorder.StepWellTyped | AppReviewProctor/Classes/AppReviewProctor.swift:242-475 | every call writes each key only with the kind of value the proctor uses for it (counters non-negative) |
| Recorder.RunWellTyped | AppReviewProctor/Classes/AppReviewProctor.swift:242-917 | every sequence of calls keeps the store well typed |
| Recorder.StepDates | AppReviewProctor/Classes/AppReviewProctor.swift:323-377 | after a call each date is unchanged or equals the call's time, except that "OK" removes refusal and reminder together |
| Proctor.AppReviewProctor.AddSignificantEvent | AppReviewProctor/Classes/AppReviewProctor.swift:242-262 | the store becomes `Incremented(old, Events)`: one more event, no other key changed |
| Proctor.AppReviewProctor.AddUse | AppReviewProctor/Classes/AppReviewProctor.swift:266-286 | the store becomes `Incremented(old, Uses)`: one more use, no other key changed |
| Proctor.AppReviewProctor.AddInstallDate | AppReviewProctor/Classes/AppReviewProctor.swift:292-318 | the store becomes `InstallDated(old, now)` |
| Proctor.AppReviewProctor.AddReviewDate | AppReviewProctor/Classes/AppReviewProctor.swift:323-338 | the store becomes `Dated(old, Review, now)` |
| Proctor.AppReviewProctor.AddRefusalDate | AppReviewProctor/Classes/AppReviewProctor.swift:342-357 | the store becomes `Dated(old, Refusal, now)` |
| Proctor.AppReviewProctor.AddReminderDate | AppReviewProctor/Classes/AppReviewProctor.swift:362-377 | the store becomes `Dated(old, Reminder, now)` |
| Proctor.AppReviewProctor.SetSignificantEventsThreshold | AppReviewProctor/Classes/AppReviewProctor.swift:388-400 | the store becomes `SetThreshold(old, EventsThreshold, threshold)` |
| Proctor.AppReviewProctor.SetUsesThreshold | AppReviewProctor/Classes/AppReviewProctor.swift:406-418 | the store becomes `SetThreshold(old, UsesThreshold, threshold)` |
| Proctor.AppReviewProctor.SetDaysSinceInstallThreshold | AppReviewProctor/Classes/AppReviewProctor.swift:425-437 | the store becomes `SetThreshold(old, InstallThreshold, threshold)` |
| Proctor.AppReviewProctor.SetDaysSinceLastReviewThreshold | AppReviewProctor/Classes/AppReviewProctor.swift:444-456 | the store becomes `SetThreshold(old, ReviewThreshold, threshold)` |
| Proctor.AppReviewProctor.SetReminderThreshold | AppReviewProctor/Classes/AppReviewProctor.swift:463-475 | the store becomes `SetThreshold(old, ReminderThreshold, threshold)` |
| Proctor.AppReviewProctor.SetAppTitle | AppReviewProctor/Classes/AppReviewProctor.swift:827-839 | the store becomes `SetString(old, Title, title)` |
| Proctor.AppReviewProctor.SetReviewText | AppReviewProctor/Classes/AppReviewProctor.swift:845-857 | the store becomes `SetString(old, Text, text)` |
| Proctor.AppReviewProctor.SetAppID | AppReviewProctor/Classes/AppReviewProctor.swift:863-881 | the store becomes `AppIDSet(old, id, now)`: the id is stored, and the install date only if none exists |
| Proctor.AppReviewProctor.SetAffiliateCode | AppReviewProctor/Classes/AppReviewProctor.swift:887-899 | the store becomes `SetString(old, AffiliateCode, code)` |
| Proctor.AppReviewProctor.SetAffiliateCampaignCode | AppReviewProctor/Classes/AppReviewProctor.swift:905-917 | the store becomes `SetString(old, AffiliateCampaignCode, code)` |
| Proctor.AppReviewProctor.ClearProctorConditions | AppReviewProctor/Classes/AppReviewProctor.swift:792-802 | the store becomes `Cleared(old)` |
| Proctor.AppReviewProctor.DisplayPrompt | AppReviewProctor/Classes/AppReviewProctor.swift:1047-1186 | the store becomes `Prompted(old, now, nativeReviewAvailable)` |
| Proctor.AppReviewProctor.NoThanksTapped | AppReviewProctor/Classes/AppReviewProctor.swift:1141-1151 | the store becomes `Responded(old, NoThanks, now)` |
| Proctor.AppReviewProctor.RemindMeLaterTapped | AppReviewProctor/Classes/AppReviewProctor.swift:1153-1163 | the store becomes `Responded(old, RemindMeLater, now)` |
| Proctor.AppReviewProctor.OkTapped | AppReviewProctor/Classes/AppReviewProctor.swift:1165-1180 | the store becomes `Responded(old, OK, now)` |
| Proctor.AppReviewProctor.ProctoredReview | AppReviewProctor/Classes/AppReviewProctor.swift:116-200 | the if/else-if chain returns `FailedCheck` of the old store; granted iff that code is 0; the store becomes `ProctoredReviewed(old, ...)` |
| Proctor.AppReviewProctor.RequestDirectReview | AppReviewProctor/Classes/AppReviewProctor.swift:87-104 | the store becomes `DirectReviewed(old, now)` |
| Scenarios.NativeGrantThenDeniedByLastReview | AppReviewProctor/Classes/AppReviewProctor.swift:1052-1068 | after a granted native-path request, a request at the same moment is denied with code 3 when the review threshold is positive |
| Scenarios.FallbackGrantRecordsNothing | AppReviewProctor/Classes/AppReviewProctor.swift:1126-1184 | a granted fallback-path request leaves the store unchanged, so an immediate second request is also granted |
| Scenarios.RefusalCooldown | AppReviewProctor/Classes/AppReviewProctor.swift:487-520 | after "No, Thanks", every request less than 91 days later gets code 1; from 91 days on, the refusal check passes |
| Scenarios.ReminderCooldown | AppReviewProctor/Classes/AppReviewProctor.swift:526-567 | after "Remind Me Later", a request gets code 2 until the reminder threshold has passed (if the refusal check passes); after that the reminder check passes |
| Scenarios.NoInstallDateDenied | AppReviewProctor/Classes/AppReviewProctor.swift:659-671 | with no dates stored, every request gets code 4, whatever the thresholds and counters are |
| Scenarios.ZeroThresholdsGranted | AppReviewProctor/Classes/AppReviewProctor.swift:127-141 | with all thresholds 0, install one day back, no other dates, and check 7 passing, the request is granted |
| Scenarios.UsesThresholdBoundary | AppReviewProctor/Classes/AppReviewProctor.swift:615-654 | with the other six checks passing, one use short of the threshold gives code 5 and reaching it gives 0 |
| Scenarios.AcceptKeepsConfiguration | AppReviewProctor/Classes/AppReviewProctor.swift:1165-1180 | "OK" leaves the install date, every threshold and every string unchanged |
| Scenarios.CounterGrowthBounded | AppReviewProctor/Classes/AppReviewProctor.swift:242-286 | over any run of calls without an "OK" tap a counter never decreases and grows by at most the number of calls |
| Scenarios.UsesFromFreshStore | AppReviewProctor/Classes/AppReviewProctor.swift:266-286 | N calls of `addUse` on an empty store leave a use count of N (none stored when N is 0) |

## Left out

- Presentation: `SKStoreReviewController.requestReview`, building and
  presenting the `UIAlertController`, localisation (`ARPlocalized`), and
  the store-page URL opened by `directReview` (lines 206-232). These are
  foreign UI calls with no state effect; the model keeps only the state
  effects of the three buttons.
- Whether a dialog is actually on screen: button taps are calls the model
  accepts at any time. Only the fallback path shows the dialog.
- The native surface's own rate limiting. On the native path the review
  date is recorded whether or not the system actually shows the review.
- `requestProctoredReview` dispatching to the main queue (line 76), and the
  completion handler. `ProctoredReview` returns the handler's arguments:
  the granted flag, and the reason code instead of the `NSError` and its
  description text (lines 158-196).
- Debug output: `NSLog`, `DateFormatter`, `setDebugMode` and the `Debug`
  flag. These are logging only.
- `getAppVersion` and the bundle-derived defaults (lines 39-45). The bundle
  identifier appears only as the key prefix in `Store.NamespacedKey`.
- `#if swift(>=3.1)`: the model assumes it holds. It also assumes the
  check at line 758 and the branch at line 1052 see the same OS-version
  result; both are the one capability flag.
- Time: `Date` is floating-point seconds and each check reads the clock
  separately. The model uses whole seconds and one `now` per request.
- Proctor.AppReviewProctor.AddUse: does not model Swift's trap when the counter overflows at `Int.max`, because integers are unbounded here.
- Proctor.AppReviewProctor.AddSignificantEvent: does not model the overflow trap at `Int.max`, for the same reason.
- Two processes sharing the store (the read-modify-write is not atomic) are
  not modelled; calls happen one at a time.
- The example app's view controller only calls the public interface.
