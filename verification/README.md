# ConnexHub booking core in Dafny

ConnexHub is a Flask application. Businesses ("clients") create applications.
Each application comes with a public booking form. Submissions become call
requests. A client approves or rejects each request. Approval sends an SMS and,
unless the request is scheduled for later, places an outbound voice call. A
one-minute poller places the scheduled calls when they fall due. A read-only
JSON API hands a client's call data to holders of an API key.

This project models the rules embedded in those handlers. They are pure
functions over immutable records, and store updates are functions from the old
store to the new one:

- `Phone`: the three phone-number normalisations used before calling or texting.
- `Slug`: `slugify`.
- `CallTime`: reading `preferred_call_time` (`datetime.fromisoformat`, then
  `strptime` with `%Y-%m-%d %H:%M`) and the year repair for years below 2000.
- `Extraction`: how `api_submit` finds the submitter's name, phone and preferred
  time in a form schema and a submission, including the cleaning and the display
  defaults.
- `Bookings`: the call-request store and its state machine. It covers
  `approve_booking`, `reject_booking`, `trigger_voice_call` and one tick of
  `check_scheduled_calls`. The telephony provider is an oracle input.
- `Registry`: the application registry (`create_application`,
  `delete_application`, `save_form`), API-key issuance, regeneration and
  revocation, and the scoped `/api/calls` query.
- `Trend`: the zero-filled seven-day submission trend of the analytics pages.
- `Intake`: the two submission endpoints. `api_submit` is modelled from the key
  lookup to the stored record, the response and the number the client alert
  goes to.
  `submit_form` is modelled twice: once as written, and once as evidently
  intended.
- `Text` and `Wrappers`: shared character classes, string helpers, `Option`
  and `Result`.

Clocks, the current year, random tokens, document ids, the AI reply and every
Twilio outcome are parameters. Nothing is read from the environment.

## Model

| member | source | states |
|---|---|---|
| Phone.ForCall | app.py:218-219 | The result starts with `+`. Its digits are the input's digits, with `91` in front exactly when there are ten of them. A ten-digit input, or one not starting with `+`, becomes `+` followed by digits only. A `+`-prefixed input with another digit count is returned unchanged. |
| Phone.ForStatusSms | app.py:2274-2282 | As `ForCall`, plus the extra rule: twelve digits starting with `91` also become `+` followed by those digits. The raw input is passed through only when it starts with `+` and its digits are neither ten nor `91` plus ten. |
| Phone.ForCallIdempotent | app.py:218-219 | Normalising an already normalised call number changes nothing. |
| Phone.ForStatusSmsIdempotent | app.py:2274-2282 | Normalising an already normalised SMS number changes nothing. |
| Phone.VariantsDifferExactly | app.py:2274-2282 | The SMS variant and the call variant disagree exactly on a `+`-prefixed input with twelve digits starting `91` that is not already `+` followed by those digits. |
| Phone.StatusSmsTarget | app.py:2269-2282 | A status SMS is sent exactly when the booking's phone is present and non-empty. It goes to the SMS normalisation of that phone, a `+` number carrying the normalised digits. |
| Phone.ClientAlertTarget | app.py:2320-2333 | The client alert goes to the `phone` field, or to `number` when `phone` is missing or empty. There is no alert when neither is set. The chosen value is normalised by the call variant. |
| Slug.Slugify | app.py:1671-1672 | The slug is the runs of letters and digits of the lower-cased input, joined by single dashes (`Words` and `JoinDash`, defined independently of the regex rewriting). It has only lower-case letters, digits and `-`. It has no `--`, no upper-case letter, no `_`, and no leading or trailing `-`. It keeps exactly the letters and digits of the lower-cased input, in order. It is empty exactly when the input has no letter or digit. |
| Slug.TrimCollapseWords | app.py:1671-1672 | Collapsing every run of non-alphanumerics to one dash and then stripping the outer dashes gives the alphanumeric runs joined by single dashes. |
| Slug.SlugShape | app.py:1671-1672 | The stripped, collapsed, lower-cased text is a slug with no `--`, and keeps the input's letters and digits. |
| Slug.SlugifyIdempotent | app.py:1671-1672 | Slugifying a slug gives it back. |
| Slug.TrimKeepsAlnum | app.py:1672 | `strip('-')` removes no letter or digit. |
| CallTime.BeforeIsStrictTotalOrder | app.py:2380 | The lexicographic order on date-times is irreflexive and transitive. Any two distinct date-times are comparable. |
| CallTime.ParseIso | app.py:2502 | A time accepted in ISO form is a real calendar date and clock time. Its year, month and day are the four-digit and two-digit numbers at the ISO positions of the text. |
| CallTime.ParseFormat | app.py:2506 | A time accepted by the `strptime` format is a real calendar date and clock time, with zero seconds. `ParseFormatRoundTrip` shows every such time is accepted in its padded form. |
| CallTime.ParseIsoRoundTrip | app.py:2502 | The `isoformat` text of a valid time reads back as that time. |
| CallTime.ParseIsoLocalRoundTrip | app.py:2502 | A `datetime-local` value (`YYYY-MM-DDTHH:MM`) of a valid time with zero seconds reads back as that time. |
| CallTime.ParseFormatRoundTrip | app.py:2506 | A time written as `YYYY-MM-DD HH:MM` (or with `T`, for the `submit_form` format) reads back through the `strptime` format as that time. |
| CallTime.ParseCallTime | app.py:2497-2508 | A missing or empty value gives no call time. An ISO value gives its ISO reading. Any other non-empty value gives its reading by the `%Y-%m-%d %H:%M` format, or none. Any time produced is valid. |
| CallTime.UnpaddedExample | app.py:2502-2506 | `2026-5-1 9:05` is refused by the ISO reader and accepted by the fallback format. |
| CallTime.FixYear | app.py:2510-2518 | A year from 2000 on is kept as is. Year 26 becomes 2026, and any other year below 2000 becomes the current year. Every other field is preserved. The repair fails (500) exactly on 29 February moved into a common year. With a current year from 2000 on, the result's year is at least 2000. |
| CallTime.FixYearIdempotent | app.py:2510-2518 | A repaired time needs no further repair. |
| CallTime.TwoDigitYearExample | app.py:2497-2518 | The form's malformed `0026-05-01T10:00` is read as year 26 and repaired to 2026. |
| Extraction.Detect | app.py:2446-2463 | The field chosen for a concept is the LAST schema field whose label or name mentions it. There is none exactly when no field mentions it. |
| Extraction.OverwriteIsLastHit | app.py:2446-2463 | A loop that overwrites its variable on every match ends with the last match, or with its initial value when nothing matches. |
| Extraction.ByField | app.py:2469-2488 | The value under the detected field's label wins when the label is a submitted key. Otherwise the value under its field name is used. |
| Extraction.FirstPresent | app.py:2491-2495 | The fallback takes the value of the first key in list order that is present, even an empty one. It gives nothing exactly when no key is present. |
| Extraction.WithFallback | app.py:2491-2495 | The fallback list is consulted only when the schema-selected value is missing or empty. |
| Extraction.FirstKeyContaining | app.py:2529-2532 | The inner loop takes the first submitted key whose lower-cased form contains the fallback key. |
| Extraction.TimeFallback | app.py:2527-2532 | The time fallback keeps the hit of the LAST fallback key that finds one, because `break` leaves only the inner loop. Without any hit the value is unchanged. |
| Extraction.PreferredTime | app.py:2484-2488 | The schema's time value is used when it is non-empty. Otherwise the fallback scan decides. |
| Extraction.OverwriteSameHits | app.py:2446-2463 | Two sequences whose items hit alike, position by position, end an overwriting loop with the same value. |
| Extraction.UserName | app.py:2469-2495 | The name is the value found through the detected name field when that is truthy. Otherwise the first present fallback key decides. When no fallback key is present either, the field lookup's falsy result stands, so the display default follows. A truthy name is always one of the submitted values. |
| Extraction.RawPhone | app.py:2469-2525 | The raw phone is the value found through the detected phone field when that is truthy. Otherwise the first present fallback key decides. When no fallback key is present either, the field lookup's falsy result stands, so the display default follows. A truthy phone is always one of the submitted values. |
| Extraction.Unpunctuated | app.py:2537 | The text holds exactly the characters of the input other than space, `-`, `(` and `)`, each as often as in the input, and in the input's order (`UnpunctuatedSnoc`). |
| Extraction.UnpunctuatedSnoc | app.py:2537 | Removing the punctuation from a text extended by one character extends the result by that character, unless it is punctuation. |
| Extraction.CleanPhone | app.py:2534-2542 | A phone is kept exactly when the input is non-empty and its stripped, unpunctuated text has at least ten characters and a digit. The kept phone is that text, so it has no space, `-`, `(` or `)`, and every character it has occurs in the input. |
| Extraction.Extract | app.py:2544-2546 | The name is the extracted one when non-empty, else `Unknown User`. The phone is the cleaned raw phone when cleaning keeps it, else `No Phone Provided`. A kept phone has at least ten characters, a digit and no punctuation. The time is the preferred-time text. |
| Bookings.MarkPlaced | app.py:238-245 | Marking a placed call sets `call_initiated`, the SID and the initiation time, and changes no other field of the record. |
| Bookings.TriggerCall | app.py:238-269 | A placed call marks that one record initiated, with its SID and time. A failed attempt stores nothing. No other record changes. |
| Bookings.Approve | app.py:2349-2386 | The status becomes APPROVED. A call is attempted exactly when Twilio is configured and the booking has a phone and no call time in the future, and it dials the normalised phone. With Twilio configured the SMS goes to the status-SMS number; without it no SMS is sent (app.py:2269-2271) and no call is dialled (app.py:212-214). A failed or skipped attempt leaves only the status change. No other record changes. |
| Bookings.Reject | app.py:2390-2413 | The status becomes REJECTED. With Twilio configured the SMS goes to the status-SMS number, and without it none is sent. No call is made, and no other record changes. |
| Bookings.Fire | app.py:311-313 | A due record whose call is placed is marked initiated. One whose call fails only gets `Failed to trigger scheduled call` as its error. |
| Bookings.Tick | app.py:291-313 | One poller tick: each record that is APPROVED, has a call time at or before now and is not initiated gets one attempt. Every other record is untouched. Status and call time never change. |
| Bookings.RunScheduledCalls | app.py:303-313 | The record-by-record loop computes the same store as the whole-store tick, in any order. |
| Bookings.DueIds | app.py:297-301 | A record is selected exactly when it is APPROVED, has a call time at or before now, and is not initiated. Only stored records are selected. |
| Bookings.DueStaysDue | app.py:297-301 | A record selected at one instant is selected at every later instant, as long as nothing changes it. |
| Bookings.RerunSelectsOnlyFailures | app.py:297-313 | Re-running the poller at the same instant selects exactly the records whose call failed. A placed call is never placed twice. |
| Bookings.TickIdempotentWhenAllPlaced | app.py:297-313 | When every attempt succeeds, a second tick at the same instant changes nothing. |
| Bookings.ApprovedForLaterIsPolledLater | app.py:2380-2381 | A booking approved before its call time gets no immediate call. The first tick at or after that time selects it. |
| Bookings.UnscheduledFailureIsNotRetried | app.py:2383-2384 | A booking without a call time whose immediate call fails is never selected by the poller. |
| Bookings.RejectedIsNeverPolled | app.py:2402-2405 | A rejected booking is never selected by the poller. |
| Registry.Filter | app.py:2148-2164 | `delete_many` keeps exactly the documents that do not match, each as often as before. `FilterAppend` fixes the order. |
| Registry.FilterAppend | app.py:2148-2164 | Filtering a concatenation filters each part and keeps them in order. |
| Registry.RemoveAt | app.py:2143-2146 | Removing one document drops exactly one copy of it. Everything before it and after it keeps its place. |
| Registry.DropForms | app.py:2149-2152 | Exactly the forms of the pair are removed, and every other form keeps its multiplicity. |
| Registry.DropCalls | app.py:2155-2158 | Exactly the call requests of the pair are removed, and every other call request is unchanged. |
| Registry.DropSettings | app.py:2161-2164 | Exactly the LLM-settings documents of the pair are removed, and every other one keeps its multiplicity. |
| Registry.RemovedUniqueIsGone | app.py:2143-2146 | With unique pairs, removing the pair's one application leaves no application of that pair. |
| Registry.RemovedKeepsOthers | app.py:2143-2146 | Removing an application of another pair changes nothing about whether a pair exists. |
| Registry.CreateApplication | app.py:1682-1715 | A missing or empty name and an existing (client, name) pair are refused with their error texts. Otherwise exactly one application, with its slug, and one form are appended. The form has the default schema and the fresh key. Nothing else changes. |
| Registry.CreateKeepsAppsUnique | app.py:1685-1696 | Creating an application never gives a client two applications of the same name. |
| Registry.CreatedFormAnswersToItsKey | app.py:1707-1715 | With a key no other form holds, submissions to that key reach the new form. |
| Registry.FirstApp | app.py:2143-2146 | `delete_one` picks the first application of the pair, and there is one exactly when the pair exists. |
| Registry.DeleteApplication | app.py:2137-2164 | The first application of the pair is removed, and the others keep their places. Without one, the applications are unchanged. Every form, call request and LLM-settings document of the pair is removed. Every other one is kept, each as often as before. The API keys are untouched. |
| Registry.DeleteRemovesExactlyOne | app.py:2143-2146 | With unique pairs, the deleted pair is gone afterwards, and every other pair exists afterwards exactly when it existed before. |
| Registry.DuplicateSurvivesDelete | app.py:2143-2146 | When a pair is stored twice, one application survives the delete. |
| Registry.FirstForm | app.py:1886-1889 | `find_one` picks the first form of the pair. There is none exactly when no form matches. |
| Registry.SaveForm | app.py:1886-1909 | An existing form gets the new schema and keeps everything else. Without one, a form with the fresh key is appended. |
| Registry.SaveFormKeepsKey | app.py:1891-1895 | Saving never changes an existing form's key. The first save of a pair issues the fresh key. |
| Registry.SaveTwiceKeepsKey | app.py:1891-1895 | A second save leaves the key the first save left, whatever token it draws. |
| Registry.FormByKey | app.py:2420-2423 | The form found carries the key. None is found exactly when no form holds it. |
| Registry.NewApiKey | app.py:915-928 | An issued key is `sk_` plus the token and is active. Its scope is SINGLE_APP exactly when that was asked for together with an application name, and the name is then stored. Every other request gets ALL_APPS without a name. |
| Registry.IssueApiKey | app.py:915-930 | Issuing appends exactly the new key. |
| Registry.DisplayScope | app.py:948-950 | A key stored without a scope is listed as LEGACY. Any other key shows its stored scope. |
| Registry.IssuedKeyIsNotLegacy | app.py:925-928 | A key issued here always shows ALL_APPS or SINGLE_APP. |
| Registry.RegenerateKey | app.py:963-978 | Only the key with that id changes: its token becomes `sk_` plus the new token. Its scope, status and client stay. The reset `created_at` is not a modelled field. |
| Registry.RevokeKey | app.py:980-987 | Exactly the keys with that id are removed. |
| Registry.KeyRecord | app.py:998 | The record found holds the header's key. None is found exactly when no record holds it. |
| Registry.ApiCalls | app.py:990-1024 | A missing or empty header, or an unknown key, is refused with 401 and its text. Otherwise the answer names the key's client. It holds exactly that client's call requests, and only those of the key's application when the scope is SINGLE_APP with a name. An absent scope reads as ALL_APPS. |
| Registry.IssuedKeyReadsItsScope | app.py:925-928 | A fresh key reads its client's calls. They are restricted to one application exactly when SINGLE_APP with a name was requested. |
| Registry.LegacyKeyReadsAllApps | app.py:1003-1011 | A key stored without a scope reads every application of its client. |
| Registry.RevokedKeyIsRefused | app.py:985-1000 | After revocation the token is refused, when no other key held it. |
| Registry.RegeneratedKeyRefusesOldToken | app.py:966-1000 | After regeneration the old token is refused, when no other key held it. |
| Trend.PrevDay | app.py:871 | The previous calendar day comes strictly before the day, and is valid when the day is. `PrevNextInverse` and `PrevDayImmediate` pin it down as the immediate predecessor. |
| Trend.NextDay | app.py:871 | The next calendar day comes strictly after the day, and is valid when the day is. It is the independent reference for `PrevDay`. |
| Trend.PrevNextInverse | app.py:871 | For a valid day, one day back and one day forward, in either order, gives the day back. |
| Trend.PrevDayImmediate | app.py:871 | No valid day lies strictly between the previous day and the day. |
| Trend.CountForGroup | app.py:860-873 | Grouping by day and then looking a day up gives the number of submissions made on that day. |
| Trend.WindowKeepsLaterDays | app.py:854-859 | The seven-day window drops no submission made after the window's first day. |
| Trend.Labels | app.py:868-872 | Seven consecutive days, oldest first, ending today. |
| Trend.SevenDayTrend | app.py:853-874 | The labels are the last seven days. Each value is the number of submissions made on that day, and 0 when there are none. |
| Intake.RepairCallTime | app.py:2510-2518 | Without a parsed time there is nothing to repair. Otherwise the result is the repaired time, or a 500 when the repair raises. |
| Intake.AiReply | app.py:2570-2584 | The stored reply is the model's answer when there is one. Otherwise it is one of two fixed acknowledgements, both starting `Form received successfully`; the plain one exactly when the completion service is not configured. |
| Intake.SubmittedCallTime | app.py:2497-2508 | The call time read from `preferred_call_time` is a valid date-time, and there is none when the key was not submitted. |
| Intake.SubmittedCallTimeReadsBack | app.py:2497-2508 | A submitted `isoformat` text, or a `datetime-local` value to the minute, reads back as the time it was written from. |
| Intake.ApiSubmit | app.py:2417-2608 | An unknown key gets 403. The submission succeeds exactly when the form is found and the year repair does not raise, and fails with 500 otherwise. On success exactly one PENDING, not-yet-called record is inserted under the new id, and nothing else changes. It holds the form's client and application, the extracted name, phone and time, and the submitted call time after the year repair. The call time is present exactly when one was submitted and readable, and has a year of at least 2000. The query is the first 100 characters of the AI reply. The receipt carries the reply, the id, the name, the phone and `call_initiated` false. The client is alerted exactly when its document was found with a non-empty `phone` or `number`, at the alert number those fields give. |
| Intake.PlaceholderPhoneIsDialled | app.py:2546 | A submission without a usable phone stores the truthy placeholder. Approving it with no call time dials the normalised placeholder whenever Twilio is configured. |
| Intake.ScheduledSubmissionIsPolled | app.py:2599 | A submitted call time is not due before approval. Approved early, the booking gets no immediate call, and the poller selects it at its time. |
| Intake.IndexOf | app.py:2189-2209 | A dictionary lookup finds the position holding the key, or reports that no position holds it. |
| Intake.Set | app.py:2177-2209 | An assignment keeps the dictionary's size exactly when the key exists. It keeps every key in place, and the key then reads the new value. |
| Intake.GetSetOther | app.py:2177-2209 | An assignment leaves every other key's value alone. |
| Intake.Fill | app.py:2192-2200 | One of the three fill rules: the field is filled with the value exactly when it is missing or falsy and the key mentions it. Every other key, and every other field's value, is unchanged. With all four loop keys present the size is kept. |
| Intake.FillOne | app.py:2190-2200 | The three fill rules of one step: each of `name`, `phone` and `time` gets the value exactly when it is missing or falsy and the key mentions it, and is otherwise unchanged. `call_time` and `status` are untouched. |
| Intake.Visit | app.py:2189-2207 | One loop step: the fill rules as in `FillOne`. A `preferred_call_time` item whose value parses stores exactly that time under `call_time` and as the loop's call time. Any other item leaves both unchanged. The status is untouched, and no key other than the four loop keys changes. |
| Intake.SetOtherKeys | app.py:2177-2206 | Assigning one key leaves the values of `name`, `phone`, `time`, `call_time` and `status` alone when they are other keys. |
| Intake.Walk | app.py:2189-2207 | Iterating a live dictionary fails with "dictionary changed size during iteration" once its size differs from the size it started with. A completed walk keeps that size. |
| Intake.WalkKeeps | app.py:2189-2207 | A property that every size-preserving step keeps holds at the end of a completed walk. |
| Intake.WalkSucceeds | app.py:2189-2207 | When every step keeps the size (under an invariant the steps keep), the walk completes. |
| Intake.WalkFails | app.py:2189-2207 | When a step that the earlier steps reach changes the size, the walk fails. |
| Intake.Scan | app.py:2189-2207 | The `for k, v in data.items()` loop: a failure is the 500 "dictionary changed size during iteration", and a completed scan keeps the dictionary's size. |
| Intake.ScanKeeps | app.py:2189-2207 | A completed scan keeps every key in place and the status unchanged. When it ends with a parsed time, `call_time` holds that time. |
| Intake.ScanSucceeds | app.py:2189-2207 | With `name`, `phone`, `time` and `call_time` all present, the scan never changes the size and so completes. |
| Intake.ScanCallTime | app.py:2202-2206 | A completed scan ends with the call time of the last item whose value parses, or the initial one when none parses. |
| Intake.ScanKeepsCallTime | app.py:2202-2206 | When no remaining item parses, a completed scan leaves `call_time` as it was. |
| Intake.ScanKeepsPresent | app.py:2192-2200 | A completed scan never overwrites a truthy `name`, `phone` or `time`. |
| Intake.ScanFailsWithoutName | app.py:2190-2193 | When no key is exactly `name` and an `app_name` item is still ahead, the scan fails. |
| Intake.VisitAtHits | app.py:2202-2206 | One step consumes one item of the last-parsed-time computation. When no item from here on parses, the step changes neither the call time nor `call_time`. |
| Intake.Prepare | app.py:2170-2181 | The prepared dictionary keeps every posted key in place and adds `app_name`, `client_id`, `status` PENDING and `created_at` now. Every posted key other than those four keeps its posted value, `name`, `phone`, `time` and `call_time` among them. |
| Intake.SetsKeep | app.py:2177-2181 | The four assignments before the loop, each to its own key, leave the value of every other posted key in place. |
| Intake.ParsedValue | app.py:2202-2207 | `strptime(v, "%Y-%m-%dT%H:%M")`: a parsed value is a text, and its time is a valid date-time with zero seconds. A stored date-time or `None` never parses; the `TypeError` is caught. |
| Intake.ParsedValueReadsBack | app.py:2202-2206 | The `datetime-local` text of any valid minute parses back to that minute. |
| Intake.ParsesAt | app.py:2202-2207 | An item carries a call time exactly when its lower-cased key contains `preferred_call_time` and its value is a text that parses. The `and v` test adds nothing, since the empty text never parses. |
| Intake.CallTimeHit | app.py:2202-2207 | An item is a hit of the last-parsed-time computation exactly when it carries a call time, and the hit is the parsed time of its text. |
| Intake.ScanKeepsOthers | app.py:2189-2207 | A completed scan changes the value of no key other than the four loop keys. |
| Intake.GetOthersKept | app.py:2189-2207 | A key other than the loop keys reads the same value after the loop as before it. |
| Intake.PreparedKept | app.py:2170-2220 | After the prepare step and a loop that keeps the other keys, every posted key outside the loop keys and the four assigned keys keeps its posted value, and `app_name`, `client_id` and `created_at` hold the assigned values. |
| Intake.ScanPrepared | app.py:2170-2207 | The scan of the prepared dictionary completes whenever the four loop keys were posted. A completed one keeps the keys and status PENDING, changes no value but those of the loop keys, ends with the last parsed time, stores it under `call_time` (or keeps the posted `call_time` when nothing parsed), and keeps a truthy posted `name`, `phone` or `time`. |
| Intake.SubmitForm | app.py:2168-2220 | `submit_form` as written. A success never follows a raising year repair, and with the four loop keys posted it succeeds exactly then. A stored document has the prepared keys in place and status PENDING. Its `call_time` is the last parsed time, unrepaired, or the posted `call_time` when nothing parsed. A truthy posted `name`, `phone` or `time` is stored unchanged. Every other posted key outside the four assigned keys keeps its posted value, and `app_name`, `client_id` and `created_at` hold the assigned values. Failures are 500. |
| Intake.NoNameFieldFails | app.py:2177-2193 | A posted form with no field called exactly `name` is never stored. The handler raises "dictionary changed size during iteration". |
| Intake.StoredCallTimeIsUnrepaired | app.py:2202-2220 | With the loop keys posted and a last parsed time of year 26, the form is stored, and its call time keeps the raw year 26, although the repair computes 2026. |
| Intake.LastCallTime | app.py:2189-2207 | The call time kept by the scan is that of the last item that parses. |
| Intake.FillFields | app.py:2189-2200 | The fill rules over a snapshot of the items: every key stays in place, and no value but those of the loop keys changes. |
| Intake.FillOneField | app.py:2192-2200 | One fill step leaves field `f` with the value exactly when `f` was missing or falsy and the key mentions `f`. |
| Intake.FillFieldsFills | app.py:2189-2200 | Over the snapshot, a truthy `name`, `phone` or `time` stays. Otherwise the first item whose key mentions the field with a truthy value wins. With no such item the field ends with the value of the last mentioning item, or as it was when no key mentions it. |
| Intake.TruthyShift | app.py:2189-2200 | The truthy candidates of the remaining items are those of all the items, one position on. |
| Intake.FallbackStep | app.py:2192-2200 | The no-truthy-candidate rule for the items follows from one fill step and the rule for the remaining items. |
| Intake.FirstTruthyStep | app.py:2192-2200 | The first-truthy-candidate rule for the items follows from one fill step and the rules for the remaining items. |
| Intake.LoopFilledStep | app.py:2192-2200 | The whole fill rule for the items follows from one fill step and the rule for the remaining items. |
| Intake.PreparedFills | app.py:2189-2200 | Any dictionary agreeing with the filled one on `name`, `phone` and `time` holds the fills of the fill rule, measured from the posted values. |
| Intake.SubmitFormRepaired | app.py:2168-2220 | `submit_form` as evidently intended. It fails exactly when the year repair raises. It keeps every posted key in place, stores status PENDING, and stores the repaired call time, whose year is at least 2000. `name`, `phone` and `time` follow the fill rule: a truthy posted value stays, else the first truthy mentioning item wins, else the last mentioning item. Every other posted key outside the four assigned keys keeps its posted value, and `app_name`, `client_id` and `created_at` hold the assigned values. |
| Intake.RepairedAcceptsNoNameField | app.py:2177-2193 | The corrected handler stores a form without a `name` field. |

## Left out

- Character classes are ASCII. Python's `str.isdigit`, `str.lower`, `\w` and `str.isspace` accept more Unicode characters than modelled.
- CallTime.ParseIso covers the forms `fromisoformat` accepts without fractions or UTC offsets: a date, optionally followed by one separator and `HH`, `HH:MM` or `HH:MM:SS`. Other forms count as not ISO, and fall through to the `strptime` format.
- Time zones are not modelled. The handlers mix IST (`created_at`, approval, poller) with UTC (the trend's `utcnow()`). Every time is a plain date-time parameter.
- Trend.SevenDayTrend takes the creation times already filtered to the client or the application. The `$match` on `client_id`/`app_name` is the caller's list.
- MongoDB, Twilio and OpenAI are not modelled. Call outcomes and the AI reply are oracle inputs, and ids and tokens are parameters.
- The `/call-status` webhook is not modelled, because it only copies Twilio's status into the record.
- The prompt selection in `api_submit` (app.py:2550-2565) is not modelled, because it only feeds the AI oracle.
- SMS bodies and notify texts are not modelled. The status SMS of approval and rejection, and the client alert of `api_submit`, are modelled as whether a message is handed to Twilio and to which number. For the status SMS that is the case only when a Twilio client is configured (the `twilio` parameter). Whether Twilio then accepts a message is not modelled, because a failed send is only logged.
- Intake.ApiSubmit: the stored `data` copy of the raw submission, the full `ai_reply`, `time_str` and the duplicate `createdAt` are not fields of the record, because no modelled handler reads them. The `query` is the reply's first 100 characters, as stored.
- Intake.ApiSubmit: the client lookup of `notify_client_sms` (by e-mail, string id, then ObjectId) is the `owner` parameter, which is `None` when Twilio is not configured or no client matches.
- Bookings.Tick: the number dialled by the poller is not returned. The oracle decides the outcome, and a record without a phone is attempted like any other.
- Bookings.Approve: a booking id is an abstract key. The ObjectId/string fallback lookup and the redirect to an unknown id are not modelled.
- Bookings.Approve: a stored call time is always a date-time. A `submit_form` document whose posted `call_time` text was never replaced by a parsed time stores that text instead. Approving such a booking sets APPROVED and sends the SMS, then raises `TypeError` at the comparison `call_time > now_ist` (app.py:2380), so no call is attempted. The poller's `$lte` never selects it. Neither outcome is modelled.
- Submission values are strings. Non-string JSON values in `api_submit` (numbers, lists) are not modelled. In `submit_form` a `None` client id is a `Null` value.
- Registry.SaveForm: an existing form without an `api_key` field raises `KeyError` in the source. The model stores a null key as `None` and keeps it.
- Intake.SubmitForm: the client id lookup (`form_builders` or the session) is a parameter. The client alert after the insert (app.py:2222-2224) is not modelled. Its number would follow the same rule as `Phone.ClientAlertTarget`, and the locals `extracted_name` and `extracted_phone` only feed its text.
- Intake.SubmitForm: when a loop key is missing, success is promised only as far as `Intake.NoNameFieldFails` and the four-key case go. Which other posted forms survive the scan is not stated.
- Trend.PrevDay: Python raises `OverflowError` before 0001-01-01. The model has no lower bound on years and steps back into year 0.
- Registry.RegenerateKey: the `created_at` timestamps of API keys and applications are not modelled. Issuance (app.py:920), regeneration (app.py:973) and `create_application` (app.py:1700) set them. No modelled handler reads them; for keys, the `/api-key` listing sorts by them, newest first (app.py:935).
- Registry.ApiCalls: the answer is the set of visible call requests. Sorting by `created_at` and hiding `_id` are not modelled.
- Registry.DeleteApplication: the source removes only the first `client_apps` document of the pair (`delete_one`). The model follows that, so an application stored twice survives a delete (Registry.DuplicateSurvivesDelete).
- Bookings.RunScheduledCalls: the loop order is whatever the query returns. The contract shows that the order does not matter.
- `api_submit` response fields other than the receipt (`status: success`, the commented-out call block) are not modelled.

## Findings

| source | as written | input that shows it | evidently intended | confidence | as-written member | corrected member |
|---|---|---|---|---|---|---|
| app.py:2189-2207 | The loop iterates `data.items()` and assigns `data["name"]`, `data["phone"]`, `data["time"]` and `data["call_time"]` inside it. Assigning a key that is not there yet grows the dictionary being iterated, and CPython raises "dictionary changed size during iteration" at the next step. | Any posted form without a field called exactly `name`: the `app_name` item mentions "name", so `name` is inserted and the iteration raises. | Iterate over a snapshot (`list(data.items())`), so the assignments cannot break the loop. | not executed | Intake.NoNameFieldFails | Intake.RepairedAcceptsNoNameField |
| app.py:2202-2220 | The repaired year is assigned to the local `call_time` only. `data["call_time"]` was stored at line 2206, before the repair, and is what line 2220 inserts. | A form posting `name`, `phone`, `time` and `call_time` fields (so the scan inserts no key) and `preferred_call_time` = `0026-05-01T10:00`: the document stores year 26. | Store the repaired time, as `api_submit` does. | not executed | Intake.StoredCallTimeIsUnrepaired | Intake.SubmitFormRepaired |
